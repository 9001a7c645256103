/** The full and the thin loader as they run, with their loops over chunks, tensors and shards. */
module LoaderRuns {
  import opened Wrappers
  import opened Bytes
  import opened Capsule
  import opened CapsuleLayout
  import opened CapsuleFile
  import opened Graphs
  import opened GraphCodec
  import opened GraphStreams
  import opened Descriptors
  import opened Tensors
  import opened TensorStreams
  import opened Tokenizers
  import opened TokenizerStreams
  import opened Ordering
  import opened Loaders
  import opened Activation

  method FindSections(chunks: seq<Chunk>, kind: SectionKind) returns (found: seq<Chunk>)
    ensures found == Sections(chunks, kind)
  {
    found := [];
    for i := 0 to |chunks|
      invariant found == OfKind(chunks, kind, i)
    {
      if chunks[i].kind == kind {
        found := found + [chunks[i]];
      }
    }
  }

  method ReadGraph(bytes: Vec<byte>) returns (g: Option<Graph>)
    ensures g == GraphOf(bytes)
  {
    hide GraphOf, Decodes, Parse, WellFormed;
    var r := DecodeGraph(bytes);
    if r.Ok? {
      g := Some(r.value);
    } else {
      g := None;
    }
  }

  method RunLoadGraph(env: Env, chunks: seq<Chunk>) returns (r: Result<Graph, ProgramError>)
    ensures r == LoadGraph(env, chunks)
  {
    hide Resolve, GraphOf, Sections;
    var graphs := FindSections(chunks, GRAPH);
    if |graphs| == 0 { return Err(MissingGraph); }
    if |graphs| > 1 { return Err(MultipleGraphs); }
    var bytes := Resolve(env, graphs[0]);
    if bytes.Err? { return Err(Unresolved(bytes.error)); }
    var g := ReadGraph(bytes.value);
    if g.None? { return Err(BadGraph); }
    r := Ok(g.value);
  }

  /** One tensor chunk: the descriptor table, or a tensor. */
  method CollectChunk(h: HashFn, table: Option<seq<TensorDescriptor>>, tensors: seq<NativeTensor>, bytes: Vec<byte>)
    returns (r: Result<(Option<seq<TensorDescriptor>>, seq<NativeTensor>), ProgramError>)
    ensures r == CollectOne(h, table, tensors, bytes)
  {
    hide DecodeTable, DecodedTensor;
    if TABLE_MAGIC <= bytes {
      if table.Some? { return Err(MultipleDescriptorTables); }
      var ds := DecodeDescriptors(bytes);
      r := if ds.Err? then Err(BadDescriptors(ds.error)) else Ok((Some(ds.value), tensors));
    } else if TENSOR_MAGIC <= bytes {
      var t := DecodeTensor(h, bytes);
      r := if t.Err? then Err(BadTensor(t.error)) else Ok((table, tensors + [t.value]));
    } else {
      r := Err(UnknownTensorChunk);
    }
  }

  method CollectTensors(env: Env, parts: seq<Chunk>) returns (r: Result<(Option<seq<TensorDescriptor>>, seq<NativeTensor>), ProgramError>)
    ensures r == Collected(env, parts, |parts|)
  {
    hide Resolve, CollectOne;
    var table: Option<seq<TensorDescriptor>>, tensors := None, [];
    for i := 0 to |parts|
      invariant Collected(env, parts, i) == Ok((table, tensors))
    {
      var bytes := Resolve(env, parts[i]);
      if bytes.Err? {
        CollectedFails(env, parts, i + 1);
        return Err(Unresolved(bytes.error));
      }
      var one := CollectChunk(env.h, table, tensors, bytes.value);
      if one.Err? {
        CollectedFails(env, parts, i + 1);
        return one;
      }
      table, tensors := one.value.0, one.value.1;
    }
    r := Ok((table, tensors));
  }

  lemma {:induction false} CollectedFails(env: Env, parts: seq<Chunk>, n: nat)
    requires n <= |parts| && Collected(env, parts, n).Err?
    ensures Collected(env, parts, |parts|) == Collected(env, parts, n)
    decreases |parts| - n
  {
    hide Resolve, CollectOne;
    if n < |parts| {
      CollectedFails(env, parts, n + 1);
    }
  }

  method BuildTable(ds: seq<TensorDescriptor>) returns (r: Result<Table, u32>)
    ensures r == TableOf(ds, |ds|)
  {
    var table: Table := map[];
    for i := 0 to |ds|
      invariant TableOf(ds, i) == Ok(table)
    {
      if ds[i].id in table {
        TableFails(ds, i + 1);
        return Err(ds[i].id);
      }
      table := table[ds[i].id := ds[i]];
    }
    r := Ok(table);
  }

  lemma {:induction false} TableFails(ds: seq<TensorDescriptor>, n: nat)
    requires n <= |ds| && TableOf(ds, n).Err?
    ensures TableOf(ds, |ds|) == TableOf(ds, n)
    decreases |ds| - n
  {
    if n < |ds| {
      TableFails(ds, n + 1);
    }
  }

  method CheckTensors(g: Graph, table: Table, tensors: seq<NativeTensor>) returns (r: Result<Met, ProgramError>)
    ensures r == Checked(g, table, tensors, |tensors|)
  {
    hide MeetOne;
    var met := Met({}, {});
    for i := 0 to |tensors|
      invariant Checked(g, table, tensors, i) == Ok(met)
    {
      var next := MeetOne(g, table, met, tensors[i]);
      if next.Err? {
        CheckedFails(g, table, tensors, i + 1);
        return next;
      }
      met := next.value;
    }
    r := Ok(met);
  }

  lemma {:induction false} CheckedFails(g: Graph, table: Table, tensors: seq<NativeTensor>, n: nat)
    requires n <= |tensors| && Checked(g, table, tensors, n).Err?
    ensures Checked(g, table, tensors, |tensors|) == Checked(g, table, tensors, n)
    decreases |tensors| - n
  {
    hide MeetOne;
    if n < |tensors| {
      CheckedFails(g, table, tensors, n + 1);
    }
  }

  method Assemble(g: Graph, table: Option<seq<TensorDescriptor>>, tensors: seq<NativeTensor>) returns (r: Result<NativeProgram, ProgramError>)
    ensures r == Assembled(g, table, tensors)
  {
    hide TableOf, Checked, SortById;
    if table.None? { return Err(MissingDescriptorTable); }
    var byId := BuildTable(table.value);
    if byId.Err? { return Err(DuplicateTensorId(byId.error)); }
    var met := CheckTensors(g, byId.value, tensors);
    if met.Err? { return Err(met.error); }
    var missing := byId.value.Keys - met.value.ids;
    if missing != {} { return Err(MissingTensorShard(Least(missing))); }
    r := Ok(NativeProgram(g, SortById(tensors)));
  }

  /** A program comes with its tensors by ascending id, one for each descriptor, bound to distinct inputs. */
  method RunLoadProgram(env: Env, chunks: seq<Chunk>) returns (r: Result<NativeProgram, ProgramError>)
    ensures r == LoadProgram(env, chunks)
    ensures r.Ok? ==> WellFormed(r.value.graph) && IdsAscend(r.value.tensors)
  {
    hide LoadGraph, Sections, Collected, Assembled, WellFormed, IdsAscend;
    if LoadProgram(env, chunks).Ok? {
      ProgramIsBound(env, chunks);
    }
    var g := RunLoadGraph(env, chunks);
    if g.Err? { return Err(g.error); }
    var parts := FindSections(chunks, TENSORS);
    var collected := CollectTensors(env, parts);
    if collected.Err? { return Err(collected.error); }
    r := Assemble(g.value, collected.value.0, collected.value.1);
  }

  method RunLoadTokenizer(env: Env, chunks: seq<Chunk>) returns (r: Result<Tokenizer, GenerativeError>)
    ensures r == LoadTokenizer(env, chunks)
  {
    hide Resolve, DecodedTokenizer, Sections;
    var tokenizers := FindSections(chunks, TOKENIZER);
    if |tokenizers| == 0 { return Err(MissingTokenizer); }
    if |tokenizers| > 1 { return Err(MultipleTokenizers); }
    var bytes := Resolve(env, tokenizers[0]);
    if bytes.Err? { return Err(NotResolved(bytes.error)); }
    var k := DecodeTokenizer(bytes.value);
    if k.Err? { return Err(BadTokenizer(k.error)); }
    r := Ok(k.value);
  }

  method RunLoadManifest(env: Env, chunks: seq<Chunk>) returns (r: Result<Option<GenerativeManifest>, GenerativeError>)
    ensures r == LoadManifest(env, chunks)
  {
    hide Resolve, DecodeGenerativeManifest, Sections;
    var manifests := FindSections(chunks, GENERATIVE_MANIFEST);
    if |manifests| == 0 { return Ok(None); }
    if |manifests| > 1 { return Err(MultipleGenerativeManifests); }
    var bytes := Resolve(env, manifests[0]);
    if bytes.Err? { return Err(NotResolved(bytes.error)); }
    var m := DecodeGenerativeManifest(bytes.value);
    if m.Err? { return Err(BadManifest(m.error)); }
    r := Ok(Some(m.value));
  }

  method RunLoadGenerative(env: Env, chunks: seq<Chunk>) returns (r: Result<GenerativeProgram, GenerativeError>)
    ensures r == LoadGenerative(env, chunks)
  {
    hide LoadProgram, LoadTokenizer, LoadManifest;
    var program := RunLoadProgram(env, chunks);
    if program.Err? { return Err(Program(program.error)); }
    var tokenizer := RunLoadTokenizer(env, chunks);
    if tokenizer.Err? { return Err(tokenizer.error); }
    var manifest := RunLoadManifest(env, chunks);
    if manifest.Err? { return Err(manifest.error); }
    r := Ok(GenerativeProgram(program.value, tokenizer.value, manifest.value));
  }

  /******* Thin activation *******/

  method FindEmbedded(chunks: seq<Chunk>, kind: SectionKind) returns (r: Result<Vec<byte>, ThinError>)
    ensures r == OnlyEmbedded(chunks, kind)
  {
    hide Sections;
    var found := FindSections(chunks, kind);
    if |found| == 0 { return Err(MissingPart(kind)); }
    if |found| > 1 { return Err(MultipleParts(kind)); }
    if found[0].stored.None? { return Err(UnexpectedExternalChunk(kind)); }
    r := Ok(found[0].stored.value);
  }

  method RunActivateParts(env: Env, chunks: seq<Chunk>) returns (r: Result<(Graph, Tokenizer, GenerativeManifest), ThinError>)
    ensures r == ActivateParts(env, chunks)
  {
    hide OnlyEmbedded, GraphOf, DecodedTokenizer, DecodeGenerativeManifest, ManifestFault;
    var graphBytes := FindEmbedded(chunks, GRAPH);
    if graphBytes.Err? { return Err(graphBytes.error); }
    var g := ReadGraph(graphBytes.value);
    if g.None? { return Err(PartFault(GRAPH)); }
    var tokenizerBytes := FindEmbedded(chunks, TOKENIZER);
    if tokenizerBytes.Err? { return Err(tokenizerBytes.error); }
    var k := DecodeTokenizer(tokenizerBytes.value);
    if k.Err? { return Err(PartFault(TOKENIZER)); }
    var manifestBytes := FindEmbedded(chunks, GENERATIVE_MANIFEST);
    if manifestBytes.Err? { return Err(manifestBytes.error); }
    var m := DecodeGenerativeManifest(manifestBytes.value);
    if m.Err? { return Err(PartFault(GENERATIVE_MANIFEST)); }
    var fault := ManifestFault(g.value, k.value, m.value);
    if fault.Some? { return Err(fault.value); }
    r := Ok((g.value, k.value, m.value));
  }

  method ClassifyChunks(parts: seq<Chunk>) returns (r: Result<(Option<seq<TensorDescriptor>>, seq<Chunk>), ThinError>)
    ensures r == Classified(parts, |parts|)
  {
    hide DecodeTable;
    var table: Option<seq<TensorDescriptor>>, external := None, [];
    for i := 0 to |parts|
      invariant Classified(parts, i) == Ok((table, external))
    {
      if parts[i].stored.None? {
        external := external + [parts[i]];
      } else {
        var bytes := parts[i].stored.value;
        var error: Option<ThinError> := None;
        if !(TABLE_MAGIC <= bytes) {
          error := Some(UnexpectedEmbeddedTensorChunk);
        } else if table.Some? {
          error := Some(TwoDescriptorTables);
        } else {
          var ds := DecodeDescriptors(bytes);
          if ds.Err? {
            error := Some(PartFault(TENSORS));
          } else {
            table := Some(ds.value);
          }
        }
        if error.Some? {
          ClassifiedFails(parts, i + 1);
          return Err(error.value);
        }
      }
    }
    r := Ok((table, external));
  }

  lemma {:induction false} ClassifiedFails(parts: seq<Chunk>, n: nat)
    requires n <= |parts| && Classified(parts, n).Err?
    ensures Classified(parts, |parts|) == Classified(parts, n)
    decreases |parts| - n
  {
    hide DecodeTable;
    if n < |parts| {
      ClassifiedFails(parts, n + 1);
    }
  }

  method OpenShard(env: Env, c: Chunk) returns (t: Option<NativeTensor>)
    ensures t == ShardOf(env, c)
  {
    hide ReadShard, DecodedTensor;
    var bytes := ReadShard(env, c.hash, c.logicalLen);
    if bytes.None? { return None; }
    var native := DecodeTensor(env.h, bytes.value);
    t := if native.Err? then None else Some(native.value);
  }

  method LinkChunk(env: Env, g: Graph, table: Table, linked: Linked, c: Chunk) returns (r: Result<Linked, ThinError>)
    ensures r == LinkOne(env, g, table, linked, c)
  {
    hide ShardOf, BindingFault;
    var native := OpenShard(env, c);
    if native.None? { return Err(ShardFault); }
    var t := native.value;
    var id := t.descriptor.id;
    if id in linked.ids { return Err(RepeatedTensorId(id)); }
    if id !in table { return Err(StrayTensorShard(id)); }
    if table[id] != t.descriptor { return Err(ShardDescriptorMismatch(id)); }
    if t.graphValue.None? { return Err(MissingGraphBinding(id)); }
    var value := t.graphValue.value;
    var fault := BindingFault(g, value, table[id]);
    if fault.Some? { return Err(BindingRejected(fault.value)); }
    if value in linked.shards { return Err(RepeatedGraphBinding(value)); }
    r := Ok(Linked(linked.ids + {id}, linked.shards[value := RefOf(c, t)]));
  }

  method LinkShards(env: Env, g: Graph, table: Table, external: seq<Chunk>) returns (r: Result<Linked, ThinError>)
    ensures r == LinkedShards(env, g, table, external, |external|)
  {
    hide LinkOne;
    var linked := Linked({}, map[]);
    for i := 0 to |external|
      invariant LinkedShards(env, g, table, external, i) == Ok(linked)
    {
      var next := LinkChunk(env, g, table, linked, external[i]);
      if next.Err? {
        LinkedFails(env, g, table, external, i + 1);
        return next;
      }
      linked := next.value;
    }
    r := Ok(linked);
  }

  lemma {:induction false} LinkedFails(env: Env, g: Graph, table: Table, external: seq<Chunk>, n: nat)
    requires n <= |external| && LinkedShards(env, g, table, external, n).Err?
    ensures LinkedShards(env, g, table, external, |external|) == LinkedShards(env, g, table, external, n)
    decreases |external| - n
  {
    hide LinkOne;
    if n < |external| {
      LinkedFails(env, g, table, external, n + 1);
    }
  }

  method RunLinkTable(env: Env, g: Graph, table: Option<seq<TensorDescriptor>>, external: seq<Chunk>) returns (r: Result<map<u32, ShardRef>, ThinError>)
    ensures r == LinkTable(env, g, table, external)
  {
    hide TableOf, LinkedShards;
    if table.None? { return Err(NoDescriptorTable); }
    var byId := BuildTable(table.value);
    if byId.Err? { return Err(RepeatedTensorId(byId.error)); }
    var linked := LinkShards(env, g, byId.value, external);
    if linked.Err? { return Err(linked.error); }
    var missing := byId.value.Keys - linked.value.ids;
    if missing != {} { return Err(NoTensorShard(Least(missing))); }
    r := Ok(linked.value.shards);
  }

  method RunActivate(env: Env, bytes: Vec<byte>) returns (r: Result<ThinActivation, ThinError>)
    ensures r == Activate(env, bytes)
  {
    hide CapsuleLayout.Read, Borrowed, ActivateChunks;
    var view := ReadCapsule(env.h, bytes);
    if view.Err? { return Err(CapsuleFault(view.error)); }
    ViewIsBorrowed(env.h, bytes, view.value);
    if view.value.kind != Thin { return Err(WrongCapsuleKind(view.value.kind)); }
    r := RunActivateChunks(env, ChunksOf(view.value));
  }

  method RunActivateChunks(env: Env, chunks: seq<Chunk>) returns (r: Result<ThinActivation, ThinError>)
    ensures r == ActivateChunks(env, chunks)
  {
    hide ActivateParts, Sections, Classified, LinkTable;
    var embedded := RunActivateParts(env, chunks);
    if embedded.Err? { return Err(embedded.error); }
    var (g, k, m) := embedded.value;
    var parts := FindSections(chunks, TENSORS);
    var classified := ClassifyChunks(parts);
    if classified.Err? { return Err(classified.error); }
    var shards := RunLinkTable(env, g, classified.value.0, classified.value.1);
    if shards.Err? { return Err(shards.error); }
    if m.tokenInput in shards.value { return Err(InvalidTokenInput(m.tokenInput)); }
    r := Ok(ThinActivation(g, k, m, shards.value));
  }
}
