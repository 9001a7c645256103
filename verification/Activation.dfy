/**
 Thin activation: graph, tokenizer and manifest embedded, every tensor in a shard file. It
 accepts only what the full loader loads, and agrees with it on every part.
 */
module Activation {
  import opened Wrappers
  import opened Bytes
  import opened Capsule
  import opened CapsuleLayout
  import opened Graphs
  import opened Descriptors
  import opened Tensors
  import opened Tokenizers
  import opened Ordering
  import opened Loaders

  datatype ShardRef = ShardRef(descriptor: TensorDescriptor, graphValue: Option<u32>, logicalLen: u64, hash: Digest)

  datatype ThinActivation = ThinActivation(graph: Graph, tokenizer: Tokenizer, manifest: GenerativeManifest, shards: map<u32, ShardRef>)

  // The text of a fault in a part is left out.
  datatype ThinError =
    | CapsuleFault(capsuleError: CapsuleError)
    | PartFault(part: SectionKind)
    | WrongCapsuleKind(kind: CapsuleKind)
    | MissingPart(part: SectionKind)
    | MultipleParts(part: SectionKind)
    | NoDescriptorTable
    | TwoDescriptorTables
    | UnexpectedEmbeddedTensorChunk
    | UnexpectedExternalChunk(part: SectionKind)
    | RepeatedTensorId(id: u32)
    | RepeatedGraphBinding(value: u32)
    | NoTensorShard(id: u32)
    | StrayTensorShard(id: u32)
    | ShardDescriptorMismatch(id: u32)
    | MissingGraphBinding(id: u32)
    | BindingRejected(error: ProgramError)
    | InvalidTokenInput(value: u32)
    | InvalidDistributionOutput(index: u32)
    | VocabularyMismatch(manifest: u32, tokenizer: nat)
    | ShardFault

  /** The bytes of the shard file named after the hash, if they are what the reference says. */
  function ReadShard(env: Env, hash: Digest, logicalLen: u64): Option<Vec<byte>> {
    match env.content(hash)
    case None => None
    case Some(bytes) => if |bytes| != logicalLen || env.h(bytes) != hash then None else Some(bytes)
  }

  function ShardOf(env: Env, c: Chunk): Option<NativeTensor> {
    match ReadShard(env, c.hash, c.logicalLen)
    case None => None
    case Some(bytes) =>
      match DecodedTensor(env.h, bytes)
      case Err(_) => None
      case Ok(t) => Some(t)
  }

  /** The bytes of the only chunk of a kind, which must be embedded. */
  function OnlyEmbedded(chunks: seq<Chunk>, kind: SectionKind): Result<Vec<byte>, ThinError> {
    var found := Sections(chunks, kind);
    if |found| == 0 then Err(MissingPart(kind))
    else if |found| > 1 then Err(MultipleParts(kind))
    else if found[0].stored.None? then Err(UnexpectedExternalChunk(kind))
    else Ok(found[0].stored.value)
  }

  function ManifestFault(g: Graph, k: Tokenizer, m: GenerativeManifest): Option<ThinError> {
    match DeclOf(g.inputs, m.tokenInput, 0)
    case None => Some(InvalidTokenInput(m.tokenInput))
    case Some(decl) =>
      if decl.ty != Tensor(I32, 1) then Some(InvalidTokenInput(m.tokenInput))
      else if m.distributionOutput >= |g.outputs| then Some(InvalidDistributionOutput(m.distributionOutput))
      else if m.vocabularySize != |k.tokens| then Some(VocabularyMismatch(m.vocabularySize, |k.tokens|))
      else None
  }

  /** The descriptor table and the external chunks among the first `n` tensor chunks. */
  function Classified(chunks: seq<Chunk>, n: nat): Result<(Option<seq<TensorDescriptor>>, seq<Chunk>), ThinError>
    requires n <= |chunks|
  {
    if n == 0 then Ok((None, []))
    else
      var (table, external) :- Classified(chunks, n - 1);
      match chunks[n - 1].stored
      case None => Ok((table, external + [chunks[n - 1]]))
      case Some(bytes) =>
        if !(TABLE_MAGIC <= bytes) then Err(UnexpectedEmbeddedTensorChunk)
        else if table.Some? then Err(TwoDescriptorTables)
        else
          match DecodeTable(bytes)
          case Err(_) => Err(PartFault(TENSORS))
          case Ok(ds) => Ok((Some(ds), external))
  }

  // The tensor ids met and the shards bound so far.
  datatype Linked = Linked(ids: set<u32>, shards: map<u32, ShardRef>)

  function RefOf(c: Chunk, t: NativeTensor): ShardRef {
    ShardRef(t.descriptor, t.graphValue, c.logicalLen, c.hash)
  }

  function LinkOne(env: Env, g: Graph, table: Table, linked: Linked, c: Chunk): Result<Linked, ThinError> {
    match ShardOf(env, c)
    case None => Err(ShardFault)
    case Some(t) =>
      var id := t.descriptor.id;
      if id in linked.ids then Err(RepeatedTensorId(id))
      else if id !in table then Err(StrayTensorShard(id))
      else if table[id] != t.descriptor then Err(ShardDescriptorMismatch(id))
      else
        match t.graphValue
        case None => Err(MissingGraphBinding(id))
        case Some(value) =>
          match BindingFault(g, value, table[id])
          case Some(e) => Err(BindingRejected(e))
          case None =>
            if value in linked.shards then Err(RepeatedGraphBinding(value))
            else Ok(Linked(linked.ids + {id}, linked.shards[value := RefOf(c, t)]))
  }

  function LinkedShards(env: Env, g: Graph, table: Table, external: seq<Chunk>, n: nat): Result<Linked, ThinError>
    requires n <= |external|
  {
    if n == 0 then Ok(Linked({}, map[]))
    else
      var linked :- LinkedShards(env, g, table, external, n - 1);
      LinkOne(env, g, table, linked, external[n - 1])
  }

  function ActivateParts(env: Env, chunks: seq<Chunk>): Result<(Graph, Tokenizer, GenerativeManifest), ThinError> {
    var graphBytes :- OnlyEmbedded(chunks, GRAPH);
    match GraphOf(graphBytes)
    case None => Err(PartFault(GRAPH))
    case Some(g) =>
      var tokenizerBytes :- OnlyEmbedded(chunks, TOKENIZER);
      match DecodedTokenizer(tokenizerBytes)
      case Err(_) => Err(PartFault(TOKENIZER))
      case Ok(k) =>
        var manifestBytes :- OnlyEmbedded(chunks, GENERATIVE_MANIFEST);
        match DecodeGenerativeManifest(manifestBytes)
        case Err(_) => Err(PartFault(GENERATIVE_MANIFEST))
        case Ok(m) =>
          match ManifestFault(g, k, m)
          case Some(e) => Err(e)
          case None => Ok((g, k, m))
  }

  function LinkTable(env: Env, g: Graph, table: Option<seq<TensorDescriptor>>, external: seq<Chunk>): Result<map<u32, ShardRef>, ThinError> {
    if table.None? then Err(NoDescriptorTable)
    else
      match TableOf(table.value, |table.value|)
      case Err(id) => Err(RepeatedTensorId(id))
      case Ok(byId) =>
        var linked :- LinkedShards(env, g, byId, external, |external|);
        if byId.Keys - linked.ids != {} then Err(NoTensorShard(Least(byId.Keys - linked.ids)))
        else Ok(linked.shards)
  }

  function ActivateChunks(env: Env, chunks: seq<Chunk>): Result<ThinActivation, ThinError> {
    var (g, k, m) :- ActivateParts(env, chunks);
    var parts := Sections(chunks, TENSORS);
    var (table, external) :- Classified(parts, |parts|);
    var shards :- LinkTable(env, g, table, external);
    if m.tokenInput in shards then Err(InvalidTokenInput(m.tokenInput))
    else Ok(ThinActivation(g, k, m, shards))
  }

  predicate Borrowed(v: View) {
    forall i :: 0 <= i < |v.chunks| && v.chunks[i].stored.Some? ==> |v.chunks[i].stored.value| <= ISIZE_MAX
  }

  function ChunksOf(v: View): (r: seq<Chunk>)
    requires Borrowed(v)
    ensures r == v.chunks
  {
    seq(|v.chunks|, i requires 0 <= i < |v.chunks| => v.chunks[i])
  }

  /** The chunks a reader shows are slices of the file. */
  lemma ViewIsBorrowed(h: HashFn, bytes: Vec<byte>, v: View)
    requires Read(h, bytes) == Ok(v)
    ensures Borrowed(v)
  {
    hide Read, Front, Start, PayloadOffset, FileLen;
    ReadExactly(h, bytes, v);
    forall i | 0 <= i < |v.chunks| && v.chunks[i].stored.Some?
      ensures |v.chunks[i].stored.value| <= ISIZE_MAX
    {
      assert InPlace(bytes, v.chunks, i);
    }
  }

  /** `activate_thin_generative_capsule` */
  function Activate(env: Env, bytes: Vec<byte>): Result<ThinActivation, ThinError> {
    hide Read, ActivateChunks;
    match Read(env.h, bytes)
    case Err(e) => Err(CapsuleFault(e))
    case Ok(v) =>
      ViewIsBorrowed(env.h, bytes, v);
      if v.kind != Thin then Err(WrongCapsuleKind(v.kind)) else ActivateChunks(env, ChunksOf(v))
  }

  datatype Invalid = Invalid

  /** What the file-backed resolver finds for a graph value: nothing, or the tensor of its shard. */
  function ResolveTensor(env: Env, shards: map<u32, ShardRef>, value: u32): Result<Option<NativeTensor>, Invalid> {
    if value !in shards then Ok(None)
    else
      var reference := shards[value];
      match ReadShard(env, reference.hash, reference.logicalLen)
      case None => Err(Invalid)
      case Some(bytes) =>
        match DecodedTensor(env.h, bytes)
        case Err(_) => Err(Invalid)
        case Ok(t) => if t.descriptor != reference.descriptor || t.graphValue != Some(value) then Err(Invalid) else Ok(Some(t))
  }

  /******* Agreement with the full loader *******/

  /** What the shard files hold, the content store holds. */
  ghost predicate Covers(files: Env, env: Env) {
    files.h == env.h && forall d, b {:trigger env.content(d), files.h(b)} :: files.content(d) == Some(b) && files.h(b) == d ==> env.content(d) == Some(b)
  }

  /** Graph, tokenizer and manifest are the same, and so is what every value is bound to. */
  ghost predicate Agrees(files: Env, a: ThinActivation, p: GenerativeProgram) {
    && p.program.graph == a.graph && p.tokenizer == a.tokenizer && p.manifest == Some(a.manifest)
    && (forall t :: t in p.program.tensors ==> t.graphValue.Some? && t.graphValue.value in a.shards)
    && forall v :: v in a.shards ==>
         && ResolveTensor(files, a.shards, v).Ok? && ResolveTensor(files, a.shards, v).value.Some?
         && ResolveTensor(files, a.shards, v).value.value in p.program.tensors
  }

  lemma ShardIsResolved(files: Env, env: Env, c: Chunk)
    requires Covers(files, env) && c.stored.None? && ReadShard(files, c.hash, c.logicalLen).Some?
    ensures Resolve(env, c) == Ok(ReadShard(files, c.hash, c.logicalLen).value)
  {
    var bytes := ReadShard(files, c.hash, c.logicalLen).value;
    assert files.h(bytes) == c.hash && env.content(c.hash) == Some(bytes);
  }

  lemma TensorsAreNoTables(h: HashFn, bytes: Vec<byte>)
    requires DecodedTensor(h, bytes).Ok?
    ensures TENSOR_MAGIC <= bytes && !(TABLE_MAGIC <= bytes)
  {
    hide GetDims, GetLong, Assemble, ElementCount, PutTensorTags, PutTensorSizes, GetTensorHeader, PutU16;
    var (head, s1) := GetTensorHeader(bytes).value;
    assert bytes[2] == 0x50;
  }

  /** External chunks whose shards open. */
  ghost predicate AllOpen(files: Env, external: seq<Chunk>) {
    forall i :: 0 <= i < |external| ==> external[i].stored.None? && ShardOf(files, external[i]).Some?
  }

  ghost function Opened(files: Env, external: seq<Chunk>): (r: seq<NativeTensor>)
    requires AllOpen(files, external)
    ensures |r| == |external|
  {
    seq(|external|, i requires 0 <= i < |external| => ShardOf(files, external[i]).value)
  }

  lemma CollectShard(files: Env, env: Env, c: Chunk, table: Option<seq<TensorDescriptor>>, tensors: seq<NativeTensor>)
    requires Covers(files, env) && c.stored.None? && ShardOf(files, c).Some?
    ensures Resolve(env, c).Ok?
    ensures CollectOne(env.h, table, tensors, Resolve(env, c).value) == Ok((table, tensors + [ShardOf(files, c).value]))
  {
    hide Resolve, ReadShard, DecodedTensor, DecodeTable;
    ShardIsResolved(files, env, c);
    TensorsAreNoTables(files.h, ReadShard(files, c.hash, c.logicalLen).value);
  }

  /** The full loader collects the thin one's table and the tensors of its shards. */
  lemma {:induction false} ClassifiedIsCollected(files: Env, env: Env, chunks: seq<Chunk>, n: nat)
    requires n <= |chunks| && Covers(files, env)
    requires Classified(chunks, n).Ok? && AllOpen(files, Classified(chunks, n).value.1)
    ensures var (table, external) := Classified(chunks, n).value;
            Collected(env, chunks, n) == Ok((table, Opened(files, external)))
    decreases n
  {
    hide ShardOf, DecodeTable, Covers, CollectOne;
    if n > 0 {
      var (table, external) := Classified(chunks, n - 1).value;
      var all := Classified(chunks, n).value.1;
      assert external == all[..|external|];
      ClassifiedIsCollected(files, env, chunks, n - 1);
      var c := chunks[n - 1];
      if c.stored.None? {
        assert all[|external|] == c;
        CollectShard(files, env, c, table, Opened(files, external));
        assert Opened(files, all) == Opened(files, external) + [ShardOf(files, c).value];
      } else {
        assert all == external;
        CollectTable(env.h, table, Opened(files, external), c.stored.value);
      }
    }
  }

  lemma CollectTable(h: HashFn, table: Option<seq<TensorDescriptor>>, tensors: seq<NativeTensor>, bytes: Vec<byte>)
    requires TABLE_MAGIC <= bytes && table.None? && DecodeTable(bytes).Ok?
    ensures CollectOne(h, table, tensors, bytes) == Ok((Some(DecodeTable(bytes).value), tensors))
  {
    hide DecodeTable, DecodedTensor;
  }

  lemma {:induction false} ClassifiedAreExternal(chunks: seq<Chunk>, n: nat)
    requires n <= |chunks| && Classified(chunks, n).Ok?
    ensures forall c :: c in Classified(chunks, n).value.1 ==> c.stored.None?
    decreases n
  {
    hide DecodeTable;
    if n > 0 {
      ClassifiedAreExternal(chunks, n - 1);
    }
  }

  lemma {:induction false} LinkedAreOpen(files: Env, g: Graph, table: Table, external: seq<Chunk>, n: nat)
    requires n <= |external| && LinkedShards(files, g, table, external, n).Ok?
    ensures forall i :: 0 <= i < n ==> ShardOf(files, external[i]).Some?
    decreases n
  {
    hide ShardOf, BindingFault;
    if n > 0 {
      LinkedAreOpen(files, g, table, external, n - 1);
    }
  }

  /** Each of the first `n` tensors is bound, and the references are theirs. */
  ghost predicate Links(external: seq<Chunk>, tensors: seq<NativeTensor>, shards: map<u32, ShardRef>, n: nat)
    requires |external| == |tensors| && n <= |tensors|
  {
    && (forall i :: 0 <= i < n ==>
          var t := tensors[i]; t.graphValue.Some? && t.graphValue.value in shards && shards[t.graphValue.value] == RefOf(external[i], t))
    && forall v :: v in shards ==> exists i :: 0 <= i < n && tensors[i].graphValue == Some(v)
  }

  lemma LinkIsMeeting(files: Env, g: Graph, table: Table, linked: Linked, c: Chunk)
    requires LinkOne(files, g, table, linked, c).Ok?
    ensures ShardOf(files, c).Some? && ShardOf(files, c).value.graphValue.Some?
    ensures var t := ShardOf(files, c).value;
            var v := t.graphValue.value;
            var after := LinkOne(files, g, table, linked, c).value;
            && v !in linked.shards && after.shards == linked.shards[v := RefOf(c, t)]
            && MeetOne(g, table, Met(linked.ids, linked.shards.Keys), t) == Ok(Met(after.ids, after.shards.Keys))
  {
    hide ShardOf, BindingFault;
    var t := ShardOf(files, c).value;
    var v := t.graphValue.value;
    assert linked.shards[v := RefOf(c, t)].Keys == linked.shards.Keys + {v};
  }

  lemma {:induction false} LinkedIsChecked(files: Env, g: Graph, table: Table, external: seq<Chunk>, n: nat)
    requires n <= |external| && AllOpen(files, external) && LinkedShards(files, g, table, external, n).Ok?
    ensures var linked := LinkedShards(files, g, table, external, n).value;
            && Checked(g, table, Opened(files, external), n) == Ok(Met(linked.ids, linked.shards.Keys))
            && Links(external, Opened(files, external), linked.shards, n)
    decreases n
  {
    hide ShardOf, LinkOne, MeetOne;
    if n > 0 {
      LinkedIsChecked(files, g, table, external, n - 1);
      LinkIsMeeting(files, g, table, LinkedShards(files, g, table, external, n - 1).value, external[n - 1]);
    } else {
      assert LinkedShards(files, g, table, external, 0).value.shards.Keys == {};
    }
  }

  lemma LinkedTableLoads(files: Env, g: Graph, table: Option<seq<TensorDescriptor>>, external: seq<Chunk>)
    requires LinkTable(files, g, table, external).Ok? && AllOpen(files, external)
    ensures Assembled(g, table, Opened(files, external)) == Ok(NativeProgram(g, SortById(Opened(files, external))))
    ensures Links(external, Opened(files, external), LinkTable(files, g, table, external).value, |external|)
  {
    hide TableOf, LinkedShards, Checked, AllOpen, Opened, Links, SortById;
    var byId := TableOf(table.value, |table.value|).value;
    LinkedIsChecked(files, g, byId, external, |external|);
  }

  lemma LinkTableOpens(files: Env, g: Graph, table: Option<seq<TensorDescriptor>>, external: seq<Chunk>)
    requires LinkTable(files, g, table, external).Ok? && forall c :: c in external ==> c.stored.None?
    ensures AllOpen(files, external)
  {
    hide TableOf, LinkedShards, ShardOf;
    LinkedAreOpen(files, g, TableOf(table.value, |table.value|).value, external, |external|);
  }

  lemma EmbeddedPart(env: Env, chunks: seq<Chunk>, kind: SectionKind)
    requires OnlyEmbedded(chunks, kind).Ok?
    ensures |Sections(chunks, kind)| == 1 && Resolve(env, Sections(chunks, kind)[0]) == Ok(OnlyEmbedded(chunks, kind).value)
  {
  }

  lemma PartsLoad(files: Env, env: Env, chunks: seq<Chunk>)
    requires ActivateParts(files, chunks).Ok?
    ensures var (g, k, m) := ActivateParts(files, chunks).value;
            LoadGraph(env, chunks) == Ok(g) && LoadTokenizer(env, chunks) == Ok(k) && LoadManifest(env, chunks) == Ok(Some(m))
  {
    hide OnlyEmbedded, GraphOf, DecodedTokenizer, DecodeGenerativeManifest, ManifestFault, Sections, Resolve;
    EmbeddedPart(env, chunks, GRAPH);
    EmbeddedPart(env, chunks, TOKENIZER);
    EmbeddedPart(env, chunks, GENERATIVE_MANIFEST);
  }

  lemma LinksAgree(files: Env, external: seq<Chunk>, shards: map<u32, ShardRef>)
    requires AllOpen(files, external) && Links(external, Opened(files, external), shards, |external|)
    ensures var tensors := SortById(Opened(files, external));
            && (forall t :: t in tensors ==> t.graphValue.Some? && t.graphValue.value in shards)
            && forall v :: v in shards ==>
                 && ResolveTensor(files, shards, v).Ok? && ResolveTensor(files, shards, v).value.Some?
                 && ResolveTensor(files, shards, v).value.value in tensors
  {
    hide ReadShard, SortFirst;
    var ts := Opened(files, external);
    SameElements(ts, SortById(ts));
    forall v | v in shards
      ensures ResolveTensor(files, shards, v).Ok? && ResolveTensor(files, shards, v).value.Some?
      ensures ResolveTensor(files, shards, v).value.value in SortById(ts)
    {
      var i :| 0 <= i < |external| && ts[i].graphValue == Some(v);
      assert shards[v] == RefOf(external[i], ts[i]);
      assert ShardOf(files, external[i]) == Some(ts[i]);
      assert ts[i] in ts;
    }
  }

  lemma ChunksAreLoaded(files: Env, env: Env, chunks: seq<Chunk>)
    requires Covers(files, env) && ActivateChunks(files, chunks).Ok?
    ensures LoadGenerative(env, chunks).Ok?
    ensures Agrees(files, ActivateChunks(files, chunks).value, LoadGenerative(env, chunks).value)
  {
    hide Covers, ActivateParts, Sections, Classified, LinkTable, Collected, Assembled, LoadGraph, LoadTokenizer, LoadManifest, ResolveTensor, SortById;
    PartsLoad(files, env, chunks);
    var (g, k, m) := ActivateParts(files, chunks).value;
    var parts := Sections(chunks, TENSORS);
    var (table, external) := Classified(parts, |parts|).value;
    ClassifiedAreExternal(parts, |parts|);
    LinkTableOpens(files, g, table, external);
    ClassifiedIsCollected(files, env, parts, |parts|);
    LinkedTableLoads(files, g, table, external);
    LinksAgree(files, external, LinkTable(files, g, table, external).value);
  }

  /**
   Whenever thin activation accepts a capsule, the full loader loads it over the same
   content, and the two agree on graph, tokenizer, manifest and every tensor binding.
   */
  lemma ActivationIsLoaded(files: Env, env: Env, bytes: Vec<byte>, v: View)
    requires Covers(files, env) && Read(files.h, bytes) == Ok(v) && Activate(files, bytes).Ok?
    ensures Borrowed(v) && LoadGenerative(env, ChunksOf(v)).Ok?
    ensures Agrees(files, Activate(files, bytes).value, LoadGenerative(env, ChunksOf(v)).value)
  {
    hide ActivateChunks, LoadGenerative, Agrees, Covers, Read, Borrowed;
    ViewIsBorrowed(files.h, bytes, v);
    ChunksAreLoaded(files, env, ChunksOf(v));
  }
}
