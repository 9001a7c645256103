/**
 The two loaders of a generative program. The full loader reads each section from the
 capsule or from a content store; the thin one reads tensors from shard files only. A
 program does not depend on where its sections are kept, and whatever the thin loader
 accepts the full one loads, to the same program.
 */
module Loaders {
  import opened Wrappers
  import opened Bytes
  import opened Capsule
  import opened CapsuleLayout
  import opened Graphs
  import opened GraphCodec
  import opened Descriptors
  import opened Tensors
  import opened Tokenizers
  import opened Ordering

  // A stored chunk is a slice of the file.
  type Chunk = c: ChunkView | c.stored.Some? ==> |c.stored.value| <= ISIZE_MAX witness ChunkView(GRAPH, 0, Zeros(32), None)

  type Content = Digest -> Option<Vec<byte>>

  /** The hash, and the content store given to the loader. */
  datatype Env = Env(h: HashFn, content: Content)

  datatype ResolveError =
    | MissingExternalContent(hash: Digest)
    | ExternalLengthMismatch(expected: u64, actual: nat)
    | ExternalIntegrityMismatch(hash: Digest)

  datatype NativeProgram = NativeProgram(graph: Graph, tensors: seq<NativeTensor>)

  // Which fault a graph has is told by `Graphs.Validate`.
  datatype ProgramError =
    | BadGraph
    | BadDescriptors(error: DescriptorError)
    | BadTensor(tensorError: TensorError)
    | Unresolved(resolveError: ResolveError)
    | MissingGraph
    | MultipleGraphs
    | MissingDescriptorTable
    | MultipleDescriptorTables
    | UnknownTensorChunk
    | DuplicateTensorId(id: u32)
    | DuplicateGraphBinding(value: u32)
    | MissingTensorShard(id: u32)
    | UnknownTensorShard(id: u32)
    | TensorDescriptorMismatch(id: u32)
    | GraphBindingMissing(value: u32)
    | GraphBindingTypeMismatch(value: u32)

  /******* Sections *******/

  function Resolve(env: Env, c: Chunk): Result<Vec<byte>, ResolveError> {
    match c.stored
    case Some(bytes) => Ok(bytes)
    case None =>
      match env.content(c.hash)
      case None => Err(MissingExternalContent(c.hash))
      case Some(bytes) =>
        if |bytes| != c.logicalLen then Err(ExternalLengthMismatch(c.logicalLen, |bytes|))
        else if env.h(bytes) != c.hash then Err(ExternalIntegrityMismatch(c.hash))
        else Ok(bytes)
  }

  /** The chunks of one kind among the first `n`. */
  function OfKind(chunks: seq<Chunk>, kind: SectionKind, n: nat): (r: seq<Chunk>)
    requires n <= |chunks|
    ensures |r| <= n
  {
    if n == 0 then []
    else OfKind(chunks, kind, n - 1) + (if chunks[n - 1].kind == kind then [chunks[n - 1]] else [])
  }

  function Sections(chunks: seq<Chunk>, kind: SectionKind): seq<Chunk> {
    OfKind(chunks, kind, |chunks|)
  }

  /** The graph the bytes are the encoding of. */
  function GraphOf(bytes: Bytes): (r: Option<Graph>)
    ensures forall g :: r == Some(g) <==> Decodes(bytes, g)
  {
    match Parse(bytes)
    case Ok(g) => if WellFormed(g) then Some(g) else None
    case Err(_) => None
  }

  /******* Tensors of a program *******/

  type Table = map<u32, TensorDescriptor>

  /** The first `n` descriptors by id, or the first id that comes again. */
  function TableOf(ds: seq<TensorDescriptor>, n: nat): Result<Table, u32>
    requires n <= |ds|
  {
    if n == 0 then Ok(map[])
    else
      var table :- TableOf(ds, n - 1);
      if ds[n - 1].id in table then Err(ds[n - 1].id) else Ok(table[ds[n - 1].id := ds[n - 1]])
  }

  /** The descriptor table and the tensors in the first `n` tensor chunks. */
  function Collected(env: Env, chunks: seq<Chunk>, n: nat): Result<(Option<seq<TensorDescriptor>>, seq<NativeTensor>), ProgramError>
    requires n <= |chunks|
  {
    if n == 0 then Ok((None, []))
    else
      var (table, tensors) :- Collected(env, chunks, n - 1);
      match Resolve(env, chunks[n - 1])
      case Err(e) => Err(Unresolved(e))
      case Ok(bytes) => CollectOne(env.h, table, tensors, bytes)
  }

  function CollectOne(h: HashFn, table: Option<seq<TensorDescriptor>>, tensors: seq<NativeTensor>, bytes: Vec<byte>)
    : Result<(Option<seq<TensorDescriptor>>, seq<NativeTensor>), ProgramError>
  {
    if TABLE_MAGIC <= bytes then
      if table.Some? then Err(MultipleDescriptorTables)
      else
        match DecodeTable(bytes)
        case Err(e) => Err(BadDescriptors(e))
        case Ok(ds) => Ok((Some(ds), tensors))
    else if TENSOR_MAGIC <= bytes then
      match DecodedTensor(h, bytes)
      case Err(e) => Err(BadTensor(e))
      case Ok(t) => Ok((table, tensors + [t]))
    else Err(UnknownTensorChunk)
  }

  /** The first declaration of `id` from place `i` on. */
  function DeclOf(decls: seq<ValueDecl>, id: u32, i: nat): (r: Option<ValueDecl>)
    requires i <= |decls|
    ensures r.Some? ==> r.value in decls && r.value.id == id
    ensures r.None? ==> forall j :: i <= j < |decls| ==> decls[j].id != id
    decreases |decls| - i
  {
    if i == |decls| then None else if decls[i].id == id then Some(decls[i]) else DeclOf(decls, id, i + 1)
  }

  /** A value of this type can be bound to such a tensor. */
  predicate Matches(ty: ValueType, d: TensorDescriptor) {
    match ty
    case Scalar(dtype) => dtype == d.dtype && d.shape == []
    case Tensor(dtype, rank) => dtype == d.dtype && rank == |d.shape|
    case BytesType => false
    case Handle => false
  }

  function BindingFault(g: Graph, value: u32, d: TensorDescriptor): Option<ProgramError> {
    match DeclOf(g.inputs, value, 0)
    case None => Some(GraphBindingMissing(value))
    case Some(decl) => if Matches(decl.ty, d) then None else Some(GraphBindingTypeMismatch(value))
  }

  // The tensor ids and the bindings met so far.
  datatype Met = Met(ids: set<u32>, bindings: set<u32>)

  function MeetOne(g: Graph, table: Table, met: Met, t: NativeTensor): Result<Met, ProgramError> {
    var id := t.descriptor.id;
    if id in met.ids then Err(DuplicateTensorId(id))
    else if id !in table then Err(UnknownTensorShard(id))
    else if table[id] != t.descriptor then Err(TensorDescriptorMismatch(id))
    else
      match t.graphValue
      case None => Ok(Met(met.ids + {id}, met.bindings))
      case Some(value) =>
        if value in met.bindings then Err(DuplicateGraphBinding(value))
        else
          match BindingFault(g, value, table[id])
          case Some(e) => Err(e)
          case None => Ok(Met(met.ids + {id}, met.bindings + {value}))
  }

  /** Checks the first `n` tensors against the table and the graph. */
  function Checked(g: Graph, table: Table, tensors: seq<NativeTensor>, n: nat): Result<Met, ProgramError>
    requires n <= |tensors|
  {
    if n == 0 then Ok(Met({}, {}))
    else
      var met :- Checked(g, table, tensors, n - 1);
      MeetOne(g, table, met, tensors[n - 1])
  }

  /** `t` among tensors ordered by id. */
  function Insert(sorted: seq<NativeTensor>, t: NativeTensor): (r: seq<NativeTensor>)
    ensures multiset(r) == multiset(sorted) + multiset{t}
  {
    if sorted == [] || sorted[|sorted| - 1].descriptor.id <= t.descriptor.id then sorted + [t]
    else
      assert sorted == sorted[..|sorted| - 1] + [sorted[|sorted| - 1]];
      Insert(sorted[..|sorted| - 1], t) + [sorted[|sorted| - 1]]
  }

  function SortFirst(tensors: seq<NativeTensor>, n: nat): (r: seq<NativeTensor>)
    requires n <= |tensors|
    ensures multiset(r) == multiset(tensors[..n])
  {
    if n == 0 then []
    else
      assert tensors[..n] == tensors[..n - 1] + [tensors[n - 1]];
      Insert(SortFirst(tensors, n - 1), tensors[n - 1])
  }

  function SortById(tensors: seq<NativeTensor>): (r: seq<NativeTensor>)
    ensures multiset(r) == multiset(tensors)
  {
    assert tensors[..|tensors|] == tensors;
    SortFirst(tensors, |tensors|)
  }

  /******* load_native_program *******/

  /** The tensors, checked and sorted, once graph and chunks are read. */
  function Assembled(g: Graph, table: Option<seq<TensorDescriptor>>, tensors: seq<NativeTensor>): Result<NativeProgram, ProgramError> {
    if table.None? then Err(MissingDescriptorTable)
    else
      match TableOf(table.value, |table.value|)
      case Err(id) => Err(DuplicateTensorId(id))
      case Ok(byId) =>
        var met :- Checked(g, byId, tensors, |tensors|);
        if byId.Keys - met.ids != {} then Err(MissingTensorShard(Least(byId.Keys - met.ids)))
        else Ok(NativeProgram(g, SortById(tensors)))
  }

  function LoadGraph(env: Env, chunks: seq<Chunk>): Result<Graph, ProgramError> {
    var graphs := Sections(chunks, GRAPH);
    if |graphs| == 0 then Err(MissingGraph)
    else if |graphs| > 1 then Err(MultipleGraphs)
    else
      match Resolve(env, graphs[0])
      case Err(e) => Err(Unresolved(e))
      case Ok(bytes) =>
        match GraphOf(bytes)
        case None => Err(BadGraph)
        case Some(g) => Ok(g)
  }

  function LoadProgram(env: Env, chunks: seq<Chunk>): Result<NativeProgram, ProgramError> {
    var g :- LoadGraph(env, chunks);
    var parts := Sections(chunks, TENSORS);
    var (table, tensors) :- Collected(env, parts, |parts|);
    Assembled(g, table, tensors)
  }

  /******* What a loaded program is *******/

  ghost predicate IdsAscend(tensors: seq<NativeTensor>) {
    forall i, j :: 0 <= i < j < |tensors| ==> tensors[i].descriptor.id < tensors[j].descriptor.id
  }

  ghost predicate DistinctIds(tensors: seq<NativeTensor>, n: nat) {
    n <= |tensors| && forall i, j :: 0 <= i < j < n ==> tensors[i].descriptor.id != tensors[j].descriptor.id
  }

  /** Bindings are distinct inputs of the graph, of the tensors' types. */
  ghost predicate Bound(g: Graph, tensors: seq<NativeTensor>, n: nat) {
    && n <= |tensors|
    && (forall i :: 0 <= i < n && tensors[i].graphValue.Some? ==> BindingFault(g, tensors[i].graphValue.value, tensors[i].descriptor).None?)
    && forall i, j :: 0 <= i < j < n && tensors[i].graphValue.Some? ==> tensors[i].graphValue != tensors[j].graphValue
  }

  lemma {:induction false} CheckedMeans(g: Graph, table: Table, tensors: seq<NativeTensor>, n: nat)
    requires n <= |tensors| && Checked(g, table, tensors, n).Ok?
    ensures DistinctIds(tensors, n) && Bound(g, tensors, n)
    ensures var met := Checked(g, table, tensors, n).value;
            && (forall i :: 0 <= i < n ==> var d := tensors[i].descriptor; d.id in met.ids && d.id in table && table[d.id] == d)
            && (forall i :: 0 <= i < n && tensors[i].graphValue.Some? ==> tensors[i].graphValue.value in met.bindings)
            && (forall id :: id in met.ids ==> exists i :: 0 <= i < n && tensors[i].descriptor.id == id)
    decreases n
  {
    hide BindingFault;
    if n > 0 {
      CheckedMeans(g, table, tensors, n - 1);
    }
  }

  lemma SameElements(a: seq<NativeTensor>, b: seq<NativeTensor>)
    requires multiset(a) == multiset(b)
    ensures forall t :: t in a <==> t in b
  {
    forall t
      ensures t in a <==> t in b
    {
      assert t in a <==> t in multiset(a);
      assert t in b <==> t in multiset(b);
    }
  }

  lemma {:induction false} InsertAscends(sorted: seq<NativeTensor>, t: NativeTensor)
    requires IdsAscend(sorted) && forall s :: s in sorted ==> s.descriptor.id != t.descriptor.id
    ensures IdsAscend(Insert(sorted, t))
    decreases |sorted|
  {
    if sorted != [] && sorted[|sorted| - 1].descriptor.id > t.descriptor.id {
      var short, last := sorted[..|sorted| - 1], sorted[|sorted| - 1];
      InsertAscends(short, t);
      var more := Insert(short, t);
      SameElements(more, short + [t]);
      forall s | s in more
        ensures s.descriptor.id < last.descriptor.id
      {
        assert s in short || s == t;
      }
      AppendAscends(more, last);
    } else {
      AppendAscends(sorted, t);
    }
  }

  lemma AppendAscends(tensors: seq<NativeTensor>, last: NativeTensor)
    requires IdsAscend(tensors) && forall t :: t in tensors && t != last ==> t.descriptor.id < last.descriptor.id
    requires last !in tensors
    ensures IdsAscend(tensors + [last])
  {
  }

  lemma {:induction false} SortAscends(tensors: seq<NativeTensor>, n: nat)
    requires DistinctIds(tensors, n)
    ensures IdsAscend(SortFirst(tensors, n))
    decreases n
  {
    if n > 0 {
      SortAscends(tensors, n - 1);
      forall s | s in SortFirst(tensors, n - 1)
        ensures s.descriptor.id != tensors[n - 1].descriptor.id
      {
        assert s in multiset(SortFirst(tensors, n - 1));
        assert s in tensors[..n - 1];
      }
      InsertAscends(SortFirst(tensors, n - 1), tensors[n - 1]);
    }
  }

  /**
   A loaded program has one tensor for each descriptor of the table, by ascending id; its
   bindings are distinct inputs of the graph, of the tensors' types.
   */
  lemma ProgramIsBound(env: Env, chunks: seq<Chunk>)
    requires LoadProgram(env, chunks).Ok?
    ensures var p := LoadProgram(env, chunks).value;
            var parts := Sections(chunks, TENSORS);
            var table := Collected(env, parts, |parts|).value.0.value;
            WellFormed(p.graph) && IdsAscend(p.tensors) && TensorsMatch(p.graph, table, p.tensors)
  {
    hide Collected, LoadGraph, WellFormed, TensorsMatch, IdsAscend;
    var parts := Sections(chunks, TENSORS);
    var (table, tensors) := Collected(env, parts, |parts|).value;
    var g := LoadGraph(env, chunks).value;
    assert WellFormed(g) by { GraphIsWellFormed(env, chunks); }
    AssembledIsBound(g, table, tensors);
  }

  lemma GraphIsWellFormed(env: Env, chunks: seq<Chunk>)
    requires LoadGraph(env, chunks).Ok?
    ensures WellFormed(LoadGraph(env, chunks).value)
  {
    hide Resolve, Sections, Parse, WellFormed;
  }

  /** The tensors are one for each descriptor of the table, bound to distinct inputs of the graph. */
  ghost predicate TensorsMatch(g: Graph, ds: seq<TensorDescriptor>, tensors: seq<NativeTensor>) {
    && (forall t :: t in tensors ==> t.descriptor in ds)
    && (forall d :: d in ds ==> exists t :: t in tensors && t.descriptor == d)
    && (forall t :: t in tensors && t.graphValue.Some? ==> BindingFault(g, t.graphValue.value, t.descriptor).None?)
    && (forall t, u :: t in tensors && u in tensors && t.graphValue.Some? && t.graphValue == u.graphValue ==> t == u)
  }

  lemma EveryDescriptorMet(g: Graph, ds: seq<TensorDescriptor>, byId: Table, tensors: seq<NativeTensor>)
    requires TableOf(ds, |ds|) == Ok(byId) && Checked(g, byId, tensors, |tensors|).Ok?
    requires byId.Keys - Checked(g, byId, tensors, |tensors|).value.ids == {}
    ensures forall d :: d in ds ==> exists t :: t in tensors && t.descriptor == d
  {
    hide Checked, TableOf, BindingFault;
    CheckedMeans(g, byId, tensors, |tensors|);
    TableHas(ds, |ds|);
    var ids := Checked(g, byId, tensors, |tensors|).value.ids;
    forall d | d in ds
      ensures exists t :: t in tensors && t.descriptor == d
    {
      assert d.id in byId && (d.id in ids || d.id in byId.Keys - ids);
      var i :| 0 <= i < |tensors| && tensors[i].descriptor.id == d.id;
      assert tensors[i] in tensors;
    }
  }

  lemma CheckedMatch(g: Graph, ds: seq<TensorDescriptor>, byId: Table, tensors: seq<NativeTensor>)
    requires TableOf(ds, |ds|) == Ok(byId) && Checked(g, byId, tensors, |tensors|).Ok?
    requires byId.Keys - Checked(g, byId, tensors, |tensors|).value.ids == {}
    ensures TensorsMatch(g, ds, tensors)
  {
    hide Checked, TableOf, BindingFault, DistinctIds;
    EveryDescriptorMet(g, ds, byId, tensors);
    CheckedMeans(g, byId, tensors, |tensors|);
    TableHas(ds, |ds|);
  }

  lemma MatchSorted(g: Graph, ds: seq<TensorDescriptor>, tensors: seq<NativeTensor>, sorted: seq<NativeTensor>)
    requires TensorsMatch(g, ds, tensors) && forall t :: t in sorted <==> t in tensors
    ensures TensorsMatch(g, ds, sorted)
  {
    hide BindingFault;
  }

  lemma AssembledIsBound(g: Graph, table: Option<seq<TensorDescriptor>>, tensors: seq<NativeTensor>)
    requires Assembled(g, table, tensors).Ok?
    ensures var p := Assembled(g, table, tensors).value;
            p.graph == g && IdsAscend(p.tensors) && TensorsMatch(g, table.value, p.tensors)
  {
    hide Checked, TableOf, SortFirst, IdsAscend, TensorsMatch, Bound;
    var byId := TableOf(table.value, |table.value|).value;
    CheckedMatch(g, table.value, byId, tensors);
    CheckedMeans(g, byId, tensors, |tensors|);
    SortAscends(tensors, |tensors|);
    SameElements(tensors, SortById(tensors));
    MatchSorted(g, table.value, tensors, SortById(tensors));
  }

  lemma {:induction false} TableHas(ds: seq<TensorDescriptor>, n: nat)
    requires n <= |ds| && TableOf(ds, n).Ok?
    ensures var table := TableOf(ds, n).value;
            && (forall i :: 0 <= i < n ==> ds[i].id in table && table[ds[i].id] == ds[i])
            && (forall id :: id in table ==> table[id] in ds && table[id].id == id)
    decreases n
  {
    if n > 0 {
      TableHas(ds, n - 1);
    }
  }

  /******* load_native_generative_program *******/

  const MANIFEST_MAGIC: Bytes := [0x4E, 0x47, 0x4D, 0x39, 0x37, 0x00]
  const MANIFEST_HEADER_LEN := 26
  const MANIFEST_VERSION := Version(0, 1)

  datatype GenerativeManifest = GenerativeManifest(tokenInput: u32, distributionOutput: u32, vocabularySize: u32)

  datatype ManifestError =
    | ManifestTruncated
    | ManifestInvalidMagic
    | ManifestInvalidHeader
    | ManifestUnsupportedVersion(version: Version)
    | InvalidVocabulary
    | ManifestNonCanonical

  function DecodeManifestFields(s: Bytes): Result<GenerativeManifest, ManifestError> {
    var (tokenInput, s1) :- GetU32(s, ManifestTruncated);
    var (distributionOutput, s2) :- GetU32(s1, ManifestTruncated);
    var (vocabularySize, s3) :- GetU32(s2, ManifestTruncated);
    if vocabularySize == 0 then Err(InvalidVocabulary)
    else
      var (reserved, s4) :- GetU16(s3, ManifestTruncated);
      if reserved != 0 || s4 != [] then Err(ManifestNonCanonical)
      else Ok(GenerativeManifest(tokenInput, distributionOutput, vocabularySize))
  }

  function DecodeGenerativeManifest(bytes: Bytes): Result<GenerativeManifest, ManifestError> {
    var (magic, s1) :- GetRaw(6, bytes, ManifestTruncated);
    if magic != MANIFEST_MAGIC then Err(ManifestInvalidMagic)
    else
      var (headerLen, s2) :- GetU16(s1, ManifestTruncated);
      if headerLen != MANIFEST_HEADER_LEN then Err(ManifestInvalidHeader)
      else
        var (major, s3) :- GetU16(s2, ManifestTruncated);
        var (minor, s4) :- GetU16(s3, ManifestTruncated);
        if !MANIFEST_VERSION.CanRead(Version(major, minor)) then Err(ManifestUnsupportedVersion(Version(major, minor)))
        else DecodeManifestFields(s4)
  }

  datatype GenerativeProgram = GenerativeProgram(program: NativeProgram, tokenizer: Tokenizer, manifest: Option<GenerativeManifest>)

  datatype GenerativeError =
    | Program(programError: ProgramError)
    | BadTokenizer(tokenizerError: TokenizerError)
    | BadManifest(manifestError: ManifestError)
    | NotResolved(error: ResolveError)
    | MissingTokenizer
    | MultipleTokenizers
    | MultipleGenerativeManifests

  function LoadTokenizer(env: Env, chunks: seq<Chunk>): Result<Tokenizer, GenerativeError> {
    var tokenizers := Sections(chunks, TOKENIZER);
    if |tokenizers| == 0 then Err(MissingTokenizer)
    else if |tokenizers| > 1 then Err(MultipleTokenizers)
    else
      match Resolve(env, tokenizers[0])
      case Err(e) => Err(NotResolved(e))
      case Ok(bytes) =>
        match DecodedTokenizer(bytes)
        case Err(e) => Err(BadTokenizer(e))
        case Ok(k) => Ok(k)
  }

  function LoadManifest(env: Env, chunks: seq<Chunk>): Result<Option<GenerativeManifest>, GenerativeError> {
    var manifests := Sections(chunks, GENERATIVE_MANIFEST);
    if |manifests| == 0 then Ok(None)
    else if |manifests| > 1 then Err(MultipleGenerativeManifests)
    else
      match Resolve(env, manifests[0])
      case Err(e) => Err(NotResolved(e))
      case Ok(bytes) =>
        match DecodeGenerativeManifest(bytes)
        case Err(e) => Err(BadManifest(e))
        case Ok(m) => Ok(Some(m))
  }

  function LoadGenerative(env: Env, chunks: seq<Chunk>): Result<GenerativeProgram, GenerativeError> {
    match LoadProgram(env, chunks)
    case Err(e) => Err(Program(e))
    case Ok(program) =>
      var tokenizer :- LoadTokenizer(env, chunks);
      var manifest :- LoadManifest(env, chunks);
      Ok(GenerativeProgram(program, tokenizer, manifest))
  }

  /******* Where a section is kept does not matter *******/

  /** The same kinds in the same order, each resolving alike. */
  ghost predicate SameContent(env: Env, a: seq<Chunk>, b: seq<Chunk>) {
    |a| == |b| && forall i :: 0 <= i < |a| ==> a[i].kind == b[i].kind && Resolve(env, a[i]) == Resolve(env, b[i])
  }

  lemma {:induction false} OfKindSame(env: Env, a: seq<Chunk>, b: seq<Chunk>, kind: SectionKind, n: nat)
    requires SameContent(env, a, b) && n <= |a|
    ensures SameContent(env, OfKind(a, kind, n), OfKind(b, kind, n))
    decreases n
  {
    hide Resolve;
    if n > 0 {
      OfKindSame(env, a, b, kind, n - 1);
    }
  }

  lemma {:induction false} CollectedSame(env: Env, a: seq<Chunk>, b: seq<Chunk>, n: nat)
    requires SameContent(env, a, b) && n <= |a|
    ensures Collected(env, a, n) == Collected(env, b, n)
    decreases n
  {
    hide Resolve, CollectOne;
    if n > 0 {
      CollectedSame(env, a, b, n - 1);
    }
  }

  lemma LoadedSame(env: Env, a: seq<Chunk>, b: seq<Chunk>)
    requires SameContent(env, a, b)
    ensures LoadGenerative(env, a) == LoadGenerative(env, b)
  {
    hide Resolve, Collected, GraphOf, Assembled, DecodedTokenizer, DecodeGenerativeManifest;
    forall kind: SectionKind
      ensures SameContent(env, Sections(a, kind), Sections(b, kind))
    {
      OfKindSame(env, a, b, kind, |a|);
    }
    CollectedSame(env, Sections(a, TENSORS), Sections(b, TENSORS), |Sections(a, TENSORS)|);
  }

  /** The chunk with its bytes kept elsewhere. */
  function Externalized(c: Chunk): Chunk {
    c.(stored := None)
  }

  /** The content store holds the chunk's own bytes, and index and hash are genuine. */
  predicate KeptOutside(env: Env, c: Chunk) {
    c.stored.Some? && Genuine(env.h, c) && env.content(c.hash) == Some(c.stored.value)
  }

  /**
   Any of a capsule's embedded chunks can be replaced by references to the same bytes in
   the content store: the loader returns the same program, or the same error.
   */
  lemma ExternalReferencesAreInvisible(env: Env, a: seq<Chunk>, b: seq<Chunk>)
    requires |a| == |b| && forall i :: 0 <= i < |a| ==> b[i] == a[i] || (KeptOutside(env, a[i]) && b[i] == Externalized(a[i]))
    ensures LoadGenerative(env, a) == LoadGenerative(env, b)
  {
    hide LoadGenerative;
    LoadedSame(env, a, b);
  }
}
