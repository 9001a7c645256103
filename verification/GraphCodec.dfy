/**
 The canonical graph format: encoding and decoding are mutually inverse between the
 well-formed graphs with u32 counts and the accepted byte strings.
 */
module GraphCodec {
  import opened Wrappers
  import opened Bytes
  import opened Capsule
  import opened Graphs

  const GRAPH_MAGIC: Bytes := [0x4E, 0x49, 0x52, 0x39, 0x37, 0x00]
  const GRAPH_HEADER_LEN := 24

  datatype IrError =
    | IrTruncated
    | IrInvalidMagic
    | IrInvalidHeader
    | InvalidValueType(raw: u8)
    | InvalidDType(raw: u8)
    | InvalidOpFamily(raw: u8)
    | InvalidOpCode(family: u8, opcode: u8)
    | IrInvalidUtf8
    | NonCanonicalEncoding
    | UnsupportedVersion(version: Version)
    | StructuralValidation(error: ValidationError)
    | IrTooLarge

  type Read<T> = Result<(T, Bytes), IrError>

  /******* Value declarations *******/

  function DTypeTag(d: DType): u8 {
    match d
    case F32 => 1
    case F16 => 2
    case Bf16 => 3
    case I8 => 4
    case U8Type => 5
    case I32 => 6
    case I64 => 7
    case Boolean => 8
  }

  function DTypeOf(tag: u8): (r: Result<DType, IrError>)
    ensures r.Ok? ==> DTypeTag(r.value) == tag
    ensures forall d :: DTypeTag(d) == tag ==> r == Ok(d)
  {
    match tag
    case 1 => Ok(F32)
    case 2 => Ok(F16)
    case 3 => Ok(Bf16)
    case 4 => Ok(I8)
    case 5 => Ok(U8Type)
    case 6 => Ok(I32)
    case 7 => Ok(I64)
    case 8 => Ok(Boolean)
    case _ => Err(InvalidDType(tag))
  }

  /** Type tag, dtype tag and rank; what a type does not have is 0. */
  function TypeTags(ty: ValueType): (u8, u8, u8) {
    match ty
    case Scalar(dtype) => (1, DTypeTag(dtype), 0)
    case Tensor(dtype, rank) => (2, DTypeTag(dtype), rank)
    case BytesType => (3, 0, 0)
    case Handle => (4, 0, 0)
  }

  function TypeOf(tag: u8, dtypeTag: u8, rank: u8): (r: Result<ValueType, IrError>)
    ensures r.Ok? ==> TypeTags(r.value) == (tag, dtypeTag, rank)
    ensures forall ty :: TypeTags(ty) == (tag, dtypeTag, rank) ==> r == Ok(ty)
  {
    if tag == 1 then
      if rank != 0 then Err(NonCanonicalEncoding)
      else
        var dtype :- DTypeOf(dtypeTag);
        Ok(Scalar(dtype))
    else if tag == 2 then
      var dtype :- DTypeOf(dtypeTag);
      Ok(Tensor(dtype, rank))
    else if tag == 3 || tag == 4 then
      if dtypeTag != 0 || rank != 0 then Err(NonCanonicalEncoding)
      else Ok(if tag == 3 then BytesType else Handle)
    else Err(InvalidValueType(tag))
  }

  function PutTags(tags: (u8, u8, u8), t: Bytes): Bytes {
    PutU8(tags.0, PutU8(tags.1, PutU8(tags.2, PutU8(0, t))))
  }

  function PutDecl(d: ValueDecl, t: Bytes): Bytes {
    PutU32(d.id, PutTags(TypeTags(d.ty), t))
  }

  function GetDecl(s: Bytes): Read<ValueDecl> {
    var (id, s1) :- GetU32(s, IrTruncated);
    var (tag, s2) :- GetU8(s1, IrTruncated);
    var (dtypeTag, s3) :- GetU8(s2, IrTruncated);
    var (rank, s4) :- GetU8(s3, IrTruncated);
    var (reserved, s5) :- GetU8(s4, IrTruncated);
    if reserved != 0 then Err(NonCanonicalEncoding)
    else
      var ty :- TypeOf(tag, dtypeTag, rank);
      Ok((ValueDecl(id, ty), s5))
  }

  predicate AnyDecl(d: ValueDecl) { true }

  lemma DeclCodec()
    ensures ReadsBack(GetDecl, PutDecl, AnyDecl) && ReadsOnly(GetDecl, PutDecl, AnyDecl)
  {
    hide PutU8, GetU8, PutU32, GetU32, TypeTags, TypeOf;
    forall s | GetDecl(s).Ok?
      ensures s == PutDecl(GetDecl(s).value.0, GetDecl(s).value.1)
    {
      var (id, s1) := GetU32(s, IrTruncated).value;
      var (tag, s2) := GetU8(s1, IrTruncated).value;
      var (dtypeTag, s3) := GetU8(s2, IrTruncated).value;
      var (rank, s4) := GetU8(s3, IrTruncated).value;
      assert s1 == PutTags((tag, dtypeTag, rank), GetDecl(s).value.1);
    }
  }

  function PutId(id: u32, t: Bytes): Bytes { PutU32(id, t) }

  function GetId(s: Bytes): Read<u32> { GetU32(s, IrTruncated) }

  predicate AnyId(id: u32) { true }

  lemma IdCodec()
    ensures ReadsBack(GetId, PutId, AnyId) && ReadsOnly(GetId, PutId, AnyId)
  {
    hide PutU32, GetU32;
    forall id: u32, t
      ensures GetId(PutId(id, t)) == Ok((id, t))
    {
    }
  }

  /******* Operations *******/

  function TensorTag(op: TensorOp): u8 {
    match op
    case Add => 1
    case Mul => 2
    case MatMul => 3
    case QuantizedMatMul => 4
    case RmsNorm => 5
    case Softmax => 6
    case Gather => 7
    case RotaryPosition => 8
    case CausalAttention => 9
    case Silu => 10
    case Reshape => 11
    case Transpose => 12
    case PositionIds => 13
  }

  function TensorOf(opcode: u8): (r: Option<TensorOp>)
    ensures r.Some? ==> TensorTag(r.value) == opcode
    ensures forall op :: TensorTag(op) == opcode ==> r == Some(op)
  {
    match opcode
    case 1 => Some(Add)
    case 2 => Some(Mul)
    case 3 => Some(MatMul)
    case 4 => Some(QuantizedMatMul)
    case 5 => Some(RmsNorm)
    case 6 => Some(Softmax)
    case 7 => Some(Gather)
    case 8 => Some(RotaryPosition)
    case 9 => Some(CausalAttention)
    case 10 => Some(Silu)
    case 11 => Some(Reshape)
    case 12 => Some(Transpose)
    case 13 => Some(PositionIds)
    case _ => None
  }

  /** Family, opcode and attribute bytes. */
  function OpTags(op: OpKind): (u8, u8, Bytes) {
    match op
    case TensorKind(tensor) => (1, TensorTag(tensor), [])
    case StateKind(state) => (2, if state.ReadState? then 1 else if state.WriteState? then 2 else 3, [])
    case MemoryKind(memory) => (3, if memory.Retrieve? then 1 else if memory.Store? then 2 else 3, [])
    case ControlKind(control) => (4, if control.Select? then 1 else if control.Merge? then 2 else 3, [])
    case Invoke(capability) => (5, 1, capability)
    case Observe => (5, 2, [])
    case Verify => (5, 3, [])
  }

  function PlainOf(family: u8, opcode: u8): Result<OpKind, IrError>
    requires 1 <= family <= 4
  {
    if family == 1 then
      match TensorOf(opcode)
      case Some(op) => Ok(TensorKind(op))
      case None => Err(InvalidOpCode(family, opcode))
    else if !(1 <= opcode <= 3) then Err(InvalidOpCode(family, opcode))
    else if family == 2 then Ok(StateKind(if opcode == 1 then ReadState else if opcode == 2 then WriteState else Checkpoint))
    else if family == 3 then Ok(MemoryKind(if opcode == 1 then Retrieve else if opcode == 2 then Store else Forget))
    else Ok(ControlKind(if opcode == 1 then Select else if opcode == 2 then Merge else Barrier))
  }

  function OpOf(family: u8, opcode: u8, attrs: Bytes): (r: Result<OpKind, IrError>)
    ensures r.Ok? ==> OpTags(r.value) == (family, opcode, attrs)
    ensures forall op :: OpTags(op) == (family, opcode, attrs) ==> r == Ok(op)
  {
    if 1 <= family <= 4 then
      if attrs != [] then Err(NonCanonicalEncoding) else PlainOf(family, opcode)
    else if family != 5 then Err(InvalidOpFamily(family))
    else if opcode == 1 then
      if Utf8(attrs) then Ok(Invoke(attrs)) else Err(IrInvalidUtf8)
    else if opcode == 2 || opcode == 3 then
      if attrs != [] then Err(NonCanonicalEncoding) else Ok(if opcode == 2 then Observe else Verify)
    else Err(InvalidOpCode(family, opcode))
  }

  /******* Nodes *******/

  // A node's header, its lists, then the attributes of its operation.

  datatype NodeHeader = NodeHeader(id: u32, family: u8, opcode: u8, inputs: u32, outputs: u32, attrs: u32)

  function PutNodeHeader(h: NodeHeader, t: Bytes): Bytes {
    PutU32(h.id, PutU8(h.family, PutU8(h.opcode, PutU16(0, PutU32(h.inputs, PutU32(h.outputs, PutU32(h.attrs, t)))))))
  }

  function GetNodeHeader(s: Bytes): (r: Read<NodeHeader>)
    ensures r.Ok? ==> s == PutNodeHeader(r.value.0, r.value.1)
    ensures forall h, t {:trigger PutNodeHeader(h, t)} :: s == PutNodeHeader(h, t) ==> r == Ok((h, t))
  {
    hide PutU8, GetU8, PutU16, GetU16, PutU32, GetU32;
    var (id, s1) :- GetU32(s, IrTruncated);
    var (family, s2) :- GetU8(s1, IrTruncated);
    var (opcode, s3) :- GetU8(s2, IrTruncated);
    var (reserved, s4) :- GetU16(s3, IrTruncated);
    if reserved != 0 then Err(NonCanonicalEncoding)
    else
      var (inputs, s5) :- GetU32(s4, IrTruncated);
      var (outputs, s6) :- GetU32(s5, IrTruncated);
      var (attrs, s7) :- GetU32(s6, IrTruncated);
      Ok((NodeHeader(id, family, opcode, inputs, outputs, attrs), s7))
  }

  predicate FitsNode(n: Node) {
    |n.inputs| <= U32_MAX && |n.outputs| <= U32_MAX && |OpTags(n.op).2| <= U32_MAX
  }

  function HeaderOf(n: Node): NodeHeader
    requires FitsNode(n)
  {
    NodeHeader(n.id, OpTags(n.op).0, OpTags(n.op).1, |n.inputs|, |n.outputs|, |OpTags(n.op).2|)
  }

  function PutNode(n: Node, t: Bytes): Bytes {
    if !FitsNode(n) then t
    else PutNodeHeader(HeaderOf(n), PutMany(PutId, n.inputs, PutMany(PutDecl, n.outputs, PutRaw(OpTags(n.op).2, t))))
  }

  function GetIds(n: u32, s: Bytes): (r: Read<Vec<u32>>)
    ensures r.Ok? ==> |r.value.0| == n && s == PutMany(PutId, r.value.0, r.value.1)
    ensures forall ids: Vec<u32>, t {:trigger PutMany(PutId, ids, t)} :: |ids| == n && s == PutMany(PutId, ids, t) ==> r == Ok((ids, t))
  {
    hide GetMany, PutMany, GetId, PutId;
    assert GetMany(GetId, n, s).Ok? ==> |GetMany(GetId, n, s).value.0| == n && s == PutMany(PutId, GetMany(GetId, n, s).value.0, GetMany(GetId, n, s).value.1) by {
      if GetMany(GetId, n, s).Ok? {
        IdCodec();
        ManyReadOnly(GetId, PutId, AnyId, n, s);
      }
    }
    assert forall ids: Vec<u32>, t {:trigger PutMany(PutId, ids, t)} :: |ids| == n && s == PutMany(PutId, ids, t) ==> GetMany(GetId, n, s) == Ok((ids, t)) by {
      IdCodec();
      forall ids: Vec<u32>, t | |ids| == n && s == PutMany(PutId, ids, t)
        ensures GetMany(GetId, n, s) == Ok((ids, t))
      {
        ManyReadBack(GetId, PutId, AnyId, ids, t);
      }
    }
    var (ids, t) :- GetMany(GetId, n, s);
    Ok((ids, t))
  }

  function GetDecls(n: u32, s: Bytes): (r: Read<Vec<ValueDecl>>)
    ensures r.Ok? ==> |r.value.0| == n && s == PutMany(PutDecl, r.value.0, r.value.1)
    ensures forall ds: Vec<ValueDecl>, t {:trigger PutMany(PutDecl, ds, t)} :: |ds| == n && s == PutMany(PutDecl, ds, t) ==> r == Ok((ds, t))
  {
    hide GetMany, PutMany, GetDecl, PutDecl;
    assert GetMany(GetDecl, n, s).Ok? ==> |GetMany(GetDecl, n, s).value.0| == n && s == PutMany(PutDecl, GetMany(GetDecl, n, s).value.0, GetMany(GetDecl, n, s).value.1) by {
      if GetMany(GetDecl, n, s).Ok? {
        DeclCodec();
        ManyReadOnly(GetDecl, PutDecl, AnyDecl, n, s);
      }
    }
    assert forall ds: Vec<ValueDecl>, t {:trigger PutMany(PutDecl, ds, t)} :: |ds| == n && s == PutMany(PutDecl, ds, t) ==> GetMany(GetDecl, n, s) == Ok((ds, t)) by {
      DeclCodec();
      forall ds: Vec<ValueDecl>, t | |ds| == n && s == PutMany(PutDecl, ds, t)
        ensures GetMany(GetDecl, n, s) == Ok((ds, t))
      {
        ManyReadBack(GetDecl, PutDecl, AnyDecl, ds, t);
      }
    }
    var (ds, t) :- GetMany(GetDecl, n, s);
    Ok((ds, t))
  }

  function GetNode(s: Bytes): Read<Node> {
    var (h, s1) :- GetNodeHeader(s);
    var (inputs, s2) :- GetIds(h.inputs, s1);
    var (outputs, s3) :- GetDecls(h.outputs, s2);
    var (attrs, s4) :- GetRaw(h.attrs, s3, IrTruncated);
    var op :- OpOf(h.family, h.opcode, attrs);
    Ok((Node(h.id, op, inputs, outputs), s4))
  }

  lemma NodeCodec()
    ensures ReadsBack(GetNode, PutNode, FitsNode) && ReadsOnly(GetNode, PutNode, FitsNode)
  {
    hide PutNodeHeader, GetNodeHeader, PutMany, GetIds, GetDecls, PutRaw, GetRaw, OpTags, OpOf;
    forall s | GetNode(s).Ok?
      ensures FitsNode(GetNode(s).value.0) && s == PutNode(GetNode(s).value.0, GetNode(s).value.1)
    {
      var (h, s1) := GetNodeHeader(s).value;
      var n := GetNode(s).value.0;
      assert h == HeaderOf(n);
    }
  }

  /******* Graphs *******/

  predicate Encodable(g: Graph) {
    |g.inputs| <= U32_MAX && |g.outputs| <= U32_MAX && |g.nodes| <= U32_MAX && All(FitsNode, g.nodes)
  }

  datatype GraphHeader = GraphHeader(version: Version, inputs: u32, outputs: u32, nodes: u32)

  function PutCounts(h: GraphHeader, t: Bytes): Bytes {
    PutU32(h.inputs, PutU32(h.outputs, PutU32(h.nodes, t)))
  }

  function PutGraphHeader(h: GraphHeader, t: Bytes): Bytes {
    PutRaw(GRAPH_MAGIC, PutU16(GRAPH_HEADER_LEN, PutU16(h.version.major, PutU16(h.version.minor, PutCounts(h, t)))))
  }

  function GetGraphHeader(s: Bytes): (r: Read<GraphHeader>)
    ensures r.Ok? ==> s == PutGraphHeader(r.value.0, r.value.1) && CURRENT.ir.CanRead(r.value.0.version)
    ensures forall h: GraphHeader, t {:trigger PutGraphHeader(h, t)} :: CURRENT.ir.CanRead(h.version) && s == PutGraphHeader(h, t) ==> r == Ok((h, t))
  {
    hide PutU16, GetU16, PutU32, GetU32, PutRaw, GetRaw;
    var (magic, s1) :- GetRaw(6, s, IrTruncated);
    if magic != GRAPH_MAGIC then Err(IrInvalidMagic)
    else
      var (headerLen, s2) :- GetU16(s1, IrTruncated);
      if headerLen != GRAPH_HEADER_LEN then Err(IrInvalidHeader)
      else
        var (major, s3) :- GetU16(s2, IrTruncated);
        var (minor, s4) :- GetU16(s3, IrTruncated);
        if !CURRENT.ir.CanRead(Version(major, minor)) then Err(UnsupportedVersion(Version(major, minor)))
        else
          var (inputs, s5) :- GetU32(s4, IrTruncated);
          var (outputs, s6) :- GetU32(s5, IrTruncated);
          var (nodes, s7) :- GetU32(s6, IrTruncated);
          Ok((GraphHeader(Version(major, minor), inputs, outputs, nodes), s7))
  }

  function Encode(g: Graph): Bytes
    requires Encodable(g)
  {
    PutGraphHeader(GraphHeader(g.version, |g.inputs|, |g.outputs|, |g.nodes|),
      PutMany(PutDecl, g.inputs, PutMany(PutId, g.outputs, PutMany(PutNode, g.nodes, []))))
  }

  /** The graph the bytes spell, before its structure is checked. */
  function Parse(bytes: Bytes): Result<Graph, IrError> {
    var (h, s1) :- GetGraphHeader(bytes);
    var (inputs, s2) :- GetDecls(h.inputs, s1);
    var (outputs, s3) :- GetIds(h.outputs, s2);
    assert GetMany(GetNode, h.nodes, s3).Ok? ==> |GetMany(GetNode, h.nodes, s3).value.0| == h.nodes by {
      if GetMany(GetNode, h.nodes, s3).Ok? {
        NodeCodec();
        ManyReadOnly(GetNode, PutNode, FitsNode, h.nodes, s3);
      }
    }
    var (nodes, s4) :- GetMany(GetNode, h.nodes, s3);
    if s4 != [] then Err(NonCanonicalEncoding)
    else Ok(Graph(h.version, inputs, outputs, nodes))
  }

  /** Bytes spell a graph of a readable version exactly when they are its encoding. */
  lemma ParseExactly(bytes: Bytes, g: Graph)
    ensures Parse(bytes) == Ok(g) <==> Encodable(g) && CURRENT.ir.CanRead(g.version) && bytes == Encode(g)
  {
    hide PutGraphHeader, GetGraphHeader, GetIds, GetDecls, PutMany, GetMany, GetNode, PutNode, FitsNode;
    NodeCodec();
    if Parse(bytes) == Ok(g) {
      var (h, s1) := GetGraphHeader(bytes).value;
      var (_, s2) := GetDecls(h.inputs, s1).value;
      var (_, s3) := GetIds(h.outputs, s2).value;
      ManyReadOnly(GetNode, PutNode, FitsNode, h.nodes, s3);
    } else if Encodable(g) && CURRENT.ir.CanRead(g.version) && bytes == Encode(g) {
      ManyReadBack(GetNode, PutNode, FitsNode, g.nodes, []);
    }
  }

  /** What `decode_graph` accepts, as the graph it returns. */
  predicate Decodes(bytes: Bytes, g: Graph) {
    Parse(bytes) == Ok(g) && WellFormed(g)
  }

  /** A byte string decodes to at most one graph, and a graph has exactly one accepted byte string. */
  lemma CanonicalForm(g: Graph, bytes: Bytes)
    ensures Decodes(bytes, g) <==> WellFormed(g) && Encodable(g) && bytes == Encode(g)
    ensures forall g' :: Decodes(bytes, g) && Decodes(bytes, g') ==> g == g'
    ensures forall bytes' :: Decodes(bytes, g) && Decodes(bytes', g) ==> bytes == bytes'
  {
    hide Parse, Encode, Encodable;
    forall bytes'
      ensures Decodes(bytes', g) <==> WellFormed(g) && Encodable(g) && bytes' == Encode(g)
    {
      ParseExactly(bytes', g);
    }
  }
}
