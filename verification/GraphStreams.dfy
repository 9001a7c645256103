/** `encode_graph` and `decode_graph` as they run, over a growing buffer and a cursor. */
module GraphStreams {
  import opened Wrappers
  import opened Bytes
  import opened Streams
  import opened Capsule
  import opened Graphs
  import opened GraphCodec

  /******* Encoding *******/

  method PushDecl(out: Buffer, d: ValueDecl)
    modifies out
    ensures forall t :: out.bytes + t == old(out.bytes) + PutDecl(d, t)
  {
    hide PutU8, PutU32;
    out.PushU32(d.id);
    var (tag, dtype, rank) := TypeTags(d.ty);
    out.PushU8(tag);
    out.PushU8(dtype);
    out.PushU8(rank);
    out.PushU8(0);
  }

  method PushDecls(out: Buffer, ds: seq<ValueDecl>)
    modifies out
    ensures forall t :: out.bytes + t == old(out.bytes) + PutMany(PutDecl, ds, t)
  {
    hide PutDecl;
    for i := 0 to |ds|
      invariant forall t :: old(out.bytes) + PutFrom(PutDecl, ds, 0, t) == out.bytes + PutFrom(PutDecl, ds, i, t)
    {
      PushDecl(out, ds[i]);
    }
  }

  method PushIds(out: Buffer, ids: seq<u32>)
    modifies out
    ensures forall t :: out.bytes + t == old(out.bytes) + PutMany(PutId, ids, t)
  {
    hide PutU32;
    for i := 0 to |ids|
      invariant forall t :: old(out.bytes) + PutFrom(PutId, ids, 0, t) == out.bytes + PutFrom(PutId, ids, i, t)
    {
      out.PushU32(ids[i]);
    }
  }

  method PushNodeHeader(out: Buffer, h: NodeHeader)
    modifies out
    ensures forall t :: out.bytes + t == old(out.bytes) + PutNodeHeader(h, t)
  {
    hide PutU8, PutU16, PutU32;
    out.PushU32(h.id);
    out.PushU8(h.family);
    out.PushU8(h.opcode);
    out.PushU16(0);
    out.PushU32(h.inputs);
    out.PushU32(h.outputs);
    out.PushU32(h.attrs);
  }

  method PushNode(out: Buffer, n: Node) returns (ok: bool)
    modifies out
    ensures ok <==> FitsNode(n)
    ensures ok ==> forall t :: out.bytes + t == old(out.bytes) + PutNode(n, t)
  {
    hide PutNodeHeader, PutMany, PutRaw, OpTags;
    var (family, opcode, attrs) := OpTags(n.op);
    if |n.inputs| > U32_MAX || |n.outputs| > U32_MAX || |attrs| > U32_MAX {
      return false;
    }
    PushNodeHeader(out, NodeHeader(n.id, family, opcode, |n.inputs|, |n.outputs|, |attrs|));
    PushIds(out, n.inputs);
    PushDecls(out, n.outputs);
    out.PushRaw(attrs);
    ok := true;
  }

  method PushNodes(out: Buffer, ns: seq<Node>) returns (ok: bool)
    modifies out
    ensures ok <==> All(FitsNode, ns)
    ensures ok ==> forall t :: out.bytes + t == old(out.bytes) + PutMany(PutNode, ns, t)
  {
    hide PutNode, FitsNode;
    for i := 0 to |ns|
      invariant forall k :: 0 <= k < i ==> FitsNode(ns[k])
      invariant forall t :: old(out.bytes) + PutFrom(PutNode, ns, 0, t) == out.bytes + PutFrom(PutNode, ns, i, t)
    {
      var fits := PushNode(out, ns[i]);
      if !fits {
        return false;
      }
    }
    ok := true;
  }

  method PushGraphHeader(out: Buffer, h: GraphHeader)
    modifies out
    ensures forall t :: out.bytes + t == old(out.bytes) + PutGraphHeader(h, t)
  {
    hide PutU16, PutU32;
    out.PushRaw(GRAPH_MAGIC);
    out.PushU16(GRAPH_HEADER_LEN);
    out.PushU16(h.version.major);
    out.PushU16(h.version.minor);
    out.PushU32(h.inputs);
    out.PushU32(h.outputs);
    out.PushU32(h.nodes);
  }

  /** Succeeds on exactly the well-formed graphs whose counts fit, and a decoder gives each of them back. */
  method EncodeGraph(g: Graph) returns (r: Result<Bytes, IrError>)
    ensures r.Ok? <==> WellFormed(g) && Encodable(g)
    ensures r.Ok? ==> r.value == Encode(g) && Decodes(r.value, g)
    ensures r.Err? && !CURRENT.ir.CanRead(g.version) ==> r.error == UnsupportedVersion(g.version)
    ensures r.Err? && r.error.StructuralValidation? ==> Explains(g, r.error.error)
  {
    hide Encode, Encodable, WellFormed, Decodes, Explains;
    if !CURRENT.ir.CanRead(g.version) {
      IllVersioned(g);
      return Err(UnsupportedVersion(g.version));
    }
    var error := Validate(g);
    if error.Some? { return Err(StructuralValidation(error.value)); }
    if |g.inputs| > U32_MAX || |g.outputs| > U32_MAX || |g.nodes| > U32_MAX {
      TooManyParts(g);
      return Err(IrTooLarge);
    }
    var bytes := PushGraph(g);
    if bytes.None? { return Err(IrTooLarge); }
    r := Ok(bytes.value);
    CanonicalForm(g, r.value);
  }

  method PushGraph(g: Graph) returns (bytes: Option<Bytes>)
    requires |g.inputs| <= U32_MAX && |g.outputs| <= U32_MAX && |g.nodes| <= U32_MAX
    ensures bytes.Some? <==> Encodable(g)
    ensures bytes.Some? ==> bytes.value == Encode(g)
  {
    hide PutGraphHeader, PutMany, All;
    var out := new Buffer();
    PushGraphHeader(out, GraphHeader(g.version, |g.inputs|, |g.outputs|, |g.nodes|));
    PushDecls(out, g.inputs);
    PushIds(out, g.outputs);
    var ok := PushNodes(out, g.nodes);
    if !ok { return None; }
    ghost var expected := Encode(g);
    assert out.bytes == out.bytes + [] == [] + expected == expected;
    bytes := Some(out.bytes);
  }

  lemma TooManyParts(g: Graph)
    requires |g.inputs| > U32_MAX || |g.outputs| > U32_MAX || |g.nodes| > U32_MAX
    ensures !Encodable(g)
  {
  }

  lemma IllVersioned(g: Graph)
    requires !CURRENT.ir.CanRead(g.version)
    ensures !WellFormed(g)
  {
  }

  /******* Decoding *******/

  method ReadDecl(c: Cursor) returns (r: Result<ValueDecl, IrError>)
    requires c.Valid()
    modifies c
    ensures c.Valid() && Follows(GetDecl(old(c.Rest())), r, c.Rest())
  {
    hide GetU8, GetU32, TypeOf;
    var id := c.U32(IrTruncated);
    if id.Err? { return Err(id.error); }
    var tag := c.U8(IrTruncated);
    if tag.Err? { return Err(tag.error); }
    var dtype := c.U8(IrTruncated);
    if dtype.Err? { return Err(dtype.error); }
    var rank := c.U8(IrTruncated);
    if rank.Err? { return Err(rank.error); }
    var reserved := c.U8(IrTruncated);
    if reserved.Err? { return Err(reserved.error); }
    if reserved.value != 0 { return Err(NonCanonicalEncoding); }
    var ty := TypeOf(tag.value, dtype.value, rank.value);
    if ty.Err? { return Err(ty.error); }
    r := Ok(ValueDecl(id.value, ty.value));
  }

  method ReadDecls(c: Cursor, n: u32) returns (r: Result<Vec<ValueDecl>, IrError>)
    requires c.Valid()
    modifies c
    ensures c.Valid() && Follows(GetDecls(n, old(c.Rest())), r, c.Rest())
  {
    hide GetDecl;
    var xs: seq<ValueDecl> := [];
    for i := 0 to n
      invariant c.Valid() && |xs| == i
      invariant GetMany(GetDecl, n, old(c.Rest())) == GetMore(GetDecl, n - i, xs, c.Rest())
    {
      var x := ReadDecl(c);
      if x.Err? { return Err(x.error); }
      xs := xs + [x.value];
    }
    r := Ok(xs);
  }

  method ReadIds(c: Cursor, n: u32) returns (r: Result<Vec<u32>, IrError>)
    requires c.Valid()
    modifies c
    ensures c.Valid() && Follows(GetIds(n, old(c.Rest())), r, c.Rest())
  {
    hide GetU32;
    var xs: seq<u32> := [];
    for i := 0 to n
      invariant c.Valid() && |xs| == i
      invariant GetMany(GetId, n, old(c.Rest())) == GetMore(GetId, n - i, xs, c.Rest())
    {
      var x := c.U32(IrTruncated);
      if x.Err? { return Err(x.error); }
      xs := xs + [x.value];
    }
    r := Ok(xs);
  }

  method ReadNodeHeader(c: Cursor) returns (r: Result<NodeHeader, IrError>)
    requires c.Valid()
    modifies c
    ensures c.Valid() && Follows(GetNodeHeader(old(c.Rest())), r, c.Rest())
  {
    hide GetU8, GetU16, GetU32;
    var id := c.U32(IrTruncated);
    if id.Err? { return Err(id.error); }
    var family := c.U8(IrTruncated);
    if family.Err? { return Err(family.error); }
    var opcode := c.U8(IrTruncated);
    if opcode.Err? { return Err(opcode.error); }
    var reserved := c.U16(IrTruncated);
    if reserved.Err? { return Err(reserved.error); }
    if reserved.value != 0 { return Err(NonCanonicalEncoding); }
    var inputs := c.U32(IrTruncated);
    if inputs.Err? { return Err(inputs.error); }
    var outputs := c.U32(IrTruncated);
    if outputs.Err? { return Err(outputs.error); }
    var attrs := c.U32(IrTruncated);
    if attrs.Err? { return Err(attrs.error); }
    r := Ok(NodeHeader(id.value, family.value, opcode.value, inputs.value, outputs.value, attrs.value));
  }

  method ReadNode(c: Cursor) returns (r: Result<Node, IrError>)
    requires c.Valid()
    modifies c
    ensures c.Valid() && Follows(GetNode(old(c.Rest())), r, c.Rest())
  {
    hide GetNodeHeader, GetIds, GetDecls, GetRaw, OpOf;
    var h := ReadNodeHeader(c);
    if h.Err? { return Err(h.error); }
    var inputs := ReadIds(c, h.value.inputs);
    if inputs.Err? { return Err(inputs.error); }
    var outputs := ReadDecls(c, h.value.outputs);
    if outputs.Err? { return Err(outputs.error); }
    var attrs := c.Take(h.value.attrs, IrTruncated);
    if attrs.Err? { return Err(attrs.error); }
    var op := OpOf(h.value.family, h.value.opcode, attrs.value);
    if op.Err? { return Err(op.error); }
    r := Ok(Node(h.value.id, op.value, inputs.value, outputs.value));
  }

  method ReadNodes(c: Cursor, n: u32) returns (r: Result<Vec<Node>, IrError>)
    requires c.Valid()
    modifies c
    ensures c.Valid() && Follows(GetMany(GetNode, n, old(c.Rest())), r, c.Rest())
  {
    hide GetNode;
    var xs: seq<Node> := [];
    for i := 0 to n
      invariant c.Valid() && |xs| == i
      invariant GetMany(GetNode, n, old(c.Rest())) == GetMore(GetNode, n - i, xs, c.Rest())
    {
      var x := ReadNode(c);
      if x.Err? { return Err(x.error); }
      xs := xs + [x.value];
    }
    r := Ok(xs);
  }

  method ReadGraphHeader(c: Cursor) returns (r: Result<GraphHeader, IrError>)
    requires c.Valid()
    modifies c
    ensures c.Valid() && Follows(GetGraphHeader(old(c.Rest())), r, c.Rest())
  {
    hide GetRaw, GetU16, GetU32;
    var magic := c.Take(6, IrTruncated);
    if magic.Err? { return Err(magic.error); }
    if magic.value != GRAPH_MAGIC { return Err(IrInvalidMagic); }
    var headerLen := c.U16(IrTruncated);
    if headerLen.Err? { return Err(headerLen.error); }
    if headerLen.value != GRAPH_HEADER_LEN { return Err(IrInvalidHeader); }
    var major := c.U16(IrTruncated);
    if major.Err? { return Err(major.error); }
    var minor := c.U16(IrTruncated);
    if minor.Err? { return Err(minor.error); }
    var version := Version(major.value, minor.value);
    if !CURRENT.ir.CanRead(version) { return Err(UnsupportedVersion(version)); }
    var inputs := c.U32(IrTruncated);
    if inputs.Err? { return Err(inputs.error); }
    var outputs := c.U32(IrTruncated);
    if outputs.Err? { return Err(outputs.error); }
    var nodes := c.U32(IrTruncated);
    if nodes.Err? { return Err(nodes.error); }
    r := Ok(GraphHeader(version, inputs.value, outputs.value, nodes.value));
  }

  /** Accepts exactly the encodings of well-formed graphs. */
  method DecodeGraph(bytes: Bytes) returns (r: Result<Graph, IrError>)
    requires |bytes| <= ISIZE_MAX
    ensures r.Ok? ==> Decodes(bytes, r.value)
    ensures r.Err? ==> forall g :: !Decodes(bytes, g)
    ensures match Parse(bytes)
            case Err(e) => r == Err(e)
            case Ok(g) => if WellFormed(g) then r == Ok(g) else r.Err? && r.error.StructuralValidation? && Explains(g, r.error.error)
  {
    hide GetGraphHeader, GetIds, GetDecls, GetMany, GetNode, WellFormed, Explains;
    var c := new Cursor(bytes);
    var h := ReadGraphHeader(c);
    if h.Err? { return Err(h.error); }
    var inputs := ReadDecls(c, h.value.inputs);
    if inputs.Err? { return Err(inputs.error); }
    var outputs := ReadIds(c, h.value.outputs);
    if outputs.Err? { return Err(outputs.error); }
    var nodes := ReadNodes(c, h.value.nodes);
    if nodes.Err? { return Err(nodes.error); }
    var done := c.IsFinished();
    if !done { return Err(NonCanonicalEncoding); }
    var g := Graph(h.value.version, inputs.value, outputs.value, nodes.value);
    assert Parse(bytes) == Ok(g);
    var error := Validate(g);
    if error.Some? { return Err(StructuralValidation(error.value)); }
    r := Ok(g);
  }
}
