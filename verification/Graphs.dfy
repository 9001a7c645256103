/**
 The intermediate representation: a graph of operations over declared values, and the
 one-pass validation that decides whether every value is declared once and before use.
 */
module Graphs {
  import opened Wrappers
  import opened Bytes
  import opened Capsule

  datatype DType = F32 | F16 | Bf16 | I8 | U8Type | I32 | I64 | Boolean

  datatype ValueType = Scalar(dtype: DType) | Tensor(dtype: DType, rank: u8) | BytesType | Handle

  datatype ValueDecl = ValueDecl(id: u32, ty: ValueType)

  datatype TensorOp = Add | Mul | MatMul | QuantizedMatMul | RmsNorm | Softmax | Gather | RotaryPosition | CausalAttention
                    | Silu | Reshape | Transpose | PositionIds

  datatype StateOp = ReadState | WriteState | Checkpoint

  datatype MemoryOp = Retrieve | Store | Forget

  datatype ControlOp = Select | Merge | Barrier

  datatype OpKind =
    | TensorKind(tensor: TensorOp)
    | StateKind(state: StateOp)
    | MemoryKind(memory: MemoryOp)
    | ControlKind(control: ControlOp)
    | Invoke(capability: Str)
    | Observe
    | Verify

  datatype Node = Node(id: u32, op: OpKind, inputs: Vec<u32>, outputs: Vec<ValueDecl>)

  datatype Graph = Graph(version: Version, inputs: Vec<ValueDecl>, outputs: Vec<u32>, nodes: Vec<Node>)

  datatype ValidationError =
    | UnsupportedIr(version: Version)
    | DuplicateNodeId(node: u32)
    | DuplicateValue(id: u32)
    | MissingInput(node: u32, id: u32)
    | MissingGraphOutput(id: u32)

  /******* Well-formed graphs *******/

  function Ids(decls: seq<ValueDecl>): (ids: seq<u32>)
    ensures |ids| == |decls| && forall i :: 0 <= i < |decls| ==> ids[i] == decls[i].id
  {
    seq(|decls|, i requires 0 <= i < |decls| => decls[i].id)
  }

  /** Every declaration up to node `n`, in order: the graph's inputs, then what the nodes put out. */
  function Declared(g: Graph, n: nat): seq<u32>
    requires n <= |g.nodes|
  {
    if n == 0 then Ids(g.inputs) else Declared(g, n - 1) + Ids(g.nodes[n - 1].outputs)
  }

  predicate NoRepeats(ids: seq<u32>) {
    forall i, j :: 0 <= i < j < |ids| ==> ids[i] != ids[j]
  }

  /** What every input of node `n` must be: declared by the graph or by an earlier node. */
  predicate InputsKnown(g: Graph, n: nat)
    requires n < |g.nodes|
  {
    forall k :: 0 <= k < |g.nodes[n].inputs| ==> g.nodes[n].inputs[k] in Declared(g, n)
  }

  function NodeIds(g: Graph): (ids: seq<u32>)
    ensures |ids| == |g.nodes| && forall i :: 0 <= i < |g.nodes| ==> ids[i] == g.nodes[i].id
  {
    seq(|g.nodes|, i requires 0 <= i < |g.nodes| => g.nodes[i].id)
  }

  predicate WellFormed(g: Graph) {
    && CURRENT.ir.CanRead(g.version)
    && NoRepeats(NodeIds(g))
    && NoRepeats(Declared(g, |g.nodes|))
    && (forall n :: 0 <= n < |g.nodes| ==> InputsKnown(g, n))
    && (forall k :: 0 <= k < |g.outputs| ==> g.outputs[k] in Declared(g, |g.nodes|))
  }

  predicate Twice(id: u32, ids: seq<u32>) {
    exists i, j :: 0 <= i < j < |ids| && ids[i] == id == ids[j]
  }

  /** The error names something that is really wrong with the graph. */
  ghost predicate Explains(g: Graph, e: ValidationError) {
    match e
    case UnsupportedIr(version) => version == g.version && !CURRENT.ir.CanRead(version)
    case DuplicateNodeId(id) => Twice(id, NodeIds(g))
    case DuplicateValue(id) => Twice(id, Declared(g, |g.nodes|))
    case MissingInput(node, id) =>
      exists n :: 0 <= n < |g.nodes| && g.nodes[n].id == node && id in g.nodes[n].inputs && id !in Declared(g, n)
    case MissingGraphOutput(id) => id in g.outputs && id !in Declared(g, |g.nodes|)
  }

  lemma ExplainedIsIllFormed(g: Graph, e: ValidationError)
    requires Explains(g, e)
    ensures !WellFormed(g)
  {
    hide Declared;
    if e.MissingInput? {
      var n :| 0 <= n < |g.nodes| && g.nodes[n].id == e.node && e.id in g.nodes[n].inputs && e.id !in Declared(g, n);
      assert !InputsKnown(g, n);
    }
  }

  /******* Graph::validate *******/

  lemma {:induction false} DeclaredExtends(g: Graph, m: nat, n: nat)
    requires m <= n <= |g.nodes|
    ensures Declared(g, m) <= Declared(g, n)
    decreases n
  {
    if m < n {
      DeclaredExtends(g, m, n - 1);
    }
  }

  lemma TwiceInPrefix(id: u32, ids: seq<u32>, more: seq<u32>)
    requires Twice(id, ids) && ids <= more
    ensures Twice(id, more)
  {
    var i, j :| 0 <= i < j < |ids| && ids[i] == id == ids[j];
    assert more[i] == id == more[j];
  }

  /** Adds the declarations to `values`; stops at an id that is there already. */
  method Declare(decls: seq<ValueDecl>, values: set<u32>, ghost before: seq<u32>) returns (values': set<u32>, repeated: Option<u32>)
    requires NoRepeats(before) && forall id :: id in values <==> id in before
    ensures repeated.None? ==> NoRepeats(before + Ids(decls)) && forall id :: id in values' <==> id in before + Ids(decls)
    ensures repeated.Some? ==> Twice(repeated.value, before + Ids(decls))
  {
    values' := values;
    ghost var sofar := before;
    assert before + Ids(decls)[..0] == before;
    for i := 0 to |decls|
      invariant sofar == before + Ids(decls)[..i] && NoRepeats(sofar)
      invariant forall id :: id in values' <==> id in sofar
    {
      var id := decls[i].id;
      assert before + Ids(decls)[..i + 1] == sofar + [id];
      if id in values' {
        RepeatedNow(sofar, id);
        assert sofar + [id] <= before + Ids(decls);
        TwiceInPrefix(id, sofar + [id], before + Ids(decls));
        return values', Some(id);
      }
      values', sofar := values' + {id}, sofar + [id];
    }
    assert Ids(decls)[..|decls|] == Ids(decls);
    repeated := None;
  }

  lemma RepeatedNow(ids: seq<u32>, id: u32)
    requires id in ids
    ensures Twice(id, ids + [id])
  {
    var i :| 0 <= i < |ids| && ids[i] == id;
    var longer := ids + [id];
    assert longer[i] == id == longer[|ids|];
  }

  method CheckInputs(g: Graph, n: nat, values: set<u32>) returns (missing: Option<u32>)
    requires n < |g.nodes| && forall id :: id in values <==> id in Declared(g, n)
    ensures missing.None? <==> InputsKnown(g, n)
    ensures missing.Some? ==> missing.value in g.nodes[n].inputs && missing.value !in Declared(g, n)
  {
    for k := 0 to |g.nodes[n].inputs|
      invariant forall j :: 0 <= j < k ==> g.nodes[n].inputs[j] in Declared(g, n)
    {
      if g.nodes[n].inputs[k] !in values {
        return Some(g.nodes[n].inputs[k]);
      }
    }
    missing := None;
  }

  lemma NodeIdRepeated(g: Graph, n: nat, ids: set<u32>)
    requires n < |g.nodes| && forall id :: id in ids <==> id in NodeIds(g)[..n]
    requires g.nodes[n].id in ids
    ensures Twice(g.nodes[n].id, NodeIds(g))
  {
    var i :| 0 <= i < n && NodeIds(g)[..n][i] == g.nodes[n].id;
    assert NodeIds(g)[i] == NodeIds(g)[n];
  }

  /** The nodes in order; on success `values` holds every declared id. */
  method CheckNodes(g: Graph, values: set<u32>) returns (error: Option<ValidationError>, values': set<u32>)
    requires NoRepeats(Declared(g, 0)) && forall id :: id in values <==> id in Declared(g, 0)
    ensures error.Some? ==> Explains(g, error.value)
    ensures error.None? ==>
      && NoRepeats(NodeIds(g)) && NoRepeats(Declared(g, |g.nodes|))
      && (forall n :: 0 <= n < |g.nodes| ==> InputsKnown(g, n))
      && (forall id :: id in values' <==> id in Declared(g, |g.nodes|))
  {
    hide InputsKnown, Declared, Twice;
    values' := values;
    var nodeIds: set<u32> := {};
    for n := 0 to |g.nodes|
      invariant NoRepeats(Declared(g, n)) && forall id :: id in values' <==> id in Declared(g, n)
      invariant NoRepeats(NodeIds(g)[..n]) && forall id :: id in nodeIds <==> id in NodeIds(g)[..n]
      invariant forall m :: 0 <= m < n ==> InputsKnown(g, m)
    {
      var node := g.nodes[n];
      if node.id in nodeIds {
        NodeIdRepeated(g, n, nodeIds);
        return Some(DuplicateNodeId(node.id)), values';
      }
      assert NodeIds(g)[..n + 1] == NodeIds(g)[..n] + [node.id];
      nodeIds := nodeIds + {node.id};
      var missing := CheckInputs(g, n, values');
      if missing.Some? {
        return Some(MissingInput(node.id, missing.value)), values';
      }
      var repeated;
      values', repeated := Declare(node.outputs, values', Declared(g, n));
      DeclaredStep(g, n);
      if repeated.Some? {
        DeclaredExtends(g, n + 1, |g.nodes|);
        TwiceInPrefix(repeated.value, Declared(g, n + 1), Declared(g, |g.nodes|));
        return Some(DuplicateValue(repeated.value)), values';
      }
    }
    assert NodeIds(g)[..|g.nodes|] == NodeIds(g);
    error := None;
  }

  lemma DeclaredStep(g: Graph, n: nat)
    requires n < |g.nodes|
    ensures Declared(g, n + 1) == Declared(g, n) + Ids(g.nodes[n].outputs)
  {
  }

  method CheckOutputs(g: Graph, values: set<u32>) returns (missing: Option<u32>)
    requires forall id :: id in values <==> id in Declared(g, |g.nodes|)
    ensures missing.None? <==> forall k :: 0 <= k < |g.outputs| ==> g.outputs[k] in Declared(g, |g.nodes|)
    ensures missing.Some? ==> missing.value in g.outputs && missing.value !in Declared(g, |g.nodes|)
  {
    hide Declared;
    for k := 0 to |g.outputs|
      invariant forall j :: 0 <= j < k ==> g.outputs[j] in Declared(g, |g.nodes|)
    {
      if g.outputs[k] !in values {
        return Some(g.outputs[k]);
      }
    }
    missing := None;
  }

  lemma InputsFirst(g: Graph)
    ensures Declared(g, 0) == [] + Ids(g.inputs) && Declared(g, 0) <= Declared(g, |g.nodes|)
  {
    DeclaredExtends(g, 0, |g.nodes|);
  }

  method Validate(g: Graph) returns (error: Option<ValidationError>)
    ensures error.None? <==> WellFormed(g)
    ensures error.Some? ==> Explains(g, error.value)
  {
    hide Twice, InputsKnown, Declared, NoRepeats, Ids, NodeIds;
    if !CURRENT.ir.CanRead(g.version) {
      return Some(UnsupportedIr(g.version));
    }
    assert NoRepeats([]) by { NothingRepeats(); }
    var values, repeated := Declare(g.inputs, {}, []);
    InputsFirst(g);
    if repeated.Some? {
      TwiceInPrefix(repeated.value, Declared(g, 0), Declared(g, |g.nodes|));
      error := Some(DuplicateValue(repeated.value));
      ExplainedIsIllFormed(g, error.value);
      return;
    }
    error, values := CheckNodes(g, values);
    if error.Some? {
      ExplainedIsIllFormed(g, error.value);
      return;
    }
    var missing := CheckOutputs(g, values);
    error := if missing.Some? then Some(MissingGraphOutput(missing.value)) else None;
  }

  lemma NothingRepeats()
    ensures NoRepeats([])
  {
  }
}
