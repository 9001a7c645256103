/** The plan parser as it runs, and what the fabric can say to its plans. */
module PlanParser {
  import opened Wrappers
  import opened Bytes
  import opened Actions
  import opened FabricModel
  import opened Trimming
  import opened AssistantDriver
  import opened PlanText

  /** Reads the lines one by one into a growing graph, payload map and canonical text. */
  method ParseNativePlan(text: Str) returns (r: Result<Decision, PlanError>)
    ensures r == Parse(text)
  {
    hide Trim, Lines, ParseLine, Utf8;
    var normalized := Trim(text);
    if normalized == [] { return Err(Empty); }
    if normalized == DIRECT { return Ok(Direct); }
    var lines := Lines(normalized);
    if |lines| == 0 || lines[0] != HEADER { return Err(InvalidHeader); }
    var parsed := ParseLines(lines);
    if parsed.Err? { return Err(parsed.error); }
    r := Ok(Planned(parsed.value));
  }

  /** The canonical text so far, before the end marker. */
  ghost function Sofar(steps: seq<ActionLine>): Bytes {
    if |steps| == 0 then HEADER + [NEWLINE]
    else Sofar(steps[..|steps| - 1]) + steps[|steps| - 1].line + [NEWLINE]
  }

  lemma SofarSnoc(steps: seq<ActionLine>, step: ActionLine)
    ensures Sofar(steps + [step]) == Sofar(steps) + step.line + [NEWLINE]
    ensures PayloadsOf(steps + [step]) == PayloadsOf(steps)[step.node.id := step.action]
    ensures NodesOf(steps + [step]) == NodesOf(steps) + [step.node]
  {
    assert (steps + [step])[..|steps|] == steps;
  }

  lemma {:induction false} SofarThenRest(steps: seq<ActionLine>, i: nat)
    requires i <= |steps|
    ensures Sofar(steps[..i]) + JoinLines(steps, i) == Canonical(steps)
    decreases i
  {
    hide Utf8;
    if i > 0 {
      SofarThenRest(steps, i - 1);
      assert steps[..i][..i - 1] == steps[..i - 1];
      assert JoinLines(steps, i - 1) == steps[i - 1].line + [NEWLINE] + JoinLines(steps, i);
      var a, l, rest := Sofar(steps[..i - 1]), steps[i - 1].line, JoinLines(steps, i);
      assert a + l + [NEWLINE] + rest == a + (l + [NEWLINE] + rest);
    }
  }

  lemma CanonicalSofar(steps: seq<ActionLine>)
    ensures Sofar(steps) + END == Canonical(steps)
  {
    hide Utf8;
    SofarThenRest(steps, |steps|);
    assert steps[..|steps|] == steps;
    assert JoinLines(steps, |steps|) == END;
  }

  method ParseLines(lines: seq<Str>) returns (r: Result<AssistantPlan, PlanError>)
    requires |lines| > 0 && forall k :: 0 <= k < |lines| ==> NEWLINE !in lines[k]
    ensures match ParseBody(lines, 1, [])
            case Err(e) => r == Err(e)
            case Ok(steps) => |steps| <= MAX_ACTIONS && r == Ok(PlanOf(steps))
  {
    hide ParseLine, Utf8, Sofar, JoinLines, Canonical, PayloadsOf;
    var nodes: seq<ActionNode> := [];
    var payloads: map<u32, TypedAction> := map[];
    var canonical: Bytes := HEADER + [NEWLINE];
    var expectedId: u32 := 1;
    ghost var steps: seq<ActionLine> := [];
    NothingParsed();
    var i := 1;
    while i < |lines| && lines[i] != END
      invariant 1 <= i <= |lines|
      invariant expectedId == |steps| + 1 && |steps| <= MAX_ACTIONS
      invariant nodes == NodesOf(steps) && payloads == PayloadsOf(steps) && canonical == Sofar(steps)
      invariant ParseBody(lines, 1, []) == ParseBody(lines, i, steps)
    {
      if |nodes| >= MAX_ACTIONS { return Err(TooManyActions); }
      var step := ParseLine(lines[i], expectedId);
      if step.Err? { return Err(step.error); }
      LineIsKept(lines[i], expectedId);
      SofarSnoc(steps, step.value);
      expectedId := expectedId + 1;
      canonical := canonical + lines[i] + [NEWLINE];
      payloads := payloads[step.value.node.id := step.value.action];
      nodes := nodes + [step.value.node];
      steps := steps + [step.value];
      i := i + 1;
    }
    if i == |lines| { return Err(MissingEnd); }
    if !AllBlankFrom(lines, i + 1) { return Err(TrailingContent); }
    if nodes == [] { return Err(EmptyActionPlan); }
    CanonicalSofar(steps);
    canonical := canonical + END;
    r := Ok(AssistantPlan(TaskGraph(nodes), payloads, canonical));
  }

  lemma NothingParsed()
    ensures Sofar([]) == HEADER + [NEWLINE] && PayloadsOf([]) == map[]
  {
  }

  /******* Preparing a parsed plan *******/

  lemma {:induction false} CheckOnlyRegistry(registry: Registry, nodes: seq<ActionNode>, payloads: map<u32, TypedAction>, first: nat, seen: set<u32>)
    requires forall k :: 0 <= k < |nodes| ==> nodes[k].id == first + k && nodes[k].id in payloads && nodes[k].verificationRequired
    requires forall id :: id in seen ==> id < first
    ensures var r := CheckNodes(registry, nodes, payloads, seen);
            r.Err? ==> r.error.Capability? || r.error.SideEffectMismatch?
    decreases |nodes|
  {
    if |nodes| > 0 {
      forall k | 0 <= k < |nodes| - 1
        ensures nodes[1..][k].id == first + 1 + k && nodes[1..][k].id in payloads && nodes[1..][k].verificationRequired
      {
        assert nodes[1..][k] == nodes[k + 1];
      }
      CheckOnlyRegistry(registry, nodes[1..], payloads, first + 1, seen + {nodes[0].id});
    }
  }

  /**
   For a task with an id, the fabric refuses a parsed plan only because the registry rejects
   an action, declares another side effect for it, or the ids have run out.
   */
  lemma ParsedPlansArePrepared(registry: Registry, s: FabricState, taskId: u64, text: Str)
    requires taskId != 0 && Parse(text).Ok? && Parse(text).value.Planned?
    ensures var plan := Parse(text).value.plan;
            var r := PreparePlan(registry, s, taskId, plan.graph, plan.payloads).0;
            r.Err? ==> r.error.Capability? || r.error.SideEffectMismatch? || r.error == FabricError.Overflow
  {
    hide Parse, CheckNodes;
    PlansParseBack(text);
    var plan := Parse(text).value.plan;
    CheckOnlyRegistry(registry, plan.graph.actions, plan.payloads, 1, {});
    forall id | id in plan.payloads
      ensures id in NodeIds(plan.graph.actions)
    {
      assert plan.graph.actions[id - 1] in plan.graph.actions;
    }
  }
}
