/**
 Driving an approved plan to its end on the fabric, and the evidence collected from it.
 */
module AssistantDriver {
  import opened Wrappers
  import opened Bytes
  import opened Actions
  import opened FabricModel
  import opened Fabric

  datatype AssistantPlan = AssistantPlan(graph: TaskGraph, payloads: map<u32, TypedAction>, canonical: Str)

  datatype CognitiveTask = CognitiveTask(id: u64, graph: TaskGraph)

  datatype Evidence = Evidence(nodeId: u32, capability: Str, summary: Str, value: ActionValue, evidence: seq<Str>)

  datatype EvidenceError =
    | PlanNotCompleted
    | EmptyPlan
    | ActionNotCommitted(node: u32)
    | MissingOutput(node: u32)
    | InvalidOutput(node: u32)

  datatype DriverError =
    | TaskGraphMismatch
    | FabricFailure(error: FabricError)
    | Incomplete(planStatus: PlanStatus, actionStatus: Option<ActionStatus>, summary: Str)
    | NoEvidence(reason: EvidenceError)
    | NoSuchPlan
    | StepLimit

  /******* Evidence *******/

  function EvidenceOf(a: PlannedAction): Result<Evidence, EvidenceError> {
    if a.status != Committed then Err(ActionNotCommitted(a.nodeId))
    else if a.output.None? then Err(MissingOutput(a.nodeId))
    else if Blank(a.output.value.summary) then Err(InvalidOutput(a.nodeId))
    else Ok(Evidence(a.nodeId, a.capability, a.output.value.summary, a.output.value.value, a.output.value.evidence))
  }

  /** The first action from place `i` on that leaves no evidence, or the end. */
  function FirstWithout(actions: seq<PlannedAction>, i: nat): (n: nat)
    requires i <= |actions|
    ensures i <= n <= |actions| && (n < |actions| ==> EvidenceOf(actions[n]).Err?)
    ensures forall j :: i <= j < n ==> EvidenceOf(actions[j]).Ok?
    decreases |actions| - i
  {
    if i == |actions| || EvidenceOf(actions[i]).Err? then i else FirstWithout(actions, i + 1)
  }

  function Collected(p: PlanState): Result<seq<Evidence>, EvidenceError> {
    if p.status != PlanCompleted then Err(PlanNotCompleted)
    else if p.actions == [] then Err(EmptyPlan)
    else
      var n := FirstWithout(p.actions, 0);
      if n < |p.actions| then Err(EvidenceOf(p.actions[n]).error)
      else Ok(seq(|p.actions|, i requires 0 <= i < |p.actions| => EvidenceOf(p.actions[i]).value))
  }

  /** One piece of evidence for each action, in order, or the first action's reason there is none. */
  method CollectEvidence(p: PlanState) returns (r: Result<seq<Evidence>, EvidenceError>)
    ensures r == Collected(p)
    ensures r.Ok? <==> p.status == PlanCompleted && p.actions != [] && forall i :: 0 <= i < |p.actions| ==> EvidenceOf(p.actions[i]).Ok?
    ensures r.Ok? ==> |r.value| == |p.actions| && forall i :: 0 <= i < |p.actions| ==> EvidenceOf(p.actions[i]) == Ok(r.value[i])
    ensures r.Err? && p.status == PlanCompleted && p.actions != [] ==>
              exists i :: 0 <= i < |p.actions| && EvidenceOf(p.actions[i]) == Err(r.error) && forall j :: 0 <= j < i ==> EvidenceOf(p.actions[j]).Ok?
  {
    hide EvidenceOf;
    if p.status != PlanCompleted { return Err(PlanNotCompleted); }
    if p.actions == [] { return Err(EmptyPlan); }
    var evidence: seq<Evidence> := [];
    for i := 0 to |p.actions|
      invariant |evidence| == i && forall j :: 0 <= j < i ==> EvidenceOf(p.actions[j]) == Ok(evidence[j])
    {
      var e := EvidenceOf(p.actions[i]);
      if e.Err? {
        assert FirstWithout(p.actions, 0) == i;
        return Err(e.error);
      }
      evidence := evidence + [e.value];
    }
    assert FirstWithout(p.actions, 0) == |p.actions|;
    assert evidence == Collected(p).value;
    r := Ok(evidence);
  }

  /******* The run *******/

  /** The verifier of call `k` of a run. */
  type Verifiers = nat -> Verifier

  /** What the calls of a run leave: state and world, what the adapters saw, the reports, and why the run stopped early. */
  datatype Outcome<E> = Outcome(state: FabricState, env: E, events: seq<Event>, calls: nat, reports: seq<Report>, failure: Option<DriverError>)

  /** The report asks the driver to stop before the plan is complete. */
  predicate Stops(r: Report) {
    || r.planStatus in {PlanFailed, PlanRolledBack, PlanSuspended}
    || (r.planStatus == PlanReady && (r.actionStatus == Some(Retryable) || r.actionStatus == Some(Suspended)))
  }

  /** The outcome of a run that goes on after its first calls. */
  function Resumed<E>(events: seq<Event>, calls: nat, reports: seq<Report>, o: Outcome<E>): Outcome<E> {
    Outcome(o.state, o.env, events + o.events, calls + o.calls, reports + o.reports, o.failure)
  }

  /** Calls `n` up to `limit`, until one fails, completes the plan or asks to stop. */
  function RunFrom<E>(tools: Tools<E>, s: FabricState, env: E, plan: u64, authority: Authority, verifiers: Verifiers, n: nat, limit: nat)
    : (o: Outcome<E>)
    ensures plan in s.plans ==> plan in o.state.plans
    decreases limit - n
  {
    if n >= limit then Outcome(s, env, [], 0, [], None)
    else
      var step := ExecuteNext(tools, s, env, plan, authority, verifiers(n));
      match step.result
      case Err(e) => Outcome(step.state, step.env, step.events, 1, [], Some(FabricFailure(e)))
      case Ok(report) =>
        if report.planStatus == PlanCompleted then Outcome(step.state, step.env, step.events, 1, [report], None)
        else if Stops(report) then
          Outcome(step.state, step.env, step.events, 1, [report], Some(Incomplete(report.planStatus, report.actionStatus, report.summary)))
        else Resumed(step.events, 1, [report], RunFrom(tools, step.state, step.env, plan, authority, verifiers, n + 1, limit))
  }

  /** The stored plan is the one that was approved. */
  predicate SamePlan(p: PlanState, task: CognitiveTask, ap: AssistantPlan) {
    && p.taskId == task.id && |p.actions| == |ap.graph.actions|
    && forall i :: 0 <= i < |p.actions| ==> SameStep(p.actions[i], ap.graph.actions[i], ap)
  }

  predicate SameStep(a: PlannedAction, n: ActionNode, ap: AssistantPlan) {
    && a.nodeId == n.id && a.capability == n.capability && a.sideEffect == n.sideEffect
    && a.verificationRequired == n.verificationRequired
    && n.id in ap.payloads && ap.payloads[n.id] == a.action
  }

  datatype AssistantRun = AssistantRun(plan: u64, reports: seq<Report>, evidence: seq<Evidence>)

  datatype Continued<E> = Continued(outcome: Outcome<E>, result: Result<AssistantRun, DriverError>)

  function NotRun<E>(s: FabricState, env: E): Outcome<E> {
    Outcome(s, env, [], 0, [], None)
  }

  function Continue<E>(tools: Tools<E>, s: FabricState, env: E, plan: u64, task: CognitiveTask, ap: AssistantPlan, authority: Authority,
                       verifiers: Verifiers): (k: Continued<E>)
    ensures plan in s.plans ==> plan in k.outcome.state.plans
  {
    if task.graph.actions == [] || task.graph != ap.graph then Continued(NotRun(s, env), Err(TaskGraphMismatch))
    else if plan !in s.plans then Continued(NotRun(s, env), Err(NoSuchPlan))
    else if !SamePlan(s.plans[plan], task, ap) then Continued(NotRun(s, env), Err(TaskGraphMismatch))
    else
      var o := if s.plans[plan].status == PlanCompleted then NotRun(s, env)
               else RunFrom(tools, s, env, plan, authority, verifiers, 0, |ap.graph.actions|);
      Continued(o, Concluded(plan, o))
  }

  /** What the caller gets after the calls. */
  function Concluded<E>(plan: u64, o: Outcome<E>): Result<AssistantRun, DriverError> {
    if o.failure.Some? then Err(o.failure.value)
    else if plan !in o.state.plans then Err(NoSuchPlan)
    else if o.state.plans[plan].status != PlanCompleted then Err(StepLimit)
    else
      match Collected(o.state.plans[plan])
      case Err(e) => Err(NoEvidence(e))
      case Ok(evidence) => Ok(AssistantRun(plan, o.reports, evidence))
  }

  /** A call whose report does not stop the driver committed the action at the cursor or completed the plan. */
  lemma GoesOn<E>(tools: Tools<E>, s: FabricState, env: E, plan: u64, authority: Authority, verifier: Verifier)
    requires plan in s.plans && ExecuteNext(tools, s, env, plan, authority, verifier).result.Ok?
    ensures var step := ExecuteNext(tools, s, env, plan, authority, verifier);
            && plan in step.state.plans
            && var p, q := s.plans[plan], step.state.plans[plan];
            && q.status == step.result.value.planStatus && |q.actions| == |p.actions|
            && (!Stops(step.result.value) && q.status != PlanCompleted ==>
                  q.status == PlanReady && q.cursor == p.cursor + 1 < |q.actions|)
  {
    var p := s.plans[plan];
    if p.cursor < |p.actions| {
      TurnStops(tools, env, p.actions[p.cursor], Admit(tools.registry, p.actions[p.cursor], authority).value, verifier);
    }
  }

  lemma TurnStops<E>(tools: Tools<E>, env: E, a: PlannedAction, d: Descriptor, verifier: Verifier)
    ensures var t := RunAction(tools, env, a, d, verifier);
            t.failure.Some? || t.advances || t.status in {PlanFailed, PlanSuspended}
            || (t.status == PlanReady && t.action.status == Retryable)
  {
  }

  /** A run of as many calls as the plan has actions completes it or says why not. */
  lemma {:induction false} RunCompletes<E>(tools: Tools<E>, s: FabricState, env: E, plan: u64, authority: Authority, verifiers: Verifiers, n: nat)
    requires plan in s.plans && n < |s.plans[plan].actions| && (n == 0 || n <= s.plans[plan].cursor)
    ensures var limit := |s.plans[plan].actions|;
            var o := RunFrom(tools, s, env, plan, authority, verifiers, n, limit);
            && o.calls <= limit - n && |o.reports| <= o.calls
            && o.failure != Some(StepLimit)
            && (o.failure.None? ==> |o.reports| == o.calls && o.state.plans[plan].status == PlanCompleted && |o.state.plans[plan].actions| == limit)
    decreases |s.plans[plan].actions| - n
  {
    hide ExecuteNext, Stops;
    var limit := |s.plans[plan].actions|;
    var step := ExecuteNext(tools, s, env, plan, authority, verifiers(n));
    if step.result.Ok? {
      GoesOn(tools, s, env, plan, authority, verifiers(n));
      if step.result.value.planStatus != PlanCompleted && !Stops(step.result.value) {
        RunCompletes(tools, step.state, step.env, plan, authority, verifiers, n + 1);
      }
    }
  }

  /**
   A run makes at most as many calls as the plan has actions and never meets its step limit;
   it succeeds only with one piece of evidence per action, each committed, in order.
   */
  lemma RunHasEvidence<E>(tools: Tools<E>, s: FabricState, env: E, plan: u64, task: CognitiveTask, ap: AssistantPlan, authority: Authority,
                          verifiers: Verifiers)
    ensures var k := Continue(tools, s, env, plan, task, ap, authority, verifiers);
            && k.outcome.calls <= |ap.graph.actions|
            && k.result != Err(StepLimit)
            && (k.result.Ok? ==>
                  && plan in k.outcome.state.plans && k.outcome.state.plans[plan].status == PlanCompleted
                  && |k.result.value.reports| == k.outcome.calls
                  && var p := k.outcome.state.plans[plan];
                  && |k.result.value.evidence| == |p.actions| == |ap.graph.actions|
                  && forall i :: 0 <= i < |p.actions| ==> p.actions[i].status == Committed && EvidenceOf(p.actions[i]) == Ok(k.result.value.evidence[i]))
  {
    hide RunFrom;
    var k := Continue(tools, s, env, plan, task, ap, authority, verifiers);
    if plan in s.plans && task.graph.actions != [] && |s.plans[plan].actions| == |ap.graph.actions| && task.graph == ap.graph {
      RunCompletes(tools, s, env, plan, authority, verifiers, 0);
    }
    if k.result.Ok? {
      var p := k.outcome.state.plans[plan];
      forall i | 0 <= i < |p.actions|
        ensures p.actions[i].status == Committed && EvidenceOf(p.actions[i]) == Ok(k.result.value.evidence[i])
      {
        assert EvidenceOf(p.actions[i]).Ok?;
      }
    }
  }

  /** Checks the stored plan against the approved one, runs it to its end and collects the evidence. */
  method ContinueVerified<E>(fabric: ActionFabric<E>, plan: u64, task: CognitiveTask, ap: AssistantPlan, authority: Authority, verifiers: Verifiers)
    returns (r: Result<AssistantRun, DriverError>, ghost calls: nat)
    modifies fabric
    ensures var k := Continue(fabric.tools, old(fabric.state), old(fabric.env), plan, task, ap, authority, verifiers);
            && r == k.result && calls == k.outcome.calls
            && fabric.state == k.outcome.state && fabric.env == k.outcome.env && fabric.log == old(fabric.log) + k.outcome.events
  {
    hide ExecuteNext, RunFrom, SamePlan, Collected;
    calls := 0;
    assert fabric.log + [] == fabric.log;
    if task.graph.actions == [] || task.graph != ap.graph { return Err(TaskGraphMismatch), calls; }
    if plan !in fabric.state.plans { return Err(NoSuchPlan), calls; }
    var initial := fabric.state.plans[plan];
    if !SamePlan(initial, task, ap) { return Err(TaskGraphMismatch), calls; }
    var reports: seq<Report> := [];
    if initial.status != PlanCompleted {
      var failure;
      reports, failure, calls := RunSteps(fabric, plan, |ap.graph.actions|, authority, verifiers);
      if failure.Some? { return Err(failure.value), calls; }
    }
    if plan !in fabric.state.plans { return Err(NoSuchPlan), calls; }
    if fabric.state.plans[plan].status != PlanCompleted { return Err(StepLimit), calls; }
    var evidence := CollectEvidence(fabric.state.plans[plan]);
    if evidence.Err? { return Err(NoEvidence(evidence.error)), calls; }
    r := Ok(AssistantRun(plan, reports, evidence.value));
  }

  method RunSteps<E>(fabric: ActionFabric<E>, plan: u64, limit: nat, authority: Authority, verifiers: Verifiers)
    returns (reports: seq<Report>, failure: Option<DriverError>, ghost calls: nat)
    modifies fabric
    ensures var o := RunFrom(fabric.tools, old(fabric.state), old(fabric.env), plan, authority, verifiers, 0, limit);
            && reports == o.reports && failure == o.failure && calls == o.calls
            && fabric.state == o.state && fabric.env == o.env && fabric.log == old(fabric.log) + o.events
  {
    hide ExecuteNext, Stops, RunFrom;
    reports, failure, calls := [], None, 0;
    ghost var whole := RunFrom(fabric.tools, fabric.state, fabric.env, plan, authority, verifiers, 0, limit);
    ghost var events: seq<Event> := [];
    NothingYet(whole);
    var n: nat := 0;
    while n < limit
      invariant calls == n <= limit && fabric.log == old(fabric.log) + events
      invariant whole == Resumed(events, n, reports, RunFrom(fabric.tools, fabric.state, fabric.env, plan, authority, verifiers, n, limit))
    {
      OneCall(fabric.tools, fabric.state, fabric.env, plan, authority, verifiers, n, limit, events, reports);
      events := events + FabricModel.ExecuteNext(fabric.tools, fabric.state, fabric.env, plan, authority, verifiers(n)).events;
      var report := fabric.ExecuteNext(plan, authority, verifiers(n));
      n, calls := n + 1, calls + 1;
      if report.Err? { return reports, Some(FabricFailure(report.error)), calls; }
      reports := reports + [report.value];
      if report.value.planStatus == PlanCompleted { return; }
      if Stops(report.value) {
        return reports, Some(Incomplete(report.value.planStatus, report.value.actionStatus, report.value.summary)), calls;
      }
    }
    NoCalls(fabric.tools, fabric.state, fabric.env, plan, authority, verifiers, n, limit, events, reports);
  }

  /** What one more call makes of a run after its first `n` calls. */
  lemma OneCall<E>(tools: Tools<E>, s: FabricState, env: E, plan: u64, authority: Authority, verifiers: Verifiers, n: nat, limit: nat,
                   events: seq<Event>, reports: seq<Report>)
    requires n < limit
    ensures var step := ExecuteNext(tools, s, env, plan, authority, verifiers(n));
            var whole := Resumed(events, n, reports, RunFrom(tools, s, env, plan, authority, verifiers, n, limit));
            var seen := events + step.events;
            match step.result
            case Err(e) => whole == Outcome(step.state, step.env, seen, n + 1, reports, Some(FabricFailure(e)))
            case Ok(r) =>
              if r.planStatus == PlanCompleted then whole == Outcome(step.state, step.env, seen, n + 1, reports + [r], None)
              else if Stops(r) then
                whole == Outcome(step.state, step.env, seen, n + 1, reports + [r], Some(Incomplete(r.planStatus, r.actionStatus, r.summary)))
              else
                whole == Resumed(seen, n + 1, reports + [r], RunFrom(tools, step.state, step.env, plan, authority, verifiers, n + 1, limit))
  {
    hide ExecuteNext, Stops;
    var step := ExecuteNext(tools, s, env, plan, authority, verifiers(n));
    assert reports + [] == reports;
    if step.result.Ok? {
      ResumedTwice(events, n, reports, step.events, step.result.value,
                   RunFrom(tools, step.state, step.env, plan, authority, verifiers, n + 1, limit));
    }
  }

  lemma NoCalls<E>(tools: Tools<E>, s: FabricState, env: E, plan: u64, authority: Authority, verifiers: Verifiers, n: nat, limit: nat,
                   events: seq<Event>, reports: seq<Report>)
    requires n >= limit
    ensures Resumed(events, n, reports, RunFrom(tools, s, env, plan, authority, verifiers, n, limit)) == Outcome(s, env, events, n, reports, None)
  {
    assert events + [] == events && reports + [] == reports;
  }

  lemma NothingYet<E>(o: Outcome<E>)
    ensures Resumed([], 0, [], o) == o
  {
    assert [] + o.events == o.events && [] + o.reports == o.reports;
  }

  lemma ResumedTwice<E>(events: seq<Event>, calls: nat, reports: seq<Report>, more: seq<Event>, report: Report, o: Outcome<E>)
    ensures Resumed(events, calls, reports, Resumed(more, 1, [report], o)) == Resumed(events + more, calls + 1, reports + [report], o)
  {
    assert events + (more + o.events) == events + more + o.events;
    assert reports + ([report] + o.reports) == reports + [report] + o.reports;
  }
}
