/**
 What holds along every run of prepare, execute and rollback calls, part-way failed
 rollbacks included. Between two calls the adapters and the world may change at will.
 */
module FabricRuns {
  import opened Wrappers
  import opened Bytes
  import opened Actions
  import opened FabricModel
  import opened FabricInvariant

  datatype Call<!E> =
    | Prepare(registry: Registry, taskId: u64, graph: TaskGraph, payloads: map<u32, TypedAction>)
    | Execute(tools: Tools<E>, env: E, plan: u64, authority: Authority, verifier: Verifier)
    | Rollback(tools: Tools<E>, env: E, plan: u64)

  function After<E>(c: Call<E>, s: FabricState): FabricState {
    match c
    case Prepare(registry, taskId, graph, payloads) => PreparePlan(registry, s, taskId, graph, payloads).1
    case Execute(tools, env, plan, authority, verifier) => ExecuteNext(tools, s, env, plan, authority, verifier).state
    case Rollback(tools, env, plan) => RollbackPlan(tools, s, env, plan).state
  }

  function Seen<E>(c: Call<E>, s: FabricState): seq<Event> {
    match c
    case Prepare(_, _, _, _) => []
    case Execute(tools, env, plan, authority, verifier) => ExecuteNext(tools, s, env, plan, authority, verifier).events
    case Rollback(tools, env, plan) => RollbackPlan(tools, s, env, plan).events
  }

  function Run<E>(calls: seq<Call<E>>, s: FabricState): FabricState {
    if |calls| == 0 then s
    else After(calls[|calls| - 1], Run(calls[..|calls| - 1], s))
  }

  function History<E>(calls: seq<Call<E>>, s: FabricState): seq<Event> {
    if |calls| == 0 then []
    else
      var before := calls[..|calls| - 1];
      History(before, s) + Seen(calls[|calls| - 1], Run(before, s))
  }

  /******* Nothing moves back *******/

  predicate StatusAdvances(a: ActionStatus, b: ActionStatus) {
    && (a == RolledBack ==> b == RolledBack)
    && (a == Committed ==> b == Committed || b == RolledBack)
  }

  predicate ActionAdvances(a: PlannedAction, b: PlannedAction) {
    SameRequest(a, b) && StatusAdvances(a.status, b.status) && a.attempts <= b.attempts
  }

  predicate PlanAdvances(p: PlanState, q: PlanState) {
    && p.id == q.id && p.taskId == q.taskId
    && p.cursor <= q.cursor
    && (Terminal(p.status) ==> q.status == p.status || q.status == PlanRolledBack)
    && |p.actions| == |q.actions|
    && forall i :: 0 <= i < |p.actions| ==> ActionAdvances(p.actions[i], q.actions[i])
  }

  ghost predicate StateAdvances(s: FabricState, t: FabricState) {
    && s.nextPlanId <= t.nextPlanId && s.nextActionId <= t.nextActionId
    && forall p :: p in s.plans ==> p in t.plans && PlanAdvances(s.plans[p], t.plans[p])
  }

  lemma AdvancesTransitive(s: FabricState, t: FabricState, u: FabricState)
    requires StateAdvances(s, t) && StateAdvances(t, u)
    ensures StateAdvances(s, u)
  {
    forall p | p in s.plans
      ensures p in u.plans && PlanAdvances(s.plans[p], u.plans[p])
    {
      var a, b, c := s.plans[p], t.plans[p], u.plans[p];
      forall i | 0 <= i < |a.actions|
        ensures ActionAdvances(a.actions[i], c.actions[i])
      {
        assert ActionAdvances(a.actions[i], b.actions[i]) && ActionAdvances(b.actions[i], c.actions[i]);
      }
    }
  }

  /** Plan ids not yet given out are unused; default and validated states have this. */
  ghost predicate FreshPlans(s: FabricState) {
    forall p :: p in s.plans ==> p < s.nextPlanId
  }

  lemma TurnAdvances<E>(tools: Tools<E>, env: E, a: PlannedAction, d: Descriptor, verifier: Verifier)
    requires !Final(a.status)
    ensures var t := RunAction(tools, env, a, d, verifier);
            && ActionAdvances(a, t.action)
            && (t.advances ==> t.action.status == Committed && !t.undone)
            && (t.undone ==> t.action.status == RolledBack)
  {
    if a.capability in tools.adapters {
      var adapter := tools.adapters[a.capability];
      var (env', answer) := CallAdapter(adapter, env, a);
      if answer.Ok? {
        ApplyAdvances(tools.texts, adapter, a, d, answer.value, verifier, env');
      }
    }
  }

  lemma ApplyAdvances<E>(texts: Texts, adapter: Adapter<E>, a: PlannedAction, d: Descriptor, answer: AdapterResult, verifier: Verifier, env: E)
    requires !Final(a.status)
    ensures var t := Apply(texts, adapter, a, MarkRunning(a), d, answer, verifier, env);
            && ActionAdvances(a, t.action)
            && (t.advances ==> t.action.status == Committed && !t.undone)
            && (t.undone ==> t.action.status == RolledBack)
  {
  }

  lemma OnePlanAdvances(s: FabricState, plan: u64, q: PlanState)
    requires FreshPlans(s) && plan in s.plans && PlanAdvances(s.plans[plan], q)
    ensures var t := s.(plans := s.plans[plan := q]);
            StateAdvances(s, t) && FreshPlans(t)
  {
    forall p | p in s.plans
      ensures PlanAdvances(s.plans[p], s.plans[plan := q][p])
    {
      if p != plan {
        PlanAdvancesReflexive(s.plans[p]);
      }
    }
  }

  lemma PlanAdvancesReflexive(p: PlanState)
    ensures PlanAdvances(p, p)
  {
  }

  lemma ExecuteAdvances<E>(tools: Tools<E>, env: E, s: FabricState, plan: u64, authority: Authority, verifier: Verifier)
    requires FreshPlans(s) && plan in s.plans
    ensures var t := ExecuteNext(tools, s, env, plan, authority, verifier).state;
            StateAdvances(s, t) && FreshPlans(t)
  {
    var p := s.plans[plan];
    PlanAdvancesReflexive(p);
    OnePlanAdvances(s, plan, p);
    assert s.plans[plan := p] == s.plans;
    if !Terminal(p.status) {
      if p.cursor >= |p.actions| {
        OnePlanAdvances(s, plan, p.(status := PlanCompleted));
      } else {
        var a := p.actions[p.cursor];
        var d := Admit(tools.registry, a, authority);
        if d.Ok? {
          TurnAdvances(tools, env, a, d.value, verifier);
          OnePlanAdvances(s, plan, PlanAfter(p, RunAction(tools, env, a, d.value, verifier)));
        }
      }
    }
  }

  lemma RollbackAdvances<E>(tools: Tools<E>, env: E, s: FabricState, plan: u64)
    requires FreshPlans(s) && plan in s.plans
    ensures var t := RollbackPlan(tools, s, env, plan).state;
            StateAdvances(s, t) && FreshPlans(t)
  {
    var p := s.plans[plan];
    var undone := Unwind(tools, p.actions, |p.actions|, env).undone;
    UnwindInOrder(tools, p.actions, |p.actions|, env);
    var q := p.(actions := MarkUndone(p.actions, undone));
    assert PlanAdvances(p, q) && PlanAdvances(p, q.(status := PlanRolledBack));
    OnePlanAdvances(s, plan, q);
    OnePlanAdvances(s, plan, q.(status := PlanRolledBack));
  }

  lemma CallAdvances<E>(c: Call<E>, s: FabricState)
    requires FreshPlans(s)
    ensures StateAdvances(s, After(c, s)) && FreshPlans(After(c, s))
  {
    forall p | p in s.plans
      ensures PlanAdvances(s.plans[p], s.plans[p])
    {
      PlanAdvancesReflexive(s.plans[p]);
    }
    match c
    case Prepare(_, _, _, _) =>
    case Execute(tools, env, plan, authority, verifier) =>
      if plan in s.plans {
        ExecuteAdvances(tools, env, s, plan, authority, verifier);
      }
    case Rollback(tools, env, plan) =>
      if plan in s.plans {
        RollbackAdvances(tools, env, s, plan);
      }
  }

  /** Along every run no cursor moves back, committed actions stay committed or get rolled back, and rolled back is final. */
  lemma {:induction false} RunAdvances<E>(calls: seq<Call<E>>, s: FabricState)
    requires FreshPlans(s)
    ensures StateAdvances(s, Run(calls, s)) && FreshPlans(Run(calls, s))
  {
    if |calls| > 0 {
      var before := calls[..|calls| - 1];
      RunAdvances(before, s);
      CallAdvances(calls[|calls| - 1], Run(before, s));
      AdvancesTransitive(s, Run(before, s), Run(calls, s));
    }
  }

  /******* What the adapters see *******/

  /** No event of `later` may follow the event `e`. */
  predicate MayFollow(e: Event, later: Event) {
    match e
    case Ran(_, _, _, _) => true
    case CommittedAt(p, k, _) =>
      && !(later.Ran? && later.plan == p && later.index == k)
      && !(later.CommittedAt? && later.plan == p && later.index <= k)
    case Undone(p, k, _) =>
      !(later.plan == p && later.index == k)
  }

  ghost predicate Lawful(log: seq<Event>) {
    forall i, j :: 0 <= i < j < |log| ==> MayFollow(log[i], log[j])
  }

  /** The stored state remembers the event. */
  predicate Remembered(s: FabricState, e: Event) {
    && e.plan in s.plans
    && var p := s.plans[e.plan];
    && e.index < |p.actions| && p.actions[e.index].id == e.id
    && (e.CommittedAt? ==> e.index < p.cursor && p.actions[e.index].status in {Committed, RolledBack})
    && (e.Undone? ==> p.actions[e.index].status == RolledBack)
  }

  /** The stored state allows the event to happen. */
  predicate Allowed(s: FabricState, e: Event) {
    && e.plan in s.plans
    && var p := s.plans[e.plan];
    && e.index < |p.actions| && p.actions[e.index].id == e.id
    && (e.Undone? ==> p.actions[e.index].status != RolledBack)
    && (!e.Undone? ==> e.index == p.cursor && !Final(p.actions[e.index].status))
  }

  lemma AllowedMayFollow(s: FabricState, e: Event, later: Event)
    requires Remembered(s, e) && Allowed(s, later)
    ensures MayFollow(e, later)
  {
  }

  lemma StaysRemembered(s: FabricState, t: FabricState, e: Event)
    requires StateAdvances(s, t) && Remembered(s, e)
    ensures Remembered(t, e)
  {
    assert PlanAdvances(s.plans[e.plan], t.plans[e.plan]);
    assert ActionAdvances(s.plans[e.plan].actions[e.index], t.plans[e.plan].actions[e.index]);
  }

  lemma TurnEventsAreLawful<E>(s: FabricState, plan: u64, t: Turn<E>)
    requires plan in s.plans
    requires var p := s.plans[plan];
             p.cursor < |p.actions| && !Final(p.actions[p.cursor].status) && p.actions[p.cursor].id == t.action.id
    requires (t.advances ==> t.action.status == Committed && !t.undone) && (t.undone ==> t.action.status == RolledBack)
    ensures var p := s.plans[plan];
            var events := TurnEvents(plan, p.cursor, p.actions[p.cursor], t);
            && Lawful(events)
            && forall e :: e in events ==> Allowed(s, e) && Remembered(s.(plans := s.plans[plan := PlanAfter(p, t)]), e)
  {
  }

  lemma ExecuteEvents<E>(tools: Tools<E>, s: FabricState, env: E, plan: u64, authority: Authority, verifier: Verifier)
    ensures var step := ExecuteNext(tools, s, env, plan, authority, verifier);
            && Lawful(step.events)
            && forall e :: e in step.events ==> Allowed(s, e) && Remembered(step.state, e)
  {
    if plan in s.plans {
      var p := s.plans[plan];
      if !Terminal(p.status) && p.cursor < |p.actions| {
        var a := p.actions[p.cursor];
        var d := Admit(tools.registry, a, authority);
        if d.Ok? {
          TurnAdvances(tools, env, a, d.value, verifier);
          TurnEventsAreLawful(s, plan, RunAction(tools, env, a, d.value, verifier));
        }
      }
    }
  }

  lemma RollbackEvents<E>(tools: Tools<E>, s: FabricState, env: E, plan: u64)
    ensures var step := RollbackPlan(tools, s, env, plan);
            && Lawful(step.events)
            && forall e :: e in step.events ==> Allowed(s, e) && Remembered(step.state, e)
  {
    if plan in s.plans {
      var actions := s.plans[plan].actions;
      UnwindInOrder(tools, actions, |actions|, env);
      var undone := Unwind(tools, actions, |actions|, env).undone;
      var step := RollbackPlan(tools, s, env, plan);
      forall e | e in step.events
        ensures Allowed(s, e) && Remembered(step.state, e)
      {
        var j :| 0 <= j < |undone| && e == step.events[j];
        assert undone[j] in undone;
      }
    }
  }

  lemma LawfulAppend(log: seq<Event>, more: seq<Event>, s: FabricState)
    requires Lawful(log) && Lawful(more)
    requires forall e :: e in log ==> Remembered(s, e)
    requires forall e :: e in more ==> Allowed(s, e)
    ensures Lawful(log + more)
  {
    forall i, j | 0 <= i < j < |log + more|
      ensures MayFollow((log + more)[i], (log + more)[j])
    {
      if i < |log| && j >= |log| {
        assert log[i] in log && more[j - |log|] in more;
        AllowedMayFollow(s, log[i], more[j - |log|]);
      } else if i >= |log| {
        assert MayFollow(more[i - |log|], more[j - |log|]);
      }
    }
  }

  /**
   Along every run: no action runs or resumes after it committed, commits of a plan come in
   plan order, a rollback succeeds at most once per action and nothing of the action follows it.
   */
  lemma {:induction false} RunIsLawful<E>(calls: seq<Call<E>>, s: FabricState)
    requires FreshPlans(s)
    ensures Lawful(History(calls, s))
    ensures forall e :: e in History(calls, s) ==> Remembered(Run(calls, s), e)
  {
    if |calls| > 0 {
      var before := calls[..|calls| - 1];
      var c := calls[|calls| - 1];
      var mid := Run(before, s);
      RunIsLawful(before, s);
      RunAdvances(before, s);
      CallAdvances(c, mid);
      match c {
        case Prepare(_, _, _, _) =>
        case Execute(tools, env, plan, authority, verifier) => ExecuteEvents(tools, mid, env, plan, authority, verifier);
        case Rollback(tools, env, plan) => RollbackEvents(tools, mid, env, plan);
      }
      LawfulAppend(History(before, s), Seen(c, mid), mid);
      forall e | e in History(calls, s)
        ensures Remembered(Run(calls, s), e)
      {
        if e in History(before, s) {
          StaysRemembered(mid, After(c, mid), e);
        }
      }
    }
  }

  lemma GentleRollbackKeepsValid<E>(tools: Tools<E>, s: FabricState, env: E, plan: u64)
    requires ValidState(tools.registry, s)
    requires plan in s.plans && Fragile(s.plans[plan]) ==> RollbackPlan(tools, s, env, plan).result.Ok?
    ensures ValidState(tools.registry, RollbackPlan(tools, s, env, plan).state)
  {
    hide Fragile, ValidState;
    if plan in s.plans {
      if Fragile(s.plans[plan]) {
        RollbackKeepsValid(tools, s, env, plan);
      } else {
        SturdyPlanStaysValid(tools, s, env, plan);
      }
    }
  }

  /** The call is not a rollback of a fragile plan that fails. */
  predicate Gentle<E>(c: Call<E>, s: FabricState) {
    c.Rollback? && c.plan in s.plans && Fragile(s.plans[c.plan]) ==> RollbackPlan(c.tools, s, c.env, c.plan).result.Ok?
  }

  /** Every run in which no rollback of a fragile plan fails keeps the whole invariant. */
  lemma {:induction false} RunKeepsValid<E>(calls: seq<Call<E>>, s: FabricState, registry: Registry)
    requires ValidState(registry, s)
    requires forall c :: c in calls ==> (if c.Prepare? then c.registry else c.tools.registry) == registry
    requires forall n :: 0 <= n < |calls| ==> Gentle(calls[n], Run(calls[..n], s))
    ensures ValidState(registry, Run(calls, s))
  {
    if |calls| > 0 {
      var n := |calls| - 1;
      var before := calls[..n];
      forall k | 0 <= k < |before|
        ensures Gentle(before[k], Run(before[..k], s))
      {
        assert before[..k] == calls[..k];
      }
      RunKeepsValid(before, s, registry);
      assert Gentle(calls[n], Run(calls[..n], s));
      var mid := Run(before, s);
      assert calls[n] in calls;
      match calls[n] {
        case Prepare(_, taskId, graph, payloads) => PrepareKeepsValid(registry, mid, taskId, graph, payloads);
        case Execute(tools, env, plan, authority, verifier) => ExecuteKeepsValid(tools, mid, env, plan, authority, verifier);
        case Rollback(tools, env, plan) => GentleRollbackKeepsValid(tools, mid, env, plan);
      }
    }
  }

  /** A run may be cut anywhere: its second part goes on from the state the first part stored. */
  lemma {:induction false} RunInTwoParts<E>(first: seq<Call<E>>, second: seq<Call<E>>, s: FabricState)
    ensures Run(first + second, s) == Run(second, Run(first, s))
    ensures History(first + second, s) == History(first, s) + History(second, Run(first, s))
    decreases |second|
  {
    hide After, Seen;
    if second == [] {
      assert first + second == first;
      assert History(first, s) + [] == History(first, s);
    } else {
      var n := |second| - 1;
      assert (first + second)[..|first + second| - 1] == first + second[..n];
      assert (first + second)[|first + second| - 1] == second[n];
      RunInTwoParts(first, second[..n], s);
      var mid := Run(first, s);
      assert History(first, s) + (History(second[..n], mid) + Seen(second[n], Run(second[..n], mid)))
             == (History(first, s) + History(second[..n], mid)) + Seen(second[n], Run(second[..n], mid));
    }
  }
}
