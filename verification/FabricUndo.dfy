/**
 When a rolled-back plan leaves the world as it was before the plan.
 */
module FabricUndo {
  import opened Wrappers
  import opened Bytes
  import opened Actions
  import opened FabricModel
  import opened FabricInvariant
  import opened FabricRuns

  /** A read-only action leaves the world alone, whichever way it is called. */
  ghost predicate OnlyReads<E(!new)>(adapter: Adapter<E>, a: PlannedAction) {
    && (forall e :: adapter.execute(e, a.id, a.action).0 == e)
    && (forall e, t :: adapter.resume(e, a.id, a.action, t).0 == e)
    && (forall e, t :: adapter.rollback(e, a.id, a.action, t).0 == e)
  }

  /** In world `e`, a completed execution is undone by rolling back with the token it returned. */
  ghost predicate UndoesFrom<E>(adapter: Adapter<E>, a: PlannedAction, e: E) {
    var (e', answer) := adapter.execute(e, a.id, a.action);
    answer.Ok? && answer.value.Completed? && answer.value.rollbackToken.Some?
    ==> adapter.rollback(e', a.id, a.action, answer.value.rollbackToken.value) == (e, Ok(()))
  }

  /** The worlds `good` holds of are the ones the adapters are specified for; executing stays among them. */
  ghost predicate WellBehaved<E(!new)>(tools: Tools<E>, good: E -> bool, a: PlannedAction) {
    a.capability in tools.adapters ==>
      var adapter := tools.adapters[a.capability];
      if a.sideEffect == ReadOnly then OnlyReads(adapter, a)
      else forall e :: good(e) ==> UndoesFrom(adapter, a, e) && good(adapter.execute(e, a.id, a.action).0)
  }

  ghost predicate AllWellBehaved<E(!new)>(tools: Tools<E>, good: E -> bool, actions: seq<PlannedAction>) {
    forall i :: 0 <= i < |actions| ==> WellBehaved(tools, good, actions[i])
  }

  /******* Unwinding looks only at what there is to undo *******/

  lemma {:induction false} UnwindAgrees<E>(tools: Tools<E>, a: seq<PlannedAction>, b: seq<PlannedAction>, n: nat, env: E)
    requires n <= |a| && n <= |b|
    requires forall i :: 0 <= i < n ==> a[i] == b[i] || (NothingToUndo(a[i]) && NothingToUndo(b[i]))
    ensures Unwind(tools, a, n, env) == Unwind(tools, b, n, env)
  {
    if n > 0 {
      var env' := if NothingToUndo(a[n - 1]) then env else UndoAction(tools, env, a[n - 1]).0;
      UnwindAgrees(tools, a, b, n - 1, env');
    }
  }

  lemma {:induction false} UnwindSkips<E>(tools: Tools<E>, a: seq<PlannedAction>, n: nat, m: nat, env: E)
    requires n <= m <= |a|
    requires forall i :: n <= i < m ==> NothingToUndo(a[i])
    ensures Unwind(tools, a, m, env) == Unwind(tools, a, n, env)
  {
    if n < m {
      UnwindSkips(tools, a, n, m - 1, env);
    }
  }

  /******* One turn *******/

  /** An action that never ran is as it was prepared; nothing past the cursor ran. */
  predicate Orderly(p: PlanState) {
    && (forall i :: 0 <= i < |p.actions| && p.actions[i].attempts == 0 ==>
          p.actions[i].status == Prepared && p.actions[i].rollbackToken.None?)
    && (forall i :: p.cursor < i < |p.actions| ==> p.actions[i].status == Prepared)
  }

  /** After its only turn the action either needs no undoing, cannot be undone, or its undoing leads back. */
  predicate LeadsBack<E(==)>(tools: Tools<E>, before: E, a: PlannedAction, after: E) {
    if NothingToUndo(a) then after == before
    else
      var (e, undo) := UndoAction(tools, after, a);
      undo.Ok? ==> e == before
  }

  lemma ReadOnlyTurn<E(!new)>(tools: Tools<E>, good: E -> bool, env: E, a: PlannedAction, d: Descriptor, verifier: Verifier)
    requires a.sideEffect == ReadOnly && WellBehaved(tools, good, a)
    ensures var t := RunAction(tools, env, a, d, verifier);
            t.env == env && t.action.sideEffect == ReadOnly
  {
  }

  lemma OnlyCompletion<E(!new)>(tools: Tools<E>, env: E, a: PlannedAction, d: Descriptor, verifier: Verifier)
    requires a.sideEffect != ReadOnly && a.rollbackToken.None? && a.capability in tools.adapters
    requires tools.registry.Lookup(a.capability) == Ok(d)
    requires UndoesFrom(tools.adapters[a.capability], a, env)
    requires var (_, answer) := tools.adapters[a.capability].execute(env, a.id, a.action);
             answer.Ok? && answer.value.Completed?
    ensures var adapter := tools.adapters[a.capability];
            var (env', answer) := adapter.execute(env, a.id, a.action);
            var t := Apply(tools.texts, adapter, a, MarkRunning(a), d, answer.value, verifier, env');
            LeadsBack(tools, env, t.action, t.env) && (t.env == env' || t.env == env)
  {
  }

  lemma OnlyTurn<E(!new)>(tools: Tools<E>, good: E -> bool, env: E, a: PlannedAction, d: Descriptor, verifier: Verifier)
    requires a.sideEffect != ReadOnly && WellBehaved(tools, good, a) && good(env)
    requires a.status == Prepared && a.rollbackToken.None?
    requires tools.registry.Lookup(a.capability) == Ok(d)
    ensures var t := RunAction(tools, env, a, d, verifier);
            LeadsBack(tools, env, t.action, t.env) && good(t.env)
  {
    if a.capability in tools.adapters {
      var (_, answer) := tools.adapters[a.capability].execute(env, a.id, a.action);
      assert UndoesFrom(tools.adapters[a.capability], a, env);
      if answer.Ok? && answer.value.Completed? {
        OnlyCompletion(tools, env, a, d, verifier);
      }
    }
  }

  /******* Runs of one plan *******/

  datatype Attempt = Attempt(authority: Authority, verifier: Verifier)

  /** Successive execute calls on one plan, nobody else touching the world. */
  function RunPlan<E>(tools: Tools<E>, plan: u64, attempts: seq<Attempt>, s: FabricState, env: E): (FabricState, E) {
    if |attempts| == 0 then (s, env)
    else
      var n := |attempts| - 1;
      var (s1, e1) := RunPlan(tools, plan, attempts[..n], s, env);
      var step := ExecuteNext(tools, s1, e1, plan, attempts[n].authority, attempts[n].verifier);
      (step.state, step.env)
  }

  /** Every action with side effects was called at most once. */
  predicate CalledOnce(p: PlanState) {
    forall i :: 0 <= i < |p.actions| && p.actions[i].sideEffect != ReadOnly ==> p.actions[i].attempts <= 1
  }

  predicate CalledOnceIn(s: FabricState, plan: u64) {
    plan in s.plans && CalledOnce(s.plans[plan])
  }

  /** If all there is to undo can be undone, undoing it leads back to `start`. */
  predicate Returns<E(==)>(tools: Tools<E>, p: PlanState, env: E, start: E) {
    var u := Unwind(tools, p.actions, |p.actions|, env);
    u.result.Ok? ==> u.env == start
  }

  lemma TurnReturns<E(!new)>(tools: Tools<E>, good: E -> bool, p: PlanState, env: E, start: E, t: Turn<E>)
    requires p.cursor < |p.actions| && Orderly(p) && Returns(tools, p, env, start)
    requires NothingToUndo(p.actions[p.cursor])
    requires LeadsBack(tools, env, t.action, t.env)
    ensures Returns(tools, PlanAfter(p, t), t.env, start)
  {
    var c := p.cursor;
    var q := PlanAfter(p, t);
    UnwindSkips(tools, p.actions, c, |p.actions|, env);
    UnwindSkips(tools, q.actions, c + 1, |p.actions|, t.env);
    UnwindAgrees(tools, p.actions, q.actions, c, env);
  }

  lemma TurnStaysOrderly<E>(tools: Tools<E>, env: E, p: PlanState, d: Descriptor, verifier: Verifier)
    requires p.cursor < |p.actions| && Orderly(p)
    ensures Orderly(PlanAfter(p, RunAction(tools, env, p.actions[p.cursor], d, verifier)))
    ensures RunAction(tools, env, p.actions[p.cursor], d, verifier).action.attempts == SaturatingIncrement(p.actions[p.cursor].attempts)
  {
    var a := p.actions[p.cursor];
    RunCounts(tools, env, a, d, verifier);
  }

  lemma RunCounts<E>(tools: Tools<E>, env: E, a: PlannedAction, d: Descriptor, verifier: Verifier)
    ensures RunAction(tools, env, a, d, verifier).action.attempts == SaturatingIncrement(a.attempts)
  {
  }

  /** What holds of the plan and the world between two calls. */
  ghost predicate Unwindable<E(!new)>(tools: Tools<E>, good: E -> bool, p: PlanState, env: E, start: E) {
    Orderly(p) && good(env) && Returns(tools, p, env, start) && AllWellBehaved(tools, good, p.actions)
  }

  lemma ExecuteUnwindable<E(!new)>(tools: Tools<E>, good: E -> bool, s: FabricState, plan: u64, env: E, start: E, attempt: Attempt)
    requires plan in s.plans && Unwindable(tools, good, s.plans[plan], env, start)
    requires var step := ExecuteNext(tools, s, env, plan, attempt.authority, attempt.verifier);
             CalledOnce(step.state.plans[plan])
    ensures var step := ExecuteNext(tools, s, env, plan, attempt.authority, attempt.verifier);
            plan in step.state.plans && Unwindable(tools, good, step.state.plans[plan], step.env, start)
  {
    var p := s.plans[plan];
    if !Terminal(p.status) && p.cursor < |p.actions| {
      var a := p.actions[p.cursor];
      var d := Admit(tools.registry, a, attempt.authority);
      if d.Ok? {
        TurnUnwindable(tools, good, p, env, start, d.value, attempt.verifier);
      }
    }
  }

  lemma TurnUnwindable<E(!new)>(tools: Tools<E>, good: E -> bool, p: PlanState, env: E, start: E, d: Descriptor, verifier: Verifier)
    requires Unwindable(tools, good, p, env, start) && p.cursor < |p.actions|
    requires !Final(p.actions[p.cursor].status) && tools.registry.Lookup(p.actions[p.cursor].capability) == Ok(d)
    requires CalledOnce(PlanAfter(p, RunAction(tools, env, p.actions[p.cursor], d, verifier)))
    ensures var t := RunAction(tools, env, p.actions[p.cursor], d, verifier);
            Unwindable(tools, good, PlanAfter(p, t), t.env, start)
  {
    var a := p.actions[p.cursor];
    var t := RunAction(tools, env, a, d, verifier);
    TurnStaysOrderly(tools, env, p, d, verifier);
    TurnAdvances(tools, env, a, d, verifier);
    assert WellBehaved(tools, good, a);
    if a.sideEffect == ReadOnly {
      ReadOnlyTurn(tools, good, env, a, d, verifier);
    } else {
      assert PlanAfter(p, t).actions[p.cursor] == t.action;
      OnlyTurn(tools, good, env, a, d, verifier);
    }
    TurnReturns(tools, good, p, env, start, t);
    forall i | 0 <= i < |p.actions|
      ensures WellBehaved(tools, good, PlanAfter(p, t).actions[i])
    {
      assert WellBehaved(tools, good, p.actions[i]);
    }
  }

  lemma {:induction false} RunPlanUnwindable<E(!new)>(tools: Tools<E>, good: E -> bool, plan: u64, attempts: seq<Attempt>, s: FabricState, start: E)
    requires FreshPlans(s) && plan in s.plans && Unwindable(tools, good, s.plans[plan], start, start)
    requires CalledOnceIn(RunPlan(tools, plan, attempts, s, start).0, plan)
    ensures var (t, e) := RunPlan(tools, plan, attempts, s, start);
            FreshPlans(t) && plan in t.plans && Unwindable(tools, good, t.plans[plan], e, start)
  {
    if |attempts| > 0 {
      var n := |attempts| - 1;
      RunPlanKeepsPlan(tools, plan, attempts, s, start);
      RunPlanKeepsPlan(tools, plan, attempts[..n], s, start);
      var (s1, e1) := RunPlan(tools, plan, attempts[..n], s, start);
      ExecuteAdvances(tools, e1, s1, plan, attempts[n].authority, attempts[n].verifier);
      var t := RunPlan(tools, plan, attempts, s, start).0;
      forall i | 0 <= i < |s1.plans[plan].actions| && s1.plans[plan].actions[i].sideEffect != ReadOnly
        ensures s1.plans[plan].actions[i].attempts <= 1
      {
        assert ActionAdvances(s1.plans[plan].actions[i], t.plans[plan].actions[i]);
      }
      RunPlanUnwindable(tools, good, plan, attempts[..n], s, start);
      ExecuteUnwindable(tools, good, s1, plan, e1, start, attempts[n]);
    }
  }

  lemma {:induction false} RunPlanKeepsPlan<E>(tools: Tools<E>, plan: u64, attempts: seq<Attempt>, s: FabricState, env: E)
    requires FreshPlans(s) && plan in s.plans
    ensures var t := RunPlan(tools, plan, attempts, s, env).0;
            FreshPlans(t) && plan in t.plans
  {
    if |attempts| > 0 {
      var n := |attempts| - 1;
      RunPlanKeepsPlan(tools, plan, attempts[..n], s, env);
      var (s1, e1) := RunPlan(tools, plan, attempts[..n], s, env);
      ExecuteAdvances(tools, e1, s1, plan, attempts[n].authority, attempts[n].verifier);
    }
  }

  /** A plan as prepare_plan stores it. */
  predicate Untouched(p: PlanState) {
    p.cursor == 0 && forall i :: 0 <= i < |p.actions| ==>
      p.actions[i].status == Prepared && p.actions[i].rollbackToken.None?
  }

  lemma PreparedIsUntouched(registry: Registry, s: FabricState, taskId: u64, graph: TaskGraph, payloads: map<u32, TypedAction>)
    requires PreparePlan(registry, s, taskId, graph, payloads).0.Ok?
    ensures var (r, t) := PreparePlan(registry, s, taskId, graph, payloads);
            Untouched(t.plans[r.value])
  {
  }

  lemma UntouchedIsUnwindable<E(!new)>(tools: Tools<E>, good: E -> bool, p: PlanState, env: E)
    requires Untouched(p) && good(env) && AllWellBehaved(tools, good, p.actions)
    ensures Unwindable(tools, good, p, env, env)
  {
    UnwindSkips(tools, p.actions, 0, |p.actions|, env);
  }

  /**
   If every action with side effects was called at most once, and its adapter undoes what it
   completes, a successful rollback of the plan restores the world from before the plan.
   */
  lemma RollbackRestoresWorld<E(!new)>(tools: Tools<E>, good: E -> bool, plan: u64, attempts: seq<Attempt>, s: FabricState, start: E)
    requires FreshPlans(s) && plan in s.plans && Untouched(s.plans[plan])
    requires good(start) && AllWellBehaved(tools, good, s.plans[plan].actions)
    requires CalledOnceIn(RunPlan(tools, plan, attempts, s, start).0, plan)
    ensures var (t, e) := RunPlan(tools, plan, attempts, s, start);
            var undo := RollbackPlan(tools, t, e, plan);
            undo.result.Ok? ==> undo.env == start
  {
    UntouchedIsUnwindable(tools, good, s.plans[plan], start);
    RunPlanUnwindable(tools, good, plan, attempts, s, start);
  }
}
