/**
 The action fabric as the object it is: its methods update the stored plans in place,
 call the adapters and keep a record of what the adapters saw. Every method is specified by
 the function of the same name in FabricModel.
 */
module Fabric {
  import opened Wrappers
  import opened Bytes
  import opened Actions
  import opened Ordering
  import opened FabricModel

  class ActionFabric<!E> {
    const tools: Tools<E>
    var state: FabricState
    // The world behind the adapters.
    var env: E
    ghost var log: seq<Event>

    constructor (tools: Tools<E>, state: FabricState, env: E)
      ensures this.tools == tools && this.state == state && this.env == env && log == []
    {
      this.tools := tools;
      this.state := state;
      this.env := env;
      log := [];
    }

    /** Takes the payload of every node out of a copy of the payload map and checks it. */
    method CheckPayloads(graph: TaskGraph, payloads: map<u32, TypedAction>) returns (r: Result<seq<Checked>, FabricError>)
      ensures match CheckNodes(tools.registry, graph.actions, payloads, {})
              case Err(e) => r == Err(e)
              case Ok(checked) =>
                var extra := payloads.Keys - NodeIds(graph.actions);
                r == if extra == {} then Ok(checked) else Err(UnexpectedActionPayload(Least(extra)))
    {
      ghost var all := CheckNodes(tools.registry, graph.actions, payloads, {});
      var seen: set<u32> := {};
      var remaining := payloads;
      var validated: seq<Checked> := [];
      var i := 0;
      assert graph.actions[0..] == graph.actions && NodeIds(graph.actions[..0]) == {} && payloads - {} == payloads;
      PrefixedNone(all);
      while i < |graph.actions|
        invariant i <= |graph.actions| && |validated| == i
        invariant seen == NodeIds(graph.actions[..i]) && remaining == payloads - seen
        invariant all == Prefixed(validated, CheckNodes(tools.registry, graph.actions[i..], payloads, seen))
      {
        var node := graph.actions[i];
        assert graph.actions[i..][0] == node && graph.actions[i..][1..] == graph.actions[i + 1..];
        if node.id in seen {
          return Err(InvalidState);
        }
        if node.id !in remaining {
          return Err(MissingActionPayload(node.id));
        }
        var action := remaining[node.id];
        assert action == payloads[node.id];
        var descriptor := tools.registry.ValidateAction(node.capability, action);
        if descriptor.Err? {
          return Err(Capability(descriptor.error));
        }
        var d := descriptor.value;
        if node.sideEffect != d.sideEffect {
          return Err(SideEffectMismatch(node.id, node.sideEffect, d.sideEffect));
        }
        if d.verificationRequired && !node.verificationRequired {
          return Err(VerificationContractMismatch(node.id));
        }
        var checked := Checked(node, action, d.version, node.verificationRequired || d.verificationRequired);
        PrefixedStep(validated, checked, CheckNodes(tools.registry, graph.actions[i + 1..], payloads, seen + {node.id}));
        assert graph.actions[..i + 1] == graph.actions[..i] + [node];
        assert NodeIds(graph.actions[..i + 1]) == seen + {node.id};
        assert payloads - (seen + {node.id}) == remaining - {node.id};
        seen, remaining, validated := seen + {node.id}, remaining - {node.id}, validated + [checked];
        i := i + 1;
      }
      assert graph.actions[..i] == graph.actions && graph.actions[i..] == [];
      assert remaining.Keys == payloads.Keys - NodeIds(graph.actions);
      if remaining.Keys != {} {
        return Err(UnexpectedActionPayload(Least(remaining.Keys)));
      }
      assert validated + [] == validated;
      r := Ok(validated);
    }

    method PreparePlan(taskId: u64, graph: TaskGraph, payloads: map<u32, TypedAction>) returns (r: Result<u64, FabricError>)
      modifies this`state
      ensures (r, state) == FabricModel.PreparePlan(tools.registry, old(state), taskId, graph, payloads)
    {
      if taskId == 0 || |graph.actions| == 0 {
        return Err(InvalidState);
      }
      var validated := CheckPayloads(graph, payloads);
      if validated.Err? {
        return Err(validated.error);
      }
      var planId := state.nextPlanId;
      if planId == U64_MAX {
        return Err(Overflow);
      }
      var first := state.nextActionId;
      var count := |validated.value|;
      if first + count > U64_MAX {
        return Err(Overflow);
      }
      var actions: Vec<PlannedAction> := [];
      for i := 0 to count
        invariant actions == NewActions(validated.value, first)[..i]
      {
        actions := actions + [NewAction(validated.value[i], first + i)];
      }
      assert actions == NewActions(validated.value, first);
      state := FabricState(planId + 1, first + count,
                           state.plans[planId := PlanState(planId, taskId, 0, PlanReady, actions)]);
      r := Ok(planId);
    }

    /** `action_mut`: overwrites one stored action. */
    method StoreAction(plan: u64, index: nat, a: PlannedAction)
      requires plan in state.plans && index < |state.plans[plan].actions|
      modifies this`state
      ensures var p := old(state).plans[plan];
              state == old(state).(plans := old(state).plans[plan := p.(actions := p.actions[index := a])])
    {
      var p := state.plans[plan];
      state := state.(plans := state.plans[plan := p.(actions := p.actions[index := a])]);
    }

    method SetPlanStatus(plan: u64, status: PlanStatus)
      requires plan in state.plans
      modifies this`state
      ensures state == old(state).(plans := old(state).plans[plan := old(state).plans[plan].(status := status)])
    {
      state := state.(plans := state.plans[plan := state.plans[plan].(status := status)]);
    }

    method AdvanceCursor(plan: u64)
      requires plan in state.plans
      modifies this`state
      ensures var p := old(state).plans[plan];
              var next := NextCursor(p);
              var status := if next >= |p.actions| then PlanCompleted else PlanReady;
              state == old(state).(plans := old(state).plans[plan := p.(cursor := next, status := status)])
    {
      var p := state.plans[plan];
      var next := if p.cursor == U64_MAX then p.cursor else p.cursor + 1;
      var status := if next >= |p.actions| then PlanCompleted else PlanReady;
      state := state.(plans := state.plans[plan := p.(cursor := next, status := status)]);
    }

    /** Stores the action at the cursor and the plan status, and reports both. */
    method Settle(plan: u64, a: PlannedAction, status: PlanStatus, summary: Str) returns (report: Report)
      requires plan in state.plans && state.plans[plan].cursor < |state.plans[plan].actions|
      modifies this`state
      ensures var p := old(state).plans[plan];
              && state == old(state).(plans := old(state).plans[plan := p.(actions := p.actions[p.cursor := a], status := status)])
              && report == Report(plan, Some(a.id), Some(a.status), status, p.cursor, summary)
    {
      StoreAction(plan, state.plans[plan].cursor, a);
      SetPlanStatus(plan, status);
      report := Report(plan, Some(a.id), Some(a.status), status, state.plans[plan].cursor, summary);
    }

    method ApplyAdapterResult(plan: u64, snapshot: PlannedAction, d: Descriptor, answer: AdapterResult, verifier: Verifier)
      returns (r: Result<Report, FabricError>)
      requires plan in state.plans && state.plans[plan].cursor < |state.plans[plan].actions|
      requires state.plans[plan].actions[state.plans[plan].cursor] == MarkRunning(snapshot)
      requires state.plans[plan].status == PlanReady
      requires snapshot.capability in tools.adapters
      modifies this
      ensures var t := Apply(tools.texts, tools.adapters[snapshot.capability], snapshot, MarkRunning(snapshot), d, answer,
                             verifier, old(env));
              && t.ran
              && Turned(old(state), plan, t, state, env, r)
              && log == old(log)
                        + (if t.advances then [CommittedAt(plan, old(state).plans[plan].cursor, snapshot.id)] else [])
                        + (if t.undone then [Undone(plan, old(state).plans[plan].cursor, snapshot.id)] else [])
    {
      var cursor := state.plans[plan].cursor;
      var action := state.plans[plan].actions[cursor];
      match answer {
        case Suspending(token, note) =>
          if !d.resumable {
            var _ := Settle(plan, action.(status := Failed, lastError := Some(tools.texts.unsupportedSuspension)), PlanFailed, []);
            return Err(NonResumableSuspension(snapshot.capability));
          }
          var report := Settle(plan, action.(status := Suspended, resumeToken := Some(token), lastError := Some(note)), PlanSuspended, note);
          return Ok(report);
        case Retrying(reason, token) =>
          if token.Some? && !d.resumable {
            var _ := Settle(plan, action.(status := Failed, lastError := Some(tools.texts.unsupportedResumeState)), PlanFailed, []);
            return Err(NonResumableSuspension(snapshot.capability));
          }
          var report := Settle(plan, action.(status := Retryable, resumeToken := token, lastError := Some(reason)), PlanReady, reason);
          return Ok(report);
        case Completed(output, token) =>
          r := ApplyCompletion(plan, snapshot, d, output, token, verifier);
      }
    }

    method ApplyCompletion(plan: u64, snapshot: PlannedAction, d: Descriptor, output: ActionOutput, token: Option<Bytes>, verifier: Verifier)
      returns (r: Result<Report, FabricError>)
      requires plan in state.plans && state.plans[plan].cursor < |state.plans[plan].actions|
      requires state.plans[plan].actions[state.plans[plan].cursor] == MarkRunning(snapshot)
      requires state.plans[plan].status == PlanReady
      requires snapshot.capability in tools.adapters
      modifies this
      ensures var t := Apply(tools.texts, tools.adapters[snapshot.capability], snapshot, MarkRunning(snapshot), d,
                             Completed(output, token), verifier, old(env));
              && t.ran
              && Turned(old(state), plan, t, state, env, r)
              && log == old(log)
                        + (if t.advances then [CommittedAt(plan, old(state).plans[plan].cursor, snapshot.id)] else [])
                        + (if t.undone then [Undone(plan, old(state).plans[plan].cursor, snapshot.id)] else [])
    {
      var cursor := state.plans[plan].cursor;
      var action := state.plans[plan].actions[cursor];
      var verdict := Accept;
      if snapshot.verificationRequired {
        verdict := verifier(d, snapshot.action, output);
      }
      match verdict {
        case Accept =>
          StoreAction(plan, cursor, action.(status := Committed, output := Some(output), resumeToken := None,
                                            rollbackToken := KeptToken(d, token), lastError := None));
          AdvanceCursor(plan);
          log := log + [CommittedAt(plan, cursor, snapshot.id)];
          var p := state.plans[plan];
          return Ok(Report(plan, Some(action.id), Some(Committed), p.status, p.cursor, output.summary));
        case Retry(reason) =>
          var report := Settle(plan, action.(status := Retryable, output := Some(output), resumeToken := None,
                                             rollbackToken := KeptToken(d, token), lastError := Some(reason)), PlanReady, reason);
          return Ok(report);
        case Reject(reason) =>
          var rejected := action.(output := Some(output), lastError := Some(reason));
          if !d.rollbackSupported || token.None? {
            var report := Settle(plan, rejected.(status := Failed), PlanFailed, reason);
            return Ok(report);
          }
          var (env', undo) := tools.adapters[snapshot.capability].rollback(env, snapshot.id, snapshot.action, token.value);
          env := env';
          if undo.Err? {
            assert state.plans[plan].actions[cursor := action] == state.plans[plan].actions;
            assert state.plans[plan := state.plans[plan]] == state.plans;
            return Err(RollbackFailure(snapshot.capability, undo.error));
          }
          log := log + [Undone(plan, cursor, snapshot.id)];
          var report := Settle(plan, rejected.(status := RolledBack, rollbackToken := token), PlanFailed, reason);
          return Ok(report);
      }
    }

    method ExecuteNext(plan: u64, authority: Authority, verifier: Verifier) returns (r: Result<Report, FabricError>)
      modifies this
      ensures var step := FabricModel.ExecuteNext(tools, old(state), old(env), plan, authority, verifier);
              r == step.result && state == step.state && env == step.env && log == old(log) + step.events
    {
      if plan !in state.plans {
        return Err(MissingPlan(plan));
      }
      var p := state.plans[plan];
      if Terminal(p.status) {
        return Err(TerminalPlan(p.status));
      }
      if p.cursor >= |p.actions| {
        SetPlanStatus(plan, PlanCompleted);
        return Ok(Report(plan, None, None, PlanCompleted, p.cursor, tools.texts.exhausted));
      }
      var snapshot := p.actions[p.cursor];
      var admitted := Admit(tools.registry, snapshot, authority);
      if admitted.Err? {
        return Err(admitted.error);
      }
      r := RunAdmitted(plan, snapshot, admitted.value, verifier);
    }

    method RunAdmitted(plan: u64, snapshot: PlannedAction, d: Descriptor, verifier: Verifier) returns (r: Result<Report, FabricError>)
      requires plan in state.plans && state.plans[plan].cursor < |state.plans[plan].actions|
      requires state.plans[plan].actions[state.plans[plan].cursor] == snapshot
      modifies this
      ensures var t := RunAction(tools, old(env), snapshot, d, verifier);
              Turned(old(state), plan, t, state, env, r) && log == old(log) + TurnEvents(plan, old(state).plans[plan].cursor, snapshot, t)
    {
      var running := snapshot.(status := Running, attempts := SaturatingIncrement(snapshot.attempts));
      var _ := Settle(plan, running, PlanReady, []);
      if snapshot.capability !in tools.adapters {
        return Err(MissingAdapter(snapshot.capability));
      }
      ghost var marked := state;
      var (env', answer) := CallAdapter(tools.adapters[snapshot.capability], env, snapshot);
      env := env';
      log := log + [Ran(plan, state.plans[plan].cursor, snapshot.id, ResumesFromToken(snapshot))];
      r := ConcludeCall(plan, snapshot, d, answer, verifier);
      TurnedOverRunning(old(state), marked, plan, running, RunAction(tools, old(env), snapshot, d, verifier), state, env, r);
    }

    method ConcludeCall(plan: u64, snapshot: PlannedAction, d: Descriptor, answer: Result<AdapterResult, Str>, verifier: Verifier)
      returns (r: Result<Report, FabricError>)
      requires plan in state.plans && state.plans[plan].cursor < |state.plans[plan].actions|
      requires state.plans[plan].actions[state.plans[plan].cursor] == MarkRunning(snapshot)
      requires state.plans[plan].status == PlanReady
      requires snapshot.capability in tools.adapters
      modifies this
      ensures var t := Conclude(tools.texts, tools.adapters[snapshot.capability], snapshot, d, answer, verifier, old(env));
              && t.ran
              && Turned(old(state), plan, t, state, env, r)
              && log == old(log)
                        + (if t.advances then [CommittedAt(plan, old(state).plans[plan].cursor, snapshot.id)] else [])
                        + (if t.undone then [Undone(plan, old(state).plans[plan].cursor, snapshot.id)] else [])
    {
      if answer.Err? {
        var running := state.plans[plan].actions[state.plans[plan].cursor];
        var report := Settle(plan, running.(status := Retryable, lastError := Some(answer.error), resumeToken := None),
                             PlanReady, answer.error);
        return Ok(report);
      }
      r := ApplyAdapterResult(plan, snapshot, d, answer.value, verifier);
    }

    /** Undoes one stored action and marks it. */
    method UndoStored(plan: u64, index: nat, a: PlannedAction) returns (undo: Result<(), FabricError>)
      requires plan in state.plans && index < |state.plans[plan].actions| && state.plans[plan].actions[index] == a
      modifies this
      ensures Undoes(tools, old(env), a, env, undo)
      ensures undo.Err? ==> state == old(state) && log == old(log)
      ensures undo.Ok? ==>
                var p := old(state).plans[plan];
                && state == old(state).(plans := old(state).plans[plan := p.(actions := p.actions[index := a.(status := RolledBack)])])
                && log == old(log) + [Undone(plan, index, a.id)]
    {
      var d := tools.registry.Lookup(a.capability);
      if d.Err? {
        return Err(Capability(d.error));
      }
      if !d.value.rollbackSupported || a.rollbackToken.None? {
        return Err(RollbackUnavailable(a.id));
      }
      if a.capability !in tools.adapters {
        return Err(MissingAdapter(a.capability));
      }
      var (env', answer) := tools.adapters[a.capability].rollback(env, a.id, a.action, a.rollbackToken.value);
      env := env';
      if answer.Err? {
        return Err(RollbackFailure(a.capability, answer.error));
      }
      log := log + [Undone(plan, index, a.id)];
      StoreAction(plan, index, a.(status := RolledBack));
      undo := Ok(());
    }

    /** Undoes the plan's actions, last one first, up to the first failure. */
    method UndoAll(plan: u64) returns (r: Result<(), FabricError>, ghost undone: seq<nat>)
      requires plan in state.plans
      modifies this
      ensures var actions := old(state).plans[plan].actions;
              && Unwinds(tools, actions, |actions|, old(env), Unwinding(r, env, undone))
              && (forall k :: k in undone ==> k < |actions|)
              && state == WithActions(old(state), plan, MarkUndone(actions, undone))
              && log == old(log) + UndoneEvents(plan, actions, undone)
    {
      var snapshots := state.plans[plan].actions;
      ghost var whole := Unfold(tools, snapshots, env);
      ghost var rest := whole;
      undone := [];
      ghost var marked := snapshots;
      NothingMarked(state, plan);
      AfterUndoingNothing(whole);
      var n: nat := |snapshots|;
      while n > 0
        invariant n <= |snapshots|
        invariant Unwinds(tools, snapshots, n, env, rest) && whole == AfterUndoing(undone, rest)
        invariant marked == MarkUndone(snapshots, undone)
        invariant state == WithActions(old(state), plan, marked)
        invariant forall k :: k in undone ==> n <= k < |snapshots|
        invariant log == old(log) + UndoneEvents(plan, snapshots, undone)
      {
        n := n - 1;
        if NothingToUndo(snapshots[n]) {
          UnwindsPast(tools, snapshots, n, env, rest);
          continue;
        }
        assert n !in undone;
        ghost var world := env;
        var undo := UndoStored(plan, n, snapshots[n]);
        rest := UnwindsOne(tools, snapshots, n, world, undone, rest, env, undo);
        if undo.Err? {
          return undo, undone;
        }
        OneMoreUndone(plan, snapshots, undone, n);
        undone, marked := undone + [n], marked[n := snapshots[n].(status := RolledBack)];
      }
      UnwindsToTheEnd(tools, snapshots, env, undone, rest);
      r := Ok(());
    }

    method RollbackPlan(plan: u64) returns (r: Result<Report, FabricError>)
      modifies this
      ensures var step := FabricModel.RollbackPlan(tools, old(state), old(env), plan);
              r == step.result && state == step.state && env == step.env && log == old(log) + step.events
    {
      if plan !in state.plans {
        return Err(MissingPlan(plan));
      }
      UnwindInOrder(tools, state.plans[plan].actions, |state.plans[plan].actions|, env);
      var undo, _ := UndoAll(plan);
      if undo.Err? {
        return Err(undo.error);
      }
      SetPlanStatus(plan, PlanRolledBack);
      var p := state.plans[plan];
      r := Ok(Report(plan, None, None, p.status, p.cursor, tools.texts.allRolledBack));
    }
  }

  /******* Bookkeeping of the loops *******/

  function Prefixed(done: seq<Checked>, rest: Result<seq<Checked>, FabricError>): Result<seq<Checked>, FabricError> {
    match rest
    case Ok(more) => Ok(done + more)
    case Err(e) => Err(e)
  }

  lemma PrefixedStep(done: seq<Checked>, next: Checked, rest: Result<seq<Checked>, FabricError>)
    ensures Prefixed(done, if rest.Ok? then Ok([next] + rest.value) else rest) == Prefixed(done + [next], rest)
  {
    if rest.Ok? {
      assert done + ([next] + rest.value) == (done + [next]) + rest.value;
    }
  }

  /** State, world and answer after the turn `t` of the action at the cursor. */
  ghost predicate Turned<E>(before: FabricState, plan: u64, t: Turn<E>, after: FabricState, env: E, r: Result<Report, FabricError>) {
    && plan in before.plans && before.plans[plan].cursor < |before.plans[plan].actions|
    && var q := PlanAfter(before.plans[plan], t);
    && after == before.(plans := before.plans[plan := q])
    && env == t.env
    && r == TurnResult(plan, q, t)
  }

  lemma PrefixedNone(r: Result<seq<Checked>, FabricError>)
    ensures Prefixed([], r) == r
  {
    if r.Ok? {
      assert [] + r.value == r.value;
    }
  }

  /** Marking the action running first makes no difference to what its turn leaves. */
  lemma TurnedOverRunning<E>(s: FabricState, marked: FabricState, plan: u64, running: PlannedAction, t: Turn<E>,
                             after: FabricState, env: E, r: Result<Report, FabricError>)
    requires plan in s.plans && s.plans[plan].cursor < |s.plans[plan].actions|
    requires var p := s.plans[plan];
             marked == s.(plans := s.plans[plan := p.(actions := p.actions[p.cursor := running], status := PlanReady)])
    requires Turned(marked, plan, t, after, env, r)
    ensures Turned(s, plan, t, after, env, r)
  {
    var p := s.plans[plan];
    assert p.actions[p.cursor := running][p.cursor := t.action] == p.actions[p.cursor := t.action];
    assert PlanAfter(marked.plans[plan], t) == PlanAfter(p, t);
    var q := PlanAfter(p, t);
    assert marked.plans[plan := q] == s.plans[plan := q];
  }

  function AfterUndoing<E>(undone: seq<nat>, u: Unwinding<E>): Unwinding<E> {
    Unwinding(u.result, u.env, undone + u.undone)
  }

  function WithActions(s: FabricState, plan: u64, actions: Vec<PlannedAction>): FabricState
    requires plan in s.plans
  {
    s.(plans := s.plans[plan := s.plans[plan].(actions := actions)])
  }

  lemma NothingMarked(s: FabricState, plan: u64)
    requires plan in s.plans
    ensures MarkUndone(s.plans[plan].actions, []) == s.plans[plan].actions
    ensures WithActions(s, plan, s.plans[plan].actions) == s
  {
    assert MarkUndone(s.plans[plan].actions, []) == s.plans[plan].actions;
    assert s.plans[plan := s.plans[plan]] == s.plans;
  }

  lemma OneMoreUndone(plan: u64, actions: seq<PlannedAction>, undone: seq<nat>, n: nat)
    requires n < |actions|
    requires forall k :: k in undone ==> n < k < |actions|
    ensures MarkUndone(actions, undone)[n := actions[n].(status := RolledBack)] == MarkUndone(actions, undone + [n])
    ensures forall k :: k in undone + [n] ==> n <= k < |actions|
    ensures UndoneEvents(plan, actions, undone) + [Undone(plan, n, actions[n].id)] == UndoneEvents(plan, actions, undone + [n])
  {
    var longer := undone + [n];
    assert forall k :: k in longer <==> k in undone || k == n;
  }

  // The two predicates below state an equation without exposing its left-hand side.

  ghost predicate Undoes<E>(tools: Tools<E>, env: E, a: PlannedAction, env': E, undo: Result<(), FabricError>) {
    forall b :: b == a ==> UndoAction(tools, env, b) == (env', undo)
  }

  ghost predicate Unwinds<E>(tools: Tools<E>, actions: seq<PlannedAction>, n: nat, env: E, u: Unwinding<E>)
    requires n <= |actions|
  {
    forall k: nat :: k == n ==> Unwind(tools, actions, k, env) == u
  }

  lemma Unfold<E>(tools: Tools<E>, actions: seq<PlannedAction>, env: E) returns (u: Unwinding<E>)
    ensures Unwinds(tools, actions, |actions|, env, u)
  {
    u := Unwind(tools, actions, |actions|, env);
  }

  lemma AfterUndoingNothing<E>(u: Unwinding<E>)
    ensures AfterUndoing([], u) == u
  {
    assert [] + u.undone == u.undone;
  }

  lemma UnwindsPast<E>(tools: Tools<E>, actions: seq<PlannedAction>, n: nat, env: E, u: Unwinding<E>)
    requires n < |actions| && NothingToUndo(actions[n]) && Unwinds(tools, actions, n + 1, env, u)
    ensures Unwinds(tools, actions, n, env, u)
  {
    assert Unwind(tools, actions, n + 1, env) == u;
  }

  /** What one iteration makes of the unwinding still to come. */
  lemma UnwindsOne<E>(tools: Tools<E>, actions: seq<PlannedAction>, n: nat, env: E, undone: seq<nat>, u: Unwinding<E>,
                      env': E, undo: Result<(), FabricError>) returns (rest: Unwinding<E>)
    requires n < |actions| && !NothingToUndo(actions[n])
    requires Unwinds(tools, actions, n + 1, env, u) && Undoes(tools, env, actions[n], env', undo)
    ensures undo.Err? ==> AfterUndoing(undone, u) == Unwinding(undo, env', undone)
    ensures undo.Ok? ==> Unwinds(tools, actions, n, env', rest) && AfterUndoing(undone, u) == AfterUndoing(undone + [n], rest)
  {
    assert UndoAction(tools, env, actions[n]) == (env', undo);
    assert Unwind(tools, actions, n + 1, env) == u;
    rest := Unwind(tools, actions, n, env');
    if undo.Err? {
      assert undone + [] == undone;
    } else {
      assert undone + ([n] + rest.undone) == (undone + [n]) + rest.undone;
    }
  }

  lemma UnwindsToTheEnd<E>(tools: Tools<E>, actions: seq<PlannedAction>, env: E, undone: seq<nat>, rest: Unwinding<E>)
    requires Unwinds(tools, actions, 0, env, rest)
    ensures AfterUndoing(undone, rest) == Unwinding(Ok(()), env, undone)
  {
    assert Unwind(tools, actions, 0, env) == rest;
    assert undone + [] == undone;
  }
}
