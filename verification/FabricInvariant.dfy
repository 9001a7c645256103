/**
 The invariant that `validate_fabric_state` checks, and which operations keep it.
 */
module FabricInvariant {
  import opened Wrappers
  import opened Bytes
  import opened Actions
  import opened FabricModel

  /** What the registry and the token rules demand of one stored action. */
  predicate SoundAction(registry: Registry, a: PlannedAction) {
    && a.id != 0
    && var d := registry.ValidateAction(a.capability, a.action);
    && d.Ok?
    && d.value.version == a.capabilityVersion
    && d.value.sideEffect == a.sideEffect
    && (d.value.verificationRequired ==> a.verificationRequired)
    && (a.resumeToken.Some? ==> d.value.resumable)
    && (a.rollbackToken.Some? ==> d.value.rollbackSupported)
  }

  /** A committed prefix, the cursor, a prepared suffix. */
  predicate SoundPlace(p: PlanState, i: nat)
    requires i < |p.actions|
  {
    && (i < p.cursor && p.status != PlanRolledBack ==> p.actions[i].status == Committed)
    && (i > p.cursor ==> p.actions[i].status == Prepared)
  }

  predicate SoundCurrent(status: PlanStatus, current: PlannedAction) {
    match status
    case PlanSuspended => current.status == Suspended && current.resumeToken.Some?
    case PlanReady => current.status in {Prepared, Retryable, Running}
    case PlanFailed => current.status in {Failed, RolledBack}
    case PlanCompleted => false
    case PlanRolledBack => true
  }

  predicate AllCommitted(p: PlanState) {
    forall i :: 0 <= i < |p.actions| ==> p.actions[i].status == Committed
  }

  predicate ValidPlan(registry: Registry, key: u64, p: PlanState) {
    && key == p.id && p.id != 0 && p.taskId != 0
    && p.cursor <= |p.actions|
    && (forall i :: 0 <= i < |p.actions| ==> SoundAction(registry, p.actions[i]) && SoundPlace(p, i))
    && (p.status == PlanCompleted ==> p.cursor == |p.actions| && AllCommitted(p))
    && (p.cursor < |p.actions| ==> SoundCurrent(p.status, p.actions[p.cursor]))
  }

  /** No action id occurs twice, within a plan or across plans. */
  ghost predicate DistinctIds(plans: map<u64, PlanState>) {
    forall p, i, q, j ::
      (p in plans && q in plans && 0 <= i < |plans[p].actions| && 0 <= j < |plans[q].actions|
       && plans[p].actions[i].id == plans[q].actions[j].id)
      ==> p == q && i == j
  }

  /** Every stored id is below the next one to be given out. */
  ghost predicate FreshCounters(s: FabricState) {
    && s.nextPlanId != 0 && s.nextActionId != 0
    && (forall p :: p in s.plans ==> p < s.nextPlanId)
    && (forall p, i :: p in s.plans && 0 <= i < |s.plans[p].actions| ==> s.plans[p].actions[i].id < s.nextActionId)
  }

  ghost predicate ValidState(registry: Registry, s: FabricState) {
    && FreshCounters(s)
    && DistinctIds(s.plans)
    && forall p :: p in s.plans ==> ValidPlan(registry, p, s.plans[p])
  }

  lemma EmptyStateIsValid(registry: Registry)
    ensures ValidState(registry, EMPTY_STATE)
  {
  }

  /******* Changing one plan *******/

  predicate SameIds(a: seq<PlannedAction>, b: seq<PlannedAction>) {
    |a| == |b| && forall i :: 0 <= i < |a| ==> a[i].id == b[i].id
  }

  /** `t` is `s` with at most plan `plan` changed, and no action id changed. */
  ghost predicate ChangesOnly(s: FabricState, t: FabricState, plan: u64) {
    && plan in s.plans && plan in t.plans
    && SameIds(s.plans[plan].actions, t.plans[plan].actions)
    && t == s.(plans := s.plans[plan := t.plans[plan]])
  }

  lemma ChangingOnePlan(registry: Registry, s: FabricState, t: FabricState, plan: u64)
    requires ValidState(registry, s) && ChangesOnly(s, t, plan)
    requires ValidPlan(registry, plan, t.plans[plan])
    ensures ValidState(registry, t)
  {
    forall p, i, q, j | p in t.plans && q in t.plans && 0 <= i < |t.plans[p].actions| && 0 <= j < |t.plans[q].actions|
                        && t.plans[p].actions[i].id == t.plans[q].actions[j].id
      ensures p == q && i == j
    {
      assert t.plans[p].actions[i].id == s.plans[p].actions[i].id;
      assert t.plans[q].actions[j].id == s.plans[q].actions[j].id;
    }
    forall p, i | p in t.plans && 0 <= i < |t.plans[p].actions|
      ensures t.plans[p].actions[i].id < t.nextActionId
    {
      assert t.plans[p].actions[i].id == s.plans[p].actions[i].id;
    }
  }

  /******* prepare_plan *******/

  lemma {:induction false} CheckedNodesAreSound(registry: Registry, nodes: seq<ActionNode>, payloads: map<u32, TypedAction>, seen: set<u32>)
    requires CheckNodes(registry, nodes, payloads, seen).Ok?
    ensures var checked := CheckNodes(registry, nodes, payloads, seen).value;
            forall i :: 0 <= i < |nodes| ==> CheckNode(registry, nodes[i], payloads) == Ok(checked[i])
  {
    if |nodes| > 0 {
      CheckedNodesAreSound(registry, nodes[1..], payloads, seen + {nodes[0].id});
      var checked := CheckNodes(registry, nodes, payloads, seen).value;
      forall i | 0 <= i < |nodes|
        ensures CheckNode(registry, nodes[i], payloads) == Ok(checked[i])
      {
        if i > 0 {
          assert nodes[i] == nodes[1..][i - 1];
        }
      }
    }
  }

  lemma NewActionIsSound(registry: Registry, node: ActionNode, payloads: map<u32, TypedAction>, c: Checked, id: u64)
    requires id != 0 && CheckNode(registry, node, payloads) == Ok(c)
    ensures SoundAction(registry, NewAction(c, id))
  {
  }

  lemma NewPlanIsValid(registry: Registry, s: FabricState, taskId: u64, graph: TaskGraph, payloads: map<u32, TypedAction>)
    requires FreshCounters(s) && PreparePlan(registry, s, taskId, graph, payloads).0.Ok?
    ensures var (r, t) := PreparePlan(registry, s, taskId, graph, payloads);
            && r.value == s.nextPlanId
            && ValidPlan(registry, r.value, t.plans[r.value])
            && forall i :: 0 <= i < |t.plans[r.value].actions| ==> t.plans[r.value].actions[i].id == s.nextActionId + i
  {
    hide CheckNode, CheckNodes, SoundAction;
    var (r, t) := PreparePlan(registry, s, taskId, graph, payloads);
    var checked := CheckNodes(registry, graph.actions, payloads, {}).value;
    CheckedNodesAreSound(registry, graph.actions, payloads, {});
    var p := t.plans[r.value];
    forall i | 0 <= i < |p.actions|
      ensures SoundAction(registry, p.actions[i]) && SoundPlace(p, i) && p.actions[i].id == s.nextActionId + i
    {
      NewActionIsSound(registry, graph.actions[i], payloads, checked[i], s.nextActionId + i);
    }
  }

  /** A valid plan under the next plan id, with ids counted up from the next action id, may be added. */
  lemma AddingPlan(registry: Registry, s: FabricState, t: FabricState, id: u64)
    requires ValidState(registry, s) && id == s.nextPlanId < t.nextPlanId && id in t.plans
    requires t.plans == s.plans[id := t.plans[id]] && ValidPlan(registry, id, t.plans[id])
    requires t.nextActionId == s.nextActionId + |t.plans[id].actions|
    requires forall i :: 0 <= i < |t.plans[id].actions| ==> t.plans[id].actions[i].id == s.nextActionId + i
    ensures ValidState(registry, t)
  {
    hide ValidPlan;
    assert forall p :: p in s.plans ==> p != id && t.plans[p] == s.plans[p];
  }

  lemma PrepareKeepsValid(registry: Registry, s: FabricState, taskId: u64, graph: TaskGraph, payloads: map<u32, TypedAction>)
    requires ValidState(registry, s)
    ensures ValidState(registry, PreparePlan(registry, s, taskId, graph, payloads).1)
  {
    hide ValidPlan, CheckNodes;
    var (r, t) := PreparePlan(registry, s, taskId, graph, payloads);
    if r.Ok? {
      NewPlanIsValid(registry, s, taskId, graph, payloads);
      AddingPlan(registry, s, t, r.value);
    }
  }

  /******* execute_next *******/

  /** The part of an action that is fixed when its plan is prepared. */
  predicate SameRequest(a: PlannedAction, b: PlannedAction) {
    && a.id == b.id && a.nodeId == b.nodeId
    && a.capability == b.capability && a.capabilityVersion == b.capabilityVersion
    && a.sideEffect == b.sideEffect && a.verificationRequired == b.verificationRequired
    && a.action == b.action
  }

  predicate TokensFit(d: Descriptor, a: PlannedAction) {
    && (a.resumeToken.Some? ==> d.resumable)
    && (a.rollbackToken.Some? ==> d.rollbackSupported)
  }

  /** Everything a turn promises about the stored action. */
  predicate SoundTurn<E>(d: Descriptor, a: PlannedAction, t: Turn<E>) {
    && SameRequest(a, t.action)
    && TokensFit(d, t.action)
    && (if t.advances then t.action.status == Committed else SoundCurrent(t.status, t.action))
  }

  lemma ApplyIsSound<E>(texts: Texts, adapter: Adapter<E>, a: PlannedAction, d: Descriptor, answer: AdapterResult, verifier: Verifier, env: E)
    requires TokensFit(d, a)
    ensures SoundTurn(d, a, Apply(texts, adapter, a, MarkRunning(a), d, answer, verifier, env))
  {
    match answer
    case Suspending(_, _) =>
    case Retrying(_, _) =>
    case Completed(output, token) =>
      var verdict := if a.verificationRequired then verifier(d, a.action, output) else Accept;
      match verdict
      case Accept =>
      case Retry(_) =>
      case Reject(_) =>
  }

  lemma TurnIsSound<E>(tools: Tools<E>, env: E, a: PlannedAction, d: Descriptor, verifier: Verifier)
    requires TokensFit(d, a)
    ensures SoundTurn(d, a, RunAction(tools, env, a, d, verifier))
  {
    if a.capability in tools.adapters {
      var adapter := tools.adapters[a.capability];
      var (env', answer) := CallAdapter(adapter, env, a);
      if answer.Ok? {
        ApplyIsSound(tools.texts, adapter, a, d, answer.value, verifier, env');
      }
    }
  }

  lemma SameRequestStaysSound(registry: Registry, a: PlannedAction, b: PlannedAction, d: Descriptor)
    requires SoundAction(registry, a) && registry.ValidateAction(a.capability, a.action) == Ok(d)
    requires SameRequest(a, b) && TokensFit(d, b)
    ensures SoundAction(registry, b)
  {
  }

  lemma PlanAfterIsValid<E>(registry: Registry, key: u64, p: PlanState, d: Descriptor, t: Turn<E>)
    requires ValidPlan(registry, key, p) && !Terminal(p.status) && p.cursor < |p.actions|
    requires SoundTurn(d, p.actions[p.cursor], t) && SoundAction(registry, t.action)
    ensures ValidPlan(registry, key, PlanAfter(p, t))
  {
    var q := PlanAfter(p, t);
    forall i | 0 <= i < |q.actions|
      ensures SoundAction(registry, q.actions[i]) && SoundPlace(q, i)
    {
      assert SoundAction(registry, p.actions[i]) && SoundPlace(p, i);
    }
    if t.advances && q.cursor < |q.actions| {
      assert SoundPlace(p, q.cursor);
    }
  }

  lemma ExecuteChangesOnePlan<E>(tools: Tools<E>, s: FabricState, env: E, plan: u64, authority: Authority, verifier: Verifier)
    requires plan in s.plans && ValidPlan(tools.registry, plan, s.plans[plan])
    ensures var t := ExecuteNext(tools, s, env, plan, authority, verifier).state;
            ChangesOnly(s, t, plan) && ValidPlan(tools.registry, plan, t.plans[plan])
  {
    var p := s.plans[plan];
    if Terminal(p.status) || p.cursor >= |p.actions| {
      assert forall i :: 0 <= i < |p.actions| ==> SoundPlace(p, i);
    } else {
      var a := p.actions[p.cursor];
      assert SoundAction(tools.registry, a);
      var d := Admit(tools.registry, a, authority);
      if d.Ok? {
        TurnIsSound(tools, env, a, d.value, verifier);
        var t := RunAction(tools, env, a, d.value, verifier);
        SameRequestStaysSound(tools.registry, a, t.action, d.value);
        PlanAfterIsValid(tools.registry, plan, p, d.value, t);
      }
    }
  }

  lemma ExecuteKeepsValid<E>(tools: Tools<E>, s: FabricState, env: E, plan: u64, authority: Authority, verifier: Verifier)
    requires ValidState(tools.registry, s)
    ensures ValidState(tools.registry, ExecuteNext(tools, s, env, plan, authority, verifier).state)
  {
    if plan in s.plans {
      ExecuteChangesOnePlan(tools, s, env, plan, authority, verifier);
      ChangingOnePlan(tools.registry, s, ExecuteNext(tools, s, env, plan, authority, verifier).state, plan);
    }
  }

  /******* rollback_plan *******/

  /** A successful unwinding undoes everything there is to undo. */
  lemma {:induction false} UnwindFinishes<E>(tools: Tools<E>, actions: seq<PlannedAction>, n: nat, env: E)
    requires n <= |actions| && Unwind(tools, actions, n, env).result.Ok?
    ensures forall i :: 0 <= i < n && !NothingToUndo(actions[i]) ==> i in Unwind(tools, actions, n, env).undone
  {
    if n > 0 {
      if NothingToUndo(actions[n - 1]) {
        UnwindFinishes(tools, actions, n - 1, env);
      } else {
        var (env', _) := UndoAction(tools, env, actions[n - 1]);
        UnwindFinishes(tools, actions, n - 1, env');
        assert Unwind(tools, actions, n, env).undone == [n - 1] + Unwind(tools, actions, n - 1, env').undone;
      }
    }
  }

  lemma UndoneStaysSound(registry: Registry, key: u64, p: PlanState, undone: seq<nat>, i: nat)
    requires ValidPlan(registry, key, p) && i < |p.actions|
    requires UndoneInOrder(p.actions, |p.actions|, undone)
    ensures var a := MarkUndone(p.actions, undone)[i];
            SoundAction(registry, a) && a.id == p.actions[i].id && (i > p.cursor ==> a.status == Prepared)
    ensures i in undone ==> i <= p.cursor
  {
    assert SoundAction(registry, p.actions[i]) && SoundPlace(p, i);
  }

  /** A rollback that succeeds keeps the invariant, whatever the plan's status was. */
  lemma RollbackKeepsValid<E>(tools: Tools<E>, s: FabricState, env: E, plan: u64)
    requires ValidState(tools.registry, s)
    requires RollbackPlan(tools, s, env, plan).result.Ok?
    ensures ValidState(tools.registry, RollbackPlan(tools, s, env, plan).state)
  {
    var p := s.plans[plan];
    var undone := Unwind(tools, p.actions, |p.actions|, env).undone;
    UnwindInOrder(tools, p.actions, |p.actions|, env);
    var q := p.(actions := MarkUndone(p.actions, undone), status := PlanRolledBack);
    forall i | 0 <= i < |q.actions|
      ensures SoundAction(tools.registry, q.actions[i]) && SoundPlace(q, i) && q.actions[i].id == p.actions[i].id
    {
      UndoneStaysSound(tools.registry, plan, p, undone, i);
    }
    ChangingOnePlan(tools.registry, s, RollbackPlan(tools, s, env, plan).state, plan);
  }

  lemma BadPlaceUndone(p: PlanState, q: PlanState, undone: seq<nat>)
    requires UndoneInOrder(p.actions, |p.actions|, undone) && q == p.(actions := MarkUndone(p.actions, undone))
    requires forall i :: i in undone ==> i <= p.cursor
    requires undone != [] && p.status != PlanRolledBack && !(p.status == PlanFailed && undone == [p.cursor])
    ensures || (exists i :: 0 <= i < |q.actions| && !SoundPlace(q, i))
            || (q.cursor < |q.actions| && !SoundCurrent(q.status, q.actions[q.cursor]))
  {
    var k := undone[|undone| - 1];
    assert k in undone && q.actions[k].status == RolledBack;
    if k < p.cursor {
      assert !SoundPlace(q, k);
    } else {
      assert undone[0] in undone;
      assert undone == [p.cursor];
    }
  }

  lemma PartialUnwinding(registry: Registry, key: u64, p: PlanState, undone: seq<nat>)
    requires ValidPlan(registry, key, p)
    requires UndoneInOrder(p.actions, |p.actions|, undone)
    ensures ValidPlan(registry, key, p.(actions := MarkUndone(p.actions, undone)))
            <==> undone == [] || p.status == PlanRolledBack || (p.status == PlanFailed && undone == [p.cursor])
  {
    var q := p.(actions := MarkUndone(p.actions, undone));
    forall i | 0 <= i < |p.actions|
      ensures SoundAction(registry, q.actions[i]) && (i > p.cursor ==> q.actions[i].status == Prepared)
      ensures i in undone ==> i <= p.cursor
    {
      UndoneStaysSound(registry, key, p, undone, i);
    }
    if undone == [] {
      assert q.actions == p.actions;
    } else if p.status == PlanRolledBack || (p.status == PlanFailed && undone == [p.cursor]) {
      forall i | 0 <= i < |q.actions|
        ensures SoundPlace(q, i)
      {
        assert SoundPlace(p, i);
      }
    } else {
      BadPlaceUndone(p, q, undone);
    }
  }

  /**
   A rollback that stops part-way keeps the invariant exactly when it had undone nothing
   yet, or the plan had been rolled back before, or the plan had failed and only its
   failing action was undone.
   */
  lemma PartialRollback<E>(tools: Tools<E>, s: FabricState, env: E, plan: u64)
    requires ValidState(tools.registry, s) && plan in s.plans
    requires RollbackPlan(tools, s, env, plan).result.Err?
    ensures var p := s.plans[plan];
            var undone := Unwind(tools, p.actions, |p.actions|, env).undone;
            ValidState(tools.registry, RollbackPlan(tools, s, env, plan).state)
            <==> undone == [] || p.status == PlanRolledBack || (p.status == PlanFailed && undone == [p.cursor])
  {
    var p := s.plans[plan];
    var t := RollbackPlan(tools, s, env, plan).state;
    var undone := Unwind(tools, p.actions, |p.actions|, env).undone;
    UnwindInOrder(tools, p.actions, |p.actions|, env);
    PartialUnwinding(tools.registry, plan, p, undone);
    assert t.plans[plan] == p.(actions := MarkUndone(p.actions, undone));
    if ValidPlan(tools.registry, plan, t.plans[plan]) {
      ChangingOnePlan(tools.registry, s, t, plan);
    }
  }

  /******* Which plans a failing rollback can break *******/

  /** The places of the first `n` actions that rollback undoes, in its order. */
  function ToUndo(actions: seq<PlannedAction>, n: nat): (ks: seq<nat>)
    requires n <= |actions|
    ensures forall j :: 0 <= j < |ks| ==> ks[j] < n && !NothingToUndo(actions[ks[j]])
    ensures forall j, k :: 0 <= j < k < |ks| ==> ks[j] > ks[k]
  {
    if n == 0 then []
    else if NothingToUndo(actions[n - 1]) then ToUndo(actions, n - 1)
    else [n - 1] + ToUndo(actions, n - 1)
  }

  /**
   Rollback can undo something of the plan, then fail, and leave it invalid: at least two
   actions are to be undone and the first of them holds a token; if that is the failing action
   of a failed plan, at least three, and the first two hold tokens.
   */
  predicate Fragile(p: PlanState) {
    var ks := ToUndo(p.actions, |p.actions|);
    && p.status != PlanRolledBack
    && |ks| >= 2 && p.actions[ks[0]].rollbackToken.Some?
    && (p.status == PlanFailed && ks[0] == p.cursor ==> |ks| >= 3 && p.actions[ks[1]].rollbackToken.Some?)
  }

  /** A rollback that fails has undone the first few of the actions, all holding tokens, and not all. */
  lemma {:induction false} FailsAmong<E>(tools: Tools<E>, actions: seq<PlannedAction>, n: nat, env: E)
    requires n <= |actions| && Unwind(tools, actions, n, env).result.Err?
    ensures var ks, undone := ToUndo(actions, n), Unwind(tools, actions, n, env).undone;
            && |undone| < |ks| && undone == ks[..|undone|]
            && forall j :: 0 <= j < |undone| ==> actions[ks[j]].rollbackToken.Some?
    decreases n
  {
    if NothingToUndo(actions[n - 1]) {
      FailsAmong(tools, actions, n - 1, env);
    } else {
      var (env', undo) := UndoAction(tools, env, actions[n - 1]);
      if undo.Ok? {
        FailsAmong(tools, actions, n - 1, env');
      }
    }
  }

  /** No failing rollback breaks a plan that is not fragile, whatever the adapters and the world do. */
  lemma SturdyPlanStaysValid<E>(tools: Tools<E>, s: FabricState, env: E, plan: u64)
    requires ValidState(tools.registry, s) && plan in s.plans && !Fragile(s.plans[plan])
    ensures ValidState(tools.registry, RollbackPlan(tools, s, env, plan).state)
  {
    hide ValidState, UndoAction, NothingToUndo;
    var p := s.plans[plan];
    if RollbackPlan(tools, s, env, plan).result.Ok? {
      RollbackKeepsValid(tools, s, env, plan);
    } else {
      FailsAmong(tools, p.actions, |p.actions|, env);
      PartialRollback(tools, s, env, plan);
      var ks := ToUndo(p.actions, |p.actions|);
      var undone := Unwind(tools, p.actions, |p.actions|, env).undone;
      if |undone| == 1 {
        assert undone == [ks[0]];
      } else if |undone| > 1 {
        assert p.status == PlanRolledBack by { TwoUndone(p, undone); }
      }
    }
  }

  lemma TwoUndone(p: PlanState, undone: seq<nat>)
    requires !Fragile(p)
    requires 1 < |undone| < |ToUndo(p.actions, |p.actions|)| && undone == ToUndo(p.actions, |p.actions|)[..|undone|]
    requires forall j :: 0 <= j < |undone| ==> p.actions[undone[j]].rollbackToken.Some?
    ensures p.status == PlanRolledBack
  {
    hide NothingToUndo;
    assert undone[0] == ToUndo(p.actions, |p.actions|)[0] && undone[1] == ToUndo(p.actions, |p.actions|)[1];
  }

  /** Adapters for all the actions; only the rollback of action `id` fails. */
  function FailingTools(registry: Registry, texts: Texts, actions: seq<PlannedAction>, id: u64): Tools<()> {
    var adapter := Adapter((e: (), i: u64, a: TypedAction) => (e, Err([])),
                           (e: (), i: u64, a: TypedAction, t: Bytes) => (e, Err([])),
                           (e: (), i: u64, a: TypedAction, t: Bytes) => (e, if i == id then Err([]) else Ok(())));
    Tools(registry, map a | a in actions :: a.capability := adapter, texts)
  }

  predicate Undoable(tools: Tools<()>, a: PlannedAction) {
    UndoAction(tools, (), a).1.Ok?
  }

  /** Rollback would undo the first `j` of these places, and fail at the next. */
  ghost predicate FailsAt(tools: Tools<()>, actions: seq<PlannedAction>, ks: seq<nat>, j: nat)
    requires forall i :: 0 <= i < |ks| ==> ks[i] < |actions|
  {
    && j < |ks| && !Undoable(tools, actions[ks[j]])
    && forall i :: 0 <= i < j ==> Undoable(tools, actions[ks[i]])
  }

  lemma {:induction false} StopsAt(tools: Tools<()>, actions: seq<PlannedAction>, n: nat, j: nat)
    requires n <= |actions| && FailsAt(tools, actions, ToUndo(actions, n), j)
    ensures var u := Unwind(tools, actions, n, ()); u.result.Err? && u.undone == ToUndo(actions, n)[..j]
    decreases n
  {
    hide UndoAction, NothingToUndo, Undoable, FailsAt;
    if n > 0 && NothingToUndo(actions[n - 1]) {
      StopsAt(tools, actions, n - 1, j);
    } else {
      FailsAtRest(tools, actions, n, j);
      UndoableUnwinds(tools, actions[n - 1]);
      if j > 0 {
        StopsAt(tools, actions, n - 1, j - 1);
        assert [n - 1] + ToUndo(actions, n - 1)[..j - 1] == ToUndo(actions, n)[..j];
      }
    }
  }

  lemma FailsAtRest(tools: Tools<()>, actions: seq<PlannedAction>, n: nat, j: nat)
    requires n <= |actions| && FailsAt(tools, actions, ToUndo(actions, n), j) && (n > 0 ==> !NothingToUndo(actions[n - 1]))
    ensures n > 0 && (Undoable(tools, actions[n - 1]) <==> j > 0)
    ensures j > 0 ==> FailsAt(tools, actions, ToUndo(actions, n - 1), j - 1) && j - 1 < |ToUndo(actions, n - 1)|
    ensures ToUndo(actions, n) == [n - 1] + ToUndo(actions, n - 1)
  {
    hide Undoable, NothingToUndo;
    var ks, rest := ToUndo(actions, n), ToUndo(actions, n - 1);
    assert ks == [n - 1] + rest && ks[j] in ks;
    assert j > 0 ==> Undoable(tools, actions[ks[0]]);
    forall i | 0 <= i < j - 1
      ensures Undoable(tools, actions[rest[i]])
    {
      assert rest[i] == ks[i + 1] && Undoable(tools, actions[ks[i + 1]]);
    }
  }

  lemma UndoableUnwinds(tools: Tools<()>, a: PlannedAction)
    ensures Undoable(tools, a) <==> UndoAction(tools, (), a).1.Ok?
    ensures UndoAction(tools, (), a).0 == ()
  {
    hide UndoAction;
  }

  lemma UndoesButOne(registry: Registry, texts: Texts, actions: seq<PlannedAction>, id: u64, k: nat)
    requires k < |actions| && SoundAction(registry, actions[k])
    ensures Undoable(FailingTools(registry, texts, actions, id), actions[k])
            <==> actions[k].rollbackToken.Some? && actions[k].id != id
  {
  }

  /** Some adapters break a fragile plan. */
  lemma FragilePlanBreaks(registry: Registry, s: FabricState, plan: u64, texts: Texts) returns (tools: Tools<()>)
    requires ValidState(registry, s) && plan in s.plans && Fragile(s.plans[plan])
    ensures tools.registry == registry
    ensures RollbackPlan(tools, s, (), plan).result.Err? && !ValidState(registry, RollbackPlan(tools, s, (), plan).state)
  {
    hide ValidState, NothingToUndo, SoundAction, Undoable, FailingTools, Unwind, ToUndo;
    var p := s.plans[plan];
    var ks := ToUndo(p.actions, |p.actions|);
    var j := if p.status == PlanFailed && ks[0] == p.cursor then 2 else 1;
    tools := FailingTools(registry, texts, p.actions, p.actions[ks[j]].id);
    TheRegistry(registry, texts, p.actions, p.actions[ks[j]].id);
    IdsDiffer(registry, s, plan);
    forall i | 0 <= i <= j
      ensures Undoable(tools, p.actions[ks[i]]) <==> i < j
    {
      UndoesButOne(registry, texts, p.actions, p.actions[ks[j]].id, ks[i]);
    }
    assert FailsAt(tools, p.actions, ks, j);
    StopsAt(tools, p.actions, |p.actions|, j);
    PartialRollback(tools, s, (), plan);
    if j == 1 {
      assert ks[..j] == [ks[0]];
    }
  }

  lemma TheRegistry(registry: Registry, texts: Texts, actions: seq<PlannedAction>, id: u64)
    ensures FailingTools(registry, texts, actions, id).registry == registry
  {
  }

  lemma IdsDiffer(registry: Registry, s: FabricState, plan: u64)
    requires ValidState(registry, s) && plan in s.plans
    ensures forall i, j :: 0 <= i < |s.plans[plan].actions| && 0 <= j < |s.plans[plan].actions| && i != j
              ==> s.plans[plan].actions[i].id != s.plans[plan].actions[j].id
    ensures forall i :: 0 <= i < |s.plans[plan].actions| ==> SoundAction(registry, s.plans[plan].actions[i])
  {
    hide SoundAction, SoundPlace, SoundCurrent;
  }

  /**
   A failing rollback keeps the invariant of a plan whatever the adapters do if and only if the
   plan is not fragile.
   */
  lemma RollbackBreaksExactly(registry: Registry, s: FabricState, plan: u64, texts: Texts)
    requires ValidState(registry, s) && plan in s.plans
    ensures (forall tools: Tools<()> :: tools.registry == registry ==> ValidState(registry, RollbackPlan(tools, s, (), plan).state))
            <==> !Fragile(s.plans[plan])
  {
    hide ValidState, Fragile, RollbackPlan;
    if Fragile(s.plans[plan]) {
      var tools := FragilePlanBreaks(registry, s, plan, texts);
    } else {
      forall tools: Tools<()> | tools.registry == registry
        ensures ValidState(registry, RollbackPlan(tools, s, (), plan).state)
      {
        SturdyPlanStaysValid(tools, s, (), plan);
      }
    }
  }

  /******* A rollback that stops part-way *******/

  const ONE_LETTER: Str := [0x61]

  function SampleAction(id: u64, token: Option<Bytes>): PlannedAction {
    PlannedAction(id, id % 0x1_0000_0000, ONE_LETTER, 1, Reversible, false, FileRead(ONE_LETTER), Committed, 1, None, None, token, None)
  }

  /** A completed plan of two reversible actions, of which only the second kept a rollback token. */
  const SAMPLE_STATE := FabricState(2, 3, map[1 := PlanState(1, 1, 2, PlanCompleted, [SampleAction(1, None), SampleAction(2, Some([]))])])

  function SampleTools(texts: Texts): Tools<()> {
    var adapter := Adapter((e: (), id: u64, a: TypedAction) => (e, Err([])),
                           (e: (), id: u64, a: TypedAction, t: Bytes) => (e, Err([])),
                           (e: (), id: u64, a: TypedAction, t: Bytes) => (e, Ok(())));
    Tools(Registry(map[ONE_LETTER := Descriptor(1, File, Reversible, false, true, true, [])]), map[ONE_LETTER := adapter], texts)
  }

  lemma SampleActionIsSound(texts: Texts, id: u64, token: Option<Bytes>)
    requires id != 0
    ensures SoundAction(SampleTools(texts).registry, SampleAction(id, token))
  {
    assert !Blank(ONE_LETTER);
  }

  lemma SampleIsValid(texts: Texts)
    ensures ValidState(SampleTools(texts).registry, SAMPLE_STATE)
  {
    hide Unwind, UndoAction, SoundAction, SampleTools;
    SampleActionIsSound(texts, 1, None);
    SampleActionIsSound(texts, 2, Some([]));
  }

  lemma SampleUnwinds(texts: Texts)
    ensures Unwind(SampleTools(texts), SAMPLE_STATE.plans[1].actions, 2, ()) == Unwinding(Err(RollbackUnavailable(1)), (), [1])
  {
    hide ValidState;
    var tools := SampleTools(texts);
    var actions := SAMPLE_STATE.plans[1].actions;
    assert UndoAction(tools, (), actions[1]) == ((), Ok(()));
    assert UndoAction(tools, (), actions[0]) == ((), Err(RollbackUnavailable(1)));
    assert Unwind(tools, actions, 1, ()) == Unwinding(Err(RollbackUnavailable(1)), (), []);
  }

  /**
   Why rollbacks that stop part-way are left out of the invariant: this one leaves a
   completed plan holding a rolled-back action.
   */
  lemma PartialRollbackBreaksInvariant(texts: Texts)
    ensures var tools := SampleTools(texts);
            var step := RollbackPlan(tools, SAMPLE_STATE, (), 1);
            && ValidState(tools.registry, SAMPLE_STATE)
            && step.result == Err(RollbackUnavailable(1))
            && step.state.plans[1].status == PlanCompleted
            && step.state.plans[1].actions[1].status == RolledBack
            && !ValidState(tools.registry, step.state)
  {
    hide ValidState, Unwind, SampleTools;
    SampleIsValid(texts);
    SampleUnwinds(texts);
    PartialRollback(SampleTools(texts), SAMPLE_STATE, (), 1);
  }
}
