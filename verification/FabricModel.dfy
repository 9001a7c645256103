/**
 The action fabric as values: what is stored, and what one call of each operation does
 to the stored state and to the world behind the adapters.
 */
module FabricModel {
  import opened Wrappers
  import opened Bytes
  import opened Actions
  import opened Ordering

  datatype ActionStatus = Prepared | Running | Suspended | Retryable | Committed | RolledBack | Failed

  datatype PlanStatus = PlanReady | PlanSuspended | PlanCompleted | PlanFailed | PlanRolledBack

  datatype PlannedAction = PlannedAction(
    id: u64,
    nodeId: u32,
    capability: Str,
    capabilityVersion: u32,
    sideEffect: SideEffect,
    verificationRequired: bool,
    action: TypedAction,
    status: ActionStatus,
    attempts: u32,
    output: Option<ActionOutput>,
    resumeToken: Option<Bytes>,
    rollbackToken: Option<Bytes>,
    lastError: Option<Str>
  )

  datatype PlanState = PlanState(id: u64, taskId: u64, cursor: usize, status: PlanStatus, actions: Vec<PlannedAction>)

  datatype FabricState = FabricState(nextPlanId: u64, nextActionId: u64, plans: map<u64, PlanState>)

  const EMPTY_STATE := FabricState(1, 1, map[])

  /******* The world the fabric acts on *******/

  datatype AdapterResult =
    | Completed(output: ActionOutput, rollbackToken: Option<Bytes>)
    | Suspending(token: Bytes, note: Str)
    | Retrying(reason: Str, resumeToken: Option<Bytes>)

  /**
   An adapter is any object whatever: `E` is the state of everything outside the fabric,
   the adapters' own memory and future answers included.
   */
  datatype Adapter<!E> = Adapter(
    execute: (E, u64, TypedAction) -> (E, Result<AdapterResult, Str>),
    resume: (E, u64, TypedAction, Bytes) -> (E, Result<AdapterResult, Str>),
    rollback: (E, u64, TypedAction, Bytes) -> (E, Result<(), Str>)
  )

  /** The fixed English texts the fabric reports or stores. */
  datatype Texts = Texts(exhausted: Str, allRolledBack: Str, unsupportedSuspension: Str, unsupportedResumeState: Str)

  datatype Tools<!E> = Tools(registry: Registry, adapters: map<Str, Adapter<E>>, texts: Texts)

  datatype Verification = Accept | Retry(reason: Str) | Reject(reason: Str)

  /** One call's verifier; a call consults it at most once. */
  type Verifier = (Descriptor, TypedAction, ActionOutput) -> Verification

  datatype FabricError =
    | Capability(error: CapabilityError)
    | MissingAdapter(capability: Str)
    | MissingPlan(plan: u64)
    | MissingActionPayload(node: u32)
    | UnexpectedActionPayload(node: u32)
    | SideEffectMismatch(node: u32, planned: SideEffect, registered: SideEffect)
    | VerificationContractMismatch(node: u32)
    | NonResumableSuspension(capability: Str)
    | RollbackFailure(capability: Str, reason: Str)
    | RollbackUnavailable(action: u64)
    | TerminalPlan(status: PlanStatus)
    | InvalidState
    | Overflow

  datatype Report = Report(
    plan: u64,
    action: Option<u64>,
    actionStatus: Option<ActionStatus>,
    planStatus: PlanStatus,
    cursor: usize,
    summary: Str
  )

  /** What an observer of the adapters and of commits sees; `index` is the place in the plan. */
  datatype Event =
    | Ran(plan: u64, index: nat, id: u64, resumed: bool)
    | CommittedAt(plan: u64, index: nat, id: u64)
    | Undone(plan: u64, index: nat, id: u64)

  datatype Step<E> = Step(result: Result<Report, FabricError>, state: FabricState, env: E, events: seq<Event>)

  function SaturatingIncrement(x: u32): u32 {
    if x == U32_MAX then x else x + 1
  }

  /******* prepare_plan *******/

  datatype Checked = Checked(node: ActionNode, action: TypedAction, version: u32, verify: bool)

  /** The checks of one node against its payload. */
  function CheckNode(registry: Registry, node: ActionNode, payloads: map<u32, TypedAction>): Result<Checked, FabricError> {
    if node.id !in payloads then Err(MissingActionPayload(node.id))
    else
      var action := payloads[node.id];
      match registry.ValidateAction(node.capability, action)
      case Err(e) => Err(Capability(e))
      case Ok(d) =>
        if node.sideEffect != d.sideEffect then Err(SideEffectMismatch(node.id, node.sideEffect, d.sideEffect))
        else if d.verificationRequired && !node.verificationRequired then Err(VerificationContractMismatch(node.id))
        else Ok(Checked(node, action, d.version, node.verificationRequired || d.verificationRequired))
  }

  /** The checks of all nodes in order; a node id may occur once. */
  function CheckNodes(registry: Registry, nodes: seq<ActionNode>, payloads: map<u32, TypedAction>, seen: set<u32>)
    : (r: Result<seq<Checked>, FabricError>)
    ensures r.Ok? ==> |r.value| == |nodes|
  {
    if |nodes| == 0 then Ok([])
    else if nodes[0].id in seen then Err(InvalidState)
    else
      var first :- CheckNode(registry, nodes[0], payloads);
      var rest :- CheckNodes(registry, nodes[1..], payloads, seen + {nodes[0].id});
      Ok([first] + rest)
  }

  function NodeIds(nodes: seq<ActionNode>): set<u32> {
    set node | node in nodes :: node.id
  }

  function NewAction(c: Checked, id: u64): PlannedAction {
    PlannedAction(id, c.node.id, c.node.capability, c.version, c.node.sideEffect, c.verify, c.action,
                  Prepared, 0, None, None, None, None)
  }

  function NewActions(checked: Vec<Checked>, first: u64): Vec<PlannedAction>
    requires first + |checked| <= U64_MAX
  {
    seq(|checked|, i requires 0 <= i < |checked| => NewAction(checked[i], first + i))
  }

  function PreparePlan(registry: Registry, s: FabricState, taskId: u64, graph: TaskGraph, payloads: map<u32, TypedAction>)
    : (Result<u64, FabricError>, FabricState)
  {
    if taskId == 0 || |graph.actions| == 0 then (Err(InvalidState), s)
    else
      match CheckNodes(registry, graph.actions, payloads, {})
      case Err(e) => (Err(e), s)
      case Ok(checked) =>
        var extra := payloads.Keys - NodeIds(graph.actions);
        if extra != {} then (Err(UnexpectedActionPayload(Least(extra))), s)
        else if s.nextPlanId == U64_MAX then (Err(Overflow), s)
        else if s.nextActionId + |checked| > U64_MAX then (Err(Overflow), s)
        else
          var id := s.nextPlanId;
          var plan := PlanState(id, taskId, 0, PlanReady, NewActions(checked, s.nextActionId));
          (Ok(id), FabricState(id + 1, s.nextActionId + |checked|, s.plans[id := plan]))
  }

  /******* execute_next *******/

  predicate Terminal(status: PlanStatus) {
    status in {PlanCompleted, PlanFailed, PlanRolledBack}
  }

  predicate Final(status: ActionStatus) {
    status in {Committed, RolledBack, Failed}
  }

  predicate ResumesFromToken(a: PlannedAction) {
    (a.status == Suspended || a.status == Retryable) && a.resumeToken.Some?
  }

  /** A rollback token is kept only for a capability that declares rollback. */
  function KeptToken(d: Descriptor, token: Option<Bytes>): Option<Bytes> {
    if d.rollbackSupported then token else None
  }

  /**
   What one call does to the action at the cursor: the stored action, whether the cursor
   advances or else the plan status, and what the adapters saw. `failure` is the error the
   call returns after having stored all that.
   */
  datatype Turn<E> = Turn(
    action: PlannedAction,
    advances: bool,
    status: PlanStatus,
    failure: Option<FabricError>,
    summary: Str,
    env: E,
    ran: bool,
    undone: bool
  )

  function Stay<E>(a: PlannedAction, status: PlanStatus, summary: Str, env: E): Turn<E> {
    Turn(a, false, status, None, summary, env, true, false)
  }

  function StayFailing<E>(a: PlannedAction, status: PlanStatus, error: FabricError, env: E, ran: bool): Turn<E> {
    Turn(a, false, status, Some(error), [], env, ran, false)
  }

  function Advance<E>(a: PlannedAction, summary: Str, env: E): Turn<E> {
    Turn(a, true, PlanReady, None, summary, env, true, false)
  }

  /** The action at the cursor as it is while its adapter works. */
  function MarkRunning(a: PlannedAction): PlannedAction {
    a.(status := Running, attempts := SaturatingIncrement(a.attempts))
  }

  /**
   What the answer of an adapter does to the action at the cursor. `snapshot` is the action
   before the call, `running` the same action marked running.
   */
  function Apply<E>(texts: Texts, adapter: Adapter<E>, snapshot: PlannedAction, running: PlannedAction, d: Descriptor,
                    answer: AdapterResult, verifier: Verifier, env: E): Turn<E> {
    match answer
    case Suspending(token, note) =>
      if !d.resumable then
        StayFailing(running.(status := Failed, lastError := Some(texts.unsupportedSuspension)), PlanFailed,
                    NonResumableSuspension(snapshot.capability), env, true)
      else
        Stay(running.(status := Suspended, resumeToken := Some(token), lastError := Some(note)), PlanSuspended, note, env)
    case Retrying(reason, token) =>
      if token.Some? && !d.resumable then
        StayFailing(running.(status := Failed, lastError := Some(texts.unsupportedResumeState)), PlanFailed,
                    NonResumableSuspension(snapshot.capability), env, true)
      else
        Stay(running.(status := Retryable, resumeToken := token, lastError := Some(reason)), PlanReady, reason, env)
    case Completed(output, token) =>
      var verdict := if snapshot.verificationRequired then verifier(d, snapshot.action, output) else Accept;
      match verdict
      case Accept =>
        Advance(running.(status := Committed, output := Some(output), resumeToken := None,
                         rollbackToken := KeptToken(d, token), lastError := None),
                output.summary, env)
      case Retry(reason) =>
        Stay(running.(status := Retryable, output := Some(output), resumeToken := None,
                      rollbackToken := KeptToken(d, token), lastError := Some(reason)),
             PlanReady, reason, env)
      case Reject(reason) =>
        var rejected := running.(output := Some(output), lastError := Some(reason));
        match KeptToken(d, token)
        case None => Stay(rejected.(status := Failed), PlanFailed, reason, env)
        case Some(t) =>
          var (env', undo) := adapter.rollback(env, snapshot.id, snapshot.action, t);
          match undo
          case Err(e) => StayFailing(running, PlanReady, RollbackFailure(snapshot.capability, e), env', true)
          case Ok(_) =>
            Turn(rejected.(status := RolledBack, rollbackToken := Some(t)), false, PlanFailed, None, reason, env', true, true)
  }

  /** A suspended or retryable action that holds a token is resumed, any other executed. */
  function CallAdapter<E>(adapter: Adapter<E>, env: E, a: PlannedAction): (E, Result<AdapterResult, Str>) {
    if ResumesFromToken(a) then adapter.resume(env, a.id, a.action, a.resumeToken.value)
    else adapter.execute(env, a.id, a.action)
  }

  /** Runs the action at the cursor once every check has passed. */
  function RunAction<E>(tools: Tools<E>, env: E, a: PlannedAction, d: Descriptor, verifier: Verifier): Turn<E> {
    var running := MarkRunning(a);
    if a.capability !in tools.adapters then
      StayFailing(running, PlanReady, MissingAdapter(a.capability), env, false)
    else
      var adapter := tools.adapters[a.capability];
      var (env', answer) := CallAdapter(adapter, env, a);
      Conclude(tools.texts, adapter, a, d, answer, verifier, env')
  }

  /** The turn of an action whose adapter answered. */
  function Conclude<E>(texts: Texts, adapter: Adapter<E>, a: PlannedAction, d: Descriptor, answer: Result<AdapterResult, Str>,
                       verifier: Verifier, env: E): Turn<E> {
    match answer
    case Err(reason) =>
      Stay(MarkRunning(a).(status := Retryable, lastError := Some(reason), resumeToken := None), PlanReady, reason, env)
    case Ok(value) => Apply(texts, adapter, a, MarkRunning(a), d, value, verifier, env)
  }

  function NextCursor(p: PlanState): usize {
    if p.cursor == U64_MAX then p.cursor else p.cursor + 1
  }

  /** The plan after the turn of its current action. */
  function PlanAfter<E>(p: PlanState, t: Turn<E>): PlanState
    requires p.cursor < |p.actions|
  {
    var q := p.(actions := p.actions[p.cursor := t.action]);
    if !t.advances then q.(status := t.status)
    else if NextCursor(p) >= |p.actions| then q.(cursor := NextCursor(p), status := PlanCompleted)
    else q.(cursor := NextCursor(p), status := PlanReady)
  }

  function TurnEvents<E>(plan: u64, i: nat, a: PlannedAction, t: Turn<E>): seq<Event> {
    (if t.ran then [Ran(plan, i, a.id, ResumesFromToken(a))] else [])
    + (if t.advances then [CommittedAt(plan, i, a.id)] else [])
    + (if t.undone then [Undone(plan, i, a.id)] else [])
  }

  /** What the caller gets, `q` being the plan after the turn. */
  function TurnResult<E>(plan: u64, q: PlanState, t: Turn<E>): Result<Report, FabricError> {
    if t.failure.Some? then Err(t.failure.value)
    else Ok(Report(plan, Some(t.action.id), Some(t.action.status), q.status, q.cursor, t.summary))
  }

  /** The checks before anything is stored or run. */
  function Admit(registry: Registry, a: PlannedAction, authority: Authority): Result<Descriptor, FabricError> {
    match registry.ValidateAction(a.capability, a.action)
    case Err(e) => Err(Capability(e))
    case Ok(d) =>
      match authority.Permits(d)
      case Err(e) => Err(Capability(e))
      case Ok(_) =>
        if ResumesFromToken(a) && !d.resumable then Err(NonResumableSuspension(a.capability))
        else if Final(a.status) then Err(InvalidState)
        else Ok(d)
  }

  function ExecuteNext<E>(tools: Tools<E>, s: FabricState, env: E, plan: u64, authority: Authority, verifier: Verifier): Step<E> {
    if plan !in s.plans then Step(Err(MissingPlan(plan)), s, env, [])
    else
      var p := s.plans[plan];
      if Terminal(p.status) then Step(Err(TerminalPlan(p.status)), s, env, [])
      else if p.cursor >= |p.actions| then
        Step(Ok(Report(plan, None, None, PlanCompleted, p.cursor, tools.texts.exhausted)),
             s.(plans := s.plans[plan := p.(status := PlanCompleted)]), env, [])
      else
        var a := p.actions[p.cursor];
        match Admit(tools.registry, a, authority)
        case Err(e) => Step(Err(e), s, env, [])
        case Ok(d) =>
          var t := RunAction(tools, env, a, d, verifier);
          var q := PlanAfter(p, t);
          Step(TurnResult(plan, q, t), s.(plans := s.plans[plan := q]), t.env, TurnEvents(plan, p.cursor, a, t))
  }

  /******* rollback_plan *******/

  /** An action that rollback passes over. */
  predicate NothingToUndo(a: PlannedAction) {
    a.sideEffect == ReadOnly || a.status == Prepared || a.status == RolledBack
  }

  /** The rollback call of one action, or why there is none. */
  function UndoAction<E>(tools: Tools<E>, env: E, a: PlannedAction): (E, Result<(), FabricError>) {
    match tools.registry.Lookup(a.capability)
    case Err(e) => (env, Err(Capability(e)))
    case Ok(d) =>
      if !d.rollbackSupported || a.rollbackToken.None? then (env, Err(RollbackUnavailable(a.id)))
      else if a.capability !in tools.adapters then (env, Err(MissingAdapter(a.capability)))
      else
        var (env', undo) := tools.adapters[a.capability].rollback(env, a.id, a.action, a.rollbackToken.value);
        match undo
        case Err(e) => (env', Err(RollbackFailure(a.capability, e)))
        case Ok(_) => (env', Ok(()))
  }

  datatype Unwinding<E> = Unwinding(result: Result<(), FabricError>, env: E, undone: seq<nat>)

  /** Undoes the first `n` actions, last one first, up to the first failure. */
  function Unwind<E>(tools: Tools<E>, actions: seq<PlannedAction>, n: nat, env: E): (u: Unwinding<E>)
    requires n <= |actions|
  {
    if n == 0 then Unwinding(Ok(()), env, [])
    else if NothingToUndo(actions[n - 1]) then Unwind(tools, actions, n - 1, env)
    else
      var (env', undo) := UndoAction(tools, env, actions[n - 1]);
      if undo.Err? then Unwinding(undo, env', [])
      else
        var u := Unwind(tools, actions, n - 1, env');
        Unwinding(u.result, u.env, [n - 1] + u.undone)
  }

  /** The actions with those at the places `undone` marked rolled back. */
  function MarkUndone(actions: seq<PlannedAction>, undone: seq<nat>): (r: seq<PlannedAction>)
    ensures |r| == |actions|
  {
    seq(|actions|, i requires 0 <= i < |actions| =>
      if i in undone then actions[i].(status := RolledBack) else actions[i])
  }

  function UndoneEvents(plan: u64, actions: seq<PlannedAction>, undone: seq<nat>): seq<Event>
    requires forall k :: k in undone ==> k < |actions|
  {
    seq(|undone|, j requires 0 <= j < |undone| =>
      assert undone[j] in undone;
      Undone(plan, undone[j], actions[undone[j]].id))
  }

  /** The undone places: below `n`, last one first, none of an action with nothing to undo. */
  ghost predicate UndoneInOrder(actions: seq<PlannedAction>, n: nat, undone: seq<nat>) {
    && (forall i :: i in undone ==> i < n && i < |actions| && !NothingToUndo(actions[i]))
    && (forall j, k :: 0 <= j < k < |undone| ==> undone[j] > undone[k])
  }

  lemma {:induction false} UnwindInOrder<E>(tools: Tools<E>, actions: seq<PlannedAction>, n: nat, env: E)
    requires n <= |actions|
    ensures UndoneInOrder(actions, n, Unwind(tools, actions, n, env).undone)
  {
    if n > 0 {
      UnwindInOrder(tools, actions, n - 1, env);
      if !NothingToUndo(actions[n - 1]) {
        var (env', undo) := UndoAction(tools, env, actions[n - 1]);
        UnwindInOrder(tools, actions, n - 1, env');
        var rest := Unwind(tools, actions, n - 1, env').undone;
        assert forall k :: 0 <= k < |rest| ==> rest[k] in rest;
      }
    }
  }

  function RollbackPlan<E>(tools: Tools<E>, s: FabricState, env: E, plan: u64): Step<E> {
    if plan !in s.plans then Step(Err(MissingPlan(plan)), s, env, [])
    else
      var p := s.plans[plan];
      UnwindInOrder(tools, p.actions, |p.actions|, env);
      var u := Unwind(tools, p.actions, |p.actions|, env);
      var q := p.(actions := MarkUndone(p.actions, u.undone));
      var events := UndoneEvents(plan, p.actions, u.undone);
      match u.result
      case Err(e) => Step(Err(e), s.(plans := s.plans[plan := q]), u.env, events)
      case Ok(_) =>
        Step(Ok(Report(plan, None, None, PlanRolledBack, p.cursor, tools.texts.allRolledBack)),
             s.(plans := s.plans[plan := q.(status := PlanRolledBack)]), u.env, events)
  }
}
