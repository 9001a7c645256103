/**
 Executing a stored chat plan: the fabric is restored from its checkpoint or prepared anew,
 stored, driven by the verified driver and stored again.
 */
module ChatExecution {
  import opened Wrappers
  import opened Bytes
  import opened Actions
  import opened Ordering
  import opened FabricModel
  import opened FabricInvariant
  import opened FabricRuns
  import opened Fabric
  import Validation = FabricValidation
  import Taf97
  import Taf97Format
  import Taf97Streams
  import opened AssistantDriver

  const MAX_CHECKPOINT_BYTES := 4 * 1024 * 1024

  /**
   What the bridge derives from a plan: whether the approval text can describe its external
   writes, the capabilities it registers and the authority it grants.
   */
  datatype ChatSetup = ChatSetup(supported: AssistantPlan -> bool, registry: AssistantPlan -> Registry, authority: AssistantPlan -> Authority)

  /**
   What a call meets on the device: the adapters, the world behind them and the verifier;
   `ready` tells whether all adapters could be set up, `answerable` whether the prompt made
   from the evidence fits the model.
   */
  datatype Device<!E> = Device(adapters: map<Str, Adapter<E>>, texts: Texts, env: E, verifiers: Verifiers, ready: bool,
                               answerable: seq<Evidence> -> bool)

  predicate ExternalWrites(plan: AssistantPlan) {
    exists i :: 0 <= i < |plan.graph.actions| && plan.graph.actions[i].sideEffect == ExternalWrite
  }

  /** An external write that must not be repeated without asking: it is to be retried, and holds no token. */
  predicate NeedsReconfirm(p: PlanState) {
    p.cursor < |p.actions| &&
    var a := p.actions[p.cursor];
    a.sideEffect == ExternalWrite && a.status == Retryable && a.resumeToken.None?
  }

  /******* Checkpoints *******/

  /** The state's encoding is within the limit for a conversation. */
  predicate Fits(s: FabricState) {
    Taf97.Encodable(s) && |Taf97.Encode(s)| <= MAX_CHECKPOINT_BYTES
  }

  ghost function Persisted(registry: Registry, s: FabricState): Option<Vec<byte>> {
    if ValidState(registry, s) && Fits(s) then Some(Taf97.Encode(s)) else None
  }

  /** A fabric ready to run: its state, its only plan, and the state as it was stored. */
  datatype Begun = Begun(state: FabricState, plan: u64, stored: Vec<byte>)

  /** The fabric of a checkpoint, which must hold exactly one plan and that of the task; without one, a newly prepared fabric. */
  ghost function Loaded(registry: Registry, task: u64, graph: TaskGraph, checkpoint: Option<Vec<byte>>, plan: AssistantPlan)
    : (r: Option<(FabricState, u64)>)
    ensures r.Some? ==> r.value.1 in r.value.0.plans
  {
    match checkpoint
    case None =>
      var (id, s) := PreparePlan(registry, EMPTY_STATE, task, graph, plan.payloads);
      if id.Err? then None else Some((s, id.value))
    case Some(bytes) =>
      match Taf97.Decode(registry, bytes)
      case Err(_) => None
      case Ok(s) =>
        if |s.plans.Keys| != 1 then None
        else
          assert s.plans.Keys != {};
          var id := Least(s.plans.Keys);
          if s.plans[id].taskId != task then None else Some((s, id))
  }

  /** Everything up to the point where the driver starts; `graph` is the task's, if the task exists. */
  ghost function Begin(setup: ChatSetup, approved: bool, task: u64, graph: Option<TaskGraph>, checkpoint: Option<Vec<byte>>, plan: AssistantPlan)
    : (r: Option<Begun>)
    ensures r.Some? ==> graph.Some? && r.value.plan in r.value.state.plans
  {
    if graph.None? || (ExternalWrites(plan) && !approved) then None
    else
      match Loaded(setup.registry(plan), task, graph.value, checkpoint, plan)
      case None => None
      case Some((s, id)) =>
        match Persisted(setup.registry(plan), s)
        case None => None
        case Some(bytes) => Some(Begun(s, id, bytes))
  }

  /******* A stretch of execution *******/

  datatype StretchEnd = Finished | Paused(checkpoint: Vec<byte>) | Lost

  /**
   What a stretch did: the events, the state of the fabric it left, whether it left an
   external write to be retried without a token, and what becomes of the conversation's copy.
   */
  datatype Stretch = Stretch(events: seq<Event>, state: FabricState, retry: bool, end: StretchEnd)

  /** The run may be resumed later. */
  predicate Resumable(r: Result<AssistantRun, DriverError>) {
    r.Err? && r.error.Incomplete?
    && (r.error.planStatus == PlanSuspended || r.error.actionStatus in {Some(Retryable), Some(Suspended)})
  }

  ghost function EndOf<E>(registry: Registry, k: Continued<E>, answerable: seq<Evidence> -> bool): (end: StretchEnd)
    ensures end.Paused? ==> Resumable(k.result)
  {
    if k.result.Ok? then if answerable(k.result.value.evidence) then Finished else Lost
    else if !Resumable(k.result) then Lost
    else
      match Persisted(registry, k.outcome.state)
      case None => Lost
      case Some(bytes) => Paused(bytes)
  }

  function ContinueBegun<E>(setup: ChatSetup, task: u64, graph: TaskGraph, plan: AssistantPlan, b: Begun, device: Device<E>): (k: Continued<E>)
    ensures b.plan in b.state.plans ==> b.plan in k.outcome.state.plans
  {
    Continue(Tools(setup.registry(plan), device.adapters, device.texts), b.state, device.env, b.plan, CognitiveTask(task, graph), plan,
             setup.authority(plan), device.verifiers)
  }

  /** A retry that the run itself met, as opposed to one it found and could not start. */
  predicate MetRetry<E>(k: Continued<E>, id: u64)
    requires id in k.outcome.state.plans
  {
    k.result.Err? && k.result.error.Incomplete? && NeedsReconfirm(k.outcome.state.plans[id])
  }

  ghost function RunBegun<E>(setup: ChatSetup, task: u64, graph: TaskGraph, plan: AssistantPlan, b: Begun, device: Device<E>): Stretch
    requires b.plan in b.state.plans
  {
    var k := ContinueBegun(setup, task, graph, plan, b, device);
    Stretch(k.outcome.events, k.outcome.state, MetRetry(k, b.plan), EndOf(setup.registry(plan), k, device.answerable))
  }

  /******* What a stretch can do *******/

  /** The commits among the events are of places from `lo` up to `hi`, each once, in order. */
  ghost predicate Commits(events: seq<Event>, lo: nat, hi: nat) {
    && (forall i :: 0 <= i < |events| && events[i].CommittedAt? ==> lo <= events[i].index < hi)
    && (forall i, j :: 0 <= i < j < |events| && events[i].CommittedAt? && events[j].CommittedAt? ==> events[i].index < events[j].index)
  }

  lemma CommitsJoined(a: seq<Event>, b: seq<Event>, lo: nat, mid: nat, hi: nat)
    requires Commits(a, lo, mid) && Commits(b, mid, hi) && lo <= mid <= hi
    ensures Commits(a + b, lo, hi)
  {
    var both := a + b;
    assert forall i :: 0 <= i < |both| ==> both[i] == if i < |a| then a[i] else b[i - |a|];
  }

  /** The same actions, further on. */
  ghost predicate Moved(p: PlanState, q: PlanState) {
    && q.taskId == p.taskId && p.cursor <= q.cursor && |p.actions| == |q.actions|
    && forall i :: 0 <= i < |p.actions| ==> SameRequest(p.actions[i], q.actions[i])
  }

  lemma MovedTwice(p: PlanState, q: PlanState, r: PlanState)
    requires Moved(p, q) && Moved(q, r)
    ensures Moved(p, r)
  {
    forall i | 0 <= i < |p.actions|
      ensures SameRequest(p.actions[i], r.actions[i])
    {
      assert SameRequest(p.actions[i], q.actions[i]) && SameRequest(q.actions[i], r.actions[i]);
    }
  }

  lemma StepMoves<E>(tools: Tools<E>, s: FabricState, env: E, plan: u64, authority: Authority, verifier: Verifier)
    requires plan in s.plans
    ensures var step := ExecuteNext(tools, s, env, plan, authority, verifier);
            && step.state.plans.Keys == s.plans.Keys
            && Moved(s.plans[plan], step.state.plans[plan])
            && Commits(step.events, s.plans[plan].cursor, step.state.plans[plan].cursor)
  {
    var p := s.plans[plan];
    if !Terminal(p.status) && p.cursor < |p.actions| {
      var a := p.actions[p.cursor];
      var d := Admit(tools.registry, a, authority);
      if d.Ok? {
        TurnAdvances(tools, env, a, d.value, verifier);
        TurnMoves(plan, p, RunAction(tools, env, a, d.value, verifier));
      }
    }
  }

  lemma TurnMoves<E>(plan: u64, p: PlanState, t: Turn<E>)
    requires p.cursor < |p.actions| && SameRequest(p.actions[p.cursor], t.action)
    ensures Moved(p, PlanAfter(p, t))
    ensures Commits(TurnEvents(plan, p.cursor, p.actions[p.cursor], t), p.cursor, PlanAfter(p, t).cursor)
  {
  }

  lemma {:induction false} RunMoves<E>(tools: Tools<E>, s: FabricState, env: E, plan: u64, authority: Authority, verifiers: Verifiers,
                                       n: nat, limit: nat)
    requires plan in s.plans
    ensures var o := RunFrom(tools, s, env, plan, authority, verifiers, n, limit);
            && o.state.plans.Keys == s.plans.Keys
            && Moved(s.plans[plan], o.state.plans[plan])
            && Commits(o.events, s.plans[plan].cursor, o.state.plans[plan].cursor)
    decreases limit - n
  {
    hide ExecuteNext, Stops, Moved, Commits;
    if n < limit {
      var step := ExecuteNext(tools, s, env, plan, authority, verifiers(n));
      StepMoves(tools, s, env, plan, authority, verifiers(n));
      if step.result.Ok? && step.result.value.planStatus != PlanCompleted && !Stops(step.result.value) {
        RunMoves(tools, step.state, step.env, plan, authority, verifiers, n + 1, limit);
        var o := RunFrom(tools, step.state, step.env, plan, authority, verifiers, n + 1, limit);
        var p, q, r := s.plans[plan], step.state.plans[plan], o.state.plans[plan];
        MovedTwice(p, q, r);
        CursorsMove(p, q);
        CursorsMove(q, r);
        CommitsJoined(step.events, o.events, p.cursor, q.cursor, r.cursor);
      }
    } else {
      StaysPut(s.plans[plan]);
    }
  }

  lemma CursorsMove(p: PlanState, q: PlanState)
    requires Moved(p, q)
    ensures p.cursor <= q.cursor
  {
  }

  lemma StaysPut(p: PlanState)
    ensures Moved(p, p) && Commits([], p.cursor, p.cursor)
  {
  }

  lemma {:induction false} RunStaysValid<E>(tools: Tools<E>, s: FabricState, env: E, plan: u64, authority: Authority, verifiers: Verifiers,
                                            n: nat, limit: nat)
    requires ValidState(tools.registry, s)
    ensures ValidState(tools.registry, RunFrom(tools, s, env, plan, authority, verifiers, n, limit).state)
    decreases limit - n
  {
    hide ExecuteNext, Stops, ValidState;
    if n < limit {
      var step := ExecuteNext(tools, s, env, plan, authority, verifiers(n));
      ExecuteKeepsValid(tools, s, env, plan, authority, verifiers(n));
      if step.result.Ok? && step.result.value.planStatus != PlanCompleted && !Stops(step.result.value) {
        RunStaysValid(tools, step.state, step.env, plan, authority, verifiers, n + 1, limit);
      }
    }
  }

  /** Without adapters no call ever asks to be resumed. */
  lemma {:induction false} RunWithoutAdapters<E>(tools: Tools<E>, s: FabricState, env: E, plan: u64, authority: Authority, verifiers: Verifiers,
                                                 n: nat, limit: nat)
    requires tools.adapters == map[]
    ensures var o := RunFrom(tools, s, env, plan, authority, verifiers, n, limit);
            o.failure.Some? ==> !o.failure.value.Incomplete?
    decreases limit - n
  {
    hide Stops;
    if n < limit {
      NothingRuns(tools, s, env, plan, authority, verifiers(n));
    }
  }

  lemma NothingRuns<E>(tools: Tools<E>, s: FabricState, env: E, plan: u64, authority: Authority, verifier: Verifier)
    requires tools.adapters == map[]
    ensures var r := ExecuteNext(tools, s, env, plan, authority, verifier).result;
            r.Ok? ==> r.value.planStatus == PlanCompleted
  {
  }

  /** A begun fabric is valid and holds only the plan of the task. */
  ghost predicate Sole(registry: Registry, task: u64, s: FabricState, id: u64) {
    ValidState(registry, s) && s.plans.Keys == {id} && s.plans[id].taskId == task
  }

  lemma LoadedIsSole(registry: Registry, task: u64, graph: TaskGraph, checkpoint: Option<Vec<byte>>, plan: AssistantPlan)
    requires Loaded(registry, task, graph, checkpoint, plan).Some?
    ensures var (s, id) := Loaded(registry, task, graph, checkpoint, plan).value;
            Sole(registry, task, s, id)
  {
    hide ValidState, CheckNodes, Taf97.Parse;
    var (s, id) := Loaded(registry, task, graph, checkpoint, plan).value;
    match checkpoint
    case None =>
      EmptyStateIsValid(registry);
      PrepareKeepsValid(registry, EMPTY_STATE, task, graph, plan.payloads);
    case Some(bytes) =>
      OneKey(s.plans.Keys, id);
  }

  lemma OneKey(keys: set<u64>, id: u64)
    requires |keys| == 1 && id in keys
    ensures keys == {id}
  {
    assert |keys - {id}| == 0;
  }

  /** Loading what was stored of a begun fabric gives that fabric again. */
  lemma StoredIsLoaded(registry: Registry, task: u64, graph: TaskGraph, plan: AssistantPlan, s: FabricState, id: u64)
    requires Sole(registry, task, s, id) && Persisted(registry, s).Some?
    ensures Loaded(registry, task, graph, Persisted(registry, s), plan) == Some((s, id))
  {
    hide ValidState, Taf97.Decode, Taf97.Parse, Taf97.Encode, Taf97.Encodable, Taf97.Payload;
    EncodingLength(s);
    Taf97.DecodeOfEncode(registry, s, Taf97Format.MINOR);
  }

  lemma EncodingLength(s: FabricState)
    ensures |Taf97.Encode(s)| == Taf97Format.HEADER_LEN + |Taf97.Payload(s)|
  {
    Taf97.HeaderLength(Taf97Format.MINOR, |Taf97.Payload(s)|, Taf97.Payload(s));
  }

  lemma StopTells<E>(tools: Tools<E>, s: FabricState, env: E, plan: u64, authority: Authority, verifier: Verifier)
    requires plan in s.plans
    requires var step := ExecuteNext(tools, s, env, plan, authority, verifier); step.result.Ok? && Stops(step.result.value)
    ensures var step := ExecuteNext(tools, s, env, plan, authority, verifier);
            var q := step.state.plans[plan];
            q.cursor < |q.actions| && step.result.value.actionStatus == Some(q.actions[q.cursor].status)
  {
    hide RunAction;
    var p := s.plans[plan];
    if !Terminal(p.status) && p.cursor < |p.actions| {
      var a := p.actions[p.cursor];
      var d := Admit(tools.registry, a, authority);
      if d.Ok? {
        TurnAdvances(tools, env, a, d.value, verifier);
        StoppingTurnStays(p, RunAction(tools, env, a, d.value, verifier));
      }
    }
  }

  lemma StoppingTurnStays<E>(p: PlanState, t: Turn<E>)
    requires p.cursor < |p.actions| && (t.advances ==> t.action.status == Committed)
    requires var r := TurnResult(p.id, PlanAfter(p, t), t); r.Ok? && Stops(r.value)
    ensures PlanAfter(p, t).cursor == p.cursor
  {
  }

  /** A run that stops incomplete reports the status of the action it left at the cursor. */
  lemma {:induction false} IncompleteTells<E>(tools: Tools<E>, s: FabricState, env: E, plan: u64, authority: Authority, verifiers: Verifiers,
                                              n: nat, limit: nat)
    requires plan in s.plans
    ensures var o := RunFrom(tools, s, env, plan, authority, verifiers, n, limit);
            o.failure.Some? && o.failure.value.Incomplete? ==>
              var q := o.state.plans[plan];
              q.cursor < |q.actions| && o.failure.value.actionStatus == Some(q.actions[q.cursor].status)
    decreases limit - n
  {
    hide ExecuteNext, Stops;
    if n < limit {
      var step := ExecuteNext(tools, s, env, plan, authority, verifiers(n));
      StepMoves(tools, s, env, plan, authority, verifiers(n));
      if step.result.Ok? && step.result.value.planStatus != PlanCompleted {
        if Stops(step.result.value) {
          StopTells(tools, s, env, plan, authority, verifiers(n));
        } else {
          IncompleteTells(tools, step.state, step.env, plan, authority, verifiers, n + 1, limit);
        }
      }
    }
  }

  /** The side effect of the action an event is about. */
  function Effect(p: PlanState, e: Event): SideEffect {
    if e.index < |p.actions| then p.actions[e.index].sideEffect else ReadOnly
  }

  predicate CommitsWrite(p: PlanState, e: Event) {
    e.CommittedAt? && Effect(p, e) == ExternalWrite
  }

  /** What any stretch of a begun fabric does. */
  ghost predicate SoundStretch(registry: Registry, task: u64, b: Begun, run: Stretch)
    requires b.plan in b.state.plans
  {
    && Sole(registry, task, run.state, b.plan)
    && var p, q := b.state.plans[b.plan], run.state.plans[b.plan];
    && p.cursor <= q.cursor && Commits(run.events, p.cursor, q.cursor)
    && (run.end.Paused? ==> Persisted(registry, run.state) == Some(run.end.checkpoint))
    && (run.retry ==> (run.end.Lost? <==> !Fits(run.state)) && !run.end.Finished?)
  }

  lemma ContinueMoves<E>(setup: ChatSetup, task: u64, graph: TaskGraph, plan: AssistantPlan, b: Begun, device: Device<E>)
    requires Sole(setup.registry(plan), task, b.state, b.plan)
    ensures var k := ContinueBegun(setup, task, graph, plan, b, device);
            && Sole(setup.registry(plan), task, k.outcome.state, b.plan)
            && Moved(b.state.plans[b.plan], k.outcome.state.plans[b.plan])
            && Commits(k.outcome.events, b.state.plans[b.plan].cursor, k.outcome.state.plans[b.plan].cursor)
            && (MetRetry(k, b.plan) ==> Resumable(k.result))
  {
    hide RunFrom, Commits, ValidState, SamePlan, Collected;
    var tools := Tools(setup.registry(plan), device.adapters, device.texts);
    var limit := |plan.graph.actions|;
    StaysPut(b.state.plans[b.plan]);
    RunMoves(tools, b.state, device.env, b.plan, setup.authority(plan), device.verifiers, 0, limit);
    RunStaysValid(tools, b.state, device.env, b.plan, setup.authority(plan), device.verifiers, 0, limit);
    IncompleteTells(tools, b.state, device.env, b.plan, setup.authority(plan), device.verifiers, 0, limit);
  }

  lemma StretchIsSound<E>(setup: ChatSetup, task: u64, graph: TaskGraph, plan: AssistantPlan, b: Begun, device: Device<E>)
    requires Sole(setup.registry(plan), task, b.state, b.plan)
    ensures SoundStretch(setup.registry(plan), task, b, RunBegun(setup, task, graph, plan, b, device))
  {
    hide ContinueBegun, Commits, ValidState, Fits, NeedsReconfirm;
    ContinueMoves(setup, task, graph, plan, b, device);
  }

  /** The run ended in a way that the conversation keeps: answered within budget, or resumable with a state that fits. */
  predicate Kept<E>(k: Continued<E>, answerable: seq<Evidence> -> bool) {
    if k.result.Ok? then answerable(k.result.value.evidence) else Resumable(k.result) && Fits(k.outcome.state)
  }

  /** When the conversation does not keep what a stretch did. */
  lemma LostExactly<E>(setup: ChatSetup, task: u64, graph: TaskGraph, plan: AssistantPlan, b: Begun, device: Device<E>)
    requires Sole(setup.registry(plan), task, b.state, b.plan)
    ensures RunBegun(setup, task, graph, plan, b, device).end.Lost?
            <==> !Kept(ContinueBegun(setup, task, graph, plan, b, device), device.answerable)
  {
    hide ContinueBegun, Commits, ValidState, Fits, NeedsReconfirm;
    ContinueMoves(setup, task, graph, plan, b, device);
  }

  lemma SamePlanSameWrites(p: PlanState, q: PlanState, task: CognitiveTask, plan: AssistantPlan, k: nat)
    requires SamePlan(p, task, plan) && !ExternalWrites(plan) && Moved(p, q) && k < |p.actions|
    ensures p.actions[k].sideEffect != ExternalWrite && q.actions[k].sideEffect != ExternalWrite
  {
    assert SameStep(p.actions[k], plan.graph.actions[k], plan);
    assert SameRequest(p.actions[k], q.actions[k]);
  }

  /** A plan without external writes never commits or retries one. */
  lemma NoWritesNoRetry<E>(setup: ChatSetup, task: u64, graph: TaskGraph, plan: AssistantPlan, b: Begun, device: Device<E>)
    requires Sole(setup.registry(plan), task, b.state, b.plan) && !ExternalWrites(plan)
    ensures var run := RunBegun(setup, task, graph, plan, b, device);
            !run.retry && forall e :: e in run.events ==> !CommitsWrite(b.state.plans[b.plan], e)
  {
    hide Commits, ValidState, Fits, ExternalWrites, RunFrom, SamePlan, Collected;
    ContinueMoves(setup, task, graph, plan, b, device);
    var k := ContinueBegun(setup, task, graph, plan, b, device);
    var p, q := b.state.plans[b.plan], k.outcome.state.plans[b.plan];
    if SamePlan(p, CognitiveTask(task, graph), plan) {
      forall i: nat | i < |p.actions|
        ensures p.actions[i].sideEffect != ExternalWrite && q.actions[i].sideEffect != ExternalWrite
      {
        SamePlanSameWrites(p, q, CognitiveTask(task, graph), plan, i);
      }
    }
  }

  /** A device without adapters neither commits nor retries anything. */
  lemma NoAdaptersNoRetry<E>(setup: ChatSetup, task: u64, graph: TaskGraph, plan: AssistantPlan, b: Begun, device: Device<E>)
    requires b.plan in b.state.plans && device.adapters == map[]
    ensures !RunBegun(setup, task, graph, plan, b, device).retry
  {
    hide Persisted, NeedsReconfirm, RunFrom;
    var tools := Tools(setup.registry(plan), device.adapters, device.texts);
    RunWithoutAdapters(tools, b.state, device.env, b.plan, setup.authority(plan), device.verifiers, 0, |plan.graph.actions|);
  }

  /******* The method *******/

  datatype Executed = Refused | PreparedAs(checkpoint: Vec<byte>) | CheckpointedAs(checkpoint: Vec<byte>, requiresReconfirm: bool) | Answered

  /** What the caller is told, given how far execution came. */
  ghost function Told<E>(setup: ChatSetup, approved: bool, task: u64, graph: Option<TaskGraph>, checkpoint: Option<Vec<byte>>,
                         plan: AssistantPlan, device: Device<E>, prepareOnly: bool): Executed {
    var b := Begin(setup, approved, task, graph, checkpoint, plan);
    if !device.ready || b.None? then Refused
    else if prepareOnly then PreparedAs(b.value.stored)
    else
      var run := RunBegun(setup, task, graph.value, plan, b.value, device);
      match run.end
      case Finished => Answered
      case Paused(bytes) => CheckpointedAs(bytes, run.retry)
      case Lost => Refused
  }

  method Persist(registry: Registry, s: FabricState) returns (r: Option<Vec<byte>>)
    ensures r == Persisted(registry, s)
  {
    hide ValidState, Taf97.Encodable, Taf97.Encode, Taf97.Payload;
    EncodingLength(s);
    var encoded := Taf97Streams.EncodeCheckpoint(registry, s);
    if encoded.Err? || |encoded.value| > MAX_CHECKPOINT_BYTES { return None; }
    r := Some(encoded.value);
  }

  /** The fabric restored from the checkpoint or prepared for the task, and the plan to run. */
  method OpenFabric<E>(tools: Tools<E>, task: u64, graph: TaskGraph, checkpoint: Option<Vec<byte>>, plan: AssistantPlan, env: E)
    returns (r: Option<(ActionFabric<E>, u64)>)
    ensures r.Some? ==> fresh(r.value.0) && r.value.0.tools == tools && r.value.0.env == env && r.value.0.log == []
    ensures Loaded(tools.registry, task, graph, checkpoint, plan) == if r.Some? then Some((r.value.0.state, r.value.1)) else None
  {
    hide ValidState, CheckNodes, Taf97.Parse;
    if checkpoint.None? {
      var fabric := new ActionFabric(tools, EMPTY_STATE, env);
      var prepared := fabric.PreparePlan(task, graph, plan.payloads);
      if prepared.Err? { return None; }
      return Some((fabric, prepared.value));
    }
    var decoded := Taf97Streams.DecodeCheckpoint(tools.registry, checkpoint.value);
    if decoded.Err? { return None; }
    var restored := Validation.FromState(tools, decoded.value, env);
    if restored.Err? { return None; }
    var fabric := restored.value;
    if |fabric.state.plans.Keys| != 1 { return None; }
    assert fabric.state.plans.Keys != {};
    var id := Least(fabric.state.plans.Keys);
    if fabric.state.plans[id].taskId != task { return None; }
    r := Some((fabric, id));
  }

  /** Drives the plan of an opened fabric and stores what is left of it. */
  method DriveAndStore<E>(fabric: ActionFabric<E>, id: u64, task: CognitiveTask, plan: AssistantPlan, authority: Authority, device: Device<E>)
    returns (r: Executed)
    requires id in fabric.state.plans
    modifies fabric
    ensures var k := Continue(fabric.tools, old(fabric.state), old(fabric.env), id, task, plan, authority, device.verifiers);
            && fabric.state == k.outcome.state && fabric.log == old(fabric.log) + k.outcome.events
            && r == match EndOf(fabric.tools.registry, k, device.answerable)
                    case Finished => Answered
                    case Paused(bytes) => CheckpointedAs(bytes, NeedsReconfirm(fabric.state.plans[id]))
                    case Lost => Refused
  {
    hide Continue, Persisted;
    var run, _ := ContinueVerified(fabric, id, task, plan, authority, device.verifiers);
    if run.Ok? {
      return if device.answerable(run.value.evidence) then Answered else Refused;
    }
    if !Resumable(run) { return Refused; }
    var reconfirm := NeedsReconfirm(fabric.state.plans[id]);
    var stored := Persist(fabric.tools.registry, fabric.state);
    r := if stored.None? then Refused else CheckpointedAs(stored.value, reconfirm);
  }

  /**
   Executes a plan on the device, or only prepares it; `run` is the stretch of execution
   there was, if the driver was started.
   */
  method ExecuteActions<E>(setup: ChatSetup, approved: bool, task: u64, graph: Option<TaskGraph>, checkpoint: Option<Vec<byte>>,
                           plan: AssistantPlan, device: Device<E>, prepareOnly: bool)
    returns (r: Executed, ghost run: Option<Stretch>)
    ensures r == Told(setup, approved, task, graph, checkpoint, plan, device, prepareOnly)
    ensures var b := Begin(setup, approved, task, graph, checkpoint, plan);
            run == if device.ready && b.Some? && !prepareOnly then Some(RunBegun(setup, task, graph.value, plan, b.value, device)) else None
  {
    hide Loaded, Persisted, ExternalWrites, Continue, EndOf, NeedsReconfirm;
    run := None;
    if !device.ready || graph.None? || (ExternalWrites(plan) && !approved) { return Refused, run; }
    var tools := Tools(setup.registry(plan), device.adapters, device.texts);
    var found := OpenFabric(tools, task, graph.value, checkpoint, plan, device.env);
    if found.None? { return Refused, run; }
    var (fabric, id) := found.value;
    var stored := Persist(tools.registry, fabric.state);
    if stored.None? { return Refused, run; }
    if prepareOnly { return PreparedAs(stored.value), run; }
    ghost var b := Begun(fabric.state, id, stored.value);
    run := Some(RunBegun(setup, task, graph.value, plan, b, device));
    r := DriveAndStore(fabric, id, CognitiveTask(task, graph.value), plan, setup.authority(plan), device);
  }
}
