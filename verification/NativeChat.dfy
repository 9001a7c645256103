/** The shared chat state as the bridge changes it, call by call. */
module NativeChat {
  import opened Wrappers
  import opened Bytes
  import opened Actions
  import opened FabricModel
  import opened AssistantDriver
  import opened PlanText
  import opened PlanParser
  import opened ChatExecution
  import opened Approvals
  import opened ApprovalSafety

  class NativeChatState {
    const setup: ChatSetup
    var conversation: Conversation
    var session: Option<ChatSession>
    var nextRequest: u64
    ghost var log: seq<ChatEvent>

    ghost function Value(): ChatState
      reads this
    {
      ChatState(conversation, session, nextRequest)
    }

    /** So far external writes ran only as approved and committed once per approval, and what can be run now was approved and is past them. */
    ghost predicate Safe()
      reads this
    {
      Guaranteed(setup, Value(), log)
    }

    constructor (setup: ChatSetup)
      ensures this.setup == setup && Value() == NEW_CHAT && log == [] && Safe()
    {
      this.setup := setup;
      conversation, session, nextRequest, log := Conversation(None, map[], map[], map[]), None, 1, [];
      new;
      NewChatIsSafe(setup);
    }

    method OpenSession(c: Conversation, task: u64, status: SessionStatus, ghost events: seq<ChatEvent>) returns (ok: bool)
      modifies this`conversation, this`session, this`nextRequest
      ensures var step := Opened(old(Value()), c, task, status, events); ok == step.ok && Value() == step.state && events == step.events
    {
      if nextRequest == U64_MAX { return false; }
      var request := nextRequest;
      nextRequest := nextRequest + 1;
      conversation := c;
      session := Some(ChatSession(request, task, status));
      ok := true;
    }

    /** `planned` is what the planner wrote. */
    method Submit<E>(task: u64, planned: Str, device: Device<E>) returns (ok: bool)
      modifies this
      ensures var step := AfterSubmit(setup, old(Value()), task, planned, device);
              ok == step.ok && Value() == step.state && log == old(log) + step.events
      ensures old(Safe()) ==> Safe()
    {
      hide Parse, ExternalWrites, Guaranteed, Begin, AfterPlanning;
      ghost var before, oldLog := Value(), log;
      if old(Safe()) {
        CallKeepsGuarantees(setup, before, oldLog, ChatCall<E>.Submit(task, planned, device));
      }
      if session.Some? && (session.value.status == ChatRunning || session.value.status == ChatWaiting) {
        return false;
      }
      if conversation.active.Some? {
        conversation := conversation.(active := None);
        session := None;
      }
      var c := conversation.(active := Some(ActiveTurn(task, None)), graphs := conversation.graphs[task := TaskGraph([])]);
      var decision := ParseNativePlan(planned);
      if decision.Err? || decision.value.Direct? {
        ok := OpenSession(c, task, ChatRunning, []);
        return;
      }
      var plan := decision.value.plan;
      if |plan.canonical| > MAX_TEXT_BYTES { return false; }
      c := c.(graphs := c.graphs[task := plan.graph], protocols := c.protocols[task := plan.canonical]);
      ok := StartPlan(c, task, plan, device);
    }

    /** Asks for approval of external writes, or executes the plan at once. */
    method StartPlan<E>(c: Conversation, task: u64, plan: AssistantPlan, device: Device<E>) returns (ok: bool)
      modifies this
      ensures var step := AfterPlanning(setup, old(Value()), c, task, plan, device);
              ok == step.ok && Value() == step.state && log == old(log) + step.events
    {
      hide ExternalWrites, Begin, RunBegun;
      if ExternalWrites(plan) {
        if !setup.supported(plan) { return false; }
        ok := OpenSession(c.(approvals := c.approvals[task := Pending]), task, ChatWaiting, []);
        return;
      }
      var executed, run := ExecuteActions(setup, false, task, Some(plan.graph), None, plan, device, false);
      ghost var events: seq<ChatEvent> := [];
      if run.Some? {
        var b := Begin(setup, false, task, Some(plan.graph), None, plan).value;
        events := StretchEvents(task, plan.canonical, false, b.state.plans[b.plan], run.value);
      }
      log := log + events;
      match executed {
        case Refused => ok := false;
        case CheckpointedAs(checkpoint, _) => ok := OpenSession(WithCheckpoint(c, task, Some(checkpoint)), task, ChatRunning, events);
        case Answered => ok := OpenSession(c, task, ChatRunning, events);
      }
    }

    method ReadStoredPlan(task: u64) returns (plan: Option<AssistantPlan>)
      ensures plan == StoredPlan(conversation, task)
    {
      hide Parse;
      if task !in conversation.protocols { return None; }
      var decision := ParseNativePlan(conversation.protocols[task]);
      plan := if decision.Ok? && decision.value.Planned? then Some(decision.value.plan) else None;
    }

    method Resolve<E>(request: u64, approve: bool, device: Device<E>) returns (ok: bool)
      modifies this
      ensures var step := AfterResolve(setup, old(Value()), request, approve, device);
              ok == step.ok && Value() == step.state && log == old(log) + step.events
      ensures old(Safe()) ==> Safe()
    {
      hide StoredPlan, ExternalWrites, Guaranteed, Begin;
      ghost var before, oldLog := Value(), log;
      if old(Safe()) {
        CallKeepsGuarantees(setup, before, oldLog, ChatCall<E>.Resolve(request, approve, device));
      }
      if session.None? || session.value.request != request || session.value.status != ChatWaiting { return false; }
      var task := session.value.task;
      if task !in conversation.approvals || conversation.approvals[task] !in {Pending, Reconfirm, ApprovedExecuting} { return false; }
      if conversation.active.None? || conversation.active.value.task != task { return false; }
      if !approve {
        conversation := conversation.(approvals := conversation.approvals[task := Denied], active := None);
        session := Some(session.value.(status := ChatCancelled));
        return true;
      }
      var plan := ReadStoredPlan(task);
      if plan.None? || !ExternalWrites(plan.value) || !setup.supported(plan.value) { return false; }
      var executed, _ := ExecuteActions(setup, true, task, GraphOf(conversation, task), conversation.active.value.checkpoint, plan.value, device, true);
      if !executed.PreparedAs? { return false; }
      log := log + [UserApproved(task, conversation.protocols[task])];
      conversation := conversation.(active := Some(ActiveTurn(task, Some(executed.checkpoint))),
                                    approvals := conversation.approvals[task := ApprovedExecuting]);
      session := Some(session.value.(status := ChatRunning));
      ok := true;
    }

    /** Keeps the guarantees unless the run loses a retry or a write. */
    method Advance<E>(request: u64, device: Device<E>) returns (ok: bool)
      modifies this
      ensures var step := AfterAdvance(setup, old(Value()), request, device);
              ok == step.ok && Value() == step.state && log == old(log) + step.events
      ensures var call := ChatCall<E>.Advance(request, device);
              old(Safe()) && !LosesRetry(setup, old(Value()), call) && !LosesWrite(setup, old(Value()), call) ==> Safe()
    {
      hide StoredPlan, ExternalWrites, Guaranteed, LosesRetry, LosesWrite, Begin, RunBegun, StretchEvents, AfterStretch;
      ghost var before, oldLog := Value(), log;
      ghost var call := ChatCall<E>.Advance(request, device);
      if old(Safe()) && !LosesRetry(setup, before, call) && !LosesWrite(setup, before, call) {
        CallKeepsGuarantees(setup, before, oldLog, call);
      }
      if session.None? || session.value.request != request || session.value.status != ChatRunning { return false; }
      var task := session.value.task;
      if conversation.active.None? || conversation.active.value.task != task || conversation.active.value.checkpoint.None? { return false; }
      var plan := ReadStoredPlan(task);
      if plan.None? { return false; }
      if ExternalWrites(plan.value) && !setup.supported(plan.value) { return false; }
      ok := RunStored(request, plan.value, device);
    }

    /** Executes the stored plan of the running request and keeps what is left of it. */
    method RunStored<E>(request: u64, plan: AssistantPlan, device: Device<E>) returns (ok: bool)
      requires InSession(Value(), request, ChatRunning) && ActiveIs(conversation, session.value.task)
      requires conversation.active.value.checkpoint.Some? && StoredPlan(conversation, session.value.task) == Some(plan)
      requires ExternalWrites(plan) ==> setup.supported(plan)
      modifies this
      ensures var step := AfterAdvance(setup, old(Value()), request, device);
              ok == step.ok && Value() == step.state && log == old(log) + step.events
    {
      hide StoredPlan, ExternalWrites, Begin, RunBegun, StretchEvents, Settled;
      var task := session.value.task;
      var external := ExternalWrites(plan);
      var approved := task in conversation.approvals && conversation.approvals[task] == ApprovedExecuting;
      ghost var b := Begin(setup, approved, task, GraphOf(conversation, task), conversation.active.value.checkpoint, plan);
      var executed, run := ExecuteActions(setup, approved, task, GraphOf(conversation, task), conversation.active.value.checkpoint, plan, device, false);
      ghost var events: seq<ChatEvent> := [];
      if run.Some? {
        events := StretchEvents(task, conversation.protocols[task], external, b.value.state.plans[b.value.plan], run.value);
      }
      log := log + events;
      ok := StoreOutcome(task, external, executed, events);
    }

    /** What the conversation keeps of a stretch of execution. */
    method StoreOutcome(task: u64, external: bool, executed: Executed, ghost events: seq<ChatEvent>) returns (ok: bool)
      requires session.Some? && session.value.task == task && !executed.PreparedAs?
      modifies this`conversation, this`session
      ensures var step := AfterStretch(old(Value()), external, EndOfExecuted(executed), executed.CheckpointedAs? && executed.requiresReconfirm, events);
              ok == step.ok && Value() == step.state && events == step.events
    {
      match executed {
        case Refused => return false;
        case Answered =>
          if external && task !in conversation.approvals { return false; }
          conversation := conversation.(active := Some(ActiveTurn(task, None)));
          if external {
            conversation := conversation.(approvals := conversation.approvals[task := ApprovedDone]);
          }
        case CheckpointedAs(checkpoint, reconfirm) =>
          if reconfirm {
            if task !in conversation.approvals { return false; }
            conversation := conversation.(approvals := conversation.approvals[task := Reconfirm]);
          }
          conversation := conversation.(active := Some(ActiveTurn(task, Some(checkpoint))));
      }
      if task in conversation.approvals && conversation.approvals[task] == Reconfirm {
        session := Some(session.value.(status := ChatWaiting));
      }
      ok := true;
    }

    method Cancel(request: u64) returns (ok: bool)
      modifies this
      ensures var step := AfterCancel(old(Value()), request); ok == step.ok && Value() == step.state && log == old(log)
      ensures old(Safe()) ==> Safe()
    {
      hide Guaranteed;
      if old(Safe()) {
        CallKeepsGuarantees(setup, Value(), log, ChatCall<()>.Cancel(request));
        assert log + [] == log;
      }
      if session.None? || session.value.request != request || session.value.status !in {ChatRunning, ChatWaiting} { return false; }
      if conversation.active.Some? && conversation.active.value.task == session.value.task {
        conversation := conversation.(active := None);
      }
      session := Some(session.value.(status := ChatCancelled));
      ok := true;
    }

    /** Keeps the guarantees unless the session of the old conversation can go on with the new one. */
    method RestoreCheckpoint(c: Conversation) returns (ok: bool)
      modifies this
      ensures var step := AfterRestore(old(Value()), c);
              ok == step.ok && Value() == step.state && log == old(log) + step.events
      ensures old(Safe()) && !LosesSession(setup, old(Value()), ChatCall<()>.Restore(c)) ==> Safe()
    {
      hide Guaranteed, LosesSession;
      if old(Safe()) && !LosesSession(setup, Value(), ChatCall<()>.Restore(c)) {
        CallKeepsGuarantees(setup, Value(), log, ChatCall<()>.Restore(c));
      }
      log := log + [Restored];
      conversation := c;
      if c.active.None? {
        session := None;
        return true;
      }
      var task := c.active.value.task;
      if nextRequest == U64_MAX { return false; }
      var request := nextRequest;
      nextRequest := nextRequest + 1;
      var known := task in c.approvals;
      if known && c.approvals[task] == ApprovedExecuting {
        conversation := c.(approvals := c.approvals[task := Reconfirm]);
      }
      var waiting := known && c.approvals[task] in {Pending, Reconfirm, ApprovedExecuting};
      session := Some(ChatSession(request, task, if waiting then ChatWaiting else ChatRunning));
      ok := true;
    }
  }

  function EndOfExecuted(executed: Executed): StretchEnd
    requires !executed.PreparedAs?
  {
    match executed
    case Refused => Lost
    case CheckpointedAs(checkpoint, _) => Paused(checkpoint)
    case Answered => Finished
  }

  ghost predicate Guaranteed(setup: ChatSetup, s: ChatState, log: seq<ChatEvent>) {
    SafeLog(log) && Approved(setup, s, log) && Once(log) && Behind(setup, s, log)
  }

  lemma CallKeepsGuarantees<E>(setup: ChatSetup, s: ChatState, log: seq<ChatEvent>, call: ChatCall<E>)
    requires Guaranteed(setup, s, log)
    requires !LosesRetry(setup, s, call) && !LosesWrite(setup, s, call) && !LosesSession(setup, s, call)
    ensures Guaranteed(setup, AfterCall(setup, s, call).state, log + AfterCall(setup, s, call).events)
  {
    hide SafeLog, Approved, Once, Behind, AfterCall, LosesRetry, LosesWrite, LosesSession;
    StepIsSafe(setup, s, log, call);
    StepIsOnce(setup, s, log, call);
  }
}
