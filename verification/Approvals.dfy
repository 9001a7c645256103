/**
 The approval protocol of a chat. A plan with external writes is prepared and run only after
 the user approved it; each call is one step, and what the planner and the device do is a
 parameter of the call.
 */
module Approvals {
  import opened Wrappers
  import opened Bytes
  import opened Actions
  import opened FabricModel
  import opened AssistantDriver
  import opened PlanText
  import opened ChatExecution

  const MAX_TEXT_BYTES := 1024 * 1024

  datatype Approval = Pending | ApprovedExecuting | ApprovedDone | Denied | Reconfirm

  /** The turn in progress, with the encoded state of its action fabric. */
  datatype ActiveTurn = ActiveTurn(task: u64, checkpoint: Option<Vec<byte>>)

  /** `graphs` are the cognitive tasks, `protocols` the stored texts of their plans. */
  datatype Conversation = Conversation(active: Option<ActiveTurn>, graphs: map<u64, TaskGraph>, protocols: map<u64, Str>,
                                       approvals: map<u64, Approval>)

  datatype SessionStatus = ChatRunning | ChatWaiting | ChatComplete | ChatCancelled | ChatFailed

  datatype ChatSession = ChatSession(request: u64, task: u64, status: SessionStatus)

  datatype ChatState = ChatState(conversation: Conversation, session: Option<ChatSession>, nextRequest: u64)

  const NEW_CHAT := ChatState(Conversation(None, map[], map[], map[]), None, 1)

  datatype ChatCall<!E> =
    | Submit(task: u64, planned: Str, device: Device<E>)
    | Resolve(request: u64, approve: bool, device: Device<E>)
    | Advance(request: u64, device: Device<E>)
    | Cancel(request: u64)
    | FinishTurn(request: u64)
    | TakeCheckpoint
    | Restore(conversation: Conversation)

  /**
   What happens: the user approves the plan a protocol spells; the driver is started on such a
   plan; the fabric does something about an action with that side effect; a run ends with an
   external write that is to be retried without a token; a conversation is restored.
   */
  datatype ChatEvent =
    | UserApproved(task: u64, protocol: Str)
    | PlanRan(task: u64, protocol: Str, external: bool)
    | Acted(task: u64, effect: SideEffect, event: Event)
    | TokenlessRetry(task: u64)
    | Restored

  datatype ChatStep = ChatStep(ok: bool, state: ChatState, events: seq<ChatEvent>)

  function Refusal(s: ChatState): ChatStep {
    ChatStep(false, s, [])
  }

  predicate ActiveIs(c: Conversation, task: u64) {
    c.active.Some? && c.active.value.task == task
  }

  function WithCheckpoint(c: Conversation, task: u64, checkpoint: Option<Vec<byte>>): Conversation {
    c.(active := Some(ActiveTurn(task, checkpoint)))
  }

  predicate InSession(s: ChatState, request: u64, status: SessionStatus) {
    s.session.Some? && s.session.value.request == request && s.session.value.status == status
  }

  predicate SessionActive(s: ChatState) {
    s.session.Some? && s.session.value.status in {ChatRunning, ChatWaiting}
  }

  /** The plan a stored protocol spells. */
  function StoredPlan(c: Conversation, task: u64): (plan: Option<AssistantPlan>)
    ensures plan.Some? ==> task in c.protocols
  {
    if task !in c.protocols then None
    else
      match Parse(c.protocols[task])
      case Err(_) => None
      case Ok(Direct) => None
      case Ok(Planned(plan)) => Some(plan)
  }

  function GraphOf(c: Conversation, task: u64): Option<TaskGraph> {
    if task in c.graphs then Some(c.graphs[task]) else None
  }

  predicate Has(c: Conversation, task: u64, approval: Approval) {
    task in c.approvals && c.approvals[task] == approval
  }

  function Acts(task: u64, p: PlanState, events: seq<Event>): (acts: seq<ChatEvent>)
    ensures |acts| == |events| && forall i :: 0 <= i < |acts| ==> acts[i] == Acted(task, Effect(p, events[i]), events[i])
  {
    seq(|events|, i requires 0 <= i < |events| => Acted(task, Effect(p, events[i]), events[i]))
  }

  /** All that happens in a stretch of execution of a plan. */
  function StretchEvents(task: u64, protocol: Str, external: bool, p: PlanState, run: Stretch): seq<ChatEvent> {
    [PlanRan(task, protocol, external)] + Acts(task, p, run.events) + (if run.retry then [TokenlessRetry(task)] else [])
  }

  /** The session of a new request, unless request ids have run out. */
  function Opened(left: ChatState, c: Conversation, task: u64, status: SessionStatus, events: seq<ChatEvent>): ChatStep {
    if left.nextRequest == U64_MAX then ChatStep(false, left, events)
    else ChatStep(true, ChatState(c, Some(ChatSession(left.nextRequest, task, status)), left.nextRequest + 1), events)
  }

  /** A turn left over from a session that ended is cancelled. */
  function WithoutOrphan(s: ChatState): ChatState {
    if s.conversation.active.Some? then s.(conversation := s.conversation.(active := None), session := None) else s
  }

  function BegunTurn(c: Conversation, task: u64): Conversation {
    c.(active := Some(ActiveTurn(task, None)), graphs := c.graphs[task := TaskGraph([])])
  }

  function WithPlan(c: Conversation, task: u64, plan: AssistantPlan): Conversation {
    c.(graphs := c.graphs[task := plan.graph], protocols := c.protocols[task := plan.canonical])
  }

  /** A new request, for which the planner produced the text `planned`. */
  ghost function AfterSubmit<E>(setup: ChatSetup, s: ChatState, task: u64, planned: Str, device: Device<E>): ChatStep {
    if SessionActive(s) then Refusal(s)
    else
      var left := WithoutOrphan(s);
      var begun := BegunTurn(left.conversation, task);
      match Parse(planned)
      case Err(_) => Opened(left, begun, task, ChatRunning, [])
      case Ok(Direct) => Opened(left, begun, task, ChatRunning, [])
      case Ok(Planned(plan)) =>
        if |plan.canonical| > MAX_TEXT_BYTES then Refusal(left)
        else AfterPlanning(setup, left, WithPlan(begun, task, plan), task, plan, device)
  }

  /** External writes wait for the user; any other plan is executed at once. */
  ghost function AfterPlanning<E>(setup: ChatSetup, left: ChatState, c: Conversation, task: u64, plan: AssistantPlan, device: Device<E>): ChatStep {
    if ExternalWrites(plan) then
      if !setup.supported(plan) then Refusal(left)
      else Opened(left, c.(approvals := c.approvals[task := Pending]), task, ChatWaiting, [])
    else
      match Begin(setup, false, task, Some(plan.graph), None, plan)
      case None => Refusal(left)
      case Some(b) =>
        if !device.ready then Refusal(left)
        else
          var run := RunBegun(setup, task, plan.graph, plan, b, device);
          var events := StretchEvents(task, plan.canonical, false, b.state.plans[b.plan], run);
          match run.end
          case Lost => ChatStep(false, left, events)
          case Paused(checkpoint) => Opened(left, WithCheckpoint(c, task, Some(checkpoint)), task, ChatRunning, events)
          case Finished => Opened(left, c, task, ChatRunning, events)
  }

  /** The user's answer; an approved plan is prepared, or restored from its checkpoint, and stored. */
  ghost function AfterResolve<E>(setup: ChatSetup, s: ChatState, request: u64, approve: bool, device: Device<E>): ChatStep {
    if !InSession(s, request, ChatWaiting) then Refusal(s)
    else
      var task := s.session.value.task;
      var c := s.conversation;
      if task !in c.approvals || c.approvals[task] !in {Pending, Reconfirm, ApprovedExecuting} || !ActiveIs(c, task) then Refusal(s)
      else if !approve then
        ChatStep(true, s.(conversation := c.(approvals := c.approvals[task := Denied], active := None),
                          session := Some(s.session.value.(status := ChatCancelled))), [])
      else
        match StoredPlan(c, task)
        case None => Refusal(s)
        case Some(plan) =>
          var b := Begin(setup, true, task, GraphOf(c, task), c.active.value.checkpoint, plan);
          if !ExternalWrites(plan) || !setup.supported(plan) || b.None? || !device.ready then Refusal(s)
          else
            ChatStep(true, s.(conversation := WithCheckpoint(c, task, Some(b.value.stored)).(approvals := c.approvals[task := ApprovedExecuting]),
                              session := Some(s.session.value.(status := ChatRunning))),
                     [UserApproved(task, c.protocols[task])])
  }

  /** What an advance of the request would run: the stored plan, and the fabric it starts from. */
  ghost function Runnable(setup: ChatSetup, s: ChatState, request: u64): (r: Option<(AssistantPlan, Begun)>)
    ensures r.Some? ==>
              && InSession(s, request, ChatRunning) && ActiveIs(s.conversation, s.session.value.task)
              && s.session.value.task in s.conversation.protocols && s.session.value.task in s.conversation.graphs
              && r.value.1.plan in r.value.1.state.plans
  {
    if !InSession(s, request, ChatRunning) then None
    else
      var task := s.session.value.task;
      var c := s.conversation;
      if !ActiveIs(c, task) || c.active.value.checkpoint.None? then None
      else
        match StoredPlan(c, task)
        case None => None
        case Some(plan) =>
          if ExternalWrites(plan) && !setup.supported(plan) then None
          else
            match Begin(setup, Has(c, task, ApprovedExecuting), task, GraphOf(c, task), c.active.value.checkpoint, plan)
            case None => None
            case Some(b) => Some((plan, b))
  }

  /** One stretch of execution of the stored plan. */
  ghost function AfterAdvance<E>(setup: ChatSetup, s: ChatState, request: u64, device: Device<E>): ChatStep {
    match Runnable(setup, s, request)
    case None => Refusal(s)
    case Some((plan, b)) =>
      if !device.ready then Refusal(s)
      else
        var task := s.session.value.task;
        var run := RunBegun(setup, task, s.conversation.graphs[task], plan, b, device);
        AfterStretch(s, ExternalWrites(plan), run.end, run.retry,
                     StretchEvents(task, s.conversation.protocols[task], ExternalWrites(plan), b.state.plans[b.plan], run))
  }

  /** What a stretch of execution leaves; when the conversation's copy is lost, everything stays as it was. */
  function AfterStretch(s: ChatState, external: bool, end: StretchEnd, retry: bool, events: seq<ChatEvent>): ChatStep
    requires s.session.Some?
  {
    var task := s.session.value.task;
    var c := s.conversation;
    match end
    case Lost => ChatStep(false, s, events)
    case Finished =>
      var approvals := if external then c.approvals[task := ApprovedDone] else c.approvals;
      if external && task !in c.approvals then ChatStep(false, s, events)
      else ChatStep(true, Settled(s, WithCheckpoint(c, task, None).(approvals := approvals)), events)
    case Paused(checkpoint) =>
      if retry && task !in c.approvals then ChatStep(false, s, events)
      else
        var approvals := if retry then c.approvals[task := Reconfirm] else c.approvals;
        ChatStep(true, Settled(s, WithCheckpoint(c, task, Some(checkpoint)).(approvals := approvals)), events)
  }

  /** A request whose write must be confirmed again waits for the user. */
  function Settled(s: ChatState, c: Conversation): ChatState
    requires s.session.Some?
  {
    if Has(c, s.session.value.task, Reconfirm) then s.(conversation := c, session := Some(s.session.value.(status := ChatWaiting)))
    else s.(conversation := c)
  }

  function AfterCancel(s: ChatState, request: u64): ChatStep {
    if !SessionActive(s) || s.session.value.request != request then Refusal(s)
    else
      var c := s.conversation;
      ChatStep(true, s.(conversation := if ActiveIs(c, s.session.value.task) then c.(active := None) else c,
                        session := Some(s.session.value.(status := ChatCancelled))), [])
  }

  /** The answer is complete and nothing is left to execute: the turn ends. */
  function AfterFinish(s: ChatState, request: u64): ChatStep {
    if !InSession(s, request, ChatRunning) || !ActiveIs(s.conversation, s.session.value.task)
       || s.conversation.active.value.checkpoint.Some? then Refusal(s)
    else
      ChatStep(true, s.(conversation := s.conversation.(active := None), session := Some(s.session.value.(status := ChatComplete))), [])
  }

  /** Any decoded conversation whatever takes the place of the current one. */
  function AfterRestore(s: ChatState, c: Conversation): ChatStep {
    match c.active
    case None => ChatStep(true, s.(conversation := c, session := None), [Restored])
    case Some(turn) =>
      if s.nextRequest == U64_MAX then ChatStep(false, s.(conversation := c), [Restored])
      else
        var waiting := turn.task in c.approvals && c.approvals[turn.task] in {Pending, Reconfirm, ApprovedExecuting};
        var approvals := if Has(c, turn.task, ApprovedExecuting) then c.approvals[turn.task := Reconfirm] else c.approvals;
        ChatStep(true, ChatState(c.(approvals := approvals),
                                 Some(ChatSession(s.nextRequest, turn.task, if waiting then ChatWaiting else ChatRunning)),
                                 s.nextRequest + 1), [Restored])
  }

  ghost function AfterCall<E>(setup: ChatSetup, s: ChatState, call: ChatCall<E>): ChatStep {
    match call
    case Submit(task, planned, device) => AfterSubmit(setup, s, task, planned, device)
    case Resolve(request, approve, device) => AfterResolve(setup, s, request, approve, device)
    case Advance(request, device) => AfterAdvance(setup, s, request, device)
    case Cancel(request) => AfterCancel(s, request)
    case FinishTurn(request) => AfterFinish(s, request)
    case TakeCheckpoint => ChatStep(true, s, [])
    case Restore(c) => AfterRestore(s, c)
  }

  ghost function ChatRun<E>(setup: ChatSetup, calls: seq<ChatCall<E>>): ChatState {
    if |calls| == 0 then NEW_CHAT else AfterCall(setup, ChatRun(setup, calls[..|calls| - 1]), calls[|calls| - 1]).state
  }

  ghost function ChatLog<E>(setup: ChatSetup, calls: seq<ChatCall<E>>): seq<ChatEvent> {
    if |calls| == 0 then []
    else
      var before := calls[..|calls| - 1];
      ChatLog(setup, before) + AfterCall(setup, ChatRun(setup, before), calls[|calls| - 1]).events
  }
}
