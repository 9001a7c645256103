/**
 What the approval protocol guarantees along every sequence of calls, and exactly when it
 does: external writes are run only under a standing approval, and each commits at most once
 per approval.
 */
module ApprovalSafety {
  import opened Wrappers
  import opened Bytes
  import opened Actions
  import opened FabricModel
  import opened FabricInvariant
  import opened AssistantDriver
  import opened PlanText
  import opened ChatExecution
  import opened Approvals

  /******* The guarantees *******/

  /** At the end of the log the user's approval of that protocol stands: no restore and no tokenless retry came after it. */
  ghost predicate Stands(log: seq<ChatEvent>, task: u64, protocol: Str) {
    exists i :: 0 <= i < |log| && log[i] == UserApproved(task, protocol)
                && forall k :: i < k < |log| ==> log[k] != Restored && log[k] != TokenlessRetry(task)
  }

  /** The driver was started on plans with external writes only while the approval of exactly that plan stood. */
  ghost predicate SafeLog(log: seq<ChatEvent>) {
    forall j :: 0 <= j < |log| && log[j].PlanRan? && log[j].external ==> Stands(log[..j], log[j].task, log[j].protocol)
  }

  predicate Approves(e: ChatEvent, task: u64) {
    e.UserApproved? && e.task == task
  }

  /** An external write of the task was committed. */
  predicate Writes(e: ChatEvent, task: u64) {
    e.Acted? && e.task == task && e.effect == ExternalWrite && e.event.CommittedAt?
  }

  predicate SameWrite(e: ChatEvent, f: ChatEvent) {
    e.Acted? && Writes(e, e.task) && Writes(f, e.task) && e.event.index == f.event.index
  }

  ghost predicate ApprovedBetween(log: seq<ChatEvent>, i: nat, j: nat, task: u64)
    requires j <= |log|
  {
    exists k :: i < k < j && Approves(log[k], task)
  }

  /** Between two commits of the same external write the user approved it again. */
  ghost predicate Once(log: seq<ChatEvent>) {
    forall i, j :: 0 <= i < j < |log| && SameWrite(log[i], log[j]) ==> ApprovedBetween(log, i, j, log[i].task)
  }

  /******* What can go wrong *******/

  /** An advance that starts the driver, and what it does. */
  ghost predicate Starts<E>(setup: ChatSetup, s: ChatState, call: ChatCall<E>) {
    call.Advance? && call.device.ready && Runnable(setup, s, call.request).Some?
  }

  ghost function StretchOf<E>(setup: ChatSetup, s: ChatState, call: ChatCall<E>): Stretch
    requires Starts(setup, s, call)
  {
    var (plan, b) := Runnable(setup, s, call.request).value;
    RunBegun(setup, s.session.value.task, s.conversation.graphs[s.session.value.task], plan, b, call.device)
  }

  ghost function StartOf<E>(setup: ChatSetup, s: ChatState, call: ChatCall<E>): PlanState
    requires Starts(setup, s, call)
  {
    var (_, b) := Runnable(setup, s, call.request).value;
    b.state.plans[b.plan]
  }

  /** The run ends with a tokenless external retry, and its state is too large to be stored. */
  ghost predicate LosesRetry<E>(setup: ChatSetup, s: ChatState, call: ChatCall<E>) {
    Starts(setup, s, call) && StretchOf(setup, s, call).retry && !Fits(StretchOf(setup, s, call).state)
  }

  /** The run commits an external write and ends in a way that the conversation does not keep. */
  ghost predicate LosesWrite<E>(setup: ChatSetup, s: ChatState, call: ChatCall<E>) {
    && Starts(setup, s, call)
    && var (plan, b) := Runnable(setup, s, call.request).value;
    var k := ContinueBegun(setup, s.session.value.task, s.conversation.graphs[s.session.value.task], plan, b, call.device);
    && !Kept(k, call.device.answerable)
    && exists e :: e in StretchOf(setup, s, call).events && CommitsWrite(StartOf(setup, s, call), e)
  }

  /** The chat has a running session that could start a plan with external writes. */
  ghost predicate Live(setup: ChatSetup, s: ChatState) {
    && s.session.Some?
    && var r := Runnable(setup, s, s.session.value.request);
    r.Some? && ExternalWrites(r.value.0)
  }

  /**
   No request id is left for the session of the restored conversation, and the session of the
   old one could go on with it: it runs, on the task of the restored turn, whose plan was being
   executed as approved.
   */
  ghost predicate LosesSession<E>(setup: ChatSetup, s: ChatState, call: ChatCall<E>) {
    && call.Restore? && call.conversation.active.Some? && s.nextRequest == U64_MAX
    && Live(setup, s.(conversation := call.conversation))
  }

  /******* The invariants *******/

  /** Whatever could be run now was approved. */
  ghost predicate Approved(setup: ChatSetup, s: ChatState, log: seq<ChatEvent>) {
    Live(setup, s) ==> Stands(log, s.session.value.task, s.conversation.protocols[s.session.value.task])
  }

  /** Since the latest approval of the task, only external writes before place `n` were committed. */
  ghost predicate WrittenBelow(log: seq<ChatEvent>, task: u64, n: nat) {
    forall i :: 0 <= i < |log| && Writes(log[i], task) && log[i].event.index >= n ==> ApprovedBetween(log, i, |log|, task)
  }

  ghost predicate Behind(setup: ChatSetup, s: ChatState, log: seq<ChatEvent>) {
    Live(setup, s) ==>
      var (_, b) := Runnable(setup, s, s.session.value.request).value;
      WrittenBelow(log, s.session.value.task, b.state.plans[b.plan].cursor)
  }

  /******* Longer logs *******/

  lemma StandsLonger(log: seq<ChatEvent>, more: seq<ChatEvent>, task: u64, protocol: Str)
    requires Stands(log, task, protocol)
    requires forall e :: e in more ==> e != Restored && e != TokenlessRetry(task)
    ensures Stands(log + more, task, protocol)
  {
    var i :| 0 <= i < |log| && log[i] == UserApproved(task, protocol)
             && forall k :: i < k < |log| ==> log[k] != Restored && log[k] != TokenlessRetry(task);
    assert (log + more)[i] == log[i];
    forall k | i < k < |log + more|
      ensures (log + more)[k] != Restored && (log + more)[k] != TokenlessRetry(task)
    {
      assert k >= |log| ==> more[k - |log|] in more;
    }
  }

  lemma StandsNow(log: seq<ChatEvent>, task: u64, protocol: Str)
    ensures Stands(log + [UserApproved(task, protocol)], task, protocol)
  {
    assert (log + [UserApproved(task, protocol)])[|log|] == UserApproved(task, protocol);
  }

  lemma NothingStandsAfter(log: seq<ChatEvent>, more: seq<ChatEvent>, k: nat, task: u64, protocol: Str)
    requires k < |more| && (more[k] == Restored || more[k] == TokenlessRetry(task))
    requires forall i :: k < i < |more| ==> !more[i].UserApproved?
    ensures !Stands(log + more, task, protocol)
  {
    assert (log + more)[|log| + k] == more[k];
    assert forall i :: |log| + k < i < |log + more| ==> (log + more)[i] == more[i - |log|];
  }

  /** Only the first of the new events may start an external plan. */
  lemma SafeLonger(log: seq<ChatEvent>, more: seq<ChatEvent>)
    requires SafeLog(log)
    requires forall j :: 0 <= j < |more| && more[j].PlanRan? && more[j].external ==> j == 0 && Stands(log, more[j].task, more[j].protocol)
    ensures SafeLog(log + more)
  {
    hide Stands;
    forall j | 0 <= j < |log + more| && (log + more)[j].PlanRan? && (log + more)[j].external
      ensures Stands((log + more)[..j], (log + more)[j].task, (log + more)[j].protocol)
    {
      if j < |log| {
        assert (log + more)[..j] == log[..j];
      } else {
        assert (log + more)[j] == more[j - |log|];
        assert (log + more)[..|log|] == log;
      }
    }
  }

  lemma UnsafeLonger(log: seq<ChatEvent>, more: seq<ChatEvent>)
    requires |more| > 0 && more[0].PlanRan? && more[0].external && !Stands(log, more[0].task, more[0].protocol)
    ensures !SafeLog(log + more)
  {
    assert (log + more)[|log|] == more[0] && (log + more)[..|log|] == log;
  }

  lemma NewEvent(log: seq<ChatEvent>, more: seq<ChatEvent>, i: nat)
    requires i < |log + more|
    ensures i < |log| ==> (log + more)[i] == log[i]
    ensures i >= |log| ==> (log + more)[i] == more[i - |log|] && more[i - |log|] in more
  {
  }

  lemma BetweenLonger(log: seq<ChatEvent>, more: seq<ChatEvent>, i: nat, j: nat, task: u64)
    requires j <= |log| && ApprovedBetween(log, i, j, task)
    ensures ApprovedBetween(log + more, i, j, task) && ApprovedBetween(log + more, i, |log + more|, task)
  {
    var k :| i < k < j && Approves(log[k], task);
    assert (log + more)[k] == log[k];
  }

  /** New events without commits of external writes keep each write single. */
  lemma OnceAndNothing(log: seq<ChatEvent>, more: seq<ChatEvent>)
    requires Once(log) && forall e :: e in more ==> !(e.Acted? && Writes(e, e.task))
    ensures Once(log + more)
  {
    hide ApprovedBetween;
    var whole := log + more;
    forall i, j | 0 <= i < j < |whole| && SameWrite(whole[i], whole[j])
      ensures ApprovedBetween(whole, i, j, whole[i].task)
    {
      NewEvent(log, more, i);
      NewEvent(log, more, j);
      BetweenLonger(log, more, i, j, log[i].task);
    }
  }

  lemma WrittenAndNothing(log: seq<ChatEvent>, more: seq<ChatEvent>, task: u64, n: nat)
    requires WrittenBelow(log, task, n) && forall e :: e in more ==> !(e.Acted? && Writes(e, e.task))
    ensures WrittenBelow(log + more, task, n)
  {
    hide ApprovedBetween;
    var whole := log + more;
    forall i | 0 <= i < |whole| && Writes(whole[i], task) && whole[i].event.index >= n
      ensures ApprovedBetween(whole, i, |whole|, task)
    {
      NewEvent(log, more, i);
      BetweenLonger(log, more, i, |log|, task);
    }
  }

  /** After an approval no earlier commit counts. */
  lemma NothingWrittenSince(log: seq<ChatEvent>, task: u64, protocol: Str, n: nat)
    ensures WrittenBelow(log + [UserApproved(task, protocol)], task, n)
  {
    var whole := log + [UserApproved(task, protocol)];
    assert Approves(whole[|log|], task);
  }

  /** The external writes among the new events are of the task, at places from `lo` up to `hi`, in order. */
  ghost predicate WritesWithin(more: seq<ChatEvent>, task: u64, lo: nat, hi: nat) {
    && (forall i :: 0 <= i < |more| && more[i].Acted? && Writes(more[i], more[i].task) ==> more[i].task == task && lo <= more[i].event.index < hi)
    && (forall i, j :: 0 <= i < j < |more| && Writes(more[i], task) && Writes(more[j], task) ==> more[i].event.index < more[j].event.index)
  }

  lemma OnceLonger(log: seq<ChatEvent>, more: seq<ChatEvent>, task: u64, lo: nat, hi: nat)
    requires Once(log) && WrittenBelow(log, task, lo) && WritesWithin(more, task, lo, hi)
    ensures Once(log + more)
  {
    hide ApprovedBetween;
    var whole := log + more;
    forall i, j | 0 <= i < j < |whole| && SameWrite(whole[i], whole[j])
      ensures ApprovedBetween(whole, i, j, whole[i].task)
    {
      NewEvent(log, more, i);
      NewEvent(log, more, j);
      if j < |log| {
        BetweenLonger(log, more, i, j, log[i].task);
      } else {
        BetweenUpTo(log, more, i, j, task);
      }
    }
  }

  lemma BetweenUpTo(log: seq<ChatEvent>, more: seq<ChatEvent>, i: nat, j: nat, task: u64)
    requires ApprovedBetween(log, i, |log|, task) && |log| <= j <= |log + more|
    ensures ApprovedBetween(log + more, i, j, task)
  {
    var k :| i < k < |log| && Approves(log[k], task);
    assert (log + more)[k] == log[k];
  }

  lemma WrittenLonger(log: seq<ChatEvent>, more: seq<ChatEvent>, task: u64, lo: nat, hi: nat)
    requires WrittenBelow(log, task, lo) && WritesWithin(more, task, lo, hi) && lo <= hi
    ensures WrittenBelow(log + more, task, hi)
  {
    hide ApprovedBetween;
    var whole := log + more;
    forall i | 0 <= i < |whole| && Writes(whole[i], task) && whole[i].event.index >= hi
      ensures ApprovedBetween(whole, i, |whole|, task)
    {
      NewEvent(log, more, i);
      BetweenLonger(log, more, i, |log|, task);
    }
  }

  /******* One call *******/

  /** Events that neither start an external plan nor commit an external write. */
  ghost predicate Harmless(more: seq<ChatEvent>) {
    forall e :: e in more ==> !(e.PlanRan? && e.external) && !(e.Acted? && Writes(e, e.task))
  }

  lemma RunnableIsSole(setup: ChatSetup, s: ChatState, request: u64)
    requires Runnable(setup, s, request).Some?
    ensures var (plan, b) := Runnable(setup, s, request).value;
            Sole(setup.registry(plan), s.session.value.task, b.state, b.plan)
  {
    hide Loaded, Persisted, Sole, StoredPlan, ExternalWrites;
    var task := s.session.value.task;
    var (plan, _) := Runnable(setup, s, request).value;
    LoadedIsSole(setup.registry(plan), task, s.conversation.graphs[task], s.conversation.active.value.checkpoint, plan);
  }

  lemma CommitsAreWrites(task: u64, p: PlanState, events: seq<Event>, lo: nat, hi: nat)
    requires Commits(events, lo, hi)
    ensures WritesWithin(Acts(task, p, events), task, lo, hi)
  {
  }

  lemma WritesAround(first: ChatEvent, acts: seq<ChatEvent>, last: seq<ChatEvent>, task: u64, lo: nat, hi: nat)
    requires WritesWithin(acts, task, lo, hi) && !first.Acted? && forall e :: e in last ==> !e.Acted?
    ensures WritesWithin([first] + acts + last, task, lo, hi)
  {
    var whole := [first] + acts + last;
    assert forall i :: 0 <= i < |last| ==> last[i] in last;
    assert forall i :: 0 <= i < |whole| && whole[i].Acted? ==> 0 < i <= |acts| && whole[i] == acts[i - 1];
  }

  lemma StretchWrites(task: u64, protocol: Str, external: bool, p: PlanState, run: Stretch, hi: nat)
    requires Commits(run.events, p.cursor, hi)
    ensures WritesWithin(StretchEvents(task, protocol, external, p, run), task, p.cursor, hi)
  {
    CommitsAreWrites(task, p, run.events, p.cursor, hi);
    WritesAround(PlanRan(task, protocol, external), Acts(task, p, run.events), if run.retry then [TokenlessRetry(task)] else [], task, p.cursor, hi);
  }

  /** Whether the new events commit an external write. */
  lemma StretchWriteFound(task: u64, protocol: Str, external: bool, p: PlanState, run: Stretch)
    ensures (exists e :: e in run.events && CommitsWrite(p, e))
            <==> exists e :: e in StretchEvents(task, protocol, external, p, run) && e.Acted? && Writes(e, task)
  {
    var whole := StretchEvents(task, protocol, external, p, run);
    var acts := Acts(task, p, run.events);
    if e :| e in run.events && CommitsWrite(p, e) {
      var i :| 0 <= i < |run.events| && run.events[i] == e;
      assert whole[i + 1] == acts[i];
    }
    if f :| f in whole && f.Acted? && Writes(f, task) {
      var i :| 0 <= i < |acts| && acts[i] == f;
      assert run.events[i] in run.events && CommitsWrite(p, run.events[i]);
    }
  }

  lemma PlainStretchIsHarmless<E>(setup: ChatSetup, task: u64, protocol: Str, graph: TaskGraph, plan: AssistantPlan, b: Begun, device: Device<E>)
    requires Sole(setup.registry(plan), task, b.state, b.plan) && !ExternalWrites(plan)
    ensures var run := RunBegun(setup, task, graph, plan, b, device);
            !run.retry && Harmless(StretchEvents(task, protocol, false, b.state.plans[b.plan], run))
  {
    hide ValidState, RunBegun, ExternalWrites;
    var run := RunBegun(setup, task, graph, plan, b, device);
    NoWritesNoRetry(setup, task, graph, plan, b, device);
    var p := b.state.plans[b.plan];
    var acts := Acts(task, p, run.events);
    forall e | e in acts
      ensures !Writes(e, e.task)
    {
      var i :| 0 <= i < |acts| && acts[i] == e;
      assert run.events[i] in run.events;
    }
  }

  /** The calls that neither answer the user nor advance: what they leave cannot be run, unless they changed nothing. */
  ghost predicate Idle<E>(setup: ChatSetup, s: ChatState, call: ChatCall<E>) {
    var step := AfterCall(setup, s, call);
    Harmless(step.events) && (Live(setup, step.state) ==> step.state == s && step.events == [])
  }

  lemma NothingIsHarmless()
    ensures Harmless([])
  {
  }

  lemma SubmitIsIdle<E>(setup: ChatSetup, s: ChatState, task: u64, planned: Str, device: Device<E>)
    ensures Idle(setup, s, Submit(task, planned, device))
  {
    hide Parse, ExternalWrites, Begin, RunBegun, Sole, Harmless;
    NothingIsHarmless();
    var step := AfterSubmit(setup, s, task, planned, device);
    if !SessionActive(s) && Parse(planned).Ok? && Parse(planned).value.Planned? {
      PlansParseBack(planned);
      var plan := Parse(planned).value.plan;
      if |plan.canonical| <= MAX_TEXT_BYTES && !ExternalWrites(plan) {
        var b := Begin(setup, false, task, Some(plan.graph), None, plan);
        if b.Some? {
          BegunIsSole(setup, false, task, plan.graph, None, plan);
          PlainStretchIsHarmless(setup, task, plan.canonical, plan.graph, plan, b.value, device);
        }
      }
    }
  }

  lemma BegunIsSole(setup: ChatSetup, approved: bool, task: u64, graph: TaskGraph, checkpoint: Option<Vec<byte>>, plan: AssistantPlan)
    requires Begin(setup, approved, task, Some(graph), checkpoint, plan).Some?
    ensures var b := Begin(setup, approved, task, Some(graph), checkpoint, plan).value;
            Sole(setup.registry(plan), task, b.state, b.plan)
  {
    hide Loaded, Persisted, Sole, ExternalWrites;
    LoadedIsSole(setup.registry(plan), task, graph, checkpoint, plan);
  }

  lemma RestoreIsIdle<E>(setup: ChatSetup, s: ChatState, call: ChatCall<E>)
    requires call.Restore? && !LosesSession(setup, s, call)
    ensures Idle(setup, s, call)
  {
    hide StoredPlan, ExternalWrites, Begin;
    if s.nextRequest < U64_MAX || call.conversation.active.None? {
      NotApprovedNotLive(setup, AfterCall(setup, s, call).state);
    }
  }

  lemma NotApprovedNotLive(setup: ChatSetup, s: ChatState)
    requires s.session.None? || !Has(s.conversation, s.session.value.task, ApprovedExecuting)
    ensures !Live(setup, s)
  {
    hide StoredPlan, ExternalWrites, Loaded;
  }

  lemma OtherIsIdle<E>(setup: ChatSetup, s: ChatState, call: ChatCall<E>)
    requires call.Cancel? || call.FinishTurn? || call.TakeCheckpoint?
    ensures Idle(setup, s, call)
  {
    hide StoredPlan, ExternalWrites, Begin;
  }

  lemma ResolveTells<E>(setup: ChatSetup, s: ChatState, call: ChatCall<E>)
    requires call.Resolve?
    ensures var step := AfterCall(setup, s, call);
            if step.events == [] then Live(setup, step.state) ==> step.state == s
            else
              && s.session.Some? && step.state.session.Some? && step.state.session.value.task == s.session.value.task
              && s.session.value.task in s.conversation.protocols && step.state.conversation.protocols == s.conversation.protocols
              && step.events == [UserApproved(s.session.value.task, s.conversation.protocols[s.session.value.task])]
  {
    hide ExternalWrites, Begin, Parse;
  }

  /** The plan an advance starts. */
  ghost function PlanOfStart<E>(setup: ChatSetup, s: ChatState, call: ChatCall<E>): AssistantPlan
    requires Starts(setup, s, call)
  {
    Runnable(setup, s, call.request).value.0
  }

  lemma AdvanceEvents<E>(setup: ChatSetup, s: ChatState, call: ChatCall<E>)
    requires Starts(setup, s, call)
    ensures var task := s.session.value.task;
            && AfterCall(setup, s, call).events
               == StretchEvents(task, s.conversation.protocols[task], ExternalWrites(PlanOfStart(setup, s, call)), StartOf(setup, s, call),
                                StretchOf(setup, s, call))
            && (Live(setup, s) <==> ExternalWrites(PlanOfStart(setup, s, call)))
  {
    hide Runnable, ExternalWrites, RunBegun, StretchEvents;
    RunnableInSession(setup, s, call.request);
  }

  lemma RunnableInSession(setup: ChatSetup, s: ChatState, request: u64)
    requires Runnable(setup, s, request).Some?
    ensures s.session.Some? && s.session.value.request == request
  {
    hide StoredPlan, Begin, ExternalWrites;
  }

  lemma AdvanceIsSound<E>(setup: ChatSetup, s: ChatState, call: ChatCall<E>)
    requires Starts(setup, s, call)
    ensures var (plan, b) := Runnable(setup, s, call.request).value;
            var run := StretchOf(setup, s, call);
            && Sole(setup.registry(plan), s.session.value.task, b.state, b.plan)
            && SoundStretch(setup.registry(plan), s.session.value.task, b, run)
            && (!ExternalWrites(plan) ==> !run.retry && forall e :: e in run.events ==> !CommitsWrite(StartOf(setup, s, call), e))
  {
    hide Runnable, ExternalWrites, RunBegun, SoundStretch, ValidState;
    RunnableIsSole(setup, s, call.request);
    var (plan, b) := Runnable(setup, s, call.request).value;
    var task := s.session.value.task;
    StretchIsSound(setup, task, s.conversation.graphs[task], plan, b, call.device);
    if !ExternalWrites(plan) {
      NoWritesNoRetry(setup, task, s.conversation.graphs[task], plan, b, call.device);
    }
  }

  /** What an advance leaves can only be run again as the same task's same plan, and not after a retry that was noticed. */
  lemma AdvanceLeaves<E>(setup: ChatSetup, s: ChatState, call: ChatCall<E>)
    requires Starts(setup, s, call) && Live(setup, AfterCall(setup, s, call).state)
    ensures var t := AfterCall(setup, s, call).state;
            var run := StretchOf(setup, s, call);
            && t.session.value.task == s.session.value.task && t.conversation.protocols == s.conversation.protocols
            && !run.end.Finished? && (run.end.Lost? ==> t == s) && (run.end.Paused? ==> !run.retry)
            && ExternalWrites(PlanOfStart(setup, s, call))
  {
    hide ExternalWrites, RunBegun, StretchEvents, Begin, Parse;
    var t := AfterCall(setup, s, call).state;
    if !Has(t.conversation, s.session.value.task, ApprovedExecuting) {
      NotApprovedNotLive(setup, t);
    }
  }

  /** After a pause the next run starts from the state that was left. */
  lemma PauseIsResumed<E>(setup: ChatSetup, s: ChatState, call: ChatCall<E>)
    requires Starts(setup, s, call) && Live(setup, AfterCall(setup, s, call).state) && StretchOf(setup, s, call).end.Paused?
    ensures var t := AfterCall(setup, s, call).state;
            var (_, b) := Runnable(setup, s, call.request).value;
            var next := Runnable(setup, t, t.session.value.request).value.1;
            next.state == StretchOf(setup, s, call).state && next.plan == b.plan
  {
    hide ExternalWrites, RunBegun, StretchEvents, Parse, Loaded, Persisted, Sole;
    AdvanceIsSound(setup, s, call);
    AdvanceLeaves(setup, s, call);
    var (plan, b) := Runnable(setup, s, call.request).value;
    var task := s.session.value.task;
    StoredIsLoaded(setup.registry(plan), task, s.conversation.graphs[task], plan, StretchOf(setup, s, call).state, b.plan);
  }

  /******* External writes run only as approved *******/

  lemma HarmlessIsSafe(log: seq<ChatEvent>, more: seq<ChatEvent>)
    requires SafeLog(log) && Harmless(more)
    ensures SafeLog(log + more)
  {
    hide Stands;
    assert forall j :: 0 <= j < |more| ==> more[j] in more;
    SafeLonger(log, more);
  }

  lemma StretchStarts(task: u64, protocol: Str, external: bool, p: PlanState, run: Stretch)
    ensures var more := StretchEvents(task, protocol, external, p, run);
            && |more| > 0 && more[0] == PlanRan(task, protocol, external)
            && (forall j :: 0 < j < |more| ==> !more[j].PlanRan?)
            && (forall j :: 0 <= j < |more| ==> !more[j].UserApproved? && more[j] != Restored)
            && (if run.retry then more[|more| - 1] == TokenlessRetry(task) else forall j :: 0 <= j < |more| ==> !more[j].TokenlessRetry?)
  {
  }

  /** One call from a state in which whatever can be run was approved. */
  lemma StepIsSafe<E>(setup: ChatSetup, s: ChatState, log: seq<ChatEvent>, call: ChatCall<E>)
    requires SafeLog(log) && Approved(setup, s, log)
    ensures var step := AfterCall(setup, s, call);
            && SafeLog(log + step.events)
            && (!LosesRetry(setup, s, call) && !LosesSession(setup, s, call) ==> Approved(setup, step.state, log + step.events))
  {
    hide SafeLog, Stands, AfterCall, Live, LosesRetry, LosesSession, Harmless, Starts;
    if call.Advance? {
      AdvanceIsSafe(setup, s, log, call);
    } else if call.Resolve? {
      ResolveIsSafe(setup, s, log, call);
    } else if call.Restore? && LosesSession(setup, s, call) {
      RestoredOnly(setup, s, call);
      HarmlessIsSafe(log, [Restored]);
    } else {
      IdleCall(setup, s, call);
      HarmlessIsSafe(log, AfterCall(setup, s, call).events);
      assert log + [] == log;
    }
  }

  lemma RestoredOnly<E>(setup: ChatSetup, s: ChatState, call: ChatCall<E>)
    requires call.Restore?
    ensures AfterCall(setup, s, call).events == [Restored] && Harmless([Restored])
  {
  }

  lemma IdleCall<E>(setup: ChatSetup, s: ChatState, call: ChatCall<E>)
    requires !call.Advance? && !call.Resolve? && (call.Restore? ==> !LosesSession(setup, s, call))
    ensures Idle(setup, s, call)
  {
    hide Idle, LosesSession;
    match call
    case Submit(task, planned, device) => SubmitIsIdle(setup, s, task, planned, device);
    case Restore(_) => RestoreIsIdle(setup, s, call);
    case Cancel(_) => OtherIsIdle(setup, s, call);
    case FinishTurn(_) => OtherIsIdle(setup, s, call);
    case TakeCheckpoint => OtherIsIdle(setup, s, call);
  }

  lemma ResolveIsSafe<E>(setup: ChatSetup, s: ChatState, log: seq<ChatEvent>, call: ChatCall<E>)
    requires SafeLog(log) && Approved(setup, s, log) && call.Resolve?
    ensures var step := AfterCall(setup, s, call);
            SafeLog(log + step.events) && Approved(setup, step.state, log + step.events)
  {
    hide SafeLog, Stands, AfterCall, Live;
    ResolveTells(setup, s, call);
    if AfterCall(setup, s, call).events == [] {
      assert log + [] == log;
    } else {
      var task := s.session.value.task;
      StandsNow(log, task, s.conversation.protocols[task]);
      SafeLonger(log, [UserApproved(task, s.conversation.protocols[task])]);
    }
  }

  lemma StartsInSession<E>(setup: ChatSetup, s: ChatState, call: ChatCall<E>)
    requires Starts(setup, s, call)
    ensures s.session.Some? && s.session.value.task in s.conversation.protocols && s.session.value.task in s.conversation.graphs
  {
    hide Runnable;
  }

  lemma NotStarted<E>(setup: ChatSetup, s: ChatState, call: ChatCall<E>)
    requires call.Advance? && !Starts(setup, s, call)
    ensures AfterCall(setup, s, call) == Refusal(s)
  {
    hide Runnable, RunBegun;
  }

  lemma AdvanceIsSafe<E>(setup: ChatSetup, s: ChatState, log: seq<ChatEvent>, call: ChatCall<E>)
    requires SafeLog(log) && Approved(setup, s, log) && call.Advance?
    ensures var step := AfterCall(setup, s, call);
            SafeLog(log + step.events) && (!LosesRetry(setup, s, call) ==> Approved(setup, step.state, log + step.events))
  {
    hide SafeLog, Stands, AfterCall, Live, Starts, StretchOf, StartOf, PlanOfStart, StretchEvents, Fits, ExternalWrites, Runnable;
    if !Starts(setup, s, call) {
      NotStarted(setup, s, call);
      assert log + [] == log;
    } else {
      StartsInSession(setup, s, call);
      var task := s.session.value.task;
      var protocol, external := s.conversation.protocols[task], ExternalWrites(PlanOfStart(setup, s, call));
      var p, run := StartOf(setup, s, call), StretchOf(setup, s, call);
      var more := StretchEvents(task, protocol, external, p, run);
      AdvanceEvents(setup, s, call);
      StretchStarts(task, protocol, external, p, run);
      SafeLonger(log, more);
      var t := AfterCall(setup, s, call).state;
      if Live(setup, t) && !LosesRetry(setup, s, call) {
        AdvanceLeaves(setup, s, call);
        LostRetryOrStored(setup, s, call);
        assert !run.retry;
        StandsLonger(log, more, task, protocol);
      }
    }
  }

  /** A retry that was not lost was stored. */
  lemma LostRetryOrStored<E>(setup: ChatSetup, s: ChatState, call: ChatCall<E>)
    requires Starts(setup, s, call)
    ensures LosesRetry(setup, s, call) <==> StretchOf(setup, s, call).retry && StretchOf(setup, s, call).end.Lost?
  {
    hide Fits, RunBegun, Runnable, Sole, ExternalWrites;
    AdvanceIsSound(setup, s, call);
  }

  /** After a lost retry the same call starts the same run again, with no approval after the retry. */
  lemma LostRetryIsUnsafe<E>(setup: ChatSetup, s: ChatState, log: seq<ChatEvent>, call: ChatCall<E>)
    requires LosesRetry(setup, s, call)
    ensures var step := AfterCall(setup, s, call);
            step.state == s && !SafeLog(log + step.events + AfterCall(setup, step.state, call).events)
  {
    hide SafeLog, Stands, Live, Starts, StretchOf, StartOf, PlanOfStart, StretchEvents, Fits, ExternalWrites, Runnable, AfterCall;
    LostStaysPut(setup, s, call);
    StartsInSession(setup, s, call);
    AdvanceEvents(setup, s, call);
    AdvanceIsSound(setup, s, call);
    var task := s.session.value.task;
    var protocol, external := s.conversation.protocols[task], ExternalWrites(PlanOfStart(setup, s, call));
    var p, run := StartOf(setup, s, call), StretchOf(setup, s, call);
    var more := StretchEvents(task, protocol, external, p, run);
    assert external by { RetryIsExternal(setup, s, call); }
    StretchStarts(task, protocol, external, p, run);
    NothingStandsAfter(log, more, |more| - 1, task, protocol);
    UnsafeLonger(log + more, more);
  }

  lemma RetryIsExternal<E>(setup: ChatSetup, s: ChatState, call: ChatCall<E>)
    requires Starts(setup, s, call) && StretchOf(setup, s, call).retry
    ensures ExternalWrites(PlanOfStart(setup, s, call))
  {
    hide Runnable, ExternalWrites, RunBegun, SoundStretch, Sole;
    AdvanceIsSound(setup, s, call);
  }

  lemma LostStaysPut<E>(setup: ChatSetup, s: ChatState, call: ChatCall<E>)
    requires Starts(setup, s, call) && (LosesRetry(setup, s, call) || StretchOf(setup, s, call).end.Lost?)
    ensures AfterCall(setup, s, call).state == s && StretchOf(setup, s, call).end.Lost?
  {
    hide Runnable, ExternalWrites, RunBegun, StretchEvents, Fits;
    LostRetryOrStored(setup, s, call);
  }

  /** After a lost session any device starts the restored plan under the old session. */
  lemma LostSessionIsUnsafe<E>(setup: ChatSetup, s: ChatState, log: seq<ChatEvent>, call: ChatCall<E>, device: Device<E>) returns (next: ChatCall<E>)
    requires LosesSession(setup, s, call)
    ensures next.Advance? && s.session.Some? && next.request == s.session.value.request
    ensures var step := AfterCall(setup, s, call);
            && !LosesRetry(setup, step.state, next) && !LosesSession(setup, step.state, next)
            && !SafeLog(log + step.events + AfterCall(setup, step.state, next).events)
  {
    hide SafeLog, Stands, StretchOf, StartOf, PlanOfStart, StretchEvents, Fits, ExternalWrites, Runnable, AfterCall;
    var t := s.(conversation := call.conversation);
    next := Advance(t.session.value.request, device.(adapters := map[], ready := true));
    RestoredState(setup, s, call);
    StartsInSession(setup, t, next);
    AdvanceEvents(setup, t, next);
    NeverRetries(setup, t, next);
    var task := t.session.value.task;
    var protocol, external := t.conversation.protocols[task], ExternalWrites(PlanOfStart(setup, t, next));
    var p, run := StartOf(setup, t, next), StretchOf(setup, t, next);
    StretchStarts(task, protocol, external, p, run);
    NothingStandsAfter(log, [Restored], 0, task, protocol);
    UnsafeLonger(log + [Restored], StretchEvents(task, protocol, external, p, run));
  }

  lemma RestoredState<E>(setup: ChatSetup, s: ChatState, call: ChatCall<E>)
    requires LosesSession(setup, s, call)
    ensures AfterCall(setup, s, call) == ChatStep(false, s.(conversation := call.conversation), [Restored])
  {
    hide Live;
  }

  lemma NeverRetries<E>(setup: ChatSetup, s: ChatState, call: ChatCall<E>)
    requires call.Advance? && call.device.adapters == map[]
    ensures !LosesRetry(setup, s, call)
  {
    hide Runnable, RunBegun, Fits;
    if Starts(setup, s, call) {
      var (plan, b) := Runnable(setup, s, call.request).value;
      NoAdaptersNoRetry(setup, s.session.value.task, s.conversation.graphs[s.session.value.task], plan, b, call.device);
    }
  }

  /******* Every run *******/

  /** The state before call `n`. */
  ghost function Before<E>(setup: ChatSetup, calls: seq<ChatCall<E>>, n: nat): ChatState
    requires n <= |calls|
  {
    ChatRun(setup, calls[..n])
  }

  ghost predicate LosesApproval<E>(setup: ChatSetup, calls: seq<ChatCall<E>>, n: nat)
    requires n < |calls|
  {
    LosesRetry(setup, Before(setup, calls, n), calls[n]) || LosesSession(setup, Before(setup, calls, n), calls[n])
  }

  lemma OneCallMore<E>(setup: ChatSetup, calls: seq<ChatCall<E>>, n: nat, next: ChatCall<E>)
    requires n <= |calls|
    ensures ChatLog(setup, calls[..n] + [next]) == ChatLog(setup, calls[..n]) + AfterCall(setup, Before(setup, calls, n), next).events
    ensures ChatRun(setup, calls[..n] + [next]) == AfterCall(setup, Before(setup, calls, n), next).state
  {
    hide AfterCall;
    assert (calls[..n] + [next])[..n] == calls[..n];
  }

  lemma {:induction false} ApprovedAlong<E>(setup: ChatSetup, calls: seq<ChatCall<E>>)
    requires forall n :: 0 <= n < |calls| ==> !LosesApproval(setup, calls, n)
    ensures SafeLog(ChatLog(setup, calls)) && Approved(setup, ChatRun(setup, calls), ChatLog(setup, calls))
    decreases |calls|
  {
    hide SafeLog, Approved, AfterCall, LosesRetry, LosesSession;
    if |calls| == 0 {
      NewChatIsSafe(setup);
    } else {
      var n := |calls| - 1;
      forall k | 0 <= k < n
        ensures !LosesApproval(setup, calls[..n], k)
      {
        assert calls[..n][..k] == calls[..k] && !LosesApproval(setup, calls, k);
      }
      ApprovedAlong(setup, calls[..n]);
      assert !LosesApproval(setup, calls, n);
      StepIsSafe(setup, Before(setup, calls, n), ChatLog(setup, calls[..n]), calls[n]);
    }
  }

  lemma NewChatIsSafe(setup: ChatSetup)
    ensures SafeLog([]) && Approved(setup, NEW_CHAT, []) && Once([]) && Behind(setup, NEW_CHAT, [])
  {
  }

  /** Whatever is called next after the first `n` calls, the log is safe. */
  ghost predicate SafeThen<E>(setup: ChatSetup, calls: seq<ChatCall<E>>, n: nat, next: ChatCall<E>)
    requires n <= |calls|
  {
    SafeLog(ChatLog(setup, calls[..n] + [next]))
  }

  /**
   A sequence of calls runs external writes only as approved, whatever comes next at any point
   of it, if and only if none of its calls lost a retry or a session. `device` only stands for
   the fact that there is one.
   */
  lemma ExternalWritesAreApproved<E>(setup: ChatSetup, calls: seq<ChatCall<E>>, device: Device<E>)
    ensures (forall n, next :: 0 <= n <= |calls| ==> SafeThen(setup, calls, n, next))
            <==> (forall n :: 0 <= n < |calls| ==> !LosesApproval(setup, calls, n))
  {
    hide SafeLog, Approved, AfterCall, LosesRetry, LosesSession;
    if forall n :: 0 <= n < |calls| ==> !LosesApproval(setup, calls, n) {
      forall n, next | 0 <= n <= |calls|
        ensures SafeThen(setup, calls, n, next)
      {
        forall k | 0 <= k < n
          ensures !LosesApproval(setup, calls[..n], k)
        {
          assert calls[..n][..k] == calls[..k] && !LosesApproval(setup, calls, k);
        }
        ApprovedAlong(setup, calls[..n]);
        OneCallMore(setup, calls, n, next);
        StepIsSafe(setup, Before(setup, calls, n), ChatLog(setup, calls[..n]), next);
      }
    } else {
      var n :| 0 <= n < |calls| && LosesApproval(setup, calls, n);
      var next := LossIsUnsafe(setup, calls, n, device);
      assert !SafeThen(setup, calls, n + 1, next);
    }
  }

  lemma LossIsUnsafe<E>(setup: ChatSetup, calls: seq<ChatCall<E>>, n: nat, device: Device<E>) returns (next: ChatCall<E>)
    requires n < |calls| && LosesApproval(setup, calls, n)
    ensures !SafeThen(setup, calls, n + 1, next)
  {
    hide SafeLog, AfterCall, LosesRetry, LosesSession;
    var s, log := Before(setup, calls, n), ChatLog(setup, calls[..n]);
    assert calls[..n + 1] == calls[..n] + [calls[n]];
    OneCallMore(setup, calls, n, calls[n]);
    if LosesRetry(setup, s, calls[n]) {
      next := calls[n];
      LostRetryIsUnsafe(setup, s, log, calls[n]);
    } else {
      next := LostSessionIsUnsafe(setup, s, log, calls[n], device);
    }
    OneCallMore(setup, calls, n + 1, next);
  }

  /**
   A restore in a chat that lost nothing so far keeps every continuation safe, as long as that
   loses nothing itself, if and only if the restore does not lose the session.
   */
  lemma RestoreIsSafe<E>(setup: ChatSetup, calls: seq<ChatCall<E>>, c: Conversation, device: Device<E>)
    requires forall n :: 0 <= n < |calls| ==> !LosesApproval(setup, calls, n)
    ensures (forall more :: LosesNothingMore(setup, calls + [Restore(c)], more) ==> SafeLog(ChatLog(setup, calls + [Restore(c)] + more)))
            <==> !LosesSession(setup, ChatRun(setup, calls), ChatCall<E>.Restore(c))
  {
    hide SafeLog, AfterCall, LosesRetry, LosesSession;
    var restored := calls + [Restore(c)];
    if LosesSession(setup, ChatRun(setup, calls), ChatCall<E>.Restore(c)) {
      var next := RestoreLosesSession(setup, calls, c, device);
      assert !SafeLog(ChatLog(setup, restored + [next]));
    } else {
      forall more | LosesNothingMore(setup, restored, more)
        ensures SafeLog(ChatLog(setup, restored + more))
      {
        LosesNothingAtAll(setup, calls, c, more);
        ApprovedAlong(setup, restored + more);
      }
    }
  }

  ghost predicate LosesNothingMore<E>(setup: ChatSetup, calls: seq<ChatCall<E>>, more: seq<ChatCall<E>>) {
    forall n :: |calls| <= n < |calls + more| ==> !LosesApproval(setup, calls + more, n)
  }

  lemma LosesNothingAtAll<E>(setup: ChatSetup, calls: seq<ChatCall<E>>, c: Conversation, more: seq<ChatCall<E>>)
    requires forall n :: 0 <= n < |calls| ==> !LosesApproval(setup, calls, n)
    requires LosesNothingMore(setup, calls + [Restore(c)], more)
    requires !LosesSession(setup, ChatRun(setup, calls), ChatCall<E>.Restore(c))
    ensures var whole := calls + [Restore(c)] + more;
            forall n :: 0 <= n < |whole| ==> !LosesApproval(setup, whole, n)
  {
    hide AfterCall, LosesSession, ChatRun, Runnable;
    var whole := calls + [Restore(c)] + more;
    forall n | 0 <= n < |whole|
      ensures !LosesApproval(setup, whole, n)
    {
      if n < |calls| {
        assert whole[..n] == calls[..n] && whole[n] == calls[n] && !LosesApproval(setup, calls, n);
      } else if n == |calls| {
        assert whole[..n] == calls && whole[n] == Restore(c);
      }
    }
  }

  lemma RestoreLosesSession<E>(setup: ChatSetup, calls: seq<ChatCall<E>>, c: Conversation, device: Device<E>) returns (next: ChatCall<E>)
    requires LosesSession(setup, ChatRun(setup, calls), ChatCall<E>.Restore(c))
    ensures next.Advance? && ChatRun(setup, calls).session.Some? && next.request == ChatRun(setup, calls).session.value.request
    ensures LosesNothingMore(setup, calls + [Restore(c)], [next])
    ensures !SafeLog(ChatLog(setup, calls + [Restore(c)] + [next]))
  {
    hide SafeLog, AfterCall, LosesRetry, LosesSession;
    var restored := calls + [Restore(c)];
    assert calls[..|calls|] == calls && restored[..|restored|] == restored;
    OneCallMore(setup, calls, |calls|, Restore(c));
    next := LostSessionIsUnsafe(setup, ChatRun(setup, calls), ChatLog(setup, calls), Restore(c), device);
    OneCallMore(setup, restored, |restored|, next);
    assert (restored + [next])[..|restored|] == restored;
  }

  /******* External writes commit once *******/

  lemma LosesWriteExactly<E>(setup: ChatSetup, s: ChatState, call: ChatCall<E>)
    requires Starts(setup, s, call)
    ensures LosesWrite(setup, s, call)
            <==> StretchOf(setup, s, call).end.Lost?
                 && exists e :: e in StretchOf(setup, s, call).events && CommitsWrite(StartOf(setup, s, call), e)
  {
    hide Runnable, ContinueBegun, Kept, RunBegun, CommitsWrite, Sole;
    RunnableIsSole(setup, s, call.request);
    var (plan, b) := Runnable(setup, s, call.request).value;
    LostExactly(setup, s.session.value.task, s.conversation.graphs[s.session.value.task], plan, b, call.device);
  }

  /** One call from a state in which whatever can be run is past the writes committed under its approval. */
  lemma StepIsOnce<E>(setup: ChatSetup, s: ChatState, log: seq<ChatEvent>, call: ChatCall<E>)
    requires Once(log) && Behind(setup, s, log)
    ensures var step := AfterCall(setup, s, call);
            && Once(log + step.events)
            && (!LosesWrite(setup, s, call) && !LosesSession(setup, s, call) ==> Behind(setup, step.state, log + step.events))
  {
    hide Once, AfterCall, Live, LosesWrite, LosesSession, Starts, WrittenBelow, Runnable;
    if call.Advance? {
      AdvanceIsOnce(setup, s, log, call);
    } else if call.Resolve? {
      ResolveIsOnce(setup, s, log, call);
    } else if call.Restore? && LosesSession(setup, s, call) {
      RestoredOnly(setup, s, call);
      OnceAndNothing(log, [Restored]);
    } else {
      IdleCall(setup, s, call);
      OnceAndNothing(log, AfterCall(setup, s, call).events);
      assert log + [] == log;
    }
  }

  lemma ResolveIsOnce<E>(setup: ChatSetup, s: ChatState, log: seq<ChatEvent>, call: ChatCall<E>)
    requires Once(log) && Behind(setup, s, log) && call.Resolve?
    ensures var step := AfterCall(setup, s, call);
            Once(log + step.events) && Behind(setup, step.state, log + step.events)
  {
    hide Once, AfterCall, Live, WrittenBelow, Runnable;
    ResolveTells(setup, s, call);
    var t := AfterCall(setup, s, call).state;
    if AfterCall(setup, s, call).events == [] {
      assert log + [] == log;
    } else {
      var task := s.session.value.task;
      var protocol := s.conversation.protocols[task];
      OnceAndNothing(log, [UserApproved(task, protocol)]);
      if Live(setup, t) {
        LiveIsRunnable(setup, t);
        var (_, b) := Runnable(setup, t, t.session.value.request).value;
        NothingWrittenSince(log, task, protocol, b.state.plans[b.plan].cursor);
      }
    }
  }

  lemma LiveIsRunnable(setup: ChatSetup, s: ChatState)
    requires Live(setup, s)
    ensures s.session.Some? && Runnable(setup, s, s.session.value.request).Some?
  {
    hide Runnable;
  }

  lemma AdvanceIsOnce<E>(setup: ChatSetup, s: ChatState, log: seq<ChatEvent>, call: ChatCall<E>)
    requires Once(log) && Behind(setup, s, log) && call.Advance?
    ensures var step := AfterCall(setup, s, call);
            Once(log + step.events) && (!LosesWrite(setup, s, call) ==> Behind(setup, step.state, log + step.events))
  {
    hide Once, AfterCall, Live, Starts, StretchOf, StartOf, PlanOfStart, StretchEvents, ExternalWrites, Runnable, WrittenBelow, LosesWrite;
    if !Starts(setup, s, call) {
      NotStarted(setup, s, call);
      assert log + [] == log;
    } else {
      AdvanceEvents(setup, s, call);
      if ExternalWrites(PlanOfStart(setup, s, call)) {
        WritingAdvanceIsOnce(setup, s, log, call);
      } else {
        PlainAdvance(setup, s, call);
        OnceAndNothing(log, AfterCall(setup, s, call).events);
        if Live(setup, AfterCall(setup, s, call).state) {
          AdvanceLeaves(setup, s, call);
        }
      }
    }
  }

  lemma PlainAdvance<E>(setup: ChatSetup, s: ChatState, call: ChatCall<E>)
    requires Starts(setup, s, call) && !ExternalWrites(PlanOfStart(setup, s, call))
    ensures Harmless(AfterCall(setup, s, call).events)
  {
    hide AfterCall, Live, ExternalWrites, Runnable, StretchEvents, ValidState, RunBegun;
    AdvanceEvents(setup, s, call);
    RunnableIsSole(setup, s, call.request);
    var (plan, b) := Runnable(setup, s, call.request).value;
    var task := s.session.value.task;
    PlainStretchIsHarmless(setup, task, s.conversation.protocols[task], s.conversation.graphs[task], plan, b, call.device);
  }

  /** The writes of a started run are at places from its cursor on. */
  lemma AdvanceWrites<E>(setup: ChatSetup, s: ChatState, call: ChatCall<E>)
    requires Starts(setup, s, call)
    ensures var run := StretchOf(setup, s, call);
            var (_, b) := Runnable(setup, s, call.request).value;
            && b.plan in run.state.plans && StartOf(setup, s, call) == b.state.plans[b.plan]
            && b.state.plans[b.plan].cursor <= run.state.plans[b.plan].cursor
            && WritesWithin(AfterCall(setup, s, call).events, s.session.value.task, b.state.plans[b.plan].cursor, run.state.plans[b.plan].cursor)
  {
    hide AfterCall, Live, ExternalWrites, Runnable, StretchEvents, ValidState, RunBegun, Commits, WritesWithin;
    AdvanceEvents(setup, s, call);
    AdvanceIsSound(setup, s, call);
    var run := StretchOf(setup, s, call);
    var (_, b) := Runnable(setup, s, call.request).value;
    var task := s.session.value.task;
    StretchWrites(task, s.conversation.protocols[task], ExternalWrites(PlanOfStart(setup, s, call)), StartOf(setup, s, call), run,
                  run.state.plans[b.plan].cursor);
  }

  lemma WritingAdvanceIsOnce<E>(setup: ChatSetup, s: ChatState, log: seq<ChatEvent>, call: ChatCall<E>)
    requires Once(log) && Behind(setup, s, log) && Starts(setup, s, call) && Live(setup, s)
    ensures var step := AfterCall(setup, s, call);
            Once(log + step.events) && (!LosesWrite(setup, s, call) ==> Behind(setup, step.state, log + step.events))
  {
    hide Once, AfterCall, Live, StretchOf, StartOf, PlanOfStart, ExternalWrites, Runnable, WrittenBelow, LosesWrite, WritesWithin;
    AdvanceWrites(setup, s, call);
    var task, more, t, run := s.session.value.task, AfterCall(setup, s, call).events, AfterCall(setup, s, call).state, StretchOf(setup, s, call);
    var (_, b) := Runnable(setup, s, call.request).value;
    var lo, hi := b.state.plans[b.plan].cursor, run.state.plans[b.plan].cursor;
    OnceLonger(log, more, task, lo, hi);
    if Live(setup, t) && !LosesWrite(setup, s, call) {
      AdvanceLeaves(setup, s, call);
      if run.end.Lost? {
        LosesWriteExactly(setup, s, call);
        NoWritesInEvents(setup, s, call);
        WrittenAndNothing(log, more, task, lo);
      } else {
        PauseIsResumed(setup, s, call);
        WrittenLonger(log, more, task, lo, hi);
      }
    }
  }

  lemma NoWritesInEvents<E>(setup: ChatSetup, s: ChatState, call: ChatCall<E>)
    requires Starts(setup, s, call)
    requires !exists e :: e in StretchOf(setup, s, call).events && CommitsWrite(StartOf(setup, s, call), e)
    ensures forall e :: e in AfterCall(setup, s, call).events ==> !(e.Acted? && Writes(e, e.task))
  {
    hide AfterCall, Live, ExternalWrites, Runnable, StretchOf, StartOf, PlanOfStart, CommitsWrite, StretchEvents;
    StartsInSession(setup, s, call);
    AdvanceEvents(setup, s, call);
    var task := s.session.value.task;
    var protocol, external := s.conversation.protocols[task], ExternalWrites(PlanOfStart(setup, s, call));
    var p, run := StartOf(setup, s, call), StretchOf(setup, s, call);
    StretchWriteFound(task, protocol, external, p, run);
    ActsOfOneTask(task, protocol, external, p, run);
  }

  lemma ActsOfOneTask(task: u64, protocol: Str, external: bool, p: PlanState, run: Stretch)
    ensures forall e :: e in StretchEvents(task, protocol, external, p, run) && e.Acted? ==> e.task == task
  {
  }

  /** After a lost write the same call commits it again, with no approval in between. */
  lemma LostWriteIsRepeated<E>(setup: ChatSetup, s: ChatState, log: seq<ChatEvent>, call: ChatCall<E>)
    requires LosesWrite(setup, s, call)
    ensures var step := AfterCall(setup, s, call);
            step.state == s && !Once(log + step.events + AfterCall(setup, step.state, call).events)
  {
    hide AfterCall, Live, ExternalWrites, Runnable, StretchOf, StartOf, PlanOfStart, CommitsWrite, StretchEvents, Once;
    LosesWriteExactly(setup, s, call);
    LostStaysPut(setup, s, call);
    StartsInSession(setup, s, call);
    AdvanceEvents(setup, s, call);
    var task := s.session.value.task;
    var protocol, external := s.conversation.protocols[task], ExternalWrites(PlanOfStart(setup, s, call));
    var p, run := StartOf(setup, s, call), StretchOf(setup, s, call);
    StretchWriteFound(task, protocol, external, p, run);
    StretchStarts(task, protocol, external, p, run);
    RepeatedIsNotOnce(log, AfterCall(setup, s, call).events, task);
  }

  lemma RepeatedIsNotOnce(log: seq<ChatEvent>, more: seq<ChatEvent>, task: u64)
    requires exists e :: e in more && e.Acted? && Writes(e, task)
    requires forall j :: 0 <= j < |more| ==> !more[j].UserApproved?
    ensures !Once(log + more + more)
  {
    var e :| e in more && e.Acted? && Writes(e, task);
    var k :| 0 <= k < |more| && more[k] == e;
    var whole := log + more + more;
    var i, j := |log| + k, |log| + |more| + k;
    assert whole[i] == e && whole[j] == e && SameWrite(whole[i], whole[j]);
    forall m | i < m < j
      ensures !whole[m].UserApproved?
    {
      assert whole[m] == if m < |log| + |more| then more[m - |log|] else more[m - |log| - |more|];
    }
  }

  lemma {:induction false} OnceAlong<E>(setup: ChatSetup, calls: seq<ChatCall<E>>)
    requires forall n :: 0 <= n < |calls| ==> !LosesSession(setup, Before(setup, calls, n), calls[n])
    requires forall n :: 0 <= n < |calls| ==> !LosesWrite(setup, Before(setup, calls, n), calls[n])
    ensures Once(ChatLog(setup, calls)) && Behind(setup, ChatRun(setup, calls), ChatLog(setup, calls))
    decreases |calls|
  {
    hide Once, Behind, AfterCall, LosesWrite, LosesSession;
    if |calls| == 0 {
      NewChatIsSafe(setup);
    } else {
      var n := |calls| - 1;
      forall k | 0 <= k < n
        ensures !LosesSession(setup, Before(setup, calls[..n], k), calls[..n][k]) && !LosesWrite(setup, Before(setup, calls[..n], k), calls[..n][k])
      {
        assert calls[..n][..k] == calls[..k];
      }
      OnceAlong(setup, calls[..n]);
      assert !LosesSession(setup, Before(setup, calls, n), calls[n]) && !LosesWrite(setup, Before(setup, calls, n), calls[n]);
      StepIsOnce(setup, Before(setup, calls, n), ChatLog(setup, calls[..n]), calls[n]);
    }
  }

  ghost predicate OnceThen<E>(setup: ChatSetup, calls: seq<ChatCall<E>>, n: nat, next: ChatCall<E>)
    requires n <= |calls|
  {
    Once(ChatLog(setup, calls[..n] + [next]))
  }

  ghost predicate LosesWriteAt<E>(setup: ChatSetup, calls: seq<ChatCall<E>>, n: nat)
    requires n < |calls|
  {
    LosesWrite(setup, Before(setup, calls, n), calls[n])
  }

  /**
   In a sequence of calls that loses no session, each external write commits at most once per
   approval, whatever comes next at any point of it, if and only if no call loses a write.
   */
  lemma ExternalWritesCommitOnce<E>(setup: ChatSetup, calls: seq<ChatCall<E>>)
    requires forall n :: 0 <= n < |calls| ==> !LosesSession(setup, Before(setup, calls, n), calls[n])
    ensures (forall n, next :: 0 <= n <= |calls| ==> OnceThen(setup, calls, n, next))
            <==> (forall n :: 0 <= n < |calls| ==> !LosesWriteAt(setup, calls, n))
  {
    hide Once, Behind, AfterCall, LosesWrite, LosesSession;
    if forall n :: 0 <= n < |calls| ==> !LosesWriteAt(setup, calls, n) {
      forall n, next | 0 <= n <= |calls|
        ensures OnceThen(setup, calls, n, next)
      {
        forall k | 0 <= k < n
          ensures !LosesSession(setup, Before(setup, calls[..n], k), calls[..n][k]) && !LosesWrite(setup, Before(setup, calls[..n], k), calls[..n][k])
        {
          assert calls[..n][..k] == calls[..k] && !LosesWriteAt(setup, calls, k);
        }
        OnceAlong(setup, calls[..n]);
        OneCallMore(setup, calls, n, next);
        StepIsOnce(setup, Before(setup, calls, n), ChatLog(setup, calls[..n]), next);
      }
    } else {
      var n :| 0 <= n < |calls| && LosesWriteAt(setup, calls, n);
      var next := calls[n];
      assert calls[..n + 1] == calls[..n] + [calls[n]];
      OneCallMore(setup, calls, n, calls[n]);
      LostWriteIsRepeated(setup, Before(setup, calls, n), ChatLog(setup, calls[..n]), calls[n]);
      OneCallMore(setup, calls, n + 1, next);
      assert !OnceThen(setup, calls, n + 1, next);
    }
  }
}
