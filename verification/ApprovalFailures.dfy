/**
 Concrete chats that lose a retry, a write or a session: one plan with one external write,
 approved by the user, on devices that make its run fail the three guarantees.
 */
module ApprovalFailures {
  import opened Wrappers
  import opened Bytes
  import opened Actions
  import opened FabricModel
  import opened FabricInvariant
  import opened Trimming
  import Format = Taf97Format
  import Taf97
  import opened AssistantDriver
  import opened PlanText
  import opened ChatExecution
  import opened Approvals
  import opened ApprovalSafety

  /******* The plan: run the program D on the paired computer D *******/

  const PC_EXECUTE: Bytes := [0x70, 0x63, 0x2E, 0x65, 0x78, 0x65, 0x63, 0x75, 0x74, 0x65] // pc.execute

  const PAYLOAD: Bytes := [0x44, TAB, 0x44]

  function Name(): Str {
    AsciiText(PC_EXECUTE);
    PC_EXECUTE
  }

  function Letter(): Str {
    AsciiText([0x44]);
    [0x44]
  }

  function Digit1(): Str {
    AsciiText([0x31]);
    [0x31]
  }

  function Payload(): Str {
    AsciiText(PAYLOAD);
    PAYLOAD
  }

  function JoinBar(a: Str, b: Str): Str {
    AsciiText([BAR]);
    TextJoined(a, [BAR]);
    TextJoined(a + [BAR], b);
    a + [BAR] + b
  }

  function Line(): Str {
    JoinBar(Digit1(), JoinBar(Name(), Payload()))
  }

  function SampleAction(): TypedAction {
    PcExecute(Letter(), Letter(), [], None)
  }

  function SampleNode(): ActionNode {
    ActionNode(1, Name(), ExternalWrite, true)
  }

  function SampleStep(): ActionLine {
    ActionLine(SampleNode(), SampleAction(), Line())
  }

  lemma LetterIsTidy()
    ensures Tidy(Letter()) && !Blank(Letter())
  {
    EndsInLetter(Letter());
    assert SpaceLen(Letter()) == 0;
    TrimNothing(Letter());
    BlankIsTrimmedAway(Letter());
  }

  lemma PayloadIsPlain()
    ensures PlainPayload(Payload())
  {
    EndsInLetter(Payload());
    assert SpaceLen(Payload()) == 0;
    TrimNothing(Payload());
  }

  lemma PayloadParses()
    ensures PayloadAction(PcExecuteCap, Payload()) == Some(SampleAction())
  {
    hide Tidy, Utf8;
    LetterIsTidy();
    assert Payload() == Letter() + [TAB] + Letter();
    CutAfter(Letter(), TAB, Letter());
    assert Cut(Letter(), TAB).None?;
  }

  lemma NameParses()
    ensures NameOf(Name()) == Some(PcExecuteCap)
  {
  }

  lemma DigitParses()
    ensures ParseU32(Digit1()) == Some(1)
  {
    assert Digits([]) == Some(0);
    assert Digit1()[..0] == [];
  }

  lemma NoBars()
    ensures BAR !in Digit1() && BAR !in Name()
  {
  }

  lemma JoinedCut(a: Str, b: Str)
    requires BAR !in a
    ensures Cut(JoinBar(a, b), BAR) == Some((a, b))
  {
    hide Utf8;
    var joined: Str := JoinBar(a, b);
    assert Utf8(joined);
    CutAfter(a, BAR, b);
  }

  lemma LineParses()
    ensures ParseLine(Line(), 1) == Ok(SampleStep())
  {
    hide Utf8, PlainPayload, PayloadAction, NameOf, ParseU32, Cut, Blank, Digit1, Name, Payload, JoinBar, Letter, Tidy;
    NoBars();
    JoinedCut(Name(), Payload());
    JoinedCut(Digit1(), JoinBar(Name(), Payload()));
    DigitParses();
    NameParses();
    PayloadIsPlain();
    PayloadParses();
    LetterIsTidy();
  }

  function SamplePlan(): AssistantPlan {
    PlanOf([SampleStep()])
  }

  lemma LineIsShort()
    ensures |Line()| == 16 && NEWLINE !in Line() && Line() != END
  {
  }

  lemma PlanParses()
    ensures Parse(SamplePlan().canonical) == Ok(Planned(SamplePlan()))
    ensures SamplePlan().graph == TaskGraph([SampleNode()]) && SamplePlan().payloads == map[1 := SampleAction()]
    ensures |SamplePlan().canonical| <= MAX_TEXT_BYTES && ExternalWrites(SamplePlan())
  {
    hide Utf8, ParseLine, Line, Name, Letter, Parse;
    LineParses();
    LineIsShort();
    var steps := [SampleStep()];
    assert StepOf(steps[0], 0);
    CanonicalReadBack(steps);
    assert NodesOf(steps) == [SampleNode()];
    assert steps[..0] == [];
    assert PayloadsOf([]) == map[];
    assert PayloadsOf(steps) == map[1 := SampleAction()];
    assert SamplePlan().graph.actions[0].sideEffect == ExternalWrite;
    assert JoinLines(steps, 1) == END;
    assert JoinLines(steps, 0) == Line() + [NEWLINE] + END;
  }

  /******* The fabric *******/

  function SampleRegistry(): Registry {
    Registry(map[Name() := Descriptor(1, Pc, ExternalWrite, true, false, false, [Name()])])
  }

  function SampleSetup(): ChatSetup {
    ChatSetup((p: AssistantPlan) => true, (p: AssistantPlan) => SampleRegistry(), (p: AssistantPlan) => Authority({Name()}, true, false))
  }

  function PreparedAction(): PlannedAction {
    NewAction(Checked(SampleNode(), SampleAction(), 1, true), 1)
  }

  function StateOf(a: PlannedAction, cursor: usize, status: PlanStatus): FabricState {
    FabricState(2, 2, map[1 := PlanState(1, 1, cursor, status, [a])])
  }

  function PreparedState(): FabricState {
    StateOf(PreparedAction(), 0, PlanReady)
  }

  lemma ActionIsTaken()
    ensures SampleRegistry().ValidateAction(Name(), SampleAction()) == Ok(Descriptor(1, Pc, ExternalWrite, true, false, false, [Name()]))
  {
    hide Name, Letter, Blank, Utf8, Tidy;
    LetterIsTidy();
    assert SampleAction().WellFormed();
    assert SampleRegistry().Lookup(Name()).Ok?;
  }

  lemma OneNodeChecks(registry: Registry, node: ActionNode, payloads: map<u32, TypedAction>, checked: Checked)
    requires CheckNode(registry, node, payloads) == Ok(checked)
    ensures CheckNodes(registry, [node], payloads, {}) == Ok([checked])
  {
    hide CheckNode;
    assert [node][1..] == [];
    assert CheckNodes(registry, [node][1..], payloads, {} + {node.id}) == Ok([]);
    assert [checked] + [] == [checked];
  }

  lemma PlanIsPrepared()
    ensures PreparePlan(SampleRegistry(), EMPTY_STATE, 1, SamplePlan().graph, SamplePlan().payloads) == (Ok(1), PreparedState())
    ensures ValidState(SampleRegistry(), PreparedState())
  {
    hide Utf8, Name, Letter, ValidState, SamplePlan, SampleRegistry, Registry.ValidateAction, Parse, ExternalWrites, SampleAction;
    PlanParses();
    ActionIsTaken();
    var graph, payloads := SamplePlan().graph, SamplePlan().payloads;
    assert CheckNode(SampleRegistry(), SampleNode(), payloads) == Ok(Checked(SampleNode(), SampleAction(), 1, true));
    OneNodeChecks(SampleRegistry(), SampleNode(), payloads, Checked(SampleNode(), SampleAction(), 1, true));
    assert payloads.Keys - NodeIds(graph.actions) == {} by {
      assert SampleNode() in graph.actions;
      assert payloads.Keys == {1};
    }
    assert NewActions([Checked(SampleNode(), SampleAction(), 1, true)], 1) == [PreparedAction()];
    EmptyStateIsValid(SampleRegistry());
    PrepareKeepsValid(SampleRegistry(), EMPTY_STATE, 1, graph, payloads);
  }

  /******* Sizes *******/

  lemma OptionSize(o: Option<Bytes>, t: Bytes)
    ensures |Format.PutOption(o, t)| == |t| + 1 + (if o.Some? then 4 + |o.value| else 0)
  {
  }

  lemma IdentitySize(i: Format.Identity, t: Bytes)
    ensures |Format.PutIdentity(i, t)| == |t| + 22 + |i.capability|
  {
  }

  lemma ActionSize(t: Bytes)
    ensures |Format.PutAction(SampleAction(), t)| == |t| + 16
  {
  }

  /** Without an output and tokens. */
  lemma ProgressSize(p: Format.Progress, t: Bytes)
    requires p.output.None? && p.resumeToken.None? && p.rollbackToken.None?
    ensures |Format.PutProgress(p, t)| == |t| + 9 + (if p.lastError.Some? then 4 + |p.lastError.value| else 0)
  {
    hide Format.PutOption;
    OptionSize(p.lastError, t);
    OptionSize(None, Format.PutOption(p.lastError, t));
    OptionSize(None, Format.PutOption(None, Format.PutOption(p.lastError, t)));
  }

  /** A sample action that has no output and no tokens. */
  predicate Bare(a: PlannedAction) {
    a.action == SampleAction() && a.capability == Name() && a.output.None? && a.resumeToken.None? && a.rollbackToken.None?
  }

  lemma PlannedSize(a: PlannedAction)
    requires Bare(a)
    ensures |Format.PutPlanned(a, [])| == 57 + (if a.lastError.Some? then 4 + |a.lastError.value| else 0)
  {
    hide Format.PutIdentity, Format.PutAction, Format.PutProgress;
    var progress := Format.PutProgress(Format.ProgressOf(a), []);
    ProgressSize(Format.ProgressOf(a), []);
    ActionSize(progress);
    IdentitySize(Format.IdentityOf(a), Format.PutAction(a.action, progress));
  }

  lemma PutOne<T>(put: (T, Bytes) -> Bytes, x: T)
    ensures PutMany(put, [x], []) == put(x, [])
  {
    assert PutFrom(put, [x], 1, []) == [];
  }

  lemma PlanSize(p: PlanState, n: nat)
    requires |p.actions| == 1 && |Format.PutPlanned(p.actions[0], [])| == n
    ensures |Format.PutPlan(p, [])| == 29 + n
  {
    hide Format.PutPlanned;
    assert p.actions == [p.actions[0]];
    PutOne(Format.PutPlanned, p.actions[0]);
  }

  lemma OnePlan(p: PlanState)
    ensures Taf97.Ordered(map[p.id := p]) == [p]
  {
    Taf97.ByIdThenOrdered([p]);
    assert Taf97.ById([p], 0) == map[p.id := p];
  }

  lemma StateSize(a: PlannedAction, cursor: usize, status: PlanStatus)
    requires Bare(a)
    ensures |Taf97.Encode(StateOf(a, cursor, status))| == 130 + (if a.lastError.Some? then 4 + |a.lastError.value| else 0)
  {
    hide Format.PutPlan, Format.PutPlanned, Taf97.Ordered;
    var s := StateOf(a, cursor, status);
    var p := s.plans[1];
    PlannedSize(a);
    PlanSize(p, |Format.PutPlanned(a, [])|);
    OnePlan(p);
    PutOne(Format.PutPlan, p);
    EncodingLength(s);
  }

  lemma PreparedFits()
    ensures Fits(PreparedState())
  {
    hide Utf8, Taf97.Encode;
    var a := PreparedAction();
    StateSize(a, 0, PlanReady);
    assert Format.FitsPlanned(a);
    assert Taf97.Encodable(PreparedState());
  }

  /******* The chat up to the approval *******/

  function Silent(): Texts {
    Texts([], [], [], [])
  }

  const PROMPT_BYTES := 4096

  /** The bytes of the summaries that a prompt would hold. */
  function SummaryBytes(evidence: seq<Evidence>): nat {
    if |evidence| == 0 then 0 else SummaryBytes(evidence[..|evidence| - 1]) + |evidence[|evidence| - 1].summary|
  }

  /** The model takes prompts with 4 KiB of summaries. */
  function SampleDevice(answer: AdapterResult): Device<()> {
    var adapter := Adapter((e: (), id: u64, a: TypedAction) => (e, Ok(answer)),
                           (e: (), id: u64, a: TypedAction, t: Bytes) => (e, Ok(answer)),
                           (e: (), id: u64, a: TypedAction, t: Bytes) => (e, Ok(())));
    ChatExecution.Device.Device(map[Name() := adapter], Silent(), (), (n: nat) => (d: Descriptor, a: TypedAction, o: ActionOutput) => Accept, true,
           (evidence: seq<Evidence>) => SummaryBytes(evidence) <= PROMPT_BYTES)
  }

  ghost function ApprovedConversation(): Conversation
    requires Persisted(SampleRegistry(), PreparedState()).Some?
  {
    Conversation(Some(ActiveTurn(1, Persisted(SampleRegistry(), PreparedState()))), map[1 := SamplePlan().graph],
                 map[1 := SamplePlan().canonical], map[1 := ApprovedExecuting])
  }

  ghost function ApprovedChat(): ChatState
    requires Persisted(SampleRegistry(), PreparedState()).Some?
  {
    ChatState(ApprovedConversation(), Some(ChatSession(1, 1, ChatRunning)), 2)
  }

  function Start(device: Device<()>): seq<ChatCall<()>> {
    [Submit(1, SamplePlan().canonical, device), Resolve(1, true, device)]
  }

  lemma IsPersisted()
    ensures Persisted(SampleRegistry(), PreparedState()).Some?
  {
    hide Fits, ValidState, PreparedState;
    PreparedFits();
    PlanIsPrepared();
  }

  /** The chat that waits for the user. */
  function WaitingChat(): ChatState {
    ChatState(Conversation(Some(ActiveTurn(1, None)), map[1 := SamplePlan().graph], map[1 := SamplePlan().canonical], map[1 := Pending]),
              Some(ChatSession(1, 1, ChatWaiting)), 2)
  }

  lemma ChatIsWaiting(device: Device<()>)
    ensures AfterSubmit(SampleSetup(), NEW_CHAT, 1, SamplePlan().canonical, device).state == WaitingChat()
  {
    hide Utf8, Parse, ExternalWrites, SamplePlan, SampleRegistry, Begin, RunBegun;
    PlanParses();
  }

  lemma WaitingIsApproved(device: Device<()>)
    requires device.ready
    ensures Persisted(SampleRegistry(), PreparedState()).Some?
    ensures AfterResolve(SampleSetup(), WaitingChat(), 1, true, device).state == ApprovedChat()
  {
    hide Utf8, Parse, ExternalWrites, Persisted, SamplePlan, SampleRegistry, PreparedState, Begin;
    IsPersisted();
    PlanParses();
    FreshBegins();
  }

  lemma FreshBegins()
    ensures Persisted(SampleRegistry(), PreparedState()).Some?
    ensures Begin(SampleSetup(), true, 1, Some(SamplePlan().graph), None, SamplePlan())
            == Some(Begun(PreparedState(), 1, Persisted(SampleRegistry(), PreparedState()).value))
  {
    hide Utf8, Parse, ExternalWrites, Persisted, SamplePlan, SampleRegistry, PreparedState, PreparePlan;
    IsPersisted();
    PlanIsPrepared();
  }

  lemma ChatIsApproved(device: Device<()>)
    requires device.ready
    ensures Persisted(SampleRegistry(), PreparedState()).Some?
    ensures ChatRun(SampleSetup(), Start(device)) == ApprovedChat()
  {
    hide SamplePlan, Persisted, PreparedState, AfterSubmit, AfterResolve, WaitingChat, ApprovedChat, SampleSetup;
    ChatIsWaiting(device);
    WaitingIsApproved(device);
    var calls := Start(device);
    assert calls[..1][..0] == [];
    assert ChatRun(SampleSetup(), calls[..1]) == WaitingChat();
  }

  /** What the approved chat runs. */
  ghost function SampleBegun(): Begun
    requires Persisted(SampleRegistry(), PreparedState()).Some?
  {
    Begun(PreparedState(), 1, Persisted(SampleRegistry(), PreparedState()).value)
  }

  lemma ApprovedIsRunnable()
    ensures Persisted(SampleRegistry(), PreparedState()).Some?
    ensures Runnable(SampleSetup(), ApprovedChat(), 1) == Some((SamplePlan(), SampleBegun()))
  {
    hide Utf8, Parse, ExternalWrites, Persisted, SamplePlan, SampleRegistry, ValidState;
    IsPersisted();
    PlanParses();
    PlanIsPrepared();
    StoredIsLoaded(SampleRegistry(), 1, SamplePlan().graph, SamplePlan(), PreparedState(), 1);
  }

  /******* The run *******/

  function SampleTools(device: Device<()>): Tools<()> {
    Tools(SampleRegistry(), device.adapters, device.texts)
  }

  function SampleAuthority(): Authority {
    Authority({Name()}, true, false)
  }

  lemma ActionIsAdmitted()
    ensures Admit(SampleRegistry(), PreparedAction(), SampleAuthority()) == Ok(Descriptor(1, Pc, ExternalWrite, true, false, false, [Name()]))
  {
    hide Utf8, Name, SampleRegistry, SampleAction, Registry.ValidateAction;
    ActionIsTaken();
    assert [Name()][1..] == [];
    assert SampleAuthority().FirstMissing([]) == None;
    assert SampleAuthority().FirstMissing([Name()]) == None;
  }

  lemma SampleIsSamePlan()
    ensures SamePlan(PreparedState().plans[1], CognitiveTask(1, SamplePlan().graph), SamplePlan())
    ensures SamplePlan().graph.actions != [] && |SamplePlan().graph.actions| == 1
  {
    hide Utf8, Name, SampleRegistry, SampleAction, Parse, ExternalWrites, SamplePlan;
    PlanParses();
  }

  function RetriedAction(reason: Str): PlannedAction {
    MarkRunning(PreparedAction()).(status := Retryable, lastError := Some(reason))
  }

  lemma RetriedStep(reason: Str, verifier: Verifier)
    ensures var device := SampleDevice(Retrying(reason, None));
            var step := ExecuteNext(SampleTools(device), PreparedState(), (), 1, SampleAuthority(), verifier);
            && step.state == StateOf(RetriedAction(reason), 0, PlanReady)
            && step.result == Ok(Report(1, Some(1), Some(Retryable), PlanReady, 0, reason))
  {
    hide Utf8, Name, SampleRegistry, SampleAction, Admit;
    ActionIsAdmitted();
    var device := SampleDevice(Retrying(reason, None));
    var a, p := PreparedAction(), PreparedState().plans[1];
    var d := Admit(SampleRegistry(), a, SampleAuthority()).value;
    var t := RunAction(SampleTools(device), (), a, d, verifier);
    assert t.action == RetriedAction(reason) && t.status == PlanReady && !t.advances;
    assert PlanAfter(p, t).actions == [t.action];
    assert PreparedState().plans[1 := PlanAfter(p, t)] == map[1 := PlanAfter(p, t)];
  }

  lemma RetriedRun(reason: Str)
    ensures var device := SampleDevice(Retrying(reason, None));
            Persisted(SampleRegistry(), PreparedState()).Some?
            && var k := ContinueBegun(SampleSetup(), 1, SamplePlan().graph, SamplePlan(), SampleBegun(), device);
            && k.outcome.state == StateOf(RetriedAction(reason), 0, PlanReady)
            && MetRetry(k, 1)
  {
    hide Utf8, Name, SampleRegistry, SampleAction, SamplePlan, ExecuteNext, SamePlan, Persisted;
    IsPersisted();
    SampleIsSamePlan();
    var device := SampleDevice(Retrying(reason, None));
    RetriedStep(reason, device.verifiers(0));
    assert PreparedState().plans[1].status == PlanReady;
  }

  /******* A retry that is lost *******/

  /** A text longer than a checkpoint may be. */
  function LongText(): (s: Str)
    ensures |s| == MAX_CHECKPOINT_BYTES + 1 && s[0] == 0x61
  {
    var s: Bytes := seq(MAX_CHECKPOINT_BYTES + 1, i => 0x61);
    AsciiText(s);
    s
  }

  function Complaining(): Device<()> {
    SampleDevice(Retrying(LongText(), None))
  }

  lemma ComplaintIsTooLarge()
    ensures !Fits(StateOf(RetriedAction(LongText()), 0, PlanReady))
  {
    hide Utf8, Name, SampleAction, Taf97.Encode, LongText;
    StateSize(RetriedAction(LongText()), 0, PlanReady);
  }

  /** A computer that answers with a complaint over 4 MiB loses the retry. */
  lemma ComplaintLosesRetry()
    ensures Persisted(SampleRegistry(), PreparedState()).Some?
    ensures LosesRetry(SampleSetup(), ApprovedChat(), Advance(1, Complaining()))
  {
    hide Utf8, Name, SampleRegistry, SamplePlan, Persisted, LongText, Fits, Runnable, ContinueBegun, SampleSetup, PreparedState, EndOf;
    ApprovedIsRunnable();
    RetriedRun(LongText());
    ComplaintIsTooLarge();
  }

  /** The retry runs again although the user approved only once, before it. */
  lemma LostRetryRunsUnapproved()
    ensures !SafeLog(ChatLog(SampleSetup(), Start(Complaining()) + [Advance(1, Complaining())] + [Advance(1, Complaining())]))
  {
    hide SafeLog, AfterCall, LosesRetry, Complaining, SampleSetup, ApprovedChat, Start, Persisted;
    var call := Advance(1, Complaining());
    var calls := Start(Complaining());
    IsReady();
    ChatIsApproved(Complaining());
    ComplaintLosesRetry();
    LostRetryIsUnsafe(SampleSetup(), ApprovedChat(), ChatLog(SampleSetup(), calls), call);
    TwoCallsMore(SampleSetup(), calls, call);
  }

  lemma IsReady()
    ensures Complaining().ready && Forgetful().ready
  {
  }

  lemma TwoCallsMore(setup: ChatSetup, calls: seq<ChatCall<()>>, call: ChatCall<()>)
    requires AfterCall(setup, ChatRun(setup, calls), call).state == ChatRun(setup, calls)
    ensures ChatLog(setup, calls + [call] + [call])
            == ChatLog(setup, calls) + AfterCall(setup, ChatRun(setup, calls), call).events + AfterCall(setup, ChatRun(setup, calls), call).events
  {
    hide AfterCall, ChatRun, ChatLog;
    assert calls[..|calls|] == calls;
    OneCallMore(setup, calls, |calls|, call);
    assert (calls + [call])[..|calls| + 1] == calls + [call];
    OneCallMore(setup, calls + [call], |calls| + 1, call);
  }

  /******* A write that is lost *******/

  function SampleOutput(): ActionOutput {
    ActionOutput(LongText(), Nothing, [])
  }

  /** The write succeeds, and reports more than fits a prompt. */
  function Forgetful(): Device<()> {
    SampleDevice(Completed(SampleOutput(), None))
  }

  function WrittenAction(): PlannedAction {
    MarkRunning(PreparedAction()).(status := Committed, output := Some(SampleOutput()))
  }

  lemma WrittenStep(verifier: Verifier)
    requires verifier == Forgetful().verifiers(0)
    ensures var step := ExecuteNext(SampleTools(Forgetful()), PreparedState(), (), 1, SampleAuthority(), verifier);
            && step.state == StateOf(WrittenAction(), 1, PlanCompleted)
            && step.result == Ok(Report(1, Some(1), Some(Committed), PlanCompleted, 1, LongText()))
            && CommittedAt(1, 0, 1) in step.events
  {
    hide Utf8, Name, SampleRegistry, SampleAction, Admit, Letter;
    ActionIsAdmitted();
    var a, p := PreparedAction(), PreparedState().plans[1];
    var d := Admit(SampleRegistry(), a, SampleAuthority()).value;
    var t := RunAction(SampleTools(Forgetful()), (), a, d, verifier);
    assert t.action == WrittenAction() && t.advances;
    assert PlanAfter(p, t).actions == [t.action];
    assert PreparedState().plans[1 := PlanAfter(p, t)] == map[1 := PlanAfter(p, t)];
    assert TurnEvents(1, 0, a, t)[1] == CommittedAt(1, 0, 1);
  }

  lemma LongTextIsVisible()
    ensures !Blank(LongText())
  {
    hide Utf8;
    assert LongText()[0] == 0x61;
  }

  /** The evidence of the write is there, but too long. */
  lemma WrittenIsEvidence()
    ensures var p := PlanState(1, 1, 1, PlanCompleted, [WrittenAction()]);
            Collected(p).Ok? && !Forgetful().answerable(Collected(p).value)
  {
    hide Utf8, Name, SampleAction, Blank, LongText;
    LongTextIsVisible();
    var e := EvidenceOf(WrittenAction()).value;
    assert [e][..0] == [] && SummaryBytes([]) == 0;
    assert SummaryBytes([e]) == |LongText()|;
    assert Collected(PlanState(1, 1, 1, PlanCompleted, [WrittenAction()])).value == [e];
  }

  lemma WrittenRun()
    ensures Persisted(SampleRegistry(), PreparedState()).Some?
            && var k := ContinueBegun(SampleSetup(), 1, SamplePlan().graph, SamplePlan(), SampleBegun(), Forgetful());
            && k.result.Ok? && !Forgetful().answerable(k.result.value.evidence) && CommittedAt(1, 0, 1) in k.outcome.events
  {
    hide Utf8, Name, SampleRegistry, SampleAction, SamplePlan, ExecuteNext, SamePlan, Persisted, Collected, WrittenAction;
    IsPersisted();
    SampleIsSamePlan();
    WrittenStep(Forgetful().verifiers(0));
    WrittenIsEvidence();
  }

  lemma ForgettingLosesWrite()
    ensures Persisted(SampleRegistry(), PreparedState()).Some?
    ensures LosesWrite(SampleSetup(), ApprovedChat(), Advance(1, Forgetful()))
  {
    hide Utf8, Name, SampleRegistry, SamplePlan, Persisted, Fits, Runnable, ContinueBegun, SampleSetup, EndOf;
    ApprovedIsRunnable();
    WrittenRun();
    var call := Advance(1, Forgetful());
    var k := ContinueBegun(SampleSetup(), 1, SamplePlan().graph, SamplePlan(), SampleBegun(), Forgetful());
    assert Starts(SampleSetup(), ApprovedChat(), call);
    assert !Kept(k, Forgetful().answerable);
    assert StartOf(SampleSetup(), ApprovedChat(), call) == PreparedState().plans[1];
    assert CommitsWrite(PreparedState().plans[1], CommittedAt(1, 0, 1));
    assert StretchOf(SampleSetup(), ApprovedChat(), call).events == k.outcome.events;
  }

  /** The external write commits twice under one approval. */
  lemma LostWriteCommitsTwice()
    ensures !Once(ChatLog(SampleSetup(), Start(Forgetful()) + [Advance(1, Forgetful())] + [Advance(1, Forgetful())]))
  {
    hide Once, AfterCall, LosesWrite, Forgetful, SampleSetup, ApprovedChat, Start, Persisted;
    var call := Advance(1, Forgetful());
    var calls := Start(Forgetful());
    IsReady();
    ChatIsApproved(Forgetful());
    ForgettingLosesWrite();
    LostWriteIsRepeated(SampleSetup(), ApprovedChat(), ChatLog(SampleSetup(), calls), call);
    TwoCallsMore(SampleSetup(), calls, call);
  }

  /******* A session that is lost *******/

  const EMPTY_CONVERSATION := Conversation(None, map[], map[], map[])

  /** A request for task 1 whose planner says nothing, and the empty conversation restored: each round uses up a request id. */
  function Rounds(device: Device<()>, n: nat): seq<ChatCall<()>> {
    if n == 0 then [] else Rounds(device, n - 1) + [Submit(1, [], device)] + [Restore(EMPTY_CONVERSATION)]
  }

  lemma NothingParses()
    ensures Parse([]).Err?
  {
    hide Lines;
    TrimTwice([]);
    assert Trim([]) == [];
  }

  /** The chat while it answers a request for task 1 that has no plan. */
  function Answering(request: u64): ChatState
    requires request < U64_MAX
  {
    ChatState(BegunTurn(EMPTY_CONVERSATION, 1), Some(ChatSession(request, 1, ChatRunning)), request + 1)
  }

  lemma SilentSubmit(device: Device<()>, request: u64)
    requires request < U64_MAX
    ensures AfterSubmit(SampleSetup(), ChatState(EMPTY_CONVERSATION, None, request), 1, [], device).state == Answering(request)
  {
    hide Parse, SampleSetup, Begin;
    NothingParses();
  }

  lemma {:induction false} RoundsRun(device: Device<()>, n: nat)
    requires n < U64_MAX
    ensures ChatRun(SampleSetup(), Rounds(device, n)) == ChatState(EMPTY_CONVERSATION, None, n + 1)
    decreases n
  {
    hide SampleSetup, ChatRun, AfterCall;
    if n > 0 {
      var before := Rounds(device, n - 1);
      RoundsRun(device, n - 1);
      SubmitMore(before, device, n);
      RestoreMore(before + [Submit(1, [], device)], n);
    } else {
      NoCalls();
    }
  }

  lemma NoCalls()
    ensures ChatRun<()>(SampleSetup(), []) == NEW_CHAT
  {
    hide SampleSetup, AfterCall;
  }

  lemma RestoreMore(calls: seq<ChatCall<()>>, request: u64)
    requires request < U64_MAX && ChatRun(SampleSetup(), calls) == Answering(request)
    ensures ChatRun(SampleSetup(), calls + [Restore(EMPTY_CONVERSATION)]) == ChatState(EMPTY_CONVERSATION, None, request + 1)
  {
    hide SampleSetup, AfterSubmit, AfterResolve, AfterAdvance, ChatRun;
    LastCall(calls, Restore(EMPTY_CONVERSATION));
  }

  lemma LastCall(calls: seq<ChatCall<()>>, call: ChatCall<()>)
    ensures ChatRun(SampleSetup(), calls + [call]) == AfterCall(SampleSetup(), ChatRun(SampleSetup(), calls), call).state
  {
    hide SampleSetup, AfterCall;
    assert (calls + [call])[..|calls|] == calls;
  }

  lemma SubmitMore(calls: seq<ChatCall<()>>, device: Device<()>, request: u64)
    requires request < U64_MAX && ChatRun(SampleSetup(), calls) == ChatState(EMPTY_CONVERSATION, None, request)
    ensures ChatRun(SampleSetup(), calls + [Submit(1, [], device)]) == Answering(request)
  {
    hide SampleSetup, AfterSubmit, ChatRun;
    SilentSubmit(device, request);
    LastCall(calls, Submit(1, [], device));
  }

  /** The calls that leave a chat answering under the last request id. */
  function Exhausting(device: Device<()>): seq<ChatCall<()>> {
    Rounds(device, U64_MAX - 2) + [Submit(1, [], device)]
  }

  lemma ChatIsExhausted(device: Device<()>)
    ensures ChatRun(SampleSetup(), Exhausting(device)) == Answering(U64_MAX - 1)
  {
    hide SampleSetup, Rounds, ChatRun;
    RoundsRun(device, U64_MAX - 2);
    SubmitMore(Rounds(device, U64_MAX - 2), device, U64_MAX - 1);
  }

  lemma RestoreIntoExhaustedLosesSession()
    ensures Persisted(SampleRegistry(), PreparedState()).Some?
    ensures LosesSession(SampleSetup(), Answering(U64_MAX - 1), ChatCall<()>.Restore(ApprovedConversation()))
  {
    hide Utf8, Name, SampleRegistry, SamplePlan, Persisted, SampleSetup, PreparedState, Runnable, ExternalWrites, Parse, SampleBegun;
    ApprovedIsRunnable();
    PlanParses();
    RunnableIgnoresIds(SampleSetup(), ApprovedChat(), Answering(U64_MAX - 1).(conversation := ApprovedConversation()), 1, U64_MAX - 1);
  }

  lemma RunnableIgnoresIds(setup: ChatSetup, s: ChatState, t: ChatState, r: u64, q: u64)
    requires s.conversation == t.conversation && s.session.Some? && s.session.value.request == r
    requires t.session == Some(s.session.value.(request := q))
    ensures Runnable(setup, s, r) == Runnable(setup, t, q)
  {
    hide Begin, StoredPlan, ExternalWrites;
  }

  /**
   After as many requests as there are ids, restoring the approved conversation fails, and the
   old session runs its write all the same.
   */
  lemma FailedRestoreRunsUnapproved(device: Device<()>) returns (next: ChatCall<()>)
    ensures Persisted(SampleRegistry(), PreparedState()).Some?
    ensures next.Advance? && next.request == U64_MAX - 1
    ensures !SafeLog(ChatLog(SampleSetup(), Exhausting(device) + [Restore(ApprovedConversation())] + [next]))
  {
    hide SafeLog, LosesSession, SampleSetup, ApprovedConversation, Persisted, ChatRun, ChatLog, Exhausting, LosesNothingMore;
    RestoreIntoExhaustedLosesSession();
    ChatIsExhausted(device);
    next := RestoreLosesSession(SampleSetup(), Exhausting(device), ApprovedConversation(), device);
  }
}
