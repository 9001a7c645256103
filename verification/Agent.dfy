/**
 The desktop agent that answers a paired phone: what one message does to it, what every
 message keeps, and that a recorded answer is final.
 */
module Agent {
  import opened Wrappers
  import opened Bytes
  import opened Capsule
  import opened Actions
  import opened Sessions
  import opened Artifacts
  import opened Wire
  import T = Taf97Format

  datatype HandlerOutput = HandlerOutput(output: ActionOutput, artifacts: seq<(Str, Vec<byte>)>)

  datatype HandlerError = PolicyDenied(reason: Str) | Io(reason: Str) | Other(text: Str)

  /** A capability handler; `E` is everything outside the agent. */
  datatype Handler<!E> = Handler(capability: RemoteCapability, execute: (E, RemoteAction) -> (E, Result<HandlerOutput, HandlerError>))

  /** What does not change while the agent runs. */
  datatype Setup<!E> = Setup(h: HashFn, labels: DigestLabels, handlers: map<Str, Handler<E>>, texts: AgentTexts)

  datatype AgentTexts = AgentTexts(notInstalled: Str, retryable: Str, rejected: Str)

  datatype AgentState = AgentState(completed: map<u64, RemoteResult>, outgoing: map<u64, ArtifactSender>, nextTransferId: u64)

  const NEW_AGENT := AgentState(map[], map[], 1)

  /** `ran` tells whether a handler was called. */
  datatype Outcome<E, T> = Outcome(reply: Result<T, PcError>, state: AgentState, env: E, ran: bool)

  /******* Building results *******/

  /** A result for request `q`, its descriptors sorted by transfer id. */
  function NewResult(h: HashFn, l: DigestLabels, q: RemoteRequest, status: ResultStatus, output: ActionOutput, artifacts: seq<ArtifactDescriptor>)
    : (r: Result<RemoteResult, PcError>)
    ensures r.Ok? ==> VerifiedAgainst(h, l, r.value, q)
    ensures r.Ok? ==> r.value.status == status && r.value.output == output && forall d :: d in r.value.artifacts <==> d in artifacts
  {
    match RequestFault(h, l, q)
    case Some(e) => Err(e)
    case None =>
      var blank := RemoteResult(q.id, q.capability, q.version, q.digest, status, output, ByTransfer(artifacts), Zeros(32));
      match FieldsFault(blank)
      case Some(e) => Err(e)
      case None =>
        if !FitsResult(blank) then Err(TooBig)
        else
          var r := blank.(digest := h(ResultText(l, blank)));
          assert ResultText(l, r) == ResultText(l, blank);
          SortedHasSame(artifacts);
          Ok(r)
  }

  function Note(text: Str): ActionOutput {
    ActionOutput(text, Nothing, [])
  }

  function NewRejection<E>(c: Setup<E>, q: RemoteRequest, reason: Str): Result<RemoteResult, PcError> {
    if Blank(reason) then Err(InvalidMessage)
    else NewResult(c.h, c.labels, q, Rejected(reason), Note(c.texts.rejected), [])
  }

  function NewRetry<E>(c: Setup<E>, q: RemoteRequest, reason: Str): Result<RemoteResult, PcError> {
    if Blank(reason) then Err(InvalidMessage)
    else NewResult(c.h, c.labels, q, Retryable(reason), Note(c.texts.retryable), [])
  }

  /******* One request *******/

  /** Stores the first `n` artifacts under fresh transfer ids; what was stored before a failure stays. */
  function StoreArtifacts(h: HashFn, s: AgentState, artifacts: seq<(Str, Vec<byte>)>, n: nat): (Result<seq<ArtifactDescriptor>, PcError>, AgentState)
    requires n <= |artifacts|
  {
    if n == 0 then (Ok([]), s)
    else
      var (done, t) := StoreArtifacts(h, s, artifacts, n - 1);
      if done.Err? then (done, t)
      else if t.nextTransferId == U64_MAX then (Err(TooBig), t)
      else
        var id := t.nextTransferId;
        var advanced := t.(nextTransferId := id + 1);
        match NewSender(h, id, artifacts[n - 1].0, artifacts[n - 1].1, DEFAULT_CHUNK)
        case Err(e) => (Err(e), advanced)
        case Ok(sender) => (Ok(done.value + [sender.descriptor]), advanced.(outgoing := advanced.outgoing[id := sender]))
  }

  /** The answer is final: later requests with this id get it again. */
  function Recorded(s: AgentState, id: u64, r: Result<RemoteResult, PcError>): AgentState {
    if r.Ok? then s.(completed := s.completed[id := r.value]) else s
  }

  function AfterRun<E>(c: Setup<E>, s: AgentState, q: RemoteRequest, env: E, answer: Result<HandlerOutput, HandlerError>): Outcome<E, RemoteResult> {
    match answer
    case Err(Io(reason)) => Outcome(NewRetry(c, q, reason), s, env, true)
    case Err(PolicyDenied(reason)) =>
      var r := NewRejection(c, q, reason);
      Outcome(r, Recorded(s, q.id, r), env, true)
    case Err(Other(text)) =>
      var r := NewRejection(c, q, text);
      Outcome(r, Recorded(s, q.id, r), env, true)
    case Ok(out) =>
      var (descriptors, t) := StoreArtifacts(c.h, s, out.artifacts, |out.artifacts|);
      if descriptors.Err? then Outcome(Err(descriptors.error), t, env, true)
      else
        var r := NewResult(c.h, c.labels, q, Finished, out.output, descriptors.value);
        Outcome(r, Recorded(t, q.id, r), env, true)
  }

  function ExecuteRequest<E>(c: Setup<E>, s: AgentState, env: E, q: RemoteRequest): Outcome<E, RemoteResult> {
    if !ValidRequest(c.h, c.labels, q) then Outcome(Err(RequestFault(c.h, c.labels, q).value), s, env, false)
    else if q.id in s.completed then
      Outcome(if s.completed[q.id].requestDigest != q.digest then Err(InvalidMessage) else Ok(s.completed[q.id]), s, env, false)
    else if q.capability !in c.handlers then Outcome(NewRejection(c, q, c.texts.notInstalled), s, env, false)
    else
      var handler := c.handlers[q.capability];
      if handler.capability.version != q.version then
        Outcome(Err(CapabilityVersionMismatch(q.capability, handler.capability.version, q.version)), s, env, false)
      else
        var (env', answer) := handler.execute(env, q.action);
        AfterRun(c, s, q, env', answer)
  }

  function Installed<E>(c: Setup<E>, keys: seq<Str>): seq<RemoteCapability> {
    seq(|keys|, i requires 0 <= i < |keys| => if keys[i] in c.handlers then c.handlers[keys[i]].capability else RemoteCapability([], 0, ReadOnly, false, false, false, []))
  }

  /** `listed` are the installed handlers' keys in order. */
  function HandleMessage<E>(c: Setup<E>, listed: seq<Str>, s: AgentState, env: E, m: RemoteMessage): Outcome<E, RemoteMessage> {
    match m
    case CapabilityQuery => Outcome(Ok(Capabilities(Installed(c, listed))), s, env, false)
    case Request(q) =>
      var o := ExecuteRequest(c, s, env, q);
      Outcome(match o.reply case Ok(r) => Ok(ResultMessage(r)) case Err(e) => Err(e), o.state, o.env, o.ran)
    case Pull(transferId, offset) =>
      if transferId !in s.outgoing then Outcome(Err(InvalidArtifact), s, env, false)
      else
        Outcome(match ChunkAt(s.outgoing[transferId], offset) case Ok(chunk) => Ok(Chunk(chunk)) case Err(e) => Err(e), s, env, false)
    case _ => Outcome(Err(InvalidMessage), s, env, false)
  }

  /******* What every message keeps *******/

  /** The stored answer belongs to some valid request with its id. */
  ghost predicate Answers(h: HashFn, l: DigestLabels, id: u64, r: RemoteResult) {
    r.id == id && exists q :: VerifiedAgainst(h, l, r, q)
  }

  predicate Retrievable(s: AgentState, d: ArtifactDescriptor) {
    d.transferId in s.outgoing && s.outgoing[d.transferId].descriptor == d
  }

  ghost predicate ValidAgent(h: HashFn, l: DigestLabels, s: AgentState) {
    && s.nextTransferId != 0
    && (forall id :: id in s.completed ==> Answers(h, l, id, s.completed[id]))
    && (forall t :: t in s.outgoing ==> t < s.nextTransferId && s.outgoing[t].descriptor.transferId == t && Honest(h, s.outgoing[t]))
    && (forall id, d :: id in s.completed && d in s.completed[id].artifacts ==> Retrievable(s, d))
  }

  /** Nothing recorded or stored is changed or lost. */
  ghost predicate AgentExtends(s: AgentState, t: AgentState) {
    && s.nextTransferId <= t.nextTransferId
    && (forall id :: id in s.completed ==> id in t.completed && t.completed[id] == s.completed[id])
    && (forall k :: k in s.outgoing ==> k in t.outgoing && t.outgoing[k] == s.outgoing[k])
  }

  lemma AgentExtendsTransitive(s: AgentState, t: AgentState, u: AgentState)
    requires AgentExtends(s, t) && AgentExtends(t, u)
    ensures AgentExtends(s, u)
  {
  }

  lemma AdvancingKeepsAgent(h: HashFn, l: DigestLabels, s: AgentState)
    requires ValidAgent(h, l, s) && s.nextTransferId < U64_MAX
    ensures var t := s.(nextTransferId := s.nextTransferId + 1); ValidAgent(h, l, t) && AgentExtends(s, t)
  {
    hide Answers, Honest;
    var t := s.(nextTransferId := s.nextTransferId + 1);
    forall id, d | id in t.completed && d in t.completed[id].artifacts
      ensures Retrievable(t, d)
    {
      assert Retrievable(s, d);
    }
  }

  lemma SendingKeepsAgent(h: HashFn, l: DigestLabels, s: AgentState, id: u64, sender: ArtifactSender)
    requires ValidAgent(h, l, s) && id < s.nextTransferId && id !in s.outgoing
    requires Honest(h, sender) && sender.descriptor.transferId == id
    ensures var t := s.(outgoing := s.outgoing[id := sender]); ValidAgent(h, l, t) && AgentExtends(s, t)
  {
    hide Answers, Honest;
    var t := s.(outgoing := s.outgoing[id := sender]);
    forall i, d | i in t.completed && d in t.completed[i].artifacts
      ensures Retrievable(t, d)
    {
      assert Retrievable(s, d);
    }
  }

  lemma {:induction false} StoringKeepsAgent(h: HashFn, l: DigestLabels, s: AgentState, artifacts: seq<(Str, Vec<byte>)>, n: nat)
    requires ValidAgent(h, l, s) && n <= |artifacts|
    ensures var (r, t) := StoreArtifacts(h, s, artifacts, n);
            && ValidAgent(h, l, t) && AgentExtends(s, t) && t.completed == s.completed
            && (r.Ok? ==> forall d :: d in r.value ==> Retrievable(t, d))
  {
    hide Answers, Honest, NewSender, ValidAgent, AgentExtends, Retrievable;
    AgentExtendsItself(s);
    if n > 0 {
      StoringKeepsAgent(h, l, s, artifacts, n - 1);
      var (done, t) := StoreArtifacts(h, s, artifacts, n - 1);
      if done.Ok? && t.nextTransferId < U64_MAX {
        StoringOneMore(h, l, t, artifacts[n - 1].0, artifacts[n - 1].1, done.value);
        AgentExtendsTransitive(s, t, StoreArtifacts(h, s, artifacts, n).1);
      }
    }
  }

  lemma AgentExtendsItself(s: AgentState)
    ensures AgentExtends(s, s)
  {
  }

  lemma StaysRetrievable(s: AgentState, t: AgentState, ds: seq<ArtifactDescriptor>)
    requires AgentExtends(s, t) && forall d :: d in ds ==> Retrievable(s, d)
    ensures forall d :: d in ds ==> Retrievable(t, d)
  {
  }

  lemma StoringOneMore(h: HashFn, l: DigestLabels, t: AgentState, name: Str, bytes: Vec<byte>, done: seq<ArtifactDescriptor>)
    requires ValidAgent(h, l, t) && t.nextTransferId < U64_MAX && forall d :: d in done ==> Retrievable(t, d)
    ensures var id := t.nextTransferId;
            var advanced := t.(nextTransferId := id + 1);
            && ValidAgent(h, l, advanced) && AgentExtends(t, advanced)
            && var sender := NewSender(h, id, name, bytes, DEFAULT_CHUNK);
            && sender.Ok? ==>
                 var u := advanced.(outgoing := advanced.outgoing[id := sender.value]);
                 && ValidAgent(h, l, u) && AgentExtends(t, u)
                 && forall d :: d in done + [sender.value.descriptor] ==> Retrievable(u, d)
  {
    hide Answers, Honest, NewSender, ValidAgent, AgentExtends;
    var id := t.nextTransferId;
    var advanced := t.(nextTransferId := id + 1);
    AdvancingKeepsAgent(h, l, t);
    NewSenderIsHonest(h, id, name, bytes);
    var sender := NewSender(h, id, name, bytes, DEFAULT_CHUNK);
    if sender.Ok? {
      FreshId(h, l, t);
      SendingKeepsAgent(h, l, advanced, id, sender.value);
      var u := advanced.(outgoing := advanced.outgoing[id := sender.value]);
      AgentExtendsTransitive(t, advanced, u);
      StaysRetrievable(t, u, done);
    }
  }

  lemma FreshId(h: HashFn, l: DigestLabels, s: AgentState)
    requires ValidAgent(h, l, s)
    ensures s.nextTransferId !in s.outgoing
  {
  }

  lemma NewSenderIsHonest(h: HashFn, id: u64, name: Str, bytes: Vec<byte>)
    ensures var r := NewSender(h, id, name, bytes, DEFAULT_CHUNK);
            r.Ok? ==> Honest(h, r.value) && r.value.descriptor.transferId == id && r.value.bytes == bytes
  {
  }

  lemma RecordingKeepsAgent(h: HashFn, l: DigestLabels, s: AgentState, q: RemoteRequest, r: RemoteResult)
    requires ValidAgent(h, l, s) && q.id !in s.completed && VerifiedAgainst(h, l, r, q)
    requires forall d :: d in r.artifacts ==> Retrievable(s, d)
    ensures var t := Recorded(s, q.id, Ok(r)); ValidAgent(h, l, t) && AgentExtends(s, t)
  {
    hide VerifiedAgainst, Honest;
    assert Answers(h, l, q.id, r) by { SameId(h, l, r, q); }
    var t := Recorded(s, q.id, Ok(r));
    forall id, d | id in t.completed && d in t.completed[id].artifacts
      ensures Retrievable(t, d)
    {
      assert Retrievable(s, d);
    }
  }

  lemma SameId(h: HashFn, l: DigestLabels, r: RemoteResult, q: RemoteRequest)
    requires VerifiedAgainst(h, l, r, q)
    ensures r.id == q.id
  {
  }

  lemma RunKeepsAgent<E>(c: Setup<E>, s: AgentState, q: RemoteRequest, env: E, answer: Result<HandlerOutput, HandlerError>)
    requires ValidAgent(c.h, c.labels, s) && q.id !in s.completed
    ensures var o := AfterRun(c, s, q, env, answer);
            && ValidAgent(c.h, c.labels, o.state) && AgentExtends(s, o.state)
            && (o.reply.Ok? ==> VerifiedAgainst(c.h, c.labels, o.reply.value, q))
            && (q.id in o.state.completed <==> o.reply.Ok? && !o.reply.value.status.Retryable?)
            && (q.id in o.state.completed ==> o.reply == Ok(o.state.completed[q.id]))
  {
    hide VerifiedAgainst, ValidAgent, ValidRequest, ValidFields, FitsResult, Blank, ResultText;
    if answer.Ok? {
      StoringKeepsAgent(c.h, c.labels, s, answer.value.artifacts, |answer.value.artifacts|);
    }
    var o := AfterRun(c, s, q, env, answer);
    if o.reply.Ok? && !o.reply.value.status.Retryable? {
      var t := if answer.Ok? then StoreArtifacts(c.h, s, answer.value.artifacts, |answer.value.artifacts|).1 else s;
      RecordingKeepsAgent(c.h, c.labels, t, q, o.reply.value);
      AgentExtendsTransitive(s, t, o.state);
    }
  }

  /** No request that asks anything else has the digest of `q`. */
  ghost predicate Unmistaken(h: HashFn, l: DigestLabels, q: RemoteRequest) {
    forall a :: FitsRequest(a) && h(RequestText(l, a)) == h(RequestText(l, q)) ==> RequestText(l, a) == RequestText(l, q)
  }

  lemma RepeatedReplyVerifies(h: HashFn, l: DigestLabels, r: RemoteResult, q: RemoteRequest)
    requires Unmistaken(h, l, q) && Answers(h, l, q.id, r) && ValidRequest(h, l, q) && r.requestDigest == q.digest
    ensures VerifiedAgainst(h, l, r, q)
  {
    hide RequestText, ResultText, ValidFields, FitsResult, Blank;
    var first :| VerifiedAgainst(h, l, r, first);
    TextTellsRequest(l, first, q);
  }

  /** One request: the invariant is kept, nothing recorded changes, and every reply verifies against the request. */
  lemma RequestKeepsAgent<E>(c: Setup<E>, s: AgentState, env: E, q: RemoteRequest)
    requires ValidAgent(c.h, c.labels, s)
    ensures var o := ExecuteRequest(c, s, env, q);
            && ValidAgent(c.h, c.labels, o.state) && AgentExtends(s, o.state)
            && (Unmistaken(c.h, c.labels, q) && o.reply.Ok? ==> VerifiedAgainst(c.h, c.labels, o.reply.value, q))
  {
    hide VerifiedAgainst, ValidRequest, AfterRun, Unmistaken, Retrievable, Honest, Answers;
    if ValidRequest(c.h, c.labels, q) {
      if q.id in s.completed {
        if Unmistaken(c.h, c.labels, q) && s.completed[q.id].requestDigest == q.digest {
          RepeatedReplyVerifies(c.h, c.labels, s.completed[q.id], q);
        }
      } else if q.capability in c.handlers {
        var (env', answer) := c.handlers[q.capability].execute(env, q.action);
        RunKeepsAgent(c, s, q, env', answer);
      }
    }
  }

  lemma MessageKeepsAgent<E>(c: Setup<E>, listed: seq<Str>, s: AgentState, env: E, m: RemoteMessage)
    requires ValidAgent(c.h, c.labels, s)
    ensures var o := HandleMessage(c, listed, s, env, m);
            ValidAgent(c.h, c.labels, o.state) && AgentExtends(s, o.state)
  {
    hide ExecuteRequest, ValidAgent;
    if m.Request? {
      RequestKeepsAgent(c, s, env, m.request);
    }
  }

  /** A recorded request is never run again: same digest, same answer; another digest is refused; nothing changes. */
  lemma RecordedIsFinal<E>(c: Setup<E>, s: AgentState, env: E, q: RemoteRequest)
    requires q.id in s.completed && ValidRequest(c.h, c.labels, q)
    ensures ExecuteRequest(c, s, env, q)
            == Outcome(if s.completed[q.id].requestDigest == q.digest then Ok(s.completed[q.id]) else Err(InvalidMessage), s, env, false)
  {
    hide ValidRequest;
  }

  /******* When a handler does not run twice *******/

  /** The request passes every check that comes before its handler. */
  predicate Reaches<E>(c: Setup<E>, s: AgentState, q: RemoteRequest) {
    && ValidRequest(c.h, c.labels, q) && q.id !in s.completed
    && q.capability in c.handlers && c.handlers[q.capability].capability.version == q.version
  }

  /** Every artifact has a name that is not blank, and transfer ids do not run out. */
  predicate Storable(s: AgentState, artifacts: seq<(Str, Vec<byte>)>) {
    && s.nextTransferId + |artifacts| <= U64_MAX
    && forall i :: 0 <= i < |artifacts| ==> !Blank(artifacts[i].0)
  }

  predicate FitsReason(texts: AgentTexts, reason: Str) {
    !Blank(reason) && T.Fits(reason) && FitsOutput(Note(texts.rejected))
  }

  /** The handler's answer can be stored and reported, and is final. */
  predicate Recordable<E>(c: Setup<E>, s: AgentState, answer: Result<HandlerOutput, HandlerError>) {
    match answer
    case Ok(out) =>
      && Storable(s, out.artifacts) && |out.artifacts| <= U32_MAX && FitsOutput(out.output)
      && forall i :: 0 <= i < |out.artifacts| ==> T.Fits(out.artifacts[i].0)
    case Err(Io(_)) => false
    case Err(PolicyDenied(reason)) => FitsReason(c.texts, reason)
    case Err(Other(text)) => FitsReason(c.texts, text)
  }

  function DescriptorOf(h: HashFn, first: u64, artifacts: seq<(Str, Vec<byte>)>, i: nat): ArtifactDescriptor
    requires i < |artifacts| && first + i <= U64_MAX
  {
    ArtifactDescriptor(first + i, artifacts[i].0, |artifacts[i].1|, h(artifacts[i].1), DEFAULT_CHUNK)
  }

  /** Artifacts are stored exactly when they can be, under ids counted up from the next one. */
  lemma {:induction false} StoredExactly(h: HashFn, s: AgentState, artifacts: seq<(Str, Vec<byte>)>, n: nat)
    requires n <= |artifacts| && s.nextTransferId != 0
    ensures var (r, t) := StoreArtifacts(h, s, artifacts, n);
            && (r.Ok? <==> Storable(s, artifacts[..n]))
            && (r.Ok? ==> t.nextTransferId == s.nextTransferId + n && |r.value| == n
                          && forall i :: 0 <= i < n ==> r.value[i] == DescriptorOf(h, s.nextTransferId, artifacts, i))
    decreases n
  {
    hide Blank;
    if n > 0 {
      StoredExactly(h, s, artifacts, n - 1);
      assert artifacts[..n] == artifacts[..n - 1] + [artifacts[n - 1]];
      assert artifacts[..n][n - 1] == artifacts[n - 1];
      if Storable(s, artifacts[..n]) {
        assert forall i :: 0 <= i < n - 1 ==> artifacts[..n - 1][i] == artifacts[..n][i];
      }
    }
  }

  lemma {:induction false} AscendingIsSorted(ds: seq<ArtifactDescriptor>)
    requires AscendingIds(ds)
    ensures ByTransfer(ds) == ds
    decreases |ds|
  {
    hide InsertDescriptor, AscendingIds;
    if ds != [] {
      var n := |ds| - 1;
      AscendingPrefix(ds);
      AscendingIsSorted(ds[..n]);
      InsertedLast(ds[..n], ds[n]);
    }
  }

  lemma AscendingPrefix(ds: seq<ArtifactDescriptor>)
    requires AscendingIds(ds) && ds != []
    ensures AscendingIds(ds[..|ds| - 1])
    ensures |ds| > 1 ==> ds[|ds| - 2].transferId < ds[|ds| - 1].transferId
  {
  }

  lemma InsertedLast(sorted: seq<ArtifactDescriptor>, d: ArtifactDescriptor)
    requires sorted == [] || sorted[|sorted| - 1].transferId <= d.transferId
    ensures InsertDescriptor(sorted, d) == sorted + [d]
  {
  }

  /** A result can be made exactly when its status and output fit, its artifacts being described in ascending order. */
  lemma ResultExactly(h: HashFn, l: DigestLabels, q: RemoteRequest, status: ResultStatus, output: ActionOutput, ds: seq<ArtifactDescriptor>)
    requires ValidRequest(h, l, q) && AscendingIds(ds) && (status.Finished? || !Blank(status.reason))
    ensures NewResult(h, l, q, status, output, ds).Ok?
            <==> FitsStatus(status) && FitsOutput(output) && |ds| <= U32_MAX && All(FitsDescriptor, ds)
  {
    hide FitsStatus, FitsOutput, FitsDescriptor, ResultText, Blank, RequestText, RemoteAction.Valid;
    AscendingIsSorted(ds);
  }

  lemma FinishedExactly(h: HashFn, l: DigestLabels, s: AgentState, q: RemoteRequest, out: HandlerOutput, ds: seq<ArtifactDescriptor>)
    requires ValidRequest(h, l, q) && s.nextTransferId != 0 && Storable(s, out.artifacts) && |ds| == |out.artifacts|
    requires forall i :: 0 <= i < |ds| ==> ds[i] == DescriptorOf(h, s.nextTransferId, out.artifacts, i)
    ensures NewResult(h, l, q, Finished, out.output, ds).Ok?
            <==> |out.artifacts| <= U32_MAX && FitsOutput(out.output) && forall i :: 0 <= i < |out.artifacts| ==> T.Fits(out.artifacts[i].0)
  {
    hide ValidRequest, FitsOutput, Blank, NewResult, T.Fits;
    assert forall i :: 0 <= i < |ds| ==> ds[i].Valid() && ds[i].name == out.artifacts[i].0;
    ResultExactly(h, l, q, Finished, out.output, ds);
    if forall i :: 0 <= i < |out.artifacts| ==> T.Fits(out.artifacts[i].0) {
      assert All(FitsDescriptor, ds);
    } else {
      var i :| 0 <= i < |out.artifacts| && !T.Fits(out.artifacts[i].0);
      assert !FitsDescriptor(ds[i]);
    }
  }

  lemma RejectionExactly<E>(c: Setup<E>, q: RemoteRequest, reason: Str)
    requires ValidRequest(c.h, c.labels, q)
    ensures NewRejection(c, q, reason).Ok? <==> FitsReason(c.texts, reason)
  {
    hide ValidRequest, FitsOutput, Blank, NewResult, T.Fits;
    if !Blank(reason) {
      ResultExactly(c.h, c.labels, q, Rejected(reason), Note(c.texts.rejected), []);
    }
  }

  /**
   A request's handler is called exactly if the request is new and passes the checks; the call
   is on record afterwards, and so the handler never runs for this request again, exactly if the
   answer can be stored and reported.
   */
  lemma RecordedExactly<E>(c: Setup<E>, s: AgentState, env: E, q: RemoteRequest)
    requires ValidAgent(c.h, c.labels, s)
    ensures var o := ExecuteRequest(c, s, env, q);
            && (o.ran <==> Reaches(c, s, q))
            && (o.ran ==> (q.id in o.state.completed <==> Recordable(c, s, c.handlers[q.capability].execute(env, q.action).1)))
  {
    hide ValidRequest, ValidAgent, Recordable, AfterRun;
    if Reaches(c, s, q) {
      var (env', answer) := c.handlers[q.capability].execute(env, q.action);
      AnswerRecordedExactly(c, s, q, env', answer);
      RanAfterRun(c, s, q, env', answer);
    }
  }

  lemma RanAfterRun<E>(c: Setup<E>, s: AgentState, q: RemoteRequest, env: E, answer: Result<HandlerOutput, HandlerError>)
    ensures AfterRun(c, s, q, env, answer).ran
  {
  }

  lemma AnswerRecordedExactly<E>(c: Setup<E>, s: AgentState, q: RemoteRequest, env: E, answer: Result<HandlerOutput, HandlerError>)
    requires ValidAgent(c.h, c.labels, s) && q.id !in s.completed && ValidRequest(c.h, c.labels, q)
    ensures q.id in AfterRun(c, s, q, env, answer).state.completed <==> Recordable(c, s, answer)
  {
    hide ValidRequest, NewResult, NewRejection, FitsReason, FitsOutput, Blank, T.Fits, Answers, Honest;
    RunKeepsAgent(c, s, q, env, answer);
    match answer
    case Err(Io(_)) =>
    case Err(PolicyDenied(reason)) => RejectionExactly(c, q, reason);
    case Err(Other(text)) => RejectionExactly(c, q, text);
    case Ok(out) =>
      StoredExactly(c.h, s, out.artifacts, |out.artifacts|);
      assert out.artifacts[..|out.artifacts|] == out.artifacts;
      var (ds, _) := StoreArtifacts(c.h, s, out.artifacts, |out.artifacts|);
      if ds.Ok? {
        FinishedExactly(c.h, c.labels, s, q, out, ds.value);
      }
  }

  /******* The same request again and again *******/

  /** State and world after the same request came `n` times. */
  function Repeated<E>(c: Setup<E>, s: AgentState, env: E, q: RemoteRequest, n: nat): (AgentState, E) {
    if n == 0 then (s, env)
    else
      var (t, e) := Repeated(c, s, env, q, n - 1);
      var o := ExecuteRequest(c, t, e, q);
      (o.state, o.env)
  }

  /** The answer of the handler to repetition `n`, if it comes to that, cannot be recorded. */
  predicate Forgets<E>(c: Setup<E>, s: AgentState, env: E, q: RemoteRequest, n: nat)
    requires q.capability in c.handlers
  {
    var (t, e) := Repeated(c, s, env, q, n);
    !Recordable(c, t, c.handlers[q.capability].execute(e, q.action).1)
  }

  /** A repeated request runs its handler each time up to and with the first answer that can be recorded, and never after it. */
  lemma {:induction false} RunsUntilRecorded<E>(c: Setup<E>, s: AgentState, env: E, q: RemoteRequest, n: nat)
    requires ValidAgent(c.h, c.labels, s) && Reaches(c, s, q)
    ensures var (t, e) := Repeated(c, s, env, q, n);
            && ValidAgent(c.h, c.labels, t)
            && (Reaches(c, t, q) <==> ExecuteRequest(c, t, e, q).ran)
            && (Reaches(c, t, q) <==> forall k :: 0 <= k < n ==> Forgets(c, s, env, q, k))
    decreases n
  {
    hide ValidRequest, ValidAgent, Recordable, ExecuteRequest;
    var (t, e) := Repeated(c, s, env, q, n);
    if n > 0 {
      RunsUntilRecorded(c, s, env, q, n - 1);
      var (t', e') := Repeated(c, s, env, q, n - 1);
      RequestKeepsAgent(c, t', e', q);
      RecordedExactly(c, t', e', q);
      assert AgentExtends(t', t);
      assert Forgets(c, s, env, q, n - 1) <==> !Recordable(c, t', c.handlers[q.capability].execute(e', q.action).1);
    }
    RecordedExactly(c, t, e, q);
  }

  /******* A handler that runs every time *******/

  function OneByte(): Str { [0x61] }

  /** A capability that finishes with one artifact, whose name is empty. */
  function NamelessSetup(h: HashFn): Setup<()> {
    var handler := Handler(RemoteCapability(OneByte(), 1, ReadOnly, false, false, false, []),
                           (e: (), a: RemoteAction) => (e, Ok(HandlerOutput(Note(OneByte()), [([], [])]))));
    Setup(h, DigestLabels([], []), map[OneByte() := handler], AgentTexts(OneByte(), OneByte(), OneByte()))
  }

  function NamelessRequest(h: HashFn): RemoteRequest {
    var q := RemoteRequest(1, OneByte(), 1, Observe(OneByte()), Zeros(32));
    q.(digest := h(RequestText(DigestLabels([], []), q)))
  }

  /** However often the request comes, its handler runs again. */
  lemma NamelessRunsEveryTime(h: HashFn, n: nat)
    ensures var c, q := NamelessSetup(h), NamelessRequest(h);
            var (t, e) := Repeated(c, NEW_AGENT, (), q, n);
            ExecuteRequest(c, t, e, q).ran
  {
    hide ExecuteRequest, Repeated, RequestText;
    var c, q := NamelessSetup(h), NamelessRequest(h);
    assert !Blank(OneByte());
    assert Blank([]);
    assert ValidAgent(h, c.labels, NEW_AGENT);
    assert RequestText(c.labels, q) == RequestText(c.labels, q.(digest := Zeros(32))) by { DigestIsNotDigested(c.labels, q, Zeros(32)); }
    forall k | 0 <= k < n
      ensures Forgets(c, NEW_AGENT, (), q, k)
    {
      var (t, e) := Repeated(c, NEW_AGENT, (), q, k);
      assert Blank(c.handlers[q.capability].execute(e, q.action).1.value.artifacts[0].0);
    }
    RunsUntilRecorded(c, NEW_AGENT, (), q, n);
  }

  lemma DigestIsNotDigested(l: DigestLabels, q: RemoteRequest, digest: Digest)
    ensures RequestText(l, q) == RequestText(l, q.(digest := digest))
  {
  }
}
