/**
 Actions over a paired PC: a recorded action is never executed again while the session lasts;
 a lost reply ends the session; and a new session starts with nothing recorded.
 */
module PcRequests {
  import opened Wrappers
  import opened Bytes
  import opened Capsule
  import opened Actions
  import opened Sessions
  import opened Artifacts
  import opened Wire
  import opened Agent
  import opened AgentRuns
  import opened PcAdapter
  import opened PcLinks
  import F = FabricModel

  /******* What the agent's result comes to on the phone *******/

  /** The result as the phone reports it, `s` being the state of the agent that made it. */
  function Delivered(p: Phone, s: AgentState, action: TypedAction, result: RemoteResult): Result<F.AdapterResult, Str> {
    match result.status
    case Retryable(reason) => Ok(F.Retrying(reason, None))
    case Rejected(reason) => Err(reason)
    case Finished =>
      if !action.PcArtifactRead? then
        Ok(F.Completed(result.output.(evidence := result.output.evidence + ArtifactNotes(p.texts, result.artifacts)), None))
      else if |result.artifacts| != 1 then Err(p.texts.error(InvalidArtifact))
      else
        var d := result.artifacts[0];
        if d.transferId !in s.outgoing then Err(p.texts.error(InvalidArtifact))
        else
          Ok(F.Completed(result.output.(value := Blob(s.outgoing[d.transferId].bytes),
                                        evidence := result.output.evidence + [p.texts.hash(d.hash)]), None))
  }

  /** The session has messages left to pull the artifact. */
  predicate LeftFor(s: Session, d: ArtifactDescriptor) {
    && d.chunkSize > 0
    && s.txSequence + ChunkCount(d.length, d.chunkSize) <= U64_MAX
    && s.rxSequence + ChunkCount(d.length, d.chunkSize) <= U64_MAX
  }

  predicate LeftForAll(s: Session, ds: seq<ArtifactDescriptor>) {
    forall i :: 0 <= i < |ds| ==> LeftFor(s, ds[i])
  }

  /** Sessions in step, the agent and its world in these states. */
  ghost predicate At<E>(e: Ends<AgentSide<E>>, s: AgentState, env: E) {
    e.world.state == s && e.world.env == env && InStep(e.session, e.world.session)
  }

  lemma ConcludedFromAgent<E>(p: Phone, setup: Setup<E>, listed: seq<Str>, e: Ends<AgentSide<E>>, action: TypedAction, result: RemoteResult)
    requires Reliable(p.cipher) && p.h == setup.h && p.labels == setup.labels && InStep(e.session, e.world.session)
    requires ValidAgent(setup.h, setup.labels, e.world.state) && forall d :: d in result.artifacts ==> Retrievable(e.world.state, d)
    requires LeftForAll(e.session, result.artifacts)
    ensures var (e', r) := Concluded(p, AgentLink(setup, listed, p.cipher), e, action, result);
            At(e', e.world.state, e.world.env) && r == Delivered(p, e.world.state, action, result)
  {
    hide Reliable, InStep, AgentLink, Pulled, ArtifactNotes, Answers;
    if result.status.Finished? && action.PcArtifactRead? && |result.artifacts| == 1 {
      var d := result.artifacts[0];
      assert d in result.artifacts && LeftFor(e.session, d);
      OfferedIsPulled(p, setup, listed, e, d);
    }
  }

  /** The action's request fits a frame, and so does what the agent answers; the session has messages left for what it describes. */
  ghost predicate Smooth<E>(p: Phone, setup: Setup<E>, listed: seq<Str>, e: Ends<AgentSide<E>>, q: RemoteRequest) {
    && Linked(p, setup, e) && FitsFrame(p.h, p.labels, Request(q))
    && var o := ExecuteRequest(setup, e.world.state, e.world.env, q);
       o.reply.Ok? ==> FitsFrame(p.h, p.labels, ResultMessage(o.reply.value))
                       && LeftForAll(AfterAnswer(e, Answer(setup, listed, e.world, Request(q))).session, o.reply.value.artifacts)
  }

  /**
   Over a lossless link an action comes to one step of the agent: its state and world change as
   by the one request, and the phone reports the agent's result, artifact bytes included.
   */
  lemma PerformedByAgent<E>(p: Phone, setup: Setup<E>, listed: seq<Str>, e: Ends<AgentSide<E>>, id: u64, action: TypedAction, q: RemoteRequest)
    requires RequestOf(p, id, action) == Ok(q) && Smooth(p, setup, listed, e, q)
    requires ValidAgent(setup.h, setup.labels, e.world.state) && Unmistaken(setup.h, setup.labels, q)
    ensures var (e', r) := Performed(p, AgentLink(setup, listed, p.cipher), e, id, action);
            var o := ExecuteRequest(setup, e.world.state, e.world.env, q);
            && At(e', o.state, o.env)
            && r == (match o.reply case Ok(result) => Delivered(p, o.state, action, result) case Err(x) => Err(p.texts.error(x)))
  {
    hide Reliable, InStep, AgentLink, RequestOf, FitsFrame, ExecuteRequest, Exchange, Concluded, VerifiedAgainst, Delivered,
         ValidAgent, Unmistaken, LeftForAll;
    ExchangeWithAgent(p, setup, listed, e, Request(q));
    RequestKeepsAgent(setup, e.world.state, e.world.env, q);
    var o := ExecuteRequest(setup, e.world.state, e.world.env, q);
    if o.reply.Ok? {
      ReplyIsRetrievable(setup, e.world.state, e.world.env, q);
      ConcludedFromAgent(p, setup, listed, AfterAnswer(e, Answer(setup, listed, e.world, Request(q))), action, o.reply.value);
    }
  }

  /** Every artifact a reply describes can be fetched. */
  lemma ReplyIsRetrievable<E>(c: Setup<E>, s: AgentState, env: E, q: RemoteRequest)
    requires ValidAgent(c.h, c.labels, s)
    ensures var o := ExecuteRequest(c, s, env, q);
            o.reply.Ok? ==> forall d :: d in o.reply.value.artifacts ==> Retrievable(o.state, d)
  {
    hide ValidRequest, Answers, Honest, NewResult, AfterRun, Blank;
    if q.id !in s.completed && q.capability in c.handlers {
      var (env', answer) := c.handlers[q.capability].execute(env, q.action);
      RunIsRetrievable(c, s, q, env', answer);
    }
  }

  lemma RunIsRetrievable<E>(c: Setup<E>, s: AgentState, q: RemoteRequest, env: E, answer: Result<HandlerOutput, HandlerError>)
    requires ValidAgent(c.h, c.labels, s)
    ensures var o := AfterRun(c, s, q, env, answer);
            o.reply.Ok? ==> forall d :: d in o.reply.value.artifacts ==> Retrievable(o.state, d)
  {
    hide ValidRequest, ValidAgent, NewResult, StoreArtifacts, Blank;
    if answer.Ok? {
      StoringKeepsAgent(c.h, c.labels, s, answer.value.artifacts, |answer.value.artifacts|);
      var o := AfterRun(c, s, q, env, answer);
      if o.reply.Ok? {
        forall d | d in o.reply.value.artifacts
          ensures Retrievable(o.state, d)
        {
          assert Retrievable(StoreArtifacts(c.h, s, answer.value.artifacts, |answer.value.artifacts|).1, d);
        }
      }
    }
  }

  /******* The same action id again *******/

  /** Once a request's id is on record, the same request gets the same reply, nothing runs, and nothing changes. */
  lemma AnsweredAgain<E>(c: Setup<E>, s: AgentState, env: E, q: RemoteRequest)
    requires ValidAgent(c.h, c.labels, s) && ValidRequest(c.h, c.labels, q)
    requires q.id in ExecuteRequest(c, s, env, q).state.completed
    ensures var o := ExecuteRequest(c, s, env, q);
            ExecuteRequest(c, o.state, o.env, q) == Outcome(o.reply, o.state, o.env, false)
  {
    hide ValidRequest, ValidAgent, AfterRun, NewResult, NewRejection;
    var o := ExecuteRequest(c, s, env, q);
    RecordedIsFinal(c, o.state, o.env, q);
    if q.id !in s.completed && q.capability in c.handlers {
      var (env', answer) := c.handlers[q.capability].execute(env, q.action);
      RunKeepsAgent(c, s, q, env', answer);
    }
  }

  /**
   An action repeated in a session whose agent has its id on record is reported as before; the
   handler is not called again, and neither the agent nor its world changes.
   */
  lemma RepeatedAction<E>(p: Phone, setup: Setup<E>, listed: seq<Str>, e: Ends<AgentSide<E>>, e': Ends<AgentSide<E>>,
                          r: Result<F.AdapterResult, Str>, id: u64, action: TypedAction, q: RemoteRequest)
    requires RequestOf(p, id, action) == Ok(q) && ValidAgent(setup.h, setup.labels, e.world.state) && Unmistaken(setup.h, setup.labels, q)
    requires Smooth(p, setup, listed, e, q) && Performed(p, AgentLink(setup, listed, p.cipher), e, id, action) == (e', r)
    requires id in e'.world.state.completed && Smooth(p, setup, listed, e', q)
    ensures var (e2, r2) := Performed(p, AgentLink(setup, listed, p.cipher), e', id, action);
            r2 == r && At(e2, e'.world.state, e'.world.env)
    ensures !ExecuteRequest(setup, e'.world.state, e'.world.env, q).ran
  {
    hide Smooth, AgentLink, Performed, ExecuteRequest, Delivered, ValidAgent, Unmistaken, InStep, Reliable, ValidRequest, MapAction, NewRequest;
    ValidityOfRequest(p, setup, listed, e, id, action, q);
    PerformedByAgent(p, setup, listed, e, id, action, q);
    RequestKeepsAgent(setup, e.world.state, e.world.env, q);
    AnsweredAgain(setup, e.world.state, e.world.env, q);
    PerformedByAgent(p, setup, listed, e', id, action, q);
  }

  lemma ValidityOfRequest<E>(p: Phone, setup: Setup<E>, listed: seq<Str>, e: Ends<AgentSide<E>>, id: u64, action: TypedAction, q: RemoteRequest)
    requires RequestOf(p, id, action) == Ok(q) && Smooth(p, setup, listed, e, q)
    ensures ValidRequest(setup.h, setup.labels, q) && q.id == id
  {
    hide ValidRequest, FitsFrame, Reliable, InStep, ExecuteRequest;
  }

  /**
   An action whose id is on record is never run: it is reported as recorded if the record answers
   its own request, and refused if it answers another.
   */
  lemma RecordedIdExactly<E>(p: Phone, setup: Setup<E>, listed: seq<Str>, e: Ends<AgentSide<E>>, id: u64, action: TypedAction, q: RemoteRequest)
    requires RequestOf(p, id, action) == Ok(q) && ValidAgent(setup.h, setup.labels, e.world.state) && Unmistaken(setup.h, setup.labels, q)
    requires Smooth(p, setup, listed, e, q) && id in e.world.state.completed
    ensures var (e', r) := Performed(p, AgentLink(setup, listed, p.cipher), e, id, action);
            var recorded := e.world.state.completed[id];
            && At(e', e.world.state, e.world.env)
            && r == if VerifiedAgainst(p.h, p.labels, recorded, q) then Delivered(p, e.world.state, action, recorded)
                    else Err(p.texts.error(InvalidMessage))
  {
    hide Smooth, AgentLink, Performed, Delivered, Unmistaken, InStep, Reliable, ValidRequest, MapAction, NewRequest, ValidResult, Honest, ExecuteRequest;
    ValidityOfRequest(p, setup, listed, e, id, action, q);
    SameTexts(p, setup, listed, e, q);
    PerformedByAgent(p, setup, listed, e, id, action, q);
    RecordedIsFinal(setup, e.world.state, e.world.env, q);
    if e.world.state.completed[id].requestDigest == q.digest {
      RepeatedReplyVerifies(p.h, p.labels, e.world.state.completed[id], q);
    }
  }

  lemma SameTexts<E>(p: Phone, setup: Setup<E>, listed: seq<Str>, e: Ends<AgentSide<E>>, q: RemoteRequest)
    requires Smooth(p, setup, listed, e, q)
    ensures p.h == setup.h && p.labels == setup.labels
  {
    hide FitsFrame, Reliable, InStep, ExecuteRequest;
  }

  /** No record answers two requests that ask for different things. */
  lemma OneRequestOnRecord(h: HashFn, l: DigestLabels, recorded: RemoteResult, a: RemoteRequest, b: RemoteRequest)
    requires Unmistaken(h, l, b) && VerifiedAgainst(h, l, recorded, a) && VerifiedAgainst(h, l, recorded, b)
    ensures a == b
  {
    hide RequestText, ValidResult, Blank, RemoteAction.Valid, FitsRequest;
    TextTellsRequest(l, a, b);
  }

  /******* A lost reply *******/

  /** The agent has the phone's message, and its reply is lost; `x` is the transport's error. */
  function LosingLink<E>(setup: Setup<E>, listed: seq<Str>, cipher: Cipher, x: PcError): Link<AgentSide<E>> {
    Link((a: AgentSide<E>, frame: Bytes) => (ReplyTo(setup, listed, cipher, a, frame).0, Err(x)))
  }

  /** The agent has sent frames that the phone has not opened. */
  predicate Ahead(a: Session, b: Session) {
    && a.id == b.id && a.txKey == b.rxKey && a.rxKey == b.txKey
    && a.txSequence == b.rxSequence && a.rxSequence < b.txSequence
  }

  /** The phone does not open a frame that is not the next one. */
  lemma LaterFrameIsRefused(c: Cipher, a: Session, b: Session, text: Bytes)
    requires a.id == b.id && a.rxSequence != b.txSequence && AfterSeal(c, b, text).0.Ok?
    ensures AfterOpen(c, a, AfterSeal(c, b, text).0.value) == (Err(Replay(a.rxSequence, b.txSequence)), a)
  {
    hide Frame, FrameHeader;
    var ciphertext := c.seal(b.txKey, SessionNonce(b.txSequence), FrameHeader(b.id, b.txSequence), text).value;
    FrameSlices(b.id, b.txSequence, ciphertext);
  }

  /** The agent's session after a frame that opens: at most one more frame of its own. */
  lemma ReplySession<E>(setup: Setup<E>, listed: seq<Str>, c: Cipher, a: AgentSide<E>, frame: Bytes) returns (text: Bytes)
    requires AfterOpen(c, a.session, frame).0.Ok?
    ensures var (w, r) := ReplyTo(setup, listed, c, a, frame);
            var mid := AfterOpen(c, a.session, frame).1;
            if r.Ok? then (w.session, r) == ToSeal(c, mid, text) else w.session == mid
  {
    hide AfterOpen, EncodeMessage, DecodeMessage, HandleMessage, Frame, FrameHeader, SessionNonce;
    text := [];
    var m := DecodeMessage(setup.h, setup.labels, AfterOpen(c, a.session, frame).0.value);
    if m.Ok? {
      var o := HandleMessage(setup, listed, a.state, a.env, m.value);
      if o.reply.Ok? && EncodeMessage(setup.h, setup.labels, o.reply.value).Ok? {
        text := EncodeMessage(setup.h, setup.labels, o.reply.value).value;
      }
    }
  }

  /** Once the agent is ahead, every exchange fails, and the agent stays ahead. */
  lemma AheadIsDeaf<E>(p: Phone, setup: Setup<E>, listed: seq<Str>, e: Ends<AgentSide<E>>, m: RemoteMessage)
    requires p.cipher.Lawful() && Ahead(e.session, e.world.session)
    ensures var (e', r) := Exchange(p, AgentLink(setup, listed, p.cipher), e, m);
            r.Err? && Ahead(e'.session, e'.world.session)
  {
    hide AfterSeal, AfterOpen, EncodeMessage, DecodeMessage, AgentLink, ReplyTo, Cipher.Lawful, ToSeal;
    if EncodeMessage(p.h, p.labels, m).Ok? {
      var text, link := EncodeMessage(p.h, p.labels, m).value, AgentLink(setup, listed, p.cipher);
      SealCounts(p.cipher, e.session, text);
      var (frame, sealing) := AfterSeal(p.cipher, e.session, text);
      if frame.Ok? {
        SealedFrameOpens(p.cipher, e.session, e.world.session, text);
        var back := ReplySession(setup, listed, p.cipher, e.world, frame.value);
        LinkReplies(setup, listed, p.cipher, e.world, frame.value);
        AheadReply(p, sealing, e.world.session.(rxSequence := e.world.session.rxSequence + 1), back);
      }
    }
  }

  lemma SealCounts(c: Cipher, s: Session, text: Bytes)
    ensures var (frame, t) := AfterSeal(c, s, text);
            t == if frame.Ok? then s.(txSequence := s.txSequence + 1) else s
    ensures AfterSeal(c, s, text).0.Ok? ==> s.txSequence < U64_MAX
  {
    hide Frame, FrameHeader, SessionNonce;
  }

  lemma AheadReply(p: Phone, a: Session, b: Session, text: Bytes)
    requires Ahead(a, b)
    ensures var (b', frame) := ToSeal(p.cipher, b, text);
            && Ahead(a, b') && (frame.Ok? ==> AfterOpen(p.cipher, a, frame.value).0.Err? && AfterOpen(p.cipher, a, frame.value).1 == a)
  {
    hide AfterSeal, AfterOpen;
    SealCounts(p.cipher, b, text);
    if AfterSeal(p.cipher, b, text).0.Ok? {
      LaterFrameIsRefused(p.cipher, a, b, text);
    }
  }

  /** Both ends after the messages went over, whatever came of each. */
  function After<W>(p: Phone, link: Link<W>, e: Ends<W>, ms: seq<RemoteMessage>): Ends<W> {
    if |ms| == 0 then e else Exchange(p, link, After(p, link, e, ms[..|ms| - 1]), ms[|ms| - 1]).0
  }

  /** However many messages go over after that, and whatever they are, the next one fails too. */
  lemma {:induction false} AheadForGood<E>(p: Phone, setup: Setup<E>, listed: seq<Str>, e: Ends<AgentSide<E>>, ms: seq<RemoteMessage>)
    requires p.cipher.Lawful() && Ahead(e.session, e.world.session)
    ensures var t := After(p, AgentLink(setup, listed, p.cipher), e, ms);
            Ahead(t.session, t.world.session) && forall m :: Exchange(p, AgentLink(setup, listed, p.cipher), t, m).1.Err?
    decreases |ms|
  {
    hide Exchange, Ahead, Cipher.Lawful, AgentLink;
    if |ms| > 0 {
      var before := ms[..|ms| - 1];
      AheadForGood(p, setup, listed, e, before);
      AheadIsDeaf(p, setup, listed, After(p, AgentLink(setup, listed, p.cipher), e, before), ms[|ms| - 1]);
    }
    var t := After(p, AgentLink(setup, listed, p.cipher), e, ms);
    forall m
      ensures Exchange(p, AgentLink(setup, listed, p.cipher), t, m).1.Err?
    {
      AheadIsDeaf(p, setup, listed, t, m);
    }
  }

  /** A message whose reply is lost was handled like any other, and the agent is ahead. */
  lemma ReplyIsLost<E>(p: Phone, setup: Setup<E>, listed: seq<Str>, e: Ends<AgentSide<E>>, m: RemoteMessage, x: PcError)
    requires Linked(p, setup, e) && FitsFrame(p.h, p.labels, m)
    requires Answer(setup, listed, e.world, m).reply.Ok? && FitsFrame(p.h, p.labels, Answer(setup, listed, e.world, m).reply.value)
    ensures var (e', r) := Exchange(p, LosingLink(setup, listed, p.cipher, x), e, m);
            var o := Answer(setup, listed, e.world, m);
            && r == Err(x) && e'.world.state == o.state && e'.world.env == o.env && Ahead(e'.session, e'.world.session)
  {
    hide AfterSeal, AfterOpen, EncodeMessage, DecodeMessage, Answer, Reliable, ReplyTo, ToSeal, Exchange, FitsFrame;
    var o, link := Answer(setup, listed, e.world, m), LosingLink(setup, listed, p.cipher, x);
    var text, back := TextOf(p, m), TextOf(p, o.reply.value);
    StaysInStep(e, o);
    AgentReplies(p, setup, listed, e, m);
    FrameIsSealed(p.cipher, e.session, text);
    var (frame, sealing) := AfterSeal(p.cipher, e.session, text);
    ReplyReturns(p, sealing, AfterRefusal(e, o).world.session, o.reply.value);
    var w := ReplyTo(setup, listed, p.cipher, e.world, frame.value).0;
    assert link.exchange(e.world, frame.value) == (w, Err(x));
    ExchangeFails(p, link, e, m, sealing, frame.value, w, x);
  }

  /** What the handler makes of the world when it is called. */
  lemma HandlerActs<E>(c: Setup<E>, s: AgentState, env: E, q: RemoteRequest)
    requires ExecuteRequest(c, s, env, q).ran
    ensures q.capability in c.handlers && ExecuteRequest(c, s, env, q).env == c.handlers[q.capability].execute(env, q.action).0
    ensures forall e :: ExecuteRequest(c, NEW_AGENT, e, q).ran
  {
    hide ValidRequest, StoreArtifacts, NewResult, NewRejection, NewRetry;
  }

  lemma LostPerformed<E>(p: Phone, setup: Setup<E>, listed: seq<Str>, e: Ends<AgentSide<E>>, id: u64, action: TypedAction, q: RemoteRequest, x: PcError)
    requires RequestOf(p, id, action) == Ok(q) && Smooth(p, setup, listed, e, q)
    requires ExecuteRequest(setup, e.world.state, e.world.env, q).reply.Ok?
    ensures var (e', r) := Performed(p, LosingLink(setup, listed, p.cipher, x), e, id, action);
            var o := ExecuteRequest(setup, e.world.state, e.world.env, q);
            && r == Err(p.texts.error(x)) && e'.world.state == o.state && e'.world.env == o.env && Ahead(e'.session, e'.world.session)
  {
    hide ExecuteRequest, Reliable, InStep, FitsFrame, Exchange, LosingLink, RequestOf, LeftForAll, Ahead;
    ReplyIsLost(p, setup, listed, e, Request(q), x);
  }

  /** An action that is executed under a new agent is executed whatever was before. */
  lemma PerformedAgain<E>(p: Phone, setup: Setup<E>, listed: seq<Str>, e: Ends<AgentSide<E>>, id: u64, action: TypedAction, q: RemoteRequest)
    requires RequestOf(p, id, action) == Ok(q) && Smooth(p, setup, listed, e, q) && Unmistaken(setup.h, setup.labels, q)
    requires e.world.state == NEW_AGENT && ExecuteRequest(setup, NEW_AGENT, e.world.env, q).ran
    ensures q.capability in setup.handlers
    ensures Performed(p, AgentLink(setup, listed, p.cipher), e, id, action).0.world.env == setup.handlers[q.capability].execute(e.world.env, q.action).0
  {
    hide ExecuteRequest, Smooth, AgentLink, Performed, RequestOf, Unmistaken, InStep, Delivered, Answers, Honest;
    PerformedByAgent(p, setup, listed, e, id, action, q);
    HandlerActs(setup, NEW_AGENT, e.world.env, q);
  }

  /**
   An action whose reply is lost has been executed, and is reported as failed; no later exchange
   of the session succeeds; and repeated in a new session, with a new agent, it is executed again.
   */
  lemma LostReplyRunsTwice<E>(p: Phone, setup: Setup<E>, listed: seq<Str>, e: Ends<AgentSide<E>>, id: u64, action: TypedAction, q: RemoteRequest,
                              x: PcError, ms: seq<RemoteMessage>, m: RemoteMessage, again: Ends<AgentSide<E>>)
    requires RequestOf(p, id, action) == Ok(q) && Smooth(p, setup, listed, e, q) && Unmistaken(setup.h, setup.labels, q)
    requires var o := ExecuteRequest(setup, e.world.state, e.world.env, q); o.ran && o.reply.Ok?
    requires q.capability in setup.handlers && again.world.state == NEW_AGENT && Smooth(p, setup, listed, again, q)
    requires again.world.env == Performed(p, LosingLink(setup, listed, p.cipher, x), e, id, action).0.world.env
    ensures var (e', r) := Performed(p, LosingLink(setup, listed, p.cipher, x), e, id, action);
            && r == Err(p.texts.error(x))
            && Exchange(p, AgentLink(setup, listed, p.cipher), After(p, AgentLink(setup, listed, p.cipher), e', ms), m).1.Err?
    ensures var execute := setup.handlers[q.capability].execute;
            && again.world.env == execute(e.world.env, q.action).0
            && Performed(p, AgentLink(setup, listed, p.cipher), again, id, action).0.world.env == execute(execute(e.world.env, q.action).0, q.action).0
  {
    hide ExecuteRequest, FitsFrame, Exchange, LosingLink, AgentLink, Performed, RequestOf, Unmistaken, LeftForAll, Ahead, InStep, Cipher.Lawful;
    LostPerformed(p, setup, listed, e, id, action, q, x);
    HandlerActs(setup, e.world.state, e.world.env, q);
    AheadForGood(p, setup, listed, Performed(p, LosingLink(setup, listed, p.cipher, x), e, id, action).0, ms);
    PerformedAgain(p, setup, listed, again, id, action, q);
  }
}
