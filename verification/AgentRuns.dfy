/** Whole runs of the desktop agent, and the agent object itself behind its secure session. */
module AgentRuns {
  import opened Wrappers
  import opened Bytes
  import opened Capsule
  import opened Actions
  import opened Sessions
  import opened Artifacts
  import opened Wire
  import opened WireStreams
  import opened Agent

  datatype AgentEvent = HandlerRan(id: u64) | AnswerRecorded(id: u64)

  function EventsOf<E>(c: Setup<E>, s: AgentState, env: E, m: RemoteMessage): seq<AgentEvent> {
    if !m.Request? then []
    else
      var o := ExecuteRequest(c, s, env, m.request);
      (if o.ran then [HandlerRan(m.request.id)] else [])
      + (if m.request.id in o.state.completed && m.request.id !in s.completed then [AnswerRecorded(m.request.id)] else [])
  }

  function RunAgent<E>(c: Setup<E>, listed: seq<Str>, ms: seq<RemoteMessage>, s: AgentState, env: E): (AgentState, E) {
    if |ms| == 0 then (s, env)
    else
      var (t, e) := RunAgent(c, listed, ms[..|ms| - 1], s, env);
      var o := HandleMessage(c, listed, t, e, ms[|ms| - 1]);
      (o.state, o.env)
  }

  function AgentHistory<E>(c: Setup<E>, listed: seq<Str>, ms: seq<RemoteMessage>, s: AgentState, env: E): seq<AgentEvent> {
    if |ms| == 0 then []
    else
      var (t, e) := RunAgent(c, listed, ms[..|ms| - 1], s, env);
      AgentHistory(c, listed, ms[..|ms| - 1], s, env) + EventsOf(c, t, e, ms[|ms| - 1])
  }

  lemma {:induction false} RunKeepsValidAgent<E>(c: Setup<E>, listed: seq<Str>, ms: seq<RemoteMessage>, s: AgentState, env: E)
    requires ValidAgent(c.h, c.labels, s)
    ensures var t := RunAgent(c, listed, ms, s, env).0;
            ValidAgent(c.h, c.labels, t) && AgentExtends(s, t)
    decreases |ms|
  {
    hide ValidAgent, AgentExtends, HandleMessage;
    AgentExtendsItself(s);
    if |ms| > 0 {
      var (t, e) := RunAgent(c, listed, ms[..|ms| - 1], s, env);
      RunKeepsValidAgent(c, listed, ms[..|ms| - 1], s, env);
      MessageKeepsAgent(c, listed, t, e, ms[|ms| - 1]);
      AgentExtendsTransitive(s, t, RunAgent(c, listed, ms, s, env).0);
    }
  }

  /** After an answer is recorded its handler never runs for that request again, and no second answer is recorded. */
  ghost predicate RunsOnlyBefore(log: seq<AgentEvent>) {
    forall i, j :: 0 <= i < j < |log| && log[i].AnswerRecorded? ==> log[j].id != log[i].id
  }

  ghost predicate RecordedIn(log: seq<AgentEvent>, s: AgentState) {
    forall e :: e in log && e.AnswerRecorded? ==> e.id in s.completed
  }

  lemma EventsAreNew<E>(c: Setup<E>, s: AgentState, env: E, m: RemoteMessage)
    ensures var log := EventsOf(c, s, env, m);
            && RunsOnlyBefore(log) && (forall e :: e in log ==> m.Request? && e.id == m.request.id && e.id !in s.completed)
            && (forall e :: e in log && e.AnswerRecorded? ==> e.id in ExecuteRequest(c, s, env, m.request).state.completed)
  {
    hide ValidRequest, AfterRun;
  }

  lemma LogsJoin(log: seq<AgentEvent>, more: seq<AgentEvent>, s: AgentState)
    requires RunsOnlyBefore(log) && RunsOnlyBefore(more) && RecordedIn(log, s) && forall e :: e in more ==> e.id !in s.completed
    ensures RunsOnlyBefore(log + more)
  {
    forall i, j | 0 <= i < j < |log + more| && (log + more)[i].AnswerRecorded?
      ensures (log + more)[j].id != (log + more)[i].id
    {
      if i < |log| && j >= |log| {
        assert log[i] in log && more[j - |log|] in more;
      }
    }
  }

  lemma {:induction false} AnswersAreFinal<E>(c: Setup<E>, listed: seq<Str>, ms: seq<RemoteMessage>, s: AgentState, env: E)
    requires ValidAgent(c.h, c.labels, s)
    ensures RunsOnlyBefore(AgentHistory(c, listed, ms, s, env))
    ensures RecordedIn(AgentHistory(c, listed, ms, s, env), RunAgent(c, listed, ms, s, env).0)
    decreases |ms|
  {
    hide ValidAgent, EventsOf, ExecuteRequest, RunsOnlyBefore;
    if |ms| > 0 {
      var m := ms[|ms| - 1];
      var (t, e) := RunAgent(c, listed, ms[..|ms| - 1], s, env);
      RunKeepsValidAgent(c, listed, ms[..|ms| - 1], s, env);
      AnswersAreFinal(c, listed, ms[..|ms| - 1], s, env);
      MessageKeepsAgent(c, listed, t, e, m);
      EventsAreNew(c, t, e, m);
      LogsJoin(AgentHistory(c, listed, ms[..|ms| - 1], s, env), EventsOf(c, t, e, m), t);
    } else {
      NothingLogged();
    }
  }

  lemma NothingLogged()
    ensures RunsOnlyBefore([])
  {
  }

  /**
   At any point of any run, every reply to a request verifies against it, also after the wire,
   and every artifact it names can be fetched under its descriptor.
   */
  lemma RepliesVerify<E>(c: Setup<E>, listed: seq<Str>, ms: seq<RemoteMessage>, s: AgentState, env: E, q: RemoteRequest)
    requires ValidAgent(c.h, c.labels, s) && Unmistaken(c.h, c.labels, q)
    ensures var (t, e) := RunAgent(c, listed, ms, s, env);
            var o := HandleMessage(c, listed, t, e, Request(q));
            o.reply.Ok? ==>
              && o.reply.value.ResultMessage? && VerifiedAgainst(c.h, c.labels, o.reply.value.result, q)
              && (EncodeMessage(c.h, c.labels, o.reply.value).Ok? ==>
                    DecodeMessage(c.h, c.labels, EncodeMessage(c.h, c.labels, o.reply.value).value) == Ok(o.reply.value))
              && (q.id in o.state.completed ==> forall d :: d in o.state.completed[q.id].artifacts ==> Retrievable(o.state, d))
  {
    hide VerifiedAgainst, ExecuteRequest, Unmistaken, EncodeMessage, DecodeMessage, Answers;
    RunKeepsValidAgent(c, listed, ms, s, env);
    var (t, e) := RunAgent(c, listed, ms, s, env);
    RequestKeepsAgent(c, t, e, q);
    var o := HandleMessage(c, listed, t, e, Request(q));
    if o.reply.Ok? && EncodeMessage(c.h, c.labels, o.reply.value).Ok? {
      MessageReadBack(c.h, c.labels, o.reply.value);
    }
  }

  /******* One encrypted frame *******/

  /** The agent's session, its state, and the world its handlers act on. */
  datatype AgentSide<E> = AgentSide(session: Session, state: AgentState, env: E)

  /** What one encrypted frame does to all that, and the answer. */
  function ReplyTo<E>(c: Setup<E>, listed: seq<Str>, cipher: Cipher, a: AgentSide<E>, frame: Bytes): (AgentSide<E>, Result<Bytes, PcError>) {
    var (plaintext, mid) := AfterOpen(cipher, a.session, frame);
    match plaintext
    case Err(e) => (a.(session := mid), Err(e))
    case Ok(text) =>
      match DecodeMessage(c.h, c.labels, text)
      case Err(e) => (a.(session := mid), Err(e))
      case Ok(m) =>
        var o := HandleMessage(c, listed, a.state, a.env, m);
        match o.reply
        case Err(e) => (AgentSide(mid, o.state, o.env), Err(e))
        case Ok(reply) =>
          match EncodeMessage(c.h, c.labels, reply)
          case Err(e) => (AgentSide(mid, o.state, o.env), Err(e))
          case Ok(encoded) =>
            var (sealed, session) := AfterSeal(cipher, mid, encoded);
            (AgentSide(session, o.state, o.env), sealed)
  }

  /******* The agent object *******/

  class DesktopAgent<E> {
    const setup: Setup<E>
    const listed: seq<Str>
    const session: SecureSession
    var env: E
    var completed: map<u64, RemoteResult>
    var outgoing: map<u64, ArtifactSender>
    var nextTransferId: u64

    ghost function State(): AgentState
      reads this
    {
      AgentState(completed, outgoing, nextTransferId)
    }

    constructor (setup: Setup<E>, listed: seq<Str>, session: SecureSession, env: E)
      ensures this.setup == setup && this.listed == listed && this.session == session && this.env == env && State() == NEW_AGENT
    {
      this.setup, this.listed, this.session, this.env := setup, listed, session, env;
      completed, outgoing, nextTransferId := map[], map[], 1;
    }

    method StoreAll(artifacts: seq<(Str, Vec<byte>)>) returns (r: Result<seq<ArtifactDescriptor>, PcError>)
      modifies this`outgoing, this`nextTransferId
      ensures (r, State()) == StoreArtifacts(setup.h, old(State()), artifacts, |artifacts|)
    {
      hide NewSender;
      var descriptors := [];
      for i := 0 to |artifacts|
        invariant completed == old(completed)
        invariant StoreArtifacts(setup.h, old(State()), artifacts, i) == (Ok(descriptors), State())
      {
        if nextTransferId == U64_MAX {
          StoringStops(setup.h, old(State()), artifacts, i + 1, |artifacts|);
          return Err(TooBig);
        }
        var id := nextTransferId;
        nextTransferId := nextTransferId + 1;
        var sender := NewSender(setup.h, id, artifacts[i].0, artifacts[i].1, DEFAULT_CHUNK);
        if sender.Err? {
          StoringStops(setup.h, old(State()), artifacts, i + 1, |artifacts|);
          return Err(sender.error);
        }
        descriptors := descriptors + [sender.value.descriptor];
        outgoing := outgoing[id := sender.value];
      }
      r := Ok(descriptors);
    }

    method Execute(q: RemoteRequest) returns (r: Result<RemoteResult, PcError>, ghost ran: bool)
      modifies this
      ensures Outcome(r, State(), env, ran) == ExecuteRequest(setup, old(State()), old(env), q)
    {
      hide ValidRequest, RequestFault, NewResult, NewRejection, NewRetry, StoreArtifacts;
      ran := false;
      var fault := ValidateRequest(setup.h, setup.labels, q);
      if fault.Some? { return Err(fault.value), ran; }
      if q.id in completed {
        if completed[q.id].requestDigest != q.digest { return Err(InvalidMessage), ran; }
        return Ok(completed[q.id]), ran;
      }
      if q.capability !in setup.handlers {
        r := NewRejection(setup, q, setup.texts.notInstalled);
        return;
      }
      var handler := setup.handlers[q.capability];
      if handler.capability.version != q.version {
        return Err(CapabilityVersionMismatch(q.capability, handler.capability.version, q.version)), ran;
      }
      var (env', answer) := handler.execute(env, q.action);
      env, ran := env', true;
      match answer {
        case Ok(out) =>
          var descriptors := StoreAll(out.artifacts);
          if descriptors.Err? { return Err(descriptors.error), ran; }
          r := NewResult(setup.h, setup.labels, q, Finished, out.output, descriptors.value);
        case Err(PolicyDenied(reason)) => r := NewRejection(setup, q, reason);
        case Err(Io(reason)) =>
          r := NewRetry(setup, q, reason);
          return;
        case Err(Other(text)) => r := NewRejection(setup, q, text);
      }
      if r.Ok? {
        completed := completed[q.id := r.value];
      }
    }

    method Answer(m: RemoteMessage) returns (r: Result<RemoteMessage, PcError>, ghost ran: bool)
      modifies this
      ensures Outcome(r, State(), env, ran) == HandleMessage(setup, listed, old(State()), old(env), m)
    {
      hide ExecuteRequest, ChunkAt;
      ran := false;
      match m {
        case CapabilityQuery => r := Ok(Capabilities(Installed(setup, listed)));
        case Request(q) =>
          var result;
          result, ran := Execute(q);
          r := if result.Ok? then Ok(ResultMessage(result.value)) else Err(result.error);
        case Pull(transferId, offset) =>
          if transferId !in outgoing { return Err(InvalidArtifact), ran; }
          var chunk := ChunkAt(outgoing[transferId], offset);
          r := if chunk.Ok? then Ok(Chunk(chunk.value)) else Err(chunk.error);
        case Capabilities(_) => r := Err(InvalidMessage);
        case ResultMessage(_) => r := Err(InvalidMessage);
        case Chunk(_) => r := Err(InvalidMessage);
      }
    }

    /** Opens the frame, answers the message in it, and seals the reply. */
    method HandleEncryptedFrame(frame: Bytes) returns (r: Result<Bytes, PcError>)
      requires session as object != this
      modifies this, session
      ensures (AgentSide(session.Value(), State(), env), r)
              == ReplyTo(setup, listed, session.cipher, AgentSide(old(session.Value()), old(State()), old(env)), frame)
    {
      hide AfterOpen, AfterSeal, EncodeMessage, DecodeMessage, HandleMessage;
      var plaintext := session.Open(frame);
      if plaintext.Err? { return Err(plaintext.error); }
      var m := DecodeWire(setup.h, setup.labels, plaintext.value);
      if m.Err? { return Err(m.error); }
      var reply, _ := Answer(m.value);
      if reply.Err? { return Err(reply.error); }
      var encoded := EncodeWire(setup.h, setup.labels, reply.value);
      if encoded.Err? { return Err(encoded.error); }
      r := session.Seal(encoded.value);
    }
  }

  lemma {:induction false} StoringStops(h: HashFn, s: AgentState, artifacts: seq<(Str, Vec<byte>)>, i: nat, n: nat)
    requires i <= n <= |artifacts| && StoreArtifacts(h, s, artifacts, i).0.Err?
    ensures StoreArtifacts(h, s, artifacts, n) == StoreArtifacts(h, s, artifacts, i)
    decreases n
  {
    hide NewSender;
    if i < n {
      StoringStops(h, s, artifacts, i, n - 1);
    }
  }
}
