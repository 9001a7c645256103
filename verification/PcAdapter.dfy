/**
 The phone's side of a paired PC, over any transport: one exchange of messages, the loop that
 pulls an artifact chunk by chunk, and one action from its request to its result.
 */
module PcAdapter {
  import opened Wrappers
  import opened Bytes
  import opened Capsule
  import opened Actions
  import opened Sessions
  import opened Artifacts
  import opened Wire
  import opened WireStreams
  import F = FabricModel

  /** What the transport does to the world beyond it when it is given a frame, and the frame it brings back. */
  datatype Link<!W> = Link(exchange: (W, Bytes) -> (W, Result<Vec<byte>, PcError>))

  /** The texts of errors and evidence. */
  datatype PhoneTexts = PhoneTexts(error: PcError -> Str, unexpected: Str, hash: Digest -> Str, artifact: (u64, Str) -> Str)

  /** What does not change in an adapter. */
  datatype Phone = Phone(
    h: HashFn, labels: DigestLabels, cipher: Cipher, peer: Str, capability: Str, version: u32, texts: PhoneTexts)

  /** The phone's session, and everything beyond its transport. */
  datatype Ends<W> = Ends(session: Session, world: W)

  /******* One exchange *******/

  /** Encodes, seals, hands over, opens and decodes; the first failure ends it. */
  function Exchange<W>(p: Phone, link: Link<W>, e: Ends<W>, m: RemoteMessage): (Ends<W>, Result<RemoteMessage, PcError>) {
    match EncodeMessage(p.h, p.labels, m)
    case Err(x) => (e, Err(x))
    case Ok(text) =>
      var (frame, sealing) := AfterSeal(p.cipher, e.session, text);
      match frame
      case Err(x) => (Ends(sealing, e.world), Err(x))
      case Ok(outbound) =>
        var (world, inbound) := link.exchange(e.world, outbound);
        match inbound
        case Err(x) => (Ends(sealing, world), Err(x))
        case Ok(reply) =>
          var (plaintext, opening) := AfterOpen(p.cipher, sealing, reply);
          match plaintext
          case Err(x) => (Ends(opening, world), Err(x))
          case Ok(answer) => (Ends(opening, world), DecodeMessage(p.h, p.labels, answer))
  }

  /** An exchange moves each counter by at most one, and one that succeeds moves both. */
  lemma ExchangeCounts<W>(p: Phone, link: Link<W>, e: Ends<W>, m: RemoteMessage)
    ensures var (e', r) := Exchange(p, link, e, m);
            && e'.session.id == e.session.id && e'.session.txKey == e.session.txKey && e'.session.rxKey == e.session.rxKey
            && e.session.txSequence <= e'.session.txSequence <= e.session.txSequence + 1
            && (r.Ok? ==> e'.session.txSequence == e.session.txSequence + 1 && e'.session.rxSequence == e.session.rxSequence + 1)
            && (EncodeMessage(p.h, p.labels, m).Ok? && e.session.txSequence == U64_MAX ==> r == Err(TooBig) && e' == e)
  {
    hide EncodeMessage, DecodeMessage, CheckFrame, SessionNonce, FrameHeader, Frame;
  }

  /** The transport fails after the message was sealed. */
  lemma ExchangeFails<W>(p: Phone, link: Link<W>, e: Ends<W>, m: RemoteMessage, sealing: Session, frame: Bytes, world: W, x: PcError)
    requires EncodeMessage(p.h, p.labels, m).Ok? && AfterSeal(p.cipher, e.session, EncodeMessage(p.h, p.labels, m).value) == (Ok(frame), sealing)
    requires link.exchange(e.world, frame) == (world, Err(x))
    ensures Exchange(p, link, e, m) == (Ends(sealing, world), Err(x))
  {
    hide EncodeMessage, AfterSeal, AfterOpen, DecodeMessage;
  }

  /** A frame comes back, and is opened or not. */
  lemma ExchangeReturns<W>(p: Phone, link: Link<W>, e: Ends<W>, m: RemoteMessage, sealing: Session, frame: Bytes, world: W,
                           inbound: Vec<byte>, plaintext: Result<Bytes, PcError>, opening: Session)
    requires EncodeMessage(p.h, p.labels, m).Ok? && AfterSeal(p.cipher, e.session, EncodeMessage(p.h, p.labels, m).value) == (Ok(frame), sealing)
    requires link.exchange(e.world, frame) == (world, Ok(inbound)) && AfterOpen(p.cipher, sealing, inbound) == (plaintext, opening)
    ensures Exchange(p, link, e, m)
            == (Ends(opening, world), if plaintext.Ok? then DecodeMessage(p.h, p.labels, plaintext.value) else Err(plaintext.error))
  {
    hide EncodeMessage, AfterSeal, AfterOpen, DecodeMessage;
  }

  /******* The pull loop *******/

  /** One turn: ask for what is missing from `offset` on, and check the answer. */
  function PullNext<W>(p: Phone, link: Link<W>, e: Ends<W>, d: ArtifactDescriptor, offset: u64): (r: (Ends<W>, Result<ArtifactChunk, PcError>))
    ensures r.1.Ok? ==> Takes(d, offset, r.1.value) && r.0.session.txSequence == e.session.txSequence + 1
  {
    hide Takes, Exchange;
    ExchangeCounts(p, link, e, Pull(d.transferId, offset));
    var (e', response) := Exchange(p, link, e, Pull(d.transferId, offset));
    match response
    case Err(x) => (e', Err(x))
    case Ok(m) =>
      if !m.Chunk? then (e', Err(InvalidMessage))
      else
        match PushFault(d, offset, m.chunk)
        case Some(x) => (e', Err(x))
        case None => (e', Ok(m.chunk))
  }

  /** How the pull loop ends: the chunks it took, and what stopped it if bytes are missing. */
  datatype Pulling<W> = Pulling(ends: Ends<W>, chunks: seq<ArtifactChunk>, fault: Option<PcError>)

  function PullFrom<W>(p: Phone, link: Link<W>, e: Ends<W>, d: ArtifactDescriptor, chunks: seq<ArtifactChunk>): Pulling<W>
    decreases U64_MAX - e.session.txSequence
  {
    if |Data(chunks)| >= d.length then Pulling(e, chunks, None)
    else
      var (e', r) := PullNext(p, link, e, d, |Data(chunks)|);
      match r
      case Err(x) => Pulling(e', chunks, Some(x))
      case Ok(chunk) => PullFrom(p, link, e', d, chunks + [chunk])
  }

  /** What pulling a described artifact comes to. */
  function Pulled<W>(p: Phone, link: Link<W>, e: Ends<W>, d: ArtifactDescriptor): (Ends<W>, Result<Bytes, PcError>) {
    if !d.Valid() then (e, Err(InvalidArtifact))
    else
      var o := PullFrom(p, link, e, d, []);
      (o.ends, if o.fault.Some? then Err(o.fault.value) else Received(p.h, d, Data(o.chunks)))
  }

  predicate ChunkFollows(d: ArtifactDescriptor, chunks: seq<ArtifactChunk>, k: nat)
    requires k < |chunks|
  {
    Takes(d, |Data(chunks[..k])|, chunks[k])
  }

  lemma FollowsSnoc(d: ArtifactDescriptor, chunks: seq<ArtifactChunk>, next: ArtifactChunk)
    requires forall k :: 0 <= k < |chunks| ==> ChunkFollows(d, chunks, k)
    requires Takes(d, |Data(chunks)|, next)
    ensures Data(chunks + [next]) == Data(chunks) + next.data
    ensures forall k :: 0 <= k < |chunks + [next]| ==> ChunkFollows(d, chunks + [next], k)
  {
    hide Takes;
    var more := chunks + [next];
    assert more[..|chunks|] == chunks;
    forall k | 0 <= k < |more|
      ensures ChunkFollows(d, more, k)
    {
      if k < |chunks| {
        assert ChunkFollows(d, chunks, k);
        assert more[..k] == chunks[..k];
      }
    }
  }

  /** Each message that is left to the session is worth at most one turn, and the loop is over. */
  ghost predicate PullOver<W>(p: Phone, e: Ends<W>, d: ArtifactDescriptor, chunks: seq<ArtifactChunk>, o: Pulling<W>) {
    && chunks <= o.chunks && |o.chunks| - |chunks| <= U64_MAX - e.session.txSequence
    && (forall k :: 0 <= k < |o.chunks| ==> ChunkFollows(d, o.chunks, k))
    && |Data(o.chunks)| <= d.length && (o.fault.None? <==> |Data(o.chunks)| == d.length)
    && (|o.chunks| - |chunks| == U64_MAX - e.session.txSequence && o.fault.Some? ==>
          o.fault == Some(TooBig) && o.ends.session.txSequence == U64_MAX)
  }

  /**
   Whatever the peer answers, the loop takes at most as many chunks as the session has messages
   left; every chunk follows those before it; it stops without a fault exactly when all bytes
   are there; and when the messages run out first, sealing refuses.
   */
  lemma {:induction false} PullEnds<W>(p: Phone, link: Link<W>, e: Ends<W>, d: ArtifactDescriptor, chunks: seq<ArtifactChunk>)
    requires d.Valid() && |Data(chunks)| <= d.length && forall k :: 0 <= k < |chunks| ==> ChunkFollows(d, chunks, k)
    ensures PullOver(p, e, d, chunks, PullFrom(p, link, e, d, chunks))
    decreases U64_MAX - e.session.txSequence
  {
    hide PullNext, ChunkFollows, Data;
    if |Data(chunks)| < d.length {
      var (e', r) := PullNext(p, link, e, d, |Data(chunks)|);
      if r.Ok? {
        FollowsSnoc(d, chunks, r.value);
        PullEnds(p, link, e', d, chunks + [r.value]);
      } else if e.session.txSequence == U64_MAX {
        NothingLeft(p, link, e, d, |Data(chunks)|);
      }
    }
  }

  lemma NothingLeft<W>(p: Phone, link: Link<W>, e: Ends<W>, d: ArtifactDescriptor, offset: u64)
    requires d.Valid() && e.session.txSequence == U64_MAX
    ensures PullNext(p, link, e, d, offset) == (e, Err(TooBig))
  {
    hide Exchange, EncodeMessage, Takes, Blank;
    PullIsSendable(p.h, p.labels, d.transferId, offset);
    ExchangeCounts(p, link, e, Pull(d.transferId, offset));
  }

  lemma PullIsSendable(h: HashFn, l: DigestLabels, transferId: u64, offset: u64)
    requires transferId != 0
    ensures EncodeMessage(h, l, Pull(transferId, offset)).Ok?
  {
    hide Le;
  }

  /** The loop ends because the session has no message left. */
  ghost predicate UsesUp<W>(p: Phone, link: Link<W>, e: Ends<W>, d: ArtifactDescriptor) {
    var o := PullFrom(p, link, e, d, []);
    o.fault.Some? && |o.chunks| == U64_MAX - e.session.txSequence
  }

  function NonEmpty(chunks: seq<ArtifactChunk>): nat {
    if |chunks| == 0 then 0
    else NonEmpty(chunks[..|chunks| - 1]) + if chunks[|chunks| - 1].data == [] then 0 else 1
  }

  lemma {:induction false} NonEmptyBringBytes(chunks: seq<ArtifactChunk>)
    ensures NonEmpty(chunks) <= |chunks| && NonEmpty(chunks) <= |Data(chunks)|
    decreases |chunks|
  {
    if |chunks| > 0 {
      NonEmptyBringBytes(chunks[..|chunks| - 1]);
    }
  }

  /** A peer that makes the loop use up the session sent fewer chunks with bytes in them than the artifact has bytes; the rest were empty. */
  lemma UsingUpTakesEmptyChunks<W>(p: Phone, link: Link<W>, e: Ends<W>, d: ArtifactDescriptor)
    requires d.Valid() && UsesUp(p, link, e, d)
    ensures var o := PullFrom(p, link, e, d, []);
            NonEmpty(o.chunks) < d.length && |o.chunks| - NonEmpty(o.chunks) > U64_MAX - e.session.txSequence - d.length
    ensures Pulled(p, link, e, d).1 == Err(TooBig)
  {
    hide PullFrom, ChunkFollows;
    PullEnds(p, link, e, d, []);
    NonEmptyBringBytes(PullFrom(p, link, e, d, []).chunks);
  }

  /******* One action *******/

  /** The request of an action, if it is one for this peer. */
  function MapAction(p: Phone, action: TypedAction): Result<RemoteAction, PcError> {
    match action
    case PcObserve(peer, surface) => if peer == p.peer then Ok(Observe(surface)) else Err(PeerMismatch)
    case PcExecute(peer, program, args, dir) => if peer == p.peer then Ok(Execute(program, args, dir)) else Err(PeerMismatch)
    case PcArtifactRead(peer, path) => if peer == p.peer then Ok(ArtifactRead(path)) else Err(PeerMismatch)
    case PcArtifactWrite(peer, path, content) => if peer == p.peer then Ok(ArtifactWrite(path, content)) else Err(PeerMismatch)
    case _ => Err(InvalidMessage)
  }

  /** A request with its digest. */
  function NewRequest(h: HashFn, l: DigestLabels, id: u64, capability: Str, version: u32, action: RemoteAction): (r: Result<RemoteRequest, PcError>)
    ensures r.Ok? ==> ValidRequest(h, l, r.value) && r.value.id == id && r.value.action == action
  {
    hide RequestText, FitsRequest, Blank, RemoteAction.Valid;
    if id == 0 || version == 0 || Blank(capability) || !action.Valid() then Err(InvalidMessage)
    else
      var blank := RemoteRequest(id, capability, version, action, Zeros(32));
      if !FitsRequest(blank) then Err(TooBig)
      else
        DigestLeftOut(l, blank, h(RequestText(l, blank)));
        Ok(blank.(digest := h(RequestText(l, blank))))
  }

  lemma DigestLeftOut(l: DigestLabels, q: RemoteRequest, digest: Digest)
    ensures RequestText(l, q.(digest := digest)) == RequestText(l, q)
    ensures FitsRequest(q.(digest := digest)) == FitsRequest(q)
  {
  }

  function RequestOf(p: Phone, id: u64, action: TypedAction): Result<RemoteRequest, PcError> {
    var remote :- MapAction(p, action);
    NewRequest(p.h, p.labels, id, p.capability, p.version, remote)
  }

  function ArtifactNotes(texts: PhoneTexts, artifacts: seq<ArtifactDescriptor>): seq<Str> {
    if |artifacts| == 0 then []
    else
      var last := artifacts[|artifacts| - 1];
      ArtifactNotes(texts, artifacts[..|artifacts| - 1]) + [texts.artifact(last.transferId, last.name)]
  }

  /** The output an action is given: a read brings the bytes of its one artifact, any other names its artifacts. */
  function Materialized<W>(p: Phone, link: Link<W>, e: Ends<W>, action: TypedAction, output: ActionOutput, artifacts: seq<ArtifactDescriptor>)
    : (Ends<W>, Result<ActionOutput, PcError>)
  {
    if action.PcArtifactRead? then
      if |artifacts| != 1 then (e, Err(InvalidArtifact))
      else
        var (e', bytes) := Pulled(p, link, e, artifacts[0]);
        match bytes
        case Err(x) => (e', Err(x))
        case Ok(b) => (e', Ok(output.(value := Blob(b), evidence := output.evidence + [p.texts.hash(artifacts[0].hash)])))
    else (e, Ok(output.(evidence := output.evidence + ArtifactNotes(p.texts, artifacts))))
  }

  /** What a result that answers the request comes to. */
  function Concluded<W>(p: Phone, link: Link<W>, e: Ends<W>, action: TypedAction, result: RemoteResult): (Ends<W>, Result<F.AdapterResult, Str>) {
    match result.status
    case Finished =>
      var (e', output) := Materialized(p, link, e, action, result.output, result.artifacts);
      (e', match output case Err(x) => Err(p.texts.error(x)) case Ok(o) => Ok(F.Completed(o, None)))
    case Retryable(reason) => (e, Ok(F.Retrying(reason, None)))
    case Rejected(reason) => (e, Err(reason))
  }

  /** Why a result is not an answer to the request, None exactly if it verifies against it. */
  function AgainstFault(h: HashFn, l: DigestLabels, r: RemoteResult, q: RemoteRequest): (e: Option<PcError>)
    ensures e.None? <==> VerifiedAgainst(h, l, r, q)
  {
    hide ValidRequest, ValidResult;
    if !ValidRequest(h, l, q) then RequestFault(h, l, q)
    else if !ValidResult(h, l, r) then ResultFault(h, l, r)
    else if r.id != q.id || r.capability != q.capability || r.version != q.version || r.requestDigest != q.digest then Some(InvalidMessage)
    else None
  }

  /** One action, executed by the PC under the action's own id. */
  function Performed<W>(p: Phone, link: Link<W>, e: Ends<W>, id: u64, action: TypedAction): (Ends<W>, Result<F.AdapterResult, Str>) {
    match RequestOf(p, id, action)
    case Err(x) => (e, Err(p.texts.error(x)))
    case Ok(q) =>
      var (e', response) := Exchange(p, link, e, Request(q));
      match response
      case Err(x) => (e', Err(p.texts.error(x)))
      case Ok(m) =>
        if !m.ResultMessage? then (e', Err(p.texts.unexpected))
        else
          match AgainstFault(p.h, p.labels, m.result, q)
          case Some(x) => (e', Err(p.texts.error(x)))
          case None => Concluded(p, link, e', action, m.result)
  }

  /******* The adapter object *******/

  class PairedPcAdapter<W> {
    const phone: Phone
    const link: Link<W>
    const session: SecureSession
    // What is beyond the transport.
    var world: W

    ghost predicate Valid()
      reads this
    {
      session.cipher == phone.cipher
    }

    ghost function State(): Ends<W>
      reads this, session
    {
      Ends(session.Value(), world)
    }

    constructor (phone: Phone, link: Link<W>, session: SecureSession, world: W)
      ensures this.phone == phone.(cipher := session.cipher) && this.link == link && this.session == session
      ensures Valid() && State() == Ends(session.Value(), world)
    {
      this.phone := phone.(cipher := session.cipher);
      this.link, this.session, this.world := link, session, world;
    }

    method ExchangeMessage(m: RemoteMessage) returns (r: Result<RemoteMessage, PcError>)
      requires Valid()
      modifies this, session
      ensures Valid() && (State(), r) == Exchange(phone, link, old(State()), m)
    {
      hide AfterSeal, AfterOpen, EncodeMessage, DecodeMessage;
      var encoded := EncodeWire(phone.h, phone.labels, m);
      if encoded.Err? { return Err(encoded.error); }
      var outbound := session.Seal(encoded.value);
      if outbound.Err? { return Err(outbound.error); }
      var (beyond, inbound) := link.exchange(world, outbound.value);
      world := beyond;
      if inbound.Err? { return Err(inbound.error); }
      var plaintext := session.Open(inbound.value);
      if plaintext.Err? { return Err(plaintext.error); }
      r := DecodeWire(phone.h, phone.labels, plaintext.value);
    }

    /** Asks for what is missing until everything is there. */
    method PullArtifact(d: ArtifactDescriptor) returns (r: Result<Bytes, PcError>)
      requires Valid()
      modifies this, session
      ensures Valid() && (State(), r) == Pulled(phone, link, old(State()), d)
    {
      hide Exchange, Takes, PushFault, Received, ArtifactDescriptor.Valid;
      if !d.Valid() { return Err(InvalidArtifact); }
      var assembler := new ArtifactAssembler(d);
      ghost var chunks: seq<ArtifactChunk> := [];
      while assembler.nextOffset < d.length
        invariant Valid() && assembler.Valid() && assembler.descriptor == d && fresh(assembler)
        invariant assembler.bytes == Data(chunks)
        invariant PullFrom(phone, link, old(State()), d, []) == PullFrom(phone, link, State(), d, chunks)
        decreases U64_MAX - session.txSequence
      {
        ghost var before := State();
        ghost var _ := PullNext(phone, link, before, d, |Data(chunks)|);
        var response := ExchangeMessage(Pull(d.transferId, assembler.nextOffset));
        if response.Err? { return Err(response.error); }
        if !response.value.Chunk? { return Err(InvalidMessage); }
        var taken := assembler.Push(response.value.chunk);
        if taken.Err? { return Err(taken.error); }
        assert Data(chunks + [response.value.chunk]) == Data(chunks) + response.value.chunk.data by {
          assert (chunks + [response.value.chunk])[..|chunks|] == chunks;
        }
        chunks := chunks + [response.value.chunk];
      }
      r := assembler.Finish(phone.h);
    }

    method Materialize(action: TypedAction, output: ActionOutput, artifacts: seq<ArtifactDescriptor>)
      returns (r: Result<ActionOutput, PcError>)
      requires Valid()
      modifies this, session
      ensures Valid() && (State(), r) == Materialized(phone, link, old(State()), action, output, artifacts)
    {
      hide Pulled;
      var evidence := output.evidence;
      if action.PcArtifactRead? {
        if |artifacts| != 1 { return Err(InvalidArtifact); }
        var bytes := PullArtifact(artifacts[0]);
        if bytes.Err? { return Err(bytes.error); }
        return Ok(ActionOutput(output.summary, Blob(bytes.value), evidence + [phone.texts.hash(artifacts[0].hash)]));
      }
      for i := 0 to |artifacts|
        invariant evidence == output.evidence + ArtifactNotes(phone.texts, artifacts[..i])
      {
        assert artifacts[..i + 1][..i] == artifacts[..i];
        evidence := evidence + [phone.texts.artifact(artifacts[i].transferId, artifacts[i].name)];
      }
      assert artifacts[..|artifacts|] == artifacts;
      r := Ok(output.(evidence := evidence));
    }

    /** Executes the action on the PC, under the action's id. */
    method Execute(id: u64, action: TypedAction) returns (r: Result<F.AdapterResult, Str>)
      requires Valid()
      modifies this, session
      ensures Valid() && (State(), r) == Performed(phone, link, old(State()), id, action)
    {
      hide Exchange, Materialized, RequestOf, AgainstFault;
      var q := RequestOf(phone, id, action);
      if q.Err? { return Err(phone.texts.error(q.error)); }
      var response := ExchangeMessage(Request(q.value));
      if response.Err? { return Err(phone.texts.error(response.error)); }
      if !response.value.ResultMessage? { return Err(phone.texts.unexpected); }
      var result := response.value.result;
      var fault := AgainstFault(phone.h, phone.labels, result, q.value);
      if fault.Some? { return Err(phone.texts.error(fault.value)); }
      match result.status {
        case Finished =>
          var output := Materialize(action, result.output, result.artifacts);
          if output.Err? { return Err(phone.texts.error(output.error)); }
          r := Ok(F.Completed(output.value, None));
        case Retryable(reason) => r := Ok(F.Retrying(reason, None));
        case Rejected(reason) => r := Err(reason);
      }
    }
  }
}
