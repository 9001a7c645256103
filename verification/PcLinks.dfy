/**
 The phone's adapter over particular transports: one that is lossless and ends at a desktop
 agent, one whose peer answers every pull with a chunk of its choice, and one that loses a reply.
 */
module PcLinks {
  import opened Wrappers
  import opened Bytes
  import opened Capsule
  import opened Actions
  import opened Sessions
  import opened Artifacts
  import opened Wire
  import opened Agent
  import opened AgentRuns
  import opened PcAdapter
  import F = FabricModel

  /** Encryption that does not fail on texts that fit a frame. */
  ghost predicate Reliable(c: Cipher) {
    && c.Lawful()
    && forall k, n, a, p :: |p| <= U32_MAX ==> c.seal(k, n, a, p).Some?
  }

  predicate FitsFrame(h: HashFn, l: DigestLabels, m: RemoteMessage) {
    EncodeMessage(h, l, m).Ok? && |EncodeMessage(h, l, m).value| + TAG_LEN <= U32_MAX
  }

  /** Each side expects exactly what the other sends next. */
  predicate InStep(a: Session, b: Session) {
    && a.id == b.id && a.txKey == b.rxKey && a.rxKey == b.txKey
    && a.txSequence == b.rxSequence && a.rxSequence == b.txSequence
  }

  lemma FrameIsSealed(c: Cipher, s: Session, plaintext: Bytes)
    requires Reliable(c) && |plaintext| + TAG_LEN <= U32_MAX && s.txSequence < U64_MAX
    ensures AfterSeal(c, s, plaintext).0.Ok? && AfterSeal(c, s, plaintext).1 == s.(txSequence := s.txSequence + 1)
  {
    hide FrameHeader, Frame, SessionNonce;
  }

  /** Sealed by `a`, the message is opened and decoded by `b`, and both stay in step. */
  ghost predicate Arrives(c: Cipher, h: HashFn, l: DigestLabels, a: Session, b: Session, m: RemoteMessage, encoded: Bytes) {
    hide AfterSeal, AfterOpen, DecodeMessage;
    var (frame, a') := AfterSeal(c, a, encoded);
    && frame.Ok?
    && var (plaintext, b') := AfterOpen(c, b, frame.value);
    && plaintext.Ok? && DecodeMessage(h, l, plaintext.value) == Ok(m)
    && InStep(a', b')
    && a.txSequence < U64_MAX && a' == a.(txSequence := a.txSequence + 1)
    && b.rxSequence < U64_MAX && b' == b.(rxSequence := b.rxSequence + 1)
  }

  lemma MessageArrives(c: Cipher, h: HashFn, l: DigestLabels, a: Session, b: Session, m: RemoteMessage)
    requires Reliable(c) && InStep(a, b) && FitsFrame(h, l, m) && a.txSequence < U64_MAX
    ensures Arrives(c, h, l, a, b, m, EncodeMessage(h, l, m).value)
  {
    hide AfterSeal, AfterOpen, EncodeMessage, DecodeMessage;
    var plaintext := EncodeMessage(h, l, m).value;
    FrameIsSealed(c, a, plaintext);
    SealedFrameOpens(c, a, b, plaintext);
    MessageReadBack(h, l, m);
  }

  lemma EncodedLength(h: HashFn, l: DigestLabels, m: RemoteMessage)
    requires EncodeMessage(h, l, m).Ok?
    ensures |EncodeMessage(h, l, m).value| == PCF_HEADER_LEN + |Payload(m)|
  {
    hide Payload, Le, Sendable;
  }

  lemma PullFits(h: HashFn, l: DigestLabels, transferId: u64, offset: u64)
    requires transferId != 0
    ensures FitsFrame(h, l, Pull(transferId, offset))
  {
    hide Le;
    EncodedLength(h, l, Pull(transferId, offset));
  }

  lemma ChunkFits(h: HashFn, l: DigestLabels, chunk: ArtifactChunk)
    requires chunk.transferId != 0 && |chunk.data| <= MAX_CHUNK
    ensures FitsFrame(h, l, Chunk(chunk))
  {
    hide Le;
    EncodedLength(h, l, Chunk(chunk));
  }

  /******* A lossless link to the desktop agent *******/

  /** What it is given it hands to the agent, and back. */
  function AgentLink<E>(setup: Setup<E>, listed: seq<Str>, cipher: Cipher): Link<AgentSide<E>> {
    Link((a: AgentSide<E>, frame: Bytes) => ReplyTo(setup, listed, cipher, a, frame))
  }

  /** The encryption does not fail, both sides are in step, and neither counter has run out. */
  ghost predicate Linked<E>(p: Phone, setup: Setup<E>, e: Ends<AgentSide<E>>) {
    && Reliable(p.cipher) && p.h == setup.h && p.labels == setup.labels
    && InStep(e.session, e.world.session) && e.session.txSequence < U64_MAX && e.session.rxSequence < U64_MAX
  }

  /** What the agent makes of a message. */
  function Answer<E>(setup: Setup<E>, listed: seq<Str>, a: AgentSide<E>, m: RemoteMessage): Outcome<E, RemoteMessage> {
    HandleMessage(setup, listed, a.state, a.env, m)
  }

  /** Both ends after a message went over and its answer came back. */
  function AfterAnswer<E>(e: Ends<AgentSide<E>>, o: Outcome<E, RemoteMessage>): Ends<AgentSide<E>>
    requires e.session.txSequence < U64_MAX && e.session.rxSequence < U64_MAX
    requires e.world.session.txSequence < U64_MAX && e.world.session.rxSequence < U64_MAX
  {
    var a, b := e.session, e.world.session;
    Ends(a.(txSequence := a.txSequence + 1, rxSequence := a.rxSequence + 1),
         AgentSide(b.(txSequence := b.txSequence + 1, rxSequence := b.rxSequence + 1), o.state, o.env))
  }

  /** Both ends after a message went over that the agent refused. */
  function AfterRefusal<E>(e: Ends<AgentSide<E>>, o: Outcome<E, RemoteMessage>): Ends<AgentSide<E>>
    requires e.session.txSequence < U64_MAX && e.world.session.rxSequence < U64_MAX
  {
    var a, b := e.session, e.world.session;
    Ends(a.(txSequence := a.txSequence + 1), AgentSide(b.(rxSequence := b.rxSequence + 1), o.state, o.env))
  }

  /** The agent opens what the phone sealed, and seals its answer. */
  lemma AgentReplies<E>(p: Phone, setup: Setup<E>, listed: seq<Str>, e: Ends<AgentSide<E>>, m: RemoteMessage)
    requires Linked(p, setup, e) && FitsFrame(p.h, p.labels, m)
    ensures var o := Answer(setup, listed, e.world, m);
            var (frame, _) := AfterSeal(p.cipher, e.session, EncodeMessage(p.h, p.labels, m).value);
            && frame.Ok?
            && var (w, r) := ReplyTo(setup, listed, p.cipher, e.world, frame.value);
            && (o.reply.Err? ==> w == AfterRefusal(e, o).world && r == Err(o.reply.error))
            && (o.reply.Ok? && EncodeMessage(p.h, p.labels, o.reply.value).Ok? ==>
                  (w.session, r) == ToSeal(p.cipher, AfterRefusal(e, o).world.session, EncodeMessage(p.h, p.labels, o.reply.value).value)
                  && w.state == o.state && w.env == o.env)
  {
    hide AfterSeal, AfterOpen, EncodeMessage, DecodeMessage, HandleMessage, Reliable;
    MessageArrives(p.cipher, p.h, p.labels, e.session, e.world.session, m);
  }

  function ToSeal(c: Cipher, s: Session, text: Bytes): (Session, Result<Bytes, PcError>) {
    var (r, t) := AfterSeal(c, s, text);
    (t, r)
  }

  /** The phone opens what the agent seals. */
  lemma ReplyReturns(p: Phone, a: Session, b: Session, reply: RemoteMessage)
    requires Reliable(p.cipher) && InStep(b, a) && FitsFrame(p.h, p.labels, reply) && b.txSequence < U64_MAX
    ensures var (b', frame) := ToSeal(p.cipher, b, EncodeMessage(p.h, p.labels, reply).value);
            && b' == b.(txSequence := b.txSequence + 1) && frame.Ok? && |frame.value| <= ISIZE_MAX
            && var (plaintext, a') := AfterOpen(p.cipher, a, frame.value);
            && plaintext.Ok? && DecodeMessage(p.h, p.labels, plaintext.value) == Ok(reply) && a' == a.(rxSequence := a.rxSequence + 1)
  {
    hide AfterSeal, AfterOpen, EncodeMessage, DecodeMessage, Reliable;
    MessageArrives(p.cipher, p.h, p.labels, b, a, reply);
    FrameIsShort(p.cipher, b, EncodeMessage(p.h, p.labels, reply).value);
  }

  lemma FrameIsShort(c: Cipher, s: Session, plaintext: Bytes)
    ensures AfterSeal(c, s, plaintext).0.Ok? ==> |AfterSeal(c, s, plaintext).0.value| <= ISIZE_MAX
  {
    hide SessionNonce;
  }

  lemma RefusalReturns<E>(p: Phone, setup: Setup<E>, listed: seq<Str>, e: Ends<AgentSide<E>>, m: RemoteMessage)
    requires Linked(p, setup, e) && FitsFrame(p.h, p.labels, m) && Answer(setup, listed, e.world, m).reply.Err?
    ensures var o := Answer(setup, listed, e.world, m);
            Exchange(p, AgentLink(setup, listed, p.cipher), e, m) == (AfterRefusal(e, o), o.reply)
  {
    hide AfterSeal, AfterOpen, EncodeMessage, DecodeMessage, Answer, Reliable, ReplyTo, AgentLink, ToSeal, Exchange, InStep;
    var text := EncodeMessage(p.h, p.labels, m).value;
    AgentReplies(p, setup, listed, e, m);
    FrameIsSealed(p.cipher, e.session, text);
    var (frame, sealing) := AfterSeal(p.cipher, e.session, text);
    LinkReplies(setup, listed, p.cipher, e.world, frame.value);
    var o := Answer(setup, listed, e.world, m);
    ExchangeFails(p, AgentLink(setup, listed, p.cipher), e, m, sealing, frame.value, AfterRefusal(e, o).world, o.reply.error);
  }

  lemma StaysInStep<E>(e: Ends<AgentSide<E>>, o: Outcome<E, RemoteMessage>)
    requires InStep(e.session, e.world.session) && e.session.txSequence < U64_MAX && e.session.rxSequence < U64_MAX
    ensures InStep(AfterRefusal(e, o).world.session, AfterRefusal(e, o).session)
    ensures InStep(AfterAnswer(e, o).session, AfterAnswer(e, o).world.session)
  {
  }

  function TextOf(p: Phone, m: RemoteMessage): (text: Bytes)
    requires FitsFrame(p.h, p.labels, m)
    ensures EncodeMessage(p.h, p.labels, m) == Ok(text) && |text| + TAG_LEN <= U32_MAX
  {
    EncodeMessage(p.h, p.labels, m).value
  }

  lemma AnswerReturns<E>(p: Phone, setup: Setup<E>, listed: seq<Str>, e: Ends<AgentSide<E>>, m: RemoteMessage)
    requires Linked(p, setup, e) && FitsFrame(p.h, p.labels, m)
    requires Answer(setup, listed, e.world, m).reply.Ok? && FitsFrame(p.h, p.labels, Answer(setup, listed, e.world, m).reply.value)
    ensures var o := Answer(setup, listed, e.world, m);
            Exchange(p, AgentLink(setup, listed, p.cipher), e, m) == (AfterAnswer(e, o), o.reply)
  {
    hide AfterSeal, AfterOpen, EncodeMessage, DecodeMessage, Answer, Reliable, ReplyTo, AgentLink, ToSeal, Exchange, InStep, FitsFrame;
    var o := Answer(setup, listed, e.world, m);
    var text, back := TextOf(p, m), TextOf(p, o.reply.value);
    StaysInStep(e, o);
    AgentReplies(p, setup, listed, e, m);
    FrameIsSealed(p.cipher, e.session, text);
    var (frame, sealing) := AfterSeal(p.cipher, e.session, text);
    LinkReplies(setup, listed, p.cipher, e.world, frame.value);
    ReplyReturns(p, sealing, AfterRefusal(e, o).world.session, o.reply.value);
    var (_, inbound) := ToSeal(p.cipher, AfterRefusal(e, o).world.session, back);
    var (plaintext, opening) := AfterOpen(p.cipher, sealing, inbound.value);
    ExchangeReturns(p, AgentLink(setup, listed, p.cipher), e, m, sealing, frame.value, AfterAnswer(e, o).world, inbound.value, plaintext, opening);
  }

  /** Over the link a message comes back as exactly the agent's answer; both ends stay in step, also when it is refused. */
  lemma ExchangeWithAgent<E>(p: Phone, setup: Setup<E>, listed: seq<Str>, e: Ends<AgentSide<E>>, m: RemoteMessage)
    requires Linked(p, setup, e) && FitsFrame(p.h, p.labels, m)
    ensures var o := Answer(setup, listed, e.world, m);
            var (e', r) := Exchange(p, AgentLink(setup, listed, p.cipher), e, m);
            && (o.reply.Ok? && FitsFrame(p.h, p.labels, o.reply.value) ==> e' == AfterAnswer(e, o) && r == o.reply)
            && (o.reply.Err? ==> e' == AfterRefusal(e, o) && r == o.reply)
    ensures InStep(AfterAnswer(e, Answer(setup, listed, e.world, m)).session, AfterAnswer(e, Answer(setup, listed, e.world, m)).world.session)
    ensures InStep(AfterRefusal(e, Answer(setup, listed, e.world, m)).session, AfterRefusal(e, Answer(setup, listed, e.world, m)).world.session)
  {
    hide EncodeMessage, Answer, Reliable, AgentLink, Exchange, FitsFrame;
    if Answer(setup, listed, e.world, m).reply.Err? {
      RefusalReturns(p, setup, listed, e, m);
    } else if FitsFrame(p.h, p.labels, Answer(setup, listed, e.world, m).reply.value) {
      AnswerReturns(p, setup, listed, e, m);
    }
  }

  lemma LinkReplies<E>(setup: Setup<E>, listed: seq<Str>, cipher: Cipher, a: AgentSide<E>, frame: Bytes)
    ensures AgentLink(setup, listed, cipher).exchange(a, frame) == ReplyTo(setup, listed, cipher, a, frame)
  {
    hide ReplyTo;
  }

  /******* Pulling from the agent *******/

  /** The agent holds this artifact to send. */
  predicate Offers<E>(a: AgentSide<E>, h: HashFn, d: ArtifactDescriptor) {
    Retrievable(a.state, d) && Honest(h, a.state.outgoing[d.transferId])
  }

  /** An offered artifact's pull is answered with the chunk at the asked offset, and changes nothing. */
  lemma PullIsAnswered<E>(setup: Setup<E>, listed: seq<Str>, a: AgentSide<E>, d: ArtifactDescriptor, offset: u64)
    requires Offers(a, setup.h, d) && offset < d.length
    ensures var m := Pull(d.transferId, offset);
            var o := Answer(setup, listed, a, m);
            var sender := a.state.outgoing[d.transferId];
            && FitsFrame(setup.h, setup.labels, m)
            && o.reply == Ok(Chunk(ArtifactChunk(d.transferId, offset, sender.bytes[offset..ChunkEnd(sender, offset)])))
            && o.state == a.state && o.env == a.env
            && FitsFrame(setup.h, setup.labels, o.reply.value)
  {
    hide FitsFrame;
    var sender := a.state.outgoing[d.transferId];
    PullFits(setup.h, setup.labels, d.transferId, offset);
    ChunkFits(setup.h, setup.labels, ArtifactChunk(d.transferId, offset, sender.bytes[offset..ChunkEnd(sender, offset)]));
  }

  /** Both ends after `n` more pulls. */
  ghost predicate PulledAlong<E>(e: Ends<AgentSide<E>>, e': Ends<AgentSide<E>>, n: nat) {
    && e'.world.state == e.world.state && e'.world.env == e.world.env
    && InStep(e'.session, e'.world.session)
    && e'.session.txSequence == e.session.txSequence + n && e'.session.rxSequence == e.session.rxSequence + n
  }

  lemma TurnWithAgent<E>(p: Phone, setup: Setup<E>, listed: seq<Str>, e: Ends<AgentSide<E>>, d: ArtifactDescriptor, offset: u64)
    requires Linked(p, setup, e) && Offers(e.world, p.h, d) && offset < d.length
    ensures var (e', r) := PullNext(p, AgentLink(setup, listed, p.cipher), e, d, offset);
            var sender := e.world.state.outgoing[d.transferId];
            && r == Ok(ArtifactChunk(d.transferId, offset, sender.bytes[offset..ChunkEnd(sender, offset)]))
            && PulledAlong(e, e', 1)
  {
    hide Exchange, FitsFrame, Answer, Blank, ReplyTo, Reliable;
    PullIsAnswered(setup, listed, e.world, d, offset);
    ExchangeWithAgent(p, setup, listed, e, Pull(d.transferId, offset));
  }

  lemma {:induction false} PullsFromAgent<E>(p: Phone, setup: Setup<E>, listed: seq<Str>, e: Ends<AgentSide<E>>, d: ArtifactDescriptor, chunks: seq<ArtifactChunk>)
    requires Reliable(p.cipher) && p.h == setup.h && p.labels == setup.labels && InStep(e.session, e.world.session)
    requires Offers(e.world, p.h, d) && Data(chunks) <= e.world.state.outgoing[d.transferId].bytes
    requires e.session.txSequence + ChunkCount(d.length - |Data(chunks)|, d.chunkSize) <= U64_MAX
    requires e.session.rxSequence + ChunkCount(d.length - |Data(chunks)|, d.chunkSize) <= U64_MAX
    ensures var o := PullFrom(p, AgentLink(setup, listed, p.cipher), e, d, chunks);
            && o.fault.None? && Data(o.chunks) == e.world.state.outgoing[d.transferId].bytes
            && |o.chunks| == |chunks| + ChunkCount(d.length - |Data(chunks)|, d.chunkSize)
            && PulledAlong(e, o.ends, |o.chunks| - |chunks|)
    decreases d.length - |Data(chunks)|
  {
    hide PullNext, Reliable, InStep, Blank, AgentLink;
    var offset, sender := |Data(chunks)|, e.world.state.outgoing[d.transferId];
    if offset < d.length {
      NextChunk(p.h, sender, offset, ChunkEnd(sender, offset));
      TurnWithAgent(p, setup, listed, e, d, offset);
      var (e', r) := PullNext(p, AgentLink(setup, listed, p.cipher), e, d, offset);
      assert (chunks + [r.value])[..|chunks|] == chunks;
      assert Data(chunks + [r.value]) == sender.bytes[..ChunkEnd(sender, offset)];
      PullsFromAgent(p, setup, listed, e', d, chunks + [r.value]);
    }
  }

  /**
   From an agent that offers the artifact, the loop makes exactly length / chunk size pulls,
   rounded up, and returns exactly the offered bytes; the agent is unchanged.
   */
  lemma OfferedIsPulled<E>(p: Phone, setup: Setup<E>, listed: seq<Str>, e: Ends<AgentSide<E>>, d: ArtifactDescriptor)
    requires Reliable(p.cipher) && p.h == setup.h && p.labels == setup.labels && InStep(e.session, e.world.session)
    requires Offers(e.world, p.h, d)
    requires e.session.txSequence + ChunkCount(d.length, d.chunkSize) <= U64_MAX
    requires e.session.rxSequence + ChunkCount(d.length, d.chunkSize) <= U64_MAX
    ensures var (e', r) := Pulled(p, AgentLink(setup, listed, p.cipher), e, d);
            && r == Ok(e.world.state.outgoing[d.transferId].bytes)
            && PulledAlong(e, e', ChunkCount(d.length, d.chunkSize))
  {
    hide PullFrom, Reliable, InStep, AgentLink;
    PullsFromAgent(p, setup, listed, e, d, []);
  }

  /******* A peer that answers every pull with a chunk of its choice *******/

  /** The peer's session, and the number of pulls it has answered. */
  datatype PeerSide = PeerSide(session: Session, turn: nat)

  function PeerReply(p: Phone, peer: Peer, w: PeerSide): (PeerSide, Result<Bytes, PcError>) {
    match EncodeMessage(p.h, p.labels, Chunk(peer(w.turn)))
    case Err(x) => (PeerSide(w.session, w.turn + 1), Err(x))
    case Ok(text) =>
      var (session, r) := ToSeal(p.cipher, w.session, text);
      (PeerSide(session, w.turn + 1), r)
  }

  function PeerLink(p: Phone, peer: Peer): Link<PeerSide> {
    Link((w: PeerSide, frame: Bytes) => PeerReply(p, peer, w))
  }

  /** The phone opens what the peer seals next. */
  predicate Listens(e: Ends<PeerSide>) {
    && e.world.session.id == e.session.id && e.world.session.txKey == e.session.rxKey
    && e.world.session.txSequence == e.session.rxSequence <= e.session.txSequence
  }

  /** Both ends after the peer's chunk came over. */
  predicate Heard(e: Ends<PeerSide>, e': Ends<PeerSide>) {
    && Listens(e') && e'.world.turn == e.world.turn + 1
    && e'.session.txSequence == e.session.txSequence + 1
  }

  lemma PeerReplyReturns(p: Phone, peer: Peer, e: Ends<PeerSide>, sealing: Session)
    requires Reliable(p.cipher) && Listens(e) && sealing.id == e.session.id && sealing.rxKey == e.session.rxKey
    requires sealing.rxSequence == e.session.rxSequence
    ensures var (w, r) := PeerReply(p, peer, e.world);
            r.Ok? ==>
              && e.session.rxSequence < U64_MAX && w == PeerSide(e.world.session.(txSequence := e.world.session.txSequence + 1), e.world.turn + 1)
              && |r.value| <= ISIZE_MAX
              && var (plaintext, opening) := AfterOpen(p.cipher, sealing, r.value);
              && opening == sealing.(rxSequence := sealing.rxSequence + 1)
              && plaintext.Ok? && DecodeMessage(p.h, p.labels, plaintext.value) == Ok(Chunk(peer(e.world.turn)))
  {
    hide AfterOpen, EncodeMessage, DecodeMessage, Cipher.Lawful, Frame, FrameHeader, SessionNonce;
    var chunk := Chunk(peer(e.world.turn));
    if PeerReply(p, peer, e.world).1.Ok? {
      var text := EncodeMessage(p.h, p.labels, chunk).value;
      SealedFrameOpens(p.cipher, e.world.session, sealing, text);
      FrameIsShort(p.cipher, e.world.session, text);
      MessageReadBack(p.h, p.labels, chunk);
    }
  }

  lemma TakenIsSealed(p: Phone, peer: Peer, w: PeerSide, d: ArtifactDescriptor, offset: nat)
    requires Reliable(p.cipher) && d.Valid() && Takes(d, offset, peer(w.turn)) && w.session.txSequence < U64_MAX
    ensures PeerReply(p, peer, w).1.Ok?
  {
    hide AfterSeal, EncodeMessage, Reliable, Blank;
    ChunkFits(p.h, p.labels, peer(w.turn));
    FrameIsSealed(p.cipher, w.session, TextOf(p, Chunk(peer(w.turn))));
  }

  /** A turn takes the peer's chunk if it is acceptable, and fails otherwise. */
  lemma TurnWithPeer(p: Phone, peer: Peer, e: Ends<PeerSide>, d: ArtifactDescriptor, offset: u64)
    requires Reliable(p.cipher) && d.Valid() && Listens(e) && e.session.txSequence < U64_MAX
    ensures var (e', r) := PullNext(p, PeerLink(p, peer), e, d, offset);
            && (r.Ok? <==> Takes(d, offset, peer(e.world.turn)))
            && (r.Ok? ==> r.value == peer(e.world.turn) && Heard(e, e'))
  {
    hide AfterSeal, AfterOpen, EncodeMessage, DecodeMessage, Reliable, Exchange, PeerReply, Blank, Takes;
    var m, link := Pull(d.transferId, offset), PeerLink(p, peer);
    PullFits(p.h, p.labels, d.transferId, offset);
    var text := TextOf(p, m);
    FrameIsSealed(p.cipher, e.session, text);
    var (frame, sealing) := AfterSeal(p.cipher, e.session, text);
    var (w, r) := PeerReply(p, peer, e.world);
    assert link.exchange(e.world, frame.value) == (w, r);
    if Takes(d, offset, peer(e.world.turn)) {
      TakenIsSealed(p, peer, e.world, d, offset);
    }
    if r.Err? {
      ExchangeFails(p, link, e, m, sealing, frame.value, w, r.error);
    } else {
      PeerReplyReturns(p, peer, e, sealing);
      var (plaintext, opening) := AfterOpen(p.cipher, sealing, r.value);
      ExchangeReturns(p, link, e, m, sealing, frame.value, w, r.value, plaintext, opening);
    }
  }

  /******* How long such a peer can keep the phone pulling *******/

  /** The loop uses up its messages with bytes still missing exactly if the peer's next answers, one for each message, are all acceptable and too short. */
  lemma {:induction false} PullsFromPeer(p: Phone, peer: Peer, e: Ends<PeerSide>, d: ArtifactDescriptor, chunks: seq<ArtifactChunk>)
    requires Reliable(p.cipher) && d.Valid() && Listens(e)
    requires |Data(chunks)| == Total(peer, e.world.turn) && forall k :: 0 <= k < e.world.turn ==> TakenAt(d, peer, k)
    ensures var o, left := PullFrom(p, PeerLink(p, peer), e, d, chunks), U64_MAX - e.session.txSequence;
            (o.fault.Some? && |o.chunks| == |chunks| + left) <==> Pulls(d, peer, e.world.turn + left)
    decreases U64_MAX - e.session.txSequence
  {
    hide PullNext, Reliable, Takes, Listens, PeerLink, ArtifactDescriptor.Valid, Pulls;
    var link, turn, left := PeerLink(p, peer), e.world.turn, U64_MAX - e.session.txSequence;
    if Pulls(d, peer, turn + left) {
      PullsBefore(d, peer, turn, turn + left);
    }
    if |Data(chunks)| < d.length {
      if left == 0 {
        NothingLeft(p, link, e, d, |Data(chunks)|);
        PullsNow(d, peer, turn);
      } else {
        TurnWithPeer(p, peer, e, d, |Data(chunks)|);
        var (e', r) := PullNext(p, link, e, d, |Data(chunks)|);
        if r.Ok? {
          HeardCounts(e, e');
          assert (chunks + [r.value])[..|chunks|] == chunks;
          PullsFromPeer(p, peer, e', d, chunks + [r.value]);
        }
      }
    }
  }

  lemma HeardCounts(e: Ends<PeerSide>, e': Ends<PeerSide>)
    requires Heard(e, e')
    ensures Listens(e') && e'.world.turn == e.world.turn + 1 && e'.session.txSequence == e.session.txSequence + 1
  {
  }

  lemma PullsNow(d: ArtifactDescriptor, peer: Peer, n: nat)
    requires (forall k :: 0 <= k < n ==> TakenAt(d, peer, k)) && Total(peer, n) < d.length
    ensures Pulls(d, peer, n)
  {
  }

  /** Both ends at the start of a session of their own. */
  function NewSession(id: SessionId, tx: Key, rx: Key): Ends<PeerSide> {
    Ends(Session(id, tx, rx, 0, 0), PeerSide(Session(id, rx, tx, 0, 0), 0))
  }

  /**
   Pulling uses up the session, and so fails, if and only if as many of the peer's answers as
   the session has messages left are all acceptable and together too short.
   */
  lemma UsedUpExactly(p: Phone, peer: Peer, e: Ends<PeerSide>, d: ArtifactDescriptor)
    requires Reliable(p.cipher) && d.Valid() && Listens(e) && e.world.turn == 0
    ensures UsesUp(p, PeerLink(p, peer), e, d) <==> Pulls(d, peer, U64_MAX - e.session.txSequence)
    ensures UsesUp(p, PeerLink(p, peer), e, d) ==> Pulled(p, PeerLink(p, peer), e, d).1 == Err(TooBig)
  {
    hide PullFrom, Pulled, Reliable, PeerLink, ArtifactDescriptor.Valid, Pulls, Listens;
    PullsFromPeer(p, peer, e, d, []);
    if UsesUp(p, PeerLink(p, peer), e, d) {
      UsingUpTakesEmptyChunks(p, PeerLink(p, peer), e, d);
    }
  }

  /** A peer that stalls before the messages run out uses them all up: each message left is one more turn. */
  lemma StallingUsesUp(p: Phone, peer: Peer, e: Ends<PeerSide>, d: ArtifactDescriptor, n: nat)
    requires Reliable(p.cipher) && d.Valid() && Listens(e) && e.world.turn == 0
    requires StallsFrom(d, peer, n) && n <= U64_MAX - e.session.txSequence
    ensures UsesUp(p, PeerLink(p, peer), e, d)
  {
    hide UsesUp, Reliable, PeerLink, ArtifactDescriptor.Valid, Pulls, Listens, StallsFrom;
    StalledPulls(d, peer, n, U64_MAX - e.session.txSequence);
    UsedUpExactly(p, peer, e, d);
  }

  /** Empty chunks from the first pull on: in a new session the phone pulls U64_MAX times, and then has nothing. */
  lemma EmptyChunksUseUpSession(p: Phone, id: SessionId, tx: Key, rx: Key, d: ArtifactDescriptor)
    requires Reliable(p.cipher) && d.Valid() && d.length > 0
    ensures var link := PeerLink(p, _ => ArtifactChunk(d.transferId, 0, []));
            && |PullFrom(p, link, NewSession(id, tx, rx), d, []).chunks| == U64_MAX
            && Pulled(p, link, NewSession(id, tx, rx), d).1 == Err(TooBig)
  {
    hide PullFrom, Pulled, Reliable, ArtifactDescriptor.Valid, PeerLink;
    var peer: Peer := _ => ArtifactChunk(d.transferId, 0, []);
    assert StallsFrom(d, peer, 0);
    StallingUsesUp(p, peer, NewSession(id, tx, rx), d, 0);
    UsedUpExactly(p, peer, NewSession(id, tx, rx), d);
  }

  /** Near its end a session is used up by a peer that never stalls: one message is left, and two bytes come one at a time. */
  lemma LastMessageBringsOneByte(p: Phone, id: SessionId, tx: Key, rx: Key, hash: Digest)
    requires Reliable(p.cipher)
    ensures var d := ArtifactDescriptor(1, OneByte(), 2, hash, 1);
            var peer: Peer := k => ArtifactChunk(1, if k == 0 then 0 else 1, [0x61]);
            var e := Ends(Session(id, tx, rx, U64_MAX - 1, 0), PeerSide(Session(id, rx, tx, 0, 0), 0));
            && d.Valid() && UsesUp(p, PeerLink(p, peer), e, d) && !exists n :: StallsFrom(d, peer, n)
  {
    hide UsesUp, Reliable, PeerLink;
    var d := ArtifactDescriptor(1, OneByte(), 2, hash, 1);
    var peer: Peer := k => ArtifactChunk(1, if k == 0 then 0 else 1, [0x61]);
    var e := Ends(Session(id, tx, rx, U64_MAX - 1, 0), PeerSide(Session(id, rx, tx, 0, 0), 0));
    assert !Blank(OneByte());
    assert TakenAt(d, peer, 0) && Total(peer, 1) == 1;
    UsedUpExactly(p, peer, e, d);
    forall n: nat
      ensures !StallsFrom(d, peer, n)
    {
      assert !StallsAt(d, peer, Total(peer, n), n);
    }
  }
}
