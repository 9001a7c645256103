/**
 The paired-PC secure session: a handshake that gives both sides crossed keys, and frames
 that are accepted at most once, in order, whatever the network does. Signatures, key
 agreement and encryption are functions of which only the laws below are used.
 */
module Sessions {
  import opened Wrappers
  import opened Bytes
  import opened Capsule

  datatype PcError =
    | InvalidIdentity
    | InvalidPairing
    | InvalidSignature
    | InvalidHandshake
    | PeerMismatch
    | InvalidFrame
    | Replay(expected: u64, actual: u64)
    | InvalidMessage
    | InvalidArtifact
    | ArtifactHashMismatch
    | ArtifactOutOfOrder
    | CapabilityVersionMismatch(capability: Str, installed: u32, requested: u32)
    | SealFailure
    | TooBig

  type Key = b: Bytes | |b| == 32 witness Zeros(32)
  type PeerId = b: Bytes | |b| == 16 witness Zeros(16)
  type SessionId = b: Bytes | |b| == 16 witness Zeros(16)
  type FrameNonce = b: Bytes | |b| == 12 witness Zeros(12)

  /******* Frames *******/

  const FRAME_MAGIC: Bytes := [0x50, 0x43, 0x53, 0x39, 0x37, 0x00]
  const FRAME_MAJOR := 0
  const FRAME_MINOR := 1
  const FRAME_HEADER_LEN := 38
  const TAG_LEN := 16

  /** ChaCha20-Poly1305: key, nonce, associated data and text. */
  datatype Cipher = Cipher(
    seal: (Key, FrameNonce, Bytes, Bytes) -> Option<Vec<byte>>,
    open: (Key, FrameNonce, Bytes, Bytes) -> Option<Vec<byte>>
  ) {
    /** What was sealed opens to itself, and is longer by a tag of 16 bytes (section 2.8 of RFC 8439). */
    ghost predicate Lawful() {
      forall k, n, a, p :: seal(k, n, a, p).Some? ==>
        open(k, n, a, seal(k, n, a, p).value) == Some(p) && |seal(k, n, a, p).value| == |p| + TAG_LEN
    }
  }

  datatype Session = Session(id: SessionId, txKey: Key, rxKey: Key, txSequence: u64, rxSequence: u64)

  /** Four fixed letters and the sequence number. */
  function SessionNonce(sequence: u64): FrameNonce {
    [0x4E, 0x39, 0x37, 0x53] + Le(8, sequence)
  }

  /** The authenticated part of a frame's header. */
  function FrameHeader(id: SessionId, sequence: u64): (h: Bytes)
    ensures |h| == FRAME_HEADER_LEN - 4
  {
    FRAME_MAGIC + Le(2, FRAME_MAJOR) + Le(2, FRAME_MINOR) + id + Le(8, sequence)
  }

  function Frame(id: SessionId, sequence: u64, ciphertext: Bytes): Bytes {
    FrameHeader(id, sequence) + Le(4, |ciphertext|) + ciphertext
  }

  function AfterSeal(c: Cipher, s: Session, plaintext: Bytes): (Result<Bytes, PcError>, Session) {
    if s.txSequence == U64_MAX then (Err(TooBig), s)
    else
      match c.seal(s.txKey, SessionNonce(s.txSequence), FrameHeader(s.id, s.txSequence), plaintext)
      case None => (Err(SealFailure), s)
      case Some(ciphertext) =>
        if |ciphertext| > U32_MAX then (Err(TooBig), s)
        else (Ok(Frame(s.id, s.txSequence, ciphertext)), s.(txSequence := s.txSequence + 1))
  }

  /** The checks of a frame before decryption. */
  function CheckFrame(s: Session, frame: Bytes): Result<(), PcError> {
    if |frame| < FRAME_HEADER_LEN || frame[..6] != FRAME_MAGIC then Err(InvalidFrame)
    else if FromLe(frame[6..8]) != FRAME_MAJOR || FromLe(frame[8..10]) > FRAME_MINOR then Err(InvalidFrame)
    else if frame[10..26] != s.id then Err(PeerMismatch)
    else
      var sequence := FromLe(frame[26..34]);
      if sequence != s.rxSequence then
        LeOfFromLe(frame[26..34]);
        IntegerWidths();
        Err(Replay(s.rxSequence, sequence))
      else if |frame| != FRAME_HEADER_LEN + FromLe(frame[34..38]) then Err(InvalidFrame)
      else Ok(())
  }

  function AfterOpen(c: Cipher, s: Session, frame: Bytes): (Result<Bytes, PcError>, Session) {
    match CheckFrame(s, frame)
    case Err(e) => (Err(e), s)
    case Ok(_) =>
      match c.open(s.rxKey, SessionNonce(s.rxSequence), frame[..FRAME_HEADER_LEN - 4], frame[FRAME_HEADER_LEN..])
      case None => (Err(SealFailure), s)
      case Some(plaintext) =>
        if s.rxSequence == U64_MAX then (Err(TooBig), s)
        else (Ok(plaintext), s.(rxSequence := s.rxSequence + 1))
  }

  lemma FrameSlices(id: SessionId, sequence: u64, ciphertext: Bytes)
    requires |ciphertext| <= U32_MAX
    ensures var f := Frame(id, sequence, ciphertext);
            && |f| == FRAME_HEADER_LEN + |ciphertext|
            && f[..6] == FRAME_MAGIC && f[10..26] == id
            && FromLe(f[6..8]) == FRAME_MAJOR && FromLe(f[8..10]) == FRAME_MINOR
            && FromLe(f[26..34]) == sequence && FromLe(f[34..38]) == |ciphertext|
            && f[..FRAME_HEADER_LEN - 4] == FrameHeader(id, sequence) && f[FRAME_HEADER_LEN..] == ciphertext
  {
    hide Le;
    var f := Frame(id, sequence, ciphertext);
    assert f[6..8] == Le(2, FRAME_MAJOR) && f[8..10] == Le(2, FRAME_MINOR);
    assert f[26..34] == Le(8, sequence) && f[34..38] == Le(4, |ciphertext|);
    IntegerWidths();
    FromLeOfLe(2, FRAME_MAJOR);
    FromLeOfLe(2, FRAME_MINOR);
    FromLeOfLe(8, sequence);
    FromLeOfLe(4, |ciphertext|);
  }

  /** The peer opens a sealed frame when it expects its sequence number. */
  lemma SealedFrameOpens(c: Cipher, sender: Session, receiver: Session, plaintext: Bytes)
    requires c.Lawful() && AfterSeal(c, sender, plaintext).0.Ok?
    requires receiver.id == sender.id && receiver.rxKey == sender.txKey && receiver.rxSequence == sender.txSequence
    ensures AfterOpen(c, receiver, AfterSeal(c, sender, plaintext).0.value)
            == (Ok(plaintext), receiver.(rxSequence := receiver.rxSequence + 1))
  {
    hide Frame, FrameHeader;
    var ciphertext := c.seal(sender.txKey, SessionNonce(sender.txSequence), FrameHeader(sender.id, sender.txSequence), plaintext).value;
    FrameSlices(sender.id, sender.txSequence, ciphertext);
  }

  lemma NoncesDiffer(a: u64, b: u64)
    requires SessionNonce(a) == SessionNonce(b)
    ensures a == b
  {
    hide Le;
    IntegerWidths();
    assert SessionNonce(a)[4..] == Le(8, a) && SessionNonce(b)[4..] == Le(8, b);
    FromLeOfLe(8, a);
    FromLeOfLe(8, b);
  }

  /** The session object of one side. */
  class SecureSession {
    const cipher: Cipher
    const id: SessionId
    const txKey: Key
    const rxKey: Key
    var txSequence: u64
    var rxSequence: u64

    function Value(): Session
      reads this
    {
      Session(id, txKey, rxKey, txSequence, rxSequence)
    }

    constructor (cipher: Cipher, s: Session)
      ensures this.cipher == cipher && Value() == s
    {
      this.cipher := cipher;
      id, txKey, rxKey, txSequence, rxSequence := s.id, s.txKey, s.rxKey, s.txSequence, s.rxSequence;
    }

    method Seal(plaintext: Bytes) returns (r: Result<Bytes, PcError>)
      modifies this
      ensures (r, Value()) == AfterSeal(cipher, old(Value()), plaintext)
    {
      hide Le;
      var sequence := txSequence;
      if sequence == U64_MAX { return Err(TooBig); }
      var nonce := SessionNonce(sequence);
      var header := FRAME_MAGIC;
      header := header + Le(2, FRAME_MAJOR);
      header := header + Le(2, FRAME_MINOR);
      header := header + id;
      header := header + Le(8, sequence);
      header := header + Le(4, 0);
      assert header[..FRAME_HEADER_LEN - 4] == FrameHeader(id, sequence);
      var ciphertext := cipher.seal(txKey, nonce, header[..FRAME_HEADER_LEN - 4], plaintext);
      if ciphertext.None? { return Err(SealFailure); }
      if |ciphertext.value| > U32_MAX { return Err(TooBig); }
      header := header[..FRAME_HEADER_LEN - 4] + Le(4, |ciphertext.value|);
      header := header + ciphertext.value;
      txSequence := sequence + 1;
      r := Ok(header);
    }

    method Open(frame: Bytes) returns (r: Result<Bytes, PcError>)
      modifies this
      ensures (r, Value()) == AfterOpen(cipher, old(Value()), frame)
      ensures r.Ok? ==> |r.value| <= ISIZE_MAX
    {
      if |frame| < FRAME_HEADER_LEN || frame[..6] != FRAME_MAGIC { return Err(InvalidFrame); }
      var major, minor := FromLe(frame[6..8]), FromLe(frame[8..10]);
      if major != FRAME_MAJOR || minor > FRAME_MINOR { return Err(InvalidFrame); }
      if frame[10..26] != id { return Err(PeerMismatch); }
      LeOfFromLe(frame[26..34]);
      IntegerWidths();
      var sequence: u64 := FromLe(frame[26..34]);
      if sequence != rxSequence { return Err(Replay(rxSequence, sequence)); }
      var ciphertextLen := FromLe(frame[34..38]);
      if |frame| != FRAME_HEADER_LEN + ciphertextLen { return Err(InvalidFrame); }
      var plaintext := cipher.open(rxKey, SessionNonce(sequence), frame[..FRAME_HEADER_LEN - 4], frame[FRAME_HEADER_LEN..]);
      if plaintext.None? { return Err(SealFailure); }
      if rxSequence == U64_MAX { return Err(TooBig); }
      rxSequence := rxSequence + 1;
      r := Ok(plaintext.value);
    }
  }
}
