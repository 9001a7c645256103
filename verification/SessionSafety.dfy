/**
 Runs of two paired sessions over a network that may drop, repeat, reorder and invent
 frames. Encryption is ideal: a side opens only what was sealed under that key.
 */
module SessionSafety {
  import opened Wrappers
  import opened Bytes
  import opened Capsule
  import opened Sessions

  datatype Side = Client | Server

  /** A frame that was handed to the network. */
  datatype Sent = Sent(key: Key, nonce: FrameNonce, data: Bytes, plaintext: Bytes, ciphertext: Bytes)

  /** Both sessions, what each side sent, and what each side accepted. */
  datatype Net = Net(
    client: Session, server: Session,
    clientSent: seq<Sent>, serverSent: seq<Sent>,
    clientGot: seq<Bytes>, serverGot: seq<Bytes>
  )

  /** `Deliver` hands a side any bytes at all. */
  datatype Step = SealBy(side: Side, plaintext: Bytes) | Deliver(to: Side, frame: Bytes)

  function SentBy(c: Cipher, s: Session, plaintext: Bytes): seq<Sent> {
    if AfterSeal(c, s, plaintext).0.Err? then []
    else
      var nonce, data := SessionNonce(s.txSequence), FrameHeader(s.id, s.txSequence);
      [Sent(s.txKey, nonce, data, plaintext, c.seal(s.txKey, nonce, data, plaintext).value)]
  }

  function Accepted(c: Cipher, s: Session, frame: Bytes): seq<Bytes> {
    match AfterOpen(c, s, frame).0
    case Ok(plaintext) => [plaintext]
    case Err(_) => []
  }

  function Next(c: Cipher, n: Net, step: Step): Net {
    match step
    case SealBy(Client, p) => n.(client := AfterSeal(c, n.client, p).1, clientSent := n.clientSent + SentBy(c, n.client, p))
    case SealBy(Server, p) => n.(server := AfterSeal(c, n.server, p).1, serverSent := n.serverSent + SentBy(c, n.server, p))
    case Deliver(Client, f) => n.(client := AfterOpen(c, n.client, f).1, clientGot := n.clientGot + Accepted(c, n.client, f))
    case Deliver(Server, f) => n.(server := AfterOpen(c, n.server, f).1, serverGot := n.serverGot + Accepted(c, n.server, f))
  }

  function Run(c: Cipher, n: Net, steps: seq<Step>): Net {
    if |steps| == 0 then n else Next(c, Run(c, n, steps[..|steps| - 1]), steps[|steps| - 1])
  }

  /** Ideal encryption: `text` opens only if one of the frames sent so far holds it. */
  predicate OnlySealedOpens(c: Cipher, n: Net, receiver: Session, frame: Bytes) {
    |frame| >= FRAME_HEADER_LEN &&
    c.open(receiver.rxKey, SessionNonce(receiver.rxSequence), frame[..FRAME_HEADER_LEN - 4], frame[FRAME_HEADER_LEN..]).Some?
    ==> exists k :: 0 <= k < |n.clientSent + n.serverSent| &&
          var r := (n.clientSent + n.serverSent)[k];
          && r.key == receiver.rxKey && r.nonce == SessionNonce(receiver.rxSequence)
          && r.data == frame[..FRAME_HEADER_LEN - 4] && r.ciphertext == frame[FRAME_HEADER_LEN..]
  }

  predicate Unforged(c: Cipher, n: Net, step: Step) {
    match step
    case SealBy(_, _) => true
    case Deliver(Client, frame) => OnlySealedOpens(c, n, n.client, frame)
    case Deliver(Server, frame) => OnlySealedOpens(c, n, n.server, frame)
  }

  ghost predicate UnforgedRun(c: Cipher, n: Net, steps: seq<Step>) {
    forall k :: 0 <= k < |steps| ==> Unforged(c, Run(c, n, steps[..k]), steps[k])
  }

  /** Crossed, distinct keys, and nothing sent yet. */
  predicate Fresh(n: Net) {
    && n.client.id == n.server.id
    && n.client.txKey == n.server.rxKey && n.client.rxKey == n.server.txKey && n.client.txKey != n.client.rxKey
    && n.client.txSequence == n.client.rxSequence == n.server.txSequence == n.server.rxSequence == 0
    && n.clientSent == n.serverSent == [] && n.clientGot == n.serverGot == []
  }

  /******* The invariant, one direction at a time *******/

  /** Frame `k` carries the sequence number `k`. */
  predicate Numbered(c: Cipher, sender: Session, sent: seq<Sent>) {
    && sender.txSequence == |sent|
    && forall k :: 0 <= k < |sent| ==>
         && sent[k].key == sender.txKey && sent[k].nonce == SessionNonce(k)
         && c.open(sent[k].key, sent[k].nonce, sent[k].data, sent[k].ciphertext) == Some(sent[k].plaintext)
  }

  /** What was accepted is a prefix of what was sent. */
  predicate InOrder(receiver: Session, sent: seq<Sent>, got: seq<Bytes>) {
    && receiver.rxSequence == |got| <= |sent|
    && forall k :: 0 <= k < |got| ==> got[k] == sent[k].plaintext
  }

  predicate Safe(c: Cipher, n: Net) {
    && n.client.id == n.server.id
    && n.client.txKey == n.server.rxKey && n.client.rxKey == n.server.txKey && n.client.txKey != n.client.rxKey
    && Numbered(c, n.client, n.clientSent) && Numbered(c, n.server, n.serverSent)
    && InOrder(n.server, n.clientSent, n.serverGot) && InOrder(n.client, n.serverSent, n.clientGot)
  }

  lemma SealKeepsNumbers(c: Cipher, s: Session, sent: seq<Sent>, plaintext: Bytes)
    requires c.Lawful() && Numbered(c, s, sent)
    ensures Numbered(c, AfterSeal(c, s, plaintext).1, sent + SentBy(c, s, plaintext))
    ensures var t := AfterSeal(c, s, plaintext).1; t.id == s.id && t.txKey == s.txKey && t.rxKey == s.rxKey && t.rxSequence == s.rxSequence
  {
    hide SessionNonce, FrameHeader, Frame;
  }

  /** The one frame that can open is the next one in order. */
  lemma OpenKeepsOrder(c: Cipher, s: Session, sender: Session, sent: seq<Sent>, others: seq<Sent>, got: seq<Bytes>, frame: Bytes, k: nat)
    requires Numbered(c, sender, sent) && InOrder(s, sent, got)
    requires s.rxKey == sender.txKey && forall r :: r in others ==> r.key != s.rxKey
    requires AfterOpen(c, s, frame).0.Ok?
    requires k < |sent + others| && var r := (sent + others)[k];
             && r.key == s.rxKey && r.nonce == SessionNonce(s.rxSequence)
             && r.data == frame[..FRAME_HEADER_LEN - 4] && r.ciphertext == frame[FRAME_HEADER_LEN..]
    ensures InOrder(AfterOpen(c, s, frame).1, sent, got + Accepted(c, s, frame))
  {
    hide SessionNonce, FrameHeader, Frame, CheckFrame;
    var r := (sent + others)[k];
    forall j | |sent| <= j < |sent + others|
      ensures (sent + others)[j].key != s.rxKey
    {
      assert others[j - |sent|] in others;
    }
    assert r == sent[k];
    NoncesDiffer(k, s.rxSequence);
  }

  lemma CheckedLength(s: Session, frame: Bytes)
    ensures CheckFrame(s, frame).Ok? ==> |frame| >= FRAME_HEADER_LEN
  {
  }

  lemma DeliverKeepsOrder(c: Cipher, n: Net, s: Session, sender: Session, sent: seq<Sent>, others: seq<Sent>, got: seq<Bytes>, frame: Bytes)
    requires Numbered(c, sender, sent) && InOrder(s, sent, got)
    requires s.rxKey == sender.txKey && forall r :: r in others ==> r.key != s.rxKey
    requires OnlySealedOpens(c, n, s, frame) && forall r :: r in n.clientSent + n.serverSent ==> r in sent + others
    ensures InOrder(AfterOpen(c, s, frame).1, sent, got + Accepted(c, s, frame))
    ensures var t := AfterOpen(c, s, frame).1; t.id == s.id && t.txKey == s.txKey && t.rxKey == s.rxKey && t.txSequence == s.txSequence
  {
    hide SessionNonce, FrameHeader, Frame, CheckFrame;
    CheckedLength(s, frame);
    if AfterOpen(c, s, frame).0.Ok? {
      var all := n.clientSent + n.serverSent;
      var i :| 0 <= i < |all| && var r := all[i];
        && r.key == s.rxKey && r.nonce == SessionNonce(s.rxSequence)
        && r.data == frame[..FRAME_HEADER_LEN - 4] && r.ciphertext == frame[FRAME_HEADER_LEN..];
      assert all[i] in sent + others;
      var k :| 0 <= k < |sent + others| && (sent + others)[k] == all[i];
      OpenKeepsOrder(c, s, sender, sent, others, got, frame, k);
    } else {
      assert got + [] == got;
    }
  }

  lemma KeysOfSent(c: Cipher, sender: Session, sent: seq<Sent>)
    requires Numbered(c, sender, sent)
    ensures forall r :: r in sent ==> r.key == sender.txKey
  {
  }

  lemma StillInOrder(receiver: Session, sent: seq<Sent>, more: seq<Sent>, got: seq<Bytes>)
    requires InOrder(receiver, sent, got)
    ensures InOrder(receiver, sent + more, got)
  {
  }

  lemma StepKeepsSafe(c: Cipher, n: Net, step: Step)
    requires c.Lawful() && Safe(c, n) && Unforged(c, n, step)
    ensures Safe(c, Next(c, n, step))
  {
    hide Numbered, InOrder, AfterSeal, AfterOpen, SentBy, Accepted, OnlySealedOpens;
    KeysOfSent(c, n.client, n.clientSent);
    KeysOfSent(c, n.server, n.serverSent);
    match step
    case SealBy(Client, p) =>
      SealKeepsNumbers(c, n.client, n.clientSent, p);
      StillInOrder(n.server, n.clientSent, SentBy(c, n.client, p), n.serverGot);
      Retained(c, n.client, AfterSeal(c, n.client, p).1, n.serverSent, n.clientGot, n.clientSent);
    case SealBy(Server, p) =>
      SealKeepsNumbers(c, n.server, n.serverSent, p);
      StillInOrder(n.client, n.serverSent, SentBy(c, n.server, p), n.clientGot);
      Retained(c, n.server, AfterSeal(c, n.server, p).1, n.clientSent, n.serverGot, n.serverSent);
    case Deliver(Client, f) =>
      DeliverKeepsOrder(c, n, n.client, n.server, n.serverSent, n.clientSent, n.clientGot, f);
      Retained(c, n.client, AfterOpen(c, n.client, f).1, n.serverSent, n.clientGot, n.clientSent);
    case Deliver(Server, f) =>
      DeliverKeepsOrder(c, n, n.server, n.client, n.clientSent, n.serverSent, n.serverGot, f);
      Retained(c, n.server, AfterOpen(c, n.server, f).1, n.clientSent, n.serverGot, n.serverSent);
  }

  /** Each half of the invariant looks only at its own keys and counters. */
  lemma Retained(c: Cipher, s: Session, t: Session, theirs: seq<Sent>, got: seq<Bytes>, sent: seq<Sent>)
    requires t.txKey == s.txKey && t.rxKey == s.rxKey
    ensures InOrder(s, theirs, got) && t.rxSequence == s.rxSequence ==> InOrder(t, theirs, got)
    ensures Numbered(c, s, sent) && t.txSequence == s.txSequence ==> Numbered(c, t, sent)
  {
  }

  lemma {:induction false} RunIsSafe(c: Cipher, n: Net, steps: seq<Step>)
    requires c.Lawful() && Fresh(n) && UnforgedRun(c, n, steps)
    ensures Safe(c, Run(c, n, steps))
    decreases |steps|
  {
    hide Next, Unforged;
    if |steps| > 0 {
      var before := steps[..|steps| - 1];
      forall k | 0 <= k < |before|
        ensures Unforged(c, Run(c, n, before[..k]), before[k])
      {
        assert before[..k] == steps[..k] && before[k] == steps[k];
      }
      RunIsSafe(c, n, before);
      StepKeepsSafe(c, Run(c, n, before), steps[|steps| - 1]);
    }
  }

  function Plaintexts(sent: seq<Sent>): (r: seq<Bytes>)
    ensures |r| == |sent| && forall k :: 0 <= k < |sent| ==> r[k] == sent[k].plaintext
  {
    seq(|sent|, k requires 0 <= k < |sent| => sent[k].plaintext)
  }

  /** In every run, what each side has accepted is an in-order prefix of what its peer sealed. */
  lemma AcceptedInOrder(c: Cipher, n: Net, steps: seq<Step>)
    requires c.Lawful() && Fresh(n) && UnforgedRun(c, n, steps)
    ensures var m := Run(c, n, steps);
            m.serverGot <= Plaintexts(m.clientSent) && m.clientGot <= Plaintexts(m.serverSent)
  {
    RunIsSafe(c, n, steps);
  }

  /** In no run are two frames sent under the same key and nonce, by either side. */
  lemma FramesHaveOwnNonces(c: Cipher, n: Net, steps: seq<Step>, i: nat, j: nat)
    requires c.Lawful() && Fresh(n) && UnforgedRun(c, n, steps)
    requires var m := Run(c, n, steps); i < j < |m.clientSent + m.serverSent|
    ensures var m := Run(c, n, steps); var all := m.clientSent + m.serverSent;
            (all[i].key, all[i].nonce) != (all[j].key, all[j].nonce)
  {
    hide Run, SessionNonce;
    RunIsSafe(c, n, steps);
    var m := Run(c, n, steps);
    var all := m.clientSent + m.serverSent;
    var split := |m.clientSent|;
    if all[i].nonce == all[j].nonce && all[i].key == all[j].key {
      if j < split {
        NoncesDiffer(i, j);
      } else if i >= split {
        NoncesDiffer(i - split, j - split);
      }
    }
  }

  /******* Encryptions whose frame was thrown away *******/

  /** A plaintext that was encrypted, whether or not a frame came of it. */
  datatype Encryption = Encryption(key: Key, nonce: FrameNonce, plaintext: Bytes)

  function EncryptedBy(c: Cipher, s: Session, plaintext: Bytes): seq<Encryption> {
    if s.txSequence == U64_MAX || c.seal(s.txKey, SessionNonce(s.txSequence), FrameHeader(s.id, s.txSequence), plaintext).None? then []
    else [Encryption(s.txKey, SessionNonce(s.txSequence), plaintext)]
  }

  function SessionOf(n: Net, side: Side): Session {
    if side == Client then n.client else n.server
  }

  /** All that a side encrypts in a run, in order. */
  function Encryptions(c: Cipher, n: Net, steps: seq<Step>, side: Side): seq<Encryption> {
    if |steps| == 0 then []
    else
      var before, last := steps[..|steps| - 1], steps[|steps| - 1];
      Encryptions(c, n, before, side)
      + if last.SealBy? && last.side == side then EncryptedBy(c, SessionOf(Run(c, n, before), side), last.plaintext) else []
  }

  /** The ciphertext has a length that a frame can carry. */
  predicate Framed(e: Encryption) {
    |e.plaintext| + TAG_LEN <= U32_MAX
  }

  function FramedCount(es: seq<Encryption>): nat {
    if |es| == 0 then 0 else FramedCount(es[..|es| - 1]) + if Framed(es[|es| - 1]) then 1 else 0
  }

  /** Each encryption runs under the nonce that counts the frames before it. */
  ghost predicate Counted(s: Session, key: Key, es: seq<Encryption>) {
    && s.txKey == key && s.txSequence == FramedCount(es)
    && forall i :: 0 <= i < |es| ==> es[i].key == key && FramedCount(es[..i]) <= U64_MAX && es[i].nonce == SessionNonce(FramedCount(es[..i]))
  }

  lemma SealIsCounted(c: Cipher, s: Session, key: Key, es: seq<Encryption>, plaintext: Bytes)
    requires c.Lawful() && Counted(s, key, es)
    ensures Counted(AfterSeal(c, s, plaintext).1, key, es + EncryptedBy(c, s, plaintext))
  {
    hide SessionNonce, FrameHeader, Frame;
    var more := EncryptedBy(c, s, plaintext);
    if more == [] {
      assert es + [] == es;
    } else {
      var longer := es + more;
      assert longer[..|es|] == es;
      forall i | 0 <= i < |es|
        ensures longer[..i] == es[..i]
      {
      }
    }
  }

  lemma OpenIsNotCounted(c: Cipher, s: Session, frame: Bytes)
    ensures var t := AfterOpen(c, s, frame).1; t.txKey == s.txKey && t.txSequence == s.txSequence
  {
    hide SessionNonce, CheckFrame;
  }

  lemma {:induction false} RunIsCounted(c: Cipher, n: Net, steps: seq<Step>, side: Side)
    requires c.Lawful() && SessionOf(n, side).txSequence == 0
    ensures Counted(SessionOf(Run(c, n, steps), side), SessionOf(n, side).txKey, Encryptions(c, n, steps, side))
    decreases |steps|
  {
    hide Counted, AfterSeal, AfterOpen, EncryptedBy, SentBy, Accepted;
    if |steps| == 0 {
      assert Counted(SessionOf(n, side), SessionOf(n, side).txKey, []) by { NothingIsCounted(SessionOf(n, side)); }
    } else {
      var before, last := steps[..|steps| - 1], steps[|steps| - 1];
      RunIsCounted(c, n, before, side);
      var m, key, es := Run(c, n, before), SessionOf(n, side).txKey, Encryptions(c, n, before, side);
      assert es + [] == es;
      match last
      case SealBy(_, p) =>
        SealIsCounted(c, SessionOf(m, side), key, es, p);
      case Deliver(to, f) =>
        OpenIsNotCounted(c, SessionOf(m, to), f);
        SameCounters(SessionOf(m, side), SessionOf(Next(c, m, last), side), key, es);
    }
  }

  lemma NothingIsCounted(s: Session)
    requires s.txSequence == 0
    ensures Counted(s, s.txKey, [])
  {
  }

  lemma SameCounters(s: Session, t: Session, key: Key, es: seq<Encryption>)
    requires Counted(s, key, es)
    ensures t.txKey == s.txKey && t.txSequence == s.txSequence ==> Counted(t, key, es)
  {
  }

  lemma {:induction false} CountRises(es: seq<Encryption>, i: nat, j: nat)
    requires i < j <= |es| && Framed(es[i])
    ensures FramedCount(es[..i]) < FramedCount(es[..j])
    decreases j
  {
    assert es[..j][..j - 1] == es[..j - 1];
    if i < j - 1 {
      CountRises(es, i, j - 1);
    }
  }

  /** No two encryptions run under the same key and nonce. */
  ghost predicate NoReuse(es: seq<Encryption>) {
    forall i, j :: 0 <= i < j < |es| ==> (es[i].key, es[i].nonce) != (es[j].key, es[j].nonce)
  }

  /** Every encryption that another one follows fitted a frame. */
  ghost predicate FramedButLast(es: seq<Encryption>) {
    forall i :: 0 <= i < |es| - 1 ==> Framed(es[i])
  }

  lemma SideReuse(s: Session, key: Key, es: seq<Encryption>)
    requires Counted(s, key, es)
    ensures NoReuse(es) <==> FramedButLast(es)
  {
    hide SessionNonce;
    if FramedButLast(es) {
      forall i, j | 0 <= i < j < |es|
        ensures es[i].nonce != es[j].nonce
      {
        CountRises(es, i, j);
        if es[i].nonce == es[j].nonce {
          NoncesDiffer(FramedCount(es[..i]), FramedCount(es[..j]));
        }
      }
    } else {
      var i :| 0 <= i < |es| - 1 && !Framed(es[i]);
      assert es[..i + 1][..i] == es[..i];
      assert es[i].nonce == es[i + 1].nonce;
    }
  }

  lemma BothSidesReuse(a: seq<Encryption>, b: seq<Encryption>, j: Key, k: Key)
    requires j != k && (forall e :: e in a ==> e.key == j) && forall e :: e in b ==> e.key == k
    ensures NoReuse(a + b) <==> NoReuse(a) && NoReuse(b)
  {
    var all := a + b;
    assert forall i :: 0 <= i < |a| ==> all[i] == a[i];
    assert forall i :: 0 <= i < |b| ==> all[|a| + i] == b[i];
    assert forall i :: |a| <= i < |all| ==> all[i] == b[i - |a|];
  }

  /**
   In a run no two encryptions of either side use the same key and nonce if and only if every
   encryption that is followed by another of its side fitted a frame; the network plays no part.
   */
  lemma NoncesAreNeverReused(c: Cipher, n: Net, steps: seq<Step>)
    requires c.Lawful() && Fresh(n)
    ensures var a, b := Encryptions(c, n, steps, Client), Encryptions(c, n, steps, Server);
            NoReuse(a + b) <==> FramedButLast(a) && FramedButLast(b)
  {
    hide Run, Encryptions, SessionNonce, NoReuse, FramedButLast;
    RunIsCounted(c, n, steps, Client);
    RunIsCounted(c, n, steps, Server);
    var a, b := Encryptions(c, n, steps, Client), Encryptions(c, n, steps, Server);
    SideReuse(Run(c, n, steps).client, n.client.txKey, a);
    SideReuse(Run(c, n, steps).server, n.server.txKey, b);
    BothSidesReuse(a, b, n.client.txKey, n.server.txKey);
  }

  /******* A reused nonce *******/

  /** A lawful cipher that hides nothing. */
  function OpenCipher(): Cipher {
    Cipher((k: Key, n: FrameNonce, a: Bytes, p: Bytes) => if |p| + TAG_LEN <= ISIZE_MAX then Some(p + Zeros(TAG_LEN)) else None,
           (k: Key, n: FrameNonce, a: Bytes, t: Bytes) => if TAG_LEN <= |t| <= ISIZE_MAX then Some(t[..|t| - TAG_LEN]) else None)
  }

  lemma OpenCipherIsLawful()
    ensures OpenCipher().Lawful()
  {
    var c := OpenCipher();
    forall k, n, a, p | c.seal(k, n, a, p).Some?
      ensures c.open(k, n, a, c.seal(k, n, a, p).value) == Some(p) && |c.seal(k, n, a, p).value| == |p| + TAG_LEN
    {
      assert (p + Zeros(TAG_LEN))[..|p|] == p;
    }
  }

  function OneKey(): Key {
    [1] + Zeros(31)
  }

  function FreshNet(): Net {
    Net(Session(Zeros(16), Zeros(32), OneKey(), 0, 0), Session(Zeros(16), OneKey(), Zeros(32), 0, 0), [], [], [], [])
  }

  /** A plaintext one byte short of 4 GiB, whose ciphertext is too long for a frame. */
  function LongPlaintext(): (p: Bytes)
    ensures |p| == U32_MAX
  {
    Zeros(U32_MAX)
  }

  /** After that plaintext the next one is encrypted under the same key and nonce. */
  lemma OversizedPlaintextReusesNonce()
    ensures OpenCipher().Lawful() && Fresh(FreshNet())
    ensures !NoReuse(Encryptions(OpenCipher(), FreshNet(), [SealBy(Client, LongPlaintext()), SealBy(Client, [])], Client)
                     + Encryptions(OpenCipher(), FreshNet(), [SealBy(Client, LongPlaintext()), SealBy(Client, [])], Server))
  {
    hide SessionNonce, FrameHeader, LongPlaintext, NoReuse;
    OpenCipherIsLawful();
    var c, n, steps := OpenCipher(), FreshNet(), [SealBy(Client, LongPlaintext()), SealBy(Client, [])];
    assert OneKey()[0] != Zeros(32)[0];
    var one := steps[..1];
    assert |one| == 1 && one[0] == SealBy(Client, LongPlaintext()) && one[..0] == [];
    assert Run(c, n, one[..0]) == n && Encryptions(c, n, one[..0], Client) == [];
    assert EncryptedBy(c, n.client, LongPlaintext()) == [Encryption(Zeros(32), SessionNonce(0), LongPlaintext())];
    var first := Encryptions(c, n, one, Client);
    assert first == [Encryption(Zeros(32), SessionNonce(0), LongPlaintext())];
    assert Run(c, n, steps[..1]).client.txSequence == 0;
    var es := Encryptions(c, n, steps, Client);
    assert |es| == 2 && es[0] == first[0] && !Framed(es[0]);
    NoncesAreNeverReused(c, n, steps);
  }
}
