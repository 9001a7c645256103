/**
 The signed key agreement that opens a session. Signatures, Diffie-Hellman, hashing and key
 expansion are a suite of functions; the laws used are that a signature verifies and that
 the two shared secrets agree.
 */
module Handshake {
  import opened Wrappers
  import opened Bytes
  import opened Capsule
  import opened Sessions

  type Signature = b: Bytes | |b| == 64 witness Zeros(64)

  datatype Suite = Suite(
    verifyKey: Key -> Key,
    validKey: Key -> bool,
    sign: (Key, Bytes) -> Signature,
    verify: (Key, Bytes, Signature) -> bool,
    dhPublic: Key -> Key,
    dhShared: (Key, Key) -> Key,
    digest: Bytes -> Key,
    expand: (Key, Key) -> (Key, Key),
    labels: Labels
  ) {
    ghost predicate Lawful() {
      && (forall seed, m {:trigger sign(seed, m)} :: validKey(verifyKey(seed)) && verify(verifyKey(seed), m, sign(seed, m)))
      && (forall a, b {:trigger dhShared(a, dhPublic(b))} :: dhShared(a, dhPublic(b)) == dhShared(b, dhPublic(a)))
    }
  }

  /** The fixed strings that keep the hashed messages apart. */
  datatype Labels = Labels(domain: Bytes, peer: Bytes, session: Bytes, client: Bytes, server: Bytes, secret: Bytes, challenge: Bytes)

  /******* Identities *******/

  datatype PairedIdentity = PairedIdentity(seed: Key, peerId: PeerId, verifyKey: Key)

  datatype PairingRecord = PairingRecord(peerId: PeerId, verifyKey: Key)

  function PeerIdFor(c: Suite, verifyKey: Key): PeerId {
    c.digest(c.labels.peer + verifyKey)[..16]
  }

  function FromSeed(c: Suite, seed: Key): PairedIdentity {
    PairedIdentity(seed, PeerIdFor(c, c.verifyKey(seed)), c.verifyKey(seed))
  }

  function RecordFor(i: PairedIdentity): PairingRecord {
    PairingRecord(i.peerId, i.verifyKey)
  }

  function ValidatePair(c: Suite, local: PairedIdentity, remote: PairingRecord): Result<(), PcError> {
    if PeerIdFor(c, local.verifyKey) != local.peerId then Err(InvalidIdentity)
    else if PeerIdFor(c, remote.verifyKey) != remote.peerId then Err(InvalidPairing)
    else if local.peerId == remote.peerId then Err(InvalidPairing)
    else Ok(())
  }

  function VerifyFrom(c: Suite, remote: PairingRecord, message: Bytes, signature: Signature): Result<(), PcError> {
    if !c.validKey(remote.verifyKey) then Err(InvalidPairing)
    else if !c.verify(remote.verifyKey, message, signature) then Err(InvalidSignature)
    else Ok(())
  }

  /******* Hellos *******/

  datatype ClientHello = ClientHello(client: PeerId, server: PeerId, session: SessionId, ephemeral: Key, challenge: Key, signature: Signature)

  datatype ServerHello = ServerHello(server: PeerId, client: PeerId, session: SessionId, ephemeral: Key, challenge: Key, clientDigest: Key, signature: Signature)

  function ClientSigned(c: Suite, h: ClientHello): Bytes {
    c.labels.domain + c.labels.client + h.client + h.server + h.session + h.ephemeral + h.challenge
  }

  function ServerSigned(c: Suite, h: ServerHello): Bytes {
    c.labels.domain + c.labels.server + h.server + h.client + h.session + h.ephemeral + h.challenge + h.clientDigest
  }

  function ClientWire(c: Suite, h: ClientHello): Bytes { ClientSigned(c, h) + h.signature }

  function ServerWire(c: Suite, h: ServerHello): Bytes { ServerSigned(c, h) + h.signature }

  function Derive(c: Suite, tag: Bytes, seed: Key): Key {
    c.digest(c.labels.domain + tag + seed)
  }

  function SessionIdFor(c: Suite, client: PeerId, server: PeerId, ephemeral: Key, challenge: Key): SessionId {
    c.digest(c.labels.session + client + server + ephemeral + challenge)[..16]
  }

  datatype Role = AsClient | AsServer

  function DeriveSession(c: Suite, role: Role, id: SessionId, shared: Key, client: ClientHello, server: ServerHello): Session {
    var (first, second) := c.expand(c.digest(ClientWire(c, client) + ServerWire(c, server)), shared);
    if role == AsClient then Session(id, first, second, 0, 0) else Session(id, second, first, 0, 0)
  }

  /******* The three steps *******/

  datatype ClientHandshake = ClientHandshake(local: PairedIdentity, remote: PairingRecord, entropy: Key, hello: ClientHello)

  function Begin(c: Suite, local: PairedIdentity, remote: PairingRecord, entropy: Key): Result<ClientHandshake, PcError> {
    var _ :- ValidatePair(c, local, remote);
    var ephemeral := c.dhPublic(Derive(c, c.labels.secret, entropy));
    var challenge := Derive(c, c.labels.challenge, entropy);
    var id := SessionIdFor(c, local.peerId, remote.peerId, ephemeral, challenge);
    var unsigned := ClientHello(local.peerId, remote.peerId, id, ephemeral, challenge, Zeros(64));
    var hello := unsigned.(signature := c.sign(local.seed, ClientSigned(c, unsigned)));
    Ok(ClientHandshake(local, remote, entropy, hello))
  }

  function Accept(c: Suite, local: PairedIdentity, remote: PairingRecord, entropy: Key, client: ClientHello): Result<(ServerHello, Session), PcError> {
    var _ :- ValidatePair(c, local, remote);
    if client.client != remote.peerId || client.server != local.peerId then Err(PeerMismatch)
    else
      var _ :- VerifyFrom(c, remote, ClientSigned(c, client), client.signature);
      if client.session != SessionIdFor(c, client.client, client.server, client.ephemeral, client.challenge) then Err(InvalidHandshake)
      else
        var secret := Derive(c, c.labels.secret, entropy);
        var unsigned := ServerHello(local.peerId, remote.peerId, client.session, c.dhPublic(secret), Derive(c, c.labels.challenge, entropy),
                                    c.digest(ClientWire(c, client)), Zeros(64));
        var hello := unsigned.(signature := c.sign(local.seed, ServerSigned(c, unsigned)));
        Ok((hello, DeriveSession(c, AsServer, client.session, c.dhShared(secret, client.ephemeral), client, hello)))
  }

  function Finish(c: Suite, h: ClientHandshake, server: ServerHello): Result<Session, PcError> {
    if server.server != h.remote.peerId || server.client != h.local.peerId || server.session != h.hello.session
       || server.clientDigest != c.digest(ClientWire(c, h.hello))
    then Err(InvalidHandshake)
    else
      var _ :- VerifyFrom(c, h.remote, ServerSigned(c, server), server.signature);
      var secret := Derive(c, c.labels.secret, h.entropy);
      Ok(DeriveSession(c, AsClient, h.hello.session, c.dhShared(secret, server.ephemeral), h.hello, server))
  }

  /******* Both sides hold the same session *******/

  /** Same id, crossed keys, nothing sent yet. */
  predicate Paired(client: Session, server: Session) {
    && client.id == server.id && client.txKey == server.rxKey && client.rxKey == server.txKey
    && client.txSequence == client.rxSequence == server.txSequence == server.rxSequence == 0
  }

  /** Between two identities made from seeds the handshake succeeds exactly when their ids differ, and pairs the sessions. */
  lemma HonestHandshake(c: Suite, clientSeed: Key, serverSeed: Key, clientEntropy: Key, serverEntropy: Key)
    requires c.Lawful()
    ensures var client, server := FromSeed(c, clientSeed), FromSeed(c, serverSeed);
            var begun := Begin(c, client, RecordFor(server), clientEntropy);
            && (begun.Ok? <==> client.peerId != server.peerId)
            && (begun.Ok? ==>
                  var accepted := Accept(c, server, RecordFor(client), serverEntropy, begun.value.hello);
                  && accepted.Ok?
                  && var finished := Finish(c, begun.value, accepted.value.0);
                  && finished.Ok? && Paired(finished.value, accepted.value.1))
  {
    hide SessionIdFor, Derive, PeerIdFor, ClientWire, ServerWire;
    var client, server := FromSeed(c, clientSeed), FromSeed(c, serverSeed);
    if client.peerId != server.peerId {
      var h := Begin(c, client, RecordFor(server), clientEntropy).value;
      SignedPartsIgnoreSignature(c, h.hello, h.hello.(signature := Zeros(64)));
      var a := Derive(c, c.labels.secret, clientEntropy);
      var b := Derive(c, c.labels.secret, serverEntropy);
      assert c.dhShared(a, c.dhPublic(b)) == c.dhShared(b, c.dhPublic(a));
    }
  }

  lemma SignedPartsIgnoreSignature(c: Suite, a: ClientHello, b: ClientHello)
    requires a == b.(signature := a.signature)
    ensures ClientSigned(c, a) == ClientSigned(c, b)
  {
  }

  lemma ClientWireIsInjective(c: Suite, a: ClientHello, b: ClientHello)
    requires ClientWire(c, a) == ClientWire(c, b)
    ensures a == b
  {
    var n := |c.labels.domain + c.labels.client|;
    var x, y := ClientWire(c, a), ClientWire(c, b);
    assert x[n..n + 16] == a.client && y[n..n + 16] == b.client;
    assert x[n + 16..n + 32] == a.server && y[n + 16..n + 32] == b.server;
    assert x[n + 32..n + 48] == a.session && y[n + 32..n + 48] == b.session;
    assert x[n + 48..n + 80] == a.ephemeral && y[n + 48..n + 80] == b.ephemeral;
    assert x[n + 80..n + 112] == a.challenge && y[n + 80..n + 112] == b.challenge;
    assert x[n + 112..] == a.signature && y[n + 112..] == b.signature;
  }

  lemma ServerSignedIsInjective(c: Suite, a: ServerHello, b: ServerHello)
    requires ServerSigned(c, a) == ServerSigned(c, b)
    ensures a == b.(signature := a.signature)
  {
    var n := |c.labels.domain + c.labels.server|;
    var x, y := ServerSigned(c, a), ServerSigned(c, b);
    assert x[n..n + 16] == a.server && y[n..n + 16] == b.server;
    assert x[n + 16..n + 32] == a.client && y[n + 16..n + 32] == b.client;
    assert x[n + 32..n + 48] == a.session && y[n + 32..n + 48] == b.session;
    assert x[n + 48..n + 80] == a.ephemeral && y[n + 48..n + 80] == b.ephemeral;
    assert x[n + 80..n + 112] == a.challenge && y[n + 80..n + 112] == b.challenge;
    assert x[n + 112..] == a.clientDigest && y[n + 112..] == b.clientDigest;
  }

  /**
   Whatever hellos reached the two sides: if the client finished on a hello whose signed part
   and signature the server made, for a client hello with no colliding digest, the two
   sessions are paired with each other. No other party's exchange can be spliced in.
   */
  lemma FinishedOnSignedHello(c: Suite, h: ClientHandshake, clientSeen: ServerHello, server: PairedIdentity, record: PairingRecord, entropy: Key, serverSaw: ClientHello)
    requires c.Lawful()
    requires Begin(c, h.local, h.remote, h.entropy) == Ok(h)
    requires Accept(c, server, record, entropy, serverSaw).Ok? && Finish(c, h, clientSeen).Ok?
    requires var (made, _) := Accept(c, server, record, entropy, serverSaw).value;
             ServerSigned(c, clientSeen) == ServerSigned(c, made) && clientSeen.signature == made.signature
    requires c.digest(ClientWire(c, serverSaw)) == c.digest(ClientWire(c, h.hello)) ==> ClientWire(c, serverSaw) == ClientWire(c, h.hello)
    ensures serverSaw == h.hello
    ensures Paired(Finish(c, h, clientSeen).value, Accept(c, server, record, entropy, serverSaw).value.1)
  {
    hide SessionIdFor, Derive, PeerIdFor, ClientWire, ServerWire, ServerSigned, ClientSigned;
    var (made, _) := Accept(c, server, record, entropy, serverSaw).value;
    ServerSignedIsInjective(c, clientSeen, made);
    assert clientSeen == made;
    ClientWireIsInjective(c, serverSaw, h.hello);
    var a := Derive(c, c.labels.secret, h.entropy);
    var b := Derive(c, c.labels.secret, entropy);
    assert c.dhShared(a, c.dhPublic(b)) == c.dhShared(b, c.dhPublic(a));
  }
}
