/** From two paired identities to a channel: the handshake's sessions under every run of the network. */
module SecureChannel {
  import opened Wrappers
  import opened Bytes
  import opened Sessions
  import opened Handshake
  import opened SessionSafety

  /** The two keys that are expanded from a shared secret differ. */
  ghost predicate Splits(c: Suite) {
    forall salt, shared :: c.expand(salt, shared).0 != c.expand(salt, shared).1
  }

  /** The phone's and the PC's session after a handshake over a network that delivers both hellos. */
  function Connect(c: Suite, client: PairedIdentity, server: PairedIdentity, clientEntropy: Key, serverEntropy: Key): Result<(Session, Session), PcError> {
    var begun :- Begin(c, client, RecordFor(server), clientEntropy);
    var accepted :- Accept(c, server, RecordFor(client), serverEntropy, begun.hello);
    var finished :- Finish(c, begun, accepted.0);
    Ok((finished, accepted.1))
  }

  function Start(sessions: (Session, Session)): Net {
    Net(sessions.0, sessions.1, [], [], [], [])
  }

  lemma KeysDiffer(c: Suite, h: ClientHandshake, server: ServerHello)
    requires Splits(c) && Finish(c, h, server).Ok?
    ensures Finish(c, h, server).value.txKey != Finish(c, h, server).value.rxKey
  {
    hide ClientWire, ServerWire, Derive, ServerSigned;
  }

  /** Any two different identities made from seeds connect, to sessions with crossed and distinct keys that have sent nothing. */
  lemma ConnectedIsFresh(c: Suite, clientSeed: Key, serverSeed: Key, clientEntropy: Key, serverEntropy: Key)
    requires c.Lawful() && Splits(c)
    ensures var client, server := FromSeed(c, clientSeed), FromSeed(c, serverSeed);
            var r := Connect(c, client, server, clientEntropy, serverEntropy);
            (r.Ok? <==> client.peerId != server.peerId) && (r.Ok? ==> Fresh(Start(r.value)))
  {
    hide Begin, Accept, Finish, FromSeed, Splits;
    var client, server := FromSeed(c, clientSeed), FromSeed(c, serverSeed);
    HonestHandshake(c, clientSeed, serverSeed, clientEntropy, serverEntropy);
    var begun := Begin(c, client, RecordFor(server), clientEntropy);
    if begun.Ok? {
      var accepted := Accept(c, server, RecordFor(client), serverEntropy, begun.value.hello);
      KeysDiffer(c, begun.value, accepted.value.0);
    }
  }

  /**
   From the seeds of two identities to the channel: whatever the network then does, each side
   has accepted an in-order prefix of what the other sealed, and no key and nonce encrypt twice
   if and only if every encryption but each side's last fitted a frame.
   */
  lemma ChannelIsSafe(c: Suite, cipher: Cipher, clientSeed: Key, serverSeed: Key, clientEntropy: Key, serverEntropy: Key, steps: seq<Step>)
    requires c.Lawful() && Splits(c) && cipher.Lawful()
    ensures var r := Connect(c, FromSeed(c, clientSeed), FromSeed(c, serverSeed), clientEntropy, serverEntropy);
            r.Ok? ==>
              var n := Start(r.value);
              && (UnforgedRun(cipher, n, steps) ==>
                    var m := Run(cipher, n, steps);
                    m.serverGot <= Plaintexts(m.clientSent) && m.clientGot <= Plaintexts(m.serverSent))
              && var a, b := Encryptions(cipher, n, steps, Client), Encryptions(cipher, n, steps, Server);
              && (NoReuse(a + b) <==> FramedButLast(a) && FramedButLast(b))
  {
    hide Suite.Lawful, Cipher.Lawful, Splits, Connect, FromSeed, Fresh, UnforgedRun, Run, Encryptions, NoReuse, FramedButLast;
    ConnectedIsFresh(c, clientSeed, serverSeed, clientEntropy, serverEntropy);
    var r := Connect(c, FromSeed(c, clientSeed), FromSeed(c, serverSeed), clientEntropy, serverEntropy);
    if r.Ok? {
      NoncesAreNeverReused(cipher, Start(r.value), steps);
      if UnforgedRun(cipher, Start(r.value), steps) {
        AcceptedInOrder(cipher, Start(r.value), steps);
      }
    }
  }
}
