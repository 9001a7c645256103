/** Chunked artifact transfer: what a sender hands out, and what a receiver puts together. */
module Artifacts {
  import opened Wrappers
  import opened Bytes
  import opened Capsule
  import opened Sessions

  const DEFAULT_CHUNK := 64 * 1024
  const MAX_CHUNK := 4 * 1024 * 1024

  datatype ArtifactDescriptor = ArtifactDescriptor(transferId: u64, name: Str, length: u64, hash: Digest, chunkSize: u32) {
    predicate Valid() {
      transferId != 0 && !Blank(name) && 0 < chunkSize <= MAX_CHUNK
    }
  }

  datatype ArtifactChunk = ArtifactChunk(transferId: u64, offset: u64, data: Bytes)

  datatype ArtifactSender = ArtifactSender(descriptor: ArtifactDescriptor, bytes: Vec<byte>)

  function NewSender(h: HashFn, transferId: u64, name: Str, bytes: Vec<byte>, chunkSize: u32): Result<ArtifactSender, PcError> {
    var d := ArtifactDescriptor(transferId, name, |bytes|, h(bytes), chunkSize);
    if d.Valid() then Ok(ArtifactSender(d, bytes)) else Err(InvalidArtifact)
  }

  /** What a sender made by NewSender is like. */
  predicate Honest(h: HashFn, s: ArtifactSender) {
    s.descriptor.Valid() && s.descriptor.length == |s.bytes| && s.descriptor.hash == h(s.bytes)
  }

  function ChunkEnd(s: ArtifactSender, offset: nat): nat {
    if offset + s.descriptor.chunkSize < |s.bytes| then offset + s.descriptor.chunkSize else |s.bytes|
  }

  function ChunkAt(s: ArtifactSender, offset: u64): Result<ArtifactChunk, PcError> {
    if offset > s.descriptor.length || offset > |s.bytes| then Err(InvalidArtifact)
    else Ok(ArtifactChunk(s.descriptor.transferId, offset, s.bytes[offset..ChunkEnd(s, offset)]))
  }

  /** The number of chunks it takes to send `n` bytes. */
  function ChunkCount(n: nat, size: nat): nat
    requires size > 0
  {
    if n == 0 then 0 else 1 + ChunkCount(if size < n then n - size else 0, size)
  }

  /** It is `n / size` rounded up. */
  lemma {:induction false} ChunkCountIsCeiling(n: nat, size: nat)
    requires size > 0
    ensures n <= ChunkCount(n, size) * size < n + size
    decreases n
  {
    if n > 0 {
      var rest := if size < n then n - size else 0;
      ChunkCountIsCeiling(rest, size);
      var c := ChunkCount(rest, size);
      assert (1 + c) * size == size + c * size;
      if size >= n {
        assert c == 0;
      }
    }
  }

  function Data(chunks: seq<ArtifactChunk>): Bytes {
    if |chunks| == 0 then [] else Data(chunks[..|chunks| - 1]) + chunks[|chunks| - 1].data
  }

  /**
   The list of chunks: chunk `k` is what a pull at its offset returns, offsets follow one
   another, no chunk is empty, and together they are the bytes.
   */
  method Chunks(h: HashFn, s: ArtifactSender) returns (chunks: seq<ArtifactChunk>)
    requires Honest(h, s)
    ensures |chunks| == ChunkCount(|s.bytes|, s.descriptor.chunkSize)
    ensures Data(chunks) == s.bytes
    ensures forall k :: 0 <= k < |chunks| ==> PulledAlike(s, chunks, k)
  {
    hide ChunkAt;
    chunks := [];
    var offset: u64 := 0;
    while offset < |s.bytes|
      invariant offset <= |s.bytes|
      invariant Data(chunks) == s.bytes[..offset]
      invariant |chunks| + ChunkCount(|s.bytes| - offset, s.descriptor.chunkSize) == ChunkCount(|s.bytes|, s.descriptor.chunkSize)
      invariant forall k :: 0 <= k < |chunks| ==> PulledAlike(s, chunks, k)
      decreases |s.bytes| - offset
    {
      var end := if offset + s.descriptor.chunkSize < |s.bytes| then offset + s.descriptor.chunkSize else |s.bytes|;
      var next := ArtifactChunk(s.descriptor.transferId, offset, s.bytes[offset..end]);
      ChunksSnoc(s, chunks, next);
      NextChunk(h, s, offset, end);
      chunks := chunks + [next];
      offset := end;
    }
    assert s.bytes[..offset] == s.bytes;
  }

  /** Chunk `k` is not empty, follows the chunks before it, and is what a pull at its offset returns. */
  predicate PulledAlike(s: ArtifactSender, chunks: seq<ArtifactChunk>, k: nat)
    requires k < |chunks|
  {
    && ChunkAt(s, chunks[k].offset) == Ok(chunks[k])
    && chunks[k].data != [] && chunks[k].offset == |Data(chunks[..k])|
  }

  lemma NextChunk(h: HashFn, s: ArtifactSender, offset: u64, end: nat)
    requires Honest(h, s) && offset < |s.bytes| && end == ChunkEnd(s, offset)
    ensures offset < end <= |s.bytes| && s.bytes[..end] == s.bytes[..offset] + s.bytes[offset..end]
    ensures ChunkAt(s, offset) == Ok(ArtifactChunk(s.descriptor.transferId, offset, s.bytes[offset..end]))
    ensures ChunkCount(|s.bytes| - offset, s.descriptor.chunkSize) == 1 + ChunkCount(|s.bytes| - end, s.descriptor.chunkSize)
  {
  }

  lemma ChunksSnoc(s: ArtifactSender, chunks: seq<ArtifactChunk>, next: ArtifactChunk)
    ensures Data(chunks + [next]) == Data(chunks) + next.data
    ensures forall k :: 0 <= k < |chunks| && PulledAlike(s, chunks, k) ==> PulledAlike(s, chunks + [next], k)
    ensures (chunks + [next])[..|chunks|] == chunks
  {
    hide ChunkAt;
    assert (chunks + [next])[..|chunks|] == chunks;
    forall k | 0 <= k < |chunks|
      ensures (chunks + [next])[..k] == chunks[..k]
    {
    }
  }

  /******* The receiving end *******/

  /** A receiver that has the first `offset` bytes takes the chunk: it is of this transfer, follows on, and fits. */
  predicate Takes(d: ArtifactDescriptor, offset: nat, chunk: ArtifactChunk) {
    && chunk.transferId == d.transferId && chunk.offset == offset
    && |chunk.data| <= d.chunkSize && offset + |chunk.data| <= d.length
  }

  /** Why a receiver refuses the chunk, None exactly for those it takes. */
  function PushFault(d: ArtifactDescriptor, offset: nat, chunk: ArtifactChunk): (e: Option<PcError>)
    ensures e.None? <==> Takes(d, offset, chunk)
  {
    if chunk.transferId != d.transferId || chunk.offset != offset then Some(ArtifactOutOfOrder)
    else if |chunk.data| > d.chunkSize then Some(InvalidArtifact)
    else if offset + |chunk.data| > U64_MAX then Some(TooBig)
    else if offset + |chunk.data| > d.length then Some(InvalidArtifact)
    else None
  }

  /** What a receiver makes of the bytes that came. */
  function Received(h: HashFn, d: ArtifactDescriptor, bytes: Bytes): (r: Result<Bytes, PcError>)
    ensures r.Ok? <==> |bytes| == d.length && h(bytes) == d.hash
    ensures r.Ok? ==> r.value == bytes
  {
    if |bytes| != d.length then Err(InvalidArtifact)
    else if h(bytes) != d.hash then Err(ArtifactHashMismatch)
    else Ok(bytes)
  }

  class ArtifactAssembler {
    const descriptor: ArtifactDescriptor
    var bytes: Bytes
    var nextOffset: u64

    ghost predicate Valid()
      reads this
    {
      descriptor.Valid() && nextOffset == |bytes| <= descriptor.length
    }

    constructor (descriptor: ArtifactDescriptor)
      requires descriptor.Valid()
      ensures Valid() && this.descriptor == descriptor && bytes == []
    {
      this.descriptor := descriptor;
      bytes, nextOffset := [], 0;
    }

    /** Appends a chunk it takes, and changes nothing for any other; an empty chunk is taken like any. */
    method Push(chunk: ArtifactChunk) returns (r: Result<(), PcError>)
      requires Valid()
      modifies this
      ensures Valid()
      ensures r.Ok? <==> Takes(descriptor, old(nextOffset), chunk)
      ensures r.Err? ==> PushFault(descriptor, old(nextOffset), chunk) == Some(r.error)
      ensures bytes == if r.Ok? then old(bytes) + chunk.data else old(bytes)
    {
      if chunk.transferId != descriptor.transferId || chunk.offset != nextOffset { return Err(ArtifactOutOfOrder); }
      if |chunk.data| > descriptor.chunkSize { return Err(InvalidArtifact); }
      if nextOffset + |chunk.data| > U64_MAX { return Err(TooBig); }
      var end := nextOffset + |chunk.data|;
      if end > descriptor.length { return Err(InvalidArtifact); }
      bytes := bytes + chunk.data;
      nextOffset := end;
      r := Ok(());
    }

    /** The bytes, when all have come and their hash is the announced one. */
    method Finish(h: HashFn) returns (r: Result<Bytes, PcError>)
      requires Valid()
      ensures r == Received(h, descriptor, bytes)
    {
      if nextOffset != descriptor.length { return Err(InvalidArtifact); }
      if h(bytes) != descriptor.hash { return Err(ArtifactHashMismatch); }
      r := Ok(bytes);
    }
  }

  /******* What a peer's chunks add up to *******/

  /** The chunks a peer answers the pulls with, turn by turn. */
  type Peer = nat -> ArtifactChunk

  /** The number of bytes in the first `n` chunks. */
  function Total(peer: Peer, n: nat): nat {
    if n == 0 then 0 else Total(peer, n - 1) + |peer(n - 1).data|
  }

  lemma {:induction false} TotalAscends(peer: Peer, n: nat, m: nat)
    requires n <= m
    ensures Total(peer, n) <= Total(peer, m)
    decreases m
  {
    if n < m {
      TotalAscends(peer, n, m - 1);
    }
  }

  predicate TakenAt(d: ArtifactDescriptor, peer: Peer, k: nat) {
    Takes(d, Total(peer, k), peer(k))
  }

  /** The first `n` chunks are all taken in their turns, and bytes are still missing. */
  ghost predicate Pulls(d: ArtifactDescriptor, peer: Peer, n: nat) {
    (forall k :: 0 <= k < n ==> TakenAt(d, peer, k)) && Total(peer, n) < d.length
  }

  lemma PullsBefore(d: ArtifactDescriptor, peer: Peer, n: nat, m: nat)
    requires n <= m && Pulls(d, peer, m)
    ensures Pulls(d, peer, n) && Total(peer, n) < d.length && (n < m ==> TakenAt(d, peer, n))
  {
    hide TakenAt;
    TotalAscends(peer, n, m);
  }

  lemma PullsNext(d: ArtifactDescriptor, peer: Peer, n: nat)
    ensures Pulls(d, peer, n + 1) <==> Pulls(d, peer, n) && TakenAt(d, peer, n) && Total(peer, n + 1) < d.length
  {
    hide TakenAt;
    TotalAscends(peer, n, n + 1);
  }

  predicate StallsAt(d: ArtifactDescriptor, peer: Peer, offset: nat, m: nat) {
    peer(m).data == [] && Takes(d, offset, peer(m))
  }

  /** From turn `n` on, every answer is an empty chunk at the place where the last one ended. */
  ghost predicate StallsFrom(d: ArtifactDescriptor, peer: Peer, n: nat) {
    Pulls(d, peer, n) && forall m :: m >= n ==> StallsAt(d, peer, Total(peer, n), m)
  }

  lemma {:induction false} StalledPulls(d: ArtifactDescriptor, peer: Peer, n: nat, m: nat)
    requires StallsFrom(d, peer, n) && n <= m
    ensures Pulls(d, peer, m) && Total(peer, m) == Total(peer, n)
    decreases m
  {
    hide Takes, Pulls;
    if n < m {
      StalledPulls(d, peer, n, m - 1);
      assert StallsAt(d, peer, Total(peer, n), m - 1);
      PullsBefore(d, peer, m - 1, m - 1);
      PullsNext(d, peer, m - 1);
    }
  }

  lemma {:induction false} SameTotal(peer: Peer, n: nat, m: nat)
    requires n <= m && forall k :: n <= k < m ==> peer(k).data == []
    ensures Total(peer, m) == Total(peer, n)
    decreases m
  {
    if n < m {
      SameTotal(peer, n, m - 1);
    }
  }

  /** Chunks that bring bytes are fewer than the bytes, so after some turn none does. */
  lemma {:induction false} EndlessStalls(d: ArtifactDescriptor, peer: Peer, n: nat) returns (k: nat)
    requires forall m :: Pulls(d, peer, m)
    ensures StallsFrom(d, peer, k)
    decreases d.length - Total(peer, n)
  {
    hide Pulls, Takes, Total;
    if m :| m >= n && peer(m).data != [] {
      TotalAscends(peer, n, m);
      MoreThanBefore(d, peer, m);
      k := EndlessStalls(d, peer, m + 1);
    } else {
      k := n;
      forall m | m >= n
        ensures StallsAt(d, peer, Total(peer, n), m)
      {
        SameTotal(peer, n, m);
        PullsBefore(d, peer, m, m + 1);
      }
    }
  }

  lemma MoreThanBefore(d: ArtifactDescriptor, peer: Peer, m: nat)
    requires Pulls(d, peer, m + 1) && peer(m).data != []
    ensures Total(peer, m) < Total(peer, m + 1) < d.length
  {
    hide TakenAt;
  }

  /**
   However many answers the pull loop can still take, it takes them all with bytes missing, if
   and only if from some turn on every answer is an empty chunk at the place where the last ended.
   */
  lemma EndlessExactly(d: ArtifactDescriptor, peer: Peer)
    ensures (forall n :: Pulls(d, peer, n)) <==> exists n :: StallsFrom(d, peer, n)
  {
    hide Pulls, StallsFrom;
    if forall n :: Pulls(d, peer, n) {
      var n := EndlessStalls(d, peer, 0);
    }
    if n: nat :| StallsFrom(d, peer, n) {
      forall m: nat
        ensures Pulls(d, peer, m)
      {
        if n <= m {
          StalledPulls(d, peer, n, m);
        } else {
          StalledPulls(d, peer, n, n);
          PullsBefore(d, peer, m, n);
        }
      }
    }
  }

  /** Without empty chunks each turn brings at least a byte. */
  lemma {:induction false} NonEmptyTotal(peer: Peer, n: nat)
    requires forall k :: 0 <= k < n ==> peer(k).data != []
    ensures Total(peer, n) >= n
    decreases n
  {
    if n > 0 {
      NonEmptyTotal(peer, n - 1);
    }
  }
}
