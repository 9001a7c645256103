/**
 Writing and reading an NCC97 file as it is done: one zeroed buffer filled at computed
 offsets, and a reader with running expected offsets.
 */
module CapsuleFile {
  import opened Wrappers
  import opened Bytes
  import opened Capsule
  import opened CapsuleLayout

  datatype ChunkSpec = Embedded(kind: SectionKind, bytes: Vec<byte>) | External(kind: SectionKind, logicalLen: u64, hash: Digest)

  function ViewOfChunk(h: HashFn, c: ChunkSpec): ChunkView {
    match c
    case Embedded(kind, bytes) => ChunkView(kind, |bytes|, h(bytes), Some(bytes))
    case External(kind, logicalLen, hash) => ChunkView(kind, logicalLen, hash, None)
  }

  function ViewsOf(h: HashFn, chunks: seq<ChunkSpec>): (views: seq<ChunkView>)
    ensures |views| == |chunks| && forall i :: 0 <= i < |chunks| ==> views[i] == ViewOfChunk(h, chunks[i])
  {
    seq(|chunks|, i requires 0 <= i < |chunks| => ViewOfChunk(h, chunks[i]))
  }

  /** The view that a reader of the written file is to see. */
  function ViewOf(h: HashFn, kind: CapsuleKind, id: CapsuleId, base: Option<Digest>, chunks: seq<ChunkSpec>): View {
    var v := View(CURRENT, kind, id, base, Zeros(32), ViewsOf(h, chunks));
    v.(root := h(Metadata(v)))
  }

  predicate AllEmbedded(chunks: seq<ChunkSpec>) {
    forall i :: 0 <= i < |chunks| ==> chunks[i].Embedded?
  }

  ghost predicate ZeroGaps(bytes: Bytes, chunks: seq<ChunkView>) {
    forall place :: 0 <= place < |bytes| && InGap(chunks, place) ==> bytes[place] == 0
  }

  lemma ViewIsConsistent(h: HashFn, kind: CapsuleKind, id: CapsuleId, base: Option<Digest>, chunks: seq<ChunkSpec>)
    requires |chunks| <= U32_MAX && Addressable(ViewsOf(h, chunks)) && (kind == Full ==> AllEmbedded(chunks))
    ensures Consistent(h, ViewOf(h, kind, id, base, chunks))
  {
    hide Metadata, Addressable;
    var v := ViewOf(h, kind, id, base, chunks);
    assert Metadata(v) == Metadata(v.(root := Zeros(32))) by { RootIsNotMetadata(v, Zeros(32)); }
  }

  lemma RootIsNotMetadata(v: View, root: Digest)
    ensures Metadata(v.(root := root)) == Metadata(v)
  {
  }

  /******* Filling the buffer *******/

  method Place(out: array<byte>, at: nat, b: Bytes)
    requires at + |b| <= out.Length
    modifies out
    ensures out[at..at + |b|] == b
    ensures forall k :: 0 <= k < at || at + |b| <= k < out.Length ==> out[k] == old(out[k])
    ensures forall t :: out[..at + |b|] + t == old(out[..at]) + PutRaw(b, t)
  {
    forall i | 0 <= i < |b| {
      out[at + i] := b[i];
    }
    assert out[..at + |b|] == old(out[..at]) + b;
    assert forall t :: (old(out[..at]) + b) + t == old(out[..at]) + (b + t);
  }

  method PlaceLe(out: array<byte>, at: nat, k: nat, x: nat)
    requires at + k <= out.Length
    modifies out
    ensures forall j :: 0 <= j < at || at + k <= j < out.Length ==> out[j] == old(out[j])
    ensures forall t :: out[..at + k] + t == old(out[..at]) + PutLe(k, x, t)
  {
    Place(out, at, Le(k, x));
    assert forall t :: PutRaw(Le(k, x), t) == PutLe(k, x, t);
  }

  method PlaceContract(out: array<byte>, at: nat, c: Contract)
    requires at + 8 <= out.Length
    modifies out
    ensures forall k :: 0 <= k < at || at + 8 <= k < out.Length ==> out[k] == old(out[k])
    ensures forall t :: out[..at + 8] + t == old(out[..at]) + PutContract(c, t)
  {
    hide PutLe;
    PlaceLe(out, at, 2, c.capsule.major);
    PlaceLe(out, at + 2, 2, c.capsule.minor);
    PlaceLe(out, at + 4, 2, c.ir.major);
    PlaceLe(out, at + 6, 2, c.ir.minor);
  }

  method PlaceOffsets(out: array<byte>, at: nat, f: Header)
    requires at + 40 <= out.Length
    modifies out
    ensures forall k :: 0 <= k < at || at + 40 <= k < out.Length ==> out[k] == old(out[k])
    ensures forall t :: out[..at + 40] + t == old(out[..at]) + PutOffsets(f, t)
  {
    hide PutLe;
    PlaceLe(out, at, 8, f.manifestOffset);
    PlaceLe(out, at + 8, 8, f.manifestLen);
    PlaceLe(out, at + 16, 8, f.indexOffset);
    PlaceLe(out, at + 24, 8, f.indexLen);
    PlaceLe(out, at + 32, 8, f.payloadOffset);
  }

  predicate AllZero(s: Bytes) {
    forall i :: 0 <= i < |s| ==> s[i] == 0
  }

  /** The last twelve bytes of the header stay zero. */
  method EncodeHeader(out: array<byte>, f: Header)
    requires HEADER_LEN <= out.Length && AllZero(out[..])
    modifies out
    ensures out[..HEADER_LEN] == PutHeader(f, []) && AllZero(out[HEADER_LEN..])
  {
    hide PutLe, PutContract, PutOffsets;
    assert out[..0] == [];
    assert out[0..] == out[..];
    Place(out, 0, MAGIC);
    PlaceLe(out, 6, 2, HEADER_LEN);
    PlaceContract(out, 8, f.contract);
    PlaceLe(out, 16, 4, 0);
    PlaceOffsets(out, 20, f);
    PlaceLe(out, 60, 4, f.chunkCount);
    PlaceLe(out, 64, 4, 0);
    Place(out, 68, f.root);
    assert forall k :: 100 <= k < out.Length ==> out[k] == old(out[..])[k];
    assert out[100..112] == Zeros(12);
    assert out[..112] == out[..100] + PutRaw(Zeros(12), []);
  }

  method EncodeManifest(m: Manifest) returns (bytes: Bytes)
    ensures bytes == PutManifest(m, [])
  {
    hide PutLe;
    var out := new byte[MANIFEST_LEN](_ => 0);
    assert out[..0] == [];
    PlaceLe(out, 0, 1, KindTag(m.kind));
    PlaceLe(out, 1, 1, if m.base.Some? then 1 else 0);
    assert out[2..8] == Zeros(6);
    assert forall t :: out[..8] + t == out[..2] + PutRaw(Zeros(6), t) by { assert out[..8] == out[..2] + Zeros(6); Associative(out[..2], Zeros(6)); }
    Place(out, 8, m.id);
    if m.base.Some? {
      Place(out, 24, m.base.value);
    } else {
      assert out[24..56] == Zeros(32);
      assert forall t :: out[..56] + t == out[..24] + PutRaw(Zeros(32), t) by { assert out[..56] == out[..24] + Zeros(32); Associative(out[..24], Zeros(32)); }
    }
    bytes := out[..];
    assert bytes == out[..56] + [] == [] + PutManifest(m, []);
  }

  lemma Associative(a: Bytes, b: Bytes)
    ensures forall t :: (a + b) + t == a + PutRaw(b, t)
  {
    assert forall t :: (a + b) + t == a + (b + t);
  }

  method PlaceEntry(out: array<byte>, at: nat, e: Entry)
    requires at + ENTRY_LEN <= out.Length
    modifies out
    ensures forall k :: 0 <= k < at || at + ENTRY_LEN <= k < out.Length ==> out[k] == old(out[k])
    ensures forall t :: out[..at + ENTRY_LEN] + t == old(out[..at]) + PutEntry(e, t)
  {
    hide PutLe;
    PlaceLe(out, at, 2, e.kind);
    PlaceLe(out, at + 2, 2, e.flags);
    PlaceLe(out, at + 4, 4, 0);
    PlaceLe(out, at + 8, 8, e.logicalLen);
    PlaceLe(out, at + 16, 8, e.offset);
    Place(out, at + 24, e.hash);
  }

  method EncodeIndex(entries: seq<Entry>) returns (bytes: Bytes)
    ensures bytes == Index(entries)
  {
    hide PutEntry;
    var out := new byte[|entries| * ENTRY_LEN](_ => 0);
    assert out[..0] == [];
    for i := 0 to |entries|
      invariant forall t :: Index2(entries, t) == out[..i * ENTRY_LEN] + PutFrom(PutEntry, entries, i, t)
    {
      assert i * ENTRY_LEN + ENTRY_LEN <= |entries| * ENTRY_LEN;
      PlaceEntry(out, i * ENTRY_LEN, entries[i]);
    }
    bytes := out[..];
    assert bytes == out[..|entries| * ENTRY_LEN] + [] == Index2(entries, []);
  }

  function Index2(entries: seq<Entry>, t: Bytes): Bytes {
    PutMany(PutEntry, entries, t)
  }

  /******* CapsuleBuilder *******/

  class CapsuleBuilder {
    var kind: CapsuleKind
    var id: CapsuleId
    var base: Option<Digest>
    var chunks: Vec<ChunkSpec>

    constructor (kind: CapsuleKind, id: CapsuleId)
      ensures this.kind == kind && this.id == id && base == None && chunks == []
    {
      this.kind, this.id, base, chunks := kind, id, None, [];
    }

    method WithBaseRoot(root: Digest)
      modifies this`base
      ensures base == Some(root)
    {
      base := Some(root);
    }

    method PushEmbedded(section: SectionKind, bytes: Vec<byte>)
      requires |chunks| < ISIZE_MAX
      modifies this`chunks
      ensures chunks == old(chunks) + [Embedded(section, bytes)]
    {
      chunks := chunks + [Embedded(section, bytes)];
    }

    method PushExternal(section: SectionKind, logicalLen: u64, hash: Digest)
      requires |chunks| < ISIZE_MAX
      modifies this`chunks
      ensures chunks == old(chunks) + [External(section, logicalLen, hash)]
    {
      chunks := chunks + [External(section, logicalLen, hash)];
    }

    /** The index entries and the length of the file, or None on overflow. */
    method PlanLayout(h: HashFn) returns (plan: Option<(seq<Entry>, nat)>)
      requires |chunks| <= U32_MAX
      ensures plan.Some? <==> Addressable(ViewsOf(h, chunks))
      ensures plan.Some? ==> plan.value == (Entries(ViewsOf(h, chunks)), FileLen(ViewsOf(h, chunks)))
    {
      hide AlignUp, PayloadOffset, End, EntryOf, PlacedAfter;
      ghost var views := ViewsOf(h, chunks);
      var entries := [];
      var cursor := PayloadOffset(|chunks|);
      var fileLen := PayloadOffset(|chunks|);
      AlignedPayload(|chunks|);
      EndOfNothing(views);
      for i := 0 to |chunks|
        invariant |entries| == i && forall k :: 0 <= k < i ==> entries[k] == EntryOf(views, k)
        invariant fileLen == End(views, i) && cursor == AlignUp(fileLen)
        invariant forall k :: 0 <= k < i && views[k].stored.Some? ==> End(views, k + 1) + 7 <= U64_MAX
      {
        var placed := PlaceChunk(h, chunks[i], cursor, fileLen);
        PlacedAsViewed(h, chunks[i], views, i, placed);
        if placed.None? { return None; }
        entries, cursor, fileLen := entries + [placed.value.0], placed.value.1, placed.value.2;
      }
      assert entries == Entries(views);
      plan := Some((entries, fileLen));
    }

    /** Copies the stored chunks to the offsets in their entries; all else is as it was. */
    method PlacePayload(h: HashFn, out: array<byte>, entries: seq<Entry>)
      requires |entries| == |chunks|
      requires var views := ViewsOf(h, chunks); entries == Entries(views) && out.Length == FileLen(views)
      modifies out
      ensures var views := ViewsOf(h, chunks); forall k :: 0 <= k < |views| ==> InPlace(out[..], views, k)
      ensures forall k :: 0 <= k < out.Length && k < PayloadOffset(|chunks|) ==> out[k] == old(out[k])
      ensures forall k :: 0 <= k < out.Length && InGap(ViewsOf(h, chunks), k) ==> out[k] == old(out[k])
    {
      hide AlignUp, PayloadOffset, InPlace, InGap;
      ghost var views := ViewsOf(h, chunks);
      EndsAscend(views, 0, |views|);
      for i := 0 to |chunks|
        invariant forall k :: 0 <= k < i ==> InPlace(out[..], views, k)
        invariant forall k :: 0 <= k < out.Length && (k < PayloadOffset(|chunks|) || InGap(views, k)) ==> out[k] == old(out[k])
      {
        if chunks[i].Embedded? {
          StoredRange(views, i);
          ghost var before := out[..];
          Place(out, entries[i].offset, chunks[i].bytes);
          PlacedOne(before, out[..], views, i);
        } else {
          NothingToPlace(out[..], views, i);
        }
      }
    }

    /**
     Fails exactly on an external chunk in a full capsule, too many chunks, or a place past
     the address space. Otherwise the file holds the builder's view, with zeros in the gaps,
     and a reader sees that view.
     */
    method Write(h: HashFn) returns (r: Result<Bytes, CapsuleError>)
      ensures r == Err(ExternalChunkInFullCapsule) <==> kind == Full && !AllEmbedded(chunks)
      ensures r.Ok? <==> (kind == Full ==> AllEmbedded(chunks)) && |chunks| <= U32_MAX && Addressable(ViewsOf(h, chunks))
      ensures r.Err? ==> r.error in {ExternalChunkInFullCapsule, TooLarge}
      ensures r.Ok? ==> var v := ViewOf(h, kind, id, base, chunks);
                        Laid(r.value, v) && ZeroGaps(r.value, v.chunks) && Read(h, r.value) == Ok(v)
    {
      hide Addressable, Entries, PutHeader, PutManifest, Index, AlignUp, PayloadOffset, Read, InPlace, InGap, End, Consistent;
      if kind == Full && !AllEmbedded(chunks) {
        return Err(ExternalChunkInFullCapsule);
      }
      if |chunks| > U32_MAX {
        return Err(TooLarge);
      }
      var plan := PlanLayout(h);
      if plan.None? {
        return Err(TooLarge);
      }
      var (entries, fileLen) := plan.value;
      ghost var v := ViewOf(h, kind, id, base, chunks);
      var manifest := EncodeManifest(Manifest(kind, id, base));
      var index := EncodeIndex(entries);
      var root := h(manifest + index);
      ViewIsConsistent(h, kind, id, base, chunks);
      FrontLength(v);
      PayloadFollowsIndex(|chunks|);
      EndsAscend(v.chunks, 0, |chunks|);
      var out := new byte[fileLen](_ => 0);
      var header := Header(CURRENT, HEADER_LEN, MANIFEST_LEN, INDEX_OFFSET, |index|, PayloadOffset(|chunks|), |chunks|, root);
      PlaceFront(out, header, manifest, index);
      ghost var front := out[..];
      FrontPlaced(out[..], v);
      PlacePayload(h, out, entries);
      assert out[..PayloadOffset(|chunks|)] == front[..PayloadOffset(|chunks|)];
      GapsStayZero(front, out[..], v.chunks);
      r := Ok(out[..]);
      LaidIsRead(h, r.value, v);
    }
  }

  /** What placing one chunk must give: its entry, the next aligned place, and where the file ends so far. */
  predicate PlacedAfter(h: HashFn, c: ChunkSpec, fileLen: nat, placed: Option<(Entry, nat, nat)>) {
    match c
    case External(kind, logicalLen, hash) => placed == Some((Entry(kind, 1, logicalLen, 0, hash), AlignUp(fileLen), fileLen))
    case Embedded(kind, bytes) =>
      var end := AlignUp(fileLen) + |bytes|;
      placed == if end + 7 > U64_MAX then None else Some((Entry(kind, 0, |bytes|, AlignUp(fileLen), h(bytes)), AlignUp(end), end))
  }

  method PlaceChunk(h: HashFn, c: ChunkSpec, cursor: nat, fileLen: nat) returns (placed: Option<(Entry, nat, nat)>)
    requires cursor == AlignUp(fileLen)
    ensures PlacedAfter(h, c, fileLen, placed)
  {
    Aligned(fileLen);
    match c {
      case External(kind, logicalLen, hash) =>
        placed := Some((Entry(kind, 1, logicalLen, 0, hash), cursor, fileLen));
      case Embedded(kind, bytes) =>
        var end := cursor + |bytes|;
        if end > U64_MAX || end + 7 > U64_MAX { return None; }
        placed := Some((Entry(kind, 0, |bytes|, cursor, h(bytes)), AlignUp(end), if fileLen > end then fileLen else end));
    }
  }

  lemma PlacedAsViewed(h: HashFn, c: ChunkSpec, views: seq<ChunkView>, i: nat, placed: Option<(Entry, nat, nat)>)
    requires i < |views| && views[i] == ViewOfChunk(h, c) && PlacedAfter(h, c, End(views, i), placed)
    ensures placed.Some? <==> (views[i].stored.Some? ==> End(views, i + 1) + 7 <= U64_MAX)
    ensures placed.Some? ==> placed.value == (EntryOf(views, i), AlignUp(End(views, i + 1)), End(views, i + 1))
  {
    hide AlignUp;
  }

  method PlaceFront(out: array<byte>, header: Header, manifest: Bytes, index: Bytes)
    requires |manifest| == MANIFEST_LEN && INDEX_OFFSET + |index| <= out.Length && AllZero(out[..])
    modifies out
    ensures out[..HEADER_LEN] == PutHeader(header, [])
    ensures out[HEADER_LEN..INDEX_OFFSET] == manifest && out[INDEX_OFFSET..INDEX_OFFSET + |index|] == index
    ensures AllZero(out[INDEX_OFFSET + |index|..])
  {
    hide PutHeader;
    EncodeHeader(out, header);
    ghost var zeros := out[HEADER_LEN..];
    ghost var first := out[..HEADER_LEN];
    assert forall k :: HEADER_LEN <= k < out.Length ==> out[k] == zeros[k - HEADER_LEN];
    Place(out, HEADER_LEN, manifest);
    Place(out, INDEX_OFFSET, index);
    assert out[..HEADER_LEN] == first;
    assert out[HEADER_LEN..INDEX_OFFSET] == manifest;
  }

  lemma GapsStayZero(front: Bytes, bytes: Bytes, chunks: seq<ChunkView>)
    requires |front| == |bytes| && PayloadOffset(|chunks|) <= |front| && AllZero(front[PayloadOffset(|chunks|)..])
    requires forall k :: 0 <= k < |bytes| && InGap(chunks, k) ==> bytes[k] == front[k]
    ensures ZeroGaps(bytes, chunks)
  {
    hide InGap, PayloadOffset;
    forall k | 0 <= k < |bytes| && InGap(chunks, k)
      ensures bytes[k] == 0
    {
      GapIsInPayload(chunks, k);
      assert front[k] == front[PayloadOffset(|chunks|)..][k - PayloadOffset(|chunks|)];
    }
  }

  lemma AlignedPayload(n: nat)
    ensures AlignUp(PayloadOffset(n)) == PayloadOffset(n)
  {
    Aligned(INDEX_OFFSET + n * ENTRY_LEN);
  }

  lemma StoredRange(chunks: seq<ChunkView>, i: nat)
    requires i < |chunks| && chunks[i].stored.Some?
    ensures PayloadOffset(|chunks|) <= Start(chunks, i) && Start(chunks, i) + |chunks[i].stored.value| <= FileLen(chunks)
  {
    hide AlignUp, PayloadOffset;
    EndAfterStored(chunks, i);
    EndsAscend(chunks, 0, i);
    EndsAscend(chunks, i + 1, |chunks|);
  }

  lemma NothingToPlace(bytes: Bytes, chunks: seq<ChunkView>, i: nat)
    requires i < |chunks| && chunks[i].stored.None?
    ensures InPlace(bytes, chunks, i)
  {
  }

  /** Storing chunk `i` touches no earlier chunk, no gap and nothing before the payload. */
  lemma PlacedOne(before: Bytes, after: Bytes, chunks: seq<ChunkView>, i: nat)
    requires i < |chunks| && chunks[i].stored.Some? && |before| == |after| == FileLen(chunks)
    requires var s := Start(chunks, i); var e := s + |chunks[i].stored.value|;
             e <= |after| && after[s..e] == chunks[i].stored.value
             && forall k :: 0 <= k < |after| && !(s <= k < e) ==> after[k] == before[k]
    requires forall k :: 0 <= k < i ==> InPlace(before, chunks, k)
    ensures forall k :: 0 <= k <= i ==> InPlace(after, chunks, k)
    ensures forall k :: 0 <= k < |after| && (k < PayloadOffset(|chunks|) || InGap(chunks, k)) ==> after[k] == before[k]
  {
    hide AlignUp, PayloadOffset, End, InGap;
    StoredRange(chunks, i);
    forall k | 0 <= k < i && chunks[k].stored.Some?
      ensures InPlace(after, chunks, k)
    {
      assert InPlace(before, chunks, k);
      EndAfterStored(chunks, k);
      EndsAscend(chunks, k + 1, i);
      EndAfterStored(chunks, i);
      var a, b := Start(chunks, k), Start(chunks, k) + |chunks[k].stored.value|;
      assert after[a..b] == before[a..b];
    }
    forall k | 0 <= k < |after| && InGap(chunks, k)
      ensures after[k] == before[k]
    {
      GapIsOutside(chunks, k, i);
    }
  }

  lemma FrontPlaced(bytes: Bytes, v: View)
    requires |v.chunks| <= U32_MAX && Addressable(v.chunks) && PayloadOffset(|v.chunks|) <= |bytes|
    requires bytes[..HEADER_LEN] == PutHeader(HeaderOf(v), [])
    requires bytes[HEADER_LEN..INDEX_OFFSET] == ManifestBytes(v)
    requires bytes[INDEX_OFFSET..PayloadOffset(|v.chunks|)] == Index(Entries(v.chunks))
    ensures bytes[..PayloadOffset(|v.chunks|)] == Front(v)
  {
    hide PutHeader, ManifestBytes, Index, PayloadOffset;
    PayloadFollowsIndex(|v.chunks|);
    HeaderLength(HeaderOf(v), bytes[HEADER_LEN..]);
    HeaderLength(HeaderOf(v), []);
    assert bytes == bytes[..HEADER_LEN] + bytes[HEADER_LEN..];
    FrontIsPrefix(bytes, v);
  }

  /******* CapsuleView::read *******/

  method ReadLe(src: Bytes, at: nat, k: nat) returns (x: nat)
    requires at + k <= |src|
    ensures x < Pow256(k)
    ensures src[at..] == PutLe(k, x, src[at + k..])
  {
    LeOfFromLe(src[at..at + k]);
    x := FromLe(src[at..at + k]);
    assert src[at..] == src[at..at + k] + src[at + k..];
  }

  method ReadContract(bytes: Bytes) returns (c: Contract)
    requires HEADER_LEN <= |bytes|
    ensures bytes[8..] == PutContract(c, bytes[16..])
  {
    hide PutLe;
    IntegerWidths();
    var a := ReadLe(bytes, 8, 2);
    var b := ReadLe(bytes, 10, 2);
    var d := ReadLe(bytes, 12, 2);
    var e := ReadLe(bytes, 14, 2);
    c := Contract(Version(a, b), Version(d, e));
  }

  /** The fields from offset 20 to 60. */
  method ReadOffsets(bytes: Bytes, contract: Contract, chunkCount: u32, root: Digest) returns (f: Header)
    requires HEADER_LEN <= |bytes|
    ensures f.contract == contract && f.chunkCount == chunkCount && f.root == root
    ensures bytes[20..] == PutOffsets(f, bytes[60..])
  {
    hide PutLe;
    IntegerWidths();
    var manifestOffset := ReadLe(bytes, 20, 8);
    var manifestLen := ReadLe(bytes, 28, 8);
    var indexOffset := ReadLe(bytes, 36, 8);
    var indexLen := ReadLe(bytes, 44, 8);
    var payloadOffset := ReadLe(bytes, 52, 8);
    f := Header(contract, manifestOffset, manifestLen, indexOffset, indexLen, payloadOffset, chunkCount, root);
  }

  lemma Sliced(bytes: Bytes, a: nat, b: nat)
    requires a <= b <= |bytes|
    ensures bytes[a..] == PutRaw(bytes[a..b], bytes[b..])
  {
  }

  method DecodeHeader(bytes: Bytes) returns (r: Result<Header, CapsuleError>)
    ensures r.Ok? ==> HEADER_LEN <= |bytes|
    ensures match r case Ok(f) => GetHeader(bytes) == Ok((f, bytes[HEADER_LEN..])) case Err(e) => GetHeader(bytes) == Err(e)
  {
    hide PutLe, PutRaw, PutContract, GetContract, GetU16, GetU32, GetU64, GetRaw, PutOffsets;
    if |bytes| < HEADER_LEN { return Err(Truncated); }
    IntegerWidths();
    Sliced(bytes, 0, 6);
    if bytes[0..6] != MAGIC { return Err(InvalidMagic); }
    var headerLen := ReadLe(bytes, 6, 2);
    assert bytes[6..] == PutU16(headerLen, bytes[8..]);
    if headerLen != HEADER_LEN { return Err(InvalidHeader); }
    var contract := ReadContract(bytes);
    var flags := ReadLe(bytes, 16, 4);
    assert bytes[16..] == PutU32(flags, bytes[20..]);
    if flags != 0 { return Err(InvalidHeader); }
    var chunkCount := ReadLe(bytes, 60, 4);
    var reserved := ReadLe(bytes, 64, 4);
    Sliced(bytes, 68, 100);
    Sliced(bytes, 100, 112);
    var f := ReadOffsets(bytes, contract, chunkCount, bytes[68..100]);
    HeaderTail(bytes, chunkCount, reserved);
    OffsetsThenTail(bytes, f);
    if reserved != 0 || bytes[100..HEADER_LEN] != Zeros(12) { return Err(InvalidHeader); }
    r := Ok(f);
  }

  lemma HeaderTail(bytes: Bytes, chunkCount: u32, reserved: u32)
    requires HEADER_LEN <= |bytes|
    requires bytes[60..] == PutU32(chunkCount, bytes[64..]) && bytes[64..] == PutU32(reserved, bytes[68..])
    ensures GetHeaderTail(bytes[60..]) == if reserved != 0 || bytes[100..112] != Zeros(12) then Err(InvalidHeader)
                                          else Ok((chunkCount, bytes[68..100], bytes[112..]))
  {
    hide PutLe, PutU32, GetU32, PutRaw, GetRaw;
    Sliced(bytes, 68, 100);
    Sliced(bytes, 100, 112);
  }

  /** What is left of reading the header after the flags. */
  lemma OffsetsThenTail(bytes: Bytes, f: Header)
    requires HEADER_LEN <= |bytes| && bytes[20..] == PutOffsets(f, bytes[60..])
    ensures GetU64(bytes[20..], Truncated) == Ok((f.manifestOffset, bytes[28..]))
    ensures GetU64(bytes[28..], Truncated) == Ok((f.manifestLen, bytes[36..]))
    ensures GetU64(bytes[36..], Truncated) == Ok((f.indexOffset, bytes[44..]))
    ensures GetU64(bytes[44..], Truncated) == Ok((f.indexLen, bytes[52..]))
    ensures GetU64(bytes[52..], Truncated) == Ok((f.payloadOffset, bytes[60..]))
  {
    hide Le, GetU64;
    assert bytes[28..] == bytes[20..][8..];
    assert bytes[36..] == bytes[28..][8..];
    assert bytes[44..] == bytes[36..][8..];
    assert bytes[52..] == bytes[44..][8..];
    assert bytes[60..] == bytes[52..][8..];
  }

  method DecodeManifest(bytes: Bytes) returns (r: Result<Manifest, CapsuleError>)
    ensures |bytes| == MANIFEST_LEN ==> match r case Ok(m) => GetManifest(bytes) == Ok((m, [])) case Err(e) => GetManifest(bytes) == Err(e)
  {
    hide PutLe, PutRaw, GetU8, GetRaw;
    if |bytes| != MANIFEST_LEN { return Err(InvalidManifest); }
    IntegerWidths();
    var raw := ReadLe(bytes, 0, 1);
    var flags := ReadLe(bytes, 1, 1);
    assert bytes[0..] == bytes;
    assert bytes == PutU8(raw, bytes[1..]) && bytes[1..] == PutU8(flags, bytes[2..]);
    if !(1 <= raw <= 3) { return Err(InvalidCapsuleKind(raw)); }
    var kind := if raw == 1 then Full else if raw == 2 then Thin else State;
    Sliced(bytes, 2, 8);
    Sliced(bytes, 8, 24);
    Sliced(bytes, 24, 56);
    assert bytes[56..] == [];
    if flags > 1 || bytes[2..8] != Zeros(6) { return Err(InvalidManifest); }
    var id, root := bytes[8..24], bytes[24..56];
    if flags == 1 { return Ok(Manifest(kind, id, Some(root))); }
    if root != Zeros(32) { return Err(InvalidManifest); }
    r := Ok(Manifest(kind, id, None));
  }

  method DecodeEntry(bytes: Bytes, at: nat) returns (r: Result<Entry, CapsuleError>)
    requires at + ENTRY_LEN <= |bytes|
    ensures match r case Ok(e) => GetEntry(bytes[at..]) == Ok((e, bytes[at + ENTRY_LEN..])) case Err(e) => GetEntry(bytes[at..]) == Err(e)
  {
    hide PutLe, PutRaw, GetU16, GetU32, GetU64, GetRaw;
    IntegerWidths();
    var kind := ReadLe(bytes, at, 2);
    assert bytes[at..] == PutU16(kind, bytes[at + 2..]);
    if !(1 <= kind <= 17) { return Err(InvalidSectionKind(kind)); }
    var flags := ReadLe(bytes, at + 2, 2);
    assert bytes[at + 2..] == PutU16(flags, bytes[at + 4..]);
    var reserved := ReadLe(bytes, at + 4, 4);
    assert bytes[at + 4..] == PutU32(reserved, bytes[at + 8..]);
    if reserved != 0 { return Err(InvalidIndex); }
    var logicalLen := ReadLe(bytes, at + 8, 8);
    assert bytes[at + 8..] == PutU64(logicalLen, bytes[at + 16..]);
    var offset := ReadLe(bytes, at + 16, 8);
    assert bytes[at + 16..] == PutU64(offset, bytes[at + 24..]);
    Sliced(bytes, at + 24, at + 56);
    r := Ok(Entry(kind, flags, logicalLen, offset, bytes[at + 24..at + 56]));
  }

  method DecodeIndex(bytes: Bytes, count: u32) returns (r: Result<seq<Entry>, CapsuleError>)
    ensures |bytes| == count * ENTRY_LEN ==>
              match r case Ok(entries) => GetMany(GetEntry, count, bytes) == Ok((entries, [])) case Err(e) => GetMany(GetEntry, count, bytes) == Err(e)
  {
    hide GetEntry;
    if |bytes| != count * ENTRY_LEN { return Err(InvalidIndex); }
    var entries := [];
    assert bytes[0..] == bytes && bytes[count * ENTRY_LEN..] == [];
    for i := 0 to count
      invariant GetMany(GetEntry, count, bytes) == GetMore(GetEntry, count - i, entries, bytes[i * ENTRY_LEN..])
    {
      var e := DecodeEntry(bytes, i * ENTRY_LEN);
      if e.Err? { return Err(e.error); }
      entries := entries + [e.value];
    }
    r := Ok(entries);
  }

  method CheckedRange(total: nat, offset: u64, len: u64) returns (end: Result<u64, CapsuleError>)
    ensures end == if offset + len > U64_MAX then Err(TooLarge) else if offset + len > total then Err(Truncated) else Ok(offset + len)
  {
    if offset + len > U64_MAX { return Err(TooLarge); }
    if offset + len > total { return Err(Truncated); }
    end := Ok(offset + len);
  }

  /** The chunks, with running expectations of where the next one starts and the file ends. */
  method CollectChunks(h: HashFn, kind: CapsuleKind, bytes: Bytes, entries: seq<Entry>, payloadOffset: nat) returns (r: Result<(seq<ChunkView>, nat), CapsuleError>)
    requires All(FitsEntry, entries) && AlignUp(payloadOffset) == payloadOffset
    ensures r == ReadChunks(h, kind, bytes, entries, [], payloadOffset)
  {
    hide AlignUp;
    var chunks: seq<ChunkView> := [];
    var expectedOffset: nat, expectedLen: nat := payloadOffset, payloadOffset;
    for i := 0 to |entries|
      invariant |chunks| == i && expectedOffset == AlignUp(expectedLen)
      invariant ReadChunks(h, kind, bytes, entries, [], payloadOffset) == ReadChunks(h, kind, bytes, entries, chunks, expectedLen)
    {
      var e := entries[i];
      assert FitsEntry(e);
      if e.flags > 1 { return Err(InvalidChunkFlags(e.flags)); }
      if e.flags == 1 {
        if e.offset != 0 { return Err(InvalidIndex); }
        if kind == Full { return Err(ExternalChunkInFullCapsule); }
        chunks := chunks + [ChunkView(e.kind, e.logicalLen, e.hash, None)];
        continue;
      }
      if e.offset != expectedOffset { return Err(NonCanonicalLayout); }
      var end := CheckedRange(|bytes|, e.offset, e.logicalLen);
      if end.Err? { return Err(end.error); }
      if end.value + 7 > U64_MAX { return Err(TooLarge); }
      expectedLen := end.value;
      expectedOffset := AlignUp(end.value);
      if h(bytes[e.offset..end.value]) != e.hash { return Err(ChunkIntegrityMismatch(e.kind)); }
      chunks := chunks + [ChunkView(e.kind, e.logicalLen, e.hash, Some(bytes[e.offset..end.value]))];
    }
    r := Ok((chunks, expectedLen));
  }

  method ReadCapsule(h: HashFn, bytes: Bytes) returns (r: Result<View, CapsuleError>)
    ensures r == Read(h, bytes)
  {
    hide GetHeader, GetManifest, GetMany, ReadChunks, AlignUp;
    var header := DecodeHeader(bytes);
    if header.Err? { return Err(header.error); }
    var f := header.value;
    if !CURRENT.CanRead(f.contract) { return Err(UnsupportedContract(f.contract)); }
    var indexLen := f.chunkCount * ENTRY_LEN;
    var payloadOffset := AlignUp(INDEX_OFFSET + indexLen);
    if f.manifestOffset != HEADER_LEN || f.manifestLen != MANIFEST_LEN || f.indexOffset != INDEX_OFFSET
       || f.indexLen != indexLen || f.payloadOffset != payloadOffset {
      return Err(NonCanonicalLayout);
    }
    var manifestEnd := CheckedRange(|bytes|, f.manifestOffset, f.manifestLen);
    if manifestEnd.Err? { return Err(manifestEnd.error); }
    var indexEnd := CheckedRange(|bytes|, f.indexOffset, f.indexLen);
    if indexEnd.Err? { return Err(indexEnd.error); }
    var manifestBytes, indexBytes := bytes[HEADER_LEN..INDEX_OFFSET], bytes[INDEX_OFFSET..INDEX_OFFSET + indexLen];
    if h(manifestBytes + indexBytes) != f.root { return Err(MetadataIntegrityMismatch); }
    var manifest := DecodeManifest(manifestBytes);
    if manifest.Err? { return Err(manifest.error); }
    var entries := DecodeIndex(indexBytes, f.chunkCount);
    if entries.Err? { return Err(entries.error); }
    IndexReadOnly(f.chunkCount, indexBytes);
    Aligned(INDEX_OFFSET + indexLen);
    var chunks := CollectChunks(h, manifest.value.kind, bytes, entries.value, payloadOffset);
    if chunks.Err? { return Err(chunks.error); }
    if |bytes| != chunks.value.1 { return Err(NonCanonicalLayout); }
    r := Ok(View(f.contract, manifest.value.kind, manifest.value.id, manifest.value.base, f.root, chunks.value.0));
  }
}
