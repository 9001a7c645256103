/**
 Where everything lies in an NCC97 file, and that the reader accepts exactly the files so
 laid out: the accepted layout is forced up to the bytes of the alignment gaps.
 */
module CapsuleLayout {
  import opened Wrappers
  import opened Bytes
  import opened Capsule

  /******* Places *******/

  function AlignUp(n: nat): nat {
    (n + 7) / ALIGNMENT * ALIGNMENT
  }

  function PayloadOffset(chunkCount: nat): nat {
    AlignUp(INDEX_OFFSET + chunkCount * ENTRY_LEN)
  }

  lemma Aligned(n: nat)
    ensures n <= AlignUp(n) <= n + 7
    ensures AlignUp(n) % ALIGNMENT == 0
    ensures AlignUp(AlignUp(n)) == AlignUp(n)
  {
  }

  /** The index needs no padding. */
  lemma PayloadFollowsIndex(chunkCount: nat)
    ensures PayloadOffset(chunkCount) == INDEX_OFFSET + chunkCount * ENTRY_LEN
  {
    assert INDEX_OFFSET + chunkCount * ENTRY_LEN == 8 * (21 + 7 * chunkCount);
  }

  /** Where the stored bytes of the first `n` chunks end. */
  function End(chunks: seq<ChunkView>, n: nat): nat
    requires n <= |chunks|
  {
    if n == 0 then PayloadOffset(|chunks|)
    else if chunks[n - 1].stored.None? then End(chunks, n - 1)
    else AlignUp(End(chunks, n - 1)) + |chunks[n - 1].stored.value|
  }

  function Start(chunks: seq<ChunkView>, i: nat): nat
    requires i < |chunks|
  {
    AlignUp(End(chunks, i))
  }

  function FileLen(chunks: seq<ChunkView>): nat {
    End(chunks, |chunks|)
  }

  /** The stored bytes of chunk `i` are where they belong. */
  predicate InPlace(bytes: Bytes, chunks: seq<ChunkView>, i: nat)
    requires i < |chunks|
  {
    chunks[i].stored.Some? ==>
      && Start(chunks, i) + |chunks[i].stored.value| <= |bytes|
      && bytes[Start(chunks, i)..Start(chunks, i) + |chunks[i].stored.value|] == chunks[i].stored.value
  }

  /** A place between two stored chunks. */
  ghost predicate InGap(chunks: seq<ChunkView>, place: nat) {
    exists i :: 0 <= i < |chunks| && chunks[i].stored.Some? && End(chunks, i) <= place < Start(chunks, i)
  }

  lemma {:induction false} EndsAscend(chunks: seq<ChunkView>, i: nat, j: nat)
    requires i <= j <= |chunks|
    ensures PayloadOffset(|chunks|) <= End(chunks, i) <= End(chunks, j)
    decreases j
  {
    if i < j {
      EndsAscend(chunks, i, j - 1);
      Aligned(End(chunks, j - 1));
    } else if i > 0 {
      EndsAscend(chunks, i - 1, j - 1);
      Aligned(End(chunks, i - 1));
    }
  }

  /** Header, manifest, index and stored chunks lie in order, do not overlap and are in bounds. */
  lemma RangesAreDisjoint(chunks: seq<ChunkView>, i: nat, j: nat)
    requires i < j < |chunks| && chunks[i].stored.Some? && chunks[j].stored.Some?
    ensures HEADER_LEN + MANIFEST_LEN + |chunks| * ENTRY_LEN <= Start(chunks, i)
    ensures Start(chunks, i) + |chunks[i].stored.value| <= Start(chunks, j)
    ensures Start(chunks, j) + |chunks[j].stored.value| <= FileLen(chunks)
    ensures Start(chunks, i) % ALIGNMENT == 0
  {
    PayloadFollowsIndex(|chunks|);
    EndsAscend(chunks, 0, i);
    EndsAscend(chunks, i + 1, j);
    EndsAscend(chunks, j + 1, |chunks|);
    Aligned(End(chunks, i));
    Aligned(End(chunks, j));
  }

  /** Every place of the payload is in a stored chunk or in a gap, never in both; gaps are under 8 bytes. */
  lemma {:induction false} PayloadIsCovered(chunks: seq<ChunkView>, n: nat, place: nat) returns (i: nat)
    requires n <= |chunks| && PayloadOffset(|chunks|) <= place < End(chunks, n)
    ensures i < n && chunks[i].stored.Some?
    ensures End(chunks, i) <= place < End(chunks, i + 1) && Start(chunks, i) < End(chunks, i) + 8
    decreases n
  {
    if place < End(chunks, n - 1) {
      i := PayloadIsCovered(chunks, n - 1, place);
    } else {
      i := n - 1;
      Aligned(End(chunks, i));
    }
  }

  lemma EndAfterStored(chunks: seq<ChunkView>, i: nat)
    requires i < |chunks| && chunks[i].stored.Some?
    ensures End(chunks, i + 1) == Start(chunks, i) + |chunks[i].stored.value|
    ensures End(chunks, i) <= Start(chunks, i) <= End(chunks, i + 1)
  {
    Aligned(End(chunks, i));
  }

  lemma GapIsOutside(chunks: seq<ChunkView>, place: nat, i: nat)
    requires i < |chunks| && chunks[i].stored.Some? && InGap(chunks, place)
    ensures !(Start(chunks, i) <= place < Start(chunks, i) + |chunks[i].stored.value|)
  {
    hide End, Start;
    var g :| 0 <= g < |chunks| && chunks[g].stored.Some? && End(chunks, g) <= place < Start(chunks, g);
    EndAfterStored(chunks, i);
    EndAfterStored(chunks, g);
    if g < i {
      EndsAscend(chunks, g + 1, i);
    } else if i < g {
      EndsAscend(chunks, i + 1, g);
    }
  }

  /******* What a file must say *******/

  function EntryOf(chunks: seq<ChunkView>, i: nat): Entry
    requires i < |chunks|
  {
    var c := chunks[i];
    if c.stored.Some? then Entry(c.kind, 0, c.logicalLen, Start(chunks, i), c.hash)
    else Entry(c.kind, 1, c.logicalLen, 0, c.hash)
  }

  function Entries(chunks: seq<ChunkView>): (entries: seq<Entry>)
    ensures |entries| == |chunks| && forall i :: 0 <= i < |chunks| ==> entries[i] == EntryOf(chunks, i)
  {
    seq(|chunks|, i requires 0 <= i < |chunks| => EntryOf(chunks, i))
  }

  function HeaderOf(v: View): Header
    requires |v.chunks| <= U32_MAX
  {
    Header(v.contract, HEADER_LEN, MANIFEST_LEN, INDEX_OFFSET, |v.chunks| * ENTRY_LEN, INDEX_OFFSET + |v.chunks| * ENTRY_LEN,
           |v.chunks|, v.root)
  }

  function ManifestBytes(v: View): Bytes {
    PutManifest(Manifest(v.kind, v.id, v.base), [])
  }

  function Metadata(v: View): Bytes {
    ManifestBytes(v) + Index(Entries(v.chunks))
  }

  /** Header, manifest and index. */
  function Front(v: View): Bytes
    requires |v.chunks| <= U32_MAX
  {
    PutHeader(HeaderOf(v), Metadata(v))
  }

  /** Every stored chunk ends early enough for the next one to be aligned. */
  predicate Addressable(chunks: seq<ChunkView>) {
    forall i :: 0 <= i < |chunks| && chunks[i].stored.Some? ==> End(chunks, i + 1) + 7 <= U64_MAX
  }

  predicate Genuine(h: HashFn, c: ChunkView) {
    c.stored.Some? ==> c.logicalLen == |c.stored.value| && c.hash == h(c.stored.value)
  }

  /** The views a reader can show at all. */
  predicate Consistent(h: HashFn, v: View) {
    && CURRENT.CanRead(v.contract)
    && |v.chunks| <= U32_MAX && Addressable(v.chunks)
    && v.root == h(Metadata(v))
    && (forall i :: 0 <= i < |v.chunks| ==> Genuine(h, v.chunks[i]))
    && (v.kind == Full ==> forall i :: 0 <= i < |v.chunks| ==> v.chunks[i].stored.Some?)
  }

  /** The bytes hold exactly the view `v`; nothing is said about the gaps. */
  predicate Laid(bytes: Bytes, v: View)
    requires |v.chunks| <= U32_MAX
  {
    && |bytes| == FileLen(v.chunks)
    && PayloadOffset(|v.chunks|) <= |bytes|
    && bytes[..PayloadOffset(|v.chunks|)] == Front(v)
    && forall i :: 0 <= i < |v.chunks| ==> InPlace(bytes, v.chunks, i)
  }

  lemma FrontLength(v: View)
    requires |v.chunks| <= U32_MAX && Addressable(v.chunks)
    ensures |Front(v)| == PayloadOffset(|v.chunks|)
    ensures |ManifestBytes(v)| == MANIFEST_LEN && |Index(Entries(v.chunks))| == |v.chunks| * ENTRY_LEN
    ensures All(FitsEntry, Entries(v.chunks))
    ensures Front(v)[HEADER_LEN..] == Metadata(v)
  {
    hide PutHeader, PutManifest, Index;
    EntriesFit(v.chunks);
    PayloadFollowsIndex(|v.chunks|);
    HeaderLength(HeaderOf(v), Metadata(v));
    ManifestLength(Manifest(v.kind, v.id, v.base), []);
    IndexReadBack(Entries(v.chunks));
    HeaderLength(HeaderOf(v), []);
  }

  lemma EntriesFit(chunks: seq<ChunkView>)
    requires Addressable(chunks)
    ensures All(FitsEntry, Entries(chunks))
  {
    forall i | 0 <= i < |chunks|
      ensures FitsEntry(Entries(chunks)[i])
    {
      if chunks[i].stored.Some? {
        assert End(chunks, i + 1) == Start(chunks, i) + |chunks[i].stored.value|;
      }
    }
  }

  /******* CapsuleView::read *******/

  /** The chunk of entry `e`, and where stored bytes end after it, given that they end at `pos` before it. */
  function ReadChunk(h: HashFn, kind: CapsuleKind, bytes: Bytes, e: Entry, pos: nat): Result<(ChunkView, nat), CapsuleError> {
    if e.flags > 1 then Err(InvalidChunkFlags(e.flags))
    else if e.flags == 1 then
      if e.offset != 0 then Err(InvalidIndex)
      else if kind == Full then Err(ExternalChunkInFullCapsule)
      else Ok((ChunkView(e.kind, e.logicalLen, e.hash, None), pos))
    else if e.offset != AlignUp(pos) then Err(NonCanonicalLayout)
    else
      var end := e.offset + e.logicalLen;
      if end > U64_MAX then Err(TooLarge)
      else if end > |bytes| then Err(Truncated)
      else if end + 7 > U64_MAX then Err(TooLarge)
      else if h(bytes[e.offset..end]) != e.hash then Err(ChunkIntegrityMismatch(e.kind))
      else Ok((ChunkView(e.kind, e.logicalLen, e.hash, Some(bytes[e.offset..end])), end))
  }

  /** The chunks of the entries from place `|done|` on. */
  function ReadChunks(h: HashFn, kind: CapsuleKind, bytes: Bytes, entries: seq<Entry>, done: seq<ChunkView>, pos: nat)
    : Result<(seq<ChunkView>, nat), CapsuleError>
    requires |done| <= |entries|
    decreases |entries| - |done|
  {
    if |done| == |entries| then Ok((done, pos))
    else
      var (c, pos') :- ReadChunk(h, kind, bytes, entries[|done|], pos);
      ReadChunks(h, kind, bytes, entries, done + [c], pos')
  }

  function Read(h: HashFn, bytes: Bytes): Result<View, CapsuleError> {
    var (header, _) :- GetHeader(bytes);
    if !CURRENT.CanRead(header.contract) then Err(UnsupportedContract(header.contract))
    else
      var indexLen := header.chunkCount * ENTRY_LEN;
      var payloadOffset := AlignUp(INDEX_OFFSET + indexLen);
      if header.manifestOffset != HEADER_LEN || header.manifestLen != MANIFEST_LEN || header.indexOffset != INDEX_OFFSET
         || header.indexLen != indexLen || header.payloadOffset != payloadOffset
      then Err(NonCanonicalLayout)
      else if |bytes| < INDEX_OFFSET + indexLen then Err(Truncated)
      else
        var manifestBytes, indexBytes := bytes[HEADER_LEN..INDEX_OFFSET], bytes[INDEX_OFFSET..INDEX_OFFSET + indexLen];
        if h(manifestBytes + indexBytes) != header.root then Err(MetadataIntegrityMismatch)
        else
          var (m, _) :- GetManifest(manifestBytes);
          assert GetMany(GetEntry, header.chunkCount, indexBytes).Ok? ==> |GetMany(GetEntry, header.chunkCount, indexBytes).value.0| == header.chunkCount by {
            if GetMany(GetEntry, header.chunkCount, indexBytes).Ok? {
              IndexReadOnly(header.chunkCount, indexBytes);
            }
          }
          var (entries, _) :- GetMany(GetEntry, header.chunkCount, indexBytes);
          var (chunks, end) :- ReadChunks(h, m.kind, bytes, entries, [], payloadOffset);
          if |bytes| != end then Err(NonCanonicalLayout)
          else Ok(View(header.contract, m.kind, m.id, m.base, header.root, chunks))
  }

  /******* Accepted means laid out *******/

  /** Entry `i` is that of chunk `i`, which is stored in its place and genuine. */
  ghost predicate Agrees(h: HashFn, kind: CapsuleKind, bytes: Bytes, entries: seq<Entry>, chunks: seq<ChunkView>, i: nat)
    requires i < |chunks| && |chunks| == |entries|
  {
    && entries[i] == EntryOf(chunks, i) && InPlace(bytes, chunks, i) && Genuine(h, chunks[i])
    && (kind == Full ==> chunks[i].stored.Some?)
    && (chunks[i].stored.Some? ==> End(chunks, i + 1) + 7 <= U64_MAX)
  }

  /** One entry is read as chunk `i` exactly when the two agree. */
  lemma ChunkReadBack(h: HashFn, kind: CapsuleKind, bytes: Bytes, entries: seq<Entry>, chunks: seq<ChunkView>, i: nat)
    requires i < |chunks| && |chunks| == |entries|
    ensures Agrees(h, kind, bytes, entries, chunks, i)
            <==> ReadChunk(h, kind, bytes, entries[i], End(chunks, i)) == Ok((chunks[i], End(chunks, i + 1)))
  {
    hide AlignUp;
  }

  lemma ChunkEnd(h: HashFn, kind: CapsuleKind, bytes: Bytes, e: Entry, chunks: seq<ChunkView>, i: nat, pos': nat)
    requires i < |chunks| && ReadChunk(h, kind, bytes, e, End(chunks, i)) == Ok((chunks[i], pos'))
    ensures pos' == End(chunks, i + 1)
  {
    hide AlignUp;
  }

  lemma {:induction false} ReadChunksKeepsDone(h: HashFn, kind: CapsuleKind, bytes: Bytes, entries: seq<Entry>, done: seq<ChunkView>, pos: nat)
    requires |done| <= |entries| && ReadChunks(h, kind, bytes, entries, done, pos).Ok?
    ensures var chunks := ReadChunks(h, kind, bytes, entries, done, pos).value.0;
            |chunks| == |entries| && chunks[..|done|] == done
    decreases |entries| - |done|
  {
    hide ReadChunk;
    if |done| == |entries| {
      TakeAll(done);
    } else {
      var (c, pos') := ReadChunk(h, kind, bytes, entries[|done|], pos).value;
      ReadChunksKeepsDone(h, kind, bytes, entries, done + [c], pos');
      Extends(ReadChunks(h, kind, bytes, entries, done, pos).value.0, done, c);
    }
  }

  lemma {:induction false} ReadChunksReadOnly(h: HashFn, kind: CapsuleKind, bytes: Bytes, entries: seq<Entry>, done: seq<ChunkView>, chunks: seq<ChunkView>, end: nat)
    requires |done| <= |entries| == |chunks| && chunks[..|done|] == done
    requires ReadChunks(h, kind, bytes, entries, done, End(chunks, |done|)) == Ok((chunks, end))
    ensures end == FileLen(chunks)
    ensures forall i :: |done| <= i < |chunks| ==> Agrees(h, kind, bytes, entries, chunks, i)
    decreases |entries| - |done|
  {
    hide ReadChunk, End, Agrees;
    if |done| < |entries| {
      var n := |done|;
      var (c, pos') := ReadChunk(h, kind, bytes, entries[n], End(chunks, n)).value;
      ReadChunksKeepsDone(h, kind, bytes, entries, done + [c], pos');
      Extends(chunks, done, c);
      ChunkEnd(h, kind, bytes, entries[n], chunks, n, pos');
      ChunkReadBack(h, kind, bytes, entries, chunks, n);
      ReadChunksReadOnly(h, kind, bytes, entries, done + [c], chunks, end);
    }
  }

  lemma {:induction false} ReadChunksReadBack(h: HashFn, kind: CapsuleKind, bytes: Bytes, entries: seq<Entry>, chunks: seq<ChunkView>, n: nat)
    requires n <= |chunks| == |entries|
    requires forall i :: n <= i < |chunks| ==> Agrees(h, kind, bytes, entries, chunks, i)
    ensures ReadChunks(h, kind, bytes, entries, chunks[..n], End(chunks, n)) == Ok((chunks, FileLen(chunks)))
    decreases |chunks| - n
  {
    hide ReadChunk, End, Agrees;
    if n == |chunks| {
      TakeAll(chunks);
    } else {
      ChunkReadBack(h, kind, bytes, entries, chunks, n);
      TakeOneMore(chunks, n);
      ReadChunksReadBack(h, kind, bytes, entries, chunks, n + 1);
    }
  }

  /******* The main theorem *******/

  lemma FrontSlices(bytes: Bytes, v: View)
    requires |v.chunks| <= U32_MAX && Addressable(v.chunks)
    requires PayloadOffset(|v.chunks|) <= |bytes| && bytes[..PayloadOffset(|v.chunks|)] == Front(v)
    ensures GetHeader(bytes) == Ok((HeaderOf(v), bytes[HEADER_LEN..]))
    ensures bytes[HEADER_LEN..INDEX_OFFSET] == ManifestBytes(v)
    ensures bytes[INDEX_OFFSET..PayloadOffset(|v.chunks|)] == Index(Entries(v.chunks))
  {
    hide PutHeader, GetHeader, Index, PutManifest, PayloadOffset;
    PayloadFollowsIndex(|v.chunks|);
    FrontLength(v);
    var p := PayloadOffset(|v.chunks|);
    var h := PutHeader(HeaderOf(v), []);
    HeaderLength(HeaderOf(v), Metadata(v));
    HeaderLength(HeaderOf(v), bytes[HEADER_LEN..]);
    HeaderLength(HeaderOf(v), []);
    assert bytes[..HEADER_LEN] == bytes[..p][..HEADER_LEN] == h;
    assert bytes == h + bytes[HEADER_LEN..];
    HeaderReadBack(HeaderOf(v), bytes[HEADER_LEN..]);
    assert bytes[HEADER_LEN..p] == bytes[..p][HEADER_LEN..] == Metadata(v);
    assert bytes[HEADER_LEN..INDEX_OFFSET] == bytes[HEADER_LEN..p][..MANIFEST_LEN];
    assert bytes[INDEX_OFFSET..p] == bytes[HEADER_LEN..p][MANIFEST_LEN..];
  }

  lemma LaidIsRead(h: HashFn, bytes: Bytes, v: View)
    requires Consistent(h, v) && Laid(bytes, v)
    ensures Read(h, bytes) == Ok(v)
  {
    hide GetHeader, Index, PutManifest, GetManifest, PayloadOffset, GetMany, ReadChunks, Front;
    PayloadFollowsIndex(|v.chunks|);
    Aligned(INDEX_OFFSET + |v.chunks| * ENTRY_LEN);
    FrontSlices(bytes, v);
    FrontLength(v);
    ManifestReadBack(Manifest(v.kind, v.id, v.base), []);
    var entries := Entries(v.chunks);
    IndexReadBack(entries);
    assert v.chunks[..0] == [];
    ReadChunksReadBack(h, v.kind, bytes, entries, v.chunks, 0);
  }

  /** `v` is what the header, the manifest and the entries of the index say. */
  ghost predicate FrontRead(h: HashFn, bytes: Bytes, v: View, entries: seq<Entry>) {
    && |v.chunks| <= U32_MAX && CURRENT.CanRead(v.contract)
    && INDEX_OFFSET + |v.chunks| * ENTRY_LEN <= |bytes|
    && bytes == PutHeader(HeaderOf(v), bytes[HEADER_LEN..])
    && var manifestBytes, indexBytes := bytes[HEADER_LEN..INDEX_OFFSET], bytes[INDEX_OFFSET..INDEX_OFFSET + |v.chunks| * ENTRY_LEN];
    && v.root == h(manifestBytes + indexBytes)
    && GetManifest(manifestBytes).Ok? && GetManifest(manifestBytes).value.0 == Manifest(v.kind, v.id, v.base)
    && GetMany(GetEntry, |v.chunks|, indexBytes).Ok?
    && entries == GetMany(GetEntry, |v.chunks|, indexBytes).value.0
    && |entries| == |v.chunks|
    && ReadChunks(h, v.kind, bytes, entries, [], PayloadOffset(|v.chunks|)) == Ok((v.chunks, |bytes|))
  }

  lemma ReadSteps(h: HashFn, bytes: Bytes) returns (entries: seq<Entry>)
    requires Read(h, bytes).Ok?
    ensures FrontRead(h, bytes, Read(h, bytes).value, entries)
  {
    hide PutHeader, GetHeader, GetManifest, GetMany, ReadChunks, AlignUp;
    HeaderReadOnly(bytes);
    var (f, t) := GetHeader(bytes).value;
    HeaderLength(f, t);
    HeaderLength(f, []);
    assert t == bytes[HEADER_LEN..];
    PayloadFollowsIndex(f.chunkCount);
    var indexBytes := bytes[INDEX_OFFSET..INDEX_OFFSET + f.chunkCount * ENTRY_LEN];
    IndexReadOnly(f.chunkCount, indexBytes);
    entries := GetMany(GetEntry, f.chunkCount, indexBytes).value.0;
    ReadChunksKeepsDone(h, GetManifest(bytes[HEADER_LEN..INDEX_OFFSET]).value.0.kind, bytes, entries, [], PayloadOffset(f.chunkCount));
  }

  lemma ReadIsLaid(h: HashFn, bytes: Bytes)
    requires Read(h, bytes).Ok?
    ensures var v := Read(h, bytes).value;
            Consistent(h, v) && Laid(bytes, v)
  {
    hide PutHeader, GetHeader, GetManifest, PutManifest, GetMany, Index, ReadChunks, AlignUp, Read, End;
    var v := Read(h, bytes).value;
    var n := |v.chunks|;
    var entries := ReadSteps(h, bytes);
    var manifestBytes, indexBytes := bytes[HEADER_LEN..INDEX_OFFSET], bytes[INDEX_OFFSET..INDEX_OFFSET + n * ENTRY_LEN];
    ManifestReadOnly(manifestBytes);
    ManifestLength(Manifest(v.kind, v.id, v.base), GetManifest(manifestBytes).value.1);
    assert manifestBytes == ManifestBytes(v);
    IndexReadOnly(n, indexBytes);
    assert End(v.chunks, 0) == PayloadOffset(n) by { EndOfNothing(v.chunks); }
    ReadChunksReadOnly(h, v.kind, bytes, entries, [], v.chunks, |bytes|);
    forall i | 0 <= i < n
      ensures entries[i] == Entries(v.chunks)[i] && InPlace(bytes, v.chunks, i) && Genuine(h, v.chunks[i])
      ensures v.kind == Full ==> v.chunks[i].stored.Some?
      ensures v.chunks[i].stored.Some? ==> End(v.chunks, i + 1) + 7 <= U64_MAX
    {
      assert Agrees(h, v.kind, bytes, entries, v.chunks, i);
    }
    assert entries == Entries(v.chunks);
    FrontIsPrefix(bytes, v);
  }

  lemma EndOfNothing(chunks: seq<ChunkView>)
    ensures End(chunks, 0) == PayloadOffset(|chunks|)
  {
  }

  lemma FrontIsPrefix(bytes: Bytes, v: View)
    requires |v.chunks| <= U32_MAX && INDEX_OFFSET + |v.chunks| * ENTRY_LEN <= |bytes|
    requires bytes == PutHeader(HeaderOf(v), bytes[HEADER_LEN..])
    requires bytes[HEADER_LEN..INDEX_OFFSET] == ManifestBytes(v)
    requires bytes[INDEX_OFFSET..INDEX_OFFSET + |v.chunks| * ENTRY_LEN] == Index(Entries(v.chunks))
    ensures PayloadOffset(|v.chunks|) <= |bytes| && bytes[..PayloadOffset(|v.chunks|)] == Front(v)
  {
    hide PutHeader, Index, ManifestBytes, PayloadOffset;
    PayloadFollowsIndex(|v.chunks|);
    var p := PayloadOffset(|v.chunks|);
    HeaderLength(HeaderOf(v), bytes[HEADER_LEN..]);
    HeaderLength(HeaderOf(v), Metadata(v));
    HeaderLength(HeaderOf(v), []);
    assert Metadata(v) == bytes[HEADER_LEN..p];
    assert bytes[..p] == bytes[..HEADER_LEN] + bytes[HEADER_LEN..p];
  }

  /**
   A reader shows the view `v` of exactly those files that hold `v` and that no one could
   tell from genuine ones: all metadata in place, all hashes right.
   */
  lemma ReadExactly(h: HashFn, bytes: Bytes, v: View)
    ensures Read(h, bytes) == Ok(v) <==> Consistent(h, v) && Laid(bytes, v)
  {
    if Read(h, bytes) == Ok(v) {
      ReadIsLaid(h, bytes);
    } else if Consistent(h, v) && Laid(bytes, v) {
      LaidIsRead(h, bytes, v);
      assert false;
    }
  }

  /** Two accepted files with the same view differ at most in gaps. */
  lemma LayoutIsForced(h: HashFn, a: Bytes, b: Bytes, place: nat)
    requires Read(h, a).Ok? && Read(h, a) == Read(h, b)
    ensures |a| == |b|
    ensures place < |a| && !InGap(Read(h, a).value.chunks, place) ==> a[place] == b[place]
  {
    hide Read, Front, End, PayloadOffset, Metadata, Genuine;
    var v := Read(h, a).value;
    ReadExactly(h, a, v);
    ReadExactly(h, b, v);
    if place < |a| && !InGap(v.chunks, place) {
      SameOutsideGaps(a, b, v, place);
    }
  }

  lemma SameOutsideGaps(a: Bytes, b: Bytes, v: View, place: nat)
    requires |v.chunks| <= U32_MAX && Laid(a, v) && Laid(b, v)
    requires place < |a| && !InGap(v.chunks, place)
    ensures a[place] == b[place]
  {
    hide Front, AlignUp, PayloadOffset;
    var p := PayloadOffset(|v.chunks|);
    if place < p {
      assert a[place] == a[..p][place] && b[place] == b[..p][place];
    } else {
      var i := PayloadIsCovered(v.chunks, |v.chunks|, place);
      assert place >= Start(v.chunks, i);
      var s := Start(v.chunks, i);
      assert InPlace(a, v.chunks, i) && InPlace(b, v.chunks, i);
      assert a[place] == v.chunks[i].stored.value[place - s] == b[place];
    }
  }

  /** What a gap holds makes no difference. */
  lemma GapsAreFree(h: HashFn, a: Bytes, b: Bytes)
    requires Read(h, a).Ok? && |a| == |b|
    requires forall place :: 0 <= place < |a| && !InGap(Read(h, a).value.chunks, place) ==> a[place] == b[place]
    ensures Read(h, b) == Read(h, a)
  {
    hide Read, Consistent, Front, AlignUp, PayloadOffset;
    var v := Read(h, a).value;
    ReadExactly(h, a, v);
    var p := PayloadOffset(|v.chunks|);
    forall i | 0 <= i < |v.chunks|
      ensures InPlace(b, v.chunks, i)
    {
      assert InPlace(a, v.chunks, i);
      if v.chunks[i].stored.Some? {
        var s, e := Start(v.chunks, i), Start(v.chunks, i) + |v.chunks[i].stored.value|;
        forall k | s <= k < e
          ensures a[k] == b[k]
        {
          if InGap(v.chunks, k) {
            GapIsOutside(v.chunks, k, i);
          }
        }
        assert a[s..e] == b[s..e];
      }
    }
    forall k | 0 <= k < p
      ensures a[k] == b[k]
    {
      if InGap(v.chunks, k) {
        GapIsInPayload(v.chunks, k);
      }
    }
    assert a[..p] == b[..p];
    ReadExactly(h, b, v);
  }

  lemma GapIsInPayload(chunks: seq<ChunkView>, place: nat)
    requires InGap(chunks, place)
    ensures PayloadOffset(|chunks|) <= place
  {
    var g :| 0 <= g < |chunks| && chunks[g].stored.Some? && End(chunks, g) <= place < Start(chunks, g);
    EndsAscend(chunks, 0, g);
  }

  /******* Two files with one view *******/

  /** A full capsule of two chunks of one byte each; seven bytes of gap lie between them. */
  function GappedChunks(h: HashFn): seq<ChunkView> {
    [ChunkView(GRAPH, 1, h([0]), Some([0])), ChunkView(TENSORS, 1, h([0]), Some([0]))]
  }

  function GappedView(h: HashFn): View {
    var v := View(CURRENT, Full, Zeros(16), None, Zeros(32), GappedChunks(h));
    v.(root := h(Metadata(v)))
  }

  /** The file of that view with the byte `x` in its gap. */
  function GappedFile(h: HashFn, x: byte): Bytes {
    Front(GappedView(h)) + [0] + [x] + Zeros(6) + [0]
  }

  lemma GappedPlaces(h: HashFn)
    ensures var cs := GappedChunks(h);
            && PayloadOffset(2) == 280 && End(cs, 1) == 281 && Start(cs, 0) == 280 && Start(cs, 1) == 288 && FileLen(cs) == 289
  {
  }

  lemma GappedViewIsConsistent(h: HashFn)
    ensures Consistent(h, GappedView(h))
  {
    hide PutManifest, Index, Start, AlignUp, Entries;
    GappedPlaces(h);
    var v := GappedView(h);
    assert Metadata(v) == Metadata(v.(root := Zeros(32)));
  }

  lemma ConsistentIsAddressable(h: HashFn, v: View)
    requires Consistent(h, v)
    ensures |v.chunks| <= U32_MAX && Addressable(v.chunks)
  {
    hide Metadata, Genuine, Addressable;
  }

  /** Every byte makes an accepted file, and all of them are shown the same. */
  lemma GapByteIsNotSeen(h: HashFn, x: byte)
    ensures |GappedFile(h, x)| == 289 && GappedFile(h, x)[281] == x
    ensures Read(h, GappedFile(h, x)) == Ok(GappedView(h))
  {
    hide Read, Front, Consistent, Start, AlignUp, PayloadOffset, End, Metadata, Entries;
    var v := GappedView(h);
    GappedViewIsConsistent(h);
    GappedPlaces(h);
    ConsistentIsAddressable(h, v);
    FrontLength(v);
    var f := GappedFile(h, x);
    assert f[..280] == Front(v);
    forall i | 0 <= i < 2
      ensures InPlace(f, v.chunks, i)
    {
      assert i == 0 || i == 1;
    }
    ReadExactly(h, f, v);
  }
}
