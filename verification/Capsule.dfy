/**
 The parts of an NCC97 capsule file: its contract versions, header, manifest and index entries,
 each with the functions that write and read it, and what a reader sees of a whole file.
 */
module Capsule {
  import opened Wrappers
  import opened Bytes

  const MAGIC: Bytes := [0x4E, 0x43, 0x43, 0x39, 0x37, 0x00]
  const HEADER_LEN := 112
  const MANIFEST_LEN := 56
  const ENTRY_LEN := 56
  const INDEX_OFFSET := HEADER_LEN + MANIFEST_LEN
  const ALIGNMENT := 8

  function Zeros(n: nat): (z: Bytes)
    ensures |z| == n
  {
    seq(n, _ => 0)
  }

  type Digest = b: Bytes | |b| == 32 witness Zeros(32)
  type CapsuleId = b: Bytes | |b| == 16 witness Zeros(16)

  /** SHA-256, of which the container needs only that it is a function. */
  type HashFn = Bytes -> Digest

  datatype CapsuleKind = Full | Thin | State

  // The discriminants of the section kinds.
  type SectionKind = x: u16 | 1 <= x <= 17 witness 1

  const GRAPH: SectionKind := 1
  const TENSORS: SectionKind := 2
  const TOKENIZER: SectionKind := 3
  const GENERATIVE_MANIFEST: SectionKind := 17

  datatype Version = Version(major: u16, minor: u16) {
    predicate CanRead(other: Version) {
      major == other.major && other.minor <= minor
    }
  }

  datatype Contract = Contract(capsule: Version, ir: Version) {
    predicate CanRead(other: Contract) {
      capsule.CanRead(other.capsule) && ir.CanRead(other.ir)
    }
  }

  const CURRENT := Contract(Version(0, 2), Version(0, 4))

  datatype CapsuleError =
    | Truncated
    | InvalidMagic
    | InvalidHeader
    | InvalidManifest
    | InvalidIndex
    | InvalidCapsuleKind(raw: u8)
    | InvalidSectionKind(code: u16)
    | InvalidChunkFlags(flags: u16)
    | UnsupportedContract(contract: Contract)
    | MetadataIntegrityMismatch
    | ChunkIntegrityMismatch(kind: SectionKind)
    | ExternalChunkInFullCapsule
    | NonCanonicalLayout
    | TooLarge

  /** A chunk as a reader shows it; `stored` is None for an external chunk. */
  datatype ChunkView = ChunkView(kind: SectionKind, logicalLen: u64, hash: Digest, stored: Option<Bytes>)

  datatype View = View(contract: Contract, kind: CapsuleKind, id: CapsuleId, base: Option<Digest>, root: Digest, chunks: seq<ChunkView>)

  /******* Header *******/

  datatype Header = Header(
    contract: Contract,
    manifestOffset: u64,
    manifestLen: u64,
    indexOffset: u64,
    indexLen: u64,
    payloadOffset: u64,
    chunkCount: u32,
    root: Digest
  )

  function PutContract(c: Contract, t: Bytes): Bytes {
    PutU16(c.capsule.major, PutU16(c.capsule.minor, PutU16(c.ir.major, PutU16(c.ir.minor, t))))
  }

  function GetContract(s: Bytes): (r: Result<(Contract, Bytes), CapsuleError>)
    ensures r.Ok? ==> s == PutContract(r.value.0, r.value.1)
    ensures forall c, t {:trigger PutContract(c, t)} :: s == PutContract(c, t) ==> r == Ok((c, t))
  {
    var (a, s1) :- GetU16(s, Truncated);
    var (b, s2) :- GetU16(s1, Truncated);
    var (c, s3) :- GetU16(s2, Truncated);
    var (d, s4) :- GetU16(s3, Truncated);
    Ok((Contract(Version(a, b), Version(c, d)), s4))
  }

  function PutOffsets(f: Header, t: Bytes): Bytes {
    PutU64(f.manifestOffset, PutU64(f.manifestLen, PutU64(f.indexOffset, PutU64(f.indexLen, PutU64(f.payloadOffset, t)))))
  }

  function PutHeader(f: Header, t: Bytes): Bytes {
    PutRaw(MAGIC, PutU16(HEADER_LEN, PutContract(f.contract, PutU32(0, PutOffsets(f,
      PutU32(f.chunkCount, PutU32(0, PutRaw(f.root, PutRaw(Zeros(12), t)))))))))
  }

  function GetHeaderTail(s: Bytes): Result<(u32, Digest, Bytes), CapsuleError> {
    var (chunkCount, s1) :- GetU32(s, Truncated);
    var (reserved, s2) :- GetU32(s1, Truncated);
    var (root, s3) :- GetRaw(32, s2, Truncated);
    var (padding, s4) :- GetRaw(12, s3, Truncated);
    if reserved != 0 || padding != Zeros(12) then Err(InvalidHeader)
    else Ok((chunkCount, root, s4))
  }

  function GetHeader(s: Bytes): Result<(Header, Bytes), CapsuleError> {
    if |s| < HEADER_LEN then Err(Truncated)
    else
      var (magic, s1) :- GetRaw(6, s, Truncated);
      if magic != MAGIC then Err(InvalidMagic)
      else
        var (headerLen, s2) :- GetU16(s1, Truncated);
        if headerLen != HEADER_LEN then Err(InvalidHeader)
        else
          var (contract, s3) :- GetContract(s2);
          var (flags, s4) :- GetU32(s3, Truncated);
          if flags != 0 then Err(InvalidHeader)
          else
            var (manifestOffset, s5) :- GetU64(s4, Truncated);
            var (manifestLen, s6) :- GetU64(s5, Truncated);
            var (indexOffset, s7) :- GetU64(s6, Truncated);
            var (indexLen, s8) :- GetU64(s7, Truncated);
            var (payloadOffset, s9) :- GetU64(s8, Truncated);
            var (chunkCount, root, s10) :- GetHeaderTail(s9);
            Ok((Header(contract, manifestOffset, manifestLen, indexOffset, indexLen, payloadOffset, chunkCount, root), s10))
  }

  lemma HeaderLength(f: Header, t: Bytes)
    ensures |PutHeader(f, t)| == HEADER_LEN + |t|
    ensures PutHeader(f, t) == PutHeader(f, []) + t
  {
    hide Le;
    var h := PutHeader(f, []);
    assert |h| == HEADER_LEN;
    PutIsPrefix(f, t);
  }

  lemma PutIsPrefix(f: Header, t: Bytes)
    ensures PutHeader(f, t) == PutHeader(f, []) + t
  {
    hide Le, PutContract, PutOffsets;
    var tail := PutU32(f.chunkCount, PutU32(0, PutRaw(f.root, PutRaw(Zeros(12), []))));
    assert PutU32(f.chunkCount, PutU32(0, PutRaw(f.root, PutRaw(Zeros(12), t)))) == tail + t;
    OffsetsPrefix(f, tail, t);
    ContractPrefix(f.contract, PutU32(0, PutOffsets(f, tail)), t);
    assert PutU32(0, PutOffsets(f, tail + t)) == PutU32(0, PutOffsets(f, tail)) + t;
  }

  lemma OffsetsPrefix(f: Header, a: Bytes, t: Bytes)
    ensures PutOffsets(f, a + t) == PutOffsets(f, a) + t
  {
    hide Le;
  }

  lemma ContractPrefix(c: Contract, a: Bytes, t: Bytes)
    ensures PutContract(c, a + t) == PutContract(c, a) + t
  {
    hide Le;
  }

  lemma HeaderReadBack(f: Header, t: Bytes)
    ensures GetHeader(PutHeader(f, t)) == Ok((f, t))
  {
    HeaderLength(f, t);
    hide PutU16, GetU16, PutU32, GetU32, PutU64, GetU64, PutRaw, GetRaw, PutContract, GetContract;
  }

  lemma HeaderReadOnly(s: Bytes)
    requires GetHeader(s).Ok?
    ensures s == PutHeader(GetHeader(s).value.0, GetHeader(s).value.1)
  {
    hide PutU16, GetU16, PutU32, GetU32, PutU64, GetU64, PutRaw, GetRaw, PutContract, GetContract;
  }

  /******* Manifest *******/

  datatype Manifest = Manifest(kind: CapsuleKind, id: CapsuleId, base: Option<Digest>)

  function KindTag(k: CapsuleKind): u8 {
    match k
    case Full => 1
    case Thin => 2
    case State => 3
  }

  function PutManifest(m: Manifest, t: Bytes): Bytes {
    PutU8(KindTag(m.kind), PutU8(if m.base.Some? then 1 else 0,
      PutRaw(Zeros(6), PutRaw(m.id, PutRaw(if m.base.Some? then m.base.value else Zeros(32), t)))))
  }

  function GetKind(s: Bytes): (r: Result<(CapsuleKind, Bytes), CapsuleError>)
    ensures r.Ok? ==> s == PutU8(KindTag(r.value.0), r.value.1)
    ensures forall k, t {:trigger PutU8(KindTag(k), t)} :: s == PutU8(KindTag(k), t) ==> r == Ok((k, t))
  {
    var (raw, s1) :- GetU8(s, Truncated);
    if raw == 1 then Ok((Full, s1))
    else if raw == 2 then Ok((Thin, s1))
    else if raw == 3 then Ok((State, s1))
    else Err(InvalidCapsuleKind(raw))
  }

  function GetManifest(s: Bytes): Result<(Manifest, Bytes), CapsuleError> {
    var (kind, s1) :- GetKind(s);
    var (flags, s2) :- GetU8(s1, Truncated);
    var (padding, s3) :- GetRaw(6, s2, Truncated);
    if flags > 1 || padding != Zeros(6) then Err(InvalidManifest)
    else
      var (id, s4) :- GetRaw(16, s3, Truncated);
      var (root, s5) :- GetRaw(32, s4, Truncated);
      if flags == 1 then Ok((Manifest(kind, id, Some(root)), s5))
      else if root != Zeros(32) then Err(InvalidManifest)
      else Ok((Manifest(kind, id, None), s5))
  }

  lemma ManifestLength(m: Manifest, t: Bytes)
    ensures |PutManifest(m, t)| == MANIFEST_LEN + |t|
  {
    hide Le;
  }

  lemma ManifestReadBack(m: Manifest, t: Bytes)
    ensures GetManifest(PutManifest(m, t)) == Ok((m, t))
  {
    hide PutU8, GetU8, PutRaw, GetRaw, GetKind;
  }

  lemma ManifestReadOnly(s: Bytes)
    requires GetManifest(s).Ok?
    ensures s == PutManifest(GetManifest(s).value.0, GetManifest(s).value.1)
  {
    hide PutU8, GetU8, PutRaw, GetRaw, GetKind;
  }

  /******* Index *******/

  datatype Entry = Entry(kind: SectionKind, flags: u16, logicalLen: u64, offset: nat, hash: Digest)

  predicate FitsEntry(e: Entry) {
    e.offset <= U64_MAX
  }

  function PutEntry(e: Entry, t: Bytes): Bytes {
    PutU16(e.kind, PutU16(e.flags, PutU32(0, PutU64(e.logicalLen, PutU64(e.offset, PutRaw(e.hash, t))))))
  }

  function GetEntry(s: Bytes): Result<(Entry, Bytes), CapsuleError> {
    var (kind, s1) :- GetU16(s, Truncated);
    if !(1 <= kind <= 17) then Err(InvalidSectionKind(kind))
    else
      var (flags, s2) :- GetU16(s1, Truncated);
      var (reserved, s3) :- GetU32(s2, Truncated);
      if reserved != 0 then Err(InvalidIndex)
      else
        var (logicalLen, s4) :- GetU64(s3, Truncated);
        var (offset, s5) :- GetU64(s4, Truncated);
        var (hash, s6) :- GetRaw(32, s5, Truncated);
        Ok((Entry(kind, flags, logicalLen, offset, hash), s6))
  }

  lemma EntryCodec()
    ensures ReadsBack(GetEntry, PutEntry, FitsEntry) && ReadsOnly(GetEntry, PutEntry, FitsEntry)
  {
    hide PutU16, GetU16, PutU32, GetU32, PutU64, GetU64, PutRaw, GetRaw;
  }

  lemma EntryLength(e: Entry, t: Bytes)
    ensures |PutEntry(e, t)| == ENTRY_LEN + |t|
  {
    hide Le;
  }

  function Index(entries: seq<Entry>): Bytes {
    PutMany(PutEntry, entries, [])
  }

  lemma {:induction false} IndexLengthFrom(entries: seq<Entry>, i: nat, t: Bytes)
    requires i <= |entries|
    ensures |PutFrom(PutEntry, entries, i, t)| == (|entries| - i) * ENTRY_LEN + |t|
    decreases |entries| - i
  {
    hide PutEntry;
    if i < |entries| {
      EntryLength(entries[i], PutFrom(PutEntry, entries, i + 1, t));
      IndexLengthFrom(entries, i + 1, t);
    }
  }

  lemma IndexReadBack(entries: seq<Entry>)
    requires All(FitsEntry, entries)
    ensures GetMany(GetEntry, |entries|, Index(entries)) == Ok((entries, []))
    ensures |Index(entries)| == |entries| * ENTRY_LEN
  {
    hide PutEntry, GetEntry, GetMany;
    EntryCodec();
    ManyReadBack(GetEntry, PutEntry, FitsEntry, entries, []);
    IndexLengthFrom(entries, 0, []);
  }

  lemma IndexReadOnly(n: nat, s: Bytes)
    requires |s| == n * ENTRY_LEN && GetMany(GetEntry, n, s).Ok?
    ensures var entries := GetMany(GetEntry, n, s).value.0;
            |entries| == n && All(FitsEntry, entries) && s == Index(entries)
  {
    hide PutEntry, GetEntry, GetMany;
    EntryCodec();
    ManyReadOnly(GetEntry, PutEntry, FitsEntry, n, s);
    var (entries, t) := GetMany(GetEntry, n, s).value;
    IndexLengthFrom(entries, 0, t);
  }
}
