/** The two formats of a portable backup: the plain manifest, and the file around it and the objects. */
module BackupFormat {
  import opened Wrappers
  import opened Bytes
  import opened Capsule
  import opened CapsuleLayout
  import opened Trimming
  import opened ObjectStore

  const BACKUP_MAGIC: Bytes := [0x50, 0x53, 0x42, 0x39, 0x37, 0x00]
  const MANIFEST_MAGIC: Bytes := [0x50, 0x53, 0x4D, 0x39, 0x37, 0x00]
  const BACKUP_MAJOR := 0
  const BACKUP_MINOR := 1

  datatype BackupKind = FullBackup | ThinBackup | StateBackup

  type BackupId = b: Bytes | |b| == 16 witness Zeros(16)

  datatype AssetClass = ModelAsset | CapabilityAsset | MemoryAsset | StateAsset

  function ClassTag(c: AssetClass): u8 {
    match c
    case ModelAsset => 1
    case CapabilityAsset => 2
    case MemoryAsset => 3
    case StateAsset => 4
  }

  function KindByte(k: BackupKind): u8 {
    match k
    case FullBackup => 1
    case ThinBackup => 2
    case StateBackup => 3
  }

  datatype Identity = Identity(class_: AssetClass, id: Str, version: u32)

  predicate Before(a: Identity, b: Identity) {
    || ClassTag(a.class_) < ClassTag(b.class_)
    || (a.class_ == b.class_ && (Less(a.id, b.id) || (a.id == b.id && a.version < b.version)))
  }

  lemma BeforeTransitive(a: Identity, b: Identity, c: Identity)
    requires Before(a, b) && Before(b, c)
    ensures Before(a, c)
  {
    hide Less;
    if a.class_ == b.class_ && b.class_ == c.class_ && Less(a.id, b.id) && Less(b.id, c.id) {
      LessTransitive(a.id, b.id, c.id);
    }
  }

  lemma BeforeTotal(a: Identity, b: Identity)
    ensures Before(a, b) || a == b || Before(b, a)
  {
    hide Less;
    LessTotal(a.id, b.id);
  }

  datatype ManifestAsset = ManifestAsset(who: Identity, logicalLen: u64, digest: Digest)

  predicate AscendingAssets(xs: seq<ManifestAsset>) {
    forall i, j :: 0 <= i < j < |xs| ==> Before(xs[i].who, xs[j].who)
  }

  /******* The manifest *******/

  predicate FitsAsset(m: ManifestAsset) {
    |m.who.id| <= U32_MAX && m.who.version != 0 && Trim(m.who.id) != []
  }

  function PutAsset(m: ManifestAsset, t: Bytes): Bytes {
    PutU8(ClassTag(m.who.class_), PutU32(m.who.version, PutBytes(m.who.id, PutU64(m.logicalLen, PutRaw(m.digest, t)))))
  }

  type Reading<T> = Result<(T, Bytes), PortabilityError>

  function GetClass(s: Bytes): (r: Reading<AssetClass>)
    ensures r.Ok? ==> s == PutU8(ClassTag(r.value.0), r.value.1)
    ensures forall c, t {:trigger PutU8(ClassTag(c), t)} :: s == PutU8(ClassTag(c), t) ==> r == Ok((c, t))
  {
    var (tag, s1) :- GetU8(s, InvalidBackup);
    match tag
    case 1 => Ok((ModelAsset, s1))
    case 2 => Ok((CapabilityAsset, s1))
    case 3 => Ok((MemoryAsset, s1))
    case 4 => Ok((StateAsset, s1))
    case _ => Err(InvalidAsset)
  }

  /** One entry; `previous` is the identity it must follow. */
  function GetAsset(previous: Option<Identity>, s: Bytes): (r: Reading<ManifestAsset>)
    ensures r.Ok? ==> FitsAsset(r.value.0) && (previous.Some? ==> Before(previous.value, r.value.0.who)) && s == PutAsset(r.value.0, r.value.1)
    ensures forall m: ManifestAsset, t {:trigger PutAsset(m, t)} ::
              FitsAsset(m) && (previous.Some? ==> Before(previous.value, m.who)) && s == PutAsset(m, t) ==> r == Ok((m, t))
  {
    hide PutU8, PutU32, GetU32, PutU64, GetU64, PutBytes, GetString, PutRaw, GetRaw, GetClass, Trim, Before;
    var (class_, s1) :- GetClass(s);
    var (version, s2) :- GetU32(s1, InvalidBackup);
    var (id, s3) :- GetString(s2, InvalidBackup, InvalidBackup);
    if version == 0 || Trim(id) == [] then Err(InvalidBackup)
    else
      var who := Identity(class_, id, version);
      if previous.Some? && !Before(previous.value, who) then Err(InvalidBackup)
      else
        var (logicalLen, s4) :- GetU64(s3, InvalidBackup);
        var (digest, s5) :- GetRaw(32, s4, InvalidBackup);
        Ok((ManifestAsset(who, logicalLen, digest), s5))
  }

  function Last(xs: seq<ManifestAsset>): Option<Identity> {
    if |xs| == 0 then None else Some(xs[|xs| - 1].who)
  }

  function GetAssets(n: nat, done: seq<ManifestAsset>, s: Bytes): Reading<seq<ManifestAsset>>
    decreases n
  {
    if n == 0 then Ok((done, s))
    else
      var (m, s1) :- GetAsset(Last(done), s);
      GetAssets(n - 1, done + [m], s1)
  }

  lemma AscendingSnoc(done: seq<ManifestAsset>, m: ManifestAsset)
    requires AscendingAssets(done) && (Last(done).Some? ==> Before(Last(done).value, m.who))
    ensures AscendingAssets(done + [m])
  {
    hide Before;
    var longer := done + [m];
    forall i, j | 0 <= i < j < |longer|
      ensures Before(longer[i].who, longer[j].who)
    {
      if j == |done| && i < |done| - 1 {
        BeforeTransitive(done[i].who, done[|done| - 1].who, m.who);
      }
    }
  }

  lemma {:induction false} AssetsReadBack(xs: seq<ManifestAsset>, i: nat, t: Bytes)
    requires AscendingAssets(xs) && All(FitsAsset, xs) && i <= |xs|
    ensures GetAssets(|xs| - i, xs[..i], PutFrom(PutAsset, xs, i, t)) == Ok((xs, t))
    decreases |xs| - i
  {
    hide GetAsset, PutAsset, FitsAsset, Before;
    if i < |xs| {
      TakeOneMore(xs, i);
      AssetsReadBack(xs, i + 1, t);
    } else {
      TakeAll(xs);
    }
  }

  lemma {:induction false} AssetsReadOnly(n: nat, done: seq<ManifestAsset>, s: Bytes)
    requires GetAssets(n, done, s).Ok? && AscendingAssets(done) && All(FitsAsset, done)
    ensures var (xs, t) := GetAssets(n, done, s).value;
            && |xs| == |done| + n && xs[..|done|] == done && AscendingAssets(xs) && All(FitsAsset, xs)
            && s == PutFrom(PutAsset, xs, |done|, t)
    decreases n
  {
    hide GetAsset, PutAsset, FitsAsset, Before;
    if n > 0 {
      var (m, s1) := GetAsset(Last(done), s).value;
      AscendingSnoc(done, m);
      AssetsReadOnly(n - 1, done + [m], s1);
      Extends(GetAssets(n, done, s).value.0, done, m);
    } else {
      TakeAll(done);
    }
  }

  /** Major and minor version, kind, a zero byte and the backup id. */
  function PutTitle(magic: Bytes, minor: u16, kind: BackupKind, id: BackupId, t: Bytes): Bytes {
    PutRaw(magic, PutU16(BACKUP_MAJOR, PutU16(minor, PutU8(KindByte(kind), PutU8(0, PutRaw(id, t))))))
  }

  function GetKindByte(s: Bytes): (r: Reading<BackupKind>)
    ensures r.Ok? ==> s == PutU8(KindByte(r.value.0), r.value.1)
    ensures forall k, t {:trigger PutU8(KindByte(k), t)} :: s == PutU8(KindByte(k), t) ==> r == Ok((k, t))
  {
    var (tag, s1) :- GetU8(s, InvalidBackup);
    match tag
    case 1 => Ok((FullBackup, s1))
    case 2 => Ok((ThinBackup, s1))
    case 3 => Ok((StateBackup, s1))
    case _ => Err(InvalidBackup)
  }

  datatype Title = Title(minor: u16, kind: BackupKind, id: BackupId)

  function GetTitle(magic: Bytes, s: Bytes): (r: Reading<Title>)
    requires |magic| == 6
    ensures r.Ok? ==> r.value.0.minor <= BACKUP_MINOR && s == PutTitle(magic, r.value.0.minor, r.value.0.kind, r.value.0.id, r.value.1)
    ensures forall minor: u16, kind, id, t {:trigger PutTitle(magic, minor, kind, id, t)} ::
              minor <= BACKUP_MINOR && s == PutTitle(magic, minor, kind, id, t) ==> r == Ok((Title(minor, kind, id), t))
  {
    hide PutU8, GetU8, PutU16, GetU16, PutRaw, GetRaw, GetKindByte;
    var (found, s1) :- GetRaw(6, s, InvalidBackup);
    if found != magic then Err(InvalidBackup)
    else
      var (major, s2) :- GetU16(s1, InvalidBackup);
      if major != BACKUP_MAJOR then Err(InvalidBackup)
      else
        var (minor, s3) :- GetU16(s2, InvalidBackup);
        if minor > BACKUP_MINOR then Err(InvalidBackup)
        else
          var (kind, s4) :- GetKindByte(s3);
          var (reserved, s5) :- GetU8(s4, InvalidBackup);
          if reserved != 0 then Err(InvalidBackup)
          else
            var (id, s6) :- GetRaw(16, s5, InvalidBackup);
            Ok((Title(minor, kind, id), s6))
  }

  function ManifestText(kind: BackupKind, id: BackupId, xs: seq<ManifestAsset>): Bytes {
    PutTitle(MANIFEST_MAGIC, BACKUP_MINOR, kind, id, PutU32(|xs|, PutMany(PutAsset, xs, [])))
  }

  function ManifestEntries(s: Bytes, kind: BackupKind, id: BackupId): Result<seq<ManifestAsset>, PortabilityError> {
    var (title, s1) :- GetTitle(MANIFEST_MAGIC, s);
    if title.kind != kind || title.id != id then Err(InvalidBackup) else GetEntries(s1)
  }

  /** The counted entries, at least one, up to the end. */
  function GetEntries(s: Bytes): Result<seq<ManifestAsset>, PortabilityError> {
    var (n, s1) :- GetU32(s, InvalidBackup);
    var (xs, s2) :- GetAssets(n, [], s1);
    if xs == [] || s2 != [] then Err(InvalidBackup) else Ok(xs)
  }

  /** A manifest decodes, for its own kind and id, to the entries it was written from. */
  lemma ManifestTextReadBack(kind: BackupKind, id: BackupId, xs: seq<ManifestAsset>)
    requires 0 < |xs| <= U32_MAX && AscendingAssets(xs) && All(FitsAsset, xs)
    ensures ManifestEntries(ManifestText(kind, id, xs), kind, id) == Ok(xs)
  {
    hide PutTitle, GetTitle, PutU32, GetU32, PutAsset, AscendingAssets, FitsAsset;
    assert xs[..0] == [];
    AssetsReadBack(xs, 0, []);
  }

  /******* The backup file *******/

  datatype PortableBackup = PortableBackup(id: BackupId, kind: BackupKind, nonce: Nonce, manifest: Vec<byte>, objects: Vec<EncryptedObject>)

  predicate AscendingObjects(xs: seq<EncryptedObject>) {
    forall i, j :: 0 <= i < j < |xs| ==> Less(xs[i].digest, xs[j].digest)
  }

  predicate FitsBackup(b: PortableBackup) {
    b.manifest != [] && |b.objects| <= U32_MAX
  }

  function PutObject(o: EncryptedObject, t: Bytes): Bytes {
    PutRaw(o.digest, PutU64(o.logicalLen, PutU64(|o.ciphertext|, PutRaw(o.ciphertext, t))))
  }

  function EncodeAs(minor: u16, b: PortableBackup): Bytes {
    PutTitle(BACKUP_MAGIC, minor, b.kind, b.id, PutBody(b, []))
  }

  function Encode(b: PortableBackup): Bytes {
    EncodeAs(BACKUP_MINOR, b)
  }

  /** One object of an input of `total` bytes; `previous` is the digest it must follow. */
  function GetObject(total: nat, previous: Option<Digest>, s: Bytes): (r: Reading<EncryptedObject>)
    requires total <= ISIZE_MAX
    ensures r.Ok? ==> (previous.Some? ==> Less(previous.value, r.value.0.digest)) && s == PutObject(r.value.0, r.value.1)
    ensures forall o: EncryptedObject, t {:trigger PutObject(o, t)} :: (previous.Some? ==> Less(previous.value, o.digest)) && s == PutObject(o, t) ==> r == Ok((o, t))
  {
    hide PutU64, GetU64, PutRaw, GetRaw, GetLong, Less;
    var (digest, s1) :- GetRaw(32, s, InvalidBackup);
    if previous.Some? && !Less(previous.value, digest) then Err(InvalidBackup)
    else
      var (logicalLen, s2) :- GetU64(s1, InvalidBackup);
      var (cipherLen, s3) :- GetU64(s2, InvalidBackup);
      var (ciphertext, s4) :- GetLong(total, cipherLen, s3, InvalidBackup, Overflow);
      if |ciphertext| > ISIZE_MAX then Err(Overflow)
      else Ok((EncryptedObject(digest, logicalLen, ciphertext), s4))
  }

  function LastDigest(xs: seq<EncryptedObject>): Option<Digest> {
    if |xs| == 0 then None else Some(xs[|xs| - 1].digest)
  }

  function GetObjects(total: nat, n: nat, done: seq<EncryptedObject>, s: Bytes): Reading<seq<EncryptedObject>>
    requires total <= ISIZE_MAX
    decreases n
  {
    if n == 0 then Ok((done, s))
    else
      var (o, s1) :- GetObject(total, LastDigest(done), s);
      GetObjects(total, n - 1, done + [o], s1)
  }

  lemma ObjectsSnoc(done: seq<EncryptedObject>, o: EncryptedObject)
    requires AscendingObjects(done) && (LastDigest(done).Some? ==> Less(LastDigest(done).value, o.digest))
    ensures AscendingObjects(done + [o])
  {
    hide Less;
    var longer := done + [o];
    forall i, j | 0 <= i < j < |longer|
      ensures Less(longer[i].digest, longer[j].digest)
    {
      if j == |done| && i < |done| - 1 {
        LessTransitive(done[i].digest, done[|done| - 1].digest, o.digest);
      }
    }
  }

  lemma {:induction false} ObjectsReadBack(total: nat, xs: seq<EncryptedObject>, i: nat, t: Bytes)
    requires total <= ISIZE_MAX && AscendingObjects(xs) && i <= |xs|
    ensures GetObjects(total, |xs| - i, xs[..i], PutFrom(PutObject, xs, i, t)) == Ok((xs, t))
    decreases |xs| - i
  {
    hide GetObject, PutObject, Less;
    if i < |xs| {
      TakeOneMore(xs, i);
      ObjectsReadBack(total, xs, i + 1, t);
    } else {
      TakeAll(xs);
    }
  }

  lemma {:induction false} ObjectsReadOnly(total: nat, n: nat, done: seq<EncryptedObject>, s: Bytes)
    requires total <= ISIZE_MAX && GetObjects(total, n, done, s).Ok? && AscendingObjects(done)
    ensures var (xs, t) := GetObjects(total, n, done, s).value;
            && |xs| == |done| + n && xs[..|done|] == done && AscendingObjects(xs)
            && s == PutFrom(PutObject, xs, |done|, t)
    decreases n
  {
    hide GetObject, PutObject, Less;
    if n > 0 {
      var (o, s1) := GetObject(total, LastDigest(done), s).value;
      ObjectsSnoc(done, o);
      ObjectsReadOnly(total, n - 1, done + [o], s1);
      Extends(GetObjects(total, n, done, s).value.0, done, o);
    } else {
      TakeAll(done);
    }
  }

  /** Everything before the manifest: title, nonce and the two lengths. */
  datatype Lengths = Lengths(nonce: Nonce, manifest: u64, objects: u32)

  function GetLengths(s: Bytes): (r: Reading<Lengths>)
    ensures r.Ok? ==> var l := r.value.0; s == PutRaw(l.nonce, PutU64(l.manifest, PutU32(l.objects, r.value.1)))
    ensures forall nonce: Nonce, m: u64, n: u32, t {:trigger PutRaw(nonce, PutU64(m, PutU32(n, t)))} ::
              s == PutRaw(nonce, PutU64(m, PutU32(n, t))) ==> r == Ok((Lengths(nonce, m, n), t))
  {
    hide PutU64, GetU64, PutU32, GetU32, PutRaw, GetRaw;
    var (nonce, s1) :- GetRaw(24, s, InvalidBackup);
    var (manifestLen, s2) :- GetU64(s1, InvalidBackup);
    var (count, s3) :- GetU32(s2, InvalidBackup);
    Ok((Lengths(nonce, manifestLen, count), s3))
  }

  /** Everything after the title. */
  function PutBody(b: PortableBackup, t: Bytes): Bytes {
    PutRaw(b.nonce, PutU64(|b.manifest|, PutU32(|b.objects|, PutRaw(b.manifest, PutMany(PutObject, b.objects, t)))))
  }

  function GetBody(total: nat, title: Title, s: Bytes): Reading<PortableBackup>
    requires total <= ISIZE_MAX
  {
    var (l, s1) :- GetLengths(s);
    var (manifest, s2) :- GetLong(total, l.manifest, s1, InvalidBackup, Overflow);
    assert GetObjects(total, l.objects, [], s2).Ok? ==> |GetObjects(total, l.objects, [], s2).value.0| == l.objects by {
      if GetObjects(total, l.objects, [], s2).Ok? {
        ObjectsReadOnly(total, l.objects, [], s2);
      }
    }
    var (objects, s3) :- GetObjects(total, l.objects, [], s2);
    // No vector is longer than that.
    if |manifest| > ISIZE_MAX then Err(Overflow)
    else Ok((PortableBackup(title.id, title.kind, l.nonce, manifest, objects), s3))
  }

  function Decode(bytes: Vec<byte>): Result<PortableBackup, PortabilityError> {
    var (title, s1) :- GetTitle(BACKUP_MAGIC, bytes);
    var (b, s2) :- GetBody(|bytes|, title, s1);
    if b.manifest == [] || s2 != [] then Err(InvalidBackup) else Ok(b)
  }

  /** Decoding gives back the encoded backup when its objects ascend by digest. */
  lemma BackupReadBack(minor: u16, b: PortableBackup)
    requires minor <= BACKUP_MINOR && FitsBackup(b) && AscendingObjects(b.objects) && |EncodeAs(minor, b)| <= ISIZE_MAX
    ensures Decode(EncodeAs(minor, b)) == Ok(b)
  {
    hide PutTitle, GetTitle, PutBody, GetBody, AscendingObjects;
    BodyReadBack(|EncodeAs(minor, b)|, Title(minor, b.kind, b.id), b);
  }

  lemma BodyReadBack(total: nat, title: Title, b: PortableBackup)
    requires total <= ISIZE_MAX && title.kind == b.kind && title.id == b.id
    requires FitsBackup(b) && AscendingObjects(b.objects)
    ensures GetBody(total, title, PutBody(b, [])) == Ok((b, []))
  {
    hide PutRaw, PutU64, PutU32, GetLengths, GetLong, PutMany, GetObjects, AscendingObjects;
    ObjectsReadBackAll(total, b.objects);
  }

  lemma ObjectsReadBackAll(total: nat, xs: seq<EncryptedObject>)
    requires total <= ISIZE_MAX && AscendingObjects(xs)
    ensures GetObjects(total, |xs|, [], PutMany(PutObject, xs, [])) == Ok((xs, []))
  {
    assert xs[..0] == [];
    ObjectsReadBack(total, xs, 0, []);
  }

  /** Accepted bytes are the encoding, under their own minor version, of the backup they decode to. */
  lemma BackupReadOnly(bytes: Vec<byte>)
    requires Decode(bytes).Ok?
    ensures var b := Decode(bytes).value;
            && FitsBackup(b) && AscendingObjects(b.objects)
            && exists minor: u16 :: minor <= BACKUP_MINOR && bytes == EncodeAs(minor, b)
  {
    hide PutTitle, GetTitle, PutBody, GetBody, AscendingObjects;
    var (title, s1) := GetTitle(BACKUP_MAGIC, bytes).value;
    BodyReadOnly(|bytes|, title, s1);
    assert bytes == EncodeAs(title.minor, Decode(bytes).value);
  }

  lemma BodyReadOnly(total: nat, title: Title, s: Bytes)
    requires total <= ISIZE_MAX && GetBody(total, title, s).Ok?
    ensures var (b, t) := GetBody(total, title, s).value;
            && b.kind == title.kind && b.id == title.id && |b.objects| <= U32_MAX
            && AscendingObjects(b.objects) && s == PutBody(b, t)
  {
    hide PutRaw, PutU64, PutU32, GetLengths, GetLong, PutObject, Less, GetObjects;
    var (l, s1) := GetLengths(s).value;
    var (manifest, s2) := GetLong(total, l.manifest, s1, InvalidBackup, Overflow).value;
    ObjectsReadOnly(total, l.objects, [], s2);
  }
}
