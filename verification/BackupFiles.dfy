/** `PortableBackup::encode`, `decode` and `restore_backup` as they run. */
module BackupFiles {
  import opened Wrappers
  import opened Bytes
  import opened Streams
  import opened Capsule
  import opened CapsuleFile
  import opened Trimming
  import opened ObjectStore
  import opened BackupFormat
  import opened Backup
  import opened BackupRuns

  method PushObject(out: Buffer, o: EncryptedObject)
    modifies out
    ensures forall t :: out.bytes + t == old(out.bytes) + PutObject(o, t)
  {
    hide PutU64, PutRaw;
    out.PushRaw(o.digest);
    out.PushU64(o.logicalLen);
    out.PushU64(|o.ciphertext|);
    out.PushRaw(o.ciphertext);
  }

  method EncodeBackup(b: PortableBackup) returns (r: Result<Bytes, PortabilityError>)
    ensures r == if b.manifest == [] then Err(InvalidBackup) else if |b.objects| > U32_MAX then Err(Overflow) else Ok(Encode(b))
  {
    hide PutTitle, PutU32, PutU64, PutRaw, PutMany;
    if b.manifest == [] { return Err(InvalidBackup); }
    var out := new Buffer();
    PushTitle(out, BACKUP_MAGIC, b.kind, b.id);
    out.PushRaw(b.nonce);
    out.PushU64(|b.manifest|);
    if |b.objects| > U32_MAX { return Err(Overflow); }
    out.PushU32(|b.objects|);
    out.PushRaw(b.manifest);
    PushObjects(out, b.objects);
    ghost var expected := Encode(b);
    assert out.bytes == out.bytes + [] == [] + expected == expected;
    r := Ok(out.bytes);
  }

  method PushObjects(out: Buffer, xs: seq<EncryptedObject>)
    modifies out
    ensures forall t :: out.bytes + t == old(out.bytes) + PutMany(PutObject, xs, t)
  {
    hide PutObject;
    for i := 0 to |xs|
      invariant forall t :: old(out.bytes) + PutFrom(PutObject, xs, 0, t) == out.bytes + PutFrom(PutObject, xs, i, t)
    {
      PushObject(out, xs[i]);
    }
  }

  method ReadTitle(c: Cursor, magic: Bytes) returns (r: Result<Title, PortabilityError>)
    requires c.Valid() && |magic| == 6
    modifies c
    ensures c.Valid() && Follows(GetTitle(magic, old(c.Rest())), r, c.Rest())
  {
    hide GetRaw, GetU16, GetU8;
    var found := c.Take(6, InvalidBackup);
    if found.Err? { return Err(found.error); }
    if found.value != magic { return Err(InvalidBackup); }
    var major := c.U16(InvalidBackup);
    if major.Err? { return Err(major.error); }
    if major.value != BACKUP_MAJOR { return Err(InvalidBackup); }
    var minor := c.U16(InvalidBackup);
    if minor.Err? { return Err(minor.error); }
    if minor.value > BACKUP_MINOR { return Err(InvalidBackup); }
    var tag := c.U8(InvalidBackup);
    if tag.Err? { return Err(tag.error); }
    if !(1 <= tag.value <= 3) { return Err(InvalidBackup); }
    var kind := if tag.value == 1 then FullBackup else if tag.value == 2 then ThinBackup else StateBackup;
    var reserved := c.U8(InvalidBackup);
    if reserved.Err? { return Err(reserved.error); }
    if reserved.value != 0 { return Err(InvalidBackup); }
    var id := c.Take(16, InvalidBackup);
    if id.Err? { return Err(id.error); }
    r := Ok(Title(minor.value, kind, id.value));
  }

  method ReadAsset(c: Cursor, previous: Option<Identity>) returns (r: Result<ManifestAsset, PortabilityError>)
    requires c.Valid()
    modifies c
    ensures c.Valid() && Follows(GetAsset(previous, old(c.Rest())), r, c.Rest())
  {
    hide GetU8, GetU32, GetU64, GetString, GetRaw, Trim, Before;
    var tag := c.U8(InvalidBackup);
    if tag.Err? { return Err(tag.error); }
    if !(1 <= tag.value <= 4) { return Err(InvalidAsset); }
    var class_ := if tag.value == 1 then ModelAsset else if tag.value == 2 then CapabilityAsset
                  else if tag.value == 3 then MemoryAsset else StateAsset;
    var version := c.U32(InvalidBackup);
    if version.Err? { return Err(version.error); }
    var id := c.Text(InvalidBackup, InvalidBackup);
    if id.Err? { return Err(id.error); }
    if version.value == 0 || Trim(id.value) == [] { return Err(InvalidBackup); }
    var who := Identity(class_, id.value, version.value);
    if previous.Some? && !Before(previous.value, who) { return Err(InvalidBackup); }
    var logicalLen := c.U64(InvalidBackup);
    if logicalLen.Err? { return Err(logicalLen.error); }
    var digest := c.Take(32, InvalidBackup);
    if digest.Err? { return Err(digest.error); }
    r := Ok(ManifestAsset(who, logicalLen.value, digest.value));
  }

  method ReadAssets(c: Cursor, n: u32) returns (r: Result<seq<ManifestAsset>, PortabilityError>)
    requires c.Valid()
    modifies c
    ensures c.Valid() && Follows(GetAssets(n, [], old(c.Rest())), r, c.Rest())
  {
    hide GetAsset, PutAsset, FitsAsset, Before;
    var xs: seq<ManifestAsset> := [];
    var previous: Option<Identity> := None;
    for i := 0 to n
      invariant c.Valid() && previous == Last(xs)
      invariant GetAssets(n, [], old(c.Rest())) == GetAssets(n - i, xs, c.Rest())
    {
      var m := ReadAsset(c, previous);
      if m.Err? { return Err(m.error); }
      previous, xs := Some(m.value.who), xs + [m.value];
    }
    r := Ok(xs);
  }

  method ReadEntries(c: Cursor) returns (r: Result<seq<ManifestAsset>, PortabilityError>)
    requires c.Valid()
    modifies c
    ensures r == GetEntries(old(c.Rest()))
  {
    hide GetU32, GetAssets;
    var n := c.U32(InvalidBackup);
    if n.Err? { return Err(n.error); }
    var xs := ReadAssets(c, n.value);
    if xs.Err? { return Err(xs.error); }
    var done := c.IsFinished();
    if xs.value == [] || !done { return Err(InvalidBackup); }
    r := Ok(xs.value);
  }

  method ReadManifest(bytes: Bytes, kind: BackupKind, id: BackupId) returns (r: Result<seq<ManifestAsset>, PortabilityError>)
    requires |bytes| <= ISIZE_MAX
    ensures r == ManifestEntries(bytes, kind, id)
  {
    hide GetTitle, GetEntries, PutTitle;
    var c := new Cursor(bytes);
    var title := ReadTitle(c, MANIFEST_MAGIC);
    if title.Err? { return Err(title.error); }
    if title.value.kind != kind || title.value.id != id { return Err(InvalidBackup); }
    r := ReadEntries(c);
  }

  method ReadObject(c: Cursor, previous: Option<Digest>) returns (r: Result<EncryptedObject, PortabilityError>)
    requires c.Valid()
    modifies c
    ensures c.Valid() && Follows(GetObject(|c.bytes|, previous, old(c.Rest())), r, c.Rest())
  {
    hide GetU64, GetRaw, GetLong, Less;
    var digest := c.Take(32, InvalidBackup);
    if digest.Err? { return Err(digest.error); }
    if previous.Some? && !Less(previous.value, digest.value) { return Err(InvalidBackup); }
    var logicalLen := c.U64(InvalidBackup);
    if logicalLen.Err? { return Err(logicalLen.error); }
    var cipherLen := c.U64(InvalidBackup);
    if cipherLen.Err? { return Err(cipherLen.error); }
    var ciphertext := c.TakeLong(cipherLen.value, InvalidBackup, Overflow);
    if ciphertext.Err? { return Err(ciphertext.error); }
    r := Ok(EncryptedObject(digest.value, logicalLen.value, ciphertext.value));
  }

  method ReadLengths(c: Cursor) returns (r: Result<Lengths, PortabilityError>)
    requires c.Valid()
    modifies c
    ensures c.Valid() && Follows(GetLengths(old(c.Rest())), r, c.Rest())
  {
    hide GetRaw, GetU64, GetU32;
    var nonce := c.Take(24, InvalidBackup);
    if nonce.Err? { return Err(nonce.error); }
    var manifest := c.U64(InvalidBackup);
    if manifest.Err? { return Err(manifest.error); }
    var objects := c.U32(InvalidBackup);
    if objects.Err? { return Err(objects.error); }
    r := Ok(Lengths(nonce.value, manifest.value, objects.value));
  }

  method ReadObjects(c: Cursor, n: u32) returns (r: Result<Vec<EncryptedObject>, PortabilityError>)
    requires c.Valid()
    modifies c
    ensures c.Valid() && Follows(GetObjects(|c.bytes|, n, [], old(c.Rest())), r, c.Rest())
  {
    hide GetObject;
    var xs: seq<EncryptedObject> := [];
    var previous: Option<Digest> := None;
    for i := 0 to n
      invariant c.Valid() && |xs| == i && previous == LastDigest(xs)
      invariant GetObjects(|c.bytes|, n, [], old(c.Rest())) == GetObjects(|c.bytes|, n - i, xs, c.Rest())
    {
      var o := ReadObject(c, previous);
      if o.Err? { return Err(o.error); }
      previous, xs := Some(o.value.digest), xs + [o.value];
    }
    r := Ok(xs);
  }

  method ReadBody(c: Cursor, title: Title) returns (r: Result<PortableBackup, PortabilityError>)
    requires c.Valid()
    modifies c
    ensures c.Valid() && Follows(GetBody(|c.bytes|, title, old(c.Rest())), r, c.Rest())
  {
    hide GetLengths, GetLong, GetObjects, PutRaw, PutU64, PutU32;
    var l := ReadLengths(c);
    if l.Err? { return Err(l.error); }
    var manifest := c.TakeLong(l.value.manifest, InvalidBackup, Overflow);
    if manifest.Err? { return Err(manifest.error); }
    var objects := ReadObjects(c, l.value.objects);
    if objects.Err? { return Err(objects.error); }
    r := Ok(PortableBackup(title.id, title.kind, l.value.nonce, manifest.value, objects.value));
  }

  method DecodeBackup(bytes: Vec<byte>) returns (r: Result<PortableBackup, PortabilityError>)
    ensures r == Decode(bytes)
  {
    hide GetTitle, GetBody, PutTitle;
    var c := new Cursor(bytes);
    var title := ReadTitle(c, BACKUP_MAGIC);
    if title.Err? { return Err(title.error); }
    var b := ReadBody(c, title.value);
    if b.Err? { return Err(b.error); }
    var done := c.IsFinished();
    if b.value.manifest == [] || !done { return Err(InvalidBackup); }
    r := b;
  }

  /******* restore_backup *******/

  /** The assets are read from a staged copy, which replaces the store only when everything succeeded. */
  method RestoreBackup(data: ManifestData, b: PortableBackup, store: SovereignObjectStore) returns (r: Result<seq<PortableAsset>, PortabilityError>)
    modifies store
    ensures match Restore(store.suite, data, old(store.objects), b)
            case Ok((assets, after)) => r == Ok(assets) && store.objects == after
            case Err(e) => r == Err(e) && store.objects == old(store.objects)
  {
    hide AfterImport, ManifestEntries, RestoreAsset, Suite.Open;
    var c := store.suite;
    var staged := new SovereignObjectStore(c);
    staged.objects := store.objects;
    for i := 0 to |b.objects|
      invariant store.objects == old(store.objects)
      invariant ImportAll(c, old(store.objects), b.objects, i) == Ok(staged.objects)
    {
      var imported := staged.Import(b.objects[i]);
      if imported.Err? {
        ImportStops(c, store.objects, b.objects, i + 1, |b.objects|, imported.error);
        return Err(imported.error);
      }
    }
    var manifest := c.Open(b.nonce, data(b.kind, b.id), b.manifest);
    if manifest.Err? { return Err(manifest.error); }
    var entries := ReadManifest(manifest.value, b.kind, b.id);
    if entries.Err? { return Err(entries.error); }
    r := RestoreAll(staged, entries.value);
    if r.Ok? {
      store.objects := staged.objects;
    }
  }

  method RestoreAll(staged: SovereignObjectStore, entries: seq<ManifestAsset>) returns (r: Result<seq<PortableAsset>, PortabilityError>)
    ensures r == RestoreAssets(staged.suite, staged.objects, entries, |entries|)
  {
    hide RestoreAsset;
    var assets: seq<PortableAsset> := [];
    for i := 0 to |entries|
      invariant RestoreAssets(staged.suite, staged.objects, entries, i) == Ok(assets)
    {
      var asset := RestoreOne(staged, entries[i]);
      if asset.Err? {
        RestoreStops(staged.suite, staged.objects, entries, i + 1, |entries|, asset.error);
        return Err(asset.error);
      }
      assets := assets + [asset.value];
    }
    r := Ok(assets);
  }

  method RestoreOne(staged: SovereignObjectStore, m: ManifestAsset) returns (r: Result<PortableAsset, PortabilityError>)
    ensures r == RestoreAsset(staged.suite, staged.objects, m)
  {
    hide Fetch, FromCapsule;
    var capsule := staged.Get(m.digest);
    if capsule.Err? { return Err(capsule.error); }
    if |capsule.value| != m.logicalLen { return Err(IntegrityMismatch); }
    var asset := BuildAsset(staged.suite.h, m.who.class_, m.who.id, m.who.version, capsule.value);
    if asset.Err? { return Err(asset.error); }
    if asset.value.digest != m.digest { return Err(IntegrityMismatch); }
    r := asset;
  }

  method BuildAsset(h: HashFn, class_: AssetClass, id: Str, version: u32, capsule: Vec<byte>) returns (r: Result<PortableAsset, PortabilityError>)
    ensures r == FromCapsule(h, class_, id, version, capsule)
  {
    hide Trim, CapsuleLayout.Read;
    var name := Trim(id);
    if name == [] || version == 0 || capsule == [] { return Err(InvalidAsset); }
    var view := ReadCapsule(h, capsule);
    if view.Err? { return Err(InvalidCapsule(view.error)); }
    if !KindFits(class_, view.value.kind) { return Err(InvalidAsset); }
    r := Ok(PortableAsset(Identity(class_, name, version), capsule, h(capsule)));
  }

  lemma {:induction false} ImportStops(c: Suite, objects: Objects, records: seq<EncryptedObject>, i: nat, n: nat, e: PortabilityError)
    requires i <= n <= |records| && ImportAll(c, objects, records, i) == Err(e)
    ensures ImportAll(c, objects, records, n) == Err(e)
    decreases n
  {
    hide AfterImport;
    if i < n {
      ImportStops(c, objects, records, i, n - 1, e);
    }
  }

  lemma {:induction false} RestoreStops(c: Suite, objects: Objects, entries: seq<ManifestAsset>, i: nat, n: nat, e: PortabilityError)
    requires i <= n <= |entries| && RestoreAssets(c, objects, entries, i) == Err(e)
    ensures RestoreAssets(c, objects, entries, n) == Err(e)
    decreases n
  {
    hide RestoreAsset;
    if i < n {
      RestoreStops(c, objects, entries, i, n - 1, e);
    }
  }

  /******* From store to store *******/

  /** The source store, once it holds the assets, still agrees with the target. */
  lemma StillAgrees(c: Suite, before: Objects, after: Objects, target: Objects, assets: seq<PortableAsset>)
    requires Agree(c, before, target) && Grows(before, after) && AddsOnly(c, before, after, assets)
    requires forall a :: a in assets ==> a.digest == c.h(a.capsule) && Fetch(c, after, a.digest) == Ok(a.capsule)
    requires forall a :: a in assets && a.digest in target ==> Fetch(c, target, a.digest) == Ok(a.capsule)
    ensures Agree(c, after, target)
  {
    hide Decrypt;
  }

  /** What a restore from the assets' backup meets in the target store: the same objects under shared digests, all objects for a thin backup. */
  ghost predicate Receptive(c: Suite, kind: BackupKind, source: Objects, target: Objects, assets: seq<PortableAsset>) {
    && ValidStore(c, target) && Agree(c, source, target)
    && (forall a :: a in assets && a.digest in target ==> Fetch(c, target, a.digest) == Ok(a.capsule))
    && (kind == ThinBackup ==> forall a :: a in assets ==> a.digest in target)
  }

  lemma SelectedIsAmong(kind: BackupKind, assets: seq<PortableAsset>, ordered: seq<PortableAsset>)
    requires multiset(ordered) == multiset(Selected(kind, assets))
    ensures forall a :: a in ordered ==> a in assets
  {
    SelectedAmong(kind, assets);
    forall a | a in ordered
      ensures a in assets
    {
      assert a in multiset(ordered);
    }
  }

  lemma {:induction false} SelectedAmong(kind: BackupKind, assets: seq<PortableAsset>)
    ensures forall a :: a in Selected(kind, assets) ==> a in assets
    decreases |assets|
  {
    if assets != [] {
      SelectedAmong(kind, assets[..|assets| - 1]);
    }
  }

  /**
   Backs the assets up, writes the file, reads it and restores from it: what arrives is exactly
   the selected assets, ordered by class, id and version, and the file is the encoding of the
   backup of just these. It fails only where the backup cannot be made or the file does not fit
   memory, and then leaves the target store as it was.
   */
  method MoveThroughFile(data: ManifestData, kind: BackupKind, id: BackupId, nonce: Nonce, assets: seq<PortableAsset>,
                         source: SovereignObjectStore, target: SovereignObjectStore)
    returns (r: Result<seq<PortableAsset>, PortabilityError>, file: Bytes, ghost ordered: seq<PortableAsset>, ghost made: Option<PortableBackup>)
    requires source != target && target.suite == source.suite && source.suite.Lawful() && ValidStore(source.suite, source.objects)
    requires Receptive(source.suite, kind, source.objects, target.objects, assets) && forall a :: a in assets ==> Built(source.suite.h, a)
    modifies source, target
    ensures r.Ok? ==> r.value == ordered && multiset(ordered) == multiset(Selected(kind, assets)) && AscendingWho(ordered)
    ensures made.Some? ==>
      && made.value.kind == kind && made.value.id == id && made.value.nonce == nonce
      && BacksUp(source.suite, data, made.value, ordered, source.objects) && file == Encode(made.value)
    ensures made.None? ==> r.Err? && file == []
    ensures r.Ok? ==> ValidStore(target.suite, target.objects) && Grows(old(target.objects), target.objects)
    ensures r.Err? ==> target.objects == old(target.objects)
    ensures r.Err? ==>
      || |file| > ISIZE_MAX
      || Explains(source.suite, r.error, Selected(kind, assets), source.objects)
      || (r.error == CryptoFailure && ManifestSealFails(source.suite, data, kind, id, nonce, ordered))
  {
    hide Explains, ManifestSealFails, BacksUp, Restore, Decode, Encode, Built, ValidStore, Agree, Grows, Fetch, AddsOnly, AscendingWho, Selected, Suite.Lawful;
    ghost var c, before, receiving := source.suite, source.objects, target.objects;
    file, made := [], None;
    var b;
    b, ordered := Create(data, kind, id, nonce, assets, source);
    if b.Err? { return Err(b.error), file, ordered, made; }
    made := Some(b.value);
    OrderedAscend(c, data, b.value, ordered, source.objects);
    BackupMoves(c, data, b.value, ordered, kind, assets, before, source.objects, receiving);
    var encoded := EncodeBackup(b.value);
    file := encoded.value;
    if |file| > ISIZE_MAX { return Err(Overflow), file, ordered, made; }
    FileRestoresBackup(c, data, b.value, ordered, source.objects, receiving);
    var decoded := DecodeBackup(file);
    r := RestoreBackup(data, decoded.value, target);
    RestoreReturnsBackup(c, data, b.value, ordered, source.objects, receiving);
  }

  lemma OrderedAscend(c: Suite, data: ManifestData, b: PortableBackup, ordered: seq<PortableAsset>, objects: Objects)
    requires BacksUp(c, data, b, ordered, objects)
    ensures AscendingWho(ordered)
  {
    hide AscendingWho;
  }

  /** A created backup meets what restoring it demands. */
  lemma BackupMoves(c: Suite, data: ManifestData, b: PortableBackup, ordered: seq<PortableAsset>, kind: BackupKind, assets: seq<PortableAsset>,
                    before: Objects, after: Objects, target: Objects)
    requires c.Lawful() && Receptive(c, kind, before, target, assets) && forall a :: a in assets ==> Built(c.h, a)
    requires b.kind == kind && multiset(ordered) == multiset(Selected(kind, assets)) && BacksUp(c, data, b, ordered, after)
    requires Grows(before, after) && AddsOnly(c, before, after, Selected(kind, assets))
    ensures Agree(c, after, target) && b.manifest != []
    ensures forall a :: a in ordered ==> Built(c.h, a)
    ensures b.kind == ThinBackup ==> forall a :: a in ordered ==> a.digest in target
  {
    hide ManifestText, Built, ValidStore, Agree, Grows, AscendingWho, Selected, Suite.Lawful, HoldsRecords, Decrypt;
    SelectedIsAmong(kind, assets, ordered);
    SameMembers(ordered, Selected(kind, assets));
    forall a | a in ordered
      ensures a.digest == c.h(a.capsule) && Fetch(c, after, a.digest) == Ok(a.capsule)
    {
      BuiltFits(c.h, a);
    }
    StillAgrees(c, before, after, target, ordered);
    ManifestOpens(c, data, b, ordered, after);
  }
}
