/**
 What a backup holds and what restoring it gives back.
 */
module Backup {
  import opened Wrappers
  import opened Bytes
  import opened Capsule
  import opened CapsuleLayout
  import opened Trimming
  import opened ObjectStore
  import opened BackupFormat

  datatype PortableAsset = PortableAsset(who: Identity, capsule: Vec<byte>, digest: Digest)

  predicate KindFits(c: AssetClass, k: CapsuleKind) {
    match c
    case ModelAsset => k == Full || k == Thin
    case CapabilityAsset => k == Full || k == Thin
    case MemoryAsset => k == State
    case StateAsset => k == State
  }

  function FromCapsule(h: HashFn, class_: AssetClass, id: Str, version: u32, capsule: Vec<byte>): Result<PortableAsset, PortabilityError> {
    var name := Trim(id);
    if name == [] || version == 0 || capsule == [] then Err(InvalidAsset)
    else
      match CapsuleLayout.Read(h, capsule)
      case Err(e) => Err(InvalidCapsule(e))
      case Ok(view) =>
        if !KindFits(class_, view.kind) then Err(InvalidAsset)
        else Ok(PortableAsset(Identity(class_, name, version), capsule, h(capsule)))
  }

  /** The assets that `from_capsule` builds. */
  predicate Built(h: HashFn, a: PortableAsset) {
    FromCapsule(h, a.who.class_, a.who.id, a.who.version, a.capsule) == Ok(a)
  }

  lemma BuiltFromCapsule(h: HashFn, class_: AssetClass, id: Str, version: u32, capsule: Vec<byte>)
    requires FromCapsule(h, class_, id, version, capsule).Ok?
    ensures Built(h, FromCapsule(h, class_, id, version, capsule).value)
  {
    hide Trim, CapsuleLayout.Read;
    TrimTwice(id);
  }

  predicate Stateful(a: PortableAsset) {
    a.who.class_ == MemoryAsset || a.who.class_ == StateAsset
  }

  /** The assets that go into a backup of the given kind, in the given order. */
  function Selected(kind: BackupKind, assets: seq<PortableAsset>): seq<PortableAsset> {
    if |assets| == 0 then []
    else
      var rest := Selected(kind, assets[..|assets| - 1]);
      var a := assets[|assets| - 1];
      if kind != StateBackup || Stateful(a) then rest + [a] else rest
  }

  function EntryFor(a: PortableAsset): ManifestAsset {
    ManifestAsset(a.who, |a.capsule|, a.digest)
  }

  /******* What a backup is *******/

  predicate AscendingWho(xs: seq<PortableAsset>) {
    forall i, j :: 0 <= i < j < |xs| ==> Before(xs[i].who, xs[j].who)
  }

  function EntriesFor(xs: seq<PortableAsset>): (r: seq<ManifestAsset>)
    ensures |r| == |xs| && forall i :: 0 <= i < |xs| ==> r[i] == EntryFor(xs[i])
  {
    seq(|xs|, i requires 0 <= i < |xs| => EntryFor(xs[i]))
  }

  /** Sealing data of the manifest. */
  type ManifestData = (BackupKind, BackupId) -> Bytes

  predicate HasRecord(d: Digest, records: seq<EncryptedObject>) {
    exists i :: 0 <= i < |records| && records[i].digest == d
  }

  predicate Wanted(d: Digest, entries: seq<ManifestAsset>) {
    exists k :: 0 <= k < |entries| && entries[k].digest == d
  }

  /** The objects of a full backup: one record per digest, by ascending digest. */
  ghost predicate HoldsRecords(b: PortableBackup, assets: seq<PortableAsset>, objects: Objects) {
    && AscendingObjects(b.objects)
    && (forall i :: 0 <= i < |b.objects| ==> b.objects[i].digest in objects && objects[b.objects[i].digest] == b.objects[i])
    && (forall k :: 0 <= k < |assets| ==> HasRecord(assets[k].digest, b.objects))
    && (forall i :: 0 <= i < |b.objects| ==> Wanted(b.objects[i].digest, EntriesFor(assets)))
  }

  /** `b` backs up exactly `assets`, given in manifest order, from a store holding `objects`. */
  ghost predicate BacksUp(c: Suite, data: ManifestData, b: PortableBackup, assets: seq<PortableAsset>, objects: Objects) {
    && 0 < |assets| <= U32_MAX && AscendingWho(assets)
    && (forall i :: 0 <= i < |assets| ==> |assets[i].who.id| <= U32_MAX)
    && c.seal(b.nonce, data(b.kind, b.id), ManifestText(b.kind, b.id, EntriesFor(assets))) == Some(b.manifest)
    && (forall a :: a in assets ==> Fetch(c, objects, a.digest) == Ok(a.capsule))
    && (if b.kind == ThinBackup then b.objects == [] else HoldsRecords(b, assets, objects))
  }

  /******* Restoring *******/

  function ImportAll(c: Suite, objects: Objects, records: seq<EncryptedObject>, n: nat): Result<Objects, PortabilityError>
    requires n <= |records|
  {
    if n == 0 then Ok(objects)
    else
      var staged :- ImportAll(c, objects, records, n - 1);
      AfterImport(c, staged, records[n - 1])
  }

  function RestoreAsset(c: Suite, objects: Objects, m: ManifestAsset): Result<PortableAsset, PortabilityError> {
    var capsule :- Fetch(c, objects, m.digest);
    if |capsule| != m.logicalLen then Err(IntegrityMismatch)
    else
      var asset :- FromCapsule(c.h, m.who.class_, m.who.id, m.who.version, capsule);
      if asset.digest != m.digest then Err(IntegrityMismatch) else Ok(asset)
  }

  function RestoreAssets(c: Suite, objects: Objects, entries: seq<ManifestAsset>, n: nat): Result<seq<PortableAsset>, PortabilityError>
    requires n <= |entries|
  {
    if n == 0 then Ok([])
    else
      var done :- RestoreAssets(c, objects, entries, n - 1);
      var asset :- RestoreAsset(c, objects, entries[n - 1]);
      Ok(done + [asset])
  }

  /** The restored assets and the store afterwards. */
  function Restore(c: Suite, data: ManifestData, objects: Objects, b: PortableBackup): Result<(seq<PortableAsset>, Objects), PortabilityError> {
    var staged :- ImportAll(c, objects, b.objects, |b.objects|);
    var manifest :- c.Open(b.nonce, data(b.kind, b.id), b.manifest);
    var entries :- ManifestEntries(manifest, b.kind, b.id);
    var assets :- RestoreAssets(c, staged, entries, |entries|);
    Ok((assets, staged))
  }

  /** Whatever the backup, restoring keeps the store's invariant and loses nothing. */
  lemma {:induction false} ImportAllKeepsStore(c: Suite, objects: Objects, records: seq<EncryptedObject>, n: nat)
    requires ValidStore(c, objects) && n <= |records| && ImportAll(c, objects, records, n).Ok?
    ensures var staged := ImportAll(c, objects, records, n).value;
            ValidStore(c, staged) && Grows(objects, staged)
  {
    hide AfterImport, ValidStore;
    if n > 0 {
      var staged := ImportAll(c, objects, records, n - 1).value;
      ImportAllKeepsStore(c, objects, records, n - 1);
      ImportExactly(c, staged, records[n - 1]);
    }
  }

  lemma RestoreKeepsStore(c: Suite, data: ManifestData, objects: Objects, b: PortableBackup)
    requires ValidStore(c, objects) && Restore(c, data, objects, b).Ok?
    ensures var (assets, after) := Restore(c, data, objects, b).value;
            ValidStore(c, after) && Grows(objects, after)
  {
    hide ManifestEntries, RestoreAssets;
    ImportAllKeepsStore(c, objects, b.objects, |b.objects|);
  }

  /** The two stores open shared digests to the same bytes. */
  ghost predicate Agree(c: Suite, a: Objects, b: Objects) {
    forall d :: d in a && d in b ==> Decrypt(c, a[d]) == Decrypt(c, b[d])
  }

  /** Records of a valid store can all be imported into a valid store that agrees with it. */
  lemma {:induction false} RecordsImport(c: Suite, source: Objects, target: Objects, records: seq<EncryptedObject>, n: nat)
    requires ValidStore(c, source) && ValidStore(c, target) && Agree(c, source, target) && n <= |records|
    requires forall i :: 0 <= i < |records| ==> records[i].digest in source && source[records[i].digest] == records[i]
    ensures ImportAll(c, target, records, n).Ok?
    ensures var staged := ImportAll(c, target, records, n).value;
            && ValidStore(c, staged) && Grows(target, staged) && Agree(c, source, staged)
            && (forall i :: 0 <= i < n ==> records[i].digest in staged)
            && staged.Keys <= target.Keys + source.Keys
  {
    hide AfterImport, Sound, Decrypt, Fetch;
    if n > 0 {
      RecordsImport(c, source, target, records, n - 1);
      var staged := ImportAll(c, target, records, n - 1).value;
      var o := records[n - 1];
      assert Sound(c, source[o.digest]);
      ImportExactly(c, staged, o);
      OneMoreAgrees(c, source, staged, o);
    }
  }

  lemma OneMoreAgrees(c: Suite, source: Objects, staged: Objects, o: EncryptedObject)
    requires o.digest in source && source[o.digest] == o && Agree(c, source, staged)
    requires AfterImport(c, staged, o).Ok?
    ensures Agree(c, source, AfterImport(c, staged, o).value)
  {
    hide Decrypt;
  }

  lemma RestoresAsset(c: Suite, objects: Objects, a: PortableAsset)
    requires Built(c.h, a) && Fetch(c, objects, a.digest) == Ok(a.capsule)
    ensures RestoreAsset(c, objects, EntryFor(a)) == Ok(a)
  {
    hide Trim, CapsuleLayout.Read, Fetch;
  }

  lemma {:induction false} RestoresAssets(c: Suite, objects: Objects, assets: seq<PortableAsset>, n: nat)
    requires n <= |assets|
    requires forall a :: a in assets ==> Built(c.h, a) && Fetch(c, objects, a.digest) == Ok(a.capsule)
    ensures RestoreAssets(c, objects, EntriesFor(assets), n) == Ok(assets[..n])
  {
    hide RestoreAsset, Fetch, Built;
    if n > 0 {
      RestoresAssets(c, objects, assets, n - 1);
      assert assets[n - 1] in assets;
      RestoresAsset(c, objects, assets[n - 1]);
      TakeOneMore(assets, n - 1);
    }
  }

  lemma BuiltFits(h: HashFn, a: PortableAsset)
    requires Built(h, a)
    ensures a.who.version != 0 && Trim(a.who.id) != [] && a.digest == h(a.capsule)
  {
    hide Trim, CapsuleLayout.Read;
  }

  lemma ManifestOpens(c: Suite, data: ManifestData, b: PortableBackup, assets: seq<PortableAsset>, objects: Objects)
    requires c.Lawful() && BacksUp(c, data, b, assets, objects)
    requires forall a :: a in assets ==> Built(c.h, a)
    ensures c.Open(b.nonce, data(b.kind, b.id), b.manifest) == Ok(ManifestText(b.kind, b.id, EntriesFor(assets)))
    ensures ManifestEntries(ManifestText(b.kind, b.id, EntriesFor(assets)), b.kind, b.id) == Ok(EntriesFor(assets))
    ensures b.manifest != []
  {
    hide Trim, Built, ManifestText, ManifestEntries, Before, HoldsRecords, Fetch;
    var entries := EntriesFor(assets);
    forall i | 0 <= i < |entries|
      ensures FitsAsset(entries[i])
    {
      assert assets[i] in assets;
      BuiltFits(c.h, assets[i]);
    }
    ManifestTextReadBack(b.kind, b.id, entries);
  }

  /** After the imports every asset can be fetched. */
  lemma AssetsFetched(c: Suite, data: ManifestData, b: PortableBackup, assets: seq<PortableAsset>, source: Objects, target: Objects, staged: Objects, a: PortableAsset)
    requires BacksUp(c, data, b, assets, source) && Agree(c, source, staged) && a in assets
    requires forall i :: 0 <= i < |b.objects| ==> b.objects[i].digest in staged
    requires Grows(target, staged) && (b.kind == ThinBackup ==> a.digest in target)
    ensures Fetch(c, staged, a.digest) == Ok(a.capsule)
  {
    hide Decrypt, ManifestText;
    assert Fetch(c, source, a.digest) == Ok(a.capsule);
    if b.kind != ThinBackup {
      var k :| 0 <= k < |assets| && assets[k] == a;
      assert HasRecord(assets[k].digest, b.objects);
      var i :| 0 <= i < |b.objects| && b.objects[i].digest == a.digest;
      assert b.objects[i].digest in staged;
    }
  }

  lemma RecordsAreStored(c: Suite, data: ManifestData, b: PortableBackup, assets: seq<PortableAsset>, source: Objects)
    requires BacksUp(c, data, b, assets, source)
    ensures forall i :: 0 <= i < |b.objects| ==> b.objects[i].digest in source && source[b.objects[i].digest] == b.objects[i]
  {
  }

  /**
   Restoring returns exactly the backed-up assets, in manifest order: a full or state backup
   into any valid store that agrees on shared digests, a thin one into such a store that
   already holds the objects.
   */
  lemma RestoreReturnsBackup(c: Suite, data: ManifestData, b: PortableBackup, assets: seq<PortableAsset>, source: Objects, target: Objects)
    requires c.Lawful() && ValidStore(c, source) && ValidStore(c, target) && Agree(c, source, target)
    requires BacksUp(c, data, b, assets, source) && forall a :: a in assets ==> Built(c.h, a)
    requires b.kind == ThinBackup ==> forall a :: a in assets ==> a.digest in target
    ensures var r := Restore(c, data, target, b);
            && r.Ok? && r.value.0 == assets
            && ValidStore(c, r.value.1) && Grows(target, r.value.1)
            && forall a :: a in assets ==> Fetch(c, r.value.1, a.digest) == Ok(a.capsule)
  {
    hide Built, ManifestText, ManifestEntries, RestoreAssets, Fetch, Decrypt, ImportAll, BacksUp, EntriesFor;
    ManifestOpens(c, data, b, assets, source);
    RecordsAreStored(c, data, b, assets, source);
    RecordsImport(c, source, target, b.objects, |b.objects|);
    var staged := ImportAll(c, target, b.objects, |b.objects|).value;
    forall a | a in assets
      ensures Fetch(c, staged, a.digest) == Ok(a.capsule)
    {
      AssetsFetched(c, data, b, assets, source, target, staged, a);
    }
    RestoresAssets(c, staged, assets, |assets|);
    assert assets[..|assets|] == assets;
  }

  /** The same through the file: encoded, decoded and then restored. */
  lemma FileRestoresBackup(c: Suite, data: ManifestData, b: PortableBackup, assets: seq<PortableAsset>, source: Objects, target: Objects)
    requires c.Lawful() && ValidStore(c, source) && ValidStore(c, target) && Agree(c, source, target)
    requires BacksUp(c, data, b, assets, source) && forall a :: a in assets ==> Built(c.h, a)
    requires b.kind == ThinBackup ==> forall a :: a in assets ==> a.digest in target
    requires |b.objects| <= U32_MAX && |Encode(b)| <= ISIZE_MAX
    ensures Decode(Encode(b)) == Ok(b)
    ensures var r := Restore(c, data, target, Decode(Encode(b)).value);
            r.Ok? && r.value.0 == assets
  {
    hide Built, ManifestText, ManifestEntries, RestoreAssets, Fetch, Decrypt, ImportAll, Restore, Decode, Encode, EncodeAs, Less;
    ManifestOpens(c, data, b, assets, source);
    EncodeIsCurrent(b);
    BackupReadBack(BACKUP_MINOR, b);
    RestoreReturnsBackup(c, data, b, assets, source, target);
  }

  lemma EncodeIsCurrent(b: PortableBackup)
    ensures Encode(b) == EncodeAs(BACKUP_MINOR, b)
  {
  }
}
