/** Creating, encoding, decoding and restoring a backup as it is done, against the store object. */
module BackupRuns {
  import opened Wrappers
  import opened Bytes
  import opened Streams
  import opened Capsule
  import opened Trimming
  import opened ObjectStore
  import opened BackupFormat
  import opened Backup

  /******* Sorting *******/

  ghost predicate DistinctWho(xs: seq<PortableAsset>) {
    forall i, j :: 0 <= i < j < |xs| ==> xs[i].who != xs[j].who
  }

  lemma InsertedAscends(order: seq<PortableAsset>, x: PortableAsset, k: nat)
    requires AscendingWho(order) && k <= |order|
    requires forall i :: 0 <= i < k ==> Before(order[i].who, x.who)
    requires k < |order| ==> Before(x.who, order[k].who)
    ensures AscendingWho(order[..k] + [x] + order[k..])
    ensures multiset(order[..k] + [x] + order[k..]) == multiset(order) + multiset{x}
  {
    hide Before;
    assert order == order[..k] + order[k..];
    forall j | k < j < |order|
      ensures Before(x.who, order[j].who)
    {
      BeforeTransitive(x.who, order[k].who, order[j].who);
    }
  }

  method InsertEntry(sorted: seq<ManifestAsset>, m: ManifestAsset, ghost order: seq<PortableAsset>, ghost x: PortableAsset)
    returns (sorted': seq<ManifestAsset>, ghost order': seq<PortableAsset>)
    requires sorted == EntriesFor(order) && AscendingWho(order) && m == EntryFor(x)
    requires forall a :: a in order ==> a.who != x.who
    ensures sorted' == EntriesFor(order') && AscendingWho(order')
    ensures multiset(order') == multiset(order) + multiset{x} && multiset(sorted') == multiset(sorted) + multiset{m}
  {
    hide Before;
    var k := 0;
    while k < |sorted| && Before(sorted[k].who, m.who)
      invariant k <= |sorted|
      invariant forall j :: 0 <= j < k ==> Before(order[j].who, x.who)
    {
      k := k + 1;
    }
    if k < |sorted| {
      BeforeTotal(order[k].who, x.who);
    }
    InsertedAscends(order, x, k);
    assert sorted == sorted[..k] + sorted[k..];
    sorted', order' := sorted[..k] + [m] + sorted[k..], order[..k] + [x] + order[k..];
  }

  /** The manifest entries by ascending identity; `order` is how the assets come to lie. */
  method SortEntries(entries: seq<ManifestAsset>, ghost xs: seq<PortableAsset>)
    returns (sorted: seq<ManifestAsset>, ghost order: seq<PortableAsset>)
    requires entries == EntriesFor(xs) && DistinctWho(xs)
    ensures AscendingAssets(sorted) && multiset(sorted) == multiset(entries)
    ensures sorted == EntriesFor(order) && AscendingWho(order) && multiset(order) == multiset(xs)
  {
    hide AscendingWho;
    sorted, order := [], [];
    NothingAscends();
    for i := 0 to |entries|
      invariant sorted == EntriesFor(order) && AscendingWho(order)
      invariant multiset(order) == multiset(xs[..i]) && multiset(sorted) == multiset(entries[..i])
    {
      EarlierDiffer(xs, i, order);
      assert xs[..i + 1] == xs[..i] + [xs[i]] && entries[..i + 1] == entries[..i] + [entries[i]];
      sorted, order := InsertEntry(sorted, entries[i], order, xs[i]);
    }
    assert xs[..|xs|] == xs && entries[..|entries|] == entries;
    EntriesAscend(order);
  }

  lemma EntriesAscend(order: seq<PortableAsset>)
    requires AscendingWho(order)
    ensures AscendingAssets(EntriesFor(order))
  {
    hide Before;
  }

  lemma NothingAscends()
    ensures AscendingWho([])
  {
  }

  lemma EarlierDiffer(xs: seq<PortableAsset>, i: nat, order: seq<PortableAsset>)
    requires i < |xs| && DistinctWho(xs) && multiset(order) == multiset(xs[..i])
    ensures forall a :: a in order ==> a.who != xs[i].who
  {
    forall a | a in order
      ensures a.who != xs[i].who
    {
      assert a in multiset(order);
      assert a in xs[..i];
      var j :| 0 <= j < i && xs[..i][j] == a;
    }
  }

  predicate Ascending(ds: seq<Digest>) {
    forall i, j :: 0 <= i < j < |ds| ==> Less(ds[i], ds[j])
  }

  predicate AtMost(a: Digest, b: Digest) {
    a == b || Less(a, b)
  }

  predicate Sorted(ds: seq<Digest>) {
    forall i, j :: 0 <= i < j < |ds| ==> AtMost(ds[i], ds[j])
  }

  lemma InsertedSorts(ds: seq<Digest>, d: Digest, k: nat)
    requires Sorted(ds) && k <= |ds|
    requires forall i :: 0 <= i < k ==> AtMost(ds[i], d)
    requires k < |ds| ==> Less(d, ds[k])
    ensures Sorted(ds[..k] + [d] + ds[k..])
    ensures forall e :: e in ds[..k] + [d] + ds[k..] <==> e in ds || e == d
  {
    hide Less;
    assert ds == ds[..k] + ds[k..];
    forall j | k < j < |ds|
      ensures Less(d, ds[j])
    {
      assert AtMost(ds[k], ds[j]);
      if ds[k] != ds[j] {
        LessTransitive(d, ds[k], ds[j]);
      }
    }
  }

  method SortDigests(ds: seq<Digest>) returns (sorted: seq<Digest>)
    ensures |sorted| == |ds| && Sorted(sorted) && forall d :: d in sorted <==> d in ds
  {
    hide Less;
    sorted := [];
    for i := 0 to |ds|
      invariant |sorted| == i && Sorted(sorted) && forall d :: d in sorted <==> d in ds[..i]
    {
      var k := 0;
      while k < |sorted| && !Less(ds[i], sorted[k])
        invariant k <= |sorted|
        invariant forall j :: 0 <= j < k ==> AtMost(sorted[j], ds[i])
      {
        LessTotal(ds[i], sorted[k]);
        k := k + 1;
      }
      InsertedSorts(sorted, ds[i], k);
      assert ds[..i + 1] == ds[..i] + [ds[i]];
      sorted := sorted[..k] + [ds[i]] + sorted[k..];
    }
    assert ds[..|ds|] == ds;
  }

  /** Drops repetitions of a sorted list. */
  method Dedup(ds: seq<Digest>) returns (unique: seq<Digest>)
    requires Sorted(ds)
    ensures |unique| <= |ds| && Ascending(unique) && forall d :: d in unique <==> d in ds
  {
    hide Less;
    unique := [];
    for i := 0 to |ds|
      invariant |unique| <= i && Ascending(unique) && forall d :: d in unique <==> d in ds[..i]
      invariant |unique| > 0 ==> unique[|unique| - 1] in ds[..i]
      invariant forall j :: 0 <= j < |unique| ==> unique[j] in ds[..i]
    {
      assert ds[..i + 1] == ds[..i] + [ds[i]];
      if |unique| == 0 || unique[|unique| - 1] != ds[i] {
        NextIsGreater(ds, i, unique);
        unique := unique + [ds[i]];
      }
    }
    assert ds[..|ds|] == ds;
  }

  lemma NextIsGreater(ds: seq<Digest>, i: nat, unique: seq<Digest>)
    requires i < |ds| && Sorted(ds) && Ascending(unique)
    requires forall j :: 0 <= j < |unique| ==> unique[j] in ds[..i]
    requires |unique| > 0 ==> unique[|unique| - 1] != ds[i]
    ensures Ascending(unique + [ds[i]])
  {
    hide Less;
    forall j | 0 <= j < |unique|
      ensures Less(unique[j], ds[i])
    {
      var last := unique[|unique| - 1];
      var k :| 0 <= k < i && ds[..i][k] == last;
      assert AtMost(ds[k], ds[i]);
      if j < |unique| - 1 {
        LessTransitive(unique[j], last, ds[i]);
      }
    }
  }

  /******* PortableBackupBuilder::create *******/

  /** Two different texts among the assets and the store have one digest. */
  ghost predicate Collision(c: Suite, assets: seq<PortableAsset>, objects: Objects) {
    exists a, d :: a in assets && d in objects && d == c.h(a.capsule) && Fetch(c, objects, d).Ok? && Fetch(c, objects, d).value != a.capsule
  }

  /** The cipher fails on the object of one of the assets. */
  ghost predicate ObjectSealFails(c: Suite, assets: seq<PortableAsset>) {
    exists a :: a in assets && c.seal(c.objectNonce(c.h(a.capsule)), c.objectData(c.h(a.capsule), |a.capsule|), a.capsule).None?
  }

  /** The cipher fails on the manifest of the assets in their order. */
  ghost predicate ManifestSealFails(c: Suite, data: ManifestData, kind: BackupKind, id: BackupId, nonce: Nonce, ordered: seq<PortableAsset>) {
    c.seal(nonce, data(kind, id), ManifestText(kind, id, EntriesFor(ordered))).None?
  }

  /** The error names what kept the assets from being backed up; `after` is the store it left. */
  ghost predicate Explains(c: Suite, e: PortabilityError, assets: seq<PortableAsset>, after: Objects) {
    match e
    case EmptyBackup => assets == []
    case DuplicateAsset => !DistinctWho(assets)
    case IntegrityMismatch => (exists a :: a in assets && a.digest != c.h(a.capsule)) || Collision(c, assets, after)
    case CryptoFailure => ObjectSealFails(c, assets)
    case Overflow => |assets| > U32_MAX || exists a :: a in assets && |a.who.id| > U32_MAX
    case _ => false
  }

  method Select(kind: BackupKind, assets: seq<PortableAsset>) returns (selected: seq<PortableAsset>)
    ensures selected == Selected(kind, assets)
  {
    selected := [];
    for i := 0 to |assets|
      invariant selected == Selected(kind, assets[..i])
    {
      assert assets[..i + 1][..i] == assets[..i];
      if kind != StateBackup || Stateful(assets[i]) {
        selected := selected + [assets[i]];
      }
    }
    assert assets[..|assets|] == assets;
  }

  /** Nothing but the objects of the assets was added to the store. */
  ghost predicate AddsOnly(c: Suite, before: Objects, after: Objects, assets: seq<PortableAsset>) {
    forall d :: d in after ==> d in before || exists a :: a in assets && d == c.h(a.capsule)
  }

  lemma AddsNothing(c: Suite, objects: Objects, assets: seq<PortableAsset>)
    ensures AddsOnly(c, objects, objects, assets)
  {
  }

  /** The asset is stored under the digest of its capsule. */
  predicate Stored(c: Suite, objects: Objects, a: PortableAsset) {
    a.digest == c.h(a.capsule) && Fetch(c, objects, a.digest) == Ok(a.capsule)
  }

  lemma StaysStored(c: Suite, before: Objects, after: Objects, a: PortableAsset)
    requires Stored(c, before, a) && Grows(before, after)
    ensures Stored(c, after, a)
  {
  }

  method StoreAsset(store: SovereignObjectStore, a: PortableAsset, ghost assets: seq<PortableAsset>) returns (r: Result<(), PortabilityError>)
    requires store.suite.Lawful() && ValidStore(store.suite, store.objects) && a in assets
    modifies store
    ensures ValidStore(store.suite, store.objects) && Grows(old(store.objects), store.objects)
    ensures store.objects.Keys <= old(store.objects).Keys + {store.suite.h(a.capsule)}
    ensures r.Ok? ==> Stored(store.suite, store.objects, a)
    ensures r.Err? ==> Explains(store.suite, r.error, assets, store.objects)
  {
    ghost var objects := store.objects;
    InsertKeepsStore(store.suite, objects, a.capsule);
    var digest := store.Insert(a.capsule);
    if digest.Err? {
      InsertFails(store.suite, objects, a, assets);
      return Err(digest.error);
    }
    if digest.value != a.digest { return Err(IntegrityMismatch); }
    r := Ok(());
  }

  lemma InsertFails(c: Suite, objects: Objects, a: PortableAsset, assets: seq<PortableAsset>)
    requires c.Lawful() && ValidStore(c, objects) && a in assets && AfterInsert(c, objects, a.capsule).0.Err?
    ensures Explains(c, AfterInsert(c, objects, a.capsule).0.error, assets, objects)
  {
    var d := c.h(a.capsule);
    if d in objects {
      assert objects[d].digest == d && Sound(c, objects[d]);
    } else {
      assert c.seal(c.objectNonce(d), c.objectData(d, |a.capsule|), a.capsule).None?;
    }
  }

  method StoreAssets(store: SovereignObjectStore, selected: seq<PortableAsset>) returns (r: Result<seq<ManifestAsset>, PortabilityError>)
    requires store.suite.Lawful() && ValidStore(store.suite, store.objects)
    modifies store
    ensures ValidStore(store.suite, store.objects) && Grows(old(store.objects), store.objects)
    ensures r.Ok? ==> r.value == EntriesFor(selected) && DistinctWho(selected) && forall a :: a in selected ==> Stored(store.suite, store.objects, a)
    ensures r.Err? ==> Explains(store.suite, r.error, selected, store.objects)
    ensures AddsOnly(store.suite, old(store.objects), store.objects, selected)
  {
    hide Stored, ValidStore;
    var c := store.suite;
    var seen: set<Identity> := {};
    var entries := [];
    for i := 0 to |selected|
      invariant ValidStore(c, store.objects) && Grows(old(store.objects), store.objects)
      invariant AddsOnly(c, old(store.objects), store.objects, selected)
      invariant entries == EntriesFor(selected[..i]) && DistinctWho(selected[..i])
      invariant seen == set k | 0 <= k < i :: selected[k].who
      invariant forall k :: 0 <= k < i ==> Stored(c, store.objects, selected[k])
    {
      var a := selected[i];
      if a.who in seen { return Err(DuplicateAsset); }
      seen := seen + {a.who};
      ghost var before := store.objects;
      var stored := StoreAsset(store, a, selected);
      if stored.Err? { return Err(stored.error); }
      forall k | 0 <= k < i
        ensures Stored(c, store.objects, selected[k])
      {
        StaysStored(c, before, store.objects, selected[k]);
      }
      assert selected[..i + 1] == selected[..i] + [a];
      entries := entries + [ManifestAsset(a.who, |a.capsule|, a.digest)];
    }
    assert selected[..|selected|] == selected;
    r := Ok(entries);
  }

  method PushTitle(out: Buffer, magic: Bytes, kind: BackupKind, id: BackupId)
    modifies out
    ensures forall t :: out.bytes + t == old(out.bytes) + PutTitle(magic, BACKUP_MINOR, kind, id, t)
  {
    hide PutU8, PutU16, PutRaw;
    out.PushRaw(magic);
    out.PushU16(BACKUP_MAJOR);
    out.PushU16(BACKUP_MINOR);
    out.PushU8(KindByte(kind));
    out.PushU8(0);
    out.PushRaw(id);
  }

  method PushAsset(out: Buffer, m: ManifestAsset) returns (ok: bool)
    modifies out
    ensures ok <==> |m.who.id| <= U32_MAX
    ensures ok ==> forall t :: out.bytes + t == old(out.bytes) + PutAsset(m, t)
  {
    hide PutU8, PutU32, PutU64, PutRaw, PutBytes;
    out.PushU8(ClassTag(m.who.class_));
    out.PushU32(m.who.version);
    ok := out.PushBytes(m.who.id);
    if !ok { return; }
    out.PushU64(m.logicalLen);
    out.PushRaw(m.digest);
  }

  method EncodeManifest(kind: BackupKind, id: BackupId, entries: seq<ManifestAsset>) returns (manifest: Option<Bytes>)
    ensures manifest.Some? <==> |entries| <= U32_MAX && forall i :: 0 <= i < |entries| ==> |entries[i].who.id| <= U32_MAX
    ensures manifest.Some? ==> manifest.value == ManifestText(kind, id, entries)
  {
    hide PutTitle, PutU32, PutMany;
    if |entries| > U32_MAX { return None; }
    var out := new Buffer();
    PushTitle(out, MANIFEST_MAGIC, kind, id);
    out.PushU32(|entries|);
    var ok := PushAssets(out, entries);
    if !ok { return None; }
    ghost var expected := ManifestText(kind, id, entries);
    assert out.bytes == out.bytes + [] == [] + expected == expected;
    manifest := Some(out.bytes);
  }

  method PushAssets(out: Buffer, entries: seq<ManifestAsset>) returns (ok: bool)
    modifies out
    ensures ok <==> forall i :: 0 <= i < |entries| ==> |entries[i].who.id| <= U32_MAX
    ensures ok ==> forall t :: out.bytes + t == old(out.bytes) + PutMany(PutAsset, entries, t)
  {
    hide PutAsset;
    for i := 0 to |entries|
      invariant forall k :: 0 <= k < i ==> |entries[k].who.id| <= U32_MAX
      invariant forall t :: old(out.bytes) + PutFrom(PutAsset, entries, 0, t) == out.bytes + PutFrom(PutAsset, entries, i, t)
    {
      var fits := PushAsset(out, entries[i]);
      if !fits { return false; }
    }
    ok := true;
  }

  /** One record for each digest of the entries, by ascending digest. */
  method CollectRecords(store: SovereignObjectStore, entries: seq<ManifestAsset>) returns (records: seq<EncryptedObject>)
    requires ValidStore(store.suite, store.objects) && forall m :: m in entries ==> m.digest in store.objects
    ensures |records| <= |entries| && AscendingObjects(records)
    ensures forall i :: 0 <= i < |records| ==> records[i].digest in store.objects && store.objects[records[i].digest] == records[i]
    ensures forall k :: 0 <= k < |entries| ==> HasRecord(entries[k].digest, records)
    ensures forall i :: 0 <= i < |records| ==> Wanted(records[i].digest, entries)
  {
    hide Less;
    var digests := [];
    for i := 0 to |entries|
      invariant |digests| == i && forall k :: 0 <= k < i ==> digests[k] == entries[k].digest
    {
      digests := digests + [entries[i].digest];
    }
    var sorted := SortDigests(digests);
    var unique := Dedup(sorted);
    records := [];
    for i := 0 to |unique|
      invariant |records| == i && forall k :: 0 <= k < i ==> unique[k] in store.objects && records[k] == store.objects[unique[k]] && records[k].digest == unique[k]
    {
      assert unique[i] in digests;
      var record := store.Record(unique[i]);
      records := records + [record.value];
    }
    forall k | 0 <= k < |entries|
      ensures HasRecord(entries[k].digest, records)
    {
      assert digests[k] in unique;
      var i :| 0 <= i < |unique| && unique[i] == digests[k];
      assert records[i].digest == entries[k].digest;
    }
    forall i | 0 <= i < |records|
      ensures Wanted(records[i].digest, entries)
    {
      assert unique[i] in digests;
      var k :| 0 <= k < |digests| && digests[k] == unique[i];
      assert entries[k].digest == records[i].digest;
    }
  }

  lemma SameMembers(a: seq<PortableAsset>, b: seq<PortableAsset>)
    requires multiset(a) == multiset(b)
    ensures |a| == |b| && forall x :: x in a <==> x in b
  {
    assert |multiset(a)| == |a| && |multiset(b)| == |b|;
    forall x
      ensures x in a <==> x in b
    {
      assert x in a <==> x in multiset(a);
      assert x in b <==> x in multiset(b);
    }
  }

  /**
   Makes the backup of exactly the selected assets, in manifest order, or says why not. The
   store keeps its invariant and loses nothing either way.
   */
  method Create(data: ManifestData, kind: BackupKind, id: BackupId, nonce: Nonce, assets: seq<PortableAsset>, store: SovereignObjectStore)
    returns (r: Result<PortableBackup, PortabilityError>, ghost ordered: seq<PortableAsset>)
    requires store.suite.Lawful() && ValidStore(store.suite, store.objects)
    modifies store
    ensures ValidStore(store.suite, store.objects) && Grows(old(store.objects), store.objects)
    ensures r.Ok? ==>
      && r.value.kind == kind && r.value.id == id && r.value.nonce == nonce
      && multiset(ordered) == multiset(Selected(kind, assets))
      && BacksUp(store.suite, data, r.value, ordered, store.objects) && |r.value.objects| <= U32_MAX
    ensures r.Err? ==>
      || Explains(store.suite, r.error, Selected(kind, assets), store.objects)
      || (r.error == CryptoFailure && multiset(ordered) == multiset(Selected(kind, assets))
          && AscendingWho(ordered) && ManifestSealFails(store.suite, data, kind, id, nonce, ordered))
    ensures AddsOnly(store.suite, old(store.objects), store.objects, Selected(kind, assets))
  {
    hide Stored, ValidStore, ManifestText, Selected, AscendingWho, DistinctWho, AscendingObjects, Fetch, Wanted, HasRecord, EntriesFor,
         AddsOnly, ManifestSealFails, ObjectSealFails, Collision;
    ordered := [];
    var c := store.suite;
    AddsNothing(c, store.objects, Selected(kind, assets));
    var selected := Select(kind, assets);
    if selected == [] { return Err(EmptyBackup), ordered; }
    var entries := StoreAssets(store, selected);
    if entries.Err? { return Err(entries.error), ordered; }
    var sorted;
    sorted, ordered := SortEntries(entries.value, selected);
    SameMembers(ordered, selected);
    AllFetched(c, store.objects, ordered);
    r := SealBackup(data, kind, id, nonce, sorted, ordered, store);
    if r.Err? && r.error == Overflow {
      TooLong(selected, ordered, sorted);
    }
  }

  /** Manifest and records for entries whose objects are all in the store. */
  method SealBackup(data: ManifestData, kind: BackupKind, id: BackupId, nonce: Nonce, entries: seq<ManifestAsset>, ghost ordered: seq<PortableAsset>, store: SovereignObjectStore)
    returns (r: Result<PortableBackup, PortabilityError>)
    requires ValidStore(store.suite, store.objects) && entries == EntriesFor(ordered) && 0 < |ordered| && AscendingWho(ordered)
    requires forall a :: a in ordered ==> Fetch(store.suite, store.objects, a.digest) == Ok(a.capsule)
    requires forall m :: m in entries ==> m.digest in store.objects
    ensures r.Ok? ==> r.value.kind == kind && r.value.id == id && r.value.nonce == nonce && |r.value.objects| <= U32_MAX
    ensures r.Ok? ==> BacksUp(store.suite, data, r.value, ordered, store.objects)
    ensures r.Err? ==> r.error in {Overflow, CryptoFailure}
    ensures r == Err(Overflow) ==> !(|entries| <= U32_MAX && forall i :: 0 <= i < |entries| ==> |entries[i].who.id| <= U32_MAX)
    ensures r == Err(CryptoFailure) ==> ManifestSealFails(store.suite, data, kind, id, nonce, ordered)
  {
    hide ValidStore, ManifestText, AscendingWho, AscendingObjects, Fetch, Wanted, HasRecord;
    var manifest := EncodeManifest(kind, id, entries);
    if manifest.None? { return Err(Overflow); }
    var sealed := store.suite.Seal(nonce, data(kind, id), manifest.value);
    if sealed.Err? { return Err(CryptoFailure); }
    assert forall i :: 0 <= i < |ordered| ==> entries[i].who == ordered[i].who && entries[i].digest == ordered[i].digest;
    var records := [];
    if kind != ThinBackup {
      records := CollectRecords(store, entries);
    }
    r := Ok(PortableBackup(id, kind, nonce, sealed.value, records));
  }

  lemma TooLong(selected: seq<PortableAsset>, ordered: seq<PortableAsset>, sorted: seq<ManifestAsset>)
    requires |ordered| == |selected| && (forall a :: a in ordered <==> a in selected) && sorted == EntriesFor(ordered)
    requires !(|sorted| <= U32_MAX && forall i :: 0 <= i < |sorted| ==> |sorted[i].who.id| <= U32_MAX)
    ensures |selected| > U32_MAX || exists a :: a in selected && |a.who.id| > U32_MAX
  {
    if |sorted| <= U32_MAX {
      var i :| 0 <= i < |sorted| && |sorted[i].who.id| > U32_MAX;
      assert ordered[i] in ordered;
    }
  }

  lemma AllFetched(c: Suite, objects: Objects, ordered: seq<PortableAsset>)
    requires forall a :: a in ordered ==> Stored(c, objects, a)
    ensures forall a :: a in ordered ==> Fetch(c, objects, a.digest) == Ok(a.capsule) && a.digest in objects
    ensures forall m :: m in EntriesFor(ordered) ==> m.digest in objects
  {
    forall m | m in EntriesFor(ordered)
      ensures m.digest in objects
    {
      var i :| 0 <= i < |ordered| && EntriesFor(ordered)[i] == m;
      assert Stored(c, objects, ordered[i]);
    }
  }
}
