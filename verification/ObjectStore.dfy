/**
 The encrypted content-addressed store. Cipher, key, nonces and associated data are one
 suite of functions, of which only the law of authenticated encryption is used: what was
 sealed opens to itself.
 */
module ObjectStore {
  import opened Wrappers
  import opened Bytes
  import opened Capsule

  datatype PortabilityError =
    | InvalidAsset
    | InvalidCapsule(error: CapsuleError)
    | InvalidBackup
    | CryptoFailure
    | IntegrityMismatch
    | MissingObject(digest: Digest)
    | DuplicateAsset
    | EmptyBackup
    | Overflow

  type Nonce = b: Bytes | |b| == 24 witness Zeros(24)

  /** Encryption under one key: `seal` and `open` take nonce, associated data and text. */
  datatype Suite = Suite(
    h: HashFn,
    seal: (Nonce, Bytes, Bytes) -> Option<Vec<byte>>,
    open: (Nonce, Bytes, Bytes) -> Option<Vec<byte>>,
    objectNonce: Digest -> Nonce,
    objectData: (Digest, u64) -> Bytes
  ) {
    /** A sealed text is 16 bytes longer than the plain one, and opens to it. */
    ghost predicate Lawful() {
      forall n, a, p :: seal(n, a, p).Some? ==>
        open(n, a, seal(n, a, p).value) == Some(p) && |seal(n, a, p).value| == |p| + 16
    }

    function Seal(n: Nonce, a: Bytes, p: Bytes): Result<Vec<byte>, PortabilityError> {
      match seal(n, a, p)
      case Some(c) => Ok(c)
      case None => Err(CryptoFailure)
    }

    function Open(n: Nonce, a: Bytes, c: Bytes): Result<Vec<byte>, PortabilityError> {
      match open(n, a, c)
      case Some(p) => Ok(p)
      case None => Err(CryptoFailure)
    }
  }

  datatype EncryptedObject = EncryptedObject(digest: Digest, logicalLen: u64, ciphertext: Vec<byte>)

  type Objects = map<Digest, EncryptedObject>

  function Decrypt(c: Suite, o: EncryptedObject): Result<Vec<byte>, PortabilityError> {
    var plaintext :- c.Open(c.objectNonce(o.digest), c.objectData(o.digest, o.logicalLen), o.ciphertext);
    if c.h(plaintext) != o.digest then Err(IntegrityMismatch) else Ok(plaintext)
  }

  function Fetch(c: Suite, objects: Objects, digest: Digest): Result<Vec<byte>, PortabilityError> {
    if digest !in objects then Err(MissingObject(digest)) else Decrypt(c, objects[digest])
  }

  function RecordOf(objects: Objects, digest: Digest): Result<EncryptedObject, PortabilityError> {
    if digest !in objects then Err(MissingObject(digest)) else Ok(objects[digest])
  }

  function AfterInsert(c: Suite, objects: Objects, bytes: Vec<byte>): (Result<Digest, PortabilityError>, Objects) {
    var digest := c.h(bytes);
    if digest in objects then
      match Fetch(c, objects, digest)
      case Err(e) => (Err(e), objects)
      case Ok(restored) => (if restored != bytes then Err(IntegrityMismatch) else Ok(digest), objects)
    else
      match c.Seal(c.objectNonce(digest), c.objectData(digest, |bytes|), bytes)
      case Err(e) => (Err(e), objects)
      case Ok(ciphertext) => (Ok(digest), objects[digest := EncryptedObject(digest, |bytes|, ciphertext)])
  }

  function AfterImport(c: Suite, objects: Objects, o: EncryptedObject): Result<Objects, PortabilityError> {
    var plaintext :- Decrypt(c, o);
    if c.h(plaintext) != o.digest || |plaintext| != o.logicalLen then Err(IntegrityMismatch)
    else if o.digest in objects then
      var existing :- Decrypt(c, objects[o.digest]);
      if existing != plaintext then Err(IntegrityMismatch) else Ok(objects)
    else Ok(objects[o.digest := o])
  }

  /******* The invariant of content addressing *******/

  /** The record opens to a text of the recorded length whose hash is the recorded digest. */
  predicate Sound(c: Suite, o: EncryptedObject) {
    Decrypt(c, o).Ok? && |Decrypt(c, o).value| == o.logicalLen
  }

  ghost predicate ValidStore(c: Suite, objects: Objects) {
    forall d :: d in objects ==> objects[d].digest == d && Sound(c, objects[d])
  }

  /** `t` holds what `s` holds, and maybe more. */
  ghost predicate Grows(s: Objects, t: Objects) {
    forall d :: d in s ==> d in t && t[d] == s[d]
  }

  /** Inserting keeps the invariant; on success the bytes are there under their digest, and nothing else changed. */
  lemma InsertKeepsStore(c: Suite, objects: Objects, bytes: Vec<byte>)
    requires c.Lawful() && ValidStore(c, objects)
    ensures var (r, after) := AfterInsert(c, objects, bytes);
            && ValidStore(c, after) && Grows(objects, after) && after.Keys <= objects.Keys + {c.h(bytes)}
            && (r.Ok? ==> r.value == c.h(bytes) && Fetch(c, after, r.value) == Ok(bytes))
            && (r.Err? ==> after == objects)
  {
  }

  /** An import succeeds on exactly the sound records that do not contradict a stored one. */
  lemma ImportExactly(c: Suite, objects: Objects, o: EncryptedObject)
    requires ValidStore(c, objects)
    ensures AfterImport(c, objects, o).Ok? <==> Sound(c, o) && (o.digest in objects ==> Decrypt(c, objects[o.digest]) == Decrypt(c, o))
    ensures AfterImport(c, objects, o).Ok? ==>
              var after := AfterImport(c, objects, o).value;
              && ValidStore(c, after) && Grows(objects, after) && after.Keys == objects.Keys + {o.digest}
              && Fetch(c, after, o.digest) == Decrypt(c, o)
  {
  }

  class SovereignObjectStore {
    const suite: Suite
    var objects: Objects

    constructor (suite: Suite)
      ensures this.suite == suite && objects == map[] && ValidStore(suite, objects)
    {
      this.suite, objects := suite, map[];
    }

    method Insert(bytes: Vec<byte>) returns (r: Result<Digest, PortabilityError>)
      modifies this
      ensures (r, objects) == AfterInsert(suite, old(objects), bytes)
    {
      var digest := suite.h(bytes);
      if digest in objects {
        var restored := Get(digest);
        if restored.Err? { return Err(restored.error); }
        if restored.value != bytes { return Err(IntegrityMismatch); }
        return Ok(digest);
      }
      var ciphertext := suite.Seal(suite.objectNonce(digest), suite.objectData(digest, |bytes|), bytes);
      if ciphertext.Err? { return Err(ciphertext.error); }
      objects := objects[digest := EncryptedObject(digest, |bytes|, ciphertext.value)];
      r := Ok(digest);
    }

    method Import(o: EncryptedObject) returns (r: Result<(), PortabilityError>)
      modifies this
      ensures match AfterImport(suite, old(objects), o)
              case Ok(after) => r == Ok(()) && objects == after
              case Err(e) => r == Err(e) && objects == old(objects)
    {
      var plaintext := DecryptRecord(o);
      if plaintext.Err? { return Err(plaintext.error); }
      if suite.h(plaintext.value) != o.digest || |plaintext.value| != o.logicalLen { return Err(IntegrityMismatch); }
      if o.digest in objects {
        var existing := DecryptRecord(objects[o.digest]);
        if existing.Err? { return Err(existing.error); }
        if existing.value != plaintext.value { return Err(IntegrityMismatch); }
        return Ok(());
      }
      objects := objects[o.digest := o];
      r := Ok(());
    }

    method Get(digest: Digest) returns (r: Result<Vec<byte>, PortabilityError>)
      ensures r == Fetch(suite, objects, digest)
    {
      if digest !in objects { return Err(MissingObject(digest)); }
      r := DecryptRecord(objects[digest]);
    }

    method Record(digest: Digest) returns (r: Result<EncryptedObject, PortabilityError>)
      ensures r == RecordOf(objects, digest)
    {
      if digest !in objects { return Err(MissingObject(digest)); }
      r := Ok(objects[digest]);
    }

    method DecryptRecord(o: EncryptedObject) returns (r: Result<Vec<byte>, PortabilityError>)
      ensures r == Decrypt(suite, o)
    {
      var plaintext := suite.Open(suite.objectNonce(o.digest), suite.objectData(o.digest, o.logicalLen), o.ciphertext);
      if plaintext.Err? { return Err(plaintext.error); }
      if suite.h(plaintext.value) != o.digest { return Err(IntegrityMismatch); }
      r := plaintext;
    }
  }
}
