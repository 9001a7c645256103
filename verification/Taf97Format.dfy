/**
 The TAF97 checkpoint format of the action fabric: what is written for each value, and what
 a reader makes of given bytes, error by error.
 */
module Taf97Format {
  import opened Wrappers
  import opened Bytes
  import opened Ordering
  import opened Actions
  import opened FabricModel

  const MAGIC: Bytes := [0x54, 0x41, 0x46, 0x39, 0x37, 0x00]
  const MAJOR := 0
  const MINOR := 4
  const HEADER_LEN := 24

  datatype Error =
    | Truncated
    | InvalidMagic
    | InvalidHeader
    | UnsupportedVersion(major: u16, minor: u16)
    | InvalidUtf8
    | InvalidBoolean(raw: u8)
    | InvalidActionTag(raw: u8)
    | InvalidValueTag(raw: u8)
    | InvalidSideEffect(raw: u8)
    | InvalidActionStatus(raw: u8)
    | InvalidPlanStatus(raw: u8)
    | NonCanonicalEncoding
    | TooLong
    | Rejected

  /** What a reader returns: a value and the unread bytes. */
  type Read<T> = Result<(T, Bytes), Error>

  /******* Text, byte strings and options *******/

  predicate Fits(b: Bytes) {
    |b| <= U32_MAX
  }

  function GetText(s: Bytes): (r: Read<Str>)
    ensures r.Ok? ==> Fits(r.value.0) && s == PutBytes(r.value.0, r.value.1)
    ensures forall b: Str, t {:trigger PutBytes(b, t)} :: Fits(b) && s == PutBytes(b, t) ==> r == Ok((b, t))
  {
    GetString(s, Truncated, InvalidUtf8)
  }

  function GetBlob(s: Bytes): (r: Read<Bytes>)
    ensures r.Ok? ==> Fits(r.value.0) && s == PutBytes(r.value.0, r.value.1)
    ensures forall b, t {:trigger PutBytes(b, t)} :: Fits(b) && s == PutBytes(b, t) ==> r == Ok((b, t))
  {
    GetBytes(s, Truncated)
  }

  predicate FitsOption(o: Option<Bytes>) {
    o.Some? ==> Fits(o.value)
  }

  function PutOption(o: Option<Bytes>, t: Bytes): Bytes {
    match o
    case None => PutU8(0, t)
    case Some(b) => PutU8(1, PutBytes(b, t))
  }

  function GetOptionalText(s: Bytes): (r: Read<Option<Str>>)
    ensures r.Ok? ==> FitsOption(r.value.0) && s == PutOption(r.value.0, r.value.1)
    ensures forall o: Option<Str>, t {:trigger PutOption(o, t)} :: FitsOption(o) && s == PutOption(o, t) ==> r == Ok((o, t))
  {
    var (tag, s1) :- GetU8(s, Truncated);
    if tag == 0 then Ok((None, s1))
    else if tag == 1 then
      var (b, s2) :- GetText(s1);
      Ok((Some(b), s2))
    else Err(InvalidBoolean(tag))
  }

  function GetOptionalBlob(s: Bytes): (r: Read<Option<Bytes>>)
    ensures r.Ok? ==> FitsOption(r.value.0) && s == PutOption(r.value.0, r.value.1)
    ensures forall o: Option<Bytes>, t {:trigger PutOption(o, t)} :: FitsOption(o) && s == PutOption(o, t) ==> r == Ok((o, t))
  {
    var (tag, s1) :- GetU8(s, Truncated);
    if tag == 0 then Ok((None, s1))
    else if tag == 1 then
      var (b, s2) :- GetBlob(s1);
      Ok((Some(b), s2))
    else Err(InvalidBoolean(tag))
  }

  function PutBool(b: bool, t: Bytes): Bytes {
    PutU8(if b then 1 else 0, t)
  }

  function GetBool(s: Bytes): (r: Read<bool>)
    ensures r.Ok? ==> s == PutBool(r.value.0, r.value.1)
    ensures forall b, t {:trigger PutBool(b, t)} :: s == PutBool(b, t) ==> r == Ok((b, t))
  {
    var (raw, s1) :- GetU8(s, Truncated);
    if raw == 0 then Ok((false, s1))
    else if raw == 1 then Ok((true, s1))
    else Err(InvalidBoolean(raw))
  }

  /******* Lists of text *******/

  predicate FitsText(x: Str) {
    Fits(x)
  }

  predicate FitsAll(xs: seq<Str>) {
    |xs| <= U32_MAX && All(FitsText, xs)
  }

  function PutText(x: Str, t: Bytes): Bytes {
    PutBytes(x, t)
  }

  function PutTexts(xs: seq<Str>, t: Bytes): Bytes {
    PutU32(|xs|, PutMany(PutText, xs, t))
  }

  function GetTexts(s: Bytes): Read<seq<Str>> {
    var (n, s1) :- GetU32(s, Truncated);
    GetMany(GetText, n, s1)
  }

  lemma TextsReadBack(xs: seq<Str>, t: Bytes)
    requires FitsAll(xs)
    ensures GetTexts(PutTexts(xs, t)) == Ok((xs, t))
  {
    assert ReadsBack(GetText, PutText, FitsText) by {
      forall x: Str, u | FitsText(x)
        ensures GetText(PutText(x, u)) == Ok((x, u))
      {
      }
    }
    ManyReadBack(GetText, PutText, FitsText, xs, t);
  }

  lemma TextsReadOnly(s: Bytes)
    requires GetTexts(s).Ok?
    ensures var (xs, t) := GetTexts(s).value;
            FitsAll(xs) && s == PutTexts(xs, t)
  {
    assert ReadsOnly(GetText, PutText, FitsText);
    var (n, s1) := GetU32(s, Truncated).value;
    ManyReadOnly(GetText, PutText, FitsText, n, s1);
  }

  /******* Ordered fields *******/

  predicate FitsEntry(e: Field) {
    Fits(e.key) && Fits(e.text)
  }

  predicate FitsEntries(e: seq<Field>) {
    |e| <= U32_MAX && All(FitsEntry, e)
  }

  function PutEntry(e: Field, t: Bytes): Bytes {
    PutBytes(e.key, PutBytes(e.text, t))
  }

  function PutFields(e: seq<Field>, t: Bytes): Bytes {
    PutU32(|e|, PutMany(PutEntry, e, t))
  }

  /** `n` more entries after those in `done`; keys must ascend. */
  function GetEntries(n: nat, done: seq<Field>, s: Bytes): Read<seq<Field>>
    decreases n
  {
    if n == 0 then Ok((done, s))
    else
      var (key, s1) :- GetText(s);
      if |done| > 0 && !Less(done[|done| - 1].key, key) then Err(NonCanonicalEncoding)
      else
        var (text, s2) :- GetText(s1);
        GetEntries(n - 1, done + [Field(key, text)], s2)
  }

  lemma AscendingSnoc(done: seq<Field>, e: Field)
    requires Ascending(done) && (|done| > 0 ==> Less(done[|done| - 1].key, e.key))
    ensures Ascending(done + [e])
  {
    var longer := done + [e];
    forall i, j | 0 <= i < j < |longer|
      ensures Less(longer[i].key, longer[j].key)
    {
      if j == |done| && i < |done| - 1 {
        LessTransitive(done[i].key, done[|done| - 1].key, e.key);
      }
    }
  }

  lemma LastBefore(e: seq<Field>, i: nat)
    requires Ascending(e) && i < |e|
    ensures i > 0 ==> Less(e[..i][i - 1].key, e[i].key)
  {
  }

  lemma {:induction false} EntriesReadBack(e: seq<Field>, i: nat, t: Bytes)
    requires FitsEntries(e) && Ascending(e) && i <= |e|
    ensures GetEntries(|e| - i, e[..i], PutFrom(PutEntry, e, i, t)) == Ok((e, t))
    decreases |e| - i
  {
    hide GetText, PutBytes;
    if i < |e| {
      LastBefore(e, i);
      TakeOneMore(e, i);
      assert FitsEntry(e[i]);
      EntriesReadBack(e, i + 1, t);
    } else {
      TakeAll(e);
    }
  }

  lemma {:induction false} EntriesReadOnly(n: nat, done: seq<Field>, s: Bytes)
    requires GetEntries(n, done, s).Ok? && Ascending(done) && All(FitsEntry, done)
    ensures var (e, t) := GetEntries(n, done, s).value;
            && |e| == |done| + n && e[..|done|] == done && Ascending(e) && All(FitsEntry, e)
            && s == PutFrom(PutEntry, e, |done|, t)
    decreases n
  {
    hide GetText, PutBytes;
    if n > 0 {
      var (key, s1) := GetText(s).value;
      var (text, s2) := GetText(s1).value;
      AscendingSnoc(done, Field(key, text));
      EntriesReadOnly(n - 1, done + [Field(key, text)], s2);
      Extends(GetEntries(n, done, s).value.0, done, Field(key, text));
    } else {
      TakeAll(done);
    }
  }

  function GetFields(s: Bytes): Read<Entries> {
    var (n, s1) :- GetU32(s, Truncated);
    assert GetEntries(n, [], s1).Ok? ==> Ascending(GetEntries(n, [], s1).value.0) by {
      if GetEntries(n, [], s1).Ok? {
        EntriesReadOnly(n, [], s1);
      }
    }
    var (e, s2) :- GetEntries(n, [], s1);
    Ok((e, s2))
  }

  lemma FieldsReadBack(e: Entries, t: Bytes)
    requires FitsEntries(e)
    ensures GetFields(PutFields(e, t)) == Ok((e, t))
  {
    assert e[..0] == [];
    EntriesReadBack(e, 0, t);
  }

  lemma FieldsReadOnly(s: Bytes)
    requires GetFields(s).Ok?
    ensures var (e, t) := GetFields(s).value;
            FitsEntries(e) && s == PutFields(e, t)
  {
    var (n, s1) := GetU32(s, Truncated).value;
    EntriesReadOnly(n, [], s1);
  }

  /******* Outputs *******/

  predicate FitsValue(v: ActionValue) {
    match v
    case Nothing => true
    case Text(text) => Fits(text)
    case Blob(blob) => Fits(blob)
    case TextList(texts) => FitsAll(texts)
    case Fields(fields) => FitsEntries(fields)
  }

  function PutValue(v: ActionValue, t: Bytes): Bytes {
    match v
    case Nothing => PutU8(0, t)
    case Text(text) => PutU8(1, PutBytes(text, t))
    case Blob(blob) => PutU8(2, PutBytes(blob, t))
    case TextList(texts) => PutU8(3, PutTexts(texts, t))
    case Fields(fields) => PutU8(4, PutFields(fields, t))
  }

  function GetValue(s: Bytes): Read<ActionValue> {
    var (tag, s1) :- GetU8(s, Truncated);
    if tag == 0 then Ok((Nothing, s1))
    else if tag == 1 then
      var (text, s2) :- GetText(s1);
      Ok((Text(text), s2))
    else if tag == 2 then
      var (blob, s2) :- GetBlob(s1);
      Ok((Blob(blob), s2))
    else if tag == 3 then
      var (texts, s2) :- GetTexts(s1);
      Ok((TextList(texts), s2))
    else if tag == 4 then
      var (fields, s2) :- GetFields(s1);
      Ok((Fields(fields), s2))
    else Err(InvalidValueTag(tag))
  }

  lemma ValueReadBack(v: ActionValue, t: Bytes)
    requires FitsValue(v)
    ensures GetValue(PutValue(v, t)) == Ok((v, t))
  {
    hide PutU8, GetU8, PutBytes, GetText, GetBlob, PutTexts, GetTexts, PutFields, GetFields;
    if v.TextList? {
      TextsReadBack(v.texts, t);
    } else if v.Fields? {
      FieldsReadBack(v.fields, t);
    }
  }

  lemma ValueReadOnly(s: Bytes)
    requires GetValue(s).Ok?
    ensures var (v, t) := GetValue(s).value;
            FitsValue(v) && s == PutValue(v, t)
  {
    hide PutU8, GetU8, PutBytes, GetText, GetBlob, PutTexts, GetTexts, PutFields, GetFields;
    var (tag, s1) := GetU8(s, Truncated).value;
    if tag == 3 {
      TextsReadOnly(s1);
    } else if tag == 4 {
      FieldsReadOnly(s1);
    }
  }

  predicate FitsOutput(o: Option<ActionOutput>) {
    o.Some? ==> Fits(o.value.summary) && FitsValue(o.value.value) && FitsAll(o.value.evidence)
  }

  function PutOutput(o: Option<ActionOutput>, t: Bytes): Bytes {
    match o
    case None => PutU8(0, t)
    case Some(output) => PutU8(1, PutBytes(output.summary, PutValue(output.value, PutTexts(output.evidence, t))))
  }

  function GetOutput(s: Bytes): Read<Option<ActionOutput>> {
    var (tag, s1) :- GetU8(s, Truncated);
    if tag == 0 then Ok((None, s1))
    else if tag == 1 then
      var (summary, s2) :- GetText(s1);
      var (value, s3) :- GetValue(s2);
      var (evidence, s4) :- GetTexts(s3);
      Ok((Some(ActionOutput(summary, value, evidence)), s4))
    else Err(InvalidBoolean(tag))
  }

  lemma OutputReadBack(o: Option<ActionOutput>, t: Bytes)
    requires FitsOutput(o)
    ensures GetOutput(PutOutput(o, t)) == Ok((o, t))
  {
    hide PutU8, GetU8, PutBytes, GetText, PutTexts, GetTexts, PutValue, GetValue;
    if o.Some? {
      TextsReadBack(o.value.evidence, t);
      ValueReadBack(o.value.value, PutTexts(o.value.evidence, t));
    }
  }

  lemma OutputReadOnly(s: Bytes)
    requires GetOutput(s).Ok?
    ensures var (o, t) := GetOutput(s).value;
            FitsOutput(o) && s == PutOutput(o, t)
  {
    hide PutU8, GetU8, PutBytes, GetText, PutTexts, GetTexts, PutValue, GetValue;
    var (tag, s1) := GetU8(s, Truncated).value;
    if tag == 1 {
      var (summary, s2) := GetText(s1).value;
      ValueReadOnly(s2);
      TextsReadOnly(GetValue(s2).value.1);
    }
  }

  /******* Typed actions *******/

  // Shapes shared by several actions.

  function PutText2(a: Bytes, b: Bytes, t: Bytes): Bytes {
    PutBytes(a, PutBytes(b, t))
  }

  function GetText2(s: Bytes): (r: Read<(Str, Str)>)
    ensures r.Ok? ==> Fits(r.value.0.0) && Fits(r.value.0.1) && s == PutText2(r.value.0.0, r.value.0.1, r.value.1)
    ensures forall a: Str, b: Str, t {:trigger PutText2(a, b, t)} :: Fits(a) && Fits(b) && s == PutText2(a, b, t) ==> r == Ok(((a, b), t))
  {
    var (a, s1) :- GetText(s);
    var (b, s2) :- GetText(s1);
    Ok(((a, b), s2))
  }

  function PutText2Option(a: Bytes, b: Bytes, o: Option<Bytes>, t: Bytes): Bytes {
    PutText2(a, b, PutOption(o, t))
  }

  function GetText2Option(s: Bytes): (r: Read<(Str, Str, Option<Str>)>)
    ensures r.Ok? ==> var (a, b, o) := r.value.0; Fits(a) && Fits(b) && FitsOption(o) && s == PutText2Option(a, b, o, r.value.1)
    ensures forall a: Str, b: Str, o: Option<Str>, t {:trigger PutText2Option(a, b, o, t)} ::
              Fits(a) && Fits(b) && FitsOption(o) && s == PutText2Option(a, b, o, t) ==> r == Ok(((a, b, o), t))
  {
    var (ab, s1) :- GetText2(s);
    var (o, s2) :- GetOptionalText(s1);
    Ok(((ab.0, ab.1, o), s2))
  }

  function PutText2Blob(a: Bytes, b: Bytes, c: Bytes, t: Bytes): Bytes {
    PutText2(a, b, PutBytes(c, t))
  }

  function GetText2Blob(s: Bytes): (r: Read<(Str, Str, Bytes)>)
    ensures r.Ok? ==> var (a, b, c) := r.value.0; Fits(a) && Fits(b) && Fits(c) && s == PutText2Blob(a, b, c, r.value.1)
    ensures forall a: Str, b: Str, c, t {:trigger PutText2Blob(a, b, c, t)} :: Fits(a) && Fits(b) && Fits(c) && s == PutText2Blob(a, b, c, t) ==> r == Ok(((a, b, c), t))
  {
    var (ab, s1) :- GetText2(s);
    var (c, s2) :- GetBlob(s1);
    Ok(((ab.0, ab.1, c), s2))
  }

  function PutTextBlob(a: Bytes, b: Bytes, t: Bytes): Bytes {
    PutBytes(a, PutBytes(b, t))
  }

  function GetTextBlob(s: Bytes): (r: Read<(Str, Bytes)>)
    ensures r.Ok? ==> Fits(r.value.0.0) && Fits(r.value.0.1) && s == PutTextBlob(r.value.0.0, r.value.0.1, r.value.1)
    ensures forall a: Str, b, t {:trigger PutTextBlob(a, b, t)} :: Fits(a) && Fits(b) && s == PutTextBlob(a, b, t) ==> r == Ok(((a, b), t))
  {
    var (a, s1) :- GetText(s);
    var (b, s2) :- GetBlob(s1);
    Ok(((a, b), s2))
  }

  function PutSearch(query: Bytes, maxResults: u16, t: Bytes): Bytes {
    PutBytes(query, PutU16(maxResults, t))
  }

  function GetSearch(s: Bytes): (r: Read<(Str, u16)>)
    ensures r.Ok? ==> Fits(r.value.0.0) && s == PutSearch(r.value.0.0, r.value.0.1, r.value.1)
    ensures forall q: Str, m: u16, t {:trigger PutSearch(q, m, t)} :: Fits(q) && s == PutSearch(q, m, t) ==> r == Ok(((q, m), t))
  {
    var (q, s1) :- GetText(s);
    var (m, s2) :- GetU16(s1, Truncated);
    Ok(((q, m), s2))
  }

  function PutProcess(peer: Str, program: Str, args: seq<Str>, dir: Option<Str>, t: Bytes): Bytes {
    PutText2(peer, program, PutTexts(args, PutOption(dir, t)))
  }

  function GetProcess(s: Bytes): Read<(Str, Str, seq<Str>, Option<Str>)> {
    var (names, s1) :- GetText2(s);
    var (args, s2) :- GetTexts(s1);
    var (dir, s3) :- GetOptionalText(s2);
    Ok(((names.0, names.1, args, dir), s3))
  }

  lemma ProcessReadBack(peer: Str, program: Str, args: seq<Str>, dir: Option<Str>, t: Bytes)
    requires Fits(peer) && Fits(program) && FitsAll(args) && FitsOption(dir)
    ensures GetProcess(PutProcess(peer, program, args, dir, t)) == Ok(((peer, program, args, dir), t))
  {
    hide PutText2, GetText2, PutTexts, GetTexts, PutOption, GetOptionalText;
    TextsReadBack(args, PutOption(dir, t));
  }

  lemma ProcessReadOnly(s: Bytes)
    requires GetProcess(s).Ok?
    ensures var ((peer, program, args, dir), t) := GetProcess(s).value;
            Fits(peer) && Fits(program) && FitsAll(args) && FitsOption(dir) && s == PutProcess(peer, program, args, dir, t)
  {
    hide PutText2, GetText2, PutTexts, GetTexts, PutOption, GetOptionalText;
    TextsReadOnly(GetText2(s).value.1);
  }

  predicate FitsAction(a: TypedAction) {
    match a
    case WebSearch(query, _) => Fits(query)
    case WebFetch(url) => Fits(url)
    case ArtifactDownload(url, path) => Fits(url) && Fits(path)
    case ArtifactUpload(url, path) => Fits(url) && Fits(path)
    case BrowserObserve(target) => Fits(target)
    case BrowserInteract(target, operation, input) => Fits(target) && Fits(operation) && FitsOption(input)
    case FileRead(path) => Fits(path)
    case FileWrite(path, content) => Fits(path) && Fits(content)
    case DeviceObserve(surface) => Fits(surface)
    case DeviceInteract(surface, operation, argument) => Fits(surface) && Fits(operation) && FitsOption(argument)
    case AppAction(app, action, payload) => Fits(app) && Fits(action) && Fits(payload)
    case PcObserve(peer, surface) => Fits(peer) && Fits(surface)
    case PcExecute(peer, program, args, dir) => Fits(peer) && Fits(program) && FitsAll(args) && FitsOption(dir)
    case PcArtifactRead(peer, path) => Fits(peer) && Fits(path)
    case PcArtifactWrite(peer, path, content) => Fits(peer) && Fits(path) && Fits(content)
    case CustomAction(typeName, payload) => Fits(typeName) && Fits(payload)
  }

  function PutAction(a: TypedAction, t: Bytes): Bytes {
    match a
    case WebSearch(query, maxResults) => PutU8(1, PutSearch(query, maxResults, t))
    case WebFetch(url) => PutU8(2, PutBytes(url, t))
    case BrowserObserve(target) => PutU8(3, PutBytes(target, t))
    case BrowserInteract(target, operation, input) => PutU8(4, PutText2Option(target, operation, input, t))
    case FileRead(path) => PutU8(5, PutBytes(path, t))
    case FileWrite(path, content) => PutU8(6, PutTextBlob(path, content, t))
    case DeviceObserve(surface) => PutU8(7, PutBytes(surface, t))
    case DeviceInteract(surface, operation, argument) => PutU8(8, PutText2Option(surface, operation, argument, t))
    case AppAction(app, action, payload) => PutU8(9, PutText2Blob(app, action, payload, t))
    case CustomAction(typeName, payload) => PutU8(10, PutTextBlob(typeName, payload, t))
    case PcObserve(peer, surface) => PutU8(11, PutText2(peer, surface, t))
    case PcExecute(peer, program, args, dir) => PutU8(12, PutProcess(peer, program, args, dir, t))
    case PcArtifactRead(peer, path) => PutU8(13, PutText2(peer, path, t))
    case PcArtifactWrite(peer, path, content) => PutU8(14, PutText2Blob(peer, path, content, t))
    case ArtifactDownload(url, path) => PutU8(15, PutText2(url, path, t))
    case ArtifactUpload(url, path) => PutU8(16, PutText2(url, path, t))
  }

  function GetTextAction(tag: u8, s: Bytes): Read<TypedAction>
    requires tag in {2, 3, 5, 7}
  {
    var (x, s1) :- GetText(s);
    Ok((if tag == 2 then WebFetch(x) else if tag == 3 then BrowserObserve(x)
        else if tag == 5 then FileRead(x) else DeviceObserve(x), s1))
  }

  function GetText2Action(tag: u8, s: Bytes): Read<TypedAction>
    requires tag in {11, 13, 15, 16}
  {
    var (x, s1) :- GetText2(s);
    Ok((if tag == 11 then PcObserve(x.0, x.1) else if tag == 13 then PcArtifactRead(x.0, x.1)
        else if tag == 15 then ArtifactDownload(x.0, x.1) else ArtifactUpload(x.0, x.1), s1))
  }

  function GetPayloadAction(tag: u8, s: Bytes): Read<TypedAction>
    requires tag in {6, 9, 10, 14}
  {
    if tag == 6 || tag == 10 then
      var (x, s1) :- GetTextBlob(s);
      Ok((if tag == 6 then FileWrite(x.0, x.1) else CustomAction(x.0, x.1), s1))
    else
      var (x, s1) :- GetText2Blob(s);
      Ok((if tag == 9 then AppAction(x.0, x.1, x.2) else PcArtifactWrite(x.0, x.1, x.2), s1))
  }

  function GetInteraction(tag: u8, s: Bytes): Read<TypedAction>
    requires tag in {4, 8}
  {
    var (x, s1) :- GetText2Option(s);
    Ok((if tag == 4 then BrowserInteract(x.0, x.1, x.2) else DeviceInteract(x.0, x.1, x.2), s1))
  }

  function GetAction(s: Bytes): Read<TypedAction> {
    var (tag, s1) :- GetU8(s, Truncated);
    if tag == 1 then
      var (x, s2) :- GetSearch(s1);
      Ok((WebSearch(x.0, x.1), s2))
    else if tag in {2, 3, 5, 7} then GetTextAction(tag, s1)
    else if tag in {4, 8} then GetInteraction(tag, s1)
    else if tag in {6, 9, 10, 14} then GetPayloadAction(tag, s1)
    else if tag == 12 then
      var (x, s2) :- GetProcess(s1);
      Ok((PcExecute(x.0, x.1, x.2, x.3), s2))
    else if tag in {11, 13, 15, 16} then GetText2Action(tag, s1)
    else Err(InvalidActionTag(tag))
  }

  lemma ActionReadBack(a: TypedAction, t: Bytes)
    requires FitsAction(a)
    ensures GetAction(PutAction(a, t)) == Ok((a, t))
  {
    hide PutU8, GetU8, PutBytes, GetText, PutSearch, GetSearch, PutText2, GetText2, PutText2Option, GetText2Option, PutText2Blob, GetText2Blob, PutTextBlob, GetTextBlob, PutProcess, GetProcess;
    if a.PcExecute? {
      ProcessReadBack(a.peer, a.program, a.args, a.workingDir, t);
    }
  }

  lemma ActionReadOnly(s: Bytes)
    requires GetAction(s).Ok?
    ensures var (a, t) := GetAction(s).value;
            FitsAction(a) && s == PutAction(a, t)
  {
    hide PutU8, GetU8, PutBytes, GetText, PutSearch, GetSearch, PutText2, GetText2, PutText2Option, GetText2Option, PutText2Blob, GetText2Blob, PutTextBlob, GetTextBlob, PutProcess, GetProcess;
    var (tag, s1) := GetU8(s, Truncated).value;
    if tag == 12 {
      ProcessReadOnly(s1);
    }
  }

  /******* Tags *******/

  function SideEffectTag(e: SideEffect): u8 {
    match e
    case ReadOnly => 1
    case Reversible => 2
    case ExternalWrite => 3
    case Irreversible => 4
  }

  function GetSideEffect(s: Bytes): (r: Read<SideEffect>)
    ensures r.Ok? ==> s == PutU8(SideEffectTag(r.value.0), r.value.1)
    ensures forall e, t {:trigger PutU8(SideEffectTag(e), t)} :: s == PutU8(SideEffectTag(e), t) ==> r == Ok((e, t))
  {
    var (tag, s1) :- GetU8(s, Truncated);
    if tag == 1 then Ok((ReadOnly, s1))
    else if tag == 2 then Ok((Reversible, s1))
    else if tag == 3 then Ok((ExternalWrite, s1))
    else if tag == 4 then Ok((Irreversible, s1))
    else Err(InvalidSideEffect(tag))
  }

  function ActionStatusTag(status: ActionStatus): u8 {
    match status
    case Prepared => 1
    case Running => 2
    case Suspended => 3
    case Retryable => 4
    case Committed => 5
    case RolledBack => 6
    case Failed => 7
  }

  function GetActionStatus(s: Bytes): (r: Read<ActionStatus>)
    ensures r.Ok? ==> s == PutU8(ActionStatusTag(r.value.0), r.value.1)
    ensures forall x, t {:trigger PutU8(ActionStatusTag(x), t)} :: s == PutU8(ActionStatusTag(x), t) ==> r == Ok((x, t))
  {
    var (tag, s1) :- GetU8(s, Truncated);
    if tag == 1 then Ok((Prepared, s1))
    else if tag == 2 then Ok((Running, s1))
    else if tag == 3 then Ok((Suspended, s1))
    else if tag == 4 then Ok((Retryable, s1))
    else if tag == 5 then Ok((Committed, s1))
    else if tag == 6 then Ok((RolledBack, s1))
    else if tag == 7 then Ok((Failed, s1))
    else Err(InvalidActionStatus(tag))
  }

  function PlanStatusTag(status: PlanStatus): u8 {
    match status
    case PlanReady => 1
    case PlanSuspended => 2
    case PlanCompleted => 3
    case PlanFailed => 4
    case PlanRolledBack => 5
  }

  function GetPlanStatus(s: Bytes): (r: Read<PlanStatus>)
    ensures r.Ok? ==> s == PutU8(PlanStatusTag(r.value.0), r.value.1)
    ensures forall x, t {:trigger PutU8(PlanStatusTag(x), t)} :: s == PutU8(PlanStatusTag(x), t) ==> r == Ok((x, t))
  {
    var (tag, s1) :- GetU8(s, Truncated);
    if tag == 1 then Ok((PlanReady, s1))
    else if tag == 2 then Ok((PlanSuspended, s1))
    else if tag == 3 then Ok((PlanCompleted, s1))
    else if tag == 4 then Ok((PlanFailed, s1))
    else if tag == 5 then Ok((PlanRolledBack, s1))
    else Err(InvalidPlanStatus(tag))
  }

  /******* Planned actions *******/

  // An action is written in three stretches: its identity, its request, its progress.

  datatype Identity = Identity(id: u64, nodeId: u32, capability: Str, version: u32, sideEffect: SideEffect, verify: bool)

  datatype Progress = Progress(status: ActionStatus, attempts: u32, output: Option<ActionOutput>,
                               resumeToken: Option<Bytes>, rollbackToken: Option<Bytes>, lastError: Option<Str>)

  function IdentityOf(a: PlannedAction): Identity {
    Identity(a.id, a.nodeId, a.capability, a.capabilityVersion, a.sideEffect, a.verificationRequired)
  }

  function ProgressOf(a: PlannedAction): Progress {
    Progress(a.status, a.attempts, a.output, a.resumeToken, a.rollbackToken, a.lastError)
  }

  function Assemble(i: Identity, request: TypedAction, p: Progress): PlannedAction {
    PlannedAction(i.id, i.nodeId, i.capability, i.version, i.sideEffect, i.verify, request,
                  p.status, p.attempts, p.output, p.resumeToken, p.rollbackToken, p.lastError)
  }

  function PutIdentity(i: Identity, t: Bytes): Bytes {
    PutU64(i.id, PutU32(i.nodeId, PutBytes(i.capability, PutU32(i.version, PutU8(SideEffectTag(i.sideEffect), PutBool(i.verify, t))))))
  }

  function GetIdentity(s: Bytes): Read<Identity> {
    var (id, s1) :- GetU64(s, Truncated);
    var (nodeId, s2) :- GetU32(s1, Truncated);
    var (capability, s3) :- GetText(s2);
    var (version, s4) :- GetU32(s3, Truncated);
    var (sideEffect, s5) :- GetSideEffect(s4);
    var (verify, s6) :- GetBool(s5);
    Ok((Identity(id, nodeId, capability, version, sideEffect, verify), s6))
  }

  lemma IdentityReadBack(i: Identity, t: Bytes)
    requires Fits(i.capability)
    ensures GetIdentity(PutIdentity(i, t)) == Ok((i, t))
  {
    hide PutU64, GetU64, PutU32, GetU32, PutBytes, GetText, PutU8, GetSideEffect, PutBool, GetBool;
  }

  lemma IdentityReadOnly(s: Bytes)
    requires GetIdentity(s).Ok?
    ensures var (i, t) := GetIdentity(s).value;
            Fits(i.capability) && s == PutIdentity(i, t)
  {
    hide PutU64, GetU64, PutU32, GetU32, PutBytes, GetText, PutU8, GetSideEffect, PutBool, GetBool;
  }

  predicate FitsProgress(p: Progress) {
    FitsOutput(p.output) && FitsOption(p.resumeToken) && FitsOption(p.rollbackToken) && FitsOption(p.lastError)
  }

  function PutTokens(p: Progress, t: Bytes): Bytes {
    PutOption(p.resumeToken, PutOption(p.rollbackToken, PutOption(p.lastError, t)))
  }

  function PutProgress(p: Progress, t: Bytes): Bytes {
    PutU8(ActionStatusTag(p.status), PutU32(p.attempts, PutOutput(p.output, PutTokens(p, t))))
  }

  function GetProgress(s: Bytes): Read<Progress> {
    var (status, s1) :- GetActionStatus(s);
    var (attempts, s2) :- GetU32(s1, Truncated);
    var (output, s3) :- GetOutput(s2);
    var (resumeToken, s4) :- GetOptionalBlob(s3);
    var (rollbackToken, s5) :- GetOptionalBlob(s4);
    var (lastError, s6) :- GetOptionalText(s5);
    Ok((Progress(status, attempts, output, resumeToken, rollbackToken, lastError), s6))
  }

  lemma ProgressReadBack(p: Progress, t: Bytes)
    requires FitsProgress(p)
    ensures GetProgress(PutProgress(p, t)) == Ok((p, t))
  {
    hide PutU8, GetActionStatus, PutU32, GetU32, PutOutput, GetOutput, PutOption, GetOptionalBlob, GetOptionalText;
    OutputReadBack(p.output, PutTokens(p, t));
  }

  lemma ProgressReadOnly(s: Bytes)
    requires GetProgress(s).Ok?
    ensures var (p, t) := GetProgress(s).value;
            FitsProgress(p) && s == PutProgress(p, t)
  {
    hide PutU8, GetActionStatus, PutU32, GetU32, PutOutput, GetOutput, PutOption, GetOptionalBlob, GetOptionalText;
    var (_, s1) := GetActionStatus(s).value;
    var (_, s2) := GetU32(s1, Truncated).value;
    OutputReadOnly(s2);
  }

  predicate FitsPlanned(a: PlannedAction) {
    Fits(a.capability) && FitsAction(a.action) && FitsProgress(ProgressOf(a))
  }

  function PutPlanned(a: PlannedAction, t: Bytes): Bytes {
    PutIdentity(IdentityOf(a), PutAction(a.action, PutProgress(ProgressOf(a), t)))
  }

  function GetPlanned(s: Bytes): Read<PlannedAction> {
    var (i, s1) :- GetIdentity(s);
    var (action, s2) :- GetAction(s1);
    var (p, s3) :- GetProgress(s2);
    Ok((Assemble(i, action, p), s3))
  }

  lemma PlannedReadBack(a: PlannedAction, t: Bytes)
    requires FitsPlanned(a)
    ensures GetPlanned(PutPlanned(a, t)) == Ok((a, t))
  {
    hide PutIdentity, GetIdentity, PutAction, GetAction, PutProgress, GetProgress;
    ProgressReadBack(ProgressOf(a), t);
    ActionReadBack(a.action, PutProgress(ProgressOf(a), t));
    IdentityReadBack(IdentityOf(a), PutAction(a.action, PutProgress(ProgressOf(a), t)));
  }

  lemma PlannedReadOnly(s: Bytes)
    requires GetPlanned(s).Ok?
    ensures var (a, t) := GetPlanned(s).value;
            FitsPlanned(a) && s == PutPlanned(a, t)
  {
    hide PutIdentity, GetIdentity, PutAction, GetAction, PutProgress, GetProgress;
    var (i, s1) := GetIdentity(s).value;
    IdentityReadOnly(s);
    ActionReadOnly(s1);
    ProgressReadOnly(GetAction(s1).value.1);
  }

  /******* Plans *******/

  predicate FitsPlan(p: PlanState) {
    |p.actions| <= U32_MAX && All(FitsPlanned, p.actions)
  }

  function PutPlan(p: PlanState, t: Bytes): Bytes {
    PutU64(p.id, PutU64(p.taskId, PutU64(p.cursor, PutU8(PlanStatusTag(p.status),
      PutU32(|p.actions|, PutMany(PutPlanned, p.actions, t))))))
  }

  function GetPlan(s: Bytes): Read<PlanState> {
    var (id, s1) :- GetU64(s, Truncated);
    var (taskId, s2) :- GetU64(s1, Truncated);
    var (cursor, s3) :- GetU64(s2, Truncated);
    var (status, s4) :- GetPlanStatus(s3);
    var (n, s5) :- GetU32(s4, Truncated);
    assert GetMany(GetPlanned, n, s5).Ok? ==> |GetMany(GetPlanned, n, s5).value.0| == n by {
      if GetMany(GetPlanned, n, s5).Ok? {
        PlannedCodec();
        ManyReadOnly(GetPlanned, PutPlanned, FitsPlanned, n, s5);
      }
    }
    var (actions, s6) :- GetMany(GetPlanned, n, s5);
    Ok((PlanState(id, taskId, cursor, status, actions), s6))
  }

  lemma PlannedCodec()
    ensures ReadsBack(GetPlanned, PutPlanned, FitsPlanned) && ReadsOnly(GetPlanned, PutPlanned, FitsPlanned)
  {
    hide GetPlanned, PutPlanned, FitsPlanned;
    forall a, t | FitsPlanned(a)
      ensures GetPlanned(PutPlanned(a, t)) == Ok((a, t))
    {
      PlannedReadBack(a, t);
    }
    forall s | GetPlanned(s).Ok?
      ensures FitsPlanned(GetPlanned(s).value.0) && s == PutPlanned(GetPlanned(s).value.0, GetPlanned(s).value.1)
    {
      PlannedReadOnly(s);
    }
  }

  lemma PlanReadBack(p: PlanState, t: Bytes)
    requires FitsPlan(p)
    ensures GetPlan(PutPlan(p, t)) == Ok((p, t))
  {
    hide PutU64, GetU64, PutU8, GetPlanStatus, PutU32, GetU32, GetPlanned, PutPlanned, FitsPlanned, GetMany, PutMany;
    PlannedCodec();
    ManyReadBack(GetPlanned, PutPlanned, FitsPlanned, p.actions, t);
  }

  lemma PlanReadOnly(s: Bytes)
    requires GetPlan(s).Ok?
    ensures var (p, t) := GetPlan(s).value;
            FitsPlan(p) && s == PutPlan(p, t)
  {
    hide PutU64, GetU64, PutU8, GetPlanStatus, PutU32, GetU32, GetPlanned, PutPlanned, FitsPlanned, GetMany, PutMany;
    var (_, s1) := GetU64(s, Truncated).value;
    var (_, s2) := GetU64(s1, Truncated).value;
    var (_, s3) := GetU64(s2, Truncated).value;
    var (_, s4) := GetPlanStatus(s3).value;
    var (n, s5) := GetU32(s4, Truncated).value;
    PlannedCodec();
    ManyReadOnly(GetPlanned, PutPlanned, FitsPlanned, n, s5);
  }
}
