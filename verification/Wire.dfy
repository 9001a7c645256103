/**
 The PCF97 messages between a phone and a paired PC, their digests and their validation. Text,
 values and lists are written as in TAF97; whatever cannot be read is an invalid message.
 */
module Wire {
  import opened Wrappers
  import opened Bytes
  import opened Capsule
  import opened Actions
  import opened Sessions
  import opened Artifacts
  import T = Taf97Format

  const PCF_MAGIC: Bytes := [0x50, 0x43, 0x46, 0x39, 0x37, 0x00]
  const PCF_MAJOR := 0
  const PCF_MINOR := 1
  const PCF_HEADER_LEN := 16

  datatype RemoteAction =
    | Observe(surface: Str)
    | Execute(program: Str, args: seq<Str>, workingDir: Option<Str>)
    | ArtifactRead(path: Str)
    | ArtifactWrite(path: Str, bytes: Bytes)
  {
    predicate Valid() {
      match this
      case Observe(surface) => !Blank(surface)
      case Execute(program, _, workingDir) => !Blank(program) && (workingDir.Some? ==> !Blank(workingDir.value))
      case ArtifactRead(path) => !Blank(path)
      case ArtifactWrite(path, _) => !Blank(path)
    }
  }

  datatype RemoteCapability = RemoteCapability(
    id: Str, version: u32, sideEffect: SideEffect, verify: bool, rollback: bool, resumable: bool, scopes: seq<Str>)
  {
    predicate Valid() {
      && !Blank(id) && version != 0
      && (forall i :: 0 <= i < |scopes| ==> !Blank(scopes[i]))
      && (forall i :: 0 < i < |scopes| ==> Less(scopes[i - 1], scopes[i]))
      && !(sideEffect == Irreversible && rollback)
    }
  }

  datatype RemoteRequest = RemoteRequest(id: u64, capability: Str, version: u32, action: RemoteAction, digest: Digest)

  datatype ResultStatus = Finished | Retryable(reason: Str) | Rejected(reason: Str)

  datatype RemoteResult = RemoteResult(
    id: u64, capability: Str, version: u32, requestDigest: Digest,
    status: ResultStatus, output: ActionOutput, artifacts: seq<ArtifactDescriptor>, digest: Digest)

  datatype RemoteMessage =
    | Capabilities(capabilities: seq<RemoteCapability>)
    | Request(request: RemoteRequest)
    | ResultMessage(result: RemoteResult)
    | Chunk(chunk: ArtifactChunk)
    | Pull(transferId: u64, offset: u64)
    | CapabilityQuery

  type Read<T> = Result<(T, Bytes), PcError>

  function Mapped<A>(r: T.Read<A>): Read<A> {
    match r
    case Ok(v) => Ok(v)
    case Err(_) => Err(InvalidMessage)
  }

  /******* Actions, statuses, outputs, descriptors *******/

  predicate FitsAction(a: RemoteAction) {
    match a
    case Observe(surface) => T.Fits(surface)
    case Execute(program, args, dir) => T.Fits(program) && T.FitsAll(args) && T.FitsOption(dir)
    case ArtifactRead(path) => T.Fits(path)
    case ArtifactWrite(path, bytes) => T.Fits(path) && T.Fits(bytes)
  }

  function PutAction(a: RemoteAction, t: Bytes): Bytes {
    match a
    case Observe(surface) => PutU8(1, PutBytes(surface, t))
    case Execute(program, args, dir) => PutU8(2, PutBytes(program, T.PutTexts(args, T.PutOption(dir, t))))
    case ArtifactRead(path) => PutU8(3, PutBytes(path, t))
    case ArtifactWrite(path, bytes) => PutU8(4, PutBytes(path, PutBytes(bytes, t)))
  }

  function GetAction(s: Bytes): Read<RemoteAction> {
    var (tag, s1) :- GetU8(s, InvalidMessage);
    if !(1 <= tag <= 4) then Err(InvalidMessage)
    else
      var (x, s2) :- Mapped(T.GetText(s1));
      if tag == 2 then
        var (args, s3) :- Mapped(T.GetTexts(s2));
        var (dir, s4) :- Mapped(T.GetOptionalText(s3));
        Ok((Execute(x, args, dir), s4))
      else if tag == 4 then
        var (bytes, s3) :- Mapped(T.GetBlob(s2));
        Ok((ArtifactWrite(x, bytes), s3))
      else Ok((if tag == 1 then Observe(x) else ArtifactRead(x), s2))
  }

  lemma ActionReadBack(a: RemoteAction, t: Bytes)
    requires FitsAction(a)
    ensures GetAction(PutAction(a, t)) == Ok((a, t))
  {
    hide PutU8, GetU8, PutBytes, T.GetText, T.GetTexts, T.PutTexts, T.GetOptionalText, T.PutOption, T.GetBlob;
    if a.Execute? {
      T.TextsReadBack(a.args, T.PutOption(a.workingDir, t));
    }
  }

  lemma ActionReadOnly(s: Bytes)
    requires GetAction(s).Ok?
    ensures var (a, t) := GetAction(s).value; FitsAction(a) && s == PutAction(a, t)
  {
    hide PutU8, GetU8, PutBytes, T.GetText, T.GetTexts, T.PutTexts, T.FitsAll, T.GetOptionalText, T.PutOption, T.GetBlob;
    var (tag, s1) := GetU8(s, InvalidMessage).value;
    if tag == 2 {
      T.TextsReadOnly(T.GetText(s1).value.1);
    }
  }

  function PutStatus(st: ResultStatus, t: Bytes): Bytes {
    match st
    case Finished => PutU8(1, t)
    case Retryable(reason) => PutU8(2, PutBytes(reason, t))
    case Rejected(reason) => PutU8(3, PutBytes(reason, t))
  }

  predicate FitsStatus(st: ResultStatus) {
    st.Finished? || T.Fits(st.reason)
  }

  function GetStatus(s: Bytes): (r: Read<ResultStatus>)
    ensures r.Ok? ==> FitsStatus(r.value.0) && s == PutStatus(r.value.0, r.value.1)
    ensures forall st, t {:trigger PutStatus(st, t)} :: FitsStatus(st) && s == PutStatus(st, t) ==> r == Ok((st, t))
  {
    hide PutU8, GetU8, PutBytes, T.GetText;
    var (tag, s1) :- GetU8(s, InvalidMessage);
    if tag == 1 then Ok((Finished, s1))
    else if tag == 2 || tag == 3 then
      var (reason, s2) :- Mapped(T.GetText(s1));
      Ok((if tag == 2 then Retryable(reason) else Rejected(reason), s2))
    else Err(InvalidMessage)
  }

  predicate FitsOutput(o: ActionOutput) {
    T.Fits(o.summary) && T.FitsValue(o.value) && T.FitsAll(o.evidence)
  }

  function PutOutput(o: ActionOutput, t: Bytes): Bytes {
    PutBytes(o.summary, T.PutValue(o.value, T.PutTexts(o.evidence, t)))
  }

  function GetOutput(s: Bytes): Read<ActionOutput> {
    var (summary, s1) :- Mapped(T.GetText(s));
    var (value, s2) :- Mapped(T.GetValue(s1));
    var (evidence, s3) :- Mapped(T.GetTexts(s2));
    Ok((ActionOutput(summary, value, evidence), s3))
  }

  lemma OutputReadBack(o: ActionOutput, t: Bytes)
    requires FitsOutput(o)
    ensures GetOutput(PutOutput(o, t)) == Ok((o, t))
  {
    hide PutBytes, T.GetText, T.GetValue, T.PutValue, T.GetTexts, T.PutTexts;
    T.TextsReadBack(o.evidence, t);
    T.ValueReadBack(o.value, T.PutTexts(o.evidence, t));
  }

  lemma OutputReadOnly(s: Bytes)
    requires GetOutput(s).Ok?
    ensures var (o, t) := GetOutput(s).value; FitsOutput(o) && s == PutOutput(o, t)
  {
    hide PutBytes, T.GetText, T.GetValue, T.PutValue, T.FitsValue, T.GetTexts, T.PutTexts, T.FitsAll;
    var (summary, s1) := T.GetText(s).value;
    T.ValueReadOnly(s1);
    T.TextsReadOnly(T.GetValue(s1).value.1);
  }

  predicate FitsDescriptor(d: ArtifactDescriptor) {
    d.Valid() && T.Fits(d.name)
  }

  function PutDescriptor(d: ArtifactDescriptor, t: Bytes): Bytes {
    PutU64(d.transferId, PutBytes(d.name, PutU64(d.length, PutRaw(d.hash, PutU32(d.chunkSize, t)))))
  }

  function GetDescriptor(s: Bytes): Read<ArtifactDescriptor> {
    var (transferId, s1) :- GetU64(s, InvalidMessage);
    var (name, s2) :- Mapped(T.GetText(s1));
    var (length, s3) :- GetU64(s2, InvalidMessage);
    var (hash, s4) :- GetRaw(32, s3, InvalidMessage);
    var (chunkSize, s5) :- GetU32(s4, InvalidMessage);
    var d := ArtifactDescriptor(transferId, name, length, hash, chunkSize);
    if d.Valid() then Ok((d, s5)) else Err(InvalidArtifact)
  }

  lemma DescriptorCodec()
    ensures ReadsBack(GetDescriptor, PutDescriptor, FitsDescriptor) && ReadsOnly(GetDescriptor, PutDescriptor, FitsDescriptor)
  {
    hide PutU64, GetU64, PutBytes, T.GetText, PutRaw, GetRaw, PutU32, GetU32, Blank;
    forall d, t | FitsDescriptor(d)
      ensures GetDescriptor(PutDescriptor(d, t)) == Ok((d, t))
    {
    }
  }

  /******* Requests *******/

  predicate FitsRequest(r: RemoteRequest) {
    T.Fits(r.capability) && FitsAction(r.action)
  }

  /** The part of a request its digest covers. */
  function PutAsked(r: RemoteRequest, t: Bytes): Bytes {
    PutU64(r.id, PutBytes(r.capability, PutU32(r.version, PutAction(r.action, t))))
  }

  /** The strings that keep the digested texts apart. */
  datatype DigestLabels = DigestLabels(request: Bytes, result: Bytes)

  function RequestText(l: DigestLabels, r: RemoteRequest): Bytes {
    l.request + PutAsked(r, [])
  }

  predicate ValidRequest(h: HashFn, l: DigestLabels, r: RemoteRequest) {
    && r.id != 0 && r.version != 0 && !Blank(r.capability) && r.action.Valid() && FitsRequest(r)
    && r.digest == h(RequestText(l, r))
  }

  /** Why a request is refused, None exactly for the valid ones. */
  function RequestFault(h: HashFn, l: DigestLabels, r: RemoteRequest): (e: Option<PcError>)
    ensures e.None? <==> ValidRequest(h, l, r)
  {
    if r.id == 0 || r.version == 0 || Blank(r.capability) || !r.action.Valid() then Some(InvalidMessage)
    else if !FitsRequest(r) then Some(TooBig)
    else if r.digest != h(RequestText(l, r)) then Some(InvalidMessage)
    else None
  }

  datatype Asked = Asked(id: u64, capability: Str, version: u32, action: RemoteAction)

  function GetAsked(s: Bytes): Read<Asked> {
    var (id, s1) :- GetU64(s, InvalidMessage);
    var (capability, s2) :- Mapped(T.GetText(s1));
    var (version, s3) :- GetU32(s2, InvalidMessage);
    var (action, s4) :- GetAction(s3);
    Ok((Asked(id, capability, version, action), s4))
  }

  lemma AskedReadBack(r: RemoteRequest, t: Bytes)
    requires FitsRequest(r)
    ensures GetAsked(PutAsked(r, t)) == Ok((Asked(r.id, r.capability, r.version, r.action), t))
  {
    hide PutU64, GetU64, PutBytes, T.GetText, PutU32, GetU32, PutAction, GetAction;
    ActionReadBack(r.action, t);
  }

  lemma AskedReadOnly(s: Bytes, digest: Digest)
    requires GetAsked(s).Ok?
    ensures var (a, t) := GetAsked(s).value;
            var r := RemoteRequest(a.id, a.capability, a.version, a.action, digest);
            FitsRequest(r) && s == PutAsked(r, t)
  {
    hide PutU64, GetU64, PutBytes, T.GetText, PutU32, GetU32, PutAction, GetAction, FitsAction;
    var (_, s1) := GetU64(s, InvalidMessage).value;
    var (_, s2) := T.GetText(s1).value;
    var (_, s3) := GetU32(s2, InvalidMessage).value;
    ActionReadOnly(s3);
  }

  /** Requests with equal digested texts ask the same. */
  lemma TextTellsRequest(l: DigestLabels, a: RemoteRequest, b: RemoteRequest)
    requires FitsRequest(a) && FitsRequest(b) && RequestText(l, a) == RequestText(l, b)
    ensures a.id == b.id && a.capability == b.capability && a.version == b.version && a.action == b.action
  {
    hide GetAsked, PutAsked;
    assert PutAsked(a, []) == RequestText(l, a)[|l.request|..] == PutAsked(b, []);
    AskedReadBack(a, []);
    AskedReadBack(b, []);
  }

  function PutRequest(r: RemoteRequest, t: Bytes): Bytes {
    PutAsked(r, PutRaw(r.digest, t))
  }

  function GetRequest(h: HashFn, l: DigestLabels, s: Bytes): Read<RemoteRequest> {
    var (a, s1) :- GetAsked(s);
    var (digest, s2) :- GetRaw(32, s1, InvalidMessage);
    var r := RemoteRequest(a.id, a.capability, a.version, a.action, digest);
    match RequestFault(h, l, r)
    case Some(e) => Err(e)
    case None => Ok((r, s2))
  }

  lemma RequestReadBack(h: HashFn, l: DigestLabels, r: RemoteRequest, t: Bytes)
    requires ValidRequest(h, l, r)
    ensures GetRequest(h, l, PutRequest(r, t)) == Ok((r, t))
  {
    hide PutAsked, GetAsked, PutRaw, GetRaw, Blank, RequestText, RequestFault;
    AskedReadBack(r, PutRaw(r.digest, t));
  }

  lemma RequestReadOnly(h: HashFn, l: DigestLabels, s: Bytes)
    requires GetRequest(h, l, s).Ok?
    ensures var (r, t) := GetRequest(h, l, s).value; ValidRequest(h, l, r) && s == PutRequest(r, t)
  {
    hide PutAsked, GetAsked, PutRaw, GetRaw, RequestFault, ValidRequest, FitsRequest;
    AskedReadOnly(s, GetRequest(h, l, s).value.0.digest);
  }

  /******* Results *******/

  predicate AscendingIds(ds: seq<ArtifactDescriptor>) {
    forall i :: 0 <= i < |ds| ==> ds[i].Valid() && (if i == 0 then 0 else ds[i - 1].transferId) < ds[i].transferId
  }

  predicate FitsResult(r: RemoteResult) {
    T.Fits(r.capability) && FitsStatus(r.status) && FitsOutput(r.output) && |r.artifacts| <= U32_MAX && All(FitsDescriptor, r.artifacts)
  }

  function PutReport(r: RemoteResult, t: Bytes): Bytes {
    PutStatus(r.status, PutOutput(r.output, PutU32(|r.artifacts|, PutMany(PutDescriptor, r.artifacts, t))))
  }

  /** The part of a result its digest covers. */
  function PutAnswered(r: RemoteResult, t: Bytes): Bytes {
    PutU64(r.id, PutBytes(r.capability, PutU32(r.version, PutRaw(r.requestDigest, PutReport(r, t)))))
  }

  function ResultText(l: DigestLabels, r: RemoteResult): Bytes {
    l.result + PutAnswered(r, [])
  }

  predicate ValidFields(r: RemoteResult) {
    && r.id != 0 && r.version != 0 && !Blank(r.capability)
    && (r.status.Finished? || !Blank(r.status.reason))
    && AscendingIds(r.artifacts)
  }

  predicate ValidResult(h: HashFn, l: DigestLabels, r: RemoteResult) {
    ValidFields(r) && FitsResult(r) && r.digest == h(ResultText(l, r))
  }

  /** The descriptors sorted by transfer id; the sort keeps the order of equal ids. */
  function InsertDescriptor(sorted: seq<ArtifactDescriptor>, d: ArtifactDescriptor): seq<ArtifactDescriptor> {
    if sorted == [] || sorted[|sorted| - 1].transferId <= d.transferId then sorted + [d]
    else InsertDescriptor(sorted[..|sorted| - 1], d) + [sorted[|sorted| - 1]]
  }

  function ByTransfer(ds: seq<ArtifactDescriptor>): seq<ArtifactDescriptor> {
    if ds == [] then [] else InsertDescriptor(ByTransfer(ds[..|ds| - 1]), ds[|ds| - 1])
  }

  lemma {:induction false} InsertedHasSame(sorted: seq<ArtifactDescriptor>, d: ArtifactDescriptor)
    ensures multiset(InsertDescriptor(sorted, d)) == multiset(sorted) + multiset{d}
    decreases |sorted|
  {
    if sorted != [] {
      var n := |sorted| - 1;
      assert sorted == sorted[..n] + [sorted[n]];
      InsertedHasSame(sorted[..n], d);
    }
  }

  lemma {:induction false} SortedIsPermutation(ds: seq<ArtifactDescriptor>)
    ensures multiset(ByTransfer(ds)) == multiset(ds)
    decreases |ds|
  {
    hide InsertDescriptor;
    if ds != [] {
      var n := |ds| - 1;
      assert ds == ds[..n] + [ds[n]];
      SortedIsPermutation(ds[..n]);
      InsertedHasSame(ByTransfer(ds[..n]), ds[n]);
    }
  }

  lemma SortedHasSame(ds: seq<ArtifactDescriptor>)
    ensures forall d :: d in ByTransfer(ds) <==> d in ds
  {
    hide ByTransfer;
    SortedIsPermutation(ds);
    forall d
      ensures d in ByTransfer(ds) <==> d in ds
    {
      assert d in multiset(ByTransfer(ds)) <==> d in multiset(ds);
    }
  }

  /** The checks that come before the digest of a result. */
  function FieldsFault(r: RemoteResult): (e: Option<PcError>)
    ensures e.None? <==> ValidFields(r)
  {
    if r.id == 0 || r.version == 0 || Blank(r.capability) || (!r.status.Finished? && Blank(r.status.reason)) then Some(InvalidMessage)
    else if !AscendingIds(r.artifacts) then Some(InvalidArtifact)
    else None
  }

  /** Why a result is refused, None exactly for the valid ones. */
  function ResultFault(h: HashFn, l: DigestLabels, r: RemoteResult): (e: Option<PcError>)
    ensures e.None? <==> ValidResult(h, l, r)
  {
    if !ValidFields(r) then FieldsFault(r)
    else if !FitsResult(r) then Some(TooBig)
    else if r.digest != h(ResultText(l, r)) then Some(InvalidMessage)
    else None
  }

  /** `RemoteResult::verify_against` */
  predicate VerifiedAgainst(h: HashFn, l: DigestLabels, r: RemoteResult, q: RemoteRequest) {
    && ValidRequest(h, l, q) && ValidResult(h, l, r)
    && r.id == q.id && r.capability == q.capability && r.version == q.version && r.requestDigest == q.digest
  }

  datatype Report = Report(status: ResultStatus, output: ActionOutput, artifacts: seq<ArtifactDescriptor>)

  function GetReport(s: Bytes): Read<Report> {
    var (status, s1) :- GetStatus(s);
    var (output, s2) :- GetOutput(s1);
    var (n, s3) :- GetU32(s2, InvalidMessage);
    var (artifacts, s4) :- GetMany(GetDescriptor, n, s3);
    Ok((Report(status, output, artifacts), s4))
  }

  lemma ReportReadBack(r: RemoteResult, t: Bytes)
    requires FitsResult(r)
    ensures GetReport(PutReport(r, t)) == Ok((Report(r.status, r.output, r.artifacts), t))
  {
    hide PutStatus, GetStatus, PutOutput, GetOutput, PutU32, GetU32, GetDescriptor, PutDescriptor, FitsDescriptor, GetMany, PutMany;
    DescriptorCodec();
    ManyReadBack(GetDescriptor, PutDescriptor, FitsDescriptor, r.artifacts, t);
    OutputReadBack(r.output, PutU32(|r.artifacts|, PutMany(PutDescriptor, r.artifacts, t)));
  }

  lemma ReportReadOnly(s: Bytes, r: RemoteResult)
    requires GetReport(s).Ok?
    requires var report := GetReport(s).value.0; r.status == report.status && r.output == report.output && r.artifacts == report.artifacts
    ensures s == PutReport(r, GetReport(s).value.1)
    ensures FitsStatus(r.status) && FitsOutput(r.output) && |r.artifacts| <= U32_MAX && All(FitsDescriptor, r.artifacts)
  {
    hide PutStatus, GetStatus, FitsStatus, PutOutput, GetOutput, FitsOutput, PutU32, GetU32, GetDescriptor, PutDescriptor, FitsDescriptor, GetMany, PutMany;
    var (_, s1) := GetStatus(s).value;
    OutputReadOnly(s1);
    var (_, s2) := GetOutput(s1).value;
    var (n, s3) := GetU32(s2, InvalidMessage).value;
    DescriptorCodec();
    ManyReadOnly(GetDescriptor, PutDescriptor, FitsDescriptor, n, s3);
  }

  function PutResult(r: RemoteResult, t: Bytes): Bytes {
    PutAnswered(r, PutRaw(r.digest, t))
  }

  function GetResult(h: HashFn, l: DigestLabels, s: Bytes): Read<RemoteResult> {
    var (id, s1) :- GetU64(s, InvalidMessage);
    var (capability, s2) :- Mapped(T.GetText(s1));
    var (version, s3) :- GetU32(s2, InvalidMessage);
    var (requestDigest, s4) :- GetRaw(32, s3, InvalidMessage);
    var (report, s5) :- GetReport(s4);
    var (digest, s6) :- GetRaw(32, s5, InvalidMessage);
    var r := RemoteResult(id, capability, version, requestDigest, report.status, report.output, report.artifacts, digest);
    match ResultFault(h, l, r)
    case Some(e) => Err(e)
    case None => Ok((r, s6))
  }

  lemma ResultReadBack(h: HashFn, l: DigestLabels, r: RemoteResult, t: Bytes)
    requires ValidResult(h, l, r)
    ensures GetResult(h, l, PutResult(r, t)) == Ok((r, t))
  {
    hide PutU64, GetU64, PutBytes, T.GetText, PutU32, GetU32, PutRaw, GetRaw, PutReport, GetReport, ResultText, ValidFields, FitsResult, ResultFault;
    assert FitsResult(r) && T.Fits(r.capability) by { ResultFits(r); }
    ReportReadBack(r, PutRaw(r.digest, t));
  }

  lemma ResultReadOnly(h: HashFn, l: DigestLabels, s: Bytes)
    requires GetResult(h, l, s).Ok?
    ensures var (r, t) := GetResult(h, l, s).value; ValidResult(h, l, r) && s == PutResult(r, t)
  {
    hide PutU64, GetU64, PutBytes, T.GetText, PutU32, GetU32, PutRaw, GetRaw, PutReport, GetReport, ResultFault, ValidResult, FitsStatus, FitsOutput, All;
    var r := GetResult(h, l, s).value.0;
    var (_, s1) := GetU64(s, InvalidMessage).value;
    var (_, s2) := T.GetText(s1).value;
    var (_, s3) := GetU32(s2, InvalidMessage).value;
    var (_, s4) := GetRaw(32, s3, InvalidMessage).value;
    ReportReadOnly(s4, r);
  }

  lemma ResultFits(r: RemoteResult)
    ensures FitsResult(r) ==> T.Fits(r.capability)
  {
  }

  /******* Capabilities *******/

  predicate FitsCapability(c: RemoteCapability) {
    c.Valid() && T.Fits(c.id) && T.FitsAll(c.scopes)
  }

  function PutCapability(c: RemoteCapability, t: Bytes): Bytes {
    PutBytes(c.id, PutU32(c.version, PutU8(T.SideEffectTag(c.sideEffect),
      T.PutBool(c.verify, T.PutBool(c.rollback, T.PutBool(c.resumable, T.PutTexts(c.scopes, t)))))))
  }

  function GetCapability(s: Bytes): Read<RemoteCapability> {
    var (id, s1) :- Mapped(T.GetText(s));
    var (version, s2) :- GetU32(s1, InvalidMessage);
    var (sideEffect, s3) :- Mapped(T.GetSideEffect(s2));
    var (verify, s4) :- Mapped(T.GetBool(s3));
    var (rollback, s5) :- Mapped(T.GetBool(s4));
    var (resumable, s6) :- Mapped(T.GetBool(s5));
    var (scopes, s7) :- Mapped(T.GetTexts(s6));
    var c := RemoteCapability(id, version, sideEffect, verify, rollback, resumable, scopes);
    if c.Valid() then Ok((c, s7)) else Err(InvalidMessage)
  }

  lemma CapabilityReadOnly(s: Bytes)
    requires GetCapability(s).Ok?
    ensures var (c, t) := GetCapability(s).value; FitsCapability(c) && s == PutCapability(c, t)
  {
    hide PutBytes, T.GetText, PutU32, GetU32, PutU8, T.GetSideEffect, T.SideEffectTag, T.PutBool, T.GetBool, T.PutTexts, T.GetTexts, T.FitsAll, RemoteCapability.Valid;
    var (_, s1) := T.GetText(s).value;
    var (_, s2) := GetU32(s1, InvalidMessage).value;
    var (_, s3) := T.GetSideEffect(s2).value;
    var (_, s4) := T.GetBool(s3).value;
    var (_, s5) := T.GetBool(s4).value;
    var (_, s6) := T.GetBool(s5).value;
    T.TextsReadOnly(s6);
  }

  lemma CapabilityCodec()
    ensures ReadsBack(GetCapability, PutCapability, FitsCapability) && ReadsOnly(GetCapability, PutCapability, FitsCapability)
  {
    hide PutBytes, T.GetText, PutU32, GetU32, PutU8, T.GetSideEffect, T.PutBool, T.GetBool, T.PutTexts, T.GetTexts, T.FitsAll, RemoteCapability.Valid;
    forall s | GetCapability(s).Ok?
      ensures FitsCapability(GetCapability(s).value.0) && s == PutCapability(GetCapability(s).value.0, GetCapability(s).value.1)
    {
      CapabilityReadOnly(s);
    }
    forall c, t | FitsCapability(c)
      ensures GetCapability(PutCapability(c, t)) == Ok((c, t))
    {
      T.TextsReadBack(c.scopes, t);
    }
  }

  predicate AscendingCapabilities(cs: seq<RemoteCapability>) {
    forall i :: 0 < i < |cs| ==> Less(cs[i - 1].id, cs[i].id)
  }

  /******* Messages *******/

  function MessageTag(m: RemoteMessage): u8 {
    match m
    case Capabilities(_) => 1
    case Request(_) => 2
    case ResultMessage(_) => 3
    case Chunk(_) => 4
    case Pull(_, _) => 5
    case CapabilityQuery => 6
  }

  function Payload(m: RemoteMessage): Bytes {
    match m
    case Capabilities(cs) => PutU32(|cs|, PutMany(PutCapability, cs, []))
    case Request(q) => PutRequest(q, [])
    case ResultMessage(r) => PutResult(r, [])
    case Chunk(c) => PutU64(c.transferId, PutU64(c.offset, PutBytes(c.data, [])))
    case Pull(transferId, offset) => PutU64(transferId, PutU64(offset, []))
    case CapabilityQuery => []
  }

  /** The messages that may be sent. */
  predicate Sendable(h: HashFn, l: DigestLabels, m: RemoteMessage) {
    && |Payload(m)| <= U32_MAX
    && match m
       case Capabilities(cs) => |cs| <= U32_MAX && All(FitsCapability, cs) && AscendingCapabilities(cs)
       case Request(q) => ValidRequest(h, l, q)
       case ResultMessage(r) => ValidResult(h, l, r)
       case Chunk(c) => c.transferId != 0 && T.Fits(c.data)
       case Pull(transferId, _) => transferId != 0
       case CapabilityQuery => true
  }

  predicate ValidCapability(c: RemoteCapability) {
    c.Valid()
  }

  /** The first check a message fails, None exactly for those that may be sent. */
  function SendFault(h: HashFn, l: DigestLabels, m: RemoteMessage): (e: Option<PcError>)
    ensures e.None? <==> Sendable(h, l, m)
  {
    hide Payload, ValidRequest, ValidResult, AscendingCapabilities, RemoteCapability.Valid;
    var body := match m
      case Capabilities(cs) =>
        if !All(ValidCapability, cs) || !AscendingCapabilities(cs) then Some(InvalidMessage)
        else if |cs| > U32_MAX || !All(FitsCapability, cs) then Some(TooBig)
        else None
      case Request(q) => RequestFault(h, l, q)
      case ResultMessage(r) => ResultFault(h, l, r)
      case Chunk(c) => if c.transferId == 0 then Some(InvalidArtifact) else if !T.Fits(c.data) then Some(TooBig) else None
      case Pull(transferId, _) => if transferId == 0 then Some(InvalidArtifact) else None
      case CapabilityQuery => None;
    if body.Some? then body else if |Payload(m)| > U32_MAX then Some(TooBig) else None
  }

  function MessageBytesAt(minor: u16, m: RemoteMessage): Bytes {
    PutRaw(PCF_MAGIC, PutU16(PCF_MAJOR, PutU16(minor, PutU8(MessageTag(m), PutU8(0, PutU32(|Payload(m)|, Payload(m)))))))
  }

  function MessageBytes(m: RemoteMessage): Bytes {
    MessageBytesAt(PCF_MINOR, m)
  }

  function EncodeMessage(h: HashFn, l: DigestLabels, m: RemoteMessage): (r: Result<Bytes, PcError>)
    ensures r.Ok? <==> Sendable(h, l, m)
  {
    match SendFault(h, l, m)
    case Some(e) => Err(e)
    case None => Ok(MessageBytes(m))
  }

  function GetPayload(h: HashFn, l: DigestLabels, tag: u8, s: Bytes): Read<RemoteMessage> {
    if tag == 1 then
      var (n, s1) :- GetU32(s, InvalidMessage);
      var (cs, s2) :- GetMany(GetCapability, n, s1);
      if AscendingCapabilities(cs) then Ok((Capabilities(cs), s2)) else Err(InvalidMessage)
    else if tag == 2 then
      var (q, s1) :- GetRequest(h, l, s);
      Ok((Request(q), s1))
    else if tag == 3 then
      var (r, s1) :- GetResult(h, l, s);
      Ok((ResultMessage(r), s1))
    else if tag == 4 || tag == 5 then
      var (transferId, s1) :- GetU64(s, InvalidMessage);
      var (offset, s2) :- GetU64(s1, InvalidMessage);
      if tag == 5 then Ok((Pull(transferId, offset), s2))
      else
        var (data, s3) :- Mapped(T.GetBlob(s2));
        Ok((Chunk(ArtifactChunk(transferId, offset, data)), s3))
    else if tag == 6 then Ok((CapabilityQuery, s))
    else Err(InvalidMessage)
  }

  function DecodeMessage(h: HashFn, l: DigestLabels, bytes: Bytes): Result<RemoteMessage, PcError> {
    var (magic, s1) :- GetRaw(6, bytes, InvalidFrame);
    var (major, s2) :- GetU16(s1, InvalidFrame);
    var (minor, s3) :- GetU16(s2, InvalidFrame);
    var (tag, s4) :- GetU8(s3, InvalidFrame);
    var (reserved, s5) :- GetU8(s4, InvalidFrame);
    var (n, s6) :- GetU32(s5, InvalidFrame);
    if magic != PCF_MAGIC || major != PCF_MAJOR || minor > PCF_MINOR || reserved != 0 || |s6| != n then Err(InvalidFrame)
    else
      var (m, s7) :- GetPayload(h, l, tag, s6);
      if s7 != [] then Err(InvalidMessage) else Ok(m)
  }

  /** The messages a reader takes: the sendable ones, and chunks and pulls of the transfer 0, which cannot be sent. */
  predicate Receivable(h: HashFn, l: DigestLabels, m: RemoteMessage) {
    match m
    case Chunk(c) => T.Fits(c.data) && |Payload(m)| <= U32_MAX
    case Pull(_, _) => |Payload(m)| <= U32_MAX
    case _ => Sendable(h, l, m)
  }

  lemma PayloadReadBack(h: HashFn, l: DigestLabels, m: RemoteMessage)
    requires Receivable(h, l, m)
    ensures GetPayload(h, l, MessageTag(m), Payload(m)) == Ok((m, []))
  {
    hide PutU32, GetU32, PutU64, GetU64, PutBytes, T.GetBlob, PutRequest, GetRequest, PutResult, GetResult, GetMany, PutMany,
         GetCapability, PutCapability, FitsCapability, ValidRequest, ValidResult, AscendingCapabilities;
    match m
    case Capabilities(cs) =>
      CapabilityCodec();
      ManyReadBack(GetCapability, PutCapability, FitsCapability, cs, []);
    case Request(q) => RequestReadBack(h, l, q, []);
    case ResultMessage(r) => ResultReadBack(h, l, r, []);
    case Chunk(_) =>
    case Pull(_, _) =>
    case CapabilityQuery =>
  }

  lemma PayloadReadOnly(h: HashFn, l: DigestLabels, tag: u8, s: Bytes)
    requires |s| <= U32_MAX && GetPayload(h, l, tag, s).Ok? && GetPayload(h, l, tag, s).value.1 == []
    ensures var m := GetPayload(h, l, tag, s).value.0;
            Receivable(h, l, m) && tag == MessageTag(m) && s == Payload(m)
  {
    hide PutU32, GetU32, PutU64, GetU64, PutBytes, T.GetBlob, PutRequest, GetRequest, PutResult, GetResult, GetMany, PutMany,
         GetCapability, PutCapability, FitsCapability, ValidRequest, ValidResult, AscendingCapabilities;
    if tag == 1 {
      var (n, s1) := GetU32(s, InvalidMessage).value;
      CapabilityCodec();
      ManyReadOnly(GetCapability, PutCapability, FitsCapability, n, s1);
    } else if tag == 2 {
      RequestReadOnly(h, l, s);
    } else if tag == 3 {
      ResultReadOnly(h, l, s);
    }
  }

  lemma SendableFits(h: HashFn, l: DigestLabels, m: RemoteMessage)
    ensures Sendable(h, l, m) ==> Receivable(h, l, m)
    ensures Receivable(h, l, m) ==> |Payload(m)| <= U32_MAX
  {
    hide Payload, ValidRequest, ValidResult;
  }

  ghost predicate IsMessage(bytes: Bytes, m: RemoteMessage) {
    exists minor: u16 :: minor <= PCF_MINOR && bytes == MessageBytesAt(minor, m)
  }

  /** Decoding accepts exactly the byte forms of receivable messages, in either minor version. */
  lemma MessageExactly(h: HashFn, l: DigestLabels, bytes: Bytes, m: RemoteMessage)
    ensures DecodeMessage(h, l, bytes) == Ok(m) <==> Receivable(h, l, m) && IsMessage(bytes, m)
  {
    hide PutRaw, GetRaw, PutU16, GetU16, PutU8, GetU8, PutU32, GetU32, Payload, GetPayload, Receivable;
    if DecodeMessage(h, l, bytes) == Ok(m) {
      DecodedIsMessage(h, l, bytes);
    }
    if Receivable(h, l, m) && IsMessage(bytes, m) {
      SendableFits(h, l, m);
      PayloadReadBack(h, l, m);
    }
  }

  lemma DecodedIsMessage(h: HashFn, l: DigestLabels, bytes: Bytes)
    requires DecodeMessage(h, l, bytes).Ok?
    ensures var m := DecodeMessage(h, l, bytes).value; Receivable(h, l, m) && IsMessage(bytes, m)
  {
    hide PutRaw, GetRaw, PutU16, GetU16, PutU8, GetU8, PutU32, GetU32, Payload, GetPayload, Receivable;
    var (magic, s1) := GetRaw(6, bytes, InvalidFrame).value;
    var (major, s2) := GetU16(s1, InvalidFrame).value;
    var (minor, s3) := GetU16(s2, InvalidFrame).value;
    var (tag, s4) := GetU8(s3, InvalidFrame).value;
    var (reserved, s5) := GetU8(s4, InvalidFrame).value;
    var (n, s6) := GetU32(s5, InvalidFrame).value;
    PayloadReadOnly(h, l, tag, s6);
    assert bytes == MessageBytesAt(minor, DecodeMessage(h, l, bytes).value);
  }

  /** Whatever is encoded is decoded to the same message. */
  lemma MessageReadBack(h: HashFn, l: DigestLabels, m: RemoteMessage)
    requires EncodeMessage(h, l, m).Ok?
    ensures DecodeMessage(h, l, EncodeMessage(h, l, m).value) == Ok(m)
  {
    hide MessageBytesAt, Sendable, SendFault, Receivable, DecodeMessage;
    SendableFits(h, l, m);
    MessageExactly(h, l, MessageBytes(m), m);
  }

  /** A pull of the transfer 0 is decoded, though it cannot be encoded. */
  lemma PullOfZeroOnlyArrives(h: HashFn, l: DigestLabels)
    ensures DecodeMessage(h, l, MessageBytes(Pull(0, 0))) == Ok(Pull(0, 0))
    ensures EncodeMessage(h, l, Pull(0, 0)) == Err(InvalidArtifact)
  {
    hide MessageBytesAt, DecodeMessage;
    assert Receivable(h, l, Pull(0, 0));
    MessageExactly(h, l, MessageBytes(Pull(0, 0)), Pull(0, 0));
  }
}
