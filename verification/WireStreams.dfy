/** The PCF97 codec and its validation as they run, over a growing buffer and a cursor. */
module WireStreams {
  import opened Wrappers
  import opened Bytes
  import opened Streams
  import opened Capsule
  import opened Actions
  import opened Sessions
  import opened Artifacts
  import opened Wire
  import T = Taf97Format
  import S = Taf97Streams

  /******* Encoding the parts *******/

  method PushAction(out: Buffer, a: RemoteAction) returns (ok: bool)
    modifies out
    ensures ok <==> FitsAction(a)
    ensures ok ==> forall t :: out.bytes + t == old(out.bytes) + PutAction(a, t)
  {
    hide PutU8, PutBytes, T.PutTexts, T.PutOption, T.FitsAll, T.FitsOption;
    match a
    case Observe(surface) =>
      out.PushU8(1);
      ok := out.PushBytes(surface);
    case Execute(program, args, dir) =>
      out.PushU8(2);
      ok := out.PushBytes(program);
      if !ok { return; }
      ok := S.PushTexts(out, args);
      if !ok { return; }
      ok := S.PushOption(out, dir);
    case ArtifactRead(path) =>
      out.PushU8(3);
      ok := out.PushBytes(path);
    case ArtifactWrite(path, bytes) =>
      out.PushU8(4);
      ok := out.PushBytes(path);
      if !ok { return; }
      ok := out.PushBytes(bytes);
  }

  method PushStatus(out: Buffer, st: ResultStatus) returns (ok: bool)
    modifies out
    ensures ok <==> FitsStatus(st)
    ensures ok ==> forall t :: out.bytes + t == old(out.bytes) + PutStatus(st, t)
  {
    hide PutU8, PutBytes;
    match st
    case Finished =>
      out.PushU8(1);
      ok := true;
    case Retryable(reason) =>
      out.PushU8(2);
      ok := out.PushBytes(reason);
    case Rejected(reason) =>
      out.PushU8(3);
      ok := out.PushBytes(reason);
  }

  method PushOutput(out: Buffer, o: ActionOutput) returns (ok: bool)
    modifies out
    ensures ok <==> FitsOutput(o)
    ensures ok ==> forall t :: out.bytes + t == old(out.bytes) + PutOutput(o, t)
  {
    hide PutBytes, T.PutTexts, T.PutValue, T.FitsValue, T.FitsAll;
    ok := out.PushBytes(o.summary);
    if !ok { return; }
    ok := S.PushValue(out, o.value);
    if !ok { return; }
    ok := S.PushTexts(out, o.evidence);
  }

  method PushDescriptor(out: Buffer, d: ArtifactDescriptor) returns (ok: bool)
    modifies out
    ensures ok <==> FitsDescriptor(d)
    ensures ok ==> forall t :: out.bytes + t == old(out.bytes) + PutDescriptor(d, t)
  {
    hide PutU32, PutU64, PutBytes, ArtifactDescriptor.Valid;
    if !d.Valid() { return false; }
    out.PushU64(d.transferId);
    ok := out.PushBytes(d.name);
    if !ok { return; }
    out.PushU64(d.length);
    out.PushRaw(d.hash);
    out.PushU32(d.chunkSize);
  }

  method PushDescriptors(out: Buffer, ds: seq<ArtifactDescriptor>) returns (ok: bool)
    modifies out
    ensures ok <==> All(FitsDescriptor, ds)
    ensures ok ==> forall t :: out.bytes + t == old(out.bytes) + PutMany(PutDescriptor, ds, t)
  {
    hide PutDescriptor, FitsDescriptor;
    for i := 0 to |ds|
      invariant forall k :: 0 <= k < i ==> FitsDescriptor(ds[k])
      invariant forall t :: old(out.bytes) + PutFrom(PutDescriptor, ds, 0, t) == out.bytes + PutFrom(PutDescriptor, ds, i, t)
    {
      var fits := PushDescriptor(out, ds[i]);
      if !fits { return false; }
    }
    ok := true;
  }

  /******* Requests *******/

  /** The fields of a request that its digest covers. */
  method PushAsked(out: Buffer, r: RemoteRequest) returns (ok: bool)
    modifies out
    ensures ok <==> FitsRequest(r)
    ensures ok ==> forall t :: out.bytes + t == old(out.bytes) + PutAsked(r, t)
  {
    hide PutU32, PutU64, PutBytes, PutAction, FitsAction;
    out.PushU64(r.id);
    ok := out.PushBytes(r.capability);
    if !ok { return; }
    out.PushU32(r.version);
    ok := PushAction(out, r.action);
  }

  method DigestRequest(h: HashFn, l: DigestLabels, r: RemoteRequest) returns (digest: Option<Digest>)
    ensures digest == if FitsRequest(r) then Some(h(RequestText(l, r))) else None
  {
    hide PutAsked, FitsRequest;
    var out := new Buffer();
    out.PushRaw(l.request);
    var ok := PushAsked(out, r);
    if !ok { return None; }
    assert out.bytes == out.bytes + [] == l.request + PutAsked(r, []);
    digest := Some(h(out.bytes));
  }

  method ValidateRequest(h: HashFn, l: DigestLabels, r: RemoteRequest) returns (e: Option<PcError>)
    ensures e == RequestFault(h, l, r)
    ensures e.None? <==> ValidRequest(h, l, r)
  {
    hide FitsRequest, RequestText, Blank, RemoteAction.Valid, ValidRequest;
    if r.id == 0 || r.version == 0 { return Some(InvalidMessage); }
    if Blank(r.capability) { return Some(InvalidMessage); }
    if !r.action.Valid() { return Some(InvalidMessage); }
    var digest := DigestRequest(h, l, r);
    if digest.None? { return Some(TooBig); }
    e := if digest.value != r.digest then Some(InvalidMessage) else None;
  }

  /******* Results *******/

  method PushReport(out: Buffer, r: RemoteResult) returns (ok: bool)
    modifies out
    ensures ok <==> FitsStatus(r.status) && FitsOutput(r.output) && |r.artifacts| <= U32_MAX && All(FitsDescriptor, r.artifacts)
    ensures ok ==> forall t :: out.bytes + t == old(out.bytes) + PutReport(r, t)
  {
    hide PutU32, PutStatus, PutOutput, PutMany, FitsStatus, FitsOutput, All;
    ok := PushStatus(out, r.status);
    if !ok { return; }
    ok := PushOutput(out, r.output);
    if !ok { return; }
    if |r.artifacts| > U32_MAX { return false; }
    out.PushU32(|r.artifacts|);
    ok := PushDescriptors(out, r.artifacts);
  }

  /** The fields of a result that its digest covers. */
  method PushAnswered(out: Buffer, r: RemoteResult) returns (ok: bool)
    modifies out
    ensures ok <==> FitsResult(r)
    ensures ok ==> forall t :: out.bytes + t == old(out.bytes) + PutAnswered(r, t)
  {
    hide PutU32, PutU64, PutBytes, PutReport, FitsStatus, FitsOutput, All;
    out.PushU64(r.id);
    ok := out.PushBytes(r.capability);
    if !ok { return; }
    out.PushU32(r.version);
    out.PushRaw(r.requestDigest);
    ok := PushReport(out, r);
  }

  method DigestResult(h: HashFn, l: DigestLabels, r: RemoteResult) returns (digest: Option<Digest>)
    ensures digest == if FitsResult(r) then Some(h(ResultText(l, r))) else None
  {
    hide PutAnswered, FitsResult;
    var out := new Buffer();
    out.PushRaw(l.result);
    var ok := PushAnswered(out, r);
    if !ok { return None; }
    assert out.bytes == out.bytes + [] == l.result + PutAnswered(r, []);
    digest := Some(h(out.bytes));
  }

  method ValidateArtifacts(ds: seq<ArtifactDescriptor>) returns (ok: bool)
    ensures ok <==> AscendingIds(ds)
  {
    hide ArtifactDescriptor.Valid;
    var previous: u64 := 0;
    for i := 0 to |ds|
      invariant previous == if i == 0 then 0 else ds[i - 1].transferId
      invariant forall k :: 0 <= k < i ==> ds[k].Valid() && (if k == 0 then 0 else ds[k - 1].transferId) < ds[k].transferId
    {
      if !ds[i].Valid() || ds[i].transferId <= previous { return false; }
      previous := ds[i].transferId;
    }
    ok := true;
  }

  method ValidateFields(r: RemoteResult) returns (e: Option<PcError>)
    ensures e == FieldsFault(r)
  {
    hide Blank, AscendingIds;
    if r.id == 0 || r.version == 0 { return Some(InvalidMessage); }
    if Blank(r.capability) { return Some(InvalidMessage); }
    if !r.status.Finished? && Blank(r.status.reason) { return Some(InvalidMessage); }
    var ok := ValidateArtifacts(r.artifacts);
    e := if ok then None else Some(InvalidArtifact);
  }

  method ValidateResult(h: HashFn, l: DigestLabels, r: RemoteResult) returns (e: Option<PcError>)
    ensures e == ResultFault(h, l, r)
    ensures e.None? <==> ValidResult(h, l, r)
  {
    hide FitsResult, ResultText, ValidFields, FieldsFault, ValidResult;
    e := ValidateFields(r);
    if e.Some? { return; }
    var digest := DigestResult(h, l, r);
    if digest.None? { return Some(TooBig); }
    e := if digest.value != r.digest then Some(InvalidMessage) else None;
  }

  /******* Capabilities *******/

  method ValidateCapabilities(cs: seq<RemoteCapability>) returns (ok: bool)
    ensures ok <==> All(ValidCapability, cs) && AscendingCapabilities(cs)
  {
    hide RemoteCapability.Valid, Less;
    for i := 0 to |cs|
      invariant forall k :: 0 <= k < i ==> ValidCapability(cs[k])
      invariant forall k :: 0 < k < i ==> Less(cs[k - 1].id, cs[k].id)
    {
      if !cs[i].Valid() {
        assert !ValidCapability(cs[i]);
        return false;
      }
      if i > 0 && !Less(cs[i - 1].id, cs[i].id) { return false; }
    }
    ok := true;
  }

  method PushCapability(out: Buffer, c: RemoteCapability) returns (ok: bool)
    modifies out
    ensures ok <==> FitsCapability(c)
    ensures ok ==> forall t :: out.bytes + t == old(out.bytes) + PutCapability(c, t)
  {
    hide PutU8, PutU32, PutBytes, T.PutBool, T.PutTexts, T.FitsAll, T.SideEffectTag, RemoteCapability.Valid;
    if !c.Valid() { return false; }
    ok := out.PushBytes(c.id);
    if !ok { return; }
    out.PushU32(c.version);
    out.PushU8(T.SideEffectTag(c.sideEffect));
    S.PushBool(out, c.verify);
    S.PushBool(out, c.rollback);
    S.PushBool(out, c.resumable);
    ok := S.PushTexts(out, c.scopes);
  }

  method PushCapabilities(out: Buffer, cs: seq<RemoteCapability>) returns (ok: bool)
    modifies out
    ensures ok <==> All(FitsCapability, cs)
    ensures ok ==> forall t :: out.bytes + t == old(out.bytes) + PutMany(PutCapability, cs, t)
  {
    hide PutCapability, FitsCapability;
    for i := 0 to |cs|
      invariant forall k :: 0 <= k < i ==> FitsCapability(cs[k])
      invariant forall t :: old(out.bytes) + PutFrom(PutCapability, cs, 0, t) == out.bytes + PutFrom(PutCapability, cs, i, t)
    {
      var fits := PushCapability(out, cs[i]);
      if !fits { return false; }
    }
    ok := true;
  }

  /******* encode_message *******/

  /** The fault of a message's body, before the length of its payload is looked at. */
  ghost function BodyFault(h: HashFn, l: DigestLabels, m: RemoteMessage): Option<PcError> {
    match m
    case Capabilities(cs) =>
      if !All(ValidCapability, cs) || !AscendingCapabilities(cs) then Some(InvalidMessage)
      else if |cs| > U32_MAX || !All(FitsCapability, cs) then Some(TooBig)
      else None
    case Request(q) => RequestFault(h, l, q)
    case ResultMessage(r) => ResultFault(h, l, r)
    case Chunk(c) => if c.transferId == 0 then Some(InvalidArtifact) else if !T.Fits(c.data) then Some(TooBig) else None
    case Pull(transferId, _) => if transferId == 0 then Some(InvalidArtifact) else None
    case CapabilityQuery => None
  }

  method CapabilitiesPayload(cs: seq<RemoteCapability>) returns (r: Result<Bytes, PcError>)
    ensures r == if !All(ValidCapability, cs) || !AscendingCapabilities(cs) then Err(InvalidMessage)
                 else if |cs| > U32_MAX || !All(FitsCapability, cs) then Err(TooBig)
                 else Ok(Payload(Capabilities(cs)))
  {
    hide All, AscendingCapabilities, PutU32, PutMany;
    var ok := ValidateCapabilities(cs);
    if !ok { return Err(InvalidMessage); }
    if |cs| > U32_MAX { return Err(TooBig); }
    var out := new Buffer();
    out.PushU32(|cs|);
    ok := PushCapabilities(out, cs);
    if !ok { return Err(TooBig); }
    ghost var expected := Payload(Capabilities(cs));
    assert out.bytes == out.bytes + [] == [] + expected == expected;
    r := Ok(out.bytes);
  }

  method RequestPayload(h: HashFn, l: DigestLabels, q: RemoteRequest) returns (r: Result<Bytes, PcError>)
    ensures r == match RequestFault(h, l, q) case Some(e) => Err(e) case None => Ok(Payload(Request(q)))
  {
    hide RequestFault, PutAsked, FitsRequest, RequestText;
    var fault := ValidateRequest(h, l, q);
    if fault.Some? { return Err(fault.value); }
    var out := new Buffer();
    var ok := PushAsked(out, q);
    out.PushRaw(q.digest);
    ghost var expected := Payload(Request(q));
    assert out.bytes == out.bytes + [] == [] + expected == expected;
    r := Ok(out.bytes);
  }

  method ResultPayload(h: HashFn, l: DigestLabels, result: RemoteResult) returns (r: Result<Bytes, PcError>)
    ensures r == match ResultFault(h, l, result) case Some(e) => Err(e) case None => Ok(Payload(ResultMessage(result)))
  {
    hide ResultFault, PutAnswered, FitsResult, ResultText, ValidFields;
    var fault := ValidateResult(h, l, result);
    if fault.Some? { return Err(fault.value); }
    var out := new Buffer();
    var ok := PushAnswered(out, result);
    out.PushRaw(result.digest);
    ghost var expected := Payload(ResultMessage(result));
    assert out.bytes == out.bytes + [] == [] + expected == expected;
    r := Ok(out.bytes);
  }

  method TransferPayload(transferId: u64, offset: u64, data: Option<Bytes>) returns (r: Result<Bytes, PcError>)
    ensures r == if transferId == 0 then Err(InvalidArtifact)
                 else if data.Some? && !T.Fits(data.value) then Err(TooBig)
                 else Ok(PutU64(transferId, PutU64(offset, if data.Some? then PutBytes(data.value, []) else [])))
  {
    hide PutU64, PutBytes;
    if transferId == 0 { return Err(InvalidArtifact); }
    var out := new Buffer();
    out.PushU64(transferId);
    out.PushU64(offset);
    if data.Some? {
      var ok := out.PushBytes(data.value);
      if !ok { return Err(TooBig); }
    }
    ghost var expected := PutU64(transferId, PutU64(offset, if data.Some? then PutBytes(data.value, []) else []));
    assert out.bytes == out.bytes + [] == [] + expected == expected;
    r := Ok(out.bytes);
  }

  method BuildPayload(h: HashFn, l: DigestLabels, m: RemoteMessage) returns (r: Result<Bytes, PcError>)
    ensures r == match BodyFault(h, l, m) case Some(e) => Err(e) case None => Ok(Payload(m))
  {
    hide All, AscendingCapabilities, RequestFault, ResultFault, PutRequest, PutResult, PutMany, PutU32, PutU64, PutBytes;
    match m
    case Capabilities(cs) => r := CapabilitiesPayload(cs);
    case Request(q) => r := RequestPayload(h, l, q);
    case ResultMessage(result) => r := ResultPayload(h, l, result);
    case Chunk(c) => r := TransferPayload(c.transferId, c.offset, Some(c.data));
    case Pull(transferId, offset) => r := TransferPayload(transferId, offset, None);
    case CapabilityQuery => r := Ok([]);
  }

  lemma FaultInOrder(h: HashFn, l: DigestLabels, m: RemoteMessage)
    ensures SendFault(h, l, m) == if BodyFault(h, l, m).Some? then BodyFault(h, l, m)
                                  else if |Payload(m)| > U32_MAX then Some(TooBig) else None
  {
    hide All, AscendingCapabilities, RequestFault, ResultFault, Payload;
  }

  /** Sends exactly the sendable messages; every error is that of the first check that fails. */
  method EncodeWire(h: HashFn, l: DigestLabels, m: RemoteMessage) returns (r: Result<Bytes, PcError>)
    ensures r == EncodeMessage(h, l, m)
    ensures r.Ok? ==> DecodeMessage(h, l, r.value) == Ok(m)
  {
    hide BodyFault, SendFault, Sendable, Payload, PutU8, PutU16, PutU32, DecodeMessage;
    if EncodeMessage(h, l, m).Ok? {
      MessageReadBack(h, l, m);
    }
    FaultInOrder(h, l, m);
    var payload := BuildPayload(h, l, m);
    if payload.Err? { return Err(payload.error); }
    if |payload.value| > U32_MAX { return Err(TooBig); }
    var out := new Buffer();
    out.PushRaw(PCF_MAGIC);
    out.PushU16(PCF_MAJOR);
    out.PushU16(PCF_MINOR);
    out.PushU8(MessageTag(m));
    out.PushU8(0);
    out.PushU32(|payload.value|);
    assert out.bytes + payload.value == [] + MessageBytes(m) == MessageBytes(m);
    out.PushRaw(payload.value);
    r := Ok(out.bytes);
  }

  /******* Decoding *******/

  method ReadText(c: Cursor) returns (r: Result<Str, PcError>)
    requires c.Valid()
    modifies c
    ensures c.Valid() && Follows(Mapped(T.GetText(old(c.Rest()))), r, c.Rest())
  {
    hide T.GetText;
    var x := S.ReadText(c);
    r := x.OrError(InvalidMessage);
  }

  method ReadBlob(c: Cursor) returns (r: Result<Bytes, PcError>)
    requires c.Valid()
    modifies c
    ensures c.Valid() && Follows(Mapped(T.GetBlob(old(c.Rest()))), r, c.Rest())
  {
    hide T.GetBlob;
    var x := S.ReadBlob(c);
    r := x.OrError(InvalidMessage);
  }

  method ReadTexts(c: Cursor) returns (r: Result<seq<Str>, PcError>)
    requires c.Valid()
    modifies c
    ensures c.Valid() && Follows(Mapped(T.GetTexts(old(c.Rest()))), r, c.Rest())
  {
    hide T.GetTexts;
    var x := S.ReadTexts(c);
    r := x.OrError(InvalidMessage);
  }

  method ReadBool(c: Cursor) returns (r: Result<bool, PcError>)
    requires c.Valid()
    modifies c
    ensures c.Valid() && Follows(Mapped(T.GetBool(old(c.Rest()))), r, c.Rest())
  {
    hide T.GetBool;
    var x := S.ReadBool(c);
    r := x.OrError(InvalidMessage);
  }

  method ReadAction(c: Cursor) returns (r: Result<RemoteAction, PcError>)
    requires c.Valid()
    modifies c
    ensures c.Valid() && Follows(GetAction(old(c.Rest())), r, c.Rest())
  {
    hide GetU8, T.GetText, T.GetTexts, T.GetOptionalText, T.GetBlob;
    var tag := c.U8(InvalidMessage);
    if tag.Err? { return Err(tag.error); }
    if !(1 <= tag.value <= 4) { return Err(InvalidMessage); }
    var x := ReadText(c);
    if x.Err? { return Err(x.error); }
    if tag.value == 2 {
      var args := ReadTexts(c);
      if args.Err? { return Err(args.error); }
      var dir := S.ReadOptionalText(c);
      if dir.Err? { return Err(InvalidMessage); }
      r := Ok(Execute(x.value, args.value, dir.value));
    } else if tag.value == 4 {
      var bytes := ReadBlob(c);
      if bytes.Err? { return Err(bytes.error); }
      r := Ok(ArtifactWrite(x.value, bytes.value));
    } else {
      r := Ok(if tag.value == 1 then Observe(x.value) else ArtifactRead(x.value));
    }
  }

  method ReadStatus(c: Cursor) returns (r: Result<ResultStatus, PcError>)
    requires c.Valid()
    modifies c
    ensures c.Valid() && Follows(GetStatus(old(c.Rest())), r, c.Rest())
  {
    hide GetU8, T.GetText, PutStatus;
    var tag := c.U8(InvalidMessage);
    if tag.Err? { return Err(tag.error); }
    if tag.value == 1 { return Ok(Finished); }
    if tag.value != 2 && tag.value != 3 { return Err(InvalidMessage); }
    var reason := ReadText(c);
    if reason.Err? { return Err(reason.error); }
    r := Ok(if tag.value == 2 then Retryable(reason.value) else Rejected(reason.value));
  }

  method ReadOutput(c: Cursor) returns (r: Result<ActionOutput, PcError>)
    requires c.Valid()
    modifies c
    ensures c.Valid() && Follows(GetOutput(old(c.Rest())), r, c.Rest())
  {
    hide T.GetText, T.GetValue, T.GetTexts;
    var summary := ReadText(c);
    if summary.Err? { return Err(summary.error); }
    var v := S.ReadValue(c);
    if v.Err? { return Err(InvalidMessage); }
    var evidence := ReadTexts(c);
    if evidence.Err? { return Err(evidence.error); }
    r := Ok(ActionOutput(summary.value, v.value, evidence.value));
  }

  method ReadDescriptor(c: Cursor) returns (r: Result<ArtifactDescriptor, PcError>)
    requires c.Valid()
    modifies c
    ensures c.Valid() && Follows(GetDescriptor(old(c.Rest())), r, c.Rest())
  {
    hide GetU32, GetU64, GetRaw, T.GetText, ArtifactDescriptor.Valid;
    var transferId := c.U64(InvalidMessage);
    if transferId.Err? { return Err(transferId.error); }
    var name := ReadText(c);
    if name.Err? { return Err(name.error); }
    var length := c.U64(InvalidMessage);
    if length.Err? { return Err(length.error); }
    var hash := c.Take(32, InvalidMessage);
    if hash.Err? { return Err(hash.error); }
    var chunkSize := c.U32(InvalidMessage);
    if chunkSize.Err? { return Err(chunkSize.error); }
    var d := ArtifactDescriptor(transferId.value, name.value, length.value, hash.value, chunkSize.value);
    r := if d.Valid() then Ok(d) else Err(InvalidArtifact);
  }

  method ReadDescriptors(c: Cursor, n: u32) returns (r: Result<seq<ArtifactDescriptor>, PcError>)
    requires c.Valid()
    modifies c
    ensures c.Valid() && Follows(GetMany(GetDescriptor, n, old(c.Rest())), r, c.Rest())
  {
    hide GetDescriptor;
    var xs: seq<ArtifactDescriptor> := [];
    for i := 0 to n
      invariant c.Valid() && |xs| == i
      invariant GetMany(GetDescriptor, n, old(c.Rest())) == GetMore(GetDescriptor, n - i, xs, c.Rest())
    {
      var x := ReadDescriptor(c);
      if x.Err? { return Err(x.error); }
      xs := xs + [x.value];
    }
    r := Ok(xs);
  }

  method ReadRequest(h: HashFn, l: DigestLabels, c: Cursor) returns (r: Result<RemoteRequest, PcError>)
    requires c.Valid()
    modifies c
    ensures c.Valid() && Follows(GetRequest(h, l, old(c.Rest())), r, c.Rest())
  {
    hide GetU32, GetU64, GetRaw, T.GetText, GetAction, RequestFault, ValidRequest;
    var id := c.U64(InvalidMessage);
    if id.Err? { return Err(id.error); }
    var capability := ReadText(c);
    if capability.Err? { return Err(capability.error); }
    var version := c.U32(InvalidMessage);
    if version.Err? { return Err(version.error); }
    var action := ReadAction(c);
    if action.Err? { return Err(action.error); }
    var digest := c.Take(32, InvalidMessage);
    if digest.Err? { return Err(digest.error); }
    var q := RemoteRequest(id.value, capability.value, version.value, action.value, digest.value);
    var fault := ValidateRequest(h, l, q);
    r := if fault.Some? then Err(fault.value) else Ok(q);
  }

  method ReadReport(c: Cursor) returns (r: Result<Report, PcError>)
    requires c.Valid()
    modifies c
    ensures c.Valid() && Follows(GetReport(old(c.Rest())), r, c.Rest())
  {
    hide GetU32, GetStatus, GetOutput, GetDescriptor, GetMany;
    var status := ReadStatus(c);
    if status.Err? { return Err(status.error); }
    var output := ReadOutput(c);
    if output.Err? { return Err(output.error); }
    var n := c.U32(InvalidMessage);
    if n.Err? { return Err(n.error); }
    var artifacts := ReadDescriptors(c, n.value);
    if artifacts.Err? { return Err(artifacts.error); }
    r := Ok(Report(status.value, output.value, artifacts.value));
  }

  method ReadResult(h: HashFn, l: DigestLabels, c: Cursor) returns (r: Result<RemoteResult, PcError>)
    requires c.Valid()
    modifies c
    ensures c.Valid() && Follows(GetResult(h, l, old(c.Rest())), r, c.Rest())
  {
    hide GetU32, GetU64, GetRaw, T.GetText, GetReport, ResultFault, ValidResult;
    var id := c.U64(InvalidMessage);
    if id.Err? { return Err(id.error); }
    var capability := ReadText(c);
    if capability.Err? { return Err(capability.error); }
    var version := c.U32(InvalidMessage);
    if version.Err? { return Err(version.error); }
    var requestDigest := c.Take(32, InvalidMessage);
    if requestDigest.Err? { return Err(requestDigest.error); }
    var report := ReadReport(c);
    if report.Err? { return Err(report.error); }
    var digest := c.Take(32, InvalidMessage);
    if digest.Err? { return Err(digest.error); }
    var result := RemoteResult(id.value, capability.value, version.value, requestDigest.value,
                               report.value.status, report.value.output, report.value.artifacts, digest.value);
    var fault := ValidateResult(h, l, result);
    r := if fault.Some? then Err(fault.value) else Ok(result);
  }

  method ReadCapability(c: Cursor) returns (r: Result<RemoteCapability, PcError>)
    requires c.Valid()
    modifies c
    ensures c.Valid() && Follows(GetCapability(old(c.Rest())), r, c.Rest())
    ensures r.Ok? ==> ValidCapability(r.value)
  {
    hide GetU32, T.GetText, T.GetSideEffect, T.GetBool, T.GetTexts, RemoteCapability.Valid;
    var id := ReadText(c);
    if id.Err? { return Err(id.error); }
    var version := c.U32(InvalidMessage);
    if version.Err? { return Err(version.error); }
    var sideEffect := S.ReadSideEffect(c);
    if sideEffect.Err? { return Err(InvalidMessage); }
    var verify := ReadBool(c);
    if verify.Err? { return Err(verify.error); }
    var rollback := ReadBool(c);
    if rollback.Err? { return Err(rollback.error); }
    var resumable := ReadBool(c);
    if resumable.Err? { return Err(resumable.error); }
    var scopes := ReadTexts(c);
    if scopes.Err? { return Err(scopes.error); }
    var x := RemoteCapability(id.value, version.value, sideEffect.value, verify.value, rollback.value, resumable.value, scopes.value);
    r := if x.Valid() then Ok(x) else Err(InvalidMessage);
  }

  method ReadCapabilities(c: Cursor, n: u32) returns (r: Result<seq<RemoteCapability>, PcError>)
    requires c.Valid()
    modifies c
    ensures c.Valid() && Follows(GetMany(GetCapability, n, old(c.Rest())), r, c.Rest())
    ensures r.Ok? ==> All(ValidCapability, r.value)
  {
    hide GetCapability, ValidCapability;
    var xs: seq<RemoteCapability> := [];
    for i := 0 to n
      invariant c.Valid() && |xs| == i
      invariant forall k :: 0 <= k < i ==> ValidCapability(xs[k])
      invariant GetMany(GetCapability, n, old(c.Rest())) == GetMore(GetCapability, n - i, xs, c.Rest())
    {
      var x := ReadCapability(c);
      if x.Err? { return Err(x.error); }
      xs := xs + [x.value];
    }
    r := Ok(xs);
  }

  method ReadPayload(h: HashFn, l: DigestLabels, tag: u8, c: Cursor) returns (r: Result<RemoteMessage, PcError>)
    requires c.Valid()
    modifies c
    ensures c.Valid() && Follows(GetPayload(h, l, tag, old(c.Rest())), r, c.Rest())
  {
    hide GetU32, GetU64, T.GetBlob, GetRequest, GetResult, GetMany, GetCapability, All, AscendingCapabilities;
    if tag == 1 {
      var n := c.U32(InvalidMessage);
      if n.Err? { return Err(n.error); }
      var cs := ReadCapabilities(c, n.value);
      if cs.Err? { return Err(cs.error); }
      var ok := ValidateCapabilities(cs.value);
      r := if ok then Ok(Capabilities(cs.value)) else Err(InvalidMessage);
    } else if tag == 2 {
      var q := ReadRequest(h, l, c);
      r := if q.Err? then Err(q.error) else Ok(Request(q.value));
    } else if tag == 3 {
      var result := ReadResult(h, l, c);
      r := if result.Err? then Err(result.error) else Ok(ResultMessage(result.value));
    } else if tag == 4 || tag == 5 {
      var transferId := c.U64(InvalidMessage);
      if transferId.Err? { return Err(transferId.error); }
      var offset := c.U64(InvalidMessage);
      if offset.Err? { return Err(offset.error); }
      if tag == 5 { return Ok(Pull(transferId.value, offset.value)); }
      var data := ReadBlob(c);
      if data.Err? { return Err(data.error); }
      r := Ok(Chunk(ArtifactChunk(transferId.value, offset.value, data.value)));
    } else if tag == 6 {
      r := Ok(CapabilityQuery);
    } else {
      r := Err(InvalidMessage);
    }
  }

  method DecodeWire(h: HashFn, l: DigestLabels, bytes: Vec<byte>) returns (r: Result<RemoteMessage, PcError>)
    ensures r == DecodeMessage(h, l, bytes)
  {
    hide GetRaw, GetU8, GetU16, GetU32, GetPayload;
    var c := new Cursor(bytes);
    var magic := c.Take(6, InvalidFrame);
    if magic.Err? { return Err(magic.error); }
    var major := c.U16(InvalidFrame);
    if major.Err? { return Err(major.error); }
    var minor := c.U16(InvalidFrame);
    if minor.Err? { return Err(minor.error); }
    var tag := c.U8(InvalidFrame);
    if tag.Err? { return Err(tag.error); }
    var reserved := c.U8(InvalidFrame);
    if reserved.Err? { return Err(reserved.error); }
    var n := c.U32(InvalidFrame);
    if n.Err? { return Err(n.error); }
    if magic.value != PCF_MAGIC || major.value != PCF_MAJOR || minor.value > PCF_MINOR || reserved.value != 0
       || |bytes| - c.offset != n.value {
      return Err(InvalidFrame);
    }
    var m := ReadPayload(h, l, tag.value, c);
    if m.Err? { return Err(m.error); }
    var done := c.IsFinished();
    r := if done then Ok(m.value) else Err(InvalidMessage);
  }
}
