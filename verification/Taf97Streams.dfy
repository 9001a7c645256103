/**
 The TAF97 encoder and decoder as they run: pushes into one growing buffer, and a cursor
 that moves over the input. Each method is proved against its Put or Get function, so
 whatever is proved of the format holds of them.
 */
module Taf97Streams {
  import opened Wrappers
  import opened Bytes
  import opened Streams
  import opened Ordering
  import opened Actions
  import opened FabricModel
  import opened FabricInvariant
  import opened FabricValidation
  import opened Taf97Format
  import opened Taf97

  /******* Encoding *******/

  method PushOption(out: Buffer, o: Option<Bytes>) returns (ok: bool)
    modifies out
    ensures ok <==> FitsOption(o)
    ensures ok ==> forall t :: out.bytes + t == old(out.bytes) + PutOption(o, t)
  {
    hide PutU8, PutBytes;
    if o.None? {
      out.PushU8(0);
      return true;
    }
    out.PushU8(1);
    ok := out.PushBytes(o.value);
  }

  method PushBool(out: Buffer, b: bool)
    modifies out
    ensures forall t :: out.bytes + t == old(out.bytes) + PutBool(b, t)
  {
    out.PushU8(if b then 1 else 0);
  }

  method PushTexts(out: Buffer, xs: seq<Str>) returns (ok: bool)
    modifies out
    ensures ok <==> FitsAll(xs)
    ensures ok ==> forall t :: out.bytes + t == old(out.bytes) + PutTexts(xs, t)
  {
    hide PutU32, PutBytes;
    if |xs| > U32_MAX {
      return false;
    }
    out.PushU32(|xs|);
    ghost var start := out.bytes;
    for i := 0 to |xs|
      invariant forall k :: 0 <= k < i ==> FitsText(xs[k])
      invariant forall t :: start + PutFrom(PutText, xs, 0, t) == out.bytes + PutFrom(PutText, xs, i, t)
    {
      var fits := out.PushBytes(xs[i]);
      if !fits {
        assert !FitsText(xs[i]);
        return false;
      }
    }
    ok := true;
  }

  method PushFields(out: Buffer, e: seq<Field>) returns (ok: bool)
    modifies out
    ensures ok <==> FitsEntries(e)
    ensures ok ==> forall t :: out.bytes + t == old(out.bytes) + PutFields(e, t)
  {
    hide PutU32, PutBytes;
    if |e| > U32_MAX {
      return false;
    }
    out.PushU32(|e|);
    ghost var start := out.bytes;
    for i := 0 to |e|
      invariant forall k :: 0 <= k < i ==> FitsEntry(e[k])
      invariant forall t :: start + PutFrom(PutEntry, e, 0, t) == out.bytes + PutFrom(PutEntry, e, i, t)
    {
      var fits := out.PushBytes(e[i].key);
      if fits {
        fits := out.PushBytes(e[i].text);
      }
      if !fits {
        assert !FitsEntry(e[i]);
        return false;
      }
    }
    ok := true;
  }

  method PushValue(out: Buffer, v: ActionValue) returns (ok: bool)
    modifies out
    ensures ok <==> FitsValue(v)
    ensures ok ==> forall t :: out.bytes + t == old(out.bytes) + PutValue(v, t)
  {
    hide PutU8, PutBytes, PutTexts, PutFields;
    match v {
      case Nothing =>
        out.PushU8(0);
        ok := true;
      case Text(text) =>
        out.PushU8(1);
        ok := out.PushBytes(text);
      case Blob(blob) =>
        out.PushU8(2);
        ok := out.PushBytes(blob);
      case TextList(texts) =>
        out.PushU8(3);
        ok := PushTexts(out, texts);
      case Fields(fields) =>
        out.PushU8(4);
        ok := PushFields(out, fields);
    }
  }

  method PushOutput(out: Buffer, o: Option<ActionOutput>) returns (ok: bool)
    modifies out
    ensures ok <==> FitsOutput(o)
    ensures ok ==> forall t :: out.bytes + t == old(out.bytes) + PutOutput(o, t)
  {
    hide PutU8, PutBytes, PutTexts, PutValue;
    if o.None? {
      out.PushU8(0);
      return true;
    }
    out.PushU8(1);
    ok := out.PushBytes(o.value.summary);
    if !ok { return; }
    ok := PushValue(out, o.value.value);
    if !ok { return; }
    ok := PushTexts(out, o.value.evidence);
  }

  method PushText2(out: Buffer, a: Bytes, b: Bytes) returns (ok: bool)
    modifies out
    ensures ok <==> Fits(a) && Fits(b)
    ensures ok ==> forall t :: out.bytes + t == old(out.bytes) + PutText2(a, b, t)
  {
    hide PutBytes;
    ok := out.PushBytes(a);
    if !ok { return; }
    ok := out.PushBytes(b);
  }

  method PushText2Option(out: Buffer, a: Bytes, b: Bytes, o: Option<Bytes>) returns (ok: bool)
    modifies out
    ensures ok <==> Fits(a) && Fits(b) && FitsOption(o)
    ensures ok ==> forall t :: out.bytes + t == old(out.bytes) + PutText2Option(a, b, o, t)
  {
    hide PutText2, PutOption;
    ok := PushText2(out, a, b);
    if !ok { return; }
    ok := PushOption(out, o);
  }

  method PushText2Blob(out: Buffer, a: Bytes, b: Bytes, c: Bytes) returns (ok: bool)
    modifies out
    ensures ok <==> Fits(a) && Fits(b) && Fits(c)
    ensures ok ==> forall t :: out.bytes + t == old(out.bytes) + PutText2Blob(a, b, c, t)
  {
    hide PutText2, PutBytes;
    ok := PushText2(out, a, b);
    if !ok { return; }
    ok := out.PushBytes(c);
  }

  method PushProcess(out: Buffer, peer: Str, program: Str, args: seq<Str>, dir: Option<Str>) returns (ok: bool)
    modifies out
    ensures ok <==> Fits(peer) && Fits(program) && FitsAll(args) && FitsOption(dir)
    ensures ok ==> forall t :: out.bytes + t == old(out.bytes) + PutProcess(peer, program, args, dir, t)
  {
    hide PutText2, PutTexts, PutOption, FitsAll;
    ok := PushText2(out, peer, program);
    if !ok { return; }
    ok := PushTexts(out, args);
    if !ok { return; }
    ok := PushOption(out, dir);
  }

  function ActionTag(a: TypedAction): u8 {
    match a
    case WebSearch(_, _) => 1
    case WebFetch(_) => 2
    case BrowserObserve(_) => 3
    case BrowserInteract(_, _, _) => 4
    case FileRead(_) => 5
    case FileWrite(_, _) => 6
    case DeviceObserve(_) => 7
    case DeviceInteract(_, _, _) => 8
    case AppAction(_, _, _) => 9
    case CustomAction(_, _) => 10
    case PcObserve(_, _) => 11
    case PcExecute(_, _, _, _) => 12
    case PcArtifactRead(_, _) => 13
    case PcArtifactWrite(_, _, _) => 14
    case ArtifactDownload(_, _) => 15
    case ArtifactUpload(_, _) => 16
  }

  method PushAction(out: Buffer, a: TypedAction) returns (ok: bool)
    modifies out
    ensures ok <==> FitsAction(a)
    ensures ok ==> forall t :: out.bytes + t == old(out.bytes) + PutAction(a, t)
  {
    hide PutU8, PutU16, PutBytes, PutText2Option, PutText2Blob, PutProcess, FitsOption, FitsAll;
    out.PushU8(ActionTag(a));
    match a {
      case WebSearch(query, maxResults) =>
        ok := out.PushBytes(query);
        if ok { out.PushU16(maxResults); }
      case WebFetch(url) => ok := out.PushBytes(url);
      case BrowserObserve(target) => ok := out.PushBytes(target);
      case BrowserInteract(target, operation, input) => ok := PushText2Option(out, target, operation, input);
      case FileRead(path) => ok := out.PushBytes(path);
      case FileWrite(path, content) => ok := PushText2(out, path, content);
      case DeviceObserve(surface) => ok := out.PushBytes(surface);
      case DeviceInteract(surface, operation, argument) => ok := PushText2Option(out, surface, operation, argument);
      case AppAction(app, action, payload) => ok := PushText2Blob(out, app, action, payload);
      case CustomAction(typeName, payload) => ok := PushText2(out, typeName, payload);
      case PcObserve(peer, surface) => ok := PushText2(out, peer, surface);
      case PcExecute(peer, program, args, dir) => ok := PushProcess(out, peer, program, args, dir);
      case PcArtifactRead(peer, path) => ok := PushText2(out, peer, path);
      case PcArtifactWrite(peer, path, content) => ok := PushText2Blob(out, peer, path, content);
      case ArtifactDownload(url, path) => ok := PushText2(out, url, path);
      case ArtifactUpload(url, path) => ok := PushText2(out, url, path);
    }
  }

  method PushIdentity(out: Buffer, a: PlannedAction) returns (ok: bool)
    modifies out
    ensures ok <==> Fits(a.capability)
    ensures ok ==> forall t :: out.bytes + t == old(out.bytes) + PutIdentity(IdentityOf(a), t)
  {
    hide PutU8, PutU32, PutU64, PutBytes, PutBool;
    out.PushU64(a.id);
    out.PushU32(a.nodeId);
    ok := out.PushBytes(a.capability);
    if !ok { return; }
    out.PushU32(a.capabilityVersion);
    out.PushU8(SideEffectTag(a.sideEffect));
    PushBool(out, a.verificationRequired);
  }

  method PushProgress(out: Buffer, a: PlannedAction) returns (ok: bool)
    modifies out
    ensures ok <==> FitsProgress(ProgressOf(a))
    ensures ok ==> forall t :: out.bytes + t == old(out.bytes) + PutProgress(ProgressOf(a), t)
  {
    hide PutU8, PutU32, PutOutput, PutOption, FitsOutput, FitsOption;
    out.PushU8(ActionStatusTag(a.status));
    out.PushU32(a.attempts);
    ok := PushOutput(out, a.output);
    if !ok { return; }
    ok := PushOption(out, a.resumeToken);
    if !ok { return; }
    ok := PushOption(out, a.rollbackToken);
    if !ok { return; }
    ok := PushOption(out, a.lastError);
  }

  method PushPlanned(out: Buffer, a: PlannedAction) returns (ok: bool)
    modifies out
    ensures ok <==> FitsPlanned(a)
    ensures ok ==> forall t :: out.bytes + t == old(out.bytes) + PutPlanned(a, t)
  {
    hide PutIdentity, PutAction, PutProgress, FitsAction, FitsProgress;
    ok := PushIdentity(out, a);
    if !ok { return; }
    ok := PushAction(out, a.action);
    if !ok { return; }
    ok := PushProgress(out, a);
  }

  method PushPlan(out: Buffer, p: PlanState) returns (ok: bool)
    modifies out
    ensures ok <==> FitsPlan(p)
    ensures ok ==> forall t :: out.bytes + t == old(out.bytes) + PutPlan(p, t)
  {
    hide PutU8, PutU32, PutU64, PutPlanned, FitsPlanned;
    if |p.actions| > U32_MAX {
      return false;
    }
    out.PushU64(p.id);
    out.PushU64(p.taskId);
    out.PushU64(p.cursor);
    out.PushU8(PlanStatusTag(p.status));
    out.PushU32(|p.actions|);
    ok := PushActions(out, p.actions);
  }

  method PushActions(out: Buffer, xs: seq<PlannedAction>) returns (ok: bool)
    modifies out
    ensures ok <==> All(FitsPlanned, xs)
    ensures ok ==> forall t :: out.bytes + t == old(out.bytes) + PutMany(PutPlanned, xs, t)
  {
    hide PutPlanned, FitsPlanned;
    for i := 0 to |xs|
      invariant forall k :: 0 <= k < i ==> FitsPlanned(xs[k])
      invariant forall t :: old(out.bytes) + PutFrom(PutPlanned, xs, 0, t) == out.bytes + PutFrom(PutPlanned, xs, i, t)
    {
      var fits := PushPlanned(out, xs[i]);
      if !fits {
        return false;
      }
    }
    ok := true;
  }

  /******* Decoding *******/

  method ReadText(c: Cursor) returns (r: Result<Str, Error>)
    requires c.Valid()
    modifies c
    ensures c.Valid() && Follows(GetText(old(c.Rest())), r, c.Rest())
  {
    r := c.Text(Truncated, InvalidUtf8);
  }

  method ReadBlob(c: Cursor) returns (r: Result<Bytes, Error>)
    requires c.Valid()
    modifies c
    ensures c.Valid() && Follows(GetBlob(old(c.Rest())), r, c.Rest())
  {
    r := c.LengthPrefixed(Truncated);
  }

  method ReadBool(c: Cursor) returns (r: Result<bool, Error>)
    requires c.Valid()
    modifies c
    ensures c.Valid() && Follows(GetBool(old(c.Rest())), r, c.Rest())
  {
    hide GetU8;
    var raw := c.U8(Truncated);
    if raw.Err? { return Err(raw.error); }
    r := if raw.value == 0 then Ok(false) else if raw.value == 1 then Ok(true) else Err(InvalidBoolean(raw.value));
  }

  method ReadOptionalText(c: Cursor) returns (r: Result<Option<Str>, Error>)
    requires c.Valid()
    modifies c
    ensures c.Valid() && Follows(GetOptionalText(old(c.Rest())), r, c.Rest())
  {
    hide GetU8, GetText;
    var tag := c.U8(Truncated);
    if tag.Err? { return Err(tag.error); }
    if tag.value == 0 { return Ok(None); }
    if tag.value != 1 { return Err(InvalidBoolean(tag.value)); }
    var b := ReadText(c);
    r := if b.Err? then Err(b.error) else Ok(Some(b.value));
  }

  method ReadOptionalBlob(c: Cursor) returns (r: Result<Option<Bytes>, Error>)
    requires c.Valid()
    modifies c
    ensures c.Valid() && Follows(GetOptionalBlob(old(c.Rest())), r, c.Rest())
  {
    hide GetU8, GetBlob;
    var tag := c.U8(Truncated);
    if tag.Err? { return Err(tag.error); }
    if tag.value == 0 { return Ok(None); }
    if tag.value != 1 { return Err(InvalidBoolean(tag.value)); }
    var b := ReadBlob(c);
    r := if b.Err? then Err(b.error) else Ok(Some(b.value));
  }

  method ReadTexts(c: Cursor) returns (r: Result<seq<Str>, Error>)
    requires c.Valid()
    modifies c
    ensures c.Valid() && Follows(GetTexts(old(c.Rest())), r, c.Rest())
  {
    hide GetU32, GetText;
    var n := c.U32(Truncated);
    if n.Err? { return Err(n.error); }
    ghost var start := c.Rest();
    var xs: seq<Str> := [];
    for i := 0 to n.value
      invariant c.Valid()
      invariant GetMany(GetText, n.value, start) == GetMore(GetText, n.value - i, xs, c.Rest())
    {
      var x := ReadText(c);
      if x.Err? { return Err(x.error); }
      xs := xs + [x.value];
    }
    r := Ok(xs);
  }

  method ReadFields(c: Cursor) returns (r: Result<seq<Field>, Error>)
    requires c.Valid()
    modifies c
    ensures c.Valid() && Follows(GetFields(old(c.Rest())), r, c.Rest())
  {
    hide GetU32, GetText, Less, PutU32, PutBytes, Fits;
    var n := c.U32(Truncated);
    if n.Err? { return Err(n.error); }
    ghost var start := c.Rest();
    var e: seq<Field> := [];
    for i := 0 to n.value
      invariant c.Valid()
      invariant GetEntries(n.value, [], start) == GetEntries(n.value - i, e, c.Rest())
    {
      var key := ReadText(c);
      if key.Err? { return Err(key.error); }
      if |e| > 0 && !Less(e[|e| - 1].key, key.value) { return Err(NonCanonicalEncoding); }
      var text := ReadText(c);
      if text.Err? { return Err(text.error); }
      e := e + [Field(key.value, text.value)];
    }
    r := Ok(e);
  }

  method ReadValue(c: Cursor) returns (r: Result<ActionValue, Error>)
    requires c.Valid()
    modifies c
    ensures c.Valid() && Follows(GetValue(old(c.Rest())), r, c.Rest())
  {
    hide GetU8, GetText, GetBlob, GetTexts, GetFields;
    var tag := c.U8(Truncated);
    if tag.Err? { return Err(tag.error); }
    if tag.value == 0 { return Ok(Nothing); }
    if tag.value == 1 {
      var text := ReadText(c);
      return if text.Err? then Err(text.error) else Ok(Text(text.value));
    }
    if tag.value == 2 {
      var blob := ReadBlob(c);
      return if blob.Err? then Err(blob.error) else Ok(Blob(blob.value));
    }
    if tag.value == 3 {
      var texts := ReadTexts(c);
      return if texts.Err? then Err(texts.error) else Ok(TextList(texts.value));
    }
    if tag.value == 4 {
      var fields := ReadFields(c);
      return if fields.Err? then Err(fields.error) else Ok(Fields(fields.value));
    }
    r := Err(InvalidValueTag(tag.value));
  }

  method ReadOutput(c: Cursor) returns (r: Result<Option<ActionOutput>, Error>)
    requires c.Valid()
    modifies c
    ensures c.Valid() && Follows(GetOutput(old(c.Rest())), r, c.Rest())
  {
    hide GetU8, GetText, GetValue, GetTexts;
    var tag := c.U8(Truncated);
    if tag.Err? { return Err(tag.error); }
    if tag.value == 0 { return Ok(None); }
    if tag.value != 1 { return Err(InvalidBoolean(tag.value)); }
    var summary := ReadText(c);
    if summary.Err? { return Err(summary.error); }
    var v := ReadValue(c);
    if v.Err? { return Err(v.error); }
    var evidence := ReadTexts(c);
    if evidence.Err? { return Err(evidence.error); }
    r := Ok(Some(ActionOutput(summary.value, v.value, evidence.value)));
  }

  method ReadText2(c: Cursor) returns (r: Result<(Str, Str), Error>)
    requires c.Valid()
    modifies c
    ensures c.Valid() && Follows(GetText2(old(c.Rest())), r, c.Rest())
  {
    hide GetText;
    var a := ReadText(c);
    if a.Err? { return Err(a.error); }
    var b := ReadText(c);
    if b.Err? { return Err(b.error); }
    r := Ok((a.value, b.value));
  }

  method ReadProcess(c: Cursor) returns (r: Result<(Str, Str, seq<Str>, Option<Str>), Error>)
    requires c.Valid()
    modifies c
    ensures c.Valid() && Follows(GetProcess(old(c.Rest())), r, c.Rest())
  {
    hide GetText2, GetTexts, GetOptionalText;
    var names := ReadText2(c);
    if names.Err? { return Err(names.error); }
    var args := ReadTexts(c);
    if args.Err? { return Err(args.error); }
    var dir := ReadOptionalText(c);
    if dir.Err? { return Err(dir.error); }
    r := Ok((names.value.0, names.value.1, args.value, dir.value));
  }

  method ReadPayloadAction(c: Cursor, tag: u8) returns (r: Result<TypedAction, Error>)
    requires c.Valid() && tag in {6, 9, 10, 14}
    modifies c
    ensures c.Valid() && Follows(GetPayloadAction(tag, old(c.Rest())), r, c.Rest())
  {
    hide GetText, GetBlob;
    var a := ReadText(c);
    if a.Err? { return Err(a.error); }
    var b: Str := [];
    if tag == 9 || tag == 14 {
      var second := ReadText(c);
      if second.Err? { return Err(second.error); }
      b := second.value;
    }
    var payload := ReadBlob(c);
    if payload.Err? { return Err(payload.error); }
    r := Ok(if tag == 6 then FileWrite(a.value, payload.value) else if tag == 10 then CustomAction(a.value, payload.value)
            else if tag == 9 then AppAction(a.value, b, payload.value) else PcArtifactWrite(a.value, b, payload.value));
  }

  method ReadInteraction(c: Cursor, tag: u8) returns (r: Result<TypedAction, Error>)
    requires c.Valid() && tag in {4, 8}
    modifies c
    ensures c.Valid() && Follows(GetInteraction(tag, old(c.Rest())), r, c.Rest())
  {
    hide GetText2, GetOptionalText;
    var names := ReadText2(c);
    if names.Err? { return Err(names.error); }
    var o := ReadOptionalText(c);
    if o.Err? { return Err(o.error); }
    r := Ok(if tag == 4 then BrowserInteract(names.value.0, names.value.1, o.value)
            else DeviceInteract(names.value.0, names.value.1, o.value));
  }

  method ReadAction(c: Cursor) returns (r: Result<TypedAction, Error>)
    requires c.Valid()
    modifies c
    ensures c.Valid() && Follows(GetAction(old(c.Rest())), r, c.Rest())
  {
    hide GetU8, GetU16, GetText, GetText2, GetProcess, GetInteraction, GetPayloadAction;
    var tag := c.U8(Truncated);
    if tag.Err? { return Err(tag.error); }
    if tag.value == 1 {
      var query := ReadText(c);
      if query.Err? { return Err(query.error); }
      var maxResults := c.U16(Truncated);
      return if maxResults.Err? then Err(maxResults.error) else Ok(WebSearch(query.value, maxResults.value));
    }
    if tag.value in {2, 3, 5, 7} {
      var x := ReadText(c);
      if x.Err? { return Err(x.error); }
      return Ok(if tag.value == 2 then WebFetch(x.value) else if tag.value == 3 then BrowserObserve(x.value)
                else if tag.value == 5 then FileRead(x.value) else DeviceObserve(x.value));
    }
    if tag.value in {4, 8} {
      r := ReadInteraction(c, tag.value);
      return;
    }
    if tag.value in {6, 9, 10, 14} {
      r := ReadPayloadAction(c, tag.value);
      return;
    }
    if tag.value == 12 {
      var x := ReadProcess(c);
      return if x.Err? then Err(x.error) else Ok(PcExecute(x.value.0, x.value.1, x.value.2, x.value.3));
    }
    if tag.value in {11, 13, 15, 16} {
      var x := ReadText2(c);
      if x.Err? { return Err(x.error); }
      return Ok(if tag.value == 11 then PcObserve(x.value.0, x.value.1) else if tag.value == 13 then PcArtifactRead(x.value.0, x.value.1)
                else if tag.value == 15 then ArtifactDownload(x.value.0, x.value.1) else ArtifactUpload(x.value.0, x.value.1));
    }
    r := Err(InvalidActionTag(tag.value));
  }

  method ReadSideEffect(c: Cursor) returns (r: Result<SideEffect, Error>)
    requires c.Valid()
    modifies c
    ensures c.Valid() && Follows(GetSideEffect(old(c.Rest())), r, c.Rest())
  {
    hide GetU8;
    var tag := c.U8(Truncated);
    if tag.Err? { return Err(tag.error); }
    r := if tag.value == 1 then Ok(ReadOnly) else if tag.value == 2 then Ok(Reversible)
         else if tag.value == 3 then Ok(ExternalWrite) else if tag.value == 4 then Ok(Irreversible)
         else Err(InvalidSideEffect(tag.value));
  }

  method ReadActionStatus(c: Cursor) returns (r: Result<ActionStatus, Error>)
    requires c.Valid()
    modifies c
    ensures c.Valid() && Follows(GetActionStatus(old(c.Rest())), r, c.Rest())
  {
    hide GetU8;
    var tag := c.U8(Truncated);
    if tag.Err? { return Err(tag.error); }
    r := if tag.value == 1 then Ok(Prepared) else if tag.value == 2 then Ok(Running)
         else if tag.value == 3 then Ok(Suspended) else if tag.value == 4 then Ok(Retryable)
         else if tag.value == 5 then Ok(Committed) else if tag.value == 6 then Ok(RolledBack)
         else if tag.value == 7 then Ok(Failed) else Err(InvalidActionStatus(tag.value));
  }

  method ReadPlanStatus(c: Cursor) returns (r: Result<PlanStatus, Error>)
    requires c.Valid()
    modifies c
    ensures c.Valid() && Follows(GetPlanStatus(old(c.Rest())), r, c.Rest())
  {
    hide GetU8;
    var tag := c.U8(Truncated);
    if tag.Err? { return Err(tag.error); }
    r := if tag.value == 1 then Ok(PlanReady) else if tag.value == 2 then Ok(PlanSuspended)
         else if tag.value == 3 then Ok(PlanCompleted) else if tag.value == 4 then Ok(PlanFailed)
         else if tag.value == 5 then Ok(PlanRolledBack) else Err(InvalidPlanStatus(tag.value));
  }

  method ReadIdentity(c: Cursor) returns (r: Result<Identity, Error>)
    requires c.Valid()
    modifies c
    ensures c.Valid() && Follows(GetIdentity(old(c.Rest())), r, c.Rest())
  {
    hide GetU64, GetU32, GetText, GetSideEffect, GetBool;
    var id := c.U64(Truncated);
    if id.Err? { return Err(id.error); }
    var nodeId := c.U32(Truncated);
    if nodeId.Err? { return Err(nodeId.error); }
    var capability := ReadText(c);
    if capability.Err? { return Err(capability.error); }
    var version := c.U32(Truncated);
    if version.Err? { return Err(version.error); }
    var sideEffect := ReadSideEffect(c);
    if sideEffect.Err? { return Err(sideEffect.error); }
    var verify := ReadBool(c);
    if verify.Err? { return Err(verify.error); }
    r := Ok(Identity(id.value, nodeId.value, capability.value, version.value, sideEffect.value, verify.value));
  }

  method ReadProgress(c: Cursor) returns (r: Result<Progress, Error>)
    requires c.Valid()
    modifies c
    ensures c.Valid() && Follows(GetProgress(old(c.Rest())), r, c.Rest())
  {
    hide GetActionStatus, GetU32, GetOutput, GetOptionalBlob, GetOptionalText;
    var status := ReadActionStatus(c);
    if status.Err? { return Err(status.error); }
    var attempts := c.U32(Truncated);
    if attempts.Err? { return Err(attempts.error); }
    var output := ReadOutput(c);
    if output.Err? { return Err(output.error); }
    var resumeToken := ReadOptionalBlob(c);
    if resumeToken.Err? { return Err(resumeToken.error); }
    var rollbackToken := ReadOptionalBlob(c);
    if rollbackToken.Err? { return Err(rollbackToken.error); }
    var lastError := ReadOptionalText(c);
    if lastError.Err? { return Err(lastError.error); }
    r := Ok(Progress(status.value, attempts.value, output.value, resumeToken.value, rollbackToken.value, lastError.value));
  }

  method ReadPlanned(c: Cursor) returns (r: Result<PlannedAction, Error>)
    requires c.Valid()
    modifies c
    ensures c.Valid() && Follows(GetPlanned(old(c.Rest())), r, c.Rest())
  {
    hide GetIdentity, GetAction, GetProgress;
    var i := ReadIdentity(c);
    if i.Err? { return Err(i.error); }
    var action := ReadAction(c);
    if action.Err? { return Err(action.error); }
    var p := ReadProgress(c);
    if p.Err? { return Err(p.error); }
    r := Ok(Assemble(i.value, action.value, p.value));
  }

  method ReadActions(c: Cursor, n: u32) returns (r: Result<Vec<PlannedAction>, Error>)
    requires c.Valid()
    modifies c
    ensures r.Ok? ==> |r.value| == n
    ensures c.Valid() && Follows(GetMany(GetPlanned, n, old(c.Rest())), r, c.Rest())
  {
    hide GetPlanned;
    var xs: seq<PlannedAction> := [];
    for i := 0 to n
      invariant c.Valid() && |xs| == i
      invariant GetMany(GetPlanned, n, old(c.Rest())) == GetMore(GetPlanned, n - i, xs, c.Rest())
    {
      var x := ReadPlanned(c);
      if x.Err? { return Err(x.error); }
      xs := xs + [x.value];
    }
    r := Ok(xs);
  }

  method ReadPlan(c: Cursor) returns (r: Result<PlanState, Error>)
    requires c.Valid()
    modifies c
    ensures c.Valid() && Follows(GetPlan(old(c.Rest())), r, c.Rest())
  {
    hide GetU64, GetU32, GetPlanStatus, GetMany;
    var id := c.U64(Truncated);
    if id.Err? { return Err(id.error); }
    var taskId := c.U64(Truncated);
    if taskId.Err? { return Err(taskId.error); }
    var cursor := c.U64(Truncated);
    if cursor.Err? { return Err(cursor.error); }
    var status := ReadPlanStatus(c);
    if status.Err? { return Err(status.error); }
    var n := c.U32(Truncated);
    if n.Err? { return Err(n.error); }
    var actions := ReadActions(c, n.value);
    if actions.Err? { return Err(actions.error); }
    r := Ok(PlanState(id.value, taskId.value, cursor.value, status.value, actions.value));
  }

  /******* The file *******/

  /** The plans of a `BTreeMap`, smallest key first. */
  method InKeyOrder(plans: map<u64, PlanState>) returns (xs: seq<PlanState>)
    ensures xs == Ordered(plans)
  {
    xs := [];
    var rest := plans;
    while rest.Keys != {}
      invariant OrderedAfter(xs, rest) == Ordered(plans)
      decreases |rest|
    {
      var k := Least(rest.Keys);
      FewerKeys(rest, k);
      xs, rest := xs + [rest[k]], rest - {k};
    }
  }

  method PushPlans(out: Buffer, xs: seq<PlanState>) returns (ok: bool)
    modifies out
    ensures ok <==> All(FitsPlan, xs)
    ensures ok ==> forall t :: out.bytes + t == old(out.bytes) + PutMany(PutPlan, xs, t)
  {
    hide PutPlan, FitsPlan;
    for i := 0 to |xs|
      invariant forall k :: 0 <= k < i ==> FitsPlan(xs[k])
      invariant forall t :: old(out.bytes) + PutFrom(PutPlan, xs, 0, t) == out.bytes + PutFrom(PutPlan, xs, i, t)
    {
      var fits := PushPlan(out, xs[i]);
      if !fits {
        return false;
      }
    }
    ok := true;
  }

  method EncodeState(nextPlanId: u64, nextActionId: u64, xs: seq<PlanState>) returns (payload: Option<Bytes>)
    requires |xs| <= U32_MAX
    ensures payload.Some? <==> All(FitsPlan, xs)
    ensures payload.Some? ==> payload.value == PutState(nextPlanId, nextActionId, xs)
  {
    hide PutU32, PutU64, PutMany, All;
    var out := new Buffer();
    out.PushU64(nextPlanId);
    out.PushU64(nextActionId);
    out.PushU32(|xs|);
    var ok := PushPlans(out, xs);
    if !ok {
      return None;
    }
    ghost var expected := PutState(nextPlanId, nextActionId, xs);
    assert out.bytes == out.bytes + [] == [] + expected == expected;
    payload := Some(out.bytes);
  }

  /** The payload, when every length fits its field. */
  method EncodePayload(s: FabricState) returns (payload: Option<Bytes>)
    requires WellKeyed(s.plans)
    ensures payload.Some? <==> Encodable(s)
    ensures payload.Some? ==> payload.value == Payload(s)
  {
    hide Ordered, PutState, FitsPlan;
    if |s.plans| > U32_MAX {
      return None;
    }
    var xs := InKeyOrder(s.plans);
    OrderedHoldsAll(s.plans);
    payload := EncodeState(s.nextPlanId, s.nextActionId, xs);
  }

  /** Writes exactly the valid states whose lengths fit their fields. */
  method EncodeCheckpoint(registry: Registry, s: FabricState) returns (r: Result<Bytes, Error>)
    ensures !ValidState(registry, s) ==> r == Err(Rejected)
    ensures r.Ok? <==> ValidState(registry, s) && Encodable(s) && HEADER_LEN + |Payload(s)| <= U64_MAX
    ensures r.Ok? ==> r.value == Encode(s)
    ensures r.Err? ==> r.error in {Rejected, TooLong}
  {
    hide Payload, Encodable, ValidState, PutU16, PutU32, PutU64, Accuses;
    var fault := ValidateFabricState(registry, s);
    if fault.Some? {
      return Err(Rejected);
    }
    ValidIsWellKeyed(registry, s);
    var payload := EncodePayload(s);
    if payload.None? || HEADER_LEN + |payload.value| > U64_MAX {
      return Err(TooLong);
    }
    var out := new Buffer();
    out.PushRaw(MAGIC);
    out.PushU16(HEADER_LEN);
    out.PushU16(MAJOR);
    out.PushU16(MINOR);
    out.PushU32(0);
    out.PushU64(|payload.value|);
    out.PushRaw(payload.value);
    assert PutRaw(payload.value, []) == payload.value;
    assert out.bytes == out.bytes + [] == [] + Encode(s);
    r := Ok(out.bytes);
  }

  /** `n` plans into a map; each id exceeds the one before it. */
  method ReadPlans(c: Cursor, n: u32) returns (r: Result<map<u64, PlanState>, Error>, ghost xs: seq<PlanState>)
    requires c.Valid()
    modifies c
    ensures c.Valid() && Ascends(xs)
    ensures r.Ok? ==> GetPlans(n, [], old(c.Rest())) == Ok((xs, c.Rest())) && r.value == ById(xs, 0)
    ensures r.Err? ==> GetPlans(n, [], old(c.Rest())) == Err(r.error)
  {
    hide GetPlan;
    var plans: map<u64, PlanState> := map[];
    var previous: u64 := 0;
    xs := [];
    for i := 0 to n
      invariant c.Valid() && Ascends(xs)
      invariant previous == if |xs| == 0 then 0 else xs[|xs| - 1].id
      invariant plans == ById(xs, 0)
      invariant GetPlans(n, [], old(c.Rest())) == GetPlans(n - i, xs, c.Rest())
    {
      var p := ReadPlan(c);
      if p.Err? { return Err(p.error), xs; }
      if p.value.id == 0 || p.value.id <= previous { return Err(NonCanonicalEncoding), xs; }
      LastIsGreatest(xs, p.value);
      ByIdSnoc(xs, p.value);
      previous, plans, xs := p.value.id, plans[p.value.id := p.value], xs + [p.value];
    }
    r := Ok(plans);
  }

  method ReadState(bytes: Bytes) returns (r: Result<FabricState, Error>)
    requires |bytes| <= ISIZE_MAX
    ensures r == GetState(bytes)
  {
    hide GetU64, GetU32, GetPlans, ById;
    var c := new Cursor(bytes);
    var nextPlanId := c.U64(Truncated);
    if nextPlanId.Err? { return Err(nextPlanId.error); }
    var nextActionId := c.U64(Truncated);
    if nextActionId.Err? { return Err(nextActionId.error); }
    var n := c.U32(Truncated);
    if n.Err? { return Err(n.error); }
    var plans, _ := ReadPlans(c, n.value);
    if plans.Err? { return Err(plans.error); }
    var done := c.IsFinished();
    if !done { return Err(NonCanonicalEncoding); }
    r := Ok(FabricState(nextPlanId.value, nextActionId.value, plans.value));
  }

  method ReadHeader(c: Cursor) returns (r: Result<(u16, u64), Error>)
    requires c.Valid()
    modifies c
    ensures c.Valid() && Follows(GetHeader(old(c.Rest())), r, c.Rest())
  {
    hide GetRaw, GetU16, GetU32, GetU64;
    var magic := c.Take(6, Truncated);
    if magic.Err? { return Err(magic.error); }
    if magic.value != MAGIC { return Err(InvalidMagic); }
    var headerLen := c.U16(Truncated);
    if headerLen.Err? { return Err(headerLen.error); }
    if headerLen.value != HEADER_LEN { return Err(InvalidHeader); }
    var major := c.U16(Truncated);
    if major.Err? { return Err(major.error); }
    var minor := c.U16(Truncated);
    if minor.Err? { return Err(minor.error); }
    if major.value != MAJOR || minor.value > MINOR { return Err(UnsupportedVersion(major.value, minor.value)); }
    var flags := c.U32(Truncated);
    if flags.Err? { return Err(flags.error); }
    if flags.value != 0 { return Err(InvalidHeader); }
    var payloadLen := c.U64(Truncated);
    if payloadLen.Err? { return Err(payloadLen.error); }
    r := Ok((minor.value, payloadLen.value));
  }

  method DecodeCheckpoint(registry: Registry, bytes: Bytes) returns (r: Result<FabricState, Error>)
    requires |bytes| <= ISIZE_MAX
    ensures r == Decode(registry, bytes)
  {
    hide GetHeader, GetState, ValidState;
    if |bytes| < HEADER_LEN {
      return Err(Truncated);
    }
    var c := new Cursor(bytes);
    var header := ReadHeader(c);
    if header.Err? { return Err(header.error); }
    if HEADER_LEN + header.value.1 > U64_MAX { return Err(TooLong); }
    if |bytes| != HEADER_LEN + header.value.1 { return Err(NonCanonicalEncoding); }
    var state := ReadState(bytes[HEADER_LEN..]);
    if state.Err? { return Err(state.error); }
    var fault := ValidateFabricState(registry, state.value);
    if fault.Some? { return Err(Rejected); }
    r := state;
  }

  /******* Bookkeeping *******/

  lemma FewerKeys(plans: map<u64, PlanState>, k: u64)
    requires k in plans
    ensures |plans - {k}| < |plans|
  {
    assert (plans - {k}).Keys == plans.Keys - {k};
    assert |plans.Keys - {k}| == |plans.Keys| - 1;
  }

  lemma ByIdSnoc(xs: seq<PlanState>, p: PlanState)
    requires Ascends(xs) && Ascends(xs + [p])
    ensures ById(xs + [p], 0) == ById(xs, 0)[p.id := p]
  {
    var longer := xs + [p];
    forall k
      ensures k in ById(longer, 0) <==> k in ById(xs, 0) || k == p.id
      ensures k in ById(longer, 0) ==> ById(longer, 0)[k] == ById(xs, 0)[p.id := p][k]
    {
      if k in ById(xs, 0) {
        var j :| 0 <= j < |xs| && xs[j].id == k;
        assert longer[j].id == k;
      }
      assert longer[|xs|].id == p.id;
    }
  }

  lemma OrderedHoldsAll(plans: map<u64, PlanState>)
    requires KeyedById(plans)
    ensures |Ordered(plans)| == |plans|
    ensures All(FitsPlan, Ordered(plans)) <==> forall k :: k in plans ==> FitsPlan(plans[k])
  {
    hide FitsPlan;
    OrderedThenById(plans);
    var xs := Ordered(plans);
    forall i | 0 <= i < |xs|
      ensures xs[i].id in plans && plans[xs[i].id] == xs[i]
    {
      assert xs[i].id in ById(xs, 0);
    }
  }
}
