/** The tokenizer codec and its validation as they run. */
module TokenizerStreams {
  import opened Wrappers
  import opened Bytes
  import opened Streams
  import opened Capsule
  import opened Descriptors
  import opened TensorStreams
  import opened Tokenizers

  /******* Validation *******/

  /** `seen` has the place of each of the first `n` of `xs`. */
  ghost predicate Remembers(seen: map<Bytes, u32>, xs: seq<Bytes>, n: nat) {
    n <= |xs| && (forall x :: x in seen ==> Place(xs, x, n) == Some(seen[x])) && forall j :: 0 <= j < n ==> xs[j] in seen
  }

  method CheckTokens(tokens: seq<Bytes>) returns (e: Option<TokenizerError>)
    ensures e == TokenFault(tokens, |tokens|)
  {
    hide Distinct, Remembers, Place;
    var seen: map<Bytes, u32> := map[];
    NothingRemembered(tokens);
    for i := 0 to |tokens|
      invariant TokenFault(tokens, i) == None
      invariant i <= U32_MAX + 1 && Remembers(seen, tokens, i)
    {
      var token := tokens[i];
      e := if i > U32_MAX then Some(TokOverflow)
           else if token == [] then Some(EmptyToken(i))
           else if token in seen then Some(DuplicateToken(seen[token], i))
           else None;
      if i <= U32_MAX {
        RememberedPlace(seen, tokens, i);
      }
      assert TokenFault(tokens, i + 1) == e;
      if e.Some? {
        TokenFaultStays(tokens, i + 1);
        return;
      }
      seen := seen[token := i];
    }
    e := None;
  }

  lemma NothingRemembered(xs: seq<Bytes>)
    ensures Remembers(map[], xs, 0)
  {
  }

  lemma RememberedPlace(seen: map<Bytes, u32>, xs: seq<Bytes>, n: u32)
    requires n < |xs| && Remembers(seen, xs, n)
    ensures Place(xs, xs[n], n) == if xs[n] in seen then Some(seen[xs[n]]) else None
    ensures xs[n] !in seen ==> Remembers(seen[xs[n] := n], xs, n + 1)
  {
  }

  lemma {:induction false} TokenFaultStays(tokens: seq<Bytes>, n: nat)
    requires n <= |tokens| && TokenFault(tokens, n).Some?
    ensures TokenFault(tokens, |tokens|) == TokenFault(tokens, n)
    decreases |tokens| - n
  {
    if n < |tokens| {
      TokenFaultStays(tokens, n + 1);
    }
  }

  method CheckScores(scores: seq<u32>, types: seq<i32>) returns (e: Option<TokenizerError>)
    requires |scores| == |types| <= U32_MAX
    ensures e == ScoreFault(scores, types, |scores|)
  {
    for i := 0 to |scores|
      invariant ScoreFault(scores, types, i) == None
    {
      e := if !FiniteScore(scores[i]) then Some(NonFiniteScore(i))
           else if !(1 <= types[i] <= 6) then Some(InvalidTokenType(i, types[i]))
           else None;
      assert ScoreFault(scores, types, i + 1) == e;
      if e.Some? {
        ScoreFaultStays(scores, types, i + 1);
        return;
      }
    }
    e := None;
  }

  lemma {:induction false} ScoreFaultStays(scores: seq<u32>, types: seq<i32>, n: nat)
    requires n <= |scores| == |types| <= U32_MAX && ScoreFault(scores, types, n).Some?
    ensures ScoreFault(scores, types, |scores|) == ScoreFault(scores, types, n)
    decreases |scores| - n
  {
    if n < |scores| {
      ScoreFaultStays(scores, types, n + 1);
    }
  }

  /** Splits at the first blank: both sides are there, and no second blank follows. */
  method CheckMerge(merge: Bytes) returns (ok: bool)
    ensures ok <==> ValidMerge(merge)
  {
    var k := 0;
    while k < |merge| && merge[k] != 0x20
      invariant k <= |merge| && forall j :: 0 <= j < k ==> merge[j] != 0x20
    {
      k := k + 1;
    }
    if k == |merge| || k == 0 || k == |merge| - 1 {
      assert k < |merge| ==> BlankAt(merge, k);
      return false;
    }
    assert BlankAt(merge, k);
    for j := k + 1 to |merge|
      invariant forall i :: k < i < j ==> merge[i] != 0x20
    {
      if merge[j] == 0x20 {
        assert BlankAt(merge, j);
        return false;
      }
    }
    ok := true;
  }

  method CheckMerges(merges: seq<Str>) returns (e: Option<TokenizerError>)
    ensures e == MergeFault(merges, |merges|)
  {
    hide ValidMerge, Distinct, Utf8;
    var seen: set<Bytes> := {};
    for i := 0 to |merges|
      invariant MergeFault(merges, i) == None
      invariant forall x :: x in seen <==> Place(merges, x, i).Some?
    {
      var valid := CheckMerge(merges[i]);
      e := if !valid then Some(InvalidBpeMerge(merges[i]))
           else if merges[i] in seen then Some(DuplicateBpeMerge(merges[i]))
           else None;
      assert MergeFault(merges, i + 1) == e;
      if e.Some? {
        MergeFaultStays(merges, i + 1);
        return;
      }
      seen := seen + {merges[i]};
    }
    e := None;
  }

  lemma {:induction false} MergeFaultStays(merges: seq<Str>, n: nat)
    requires n <= |merges| && MergeFault(merges, n).Some?
    ensures MergeFault(merges, |merges|) == MergeFault(merges, n)
    decreases |merges| - n
  {
    if n < |merges| {
      MergeFaultStays(merges, n + 1);
    }
  }

  method CheckModel(m: TokenizerModel, count: u32) returns (e: Option<TokenizerError>)
    ensures e == ModelFault(m, count)
    ensures e.None? <==> ValidModel(m, count)
  {
    hide ValidModel;
    match m
    case Vocabulary => e := None;
    case LlamaSpm(scores, types, _, _, _) =>
      if |scores| != count { return Some(InvalidScoreCount(count, |scores|)); }
      if |types| != count { return Some(InvalidTokenTypeCount(count, |types|)); }
      e := CheckScores(scores, types);
    case Gpt2Bpe(merges, _, _) =>
      e := CheckMerges(merges);
  }

  /** None exactly for the valid tokenizers; otherwise the first fault in the order of the checks. */
  method Validate(k: Tokenizer) returns (e: Option<TokenizerError>)
    ensures e == Fault(k)
    ensures e.None? <==> ValidTokenizer(k)
  {
    hide ModelFault, TokenFault, ValidTokenizer;
    if k.tokens == [] { return Some(EmptyVocabulary); }
    e := CheckTokens(k.tokens);
    if e.Some? { return; }
    if |k.tokens| > U32_MAX { return Some(TokOverflow); }
    var count := |k.tokens|;
    for i := 0 to 3
      invariant i > 0 ==> SpecialFault(k.bos, count).None?
      invariant i > 1 ==> SpecialFault(k.eos, count).None?
      invariant i > 2 ==> SpecialFault(k.unknown, count).None?
    {
      var special := if i == 0 then k.bos else if i == 1 then k.eos else k.unknown;
      if special.Some? && special.value >= count { return Some(InvalidSpecialToken(special.value)); }
    }
    e := CheckModel(k.model, count);
  }

  /******* Encoding *******/

  method PushTokens(out: Buffer, tokens: seq<Bytes>) returns (ok: bool)
    modifies out
    ensures ok <==> All(FitsBytes, tokens)
    ensures ok ==> forall t :: out.bytes + t == old(out.bytes) + PutMany(PutBytes, tokens, t)
  {
    hide PutBytes;
    for i := 0 to |tokens|
      invariant forall j :: 0 <= j < i ==> FitsBytes(tokens[j])
      invariant forall t :: old(out.bytes) + PutFrom(PutBytes, tokens, 0, t) == out.bytes + PutFrom(PutBytes, tokens, i, t)
    {
      var fits := out.PushBytes(tokens[i]);
      if !fits { return false; }
    }
    ok := true;
  }

  method PushMerges(out: Buffer, merges: seq<Str>) returns (ok: bool)
    modifies out
    ensures ok <==> All(FitsMerge, merges)
    ensures ok ==> forall t :: out.bytes + t == old(out.bytes) + PutMany(PutMerge, merges, t)
  {
    hide PutBytes;
    for i := 0 to |merges|
      invariant forall j :: 0 <= j < i ==> FitsMerge(merges[j])
      invariant forall t :: old(out.bytes) + PutFrom(PutMerge, merges, 0, t) == out.bytes + PutFrom(PutMerge, merges, i, t)
    {
      var fits := out.PushBytes(merges[i]);
      if !fits { return false; }
    }
    ok := true;
  }

  method PushScores(out: Buffer, scores: seq<u32>)
    modifies out
    ensures forall t :: out.bytes + t == old(out.bytes) + PutMany(PutScore, scores, t)
  {
    hide PutU32;
    for i := 0 to |scores|
      invariant forall t :: old(out.bytes) + PutFrom(PutScore, scores, 0, t) == out.bytes + PutFrom(PutScore, scores, i, t)
    {
      out.PushU32(scores[i]);
    }
  }

  method PushTypes(out: Buffer, types: seq<i32>)
    modifies out
    ensures forall t :: out.bytes + t == old(out.bytes) + PutMany(PutType, types, t)
  {
    hide PutI32;
    for i := 0 to |types|
      invariant forall t :: old(out.bytes) + PutFrom(PutType, types, 0, t) == out.bytes + PutFrom(PutType, types, i, t)
    {
      out.PushI32(types[i]);
    }
  }

  method PushModel(out: Buffer, m: TokenizerModel) returns (ok: bool)
    modifies out
    ensures ok <==> FitsModel(m)
    ensures ok ==> forall t :: out.bytes + t == old(out.bytes) + PutModel(m, t)
  {
    hide PutMany, PutU32;
    match m
    case Vocabulary => ok := true;
    case LlamaSpm(scores, types, _, _, _) =>
      if |scores| > U32_MAX || |types| > U32_MAX { return false; }
      out.PushU32(|scores|);
      PushScores(out, scores);
      out.PushU32(|types|);
      PushTypes(out, types);
      out.PushU32(FlagsOf(m));
      ok := true;
    case Gpt2Bpe(merges, _, _) =>
      if |merges| > U32_MAX { return false; }
      out.PushU32(|merges|);
      ok := PushMerges(out, merges);
      if ok {
        out.PushU32(FlagsOf(m));
      }
  }

  method PushTokenizerHeader(out: Buffer, h: TokenizerHeader)
    modifies out
    ensures forall t :: out.bytes + t == old(out.bytes) + PutTokenizerHeader(h, t)
  {
    hide PutU16, PutU32;
    out.PushRaw(TOKENIZER_MAGIC);
    out.PushU16(TOKENIZER_HEADER_LEN);
    out.PushU16(TOKENIZER_VERSION.major);
    out.PushU16(h.minor);
    out.PushU32(h.count);
    out.PushU32(h.bos);
    out.PushU32(h.eos);
    out.PushU32(h.unknown);
    out.PushU32(h.modelTag);
  }

  method BuildPayload(k: Tokenizer) returns (payload: Option<Bytes>)
    requires |k.tokens| <= U32_MAX
    ensures payload.Some? <==> Encodable(k)
    ensures payload.Some? ==> payload.value == PayloadOf(TOKENIZER_VERSION.minor, k)
  {
    hide PutTokenizerHeader, PutMany, PutModel, FitsModel, All;
    var out := new Buffer();
    PushTokenizerHeader(out, TokenizerHeaderOf(TOKENIZER_VERSION.minor, k));
    var ok := PushTokens(out, k.tokens);
    if !ok { return None; }
    ok := PushModel(out, k.model);
    if !ok { return None; }
    ghost var expected := PayloadOf(TOKENIZER_VERSION.minor, k);
    assert out.bytes == out.bytes + [] == [] + expected == expected;
    payload := Some(out.bytes);
  }

  /** Succeeds on exactly the valid tokenizers whose lengths fit; a decoder gives each of them back. */
  method EncodeTokenizer(k: Tokenizer) returns (r: Result<Bytes, TokenizerError>)
    ensures r.Ok? <==> Tellable(k)
    ensures r.Ok? ==> r.value == EncodedTokenizer(k)
    ensures r.Ok? && |r.value| <= ISIZE_MAX ==> DecodedTokenizer(r.value) == Ok(k)
    ensures !ValidTokenizer(k) ==> r.Err? && Some(r.error) == Fault(k)
  {
    hide ValidTokenizer, Fault, Encodable, PayloadOf, EncodeFrame, DecodeFrame, DecodedTokenizer;
    var error := Validate(k);
    if error.Some? { return Err(error.value); }
    ValidCounts(k);
    var payload := BuildPayload(k);
    if payload.None? { return Err(TokOverflow); }
    var frame := EncodeFrameBytes(TokenizerFrameOf(payload.value));
    if frame.Err? { return Err(FrameError(frame.error)); }
    r := Ok(frame.value);
    if |r.value| <= ISIZE_MAX {
      DecodeOfEncode(k);
    }
  }

  lemma ValidCounts(k: Tokenizer)
    requires ValidTokenizer(k)
    ensures |k.tokens| <= U32_MAX
  {
  }

  /******* Decoding *******/

  method ReadTokens(c: Cursor, n: u32) returns (r: Result<Vec<Bytes>, TokenizerError>)
    requires c.Valid()
    modifies c
    ensures c.Valid() && Follows(GetMany(GetToken, n, old(c.Rest())), r, c.Rest())
  {
    hide GetBytes;
    var xs: seq<Bytes> := [];
    for i := 0 to n
      invariant c.Valid() && |xs| == i
      invariant GetMany(GetToken, n, old(c.Rest())) == GetMore(GetToken, n - i, xs, c.Rest())
    {
      var x := c.LengthPrefixed(TokTruncated);
      if x.Err? { return Err(x.error); }
      xs := xs + [x.value];
    }
    r := Ok(xs);
  }

  method ReadMerges(c: Cursor) returns (r: Result<Vec<Str>, TokenizerError>)
    requires c.Valid()
    modifies c
    ensures c.Valid() && Follows(GetList(GetMerge, old(c.Rest())), r, c.Rest())
  {
    hide GetString, GetU32;
    var n := c.U32(TokTruncated);
    if n.Err? { return Err(n.error); }
    ghost var s1 := c.Rest();
    var xs: seq<Str> := [];
    for i := 0 to n.value
      invariant c.Valid() && |xs| == i
      invariant GetMany(GetMerge, n.value, s1) == GetMore(GetMerge, n.value - i, xs, c.Rest())
    {
      var x := c.Text(TokTruncated, TokInvalidUtf8);
      if x.Err? { return Err(x.error); }
      xs := xs + [x.value];
    }
    r := Ok(xs);
  }

  method ReadScores(c: Cursor) returns (r: Result<Vec<u32>, TokenizerError>)
    requires c.Valid()
    modifies c
    ensures c.Valid() && Follows(GetList(GetScore, old(c.Rest())), r, c.Rest())
  {
    hide GetU32;
    var n := c.U32(TokTruncated);
    if n.Err? { return Err(n.error); }
    ghost var s1 := c.Rest();
    var xs: seq<u32> := [];
    for i := 0 to n.value
      invariant c.Valid() && |xs| == i
      invariant GetMany(GetScore, n.value, s1) == GetMore(GetScore, n.value - i, xs, c.Rest())
    {
      var x := c.U32(TokTruncated);
      if x.Err? { return Err(x.error); }
      xs := xs + [x.value];
    }
    r := Ok(xs);
  }

  method ReadTypes(c: Cursor) returns (r: Result<Vec<i32>, TokenizerError>)
    requires c.Valid()
    modifies c
    ensures c.Valid() && Follows(GetList(GetType, old(c.Rest())), r, c.Rest())
  {
    hide GetI32, GetU32;
    var n := c.U32(TokTruncated);
    if n.Err? { return Err(n.error); }
    ghost var s1 := c.Rest();
    var xs: seq<i32> := [];
    for i := 0 to n.value
      invariant c.Valid() && |xs| == i
      invariant GetMany(GetType, n.value, s1) == GetMore(GetType, n.value - i, xs, c.Rest())
    {
      var x := c.I32(TokTruncated);
      if x.Err? { return Err(x.error); }
      xs := xs + [x.value];
    }
    r := Ok(xs);
  }

  method ReadLlama(c: Cursor) returns (r: Result<TokenizerModel, TokenizerError>)
    requires c.Valid()
    modifies c
    ensures c.Valid() && Follows(GetLlama(old(c.Rest())), r, c.Rest())
  {
    hide GetList, GetU32;
    var scores := ReadScores(c);
    if scores.Err? { return Err(scores.error); }
    var types := ReadTypes(c);
    if types.Err? { return Err(types.error); }
    var flags := c.U32(TokTruncated);
    if flags.Err? { return Err(flags.error); }
    if flags.value >= 8 { return Err(TokNonCanonical); }
    r := Ok(LlamaSpm(scores.value, types.value, flags.value % 2 == 1, flags.value / 2 % 2 == 1, flags.value / 4 == 1));
  }

  method ReadGpt2(c: Cursor) returns (r: Result<TokenizerModel, TokenizerError>)
    requires c.Valid()
    modifies c
    ensures c.Valid() && Follows(GetGpt2(old(c.Rest())), r, c.Rest())
  {
    hide GetList, GetU32;
    var merges := ReadMerges(c);
    if merges.Err? { return Err(merges.error); }
    var flags := c.U32(TokTruncated);
    if flags.Err? { return Err(flags.error); }
    if flags.value >= 8 || flags.value % 2 == 1 { return Err(TokNonCanonical); }
    r := Ok(Gpt2Bpe(merges.value, flags.value / 2 % 2 == 1, flags.value / 4 == 1));
  }

  method ReadTokenizerHeader(c: Cursor) returns (r: Result<TokenizerHeader, TokenizerError>)
    requires c.Valid()
    modifies c
    ensures c.Valid() && Follows(GetTokenizerHeader(old(c.Rest())), r, c.Rest())
  {
    hide GetRaw, GetU16, GetSpecials;
    var magic := c.Take(6, TokTruncated);
    if magic.Err? { return Err(magic.error); }
    if magic.value != TOKENIZER_MAGIC { return Err(TokInvalidMagic); }
    var headerLen := c.U16(TokTruncated);
    if headerLen.Err? { return Err(headerLen.error); }
    if headerLen.value != TOKENIZER_HEADER_LEN { return Err(TokInvalidHeader); }
    var major := c.U16(TokTruncated);
    if major.Err? { return Err(major.error); }
    var minor := c.U16(TokTruncated);
    if minor.Err? { return Err(minor.error); }
    var version := Version(major.value, minor.value);
    if !TOKENIZER_VERSION.CanRead(version) { return Err(TokUnsupportedVersion(version)); }
    r := ReadSpecials(c, minor.value);
  }

  method ReadSpecials(c: Cursor, minor: u16) returns (r: Result<TokenizerHeader, TokenizerError>)
    requires c.Valid()
    modifies c
    ensures c.Valid() && Follows(GetSpecials(minor, old(c.Rest())), r, c.Rest())
  {
    hide GetU32;
    var count := c.U32(TokTruncated);
    if count.Err? { return Err(count.error); }
    var bos := c.U32(TokTruncated);
    if bos.Err? { return Err(bos.error); }
    var eos := c.U32(TokTruncated);
    if eos.Err? { return Err(eos.error); }
    var unknown := c.U32(TokTruncated);
    if unknown.Err? { return Err(unknown.error); }
    var modelTag := c.U32(TokTruncated);
    if modelTag.Err? { return Err(modelTag.error); }
    r := Ok(TokenizerHeader(minor, count.value, bos.value, eos.value, unknown.value, modelTag.value));
  }

  method ReadModel(c: Cursor, minor: u16, tag: u32) returns (r: Result<TokenizerModel, TokenizerError>)
    requires c.Valid()
    modifies c
    ensures c.Valid() && Follows(GetModel(minor, tag, old(c.Rest())), r, c.Rest())
  {
    hide GetLlama, GetGpt2;
    if minor <= 1 || tag == 0 { return Ok(Vocabulary); }
    if tag == 1 {
      r := ReadLlama(c);
    } else if tag != 2 {
      r := Err(InvalidTokenizerModel(tag));
    } else if minor < 3 {
      r := Err(TokNonCanonical);
    } else {
      r := ReadGpt2(c);
    }
  }

  method ReadPayload(payload: Vec<byte>) returns (r: Result<Tokenizer, TokenizerError>)
    ensures r == ParsePayload(payload)
  {
    hide GetTokenizerHeader, GetMany, GetToken, GetModel;
    var c := new Cursor(payload);
    var h := ReadTokenizerHeader(c);
    if h.Err? { return Err(h.error); }
    if h.value.minor <= 1 && h.value.modelTag != 0 { return Err(TokNonCanonical); }
    var tokens := ReadTokens(c, h.value.count);
    if tokens.Err? { return Err(tokens.error); }
    var model := ReadModel(c, h.value.minor, h.value.modelTag);
    if model.Err? { return Err(model.error); }
    var done := c.IsFinished();
    if !done { return Err(TokNonCanonical); }
    r := Ok(Tokenizer(tokens.value, SpecialOf(h.value.bos), SpecialOf(h.value.eos), SpecialOf(h.value.unknown), model.value));
  }

  method DecodeTokenizer(bytes: Vec<byte>) returns (r: Result<Tokenizer, TokenizerError>)
    ensures r == DecodedTokenizer(bytes)
  {
    hide DecodeFrame, ParsePayload, Fault;
    var frame := DecodeFrameBytes(bytes);
    if frame.Err? { return Err(FrameError(frame.error)); }
    var f := frame.value;
    if f.kind != TokenizerFrame { return Err(WrongDescriptorKind(f.kind)); }
    if f.format != FORMAT && f.format != LEGACY_FORMAT { return Err(WrongFormat(f.format)); }
    var k := ReadPayload(f.payload);
    if k.Err? { return Err(k.error); }
    var error := Validate(k.value);
    if error.Some? { return Err(error.value); }
    r := Ok(k.value);
  }
}
