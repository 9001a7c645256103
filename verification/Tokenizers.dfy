/**
 Native tokenizers of all three models: which are valid, their byte form inside a
 descriptor frame, and exactly which byte strings decode to which tokenizer.
 */
module Tokenizers {
  import opened Wrappers
  import opened Bytes
  import opened Capsule
  import opened Descriptors
  import opened Trimming

  const TOKENIZER_MAGIC: Bytes := [0x4E, 0x54, 0x4B, 0x39, 0x37, 0x00]
  const TOKENIZER_HEADER_LEN := 32
  const TOKENIZER_VERSION := Version(0, 3)
  const NO_SPECIAL_TOKEN: u32 := U32_MAX

  // "ntd97.tokenizer.v2" and "ntd97.tokenizer.vocab.v1"
  const FORMAT: Bytes := [0x6E, 0x74, 0x64, 0x39, 0x37, 0x2E, 0x74, 0x6F, 0x6B, 0x65, 0x6E, 0x69, 0x7A, 0x65, 0x72, 0x2E, 0x76, 0x32]
  const LEGACY_FORMAT: Bytes := [0x6E, 0x74, 0x64, 0x39, 0x37, 0x2E, 0x74, 0x6F, 0x6B, 0x65, 0x6E, 0x69, 0x7A, 0x65, 0x72, 0x2E,
                                 0x76, 0x6F, 0x63, 0x61, 0x62, 0x2E, 0x76, 0x31]

  datatype TokenizerModel =
    | Vocabulary
    | LlamaSpm(scores: Vec<u32>, types: Vec<i32>, addSpacePrefix: bool, addBos: bool, addEos: bool)
    | Gpt2Bpe(merges: Vec<Str>, addBos: bool, addEos: bool)

  datatype Tokenizer = Tokenizer(tokens: Vec<Bytes>, bos: Option<u32>, eos: Option<u32>, unknown: Option<u32>, model: TokenizerModel)

  datatype TokenizerError =
    | FrameError(error: DescriptorError)
    | WrongDescriptorKind(kind: FrameKind)
    | WrongFormat(format: Str)
    | TokTruncated
    | TokInvalidUtf8
    | TokInvalidMagic
    | TokInvalidHeader
    | TokUnsupportedVersion(version: Version)
    | EmptyVocabulary
    | EmptyToken(id: u32)
    | DuplicateToken(first: u32, second: u32)
    | InvalidSpecialToken(id: u32)
    | InvalidTokenizerModel(raw: u32)
    | InvalidScoreCount(expected: nat, actual: nat)
    | InvalidTokenTypeCount(expected: nat, actual: nat)
    | InvalidTokenType(token: u32, tokenType: i32)
    | NonFiniteScore(token: u32)
    | InvalidBpeMerge(merge: Str)
    | DuplicateBpeMerge(merge: Str)
    | TokNonCanonical
    | TokOverflow

  type ReadTok<T> = Result<(T, Bytes), TokenizerError>

  /******* Validity *******/

  predicate Distinct(xs: seq<Bytes>) {
    forall i, j :: 0 <= i < j < |xs| ==> xs[i] != xs[j]
  }

  predicate ValidTokens(tokens: seq<Bytes>) {
    0 < |tokens| <= U32_MAX && (forall i :: 0 <= i < |tokens| ==> tokens[i] != []) && Distinct(tokens)
  }

  predicate ValidSpecial(special: Option<u32>, count: nat) {
    special.Some? ==> special.value < count
  }

  /** The f32 with these bits is neither infinite nor a NaN. */
  predicate FiniteScore(bits: u32) {
    bits / 0x80_0000 % 0x100 != 0xFF
  }

  predicate BlankAt(merge: Bytes, k: nat) {
    k < |merge| && merge[k] == 0x20
  }

  /** Two non-empty parts around the only blank. */
  predicate ValidMerge(merge: Bytes) {
    exists k {:trigger BlankAt(merge, k)} :: 0 < k < |merge| - 1 && BlankAt(merge, k) && forall j :: 0 <= j < |merge| && BlankAt(merge, j) ==> j == k
  }

  predicate ValidModel(model: TokenizerModel, count: nat) {
    match model
    case Vocabulary => true
    case LlamaSpm(scores, types, _, _, _) =>
      && |scores| == count && |types| == count
      && forall i :: 0 <= i < count ==> FiniteScore(scores[i]) && 1 <= types[i] <= 6
    case Gpt2Bpe(merges, _, _) =>
      Distinct(merges) && forall i :: 0 <= i < |merges| ==> ValidMerge(merges[i])
  }

  predicate ValidTokenizer(t: Tokenizer) {
    && ValidTokens(t.tokens)
    && ValidSpecial(t.bos, |t.tokens|) && ValidSpecial(t.eos, |t.tokens|) && ValidSpecial(t.unknown, |t.tokens|)
    && ValidModel(t.model, |t.tokens|)
  }

  /******* The payload *******/

  predicate FitsBytes(b: Bytes) {
    |b| <= U32_MAX
  }

  function GetToken(s: Bytes): ReadTok<Bytes> { GetBytes(s, TokTruncated) }

  function PutMerge(m: Str, t: Bytes): Bytes { PutBytes(m, t) }

  predicate FitsMerge(m: Str) {
    |m| <= U32_MAX
  }

  function GetMerge(s: Bytes): ReadTok<Str> { GetString(s, TokTruncated, TokInvalidUtf8) }

  function PutScore(x: u32, t: Bytes): Bytes { PutU32(x, t) }

  function GetScore(s: Bytes): ReadTok<u32> { GetU32(s, TokTruncated) }

  predicate AnyScore(x: u32) { true }

  function PutType(x: i32, t: Bytes): Bytes { PutI32(x, t) }

  function GetType(s: Bytes): ReadTok<i32> { GetI32(s, TokTruncated) }

  predicate AnyType(x: i32) { true }

  lemma TokenCodec()
    ensures ReadsBack(GetToken, PutBytes, FitsBytes) && ReadsOnly(GetToken, PutBytes, FitsBytes)
  {
    hide PutBytes, GetBytes;
  }

  lemma MergeCodec()
    ensures ReadsBack(GetMerge, PutMerge, FitsMerge) && ReadsOnly(GetMerge, PutMerge, FitsMerge)
  {
    hide PutBytes, GetString;
  }

  lemma ScoreCodec()
    ensures ReadsBack(GetScore, PutScore, AnyScore) && ReadsOnly(GetScore, PutScore, AnyScore)
  {
    hide PutU32, GetU32;
    forall x: u32, t
      ensures GetScore(PutScore(x, t)) == Ok((x, t))
    {
    }
  }

  lemma TypeCodec()
    ensures ReadsBack(GetType, PutType, AnyType) && ReadsOnly(GetType, PutType, AnyType)
  {
    hide PutI32, GetI32;
    forall x: i32, t
      ensures GetType(PutType(x, t)) == Ok((x, t))
    {
    }
  }

  /** A counted list. */
  function PutList<T>(put: (T, Bytes) -> Bytes, xs: seq<T>, t: Bytes): Bytes {
    PutU32(|xs|, PutMany(put, xs, t))
  }

  function GetList<T>(get: Bytes -> ReadTok<T>, s: Bytes): ReadTok<Vec<T>> {
    var (n, s1) :- GetU32(s, TokTruncated);
    MoreLength(get, n, [], s1);
    var (xs, s2) :- GetMany(get, n, s1);
    Ok((xs, s2))
  }

  lemma ListReadBack<T(!new)>(get: Bytes -> ReadTok<T>, put: (T, Bytes) -> Bytes, fits: T -> bool, xs: seq<T>, t: Bytes)
    requires ReadsBack(get, put, fits) && All(fits, xs) && |xs| <= U32_MAX
    ensures GetList(get, PutList(put, xs, t)) == Ok((xs, t))
  {
    hide PutU32, GetU32, PutMany, GetMany;
    ManyReadBack(get, put, fits, xs, t);
  }

  lemma ListReadOnly<T(!new)>(get: Bytes -> ReadTok<T>, put: (T, Bytes) -> Bytes, fits: T -> bool, s: Bytes)
    requires ReadsOnly(get, put, fits) && GetList(get, s).Ok?
    ensures var (xs, t) := GetList(get, s).value;
            |xs| <= U32_MAX && All(fits, xs) && s == PutList(put, xs, t)
  {
    hide PutU32, GetU32, PutMany, GetMany;
    var (n, s1) := GetU32(s, TokTruncated).value;
    ManyReadOnly(get, put, fits, n, s1);
  }

  /******* Models *******/

  function ModelTag(m: TokenizerModel): u32 {
    match m
    case Vocabulary => 0
    case LlamaSpm(_, _, _, _, _) => 1
    case Gpt2Bpe(_, _, _) => 2
  }

  /** The model can be told in a payload of this minor version. */
  predicate Readable(minor: u16, m: TokenizerModel) {
    match m
    case Vocabulary => true
    case LlamaSpm(_, _, _, _, _) => minor >= 2
    case Gpt2Bpe(_, _, _) => minor >= 3
  }

  function Flag(b: bool, bit: u32): u32 {
    if b then bit else 0
  }

  function FlagsOf(m: TokenizerModel): u32 {
    match m
    case Vocabulary => 0
    case LlamaSpm(_, _, prefix, bos, eos) => Flag(prefix, 1) + Flag(bos, 2) + Flag(eos, 4)
    case Gpt2Bpe(_, bos, eos) => Flag(bos, 2) + Flag(eos, 4)
  }

  predicate FitsModel(m: TokenizerModel) {
    match m
    case Vocabulary => true
    case LlamaSpm(scores, types, _, _, _) => |scores| <= U32_MAX && |types| <= U32_MAX
    case Gpt2Bpe(merges, _, _) => |merges| <= U32_MAX && All(FitsMerge, merges)
  }

  function PutModel(m: TokenizerModel, t: Bytes): Bytes {
    match m
    case Vocabulary => t
    case LlamaSpm(scores, types, _, _, _) => PutList(PutScore, scores, PutList(PutType, types, PutU32(FlagsOf(m), t)))
    case Gpt2Bpe(merges, _, _) => PutList(PutMerge, merges, PutU32(FlagsOf(m), t))
  }

  function GetLlama(s: Bytes): ReadTok<TokenizerModel> {
    var (scores, s1) :- GetList(GetScore, s);
    var (types, s2) :- GetList(GetType, s1);
    var (flags, s3) :- GetU32(s2, TokTruncated);
    if flags >= 8 then Err(TokNonCanonical)
    else Ok((LlamaSpm(scores, types, flags % 2 == 1, flags / 2 % 2 == 1, flags / 4 == 1), s3))
  }

  function GetGpt2(s: Bytes): ReadTok<TokenizerModel> {
    var (merges, s1) :- GetList(GetMerge, s);
    var (flags, s2) :- GetU32(s1, TokTruncated);
    if flags >= 8 || flags % 2 == 1 then Err(TokNonCanonical)
    else Ok((Gpt2Bpe(merges, flags / 2 % 2 == 1, flags / 4 == 1), s2))
  }

  function GetModel(minor: u16, tag: u32, s: Bytes): ReadTok<TokenizerModel> {
    if minor <= 1 || tag == 0 then Ok((Vocabulary, s))
    else if tag == 1 then GetLlama(s)
    else if tag != 2 then Err(InvalidTokenizerModel(tag))
    else if minor < 3 then Err(TokNonCanonical)
    else GetGpt2(s)
  }

  lemma LlamaReadBack(m: TokenizerModel, t: Bytes)
    requires m.LlamaSpm? && FitsModel(m)
    ensures GetLlama(PutModel(m, t)) == Ok((m, t))
  {
    hide PutU32, GetU32, PutList, GetList;
    ScoreCodec();
    TypeCodec();
    var t2 := PutU32(FlagsOf(m), t);
    ListReadBack(GetType, PutType, AnyType, m.types, t2);
    ListReadBack(GetScore, PutScore, AnyScore, m.scores, PutList(PutType, m.types, t2));
    FlagBits(m.addSpacePrefix, m.addBos, m.addEos);
  }

  lemma FlagBits(a: bool, b: bool, c: bool)
    ensures var flags := Flag(a, 1) + Flag(b, 2) + Flag(c, 4);
            flags < 8 && (flags % 2 == 1 <==> a) && (flags / 2 % 2 == 1 <==> b) && (flags / 4 == 1 <==> c)
  {
  }

  lemma LlamaReadOnly(s: Bytes)
    requires GetLlama(s).Ok?
    ensures var (m, t) := GetLlama(s).value; m.LlamaSpm? && FitsModel(m) && s == PutModel(m, t)
  {
    hide PutU32, GetU32, PutList, GetList;
    ScoreCodec();
    TypeCodec();
    ListReadOnly(GetScore, PutScore, AnyScore, s);
    var (scores, s1) := GetList(GetScore, s).value;
    ListReadOnly(GetType, PutType, AnyType, s1);
    var (types, s2) := GetList(GetType, s1).value;
    var (flags, s3) := GetU32(s2, TokTruncated).value;
    assert flags == Flag(flags % 2 == 1, 1) + Flag(flags / 2 % 2 == 1, 2) + Flag(flags / 4 == 1, 4);
  }

  lemma Gpt2ReadBack(m: TokenizerModel, t: Bytes)
    requires m.Gpt2Bpe? && FitsModel(m)
    ensures GetGpt2(PutModel(m, t)) == Ok((m, t))
  {
    hide PutU32, GetU32, PutList, GetList;
    MergeCodec();
    ListReadBack(GetMerge, PutMerge, FitsMerge, m.merges, PutU32(FlagsOf(m), t));
    FlagBits(false, m.addBos, m.addEos);
  }

  lemma Gpt2ReadOnly(s: Bytes)
    requires GetGpt2(s).Ok?
    ensures var (m, t) := GetGpt2(s).value; m.Gpt2Bpe? && FitsModel(m) && s == PutModel(m, t)
  {
    hide PutU32, GetU32, PutList, GetList;
    MergeCodec();
    ListReadOnly(GetMerge, PutMerge, FitsMerge, s);
    var (merges, s1) := GetList(GetMerge, s).value;
    var (flags, s2) := GetU32(s1, TokTruncated).value;
    assert flags == Flag(flags / 2 % 2 == 1, 2) + Flag(flags / 4 == 1, 4);
  }

  /** A model part is read back exactly in the minor versions that can tell the model. */
  lemma ModelExactly(minor: u16, tag: u32, s: Bytes, m: TokenizerModel, t: Bytes)
    requires minor <= TOKENIZER_VERSION.minor && (minor <= 1 ==> tag == 0)
    ensures GetModel(minor, tag, s) == Ok((m, t)) <==>
            FitsModel(m) && tag == ModelTag(m) && Readable(minor, m) && s == PutModel(m, t)
  {
    hide PutModel, GetLlama, GetGpt2, FitsModel;
    if GetModel(minor, tag, s).Ok? && tag != 0 {
      if tag == 1 {
        LlamaReadOnly(s);
      } else {
        Gpt2ReadOnly(s);
      }
    }
    if FitsModel(m) && tag == ModelTag(m) && Readable(minor, m) && s == PutModel(m, t) && tag != 0 {
      if tag == 1 {
        LlamaReadBack(m, t);
      } else {
        Gpt2ReadBack(m, t);
      }
    }
    PlainModel(m, t);
  }

  lemma PlainModel(m: TokenizerModel, t: Bytes)
    ensures m.Vocabulary? ==> FitsModel(m) && PutModel(m, t) == t
  {
  }

  /******* Tokenizers *******/

  datatype TokenizerHeader = TokenizerHeader(minor: u16, count: u32, bos: u32, eos: u32, unknown: u32, modelTag: u32)

  function PutSpecials(h: TokenizerHeader, t: Bytes): Bytes {
    PutU32(h.count, PutU32(h.bos, PutU32(h.eos, PutU32(h.unknown, PutU32(h.modelTag, t)))))
  }

  function PutTokenizerHeader(h: TokenizerHeader, t: Bytes): Bytes {
    PutRaw(TOKENIZER_MAGIC, PutU16(TOKENIZER_HEADER_LEN, PutU16(TOKENIZER_VERSION.major, PutU16(h.minor, PutSpecials(h, t)))))
  }

  function GetSpecials(minor: u16, s: Bytes): (r: ReadTok<TokenizerHeader>)
    ensures r.Ok? ==> s == PutSpecials(r.value.0, r.value.1) && r.value.0.minor == minor
    ensures forall h: TokenizerHeader, t {:trigger PutSpecials(h, t)} :: h.minor == minor && s == PutSpecials(h, t) ==> r == Ok((h, t))
  {
    hide PutU32, GetU32;
    var (count, s1) :- GetU32(s, TokTruncated);
    var (bos, s2) :- GetU32(s1, TokTruncated);
    var (eos, s3) :- GetU32(s2, TokTruncated);
    var (unknown, s4) :- GetU32(s3, TokTruncated);
    var (modelTag, s5) :- GetU32(s4, TokTruncated);
    Ok((TokenizerHeader(minor, count, bos, eos, unknown, modelTag), s5))
  }

  function GetTokenizerHeader(s: Bytes): (r: ReadTok<TokenizerHeader>)
    ensures r.Ok? ==> s == PutTokenizerHeader(r.value.0, r.value.1) && r.value.0.minor <= TOKENIZER_VERSION.minor
    ensures forall h: TokenizerHeader, t {:trigger PutTokenizerHeader(h, t)} :: h.minor <= TOKENIZER_VERSION.minor && s == PutTokenizerHeader(h, t) ==> r == Ok((h, t))
  {
    hide PutU16, GetU16, PutRaw, GetRaw, PutSpecials, GetSpecials;
    var (magic, s1) :- GetRaw(6, s, TokTruncated);
    if magic != TOKENIZER_MAGIC then Err(TokInvalidMagic)
    else
      var (headerLen, s2) :- GetU16(s1, TokTruncated);
      if headerLen != TOKENIZER_HEADER_LEN then Err(TokInvalidHeader)
      else
        var (major, s3) :- GetU16(s2, TokTruncated);
        var (minor, s4) :- GetU16(s3, TokTruncated);
        if !TOKENIZER_VERSION.CanRead(Version(major, minor)) then Err(TokUnsupportedVersion(Version(major, minor)))
        else GetSpecials(minor, s4)
  }

  function SpecialField(special: Option<u32>): u32 {
    match special
    case Some(id) => id
    case None => NO_SPECIAL_TOKEN
  }

  function SpecialOf(field: u32): Option<u32> {
    if field == NO_SPECIAL_TOKEN then None else Some(field)
  }

  /** Every length has a u32 to be told in. */
  predicate Encodable(k: Tokenizer) {
    |k.tokens| <= U32_MAX && All(FitsBytes, k.tokens) && FitsModel(k.model)
  }

  function TokenizerHeaderOf(minor: u16, k: Tokenizer): TokenizerHeader
    requires |k.tokens| <= U32_MAX
  {
    TokenizerHeader(minor, |k.tokens|, SpecialField(k.bos), SpecialField(k.eos), SpecialField(k.unknown), ModelTag(k.model))
  }

  function PayloadOf(minor: u16, k: Tokenizer): Bytes
    requires Encodable(k)
  {
    PutTokenizerHeader(TokenizerHeaderOf(minor, k), PutMany(PutBytes, k.tokens, PutModel(k.model, [])))
  }

  /** The tokenizer a payload spells, before its validity is checked. */
  function ParsePayload(s: Bytes): Result<Tokenizer, TokenizerError> {
    var (h, s1) :- GetTokenizerHeader(s);
    if h.minor <= 1 && h.modelTag != 0 then Err(TokNonCanonical)
    else
      MoreLength(GetToken, h.count, [], s1);
      var (tokens, s2) :- GetMany(GetToken, h.count, s1);
      var (model, s3) :- GetModel(h.minor, h.modelTag, s2);
      if s3 != [] then Err(TokNonCanonical)
      else Ok(Tokenizer(tokens, SpecialOf(h.bos), SpecialOf(h.eos), SpecialOf(h.unknown), model))
  }

  /** No special token has the id that stands for none. */
  predicate NoSentinel(k: Tokenizer) {
    k.bos != Some(NO_SPECIAL_TOKEN) && k.eos != Some(NO_SPECIAL_TOKEN) && k.unknown != Some(NO_SPECIAL_TOKEN)
  }

  ghost predicate IsPayload(s: Bytes, k: Tokenizer) {
    && Encodable(k) && NoSentinel(k)
    && exists minor: u16 :: minor <= TOKENIZER_VERSION.minor && Readable(minor, k.model) && s == PayloadOf(minor, k)
  }

  lemma ParseExactly(s: Bytes, k: Tokenizer)
    ensures ParsePayload(s) == Ok(k) <==> IsPayload(s, k)
  {
    hide ParsePayload, PayloadOf, Encodable, NoSentinel, Readable;
    if ParsePayload(s) == Ok(k) {
      PayloadReadOnly(s);
    } else if IsPayload(s, k) {
      var minor: u16 :| minor <= TOKENIZER_VERSION.minor && Readable(minor, k.model) && s == PayloadOf(minor, k);
      PayloadReadBack(minor, k);
    }
  }

  lemma PayloadReadOnly(s: Bytes)
    requires ParsePayload(s).Ok?
    ensures IsPayload(s, ParsePayload(s).value)
  {
    hide GetTokenizerHeader, PutTokenizerHeader, GetMany, PutMany, GetToken, PutBytes, GetModel, PutModel, FitsModel, Readable, ModelTag, FitsBytes;
    TokenCodec();
    var k := ParsePayload(s).value;
    var (h, s1) := GetTokenizerHeader(s).value;
    ManyReadOnly(GetToken, PutBytes, FitsBytes, h.count, s1);
    var (tokens, s2) := GetMany(GetToken, h.count, s1).value;
    var (model, s3) := GetModel(h.minor, h.modelTag, s2).value;
    assert s3 == [] && model == k.model;
    ModelExactly(h.minor, h.modelTag, s2, k.model, s3);
    assert h == TokenizerHeaderOf(h.minor, k);
    assert s == PayloadOf(h.minor, k);
  }

  lemma PayloadReadBack(minor: u16, k: Tokenizer)
    requires minor <= TOKENIZER_VERSION.minor && Readable(minor, k.model) && Encodable(k) && NoSentinel(k)
    ensures ParsePayload(PayloadOf(minor, k)) == Ok(k)
  {
    hide GetTokenizerHeader, PutTokenizerHeader, GetMany, PutMany, GetToken, PutBytes, GetModel, PutModel, FitsModel, FitsBytes;
    TokenCodec();
    ManyReadBack(GetToken, PutBytes, FitsBytes, k.tokens, PutModel(k.model, []));
    ModelExactly(minor, ModelTag(k.model), PutModel(k.model, []), k.model, []);
  }

  /******* The first fault of a tokenizer *******/

  /** Where `x` is among the first `n` of `xs`. */
  function Place(xs: seq<Bytes>, x: Bytes, n: nat): (r: Option<nat>)
    requires n <= |xs|
    ensures r.Some? ==> r.value < n && xs[r.value] == x
    ensures r.None? ==> forall j :: 0 <= j < n ==> xs[j] != x
  {
    if n == 0 then None else if xs[n - 1] == x then Some(n - 1) else Place(xs, x, n - 1)
  }

  /** What the walk over the first `n` tokens stops at. */
  function TokenFault(tokens: seq<Bytes>, n: nat): (e: Option<TokenizerError>)
    requires n <= |tokens|
    ensures e.None? <==> n <= U32_MAX + 1 && Distinct(tokens[..n]) && forall i :: 0 <= i < n ==> tokens[i] != []
  {
    if n == 0 then None
    else
      var before := TokenFault(tokens, n - 1);
      assert tokens[..n] == tokens[..n - 1] + [tokens[n - 1]];
      if before.Some? then before
      else if n - 1 > U32_MAX then Some(TokOverflow)
      else if tokens[n - 1] == [] then Some(EmptyToken(n - 1))
      else
        match Place(tokens, tokens[n - 1], n - 1)
        case Some(first) => assert tokens[..n][first] == tokens[..n][n - 1]; Some(DuplicateToken(first, n - 1))
        case None => None
  }

  function SpecialFault(special: Option<u32>, count: u32): (e: Option<TokenizerError>)
    ensures e.None? <==> ValidSpecial(special, count)
  {
    if special.Some? && special.value >= count then Some(InvalidSpecialToken(special.value)) else None
  }

  function ScoreFault(scores: seq<u32>, types: seq<i32>, n: nat): (e: Option<TokenizerError>)
    requires n <= |scores| == |types| <= U32_MAX
    ensures e.None? <==> forall i :: 0 <= i < n ==> FiniteScore(scores[i]) && 1 <= types[i] <= 6
  {
    if n == 0 then None
    else
      var before := ScoreFault(scores, types, n - 1);
      if before.Some? then before
      else if !FiniteScore(scores[n - 1]) then Some(NonFiniteScore(n - 1))
      else if !(1 <= types[n - 1] <= 6) then Some(InvalidTokenType(n - 1, types[n - 1]))
      else None
  }

  function MergeFault(merges: seq<Str>, n: nat): (e: Option<TokenizerError>)
    requires n <= |merges|
    ensures e.None? <==> Distinct(merges[..n]) && forall i :: 0 <= i < n ==> ValidMerge(merges[i])
  {
    if n == 0 then None
    else
      var before := MergeFault(merges, n - 1);
      assert merges[..n] == merges[..n - 1] + [merges[n - 1]];
      if before.Some? then before
      else if !ValidMerge(merges[n - 1]) then Some(InvalidBpeMerge(merges[n - 1]))
      else
        match Place(merges, merges[n - 1], n - 1)
        case Some(first) => assert merges[..n][first] == merges[..n][n - 1]; Some(DuplicateBpeMerge(merges[n - 1]))
        case None => None
  }

  function ModelFault(m: TokenizerModel, count: u32): (e: Option<TokenizerError>)
    ensures e.None? <==> ValidModel(m, count)
  {
    match m
    case Vocabulary => None
    case LlamaSpm(scores, types, _, _, _) =>
      if |scores| != count then Some(InvalidScoreCount(count, |scores|))
      else if |types| != count then Some(InvalidTokenTypeCount(count, |types|))
      else ScoreFault(scores, types, count)
    case Gpt2Bpe(merges, _, _) =>
      assert merges[..|merges|] == merges;
      MergeFault(merges, |merges|)
  }

  /** The checks of `validate_tokenizer`, in their order. */
  function Fault(k: Tokenizer): (e: Option<TokenizerError>)
    ensures e.None? <==> ValidTokenizer(k)
  {
    hide ValidModel, ValidSpecial, Distinct;
    assert k.tokens[..|k.tokens|] == k.tokens;
    var tokens := TokenFault(k.tokens, |k.tokens|);
    if k.tokens == [] then Some(EmptyVocabulary)
    else if tokens.Some? then tokens
    else if |k.tokens| > U32_MAX then Some(TokOverflow)
    else
      var count := |k.tokens|;
      if SpecialFault(k.bos, count).Some? then SpecialFault(k.bos, count)
      else if SpecialFault(k.eos, count).Some? then SpecialFault(k.eos, count)
      else if SpecialFault(k.unknown, count).Some? then SpecialFault(k.unknown, count)
      else ModelFault(k.model, count)
  }

  /** Special tokens are ids of tokens, of which there are fewer than the sentinel says. */
  lemma SpecialsAreNotSentinel(k: Tokenizer)
    requires ValidTokenizer(k)
    ensures NoSentinel(k)
  {
  }

  /******* The whole byte form *******/

  lemma FormatsAreText()
    ensures Utf8(FORMAT) && Utf8(LEGACY_FORMAT)
  {
    AsciiText(FORMAT);
    AsciiText(LEGACY_FORMAT);
  }

  function TokenizerFrameOf(payload: Bytes): DescriptorFrame {
    FormatsAreText();
    DescriptorFrame(TokenizerFrame, FORMAT, payload)
  }

  /** A tokenizer that has a byte form. */
  predicate Tellable(k: Tokenizer) {
    ValidTokenizer(k) && Encodable(k) && FitsFrame(TokenizerFrameOf(PayloadOf(TOKENIZER_VERSION.minor, k)))
  }

  function EncodedTokenizer(k: Tokenizer): Bytes
    requires Tellable(k)
  {
    EncodeFrame(TokenizerFrameOf(PayloadOf(TOKENIZER_VERSION.minor, k)))
  }

  function FromFrame(f: DescriptorFrame): Result<Tokenizer, TokenizerError> {
    if f.kind != TokenizerFrame then Err(WrongDescriptorKind(f.kind))
    else if f.format != FORMAT && f.format != LEGACY_FORMAT then Err(WrongFormat(f.format))
    else
      var k :- ParsePayload(f.payload);
      match Fault(k)
      case Some(e) => Err(e)
      case None => Ok(k)
  }

  function DecodedTokenizer(bytes: Vec<byte>): Result<Tokenizer, TokenizerError> {
    match DecodeFrame(bytes)
    case Err(e) => Err(FrameError(e))
    case Ok(f) => FromFrame(f)
  }

  /** A frame that tells the tokenizer. */
  ghost predicate Tells(f: DescriptorFrame, k: Tokenizer) {
    && f.kind == TokenizerFrame && (f.format == FORMAT || f.format == LEGACY_FORMAT)
    && ValidTokenizer(k) && IsPayload(f.payload, k)
  }

  lemma FromFrameExactly(f: DescriptorFrame, k: Tokenizer)
    ensures FromFrame(f) == Ok(k) <==> Tells(f, k)
  {
    hide ParsePayload, ValidTokenizer, IsPayload;
    ParseExactly(f.payload, k);
  }

  ghost predicate IsTokenizer(bytes: Bytes, k: Tokenizer) {
    exists minor: u16, f: DescriptorFrame {:trigger FrameBytes(minor, f)} ::
      minor <= FRAME_VERSION.minor && FitsFrame(f) && Tells(f, k) && bytes == FrameBytes(minor, f)
  }

  /** Decoding accepts exactly the frames that tell a valid tokenizer, under either format name. */
  lemma DecodeExactly(bytes: Vec<byte>, k: Tokenizer)
    ensures DecodedTokenizer(bytes) == Ok(k) <==> IsTokenizer(bytes, k)
  {
    hide DecodeFrame, FrameBytes, FromFrame, Tells, FitsFrame;
    if DecodedTokenizer(bytes) == Ok(k) {
      var f := DecodeFrame(bytes).value;
      FrameExactly(bytes, f);
      FromFrameExactly(f, k);
    }
    if IsTokenizer(bytes, k) {
      var minor: u16, f: DescriptorFrame :| minor <= FRAME_VERSION.minor && FitsFrame(f) && Tells(f, k) && bytes == FrameBytes(minor, f);
      FrameExactly(bytes, f);
      FromFrameExactly(f, k);
    }
  }

  /** Decoding after encoding is the identity on the tokenizers of all three models. */
  lemma DecodeOfEncode(k: Tokenizer)
    requires Tellable(k) && |EncodedTokenizer(k)| <= ISIZE_MAX
    ensures DecodedTokenizer(EncodedTokenizer(k)) == Ok(k)
  {
    hide DecodedTokenizer, FrameBytes, ValidTokenizer, PayloadOf, Encodable, FitsFrame;
    SpecialsAreNotSentinel(k);
    var f := TokenizerFrameOf(PayloadOf(TOKENIZER_VERSION.minor, k));
    assert IsPayload(f.payload, k);
    assert EncodedTokenizer(k) == FrameBytes(FRAME_VERSION.minor, f);
    DecodeExactly(EncodedTokenizer(k), k);
  }
}
