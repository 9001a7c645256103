/**
 The text protocol of action plans: what the parser accepts, and that the canonical text of
 an accepted plan parses back to that plan.
 */
module PlanText {
  import opened Wrappers
  import opened Bytes
  import opened Actions
  import opened Trimming
  import opened AssistantDriver

  const HEADER: Bytes := [0x4E, 0x54, 0x44, 0x39, 0x37, 0x5F, 0x41, 0x43, 0x54, 0x49, 0x4F, 0x4E, 0x53, 0x5F, 0x56, 0x31] // NTD97_ACTIONS_V1
  const DIRECT: Bytes := [0x44, 0x49, 0x52, 0x45, 0x43, 0x54] // DIRECT
  const END: Bytes := [0x45, 0x4E, 0x44] // END
  const MAX_ACTIONS := 8

  const NEWLINE: byte := 0x0A
  const RETURN: byte := 0x0D
  const TAB: byte := 0x09
  const BAR: byte := 0x7C
  const UNIT: byte := 0x1F

  datatype PlanError =
    | Empty
    | InvalidHeader
    | MissingEnd
    | TrailingContent
    | InvalidLine
    | InvalidNodeId
    | NonCanonicalNodeOrder
    | UnsupportedCapability(name: Str)
    | InvalidPayload
    | TooManyActions
    | EmptyActionPlan

  datatype Decision = Direct | Planned(plan: AssistantPlan)

  /******* Cutting text *******/

  /** The first place from `i` on that holds `c`, or the end. */
  function Find(s: Bytes, c: byte, i: nat): (p: nat)
    requires i <= |s|
    ensures i <= p <= |s| && (p < |s| ==> s[p] == c) && forall k :: i <= k < p ==> s[k] != c
    decreases |s| - i
  {
    if i == |s| || s[i] == c then i else Find(s, c, i + 1)
  }

  /** A scan reaches every place that can start a character. */
  lemma {:induction false} ScanReaches(s: Bytes, i: nat, p: nat)
    requires i <= p < |s| && !Continuation(s[p]) && ScansFrom(s, i)
    ensures ScansFrom(s, p)
    decreases p - i
  {
    if i < p {
      var n := ScalarLen(s[i..]);
      if i + n > p {
        InnerBytes(s[i..], p - i);
      }
      ScanReaches(s, i + n, p);
    }
  }

  /** Text cut at an ASCII character leaves text on both sides. */
  lemma TextCut(s: Bytes, p: nat)
    requires Utf8(s) && p < |s| && s[p] < 0x80
    ensures Utf8(s[..p]) && Utf8(s[p + 1..])
  {
    assert ScansFrom(s, 0);
    ScansCut(s, p, 0);
    ScanReaches(s, 0, p);
    AsciiIsScalar(s[p..]);
    ScansShifted(s, p + 1, p + 1);
  }

  lemma {:induction false} ScansJoined(a: Bytes, b: Bytes, i: nat)
    requires i <= |a| && ScansFrom(a, i) && Utf8(b)
    ensures ScansFrom(a + b, i)
    decreases |a| - i
  {
    if i < |a| {
      var n := ScalarLen(a[i..]);
      assert (a + b)[i..] == a[i..] + b;
      PrefixScalar(a[i..], b);
      ScansJoined(a, b, i + n);
    } else {
      assert ScansFrom(b, 0);
      ScansMoved(a, b, 0);
    }
  }

  lemma {:induction false} ScansMoved(a: Bytes, b: Bytes, j: nat)
    requires j <= |b| && ScansFrom(b, j)
    ensures ScansFrom(a + b, |a| + j)
    decreases |b| - j
  {
    assert (a + b)[|a| + j..] == b[j..];
    if j < |b| {
      ScansMoved(a, b, j + ScalarLen(b[j..]));
    }
  }

  lemma PrefixScalar(a: Bytes, b: Bytes)
    requires ScalarLen(a) > 0
    ensures ScalarLen(a + b) == ScalarLen(a)
  {
  }

  lemma TextJoined(a: Bytes, b: Bytes)
    requires Utf8(a) && Utf8(b)
    ensures Utf8(a + b)
  {
    assert ScansFrom(a, 0);
    ScansJoined(a, b, 0);
  }

  /** Before and after the first `c`. */
  function Cut(s: Str, c: byte): (r: Option<(Str, Str)>)
    requires c < 0x80
    ensures r.Some? ==> s == r.value.0 + [c] + r.value.1 && c !in r.value.0
    ensures r.None? <==> c !in s
  {
    var p := Find(s, c, 0);
    if p == |s| then None
    else
      TextCut(s, p);
      assert s == s[..p] + [c] + s[p + 1..];
      Some((s[..p], s[p + 1..]))
  }

  function Split(s: Str, c: byte): (parts: seq<Str>)
    requires c < 0x80
    decreases |s|
  {
    match Cut(s, c)
    case None => [s]
    case Some(cut) => [cut.0] + Split(cut.1, c)
  }

  lemma ReturnCut(s: Bytes)
    requires Utf8(s) && |s| > 0 && s[|s| - 1] == RETURN
    ensures Utf8(s[..|s| - 1])
  {
    TextCut(s, |s| - 1);
  }

  /** A line without the carriage return before its line feed. */
  function DropReturn(s: Str): Str {
    if |s| > 0 && s[|s| - 1] == RETURN then ReturnCut(s); s[..|s| - 1] else s
  }

  /** `str::lines` */
  function Lines(s: Str): (lines: seq<Str>)
    ensures forall i :: 0 <= i < |lines| ==> NEWLINE !in lines[i]
    decreases |s|
  {
    match Cut(s, NEWLINE)
    case None => if s == [] then [] else [s]
    case Some(cut) => [DropReturn(cut.0)] + Lines(cut.1)
  }

  /******* Lines of a plan *******/

  function Digit(b: byte): bool {
    0x30 <= b <= 0x39
  }

  /** The value of a string of digits. */
  function Digits(s: Bytes): Option<nat> {
    if |s| == 0 then Some(0)
    else
      match Digits(s[..|s| - 1])
      case None => None
      case Some(n) => if Digit(s[|s| - 1]) then Some(10 * n + (s[|s| - 1] - 0x30)) else None
  }

  /** `str::parse::<u32>`, which allows a plus sign and leading zeros. */
  function ParseU32(s: Bytes): Option<u32> {
    var digits := if |s| > 0 && s[0] == 0x2B then s[1..] else s;
    if digits == [] then None
    else
      match Digits(digits)
      case None => None
      case Some(n) => if n <= U32_MAX then Some(n) else None
  }

  datatype CapabilityName =
    | WebSearchCap | WebFetchCap | ArtifactDownloadCap | ArtifactUploadCap | BrowserObserveCap
    | BrowserInteractCap | FileReadCap | FileGrantReadCap | FileWriteCap | FileGrantWriteCap
    | DeviceObserveCap | DeviceInteractCap | AppActionCap | PcObserveCap | PcExecuteCap
    | PcArtifactReadCap | PcArtifactWriteCap

  function NameOf(s: Bytes): Option<CapabilityName> {
    // web.search
    if s == [0x77, 0x65, 0x62, 0x2E, 0x73, 0x65, 0x61, 0x72, 0x63, 0x68]
    then Some(WebSearchCap)
    // web.fetch
    else if s == [0x77, 0x65, 0x62, 0x2E, 0x66, 0x65, 0x74, 0x63, 0x68]
    then Some(WebFetchCap)
    // artifact.download
    else if s == [0x61, 0x72, 0x74, 0x69, 0x66, 0x61, 0x63, 0x74, 0x2E, 0x64, 0x6F, 0x77, 0x6E, 0x6C, 0x6F, 0x61, 0x64]
    then Some(ArtifactDownloadCap)
    // artifact.upload
    else if s == [0x61, 0x72, 0x74, 0x69, 0x66, 0x61, 0x63, 0x74, 0x2E, 0x75, 0x70, 0x6C, 0x6F, 0x61, 0x64]
    then Some(ArtifactUploadCap)
    // browser.observe
    else if s == [0x62, 0x72, 0x6F, 0x77, 0x73, 0x65, 0x72, 0x2E, 0x6F, 0x62, 0x73, 0x65, 0x72, 0x76, 0x65]
    then Some(BrowserObserveCap)
    // browser.interact
    else if s == [0x62, 0x72, 0x6F, 0x77, 0x73, 0x65, 0x72, 0x2E, 0x69, 0x6E, 0x74, 0x65, 0x72, 0x61, 0x63, 0x74]
    then Some(BrowserInteractCap)
    // file.read
    else if s == [0x66, 0x69, 0x6C, 0x65, 0x2E, 0x72, 0x65, 0x61, 0x64]
    then Some(FileReadCap)
    // file.grant.read
    else if s == [0x66, 0x69, 0x6C, 0x65, 0x2E, 0x67, 0x72, 0x61, 0x6E, 0x74, 0x2E, 0x72, 0x65, 0x61, 0x64]
    then Some(FileGrantReadCap)
    // file.write
    else if s == [0x66, 0x69, 0x6C, 0x65, 0x2E, 0x77, 0x72, 0x69, 0x74, 0x65]
    then Some(FileWriteCap)
    // file.grant.write
    else if s == [0x66, 0x69, 0x6C, 0x65, 0x2E, 0x67, 0x72, 0x61, 0x6E, 0x74, 0x2E, 0x77, 0x72, 0x69, 0x74, 0x65]
    then Some(FileGrantWriteCap)
    // device.observe
    else if s == [0x64, 0x65, 0x76, 0x69, 0x63, 0x65, 0x2E, 0x6F, 0x62, 0x73, 0x65, 0x72, 0x76, 0x65]
    then Some(DeviceObserveCap)
    // device.interact
    else if s == [0x64, 0x65, 0x76, 0x69, 0x63, 0x65, 0x2E, 0x69, 0x6E, 0x74, 0x65, 0x72, 0x61, 0x63, 0x74]
    then Some(DeviceInteractCap)
    // app.action
    else if s == [0x61, 0x70, 0x70, 0x2E, 0x61, 0x63, 0x74, 0x69, 0x6F, 0x6E]
    then Some(AppActionCap)
    // pc.observe
    else if s == [0x70, 0x63, 0x2E, 0x6F, 0x62, 0x73, 0x65, 0x72, 0x76, 0x65]
    then Some(PcObserveCap)
    // pc.execute
    else if s == [0x70, 0x63, 0x2E, 0x65, 0x78, 0x65, 0x63, 0x75, 0x74, 0x65]
    then Some(PcExecuteCap)
    // pc.artifact.read
    else if s == [0x70, 0x63, 0x2E, 0x61, 0x72, 0x74, 0x69, 0x66, 0x61, 0x63, 0x74, 0x2E, 0x72, 0x65, 0x61, 0x64]
    then Some(PcArtifactReadCap)
    // pc.artifact.write
    else if s == [0x70, 0x63, 0x2E, 0x61, 0x72, 0x74, 0x69, 0x66, 0x61, 0x63, 0x74, 0x2E, 0x77, 0x72, 0x69, 0x74, 0x65]
    then Some(PcArtifactWriteCap)
    else None
  }

  /** Not blank, and without surrounding white space. */
  predicate Tidy(s: Str) {
    Trim(s) != [] && s == Trim(s)
  }

  /** Up to three fields of the payload. */
  datatype Fields = One(a: Str) | Two(a: Str, b: Str) | Three(a: Str, b: Str, c: Str)

  function SplitThree(s: Str): Fields {
    match Cut(s, TAB)
    case None => One(s)
    case Some(first) =>
      match Cut(first.1, TAB)
      case None => Two(first.0, first.1)
      case Some(second) => Three(first.0, second.0, second.1)
  }

  function JoinTab(a: Str, b: Str): Str {
    TextJoined(a, [TAB]);
    TextJoined(a + [TAB], b);
    a + [TAB] + b
  }

  /** A tidy pair of fields, the second running to the end. */
  function TidyPair(s: Str): Option<(Str, Str)> {
    match Cut(s, TAB)
    case None => None
    case Some(p) => if Tidy(p.0) && Tidy(p.1) then Some(p) else None
  }

  /** A target, an operation and perhaps a non-empty third field. */
  function Operation(s: Str): Option<(Str, Str, Option<Str>)> {
    match SplitThree(s)
    case One(_) => None
    case Two(a, b) => if Tidy(a) && Tidy(b) then Some((a, b, None)) else None
    case Three(a, b, c) => if Tidy(a) && Tidy(b) && c != [] then Some((a, b, Some(c))) else None
  }

  function ExecuteAction(s: Str): Option<TypedAction> {
    match SplitThree(s)
    case One(_) => None
    case Two(peer, program) => if Tidy(peer) && Tidy(program) then Some(PcExecute(peer, program, [], None)) else None
    case Three(peer, program, rest) =>
      var (dir, args) := match Cut(rest, TAB) case None => (rest, []) case Some(p) => p;
      if !Tidy(peer) || !Tidy(program) || dir != Trim(dir) || TAB in args then None
      else if args == [] then Some(PcExecute(peer, program, [], if dir == [] then None else Some(dir)))
      else if exists i :: 0 <= i < |Split(args, UNIT)| && Split(args, UNIT)[i] == [] then None
      else Some(PcExecute(peer, program, Split(args, UNIT), if dir == [] then None else Some(dir)))
  }

  function WriteAction(name: CapabilityName, s: Str): Option<TypedAction>
    requires name in {FileWriteCap, FileGrantWriteCap, PcArtifactWriteCap}
  {
    if name == FileWriteCap then
      match Cut(s, TAB)
      case None => None
      case Some(p) => if Tidy(p.0) && p.1 != [] then Some(FileWrite(p.0, p.1)) else None
    else
      match SplitThree(s)
      case One(_) => None
      case Two(_, _) => None
      case Three(a, b, c) =>
        if !Tidy(a) || !Tidy(b) || c == [] || TAB in c then None
        else Some(if name == FileGrantWriteCap then FileWrite(JoinTab(a, b), c) else PcArtifactWrite(a, b, c))
  }

  function PairAction(name: CapabilityName, s: Str): Option<TypedAction> {
    match TidyPair(s)
    case None => None
    case Some(p) =>
      match name
      case ArtifactDownloadCap => Some(ArtifactDownload(p.0, p.1))
      case ArtifactUploadCap => Some(ArtifactUpload(p.0, p.1))
      case PcObserveCap => Some(PcObserve(p.0, p.1))
      case PcArtifactReadCap => Some(PcArtifactRead(p.0, p.1))
      case FileGrantReadCap => if TAB in p.1 then None else Some(FileRead(JoinTab(p.0, p.1)))
      case _ => None
  }

  function PayloadAction(name: CapabilityName, s: Str): Option<TypedAction> {
    match name
    case WebSearchCap => Some(WebSearch(s, 5))
    case WebFetchCap => Some(WebFetch(s))
    case BrowserObserveCap => Some(BrowserObserve(s))
    case FileReadCap => Some(FileRead(s))
    case DeviceObserveCap => Some(DeviceObserve(s))
    case BrowserInteractCap =>
      (match Operation(s)
       case None => None
       case Some(x) => Some(BrowserInteract(x.0, x.1, x.2)))
    case DeviceInteractCap =>
      (match Operation(s)
       case None => None
       case Some(x) => Some(DeviceInteract(x.0, x.1, x.2)))
    case AppActionCap =>
      (match SplitThree(s)
       case One(_) => None
       case Two(a, b) => if Tidy(a) && Tidy(b) then Some(AppAction(a, b, [])) else None
       case Three(a, b, c) => if Tidy(a) && Tidy(b) then Some(AppAction(a, b, c)) else None)
    case PcExecuteCap => ExecuteAction(s)
    case FileWriteCap => WriteAction(name, s)
    case FileGrantWriteCap => WriteAction(name, s)
    case PcArtifactWriteCap => WriteAction(name, s)
    case _ => PairAction(name, s)
  }

  function SideEffectOf(name: CapabilityName): SideEffect {
    match name
    case FileWriteCap => Reversible
    case ArtifactDownloadCap => Reversible
    case ArtifactUploadCap => ExternalWrite
    case FileGrantWriteCap => ExternalWrite
    case BrowserInteractCap => ExternalWrite
    case DeviceInteractCap => ExternalWrite
    case AppActionCap => ExternalWrite
    case PcExecuteCap => ExternalWrite
    case PcArtifactWriteCap => ExternalWrite
    case _ => ReadOnly
  }

  datatype ActionLine = ActionLine(node: ActionNode, action: TypedAction, line: Str)

  predicate PlainPayload(s: Str) {
    Tidy(s) && BAR !in s && RETURN !in s && NEWLINE !in s
  }

  function ParseLine(line: Str, expected: u32): Result<ActionLine, PlanError> {
    var first := Cut(line, BAR);
    match ParseU32(if first.Some? then first.value.0 else line)
    case None => Err(InvalidNodeId)
    case Some(id) =>
      if first.None? then Err(InvalidLine)
      else
        match Cut(first.value.1, BAR)
        case None => Err(InvalidLine)
        case Some(second) =>
          var (capability, payload) := second;
          if id == 0 || id != expected then Err(NonCanonicalNodeOrder)
          else if !PlainPayload(payload) then Err(InvalidPayload)
          else
            match NameOf(capability)
            case None => Err(UnsupportedCapability(capability))
            case Some(name) =>
              match PayloadAction(name, payload)
              case None => Err(InvalidPayload)
              case Some(action) =>
                if !action.WellFormed() then Err(InvalidPayload)
                else Ok(ActionLine(ActionNode(id, capability, SideEffectOf(name), true), action, line))
  }

  /******* The whole text *******/

  predicate AllBlankFrom(lines: seq<Str>, i: nat) {
    forall k :: i <= k < |lines| ==> Blank(lines[k])
  }

  /** The action lines from place `i` on, after those in `done`, up to the end marker. */
  function ParseBody(lines: seq<Str>, i: nat, done: seq<ActionLine>): Result<seq<ActionLine>, PlanError>
    requires i <= |lines|
    decreases |lines| - i
  {
    if i == |lines| then Err(MissingEnd)
    else if lines[i] == END then
      if !AllBlankFrom(lines, i + 1) then Err(TrailingContent)
      else if done == [] then Err(EmptyActionPlan)
      else Ok(done)
    else if |done| >= MAX_ACTIONS then Err(TooManyActions)
    else
      var step :- ParseLine(lines[i], |done| + 1);
      ParseBody(lines, i + 1, done + [step])
  }

  /** The lines of the steps from place `i` on, then the end marker. */
  function JoinLines(steps: seq<ActionLine>, i: nat): (r: Str)
    decreases |steps| - i
  {
    if i >= |steps| then AsciiText(END); END
    else
      var rest := JoinLines(steps, i + 1);
      AsciiText([NEWLINE]);
      TextJoined(steps[i].line, [NEWLINE]);
      TextJoined(steps[i].line + [NEWLINE], rest);
      steps[i].line + [NEWLINE] + rest
  }

  function Canonical(steps: seq<ActionLine>): Str {
    AsciiText(HEADER + [NEWLINE]);
    TextJoined(HEADER + [NEWLINE], JoinLines(steps, 0));
    HEADER + [NEWLINE] + JoinLines(steps, 0)
  }

  function NodesOf(steps: seq<ActionLine>): (nodes: seq<ActionNode>)
    ensures |nodes| == |steps| && forall k :: 0 <= k < |steps| ==> nodes[k] == steps[k].node
  {
    seq(|steps|, k requires 0 <= k < |steps| => steps[k].node)
  }

  /** Each step's payload under its id. */
  function PayloadsOf(steps: seq<ActionLine>): map<u32, TypedAction> {
    if |steps| == 0 then map[]
    else PayloadsOf(steps[..|steps| - 1])[steps[|steps| - 1].node.id := steps[|steps| - 1].action]
  }

  function PlanOf(steps: Vec<ActionLine>): AssistantPlan {
    AssistantPlan(TaskGraph(NodesOf(steps)), PayloadsOf(steps), Canonical(steps))
  }

  function Parse(text: Str): Result<Decision, PlanError> {
    var normalized := Trim(text);
    if normalized == [] then Err(Empty)
    else if normalized == DIRECT then Ok(Direct)
    else
      var lines := Lines(normalized);
      if |lines| == 0 || lines[0] != HEADER then Err(InvalidHeader)
      else
        assert ParseBody(lines, 1, []).Ok? ==> |ParseBody(lines, 1, []).value| <= MAX_ACTIONS by {
          if ParseBody(lines, 1, []).Ok? { BodySteps(lines, 1, []); }
        }
        var steps :- ParseBody(lines, 1, []);
        Ok(Planned(PlanOf(steps)))
  }

  /******* What a plan is made of *******/

  /** A line that parses as the step after `n` others. */
  predicate StepOf(step: ActionLine, n: nat) {
    n < MAX_ACTIONS && ParseLine(step.line, n + 1) == Ok(step) && step.line != END && NEWLINE !in step.line
  }

  /** Each step is its line read at its place, and no line is the end marker. */
  predicate Numbered(steps: seq<ActionLine>) {
    forall k :: 0 <= k < |steps| ==> StepOf(steps[k], k)
  }

  lemma LineIsKept(line: Str, expected: u32)
    requires ParseLine(line, expected).Ok?
    ensures var step := ParseLine(line, expected).value;
            && step.line == line && step.node.id == expected && expected != 0 && step.node.verificationRequired
            && step.action.WellFormed() && |line| > 0 && line[|line| - 1] != RETURN
  {
    hide NameOf, PayloadAction, ParseU32, Trim, TypedAction.WellFormed;
    var payload := Cut(Cut(line, BAR).value.1, BAR).value.1;
    assert PlainPayload(payload);
    assert payload != [];
    assert line[|line| - 1] == payload[|payload| - 1];
  }

  lemma {:induction false} BodySteps(lines: seq<Str>, i: nat, done: seq<ActionLine>)
    requires i <= |lines| && ParseBody(lines, i, done).Ok? && Numbered(done) && |done| <= MAX_ACTIONS
    requires forall k :: 0 <= k < |lines| ==> NEWLINE !in lines[k]
    ensures var steps := ParseBody(lines, i, done).value;
            Numbered(steps) && 0 < |steps| <= MAX_ACTIONS
    decreases |lines| - i
  {
    hide ParseLine;
    if lines[i] != END {
      var step := ParseLine(lines[i], |done| + 1).value;
      LineIsKept(lines[i], |done| + 1);
      NumberedSnoc(done, step);
      BodySteps(lines, i + 1, done + [step]);
    }
  }

  lemma NumberedSnoc(done: seq<ActionLine>, step: ActionLine)
    requires Numbered(done) && |done| < MAX_ACTIONS
    requires ParseLine(step.line, |done| + 1) == Ok(step) && step.line != END && NEWLINE !in step.line
    ensures Numbered(done + [step])
  {
    hide ParseLine;
  }

  lemma NumberedPrefix(steps: seq<ActionLine>, n: nat)
    requires Numbered(steps) && n <= |steps|
    ensures Numbered(steps[..n])
  {
    hide StepOf;
  }

  lemma {:induction false} PayloadKeys(steps: seq<ActionLine>)
    requires Numbered(steps)
    ensures forall id: u32 :: id in PayloadsOf(steps) <==> 1 <= id <= |steps|
    ensures forall k :: 0 <= k < |steps| ==> steps[k].node.id == k + 1 && k + 1 in PayloadsOf(steps) && PayloadsOf(steps)[k + 1] == steps[k].action
    decreases |steps|
  {
    hide ParseLine;
    if |steps| > 0 {
      var n := |steps| - 1;
      NumberedPrefix(steps, n);
      PayloadKeys(steps[..n]);
      LineIsKept(steps[n].line, n + 1);
      forall k | 0 <= k < n
        ensures steps[k].node.id == k + 1
      {
        assert steps[..n][k] == steps[k];
      }
    }
  }

  /******* The canonical text parses back *******/

  lemma CutAfter(a: Str, c: byte, rest: Str)
    requires c < 0x80 && c !in a && Utf8(a + [c] + rest)
    ensures Cut(a + [c] + rest, c) == Some((a, rest))
  {
    var s := a + [c] + rest;
    forall k | 0 <= k < |a|
      ensures s[k] != c
    {
      assert s[k] == a[k];
    }
    assert s[|a|] == c;
    assert Find(s, c, 0) == |a|;
    assert s[..|a|] == a && s[|a| + 1..] == rest;
  }

  lemma LineThenRest(line: Str, rest: Str)
    requires NEWLINE !in line && (|line| > 0 ==> line[|line| - 1] != RETURN) && Utf8(line + [NEWLINE] + rest)
    ensures Lines(line + [NEWLINE] + rest) == [line] + Lines(rest)
  {
    CutAfter(line, NEWLINE, rest);
  }

  function LinesOf(steps: seq<ActionLine>, i: nat): (lines: seq<Str>)
    requires i <= |steps|
    ensures |lines| == |steps| - i + 1 && lines[|steps| - i] == END
    ensures forall k :: i <= k < |steps| ==> lines[k - i] == steps[k].line
    decreases |steps| - i
  {
    AsciiText(END);
    if i == |steps| then [END] else [steps[i].line] + LinesOf(steps, i + 1)
  }

  lemma {:induction false} LinesOfJoined(steps: seq<ActionLine>, i: nat)
    requires Numbered(steps) && i <= |steps|
    ensures Lines(JoinLines(steps, i)) == LinesOf(steps, i)
    decreases |steps| - i
  {
    hide ParseLine, Lines, Utf8;
    AsciiText(END);
    if i < |steps| {
      LineIsKept(steps[i].line, i + 1);
      assert JoinLines(steps, i) == steps[i].line + [NEWLINE] + JoinLines(steps, i + 1);
      LineThenRest(steps[i].line, JoinLines(steps, i + 1));
      LinesOfJoined(steps, i + 1);
    } else {
      EndIsALine();
    }
  }

  lemma EndIsALine()
    ensures Utf8(END) && Lines(END) == [END]
  {
    AsciiText(END);
    assert Cut(END, NEWLINE).None?;
  }

  lemma {:induction false} BodyReadBack(steps: seq<ActionLine>, lines: seq<Str>, i: nat)
    requires Numbered(steps) && steps != [] && i <= |steps| && |lines| == |steps| + 2 && lines[|steps| + 1] == END
    requires forall k :: 0 <= k < |steps| ==> lines[k + 1] == steps[k].line
    ensures ParseBody(lines, i + 1, steps[..i]) == Ok(steps)
    decreases |steps| - i
  {
    hide ParseLine;
    if i < |steps| {
      TakeOneMore(steps, i);
      BodyReadBack(steps, lines, i + 1);
    } else {
      TakeAll(steps);
    }
  }

  lemma {:induction false} JoinedEnd(steps: seq<ActionLine>, i: nat)
    ensures |JoinLines(steps, i)| > 0 && JoinLines(steps, i)[|JoinLines(steps, i)| - 1] == 0x44
    decreases |steps| - i
  {
    if i < |steps| {
      JoinedEnd(steps, i + 1);
    }
  }

  lemma TrimNothing(s: Str)
    requires |s| > 0 && SpaceLen(s) == 0 && EndSpace(s) == 0
    ensures Trim(s) == s
  {
  }

  lemma EndsInLetter(s: Bytes)
    requires |s| > 0 && s[|s| - 1] == 0x44
    ensures EndSpace(s) == 0
  {
    hide SpaceLen;
    SpaceEnd([0x44], 1);
    assert s[|s| - 1..] == [0x44];
    if |s| >= 2 {
      SpaceEnd(s[|s| - 2..], 2);
    }
    if |s| >= 3 {
      SpaceEnd(s[|s| - 3..], 3);
    }
  }

  /** No White_Space character ends in the letter D. */
  lemma SpaceEnd(s: Bytes, n: nat)
    requires |s| == n > 0 && s[n - 1] == 0x44
    ensures SpaceLen(s) != n
  {
  }

  lemma CanonicalIsTrimmed(steps: seq<ActionLine>)
    ensures Trim(Canonical(steps)) == Canonical(steps) && Canonical(steps) != [] && Canonical(steps) != DIRECT
  {
    JoinedEnd(steps, 0);
    var s := Canonical(steps);
    assert s[0] == 0x4E && s[|s| - 1] == 0x44;
    EndsInLetter(s);
    TrimNothing(s);
  }

  lemma CanonicalReadBack(steps: Vec<ActionLine>)
    requires Numbered(steps) && 0 < |steps| <= MAX_ACTIONS
    ensures Parse(Canonical(steps)) == Ok(Planned(PlanOf(steps)))
  {
    hide ParseLine, Trim, Lines, ParseBody, Canonical, PlanOf, Utf8;
    CanonicalIsTrimmed(steps);
    CanonicalLines(steps);
    assert steps[..0] == [];
    BodyReadBack(steps, Lines(Canonical(steps)), 0);
  }

  lemma CanonicalLines(steps: seq<ActionLine>)
    requires Numbered(steps)
    ensures Lines(Canonical(steps)) == [HEADER] + LinesOf(steps, 0)
  {
    hide ParseLine, Lines, JoinLines, Utf8;
    AsciiText(HEADER);
    assert Canonical(steps) == HEADER + [NEWLINE] + JoinLines(steps, 0);
    LineThenRest(HEADER, JoinLines(steps, 0));
    LinesOfJoined(steps, 0);
  }

  /**
   An accepted plan has ids 1 to n, at most eight, with exactly those payload keys, and its
   canonical text parses to the identical plan.
   */
  lemma PlansParseBack(text: Str)
    requires Parse(text).Ok? && Parse(text).value.Planned?
    ensures var plan := Parse(text).value.plan;
            var n := |plan.graph.actions|;
            && 0 < n <= MAX_ACTIONS
            && (forall k :: 0 <= k < n ==> plan.graph.actions[k].id == k + 1 && plan.graph.actions[k].verificationRequired)
            && (forall id: u32 :: id in plan.payloads <==> 1 <= id <= n)
            && (forall id: u32 :: id in plan.payloads ==> plan.payloads[id].WellFormed())
            && Parse(plan.canonical) == Ok(Planned(plan))
  {
    hide ParseLine, Trim, TypedAction.WellFormed, Lines, ParseBody, Canonical, PayloadsOf;
    var lines := Lines(Trim(text));
    BodySteps(lines, 1, []);
    var steps := ParseBody(lines, 1, []).value;
    PayloadKeys(steps);
    forall k | 0 <= k < |steps|
      ensures steps[k].node.id == k + 1 && steps[k].node.verificationRequired && steps[k].action.WellFormed()
    {
      LineIsKept(steps[k].line, k + 1);
    }
    forall id: u32 | id in PayloadsOf(steps)
      ensures PayloadsOf(steps)[id].WellFormed()
    {
      assert steps[id - 1].action == PayloadsOf(steps)[id];
    }
    CanonicalReadBack(steps);
  }
}
