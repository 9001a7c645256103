/**
 What rolling a plan of file reads and writes back leaves, whatever the plan went through, and
 when that is not what was there before. The paths are named as the program names them.
 */
module FileRollbacks {
  import opened Wrappers
  import opened Bytes
  import opened Actions
  import opened FabricModel
  import opened FabricInvariant
  import opened FabricUndo
  import opened ScopedFiles
  import opened Trimming

  /******* The program's own names *******/

  const SLASH := 0x2F
  const DOT := 0x2E

  /** The pieces between the slashes. */
  function Pieces(path: Bytes): (pieces: seq<Bytes>)
    ensures |pieces| > 0
  {
    if |path| == 0 then [[]]
    else
      var before, c := Pieces(path[..|path| - 1]), path[|path| - 1];
      if c == SLASH then before + [[]] else before[|before| - 1 := before[|before| - 1] + [c]]
  }

  /** The components under the root: empty pieces and dots are passed over, two dots are refused. */
  function Components(pieces: seq<Bytes>): Option<Path> {
    if |pieces| == 0 then Some([])
    else
      var last := pieces[|pieces| - 1];
      match Components(pieces[..|pieces| - 1])
      case None => None
      case Some(before) =>
        if last == [DOT, DOT] then None
        else if last == [] || last == [DOT] then Some(before)
        else Some(before + [last])
  }

  /** A relative path without a leading dot component, resolved under the root. */
  function Resolve(path: Str): Option<Path> {
    if Blank(path) || path[0] == SLASH || Pieces(path)[0] == [DOT] then None else Components(Pieces(path))
  }

  function Decimal(n: nat): Bytes {
    (if n < 10 then [] else Decimal(n / 10)) + [0x30 + n % 10]
  }

  const NTD97: Bytes := [0x2E, 0x6E, 0x74, 0x64, 0x39, 0x37, 0x2D] // .ntd97-

  /** Beside the target, a dot, its name, and the id of the action. */
  function TempFile(target: Path, id: u64): Path {
    if |target| == 0 then []
    else target[..|target| - 1] + [[DOT] + target[|target| - 1] + NTD97 + Decimal(id)]
  }

  /** Paths and temporary files as the program names them, without texts. */
  function OwnNames(): Scope {
    Scope(Resolve, TempFile, (e: FileError) => [],
          (path: Str, text: Str) => ActionOutput([], Nothing, []), (path: Str, content: Bytes) => ActionOutput([], Nothing, []))
  }

  function FileA(): Str {
    AsciiText([0x61]);
    [0x61]
  }

  const TEMP_OF_A: Bytes := [0x2E, 0x61, 0x2E, 0x6E, 0x74, 0x64, 0x39, 0x37, 0x2D, 0x31] // .a.ntd97-1

  lemma OneLetter(path: Bytes)
    requires |path| == 1 && path[0] != SLASH && path[0] != DOT
    ensures Pieces(path) == [path] && Components([path]) == Some([path])
  {
    var before := Pieces(path[..0]);
    assert before == [[]];
    assert [] + [path[0]] == path;
    assert before[0 := path] == [path];
    assert [path][..0] == [];
    assert [] + [path] == [path];
  }

  lemma NameOfA()
    ensures Resolve(FileA()) == Some([FileA()])
  {
    hide Utf8, Pieces, Components;
    OneLetter(FileA());
    assert SpaceLen(FileA()) == 0;
  }

  lemma TempOfA()
    ensures TempFile([FileA()], 1) == [TEMP_OF_A] && TEMP_OF_A != FileA()
  {
    hide Utf8;
    assert Decimal(1) == [0x31];
    assert [DOT] + FileA() + NTD97 + Decimal(1) == TEMP_OF_A;
    assert |TEMP_OF_A| != |FileA()|;
  }

  /** The file .a.ntd97-1 is lost when action 1 writes the file a, and undoing the write does not bring it back. */
  lemma TakenTempIsLost(content: Bytes, other: Bytes)
    requires |content| <= MAX_TEXT_BYTES
    ensures var files: Files := map[[TEMP_OF_A] := other];
            var (written, token) := WriteAtomic(OwnNames(), files, 1, FileA(), content);
            && token.Ok? && written == map[[FileA()] := content]
            && RollbackWrite(OwnNames(), written, FileA(), token.value) == (map[], Ok(()))
  {
    hide Resolve, TempFile, Utf8, FileA;
    NameOfA();
    TempOfA();
    var files: Files := map[[TEMP_OF_A] := other];
    assert [TEMP_OF_A][0] != [FileA()][0];
    assert files - {[TEMP_OF_A]} == map[];
    var (written, token) := WriteAtomic(OwnNames(), files, 1, FileA(), content);
    assert written == map[[FileA()] := content];
    assert written - {[FileA()]} == map[];
  }

  /******* What a rollback leaves *******/

  /** The contents of a file, if there is one. */
  function At(files: Files, x: Path): Option<Bytes> {
    if x in files then Some(files[x]) else None
  }

  /** The action wrote this path, and rollback undoes it. */
  predicate Undoes(scope: Scope, a: PlannedAction, x: Path) {
    !NothingToUndo(a) && a.action.FileWrite? && scope.resolve(a.action.path) == Some(x)
  }

  /** The first of the first `n` actions that rollback undoes at this path. */
  function FirstToUndo(scope: Scope, actions: seq<PlannedAction>, n: nat, x: Path): (i: Option<nat>)
    requires n <= |actions|
    ensures i.Some? ==> i.value < n && Undoes(scope, actions[i.value], x) && forall j :: 0 <= j < i.value ==> !Undoes(scope, actions[j], x)
    ensures i.None? ==> forall j :: 0 <= j < n ==> !Undoes(scope, actions[j], x)
  {
    if n == 0 then None
    else
      var before := FirstToUndo(scope, actions, n - 1, x);
      if before.Some? then before
      else if Undoes(scope, actions[n - 1], x) then Some(n - 1)
      else None
  }

  /** What a token says was there: nothing, or these contents. */
  function Remembered(token: Option<Bytes>): Option<Bytes> {
    if token.Some? && |token.value| >= 5 then Some(token.value[5..]) else None
  }

  /** What the path holds after the rollback: what the first action undone there remembers, or what it held before. */
  function Left(scope: Scope, actions: seq<PlannedAction>, n: nat, files: Files, x: Path): Option<Bytes>
    requires n <= |actions|
  {
    match FirstToUndo(scope, actions, n, x)
    case None => At(files, x)
    case Some(i) => Remembered(actions[i].rollbackToken)
  }

  /** Undoing one write puts back what its token remembers, and touches no other path. */
  lemma UndoneWrite(tools: Tools<Files>, scope: Scope, files: Files, a: PlannedAction)
    requires a.capability in tools.adapters ==> tools.adapters[a.capability] == FileAdapter(scope)
    requires UndoAction(tools, files, a).1.Ok? && !NothingToUndo(a)
    ensures a.action.FileWrite? && scope.resolve(a.action.path).Some?
    ensures var target := scope.resolve(a.action.path).value;
            var files' := UndoAction(tools, files, a).0;
            && At(files', target) == Remembered(a.rollbackToken)
            && forall x :: x != target ==> At(files', x) == At(files, x)
  {
  }

  lemma {:induction false} UnwindLeaves(tools: Tools<Files>, scope: Scope, actions: seq<PlannedAction>, n: nat, files: Files, x: Path)
    requires n <= |actions| && Unwind(tools, actions, n, files).result.Ok?
    requires forall i :: 0 <= i < n && actions[i].capability in tools.adapters ==> tools.adapters[actions[i].capability] == FileAdapter(scope)
    ensures At(Unwind(tools, actions, n, files).env, x) == Left(scope, actions, n, files, x)
    decreases n
  {
    hide NothingToUndo, UndoAction, Remembered, At;
    if n > 0 {
      var a := actions[n - 1];
      if NothingToUndo(a) {
        UnwindLeaves(tools, scope, actions, n - 1, files, x);
      } else {
        UndoneWrite(tools, scope, files, a);
        UnwindLeaves(tools, scope, actions, n - 1, UndoAction(tools, files, a).0, x);
      }
    }
  }

  lemma SameEverywhere(a: Files, b: Files)
    ensures a == b <==> forall x :: At(a, x) == At(b, x)
  {
    if forall x :: At(a, x) == At(b, x) {
      forall x
        ensures x in a <==> x in b
        ensures x in a ==> a[x] == b[x]
      {
        assert At(a, x) == At(b, x);
      }
    }
  }

  /**
   Whatever the plan went through, a successful rollback leaves at each path what the token of
   the first action undone there remembers, and every other path alone; so it restores the files
   as they were at some time if and only if those tokens and paths say what was there then.
   */
  lemma RollbackRestoresExactly(tools: Tools<Files>, scope: Scope, s: FabricState, plan: u64, files: Files, start: Files)
    requires plan in s.plans
    requires var p := s.plans[plan];
             forall i :: 0 <= i < |p.actions| && p.actions[i].capability in tools.adapters
               ==> tools.adapters[p.actions[i].capability] == FileAdapter(scope)
    ensures var p, undo := s.plans[plan], RollbackPlan(tools, s, files, plan);
            undo.result.Ok? ==>
              && (forall x :: At(undo.env, x) == Left(scope, p.actions, |p.actions|, files, x))
              && (undo.env == start <==> forall x :: Left(scope, p.actions, |p.actions|, files, x) == At(start, x))
  {
    hide Unwind, Left, At;
    var p, undo := s.plans[plan], RollbackPlan(tools, s, files, plan);
    if undo.result.Ok? {
      forall x
        ensures At(undo.env, x) == Left(scope, p.actions, |p.actions|, files, x)
      {
        UnwindLeaves(tools, scope, p.actions, |p.actions|, files, x);
      }
      SameEverywhere(undo.env, start);
    }
  }

  /******* A write that was retried *******/

  /** A plan of one write, ready to run, that both callers may run; the verifier of the first call asks for a retry. */
  predicate Retries(tools: Tools<Files>, p: PlanState, first: Attempt, second: Attempt, d: Descriptor, output: ActionOutput) {
    && p.status == PlanReady && p.cursor == 0 && |p.actions| == 1
    && Awaits(tools, p.actions[0], d) && p.actions[0].status == Prepared
    && first.authority.Permits(d).Ok? && second.authority.Permits(d).Ok?
    && first.verifier(d, p.actions[0].action, output).Retry? && !second.verifier(d, p.actions[0].action, output).Retry?
  }

  /** A write that is to be executed and verified, by a capability that supports rollback. */
  predicate Awaits(tools: Tools<Files>, a: PlannedAction, d: Descriptor) {
    && a.resumeToken.None? && a.sideEffect != ReadOnly && a.verificationRequired && a.action.FileWrite?
    && tools.registry.ValidateAction(a.capability, a.action) == Ok(d) && tools.registry.Lookup(a.capability) == Ok(d) && d.rollbackSupported
  }

  ghost predicate WritesFiles(tools: Tools<Files>, scope: Scope, a: PlannedAction) {
    a.capability in tools.adapters && tools.adapters[a.capability] == FileAdapter(scope)
  }

  /** The output of the write. */
  function OutputOf(scope: Scope, a: PlannedAction): ActionOutput
    requires a.action.FileWrite?
  {
    scope.writeOutput(a.action.path, a.action.content)
  }

  /** The files with the action's content at its path. */
  function Written(scope: Scope, a: PlannedAction, files: Files): Files
    requires a.action.FileWrite? && scope.resolve(a.action.path).Some?
  {
    files[scope.resolve(a.action.path).value := a.action.content]
  }

  /** The write can be made, and its temporary name is free. */
  predicate Writable(scope: Scope, a: PlannedAction, files: Files) {
    && a.action.FileWrite? && scope.resolve(a.action.path).Some? && WriteAtomic(scope, files, a.id, a.action.path, a.action.content).1.Ok?
    && scope.temp(scope.resolve(a.action.path).value, a.id) !in files
    && scope.temp(scope.resolve(a.action.path).value, a.id) != scope.resolve(a.action.path).value
  }

  lemma WriteWrites(scope: Scope, a: PlannedAction, files: Files)
    requires Writable(scope, a, files)
    ensures WriteAtomic(scope, files, a.id, a.action.path, a.action.content)
            == (Written(scope, a, files), Ok(Snapshot(files, scope.resolve(a.action.path).value)))
    ensures Writable(scope, a, Written(scope, a, files)) && Written(scope, a, Written(scope, a, files)) == Written(scope, a, files)
    ensures RollbackWrite(scope, Written(scope, a, files), a.action.path, Snapshot(Written(scope, a, files), scope.resolve(a.action.path).value))
            == (Written(scope, a, files), Ok(()))
  {
    var target := scope.resolve(a.action.path).value;
    var written := Written(scope, a, files);
    assert files - {scope.temp(target, a.id)} == files;
    assert written - {scope.temp(target, a.id)} == written;
    assert written[target := a.action.content] == written;
    SnapshotReadBack(a.action.content);
  }

  lemma RetriedTurn(tools: Tools<Files>, scope: Scope, a: PlannedAction, d: Descriptor, files: Files, verifier: Verifier)
    requires Awaits(tools, a, d) && a.status == Prepared && WritesFiles(tools, scope, a) && Writable(scope, a, files)
    requires verifier(d, a.action, OutputOf(scope, a)).Retry?
    ensures var t := RunAction(tools, files, a, d, verifier);
            && t.env == Written(scope, a, files) && !t.advances && t.failure.None? && t.status == PlanReady
            && t.action.status == Retryable && t.action.id == a.id && t.action.action == a.action && t.action.capability == a.capability
            && t.action.sideEffect == a.sideEffect && t.action.verificationRequired == a.verificationRequired && t.action.resumeToken.None?
  {
    hide WriteAtomic, Snapshot;
    WriteWrites(scope, a, files);
  }

  /** The second completion remembers what the first one wrote. */
  lemma SecondTurn(tools: Tools<Files>, scope: Scope, a: PlannedAction, d: Descriptor, files: Files, verifier: Verifier)
    requires Awaits(tools, a, d) && a.status == Retryable && WritesFiles(tools, scope, a) && Writable(scope, a, files)
    requires !verifier(d, a.action, OutputOf(scope, a)).Retry?
    ensures var t := RunAction(tools, Written(scope, a, files), a, d, verifier);
            && t.env == Written(scope, a, files) && t.failure.None? && (t.advances || t.status == PlanFailed)
            && (NothingToUndo(t.action) || UndoAction(tools, t.env, t.action) == (t.env, Ok(())))
  {
    hide WriteAtomic, Snapshot, RollbackWrite;
    WriteWrites(scope, a, files);
    WriteWrites(scope, a, Written(scope, a, files));
  }

  /**
   A plan of one write whose verifier first asks for a retry, and then accepts or rejects: the
   rollback succeeds, and the written file stays; the files are restored only if that is what
   was there before.
   */
  lemma RetriedWriteStays(tools: Tools<Files>, scope: Scope, s: FabricState, plan: u64, first: Attempt, second: Attempt, d: Descriptor, files: Files)
    requires plan in s.plans && |s.plans[plan].actions| == 1
    requires WritesFiles(tools, scope, s.plans[plan].actions[0]) && Writable(scope, s.plans[plan].actions[0], files)
    requires Retries(tools, s.plans[plan], first, second, d, OutputOf(scope, s.plans[plan].actions[0]))
    ensures var (t, files') := RunPlan(tools, plan, [first, second], s, files);
            var undo := RollbackPlan(tools, t, files', plan);
            var a := s.plans[plan].actions[0];
            && undo.result.Ok? && undo.env == Written(scope, a, files)
            && (undo.env == files <==> At(files, scope.resolve(a.action.path).value) == Some(a.action.content))
  {
    hide RunAction, Writable, UndoAction, NothingToUndo, Registry.ValidateAction, Authority.Permits, ExecuteNext, RollbackPlan;
    var p, a := s.plans[plan], s.plans[plan].actions[0];
    var t1 := RunAction(tools, files, a, d, first.verifier);
    RetriedTurn(tools, scope, a, d, files, first.verifier);
    FirstCall(tools, s, plan, files, first, d);
    var s1 := s.(plans := s.plans[plan := PlanAfter(p, t1)]);
    SameWritable(scope, a, t1.action, files);
    SecondTurn(tools, scope, t1.action, d, files, second.verifier);
    var t2 := RunAction(tools, t1.env, t1.action, d, second.verifier);
    FirstCall(tools, s1, plan, t1.env, second, d);
    TwoCalls(tools, plan, first, second, s, files);
    WrittenBefore(scope, a, files);
    RollbackOfOne(tools, s1.(plans := s1.plans[plan := PlanAfter(PlanAfter(p, t1), t2)]), plan, t2.env);
  }

  lemma WrittenBefore(scope: Scope, a: PlannedAction, files: Files)
    requires Writable(scope, a, files)
    ensures Written(scope, a, files) == files <==> At(files, scope.resolve(a.action.path).value) == Some(a.action.content)
  {
  }

  lemma TwoCalls<E>(tools: Tools<E>, plan: u64, first: Attempt, second: Attempt, s: FabricState, env: E)
    ensures var one := ExecuteNext(tools, s, env, plan, first.authority, first.verifier);
            var two := ExecuteNext(tools, one.state, one.env, plan, second.authority, second.verifier);
            RunPlan(tools, plan, [first, second], s, env) == (two.state, two.env)
  {
    hide ExecuteNext;
    assert [first, second][..1] == [first] && [first][..0] == [];
    assert RunPlan(tools, plan, [], s, env) == (s, env);
    var one := ExecuteNext(tools, s, env, plan, first.authority, first.verifier);
    assert RunPlan(tools, plan, [first], s, env) == (one.state, one.env);
  }

  lemma SameWritable(scope: Scope, a: PlannedAction, b: PlannedAction, files: Files)
    requires Writable(scope, a, files) && a.id == b.id && a.action == b.action
    ensures Writable(scope, b, files) && Written(scope, b, files) == Written(scope, a, files) && OutputOf(scope, b) == OutputOf(scope, a)
  {
  }

  /** A call that is admitted runs the action at the cursor. */
  lemma FirstCall(tools: Tools<Files>, s: FabricState, plan: u64, files: Files, attempt: Attempt, d: Descriptor)
    requires plan in s.plans && s.plans[plan].status == PlanReady && s.plans[plan].cursor == 0 && |s.plans[plan].actions| == 1
    requires var a := s.plans[plan].actions[0]; Awaits(tools, a, d) && !Final(a.status)
    requires attempt.authority.Permits(d).Ok?
    ensures var step := ExecuteNext(tools, s, files, plan, attempt.authority, attempt.verifier);
            var t := RunAction(tools, files, s.plans[plan].actions[0], d, attempt.verifier);
            step.state == s.(plans := s.plans[plan := PlanAfter(s.plans[plan], t)]) && step.env == t.env
  {
    hide RunAction, Registry.ValidateAction, Authority.Permits;
  }

  lemma RollbackOfOne(tools: Tools<Files>, s: FabricState, plan: u64, files: Files)
    requires plan in s.plans && |s.plans[plan].actions| == 1
    requires NothingToUndo(s.plans[plan].actions[0]) || UndoAction(tools, files, s.plans[plan].actions[0]) == (files, Ok(()))
    ensures var undo := RollbackPlan(tools, s, files, plan); undo.result.Ok? && undo.env == files
  {
    hide NothingToUndo, UndoAction;
    var actions := s.plans[plan].actions;
    assert Unwind(tools, actions, 0, files) == Unwinding(Ok(()), files, []);
    assert Unwind(tools, actions, 1, files).env == files && Unwind(tools, actions, 1, files).result.Ok?;
  }
}
