/**
 The app-private file adapter: atomic writes through a temporary file, and the rollback of
 a write from the token that snapshots what was there before. The file system is a map from
 resolved paths to contents.
 */
module ScopedFiles {
  import opened Wrappers
  import opened Bytes
  import opened Streams
  import opened Actions
  import opened FabricModel
  import opened FabricInvariant
  import opened FabricRuns
  import opened FabricUndo

  type Path = seq<Bytes>
  type Files = map<Path, Bytes>

  const MAX_TEXT_BYTES := 512 * 1024

  datatype FileError = TooLarge | BadPath | ExistingTooLarge | InvalidToken | NotFound | NotText | UnsupportedAction

  /**
   How a relative path resolves under the capability root, the name of the temporary file
   of a write, and the texts of errors and outputs.
   */
  datatype Scope = Scope(
    resolve: Str -> Option<Path>,
    temp: (Path, u64) -> Path,
    text: FileError -> Str,
    readOutput: (Str, Str) -> ActionOutput,
    writeOutput: (Str, Bytes) -> ActionOutput
  )

  /** The snapshot of a path: its presence, and its length-prefixed contents. */
  function Snapshot(files: Files, target: Path): Bytes {
    if target in files then PutU8(1, PutBytes(files[target], [])) else [0]
  }

  function WriteAtomic(scope: Scope, files: Files, id: u64, path: Str, content: Bytes): (Files, Result<Bytes, FileError>) {
    if |content| > MAX_TEXT_BYTES then (files, Err(TooLarge))
    else
      match scope.resolve(path)
      case None => (files, Err(BadPath))
      case Some(target) =>
        if target in files && |files[target]| > MAX_TEXT_BYTES then (files, Err(ExistingTooLarge))
        else ((files - {scope.temp(target, id)})[target := content], Ok(Snapshot(files, target)))
  }

  function RollbackWrite(scope: Scope, files: Files, path: Str, token: Bytes): (Files, Result<(), FileError>) {
    match scope.resolve(path)
    case None => (files, Err(BadPath))
    case Some(target) =>
      if |token| >= 1 && token[0] == 0 && |token| == 1 then (files - {target}, Ok(()))
      else if |token| >= 5 && token[0] == 1 then
        var n := FromLe(token[1..5]);
        if n > MAX_TEXT_BYTES || |token| != n + 5 then (files, Err(InvalidToken))
        else (files[target := token[5..]], Ok(()))
      else (files, Err(InvalidToken))
  }

  /** The directory behind the adapter, as the adapter changes it. */
  class Directory {
    const scope: Scope
    var files: Files

    constructor (scope: Scope, files: Files)
      ensures this.scope == scope && this.files == files
    {
      this.scope := scope;
      this.files := files;
    }

    /** Snapshots the target, fills a temporary file and renames it over the target. */
    method Write(id: u64, path: Str, content: Bytes) returns (r: Result<Bytes, FileError>)
      modifies this
      ensures (files, r) == WriteAtomic(scope, old(files), id, path, content)
    {
      if |content| > MAX_TEXT_BYTES {
        return Err(TooLarge);
      }
      var resolved := scope.resolve(path);
      if resolved.None? {
        return Err(BadPath);
      }
      var target := resolved.value;
      var token: Bytes;
      if target in files {
        if |files[target]| > MAX_TEXT_BYTES {
          return Err(ExistingTooLarge);
        }
        var out := new Buffer();
        out.PushU8(1);
        var ok := out.PushBytes(files[target]);
        token := out.bytes;
        assert token == token + [] == [] + PutU8(1, PutBytes(files[target], [])) == Snapshot(files, target);
      } else {
        token := [0];
      }
      var temp := scope.temp(target, id);
      files := files[temp := []];
      files := files[temp := content];
      files := (files - {temp})[target := files[temp]];
      assert files == (old(files) - {temp})[target := content];
      r := Ok(token);
    }

    method Rollback(path: Str, token: Bytes) returns (r: Result<(), FileError>)
      modifies this
      ensures (files, r) == RollbackWrite(scope, old(files), path, token)
    {
      var resolved := scope.resolve(path);
      if resolved.None? {
        return Err(BadPath);
      }
      var target := resolved.value;
      if |token| == 1 && token[0] == 0 {
        files := files - {target};
        return Ok(());
      }
      if |token| >= 5 && token[0] == 1 {
        var n := FromLe(token[1..5]);
        if n > MAX_TEXT_BYTES || |token| != n + 5 {
          return Err(InvalidToken);
        }
        files := files[target := token[5..]];
        return Ok(());
      }
      r := Err(InvalidToken);
    }
  }

  /******* Undoing a write *******/

  /** The token of an existing file is read back as its contents. */
  lemma SnapshotReadBack(content: Bytes)
    requires |content| <= MAX_TEXT_BYTES
    ensures var token := PutU8(1, PutBytes(content, []));
            && |token| == |content| + 5 && token[0] == 1
            && FromLe(token[1..5]) == |content| && token[5..] == content
  {
    IntegerWidths();
    FromLeOfLe(4, |content|);
    var token := PutU8(1, PutBytes(content, []));
    assert Le(1, 1) == [1];
    assert token == [1] + (Le(4, |content|) + (content + []));
    assert token[1..5] == Le(4, |content|);
  }

  /**
   Rolling back a write restores the files exactly when no other file had the name of the
   temporary file.
   */
  lemma WriteIsUndone(scope: Scope, files: Files, id: u64, path: Str, content: Bytes)
    requires WriteAtomic(scope, files, id, path, content).1.Ok?
    ensures var (files', token) := WriteAtomic(scope, files, id, path, content);
            var target := scope.resolve(path).value;
            RollbackWrite(scope, files', path, token.value) == (files, Ok(()))
            <==> scope.temp(target, id) !in files || scope.temp(target, id) == target
  {
    var (files', token) := WriteAtomic(scope, files, id, path, content);
    var target := scope.resolve(path).value;
    var temp := scope.temp(target, id);
    if target in files {
      SnapshotReadBack(files[target]);
      var undone := files'[target := files[target]];
      assert RollbackWrite(scope, files', path, token.value).0 == undone;
      if temp in files && temp != target {
        assert temp !in undone;
      } else {
        assert undone == files;
      }
    } else {
      var undone := files' - {target};
      if temp in files && temp != target {
        assert temp !in undone;
      } else {
        assert undone == files;
      }
    }
  }

  /******* The adapter *******/

  function ReadText(scope: Scope, files: Files, path: Str): Result<Str, FileError> {
    match scope.resolve(path)
    case None => Err(BadPath)
    case Some(target) =>
      if target !in files then Err(NotFound)
      else if |files[target]| > MAX_TEXT_BYTES then Err(TooLarge)
      else if !Utf8(files[target]) then Err(NotText)
      else Ok(files[target])
  }

  function Execute(scope: Scope, files: Files, id: u64, action: TypedAction): (Files, Result<AdapterResult, Str>) {
    match action {
      case FileRead(path) =>
        (files, match ReadText(scope, files, path)
                case Ok(text) => Ok(Completed(scope.readOutput(path, text), None))
                case Err(e) => Err(scope.text(e)))
      case FileWrite(path, content) =>
        var (files', token) := WriteAtomic(scope, files, id, path, content);
        (files', match token
                 case Ok(t) => Ok(Completed(scope.writeOutput(path, content), Some(t)))
                 case Err(e) => Err(scope.text(e)))
      case _ => (files, Err(scope.text(UnsupportedAction)))
    }
  }

  function Rollback(scope: Scope, files: Files, action: TypedAction, token: Bytes): (Files, Result<(), Str>) {
    match action {
      case FileWrite(path, _) =>
        var (files', r) := RollbackWrite(scope, files, path, token);
        (files', match r
                 case Ok(_) => Ok(())
                 case Err(e) => Err(scope.text(e)))
      case _ => (files, Err(scope.text(UnsupportedAction)))
    }
  }

  /** Resuming is not supported by this adapter. */
  function FileAdapter(scope: Scope): Adapter<Files> {
    Adapter((files, id, action) => Execute(scope, files, id, action),
            (files, id, action, token) => (files, Err(scope.text(UnsupportedAction))),
            (files, id, action, token) => Rollback(scope, files, action, token))
  }

  /** A plan of reads, declared read-only, and writes. */
  predicate FilePlan(p: PlanState) {
    forall i :: 0 <= i < |p.actions| ==>
      if p.actions[i].sideEffect == ReadOnly then p.actions[i].action.FileRead? else p.actions[i].action.FileWrite?
  }

  /** The temporary file of an action that writes. */
  function Temp(scope: Scope, a: PlannedAction): Option<Path> {
    if a.action.FileWrite? && scope.resolve(a.action.path).Some?
    then Some(scope.temp(scope.resolve(a.action.path).value, a.id))
    else None
  }

  /** No action of the plan writes to what is the temporary file of an action of the plan. */
  predicate TempsAreNoTargets(scope: Scope, p: PlanState) {
    forall i, j :: 0 <= i < |p.actions| && 0 <= j < |p.actions| && Temp(scope, p.actions[i]).Some?
                   && p.actions[j].action.FileWrite? ==>
                     scope.resolve(p.actions[j].action.path) != Temp(scope, p.actions[i])
  }

  /** No file has the name of a temporary file of the plan. */
  predicate TempsUnused(scope: Scope, p: PlanState, files: Files) {
    forall i :: 0 <= i < |p.actions| && Temp(scope, p.actions[i]).Some? ==> Temp(scope, p.actions[i]).value !in files
  }

  lemma WriteKeepsTempsUnused(scope: Scope, p: PlanState, files: Files, k: nat)
    requires k < |p.actions| && p.actions[k].action.FileWrite?
    requires TempsAreNoTargets(scope, p) && TempsUnused(scope, p, files)
    ensures TempsUnused(scope, p, Execute(scope, files, p.actions[k].id, p.actions[k].action).0)
  {
    var files' := Execute(scope, files, p.actions[k].id, p.actions[k].action).0;
    forall i | 0 <= i < |p.actions| && Temp(scope, p.actions[i]).Some?
      ensures Temp(scope, p.actions[i]).value !in files'
    {
      assert scope.resolve(p.actions[k].action.path) != Temp(scope, p.actions[i]);
    }
  }

  lemma FileActionIsWellBehaved(tools: Tools<Files>, scope: Scope, p: PlanState, k: nat)
    requires k < |p.actions| && FilePlan(p) && TempsAreNoTargets(scope, p)
    requires p.actions[k].capability in tools.adapters ==> tools.adapters[p.actions[k].capability] == FileAdapter(scope)
    ensures WellBehaved(tools, files => TempsUnused(scope, p, files), p.actions[k])
  {
    var a := p.actions[k];
    if a.capability in tools.adapters && a.sideEffect != ReadOnly {
      var adapter := tools.adapters[a.capability];
      forall files | TempsUnused(scope, p, files)
        ensures UndoesFrom(adapter, a, files) && TempsUnused(scope, p, adapter.execute(files, a.id, a.action).0)
      {
        WriteKeepsTempsUnused(scope, p, files, k);
        if WriteAtomic(scope, files, a.id, a.action.path, a.action.content).1.Ok? {
          WriteIsUndone(scope, files, a.id, a.action.path, a.action.content);
          assert Temp(scope, a).Some?;
        }
      }
    }
  }

  lemma UntouchedWritesAreRestored(tools: Tools<Files>, scope: Scope, plan: u64, attempts: seq<Attempt>, s: FabricState, files: Files)
    requires FreshPlans(s) && plan in s.plans && Untouched(s.plans[plan]) && FilePlan(s.plans[plan])
    requires forall i :: 0 <= i < |s.plans[plan].actions| && s.plans[plan].actions[i].capability in tools.adapters
               ==> tools.adapters[s.plans[plan].actions[i].capability] == FileAdapter(scope)
    requires TempsAreNoTargets(scope, s.plans[plan]) && TempsUnused(scope, s.plans[plan], files)
    requires CalledOnceIn(RunPlan(tools, plan, attempts, s, files).0, plan)
    ensures var (t, files') := RunPlan(tools, plan, attempts, s, files);
            var undo := RollbackPlan(tools, t, files', plan);
            undo.result.Ok? ==> undo.env == files
  {
    var p := s.plans[plan];
    var good := (f: Files) => TempsUnused(scope, p, f);
    forall k | 0 <= k < |p.actions|
      ensures WellBehaved(tools, good, p.actions[k])
    {
      FileActionIsWellBehaved(tools, scope, p, k);
    }
    RollbackRestoresWorld(tools, good, plan, attempts, s, files);
  }

  /**
   A plan of file reads and writes that is prepared, run and then rolled back restores every
   file, even when several of its actions wrote the same path.
   */
  lemma RolledBackWritesRestoreFiles(tools: Tools<Files>, scope: Scope, s: FabricState, taskId: u64, graph: TaskGraph,
                                     payloads: map<u32, TypedAction>, attempts: seq<Attempt>, files: Files)
    requires FreshPlans(s) && PreparePlan(tools.registry, s, taskId, graph, payloads).0.Ok?
    requires var (plan, prepared) := PreparePlan(tools.registry, s, taskId, graph, payloads);
             var p := prepared.plans[plan.value];
             && FilePlan(p) && TempsAreNoTargets(scope, p) && TempsUnused(scope, p, files)
             && (forall i :: 0 <= i < |p.actions| && p.actions[i].capability in tools.adapters
                   ==> tools.adapters[p.actions[i].capability] == FileAdapter(scope))
             && CalledOnceIn(RunPlan(tools, plan.value, attempts, prepared, files).0, plan.value)
    ensures var (plan, prepared) := PreparePlan(tools.registry, s, taskId, graph, payloads);
            var (t, files') := RunPlan(tools, plan.value, attempts, prepared, files);
            var undo := RollbackPlan(tools, t, files', plan.value);
            undo.result.Ok? ==> undo.env == files
  {
    hide FilePlan, TempsAreNoTargets, TempsUnused, RunPlan, RollbackPlan, CheckNodes;
    var (plan, prepared) := PreparePlan(tools.registry, s, taskId, graph, payloads);
    PreparedIsUntouched(tools.registry, s, taskId, graph, payloads);
    UntouchedWritesAreRestored(tools, scope, plan.value, attempts, prepared, files);
  }
}
