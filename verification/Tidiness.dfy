/** What every archive keeps over runs beside the guarantees of its steps: its index file carries its id,
    a row that is unmounting or gone stores no process, and the mount path of an active row is the one its
    process was started with. */
module Tidiness {
  import opened ArchiveStore
  import opened Corners
  import opened Guarantees
  import opened Lifecycle
  import opened MountNames
  import opened NestedSkips
  import opened Options
  import opened PathLex
  import opened RepairTheorems
  import opened Reconciling
  import opened Runs
  import opened Sequences
  import opened Statuses
  import opened Steps
  import opened Strings

  /** activeMountStatus. */
  predicate IsActive(status: Status) {
    status == Indexing || status == Mounting || status == Mounted || status == HooksRunning
  }

  predicate IsGone(status: Status) {
    status == Unmounting || status == Absent
  }

  /** An index path of the archive, or none. */
  predicate OwnIndex(id: Id, path: string) {
    Blank(path) || Base(path) == id + INDEX_SUFFIX
  }

  predicate EndsVisibly(path: string) {
    path != "" && !IsSpace(path[|path| - 1])
  }

  /** The process was started with the mount path. */
  ghost predicate StartedAt(w: World, pid: nat, path: string) {
    pid in w.paths && w.paths[pid] == path
  }

  /** The live entry of the archive is as it was started. */
  ghost predicate LiveTidy(w: World, id: Id) {
    id in w.live ==> StartedAt(w, w.live[id].pid, w.live[id].mountPath) && OwnIndex(id, w.live[id].indexPath)
  }

  /** The path of an active row is that of its live entry, and of its stored process. */
  ghost predicate PathTidy(w: World, id: Id, row: Row) {
    && (id in w.live ==> row.mountPath == Some(w.live[id].mountPath))
    && (row.mountPid.Some? ==> row.mountPath.Some? && StartedAt(w, row.mountPid.value, row.mountPath.value))
    && (row.mountPath.Some? ==> EndsVisibly(row.mountPath.value))
  }

  ghost predicate RowTidy(w: World, id: Id, row: Row) {
    && OwnIndex(id, row.indexPath.GetOr(""))
    && (IsGone(row.status) ==> row.mountPid == None)
    && (IsActive(row.status) ==> PathTidy(w, id, row))
  }

  ghost predicate OwnTidy(w: World, id: Id) {
    LiveTidy(w, id) && (id in w.rows ==> RowTidy(w, id, w.rows[id]))
  }

  ghost predicate Tidy(w: World) {
    forall id :: OwnTidy(w, id)
  }

  // ---- one archive at a time ----

  lemma OthersTidy(w: World, w': World, id: Id, k: Id)
    requires WellFormed(w) && Frame(w, w', id) && k != id && OwnTidy(w, k)
    ensures OwnTidy(w', k)
  {}

  /** A step on one archive keeps all others tidy. */
  lemma TidyFrame(w: World, w': World, id: Id)
    requires WellFormed(w) && Tidy(w) && Frame(w, w', id) && OwnTidy(w', id)
    ensures Tidy(w')
  {
    forall k ensures OwnTidy(w', k) {
      assert OwnTidy(w, k);
      if k != id {
        OthersTidy(w, w', id, k);
      }
    }
  }

  /** What a row may become while its process stays: it keeps or forgets its index, and it is active only
      if it was. */
  ghost predicate TidyRow(w: World, id: Id, r: Row, r': Row) {
    && (r'.indexPath == r.indexPath || OwnIndex(id, r'.indexPath.GetOr("")))
    && (IsGone(r'.status) ==> r'.mountPid == None)
    && (IsActive(r'.status) ==>
          && IsActive(r.status) && r'.mountPath == r.mountPath
          && (r'.mountPid == r.mountPid || r'.mountPid == None
              || (id in w.live && r'.mountPid == Some(w.live[id].pid))))
  }

  lemma RowChangeTidy(w: World, w': World, id: Id)
    requires OwnTidy(w, id) && id in w.rows && id in w'.rows && TidyRow(w, id, w.rows[id], w'.rows[id])
    requires w'.paths == w.paths && (id in w'.live ==> id in w.live && w'.live[id] == w.live[id])
    ensures OwnTidy(w', id)
  {}

  /** Nothing that tidiness looks at has changed. */
  lemma SameTidy(w: World, w': World, id: Id)
    requires OwnTidy(w, id) && w'.rows == w.rows && w'.paths == w.paths
    requires id in w'.live ==> id in w.live && w'.live[id] == w.live[id]
    ensures OwnTidy(w', id)
  {}

  lemma MoveTidy(w: World, w1: World, id: Id, to: Status, expected: set<Status>, patch: Patch, now: Time)
    requires OwnTidy(w, id) && id in w.rows && w1.rows == w.rows && w1.paths == w.paths
    requires id in w1.live ==> id in w.live && w1.live[id] == w.live[id]
    requires CanMove(w.rows, id, to, expected) ==> TidyRow(w, id, w.rows[id], Updated(w.rows[id], to, patch, now))
    ensures OwnTidy(WithRows(w1, id, to, expected, patch, now), id)
  {
    if CanMove(w.rows, id, to, expected) {
      RowChangeTidy(w, WithRows(w1, id, to, expected, patch, now), id);
    } else {
      SameTidy(w, WithRows(w1, id, to, expected, patch, now), id);
    }
  }

  // ---- starting a process ----

  lemma IndexPathIsOwn(cfg: Config, id: Id)
    requires SafeId(id)
    ensures OwnIndex(id, IndexPathFor(cfg, id))
  {
    var name := id + INDEX_SUFFIX;
    assert NoSlash(name) by {
      assert forall i :: 0 <= i < |INDEX_SUFFIX| ==> INDEX_SUFFIX[i] != '/';
      assert !IsSafe('/');
    }
    assert |name| > 2;
    BaseOfJoin(cfg.indexDir, name);
  }

  lemma MountPathEnds(cfg: Config, name: string)
    requires IsMountName(name)
    ensures EndsVisibly(Join(cfg.mountRoot, name))
  {
    MountNameIsElement(name);
    BaseOfJoin(cfg.mountRoot, name);
    var path := Join(cfg.mountRoot, name);
    assert path[|path| - |name|..][|name| - 1] == path[|path| - 1];
    SafeIsVisible(name[|name| - 1]);
  }

  lemma SafeIsVisible(c: char)
    requires IsSafe(c)
    ensures !IsSpace(c)
  {}

  /** A claimed row: its index is its own, and its mount path ends visibly. */
  ghost predicate ClaimTidy(w: World, id: Id) {
    && LiveTidy(w, id) && id in w.rows
    && w.rows[id].indexPath.Some? && OwnIndex(id, w.rows[id].indexPath.value)
    && w.rows[id].mountPath.Some? && EndsVisibly(w.rows[id].mountPath.value)
  }

  lemma ClaimedTidy(w: World, cfg: Config, id: Id, target: Status, env: BeginEnv)
    requires WellFormed(w) && OwnTidy(w, id) && id in w.rows && CanMove(w.rows, id, target, {w.rows[id].status})
    ensures var claimed := Claimed(w, cfg, id, target, env);
            ClaimTidy(claimed, id) && claimed.rows[id].status == target
  {
    var name := MountName(w.rows[id], id, TakenNames(w, env.dirs));
    MountNameIsFree(w, id, env.dirs);
    assert SafeId(id);
    IndexPathIsOwn(cfg, id);
    MountPathEnds(cfg, name);
  }

  lemma FailStartTidy(w: World, cfg: Config, id: Id, indexPhase: bool, reason: string, now: Time)
    requires ClaimTidy(w, id) && w.rows[id].status == if indexPhase then Indexing else Mounting
    ensures OwnTidy(FailStart(w, cfg, id, indexPhase, reason, now), id)
  {}

  lemma SpawnedTidy(w: World, id: Id, target: Status, managed: Managed, now: Time)
    requires ClaimTidy(w, id) && w.rows[id].status == target && IsActive(target)
    requires w.rows[id].mountPath == Some(managed.mountPath) && OwnIndex(id, managed.indexPath)
    ensures OwnTidy(Spawned(w, id, target, managed, now), id)
  {}

  lemma ClearedTidy(w: World, w': World, id: Id)
    requires ClaimTidy(w, id) && w' == w.(alive := w'.alive)
    ensures ClaimTidy(w', id)
  {}

  lemma LaunchTidy(w: World, cfg: Config, id: Id, archivePath: string, needsIndex: bool, useIndexOnly: bool,
                   env: BeginEnv)
    requires ClaimTidy(w, id) && w.rows[id].status == if useIndexOnly then Indexing else Mounting
    ensures OwnTidy(Launch(w, cfg, id, archivePath, needsIndex, useIndexOnly, env).0, id)
  {
    var begun := Launch(w, cfg, id, archivePath, needsIndex, useIndexOnly, env).1;
    var cleared := if useIndexOnly then w else w.(alive := w.alive - env.staleHolders);
    ClearedTidy(w, cleared, id);
    LaunchFails(w, cfg, id, archivePath, needsIndex, useIndexOnly, env, cleared);
    LaunchStarts(w, cfg, id, archivePath, needsIndex, useIndexOnly, env, cleared);
    if begun.Started? {
      LaunchedIndex(w, cfg, id, archivePath, needsIndex, useIndexOnly, env);
      SpawnedTidy(cleared, id, if useIndexOnly then Indexing else Mounting, begun.managed, env.now);
    } else {
      FailStartTidy(w, cfg, id, useIndexOnly, begun.reason, env.now);
      FailStartTidy(cleared, cfg, id, useIndexOnly, begun.reason, env.now);
    }
  }

  lemma LaunchedIndex(w: World, cfg: Config, id: Id, archivePath: string, needsIndex: bool, useIndexOnly: bool,
                      env: BeginEnv)
    requires id in w.rows
    ensures var begun := Launch(w, cfg, id, archivePath, needsIndex, useIndexOnly, env).1;
            begun.Started? ==> begun.managed.indexPath == w.rows[id].indexPath.GetOr("")
                               && begun.managed.mountPath == w.rows[id].mountPath.GetOr("")
  {}

  lemma ProcessTidy(w: World, cfg: Config, id: Id, archivePath: string, needsIndex: bool, indexOnly: Option<bool>,
                    env: BeginEnv)
    requires WellFormed(w) && OwnTidy(w, id) && id in w.rows
    ensures OwnTidy(BeginProcess(w, cfg, id, archivePath, needsIndex, indexOnly, env).0, id)
  {
    var useIndexOnly := indexOnly.GetOr(needsIndex);
    var target := if useIndexOnly then Indexing else Mounting;
    if CanMove(w.rows, id, target, {w.rows[id].status}) {
      ClaimedTidy(w, cfg, id, target, env);
      LaunchTidy(Claimed(w, cfg, id, target, env), cfg, id, archivePath, needsIndex, useIndexOnly, env);
    }
  }

  // ---- conversions and BeginMount ----

  /** Booking a failure on the row leaves it tidy, whatever its status becomes, as long as it does not
      become active. */
  lemma FailedRowTidy(w: World, id: Id, r: Row, to: Status, cfg: Config, reason: string, now: Time)
    requires id in w.rows && r.indexPath == w.rows[id].indexPath && r.mountPath == w.rows[id].mountPath
    requires IsActive(to) ==> to == w.rows[id].status
    ensures TidyRow(w, id, w.rows[id], Updated(r, to, FailPatch(w.rows[id], cfg.maxAttempts, reason), now))
  {}

  lemma FailedClaimTidy(w: World, cfg: Config, id: Id, reason: string, now: Time)
    requires OwnTidy(w, id) && id in w.rows
    ensures OwnTidy(FailConvertClaim(w, cfg, id, reason, now), id)
  {
    var row := w.rows[id];
    if row.status == Discovered && row.firstMountedAt.None? {
      var r1 := Updated(row, Indexing, NO_PATCH.(lastError := Set(Some(reason))), now);
      var r2 := Updated(r1, IndexFailed, FailPatch(row, cfg.maxAttempts, reason), now);
      FailedByIndexing(w, cfg, id, reason, now, r1, r2);
      FailedRowTidy(w, id, r1, IndexFailed, cfg, reason, now);
      RowChangeTidy(w, w.(rows := w.rows[id := r2]), id);
    } else {
      var failed := if row.firstMountedAt.None? then IndexFailed else MountFailed;
      var patch := FailPatch(row, cfg.maxAttempts, reason);
      FailedRowTidy(w, id, row, failed, cfg, reason, now);
      FailedRowTidy(w, id, row, row.status, cfg, reason, now);
      MoveTidy(w, w, id, failed, {row.status}, patch, now);
      MoveTidy(w, w, id, row.status, {row.status}, patch, now);
    }
  }

  lemma ConvertTidy(w: World, cfg: Config, id: Id, needsIndex: bool, env: BeginEnv)
    requires OwnTidy(w, id) && id in w.rows
    ensures OwnTidy(BeginConvert(w, cfg, id, needsIndex, env).0, id)
  {
    var row := w.rows[id];
    if !env.sourceIsFile {
      FailedClaimTidy(w, cfg, id, "archive not found: " + row.archivePath, env.now);
    } else if CanMove(w.rows, id, Converting, {row.status}) {
      var patch := CLEAR_PID.(lastError := Set(None));
      MoveTidy(w, w, id, Converting, {row.status}, patch, env.now);
      JobsTidy(WithRows(w, id, Converting, {row.status}, patch, env.now), id, Job(row.archivePath, needsIndex, InFlight));
    }
  }

  lemma JobsTidy(w: World, id: Id, job: Job)
    requires OwnTidy(w, id)
    ensures OwnTidy(w.(jobs := w.jobs[id := job]), id)
  {}

  lemma CompleteConvertTidy(w: World, id: Id, resultPath: string, env: BeginEnv)
    requires OwnTidy(w, id) && id in w.rows
    ensures OwnTidy(CompleteConvert(w, id, resultPath, env).0, id)
  {
    var row := w.rows[id];
    var cleaned := CleanPartial(w, row);
    SameTidy(w, cleaned, id);
    MoveTidy(w, cleaned, id, Discovered, POST_CONVERT, ProductPatch(row, id, resultPath, env.convertedBasename), env.now);
  }

  lemma SlotTidy(w: World, cfg: Config, id: Id, needsIndex: bool, env: BeginEnv)
    requires WellFormed(w) && OwnTidy(w, id) && id in w.rows
    ensures OwnTidy(StartIfSlot(w, cfg, id, needsIndex, env).0, id)
  {
    ProcessTidy(w, cfg, id, w.rows[id].archivePath, needsIndex, None, env);
  }

  lemma RelocatedTidy(w: World, id: Id, path: string, basename: string, now: Time, cfg: Config)
    requires WellFormed(w) && OwnTidy(w, id) && id in w.rows
    ensures var moved := WithRows(w, id, w.rows[id].status, {w.rows[id].status},
                                  NO_PATCH.(archivePath := Set(path), basename := Set(basename)), now);
            OwnTidy(moved, id) && WellFormed(moved)
  {
    var status := w.rows[id].status;
    var patch := NO_PATCH.(archivePath := Set(path), basename := Set(basename));
    MoveTidy(w, w, id, status, {status}, patch, now);
    PlainMove(w, id, status, {status}, patch, now, cfg);
  }

  lemma FreshTidy(w: World, cfg: Config, id: Id, first: bool, needsIndex: bool, env: BeginEnv)
    requires WellFormed(w) && OwnTidy(w, id) && id in w.rows
    ensures OwnTidy(StartFresh(w, cfg, id, first, needsIndex, env).0, id)
  {
    var row := w.rows[id];
    if env.preconvert(row.archivePath) {
      ConvertTidy(w, cfg, id, needsIndex, env);
    } else {
      match env.relocation(row.archivePath)
      case Stay => SlotTidy(w, cfg, id, needsIndex, env);
      case RelocateFailed(reason) => FailedClaimTidy(w, cfg, id, reason, env.now);
      case MovedTo(path, basename) =>
        var moved := WithRows(w, id, row.status, {row.status},
                              NO_PATCH.(archivePath := Set(path), basename := Set(basename)), env.now);
        RelocatedTidy(w, id, path, basename, env.now, cfg);
        SlotTidy(moved, cfg, id, NeedsIndex(moved, moved.rows[id], first), env);
    }
  }

  lemma DispatchTidy(w: World, cfg: Config, id: Id, first: bool, needsIndex: bool, env: BeginEnv)
    requires WellFormed(w) && OwnTidy(w, id) && id in w.rows
    ensures OwnTidy(Dispatch(w, cfg, id, first, needsIndex, env).0, id)
  {
    SlotTidy(w, cfg, id, needsIndex, env);
    FreshTidy(w, cfg, id, first, needsIndex, env);
  }

  lemma AdoptTidy(w: World, cfg: Config, id: Id, first: bool, needsIndex: bool, env: BeginEnv)
    requires WellFormed(w) && OwnTidy(w, id) && id in w.rows
    ensures OwnTidy(AdoptThenDispatch(w, cfg, id, first, needsIndex, env).0, id)
  {
    if env.converted.Some? && w.rows[id].archivePath != env.converted.value {
      var adopted := CompleteConvert(w, id, env.converted.value, env).0;
      CompleteConvertTidy(w, id, env.converted.value, env);
      CompleteConvertStep(w, id, env.converted.value, env, cfg);
      DispatchTidy(adopted, cfg, id, first, needsIndex, env);
    } else {
      DispatchTidy(w, cfg, id, first, needsIndex, env);
    }
  }

  lemma CleanedAdoptTidy(w: World, cfg: Config, id: Id, row: Row, first: bool, needsIndex: bool, env: BeginEnv)
    requires WellFormed(w) && OwnTidy(w, id) && id in w.rows
    ensures OwnTidy(AdoptThenDispatch(CleanPartial(w, row), cfg, id, first, needsIndex, env).0, id)
  {
    var cleaned := CleanPartial(w, row);
    SameTidy(w, cleaned, id);
    CleanPartialStep(w, row, id, cfg);
    AdoptTidy(cleaned, cfg, id, first, needsIndex, env);
  }

  lemma BeginTidy(w: World, cfg: Config, id: Id, firstIndex: Option<bool>, env: BeginEnv)
    requires WellFormed(w) && OwnTidy(w, id)
    ensures OwnTidy(BeginMount(w, cfg, id, firstIndex, env).0, id)
  {
    if id in w.rows && id !in w.jobs && w.rows[id].status != Converting {
      var row := w.rows[id];
      var cleaned := CleanPartial(w, row);
      var first := firstIndex.GetOr(row.firstMountedAt.None?);
      StartIsAdoption(w, cfg, id, firstIndex, env, cleaned, first);
      CleanedAdoptTidy(w, cfg, id, row, first, NeedsIndex(cleaned, row, first), env);
    }
  }

  // ---- polling ----

  lemma MarkMountedTidy(w: World, id: Id, now: Time)
    requires OwnTidy(w, id)
    ensures OwnTidy(MarkMounted(w, id, now).0, id)
  {
    if id in w.rows {
      var row := w.rows[id];
      var kept := if row.lastError.Some? && IsSkipOnly(row.lastError.value) then row.lastError else None;
      var sum := if id in w.live then Format(w.live[id].skips, DEFAULT_SAMPLES) else "";
      var patch := NO_PATCH.(lastError := Set(if sum != "" then Some(sum) else kept),
                             mountPid := if id in w.live then Set(Some(w.live[id].pid)) else Keep);
      MountedRowTidy(w, id, patch, now);
      MoveTidy(w, w, id, Mounted, {Indexing, Mounting, Mounted}, patch, now);
    }
  }

  lemma MountedRowTidy(w: World, id: Id, patch: Patch, now: Time)
    requires id in w.rows && patch.mountPath == Keep && patch.indexPath == Keep
    requires patch.mountPid == if id in w.live then Set(Some(w.live[id].pid)) else Keep
    ensures CanMove(w.rows, id, Mounted, {Indexing, Mounting, Mounted}) ==>
              TidyRow(w, id, w.rows[id], Updated(w.rows[id], Mounted, patch, now))
  {}

  lemma MarkFailedTidy(w: World, cfg: Config, id: Id, reason: string, now: Time)
    requires OwnTidy(w, id)
    ensures OwnTidy(MarkFailed(w, cfg, id, reason, now).0, id)
  {
    if id in w.rows {
      var failed := if InIndexPhase(w, id) then IndexFailed else MountFailed;
      var bad, text := IndexIsBad(w, id), FailureText(w, id, reason);
      FailedPatchTidy(w, id, failed, cfg.maxAttempts, text, bad, now);
      DiscardedKeeps(w, id);
      MoveTidy(w, Discarded(w, id), id, failed, {Indexing, Mounting, failed},
               FailedPatch(w.rows[id], cfg.maxAttempts, text, bad), now);
    }
  }

  lemma DiscardedKeeps(w: World, id: Id)
    requires id in w.rows
    ensures var w' := Discarded(w, id); w'.rows == w.rows && w'.paths == w.paths && id !in w'.live
  {}

  lemma FailedPatchTidy(w: World, id: Id, failed: Status, maxAttempts: int, text: string, bad: bool, now: Time)
    requires id in w.rows && (failed == IndexFailed || failed == MountFailed)
    ensures TidyRow(w, id, w.rows[id], Updated(w.rows[id], failed, FailedPatch(w.rows[id], maxAttempts, text, bad), now))
  {}

  lemma IndexDoneTidy(w: World, id: Id, now: Time)
    requires OwnTidy(w, id) && id in w.live && id in w.rows
    ensures OwnTidy(IndexDone(w, id, now), id)
  {
    var m := w.live[id];
    var dropped := DropLive(w, id).(alive := w.alive - {m.pid});
    IndexedRowTidy(w, id, IndexedPatch(m), now);
    MoveTidy(w, dropped, id, Mounting, {Indexing}, IndexedPatch(m), now);
  }

  lemma IndexedRowTidy(w: World, id: Id, patch: Patch, now: Time)
    requires OwnTidy(w, id) && id in w.live && id in w.rows
    requires patch.mountPid == Keep && patch.mountPath == Keep && patch.indexPath == Set(Some(w.live[id].indexPath))
    ensures CanMove(w.rows, id, Mounting, {Indexing}) ==>
              TidyRow(w, id, w.rows[id], Updated(w.rows[id], Mounting, patch, now))
  {}

  lemma SkipsTidy(w: World, id: Id, skips: seq<string>)
    requires OwnTidy(w, id) && id in w.live
    ensures OwnTidy(w.(live := w.live[id := w.live[id].(skips := skips)]), id)
  {}

  lemma MountPhaseTidy(w: World, cfg: Config, id: Id, m: Managed, env: BeginEnv)
    requires WellFormed(w) && OwnTidy(w, id) && id in w.rows
    ensures OwnTidy(StartMountPhase(w, cfg, id, m, env).0, id)
  {
    var (next, begun) := BeginProcess(w, cfg, id, m.archivePath, false, Some(false), env);
    ProcessTidy(w, cfg, id, m.archivePath, false, Some(false), env);
    StartedIsLive(w, cfg, id, m.archivePath, false, Some(false), env);
    if begun.Started? {
      SkipsTidy(next, id, Carried(m.skips));
    }
  }

  lemma CompleteIndexTidy(w: World, cfg: Config, id: Id, env: BeginEnv)
    requires WellFormed(w) && ValidConfig(cfg) && OwnTidy(w, id)
    ensures OwnTidy(CompleteIndex(w, cfg, id, env).0, id)
  {
    if id in w.live && w.live[id].phase == IndexOnly && id in w.rows && IndexReady(w, w.live[id].indexPath) {
      IndexDoneTidy(w, id, env.now);
      IndexDoneStep(w, id, env.now, cfg);
      MountPhaseTidy(IndexDone(w, id, env.now), cfg, id, w.live[id], env);
    }
  }

  lemma ProgressTidy(w: World, cfg: Config, id: Id, env: BeginEnv)
    requires WellFormed(w) && ValidConfig(cfg) && OwnTidy(w, id)
    ensures OwnTidy(ProgressOne(w, cfg, id, env), id)
  {
    match CheckChild(w, id)
    case ChildIndexComplete =>
      var (next, begun) := CompleteIndex(w, cfg, id, env);
      CompleteIndexTidy(w, cfg, id, env);
      if begun.Err? {
        MarkFailedTidy(next, cfg, id, MOUNT_START_FAILED + begun.reason, env.now);
      }
    case ChildMounted => MarkMountedTidy(w, id, env.now);
    case ChildExited => MarkFailedTidy(w, cfg, id, EXITED_EARLY, env.now);
    case _ =>
  }

  lemma FailJobTidy(w: World, cfg: Config, id: Id, error: string, now: Time)
    requires OwnTidy(w, id) && id in w.rows
    ensures OwnTidy(FailJob(w, cfg, id, error, now), id)
  {
    var row := w.rows[id];
    var failed := if row.firstMountedAt.None? then IndexFailed else MountFailed;
    FailedRowTidy(w, id, row, failed, cfg, error, now);
    MoveTidy(w, w, id, failed, {row.status}, FailPatch(row, cfg.maxAttempts, error), now);
  }

  lemma FinishJobTidy(w: World, cfg: Config, id: Id, job: Job, env: BeginEnv)
    requires WellFormed(w) && OwnTidy(w, id) && id in w.rows && job.state != InFlight
    ensures OwnTidy(FinishJob(w, cfg, id, job, env), id)
  {
    match job.state
    case JobFailed(error) => FailJobTidy(w, cfg, id, error, env.now);
    case JobDone(resultPath) =>
      var path := if resultPath == "" then job.sourcePath else resultPath;
      var (done, ok) := CompleteConvert(w, id, path, env);
      CompleteConvertTidy(w, id, path, env);
      CompleteConvertStep(w, id, path, env, cfg);
      if ok {
        BeginTidy(done, cfg, id, Some(job.needsIndex), env);
      } else {
        FailJobTidy(done, cfg, id, POST_CONVERT_FAILED, env.now);
      }
  }

  lemma PollTidy(w: World, cfg: Config, id: Id, env: BeginEnv)
    requires WellFormed(w) && OwnTidy(w, id)
    ensures OwnTidy(PollOne(w, cfg, id, env), id)
  {
    if id in w.jobs && w.jobs[id].state != InFlight {
      var removed := w.(jobs := w.jobs - {id});
      SameTidy(w, removed, id);
      Shrink(w, removed, id, cfg);
      if id in w.rows {
        FinishJobTidy(removed, cfg, id, w.jobs[id], env);
      }
    }
  }

  // ---- unmounting, repair, hooks ----

  lemma GoneTidy(w: World, w1: World, id: Id, lastError: Field<Option<string>>, now: Time)
    requires OwnTidy(w, id) && id in w.rows && w1.rows == w.rows && w1.paths == w.paths
    requires id in w1.live ==> id in w.live && w1.live[id] == w.live[id]
    ensures OwnTidy(w1.(rows := ArchiveStore.MarkAbsent(w1.rows, id, lastError, now)), id)
  {
    MarkAbsentSucceeds(w1.rows, id, lastError, now);
    RowChangeTidy(w, w1.(rows := ArchiveStore.MarkAbsent(w1.rows, id, lastError, now)), id);
  }

  lemma StoppedTidy(w: World, id: Id, mountPath: string, unmounted: bool)
    requires OwnTidy(w, id) && id in w.rows
    ensures OwnTidy(Stopped(w, id, mountPath, unmounted), id)
  {
    SameTidy(w, Stopped(w, id, mountPath, unmounted), id);
  }

  lemma UnmountTidy(w: World, id: Id, toAbsent: bool, unmounted: bool, now: Time)
    requires OwnTidy(w, id)
    ensures OwnTidy(Unmount(w, id, toAbsent, unmounted, now), id)
  {
    if id in w.rows {
      var moved := ToUnmounting(w, id, now);
      MoveTidy(w, w, id, Unmounting, {w.rows[id].status}, CLEAR_PID, now);
      var stopped := Stopped(moved, id, UnmountPath(w, id), unmounted);
      StoppedTidy(moved, id, UnmountPath(w, id), unmounted);
      if toAbsent {
        GoneTidy(stopped, stopped, id, Keep, now);
      }
    }
  }

  lemma FailTidy(w: World, id: Id, a: Action, s: Setup)
    requires OwnTidy(w, id) && id in w.rows && (a.kind == FailIndex || a.kind == FailMount)
    ensures OwnTidy(Fail(w, id, a, s).0, id)
  {
    var row := w.rows[id];
    var text := Text(a.reason, s);
    TakenDownKeeps(w, id, row, a.kind, s);
    RepairRowTidy(w, id, a.kind, text, s);
    MoveTidy(w, TakenDown(w, id, row, a.kind, s), id, FailedStatus(a.kind), {row.status},
             RepairPatch(row, a.kind, text, s.maxAttempts), s.now);
  }

  lemma TakenDownKeeps(w: World, id: Id, row: Row, kind: Kind, s: Setup)
    ensures var w' := TakenDown(w, id, row, kind, s); w'.rows == w.rows && w'.paths == w.paths && id !in w'.live
  {}

  lemma RepairRowTidy(w: World, id: Id, kind: Kind, text: string, s: Setup)
    requires id in w.rows && (kind == FailIndex || kind == FailMount)
    ensures TidyRow(w, id, w.rows[id],
                    Updated(w.rows[id], FailedStatus(kind), RepairPatch(w.rows[id], kind, text, s.maxAttempts), s.now))
  {}

  lemma ApplyTidy(w: World, id: Id, a: Action, s: Setup)
    requires OwnTidy(w, id) && id in w.rows && a.kind != Requeue && a.kind != RequestRemount
    ensures OwnTidy(Apply(w, id, a, s).0, id)
  {
    var row := w.rows[id];
    match a.kind
    case Ok =>
    case FailIndex => FailTidy(w, id, a, s);
    case FailMount => FailTidy(w, id, a, s);
    case GoAbsent => GoneTidy(w, Unmounted(DropLive(w, id), row, s), id, Set(Some(Text(a.reason, s))), s.now);
    case CleanupIndex =>
      MoveTidy(w, DeleteIndex(w, row.indexPath.GetOr("")), id, row.status, {row.status}, FORGET_INDEX, s.now);
  }

  lemma RepairTidy(w: World, id: Id, s: Setup)
    requires OwnTidy(w, id)
    ensures OwnTidy(RepairRow(w, id, s).0, id)
  {
    if id in w.rows {
      DecideNeverQueues(w, id, w.rows[id], s);
      var a := DecideOne(w, id, w.rows[id], s);
      if a.Some? {
        ApplyTidy(w, id, a.value, s);
      }
    }
  }

  lemma HookMoveTidy(w: World, id: Id, to: Status, expected: set<Status>, patch: Patch, now: Time)
    requires OwnTidy(w, id) && (to == HooksRunning || to == Mounted)
    requires expected == {Mounted, HooksRunning} && patch == NO_PATCH.(lastError := patch.lastError)
    ensures OwnTidy(WithRows(w, id, to, expected, patch, now), id)
  {
    if id in w.rows {
      MoveTidy(w, w, id, to, expected, patch, now);
    } else {
      SameTidy(w, WithRows(w, id, to, expected, patch, now), id);
    }
  }

  // ---- over runs ----

  /** The events that end, mount or relabel something. */
  lemma OtherTidy(w: World, cfg: Config, e: Event)
    requires OwnTidy(w, Subject(e))
    requires !(e.Discover? || e.Begin? || e.Progress? || e.Poll? || e.Release? || e.Repair?)
    ensures OwnTidy(Next(w, cfg, e), Subject(e))
  {
    match e
    case EnterHooks(id, now) => HookMoveTidy(w, id, HooksRunning, {Mounted, HooksRunning}, NO_PATCH, now);
    case LeaveHooks(id, lastError, now) =>
      HookMoveTidy(w, id, Mounted, {HooksRunning, Mounted}, NO_PATCH.(lastError := Set(lastError)), now);
    case SkipNoted(id, path) =>
      if id in w.live {
        SkipsTidy(w, id, w.live[id].skips + [path]);
      }
    case _ => SameTidy(w, Next(w, cfg, e), Subject(e));
  }

  /** A row that has just been found stores no process and no path, and nothing else changes. */
  lemma FoundTidy(w: World, id: Id, path: string, basename: string, sizeBytes: int)
    requires WellFormed(w) && Tidy(w)
    ensures Tidy(Found(w, id, path, basename, sizeBytes))
  {
    var w' := Found(w, id, path, basename, sizeBytes);
    forall k ensures OwnTidy(w', k) {
      assert OwnTidy(w, k);
    }
  }

  lemma NextTidy(w: World, cfg: Config, e: Event)
    requires WellFormed(w) && ValidConfig(cfg) && Tidy(w)
    ensures Tidy(Next(w, cfg, e)) && WellFormed(Next(w, cfg, e))
  {
    if e.Discover? {
      FoundTidy(w, e.id, e.archivePath, e.basename, e.sizeBytes);
      FoundWellFormed(w, e.id, e.archivePath, e.basename, e.sizeBytes);
    } else {
      var id := Subject(e);
      assert OwnTidy(w, id);
      NextStep(w, cfg, e);
      SubjectTidy(w, cfg, e);
      TidyFrame(w, Next(w, cfg, e), id);
    }
  }

  lemma SubjectTidy(w: World, cfg: Config, e: Event)
    requires WellFormed(w) && ValidConfig(cfg) && !e.Discover? && OwnTidy(w, Subject(e))
    ensures OwnTidy(Next(w, cfg, e), Subject(e))
  {
    match e
    case Begin(id, first, env) => BeginTidy(w, cfg, id, first, env);
    case Progress(id, env) => ProgressTidy(w, cfg, id, env);
    case Poll(id, env) => PollTidy(w, cfg, id, env);
    case Release(id, toAbsent, unmounted, now) => UnmountTidy(w, id, toAbsent, unmounted, now);
    case Repair(id, setup) => RepairTidy(w, id, setup.(maxAttempts := cfg.maxAttempts));
    case _ => OtherTidy(w, cfg, e);
  }

  /** Every run keeps the daemon tidy. */
  lemma {:induction false} RunKeepsTidy(w: World, cfg: Config, events: seq<Event>)
    requires WellFormed(w) && ValidConfig(cfg) && Tidy(w)
    ensures Tidy(Run(w, cfg, events)) && WellFormed(Run(w, cfg, events))
    decreases |events|
  {
    if events != [] {
      NextTidy(w, cfg, events[0]);
      RunKeepsTidy(Next(w, cfg, events[0]), cfg, events[1..]);
    }
  }

  /** A daemon that starts over on the same store, with its registry and its jobs lost and its processes
      still there, is as tidy as before. */
  lemma RestartKeepsTidy(w: World)
    requires WellFormed(w) && Tidy(w)
    ensures var w' := w.(live := map[], jobs := map[]); WellFormed(w') && Tidy(w')
  {
    var w' := w.(live := map[], jobs := map[]);
    forall id ensures OwnTidy(w', id) {
      assert OwnTidy(w, id);
      SameTidy(w, w', id);
    }
  }

  /** What boot does beside the row: at most the live entry and the mount of the archive go. */
  ghost predicate OnlyDrops(w: World, w': World, id: Id) {
    && w'.paths == w.paths && w'.nextPid == w.nextPid && w'.alive == w.alive && w'.jobs == w.jobs
    && (w'.live == w.live || w'.live == w.live - {id})
  }

  lemma BootRowDrops(w: World, id: Id, s: Setup)
    ensures OnlyDrops(w, BootRow(w, id, s).0, id)
  {
    if id in w.rows {
      BootTargets(w.rows[id], s);
    }
  }

  lemma BootedRowTidy(w: World, w': World, id: Id, s: Setup)
    requires OwnTidy(w, id) && RowBooted(w, w', id, s) && OnlyDrops(w, w', id)
    ensures OwnTidy(w', id)
  {}

  lemma BootedWellFormed(w: World, w': World, id: Id, s: Setup)
    requires WellFormed(w) && RowBooted(w, w', id, s) && OnlyDrops(w, w', id)
    ensures WellFormed(w')
  {}

  lemma BootRowTidy(w: World, id: Id, s: Setup)
    requires WellFormed(w) && Tidy(w)
    ensures WellFormed(BootRow(w, id, s).0) && Tidy(BootRow(w, id, s).0)
    ensures BootRow(w, id, s).0.jobs == w.jobs
  {
    var w' := BootRow(w, id, s).0;
    if id in w.rows {
      BootRowResult(w, id, s);
      BootRowDrops(w, id, s);
      BootedWellFormed(w, w', id, s);
      forall k ensures OwnTidy(w', k) {
        assert OwnTidy(w, k);
        if k == id {
          BootedRowTidy(w, w', id, s);
        }
      }
    }
  }

  /** The boot pass of that daemon keeps it so. */
  lemma {:induction false} BootKeepsTidy(w: World, order: seq<Id>, s: Setup)
    requires WellFormed(w) && Tidy(w)
    ensures WellFormed(BootPass(w, order, s).0) && Tidy(BootPass(w, order, s).0)
    ensures BootPass(w, order, s).0.jobs == w.jobs
    decreases |order|
  {
    if order != [] {
      var n := |order| - 1;
      BootKeepsTidy(w, order[..n], s);
      BootRowTidy(BootPass(w, order[..n], s).0, order[n], s);
    }
  }

  /** One life of a daemon: it starts over on what the last one left, boots, and runs. */
  function Life(w: World, cfg: Config, order: seq<Id>, s: Setup, events: seq<Event>): World {
    Run(BootPass(w.(live := map[], jobs := map[]), order, s).0, cfg, events)
  }

  /** The daemon stays well-formed and tidy over its lives. */
  lemma LifeKeepsTidy(w: World, cfg: Config, order: seq<Id>, s: Setup, events: seq<Event>)
    requires WellFormed(w) && ValidConfig(cfg) && Tidy(w)
    ensures WellFormed(Life(w, cfg, order, s, events)) && Tidy(Life(w, cfg, order, s, events))
  {
    RestartKeepsTidy(w);
    var left := w.(live := map[], jobs := map[]);
    BootKeepsTidy(left, order, s);
    RunKeepsTidy(BootPass(left, order, s).0, cfg, events);
  }

  /** Over a life that boots every stored row, the limits on index slots and convert jobs hold, whatever
      the last daemon left behind: neither its processes nor its stored pids hold a slot. */
  lemma LifeKeepsLimits(w: World, cfg: Config, order: seq<Id>, s: Setup, events: seq<Event>)
    requires WellFormed(w) && ValidConfig(cfg) && Tidy(w)
    requires NoDuplicates(order) && forall id :: id in order <==> id in w.rows
    ensures var w' := Life(w, cfg, order, s, events);
            Slots(w', Indexing) <= cfg.maxIndex && |w'.jobs| <= cfg.maxConvert && DistinctNames(w')
  {
    RestartKeepsTidy(w);
    var left := w.(live := map[], jobs := map[]);
    var booted := BootPass(left, order, s).0;
    BootKeepsTidy(left, order, s);
    BootPassResult(left, order, s);
    NoSlotAfterBoot(left, booted, order, s);
    RunKeepsBounds(booted, cfg, events);
  }

  lemma NoSlotAfterBoot(w: World, booted: World, order: seq<Id>, s: Setup)
    requires AllBooted(w, booted, order, s) && forall id :: id in w.rows ==> id in order
    ensures Slots(booted, Indexing) == 0
  {
    forall id | id in booted.rows ensures booted.rows[id].status != Indexing {
      assert id in order;
    }
    assert SlotSet(booted, Indexing) == {};
  }

  // ---- what tidiness is good for ----

  /** The process tracked for an active row was started with the row's mount path. */
  lemma TrackedStartedAt(w: World, id: Id, pid: nat)
    requires Tidy(w) && id in w.rows && IsActive(w.rows[id].status)
    requires (id in w.live && w.live[id].pid == pid) || w.rows[id].mountPid == Some(pid)
    ensures w.rows[id].mountPath.Some? && StartedAt(w, pid, w.rows[id].mountPath.value)
    ensures EndsVisibly(w.rows[id].mountPath.value)
  {
    assert OwnTidy(w, id);
  }

  lemma OwnIndexesDiffer(i: Id, j: Id, path: string)
    requires OwnIndex(i, path) && OwnIndex(j, path) && !Blank(path)
    ensures i == j
  {
    assert (i + INDEX_SUFFIX)[..|i|] == i && (j + INDEX_SUFFIX)[..|j|] == j;
    assert |i + INDEX_SUFFIX| == |j + INDEX_SUFFIX|;
  }

  lemma TidyApart(w: World, i: Id, j: Id)
    requires WellFormed(w) && OwnTidy(w, i) && OwnTidy(w, j) && i in w.rows && j in w.rows && i != j
    ensures Apart(w, i, j)
  {
    var path := w.rows[i].indexPath.GetOr("");
    if !Blank(path) {
      if OwnIndex(j, path) {
        OwnIndexesDiffer(i, j, path);
      }
    }
  }

  /** No two archives of a tidy daemon share a mount path or an index path. */
  lemma TidyNoSharing(w: World)
    requires WellFormed(w) && Tidy(w)
    ensures NoSharing(w)
  {
    forall i, j | i in w.rows && j in w.rows && i != j ensures Apart(w, i, j) {
      assert OwnTidy(w, i) && OwnTidy(w, j);
      TidyApart(w, i, j);
    }
  }

  /** After every run one reconcile pass reaches its fixed point. */
  lemma FixedPointAfterRun(w: World, cfg: Config, events: seq<Event>, order: seq<Id>, s: Setup)
    requires WellFormed(w) && ValidConfig(cfg) && Tidy(w)
    ensures var (w1, reports1) := Reconcile(Run(w, cfg, events), order, s);
            var (w2, reports2) := Reconcile(w1, order, s);
            w2 == w1 && Quiet(reports2, w1) && forall r :: r in reports1 ==> r.accepted
  {
    RunKeepsTidy(w, cfg, events);
    TidyNoSharing(Run(w, cfg, events));
    ReconcileFixedPoint(Run(w, cfg, events), order, s);
  }

  /** After every run an unmount ends the live child of its row, and no other process: what an earlier
      daemon started is never signalled. */
  lemma UnmountAfterRun(w: World, cfg: Config, events: seq<Event>, id: Id, toAbsent: bool, unmounted: bool, now: Time,
                        pid: nat)
    requires WellFormed(w) && ValidConfig(cfg) && Tidy(w)
    requires var w' := Run(w, cfg, events); id in w'.rows && pid in w'.alive
    ensures var w' := Run(w, cfg, events);
            pid !in Unmount(w', id, toAbsent, unmounted, now).alive <==> id in w'.live && w'.live[id].pid == pid
  {
    var w' := Run(w, cfg, events);
    RunKeepsTidy(w, cfg, events);
    assert OwnTidy(w', id);
    UnmountSignalsIff(w', id, toAbsent, unmounted, now, pid);
  }

  lemma BootedHasNoPid(w: World, id: Id, r': Row, s: Setup)
    requires OwnTidy(w, id) && id in w.rows && Booted(w.rows[id], r', s)
    ensures r'.mountPid == None
  {}

  lemma AllBootedHaveNoPid(w: World, w': World, order: seq<Id>, s: Setup)
    requires Tidy(w) && AllBooted(w, w', order, s)
    ensures forall id :: id in order ==> id in w'.rows && w'.rows[id].mountPid == None
  {
    forall id | id in order ensures id in w'.rows && w'.rows[id].mountPid == None {
      assert OwnTidy(w, id);
      BootedHasNoPid(w, id, w'.rows[id], s);
    }
  }

  /** After every run the boot pass leaves no pid in any listed row. */
  lemma BootAfterRun(w: World, cfg: Config, events: seq<Event>, order: seq<Id>, s: Setup)
    requires WellFormed(w) && ValidConfig(cfg) && Tidy(w)
    requires NoDuplicates(order) && forall id :: id in order ==> id in Run(w, cfg, events).rows
    ensures var w' := BootPass(Run(w, cfg, events), order, s).0;
            forall id :: id in order ==> id in w'.rows && w'.rows[id].mountPid == None
  {
    var w0 := Run(w, cfg, events);
    RunKeepsTidy(w, cfg, events);
    BootPassResult(w0, order, s);
    AllBootedHaveNoPid(w0, BootPass(w0, order, s).0, order, s);
  }
}
