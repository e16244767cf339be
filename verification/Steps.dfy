/** Every step of the engine keeps the guarantees. */
module Steps {
  import opened ArchiveStore
  import opened Guarantees
  import opened Lifecycle
  import opened MountNames
  import opened Options
  import opened PathLex
  import opened Statuses

  lemma CleanPartialStep(w: World, row: Row, id: Id, cfg: Config)
    requires WellFormed(w)
    ensures Step(w, CleanPartial(w, row), id, cfg)
  {
    Shrink(w, CleanPartial(w, row), id, cfg);
  }

  lemma DeleteIndexStep(w: World, path: string, id: Id, cfg: Config)
    requires WellFormed(w)
    ensures Step(w, DeleteIndex(w, path), id, cfg)
  {
    Shrink(w, DeleteIndex(w, path), id, cfg);
  }

  lemma FailStartStep(w: World, cfg: Config, id: Id, indexPhase: bool, reason: string, now: Time)
    requires WellFormed(w) && ValidConfig(cfg) && id in w.rows
    ensures Step(w, FailStart(w, cfg, id, indexPhase, reason, now), id, cfg)
  {
    var failed := if indexPhase then IndexFailed else MountFailed;
    FailMove(w, id, failed, {w.rows[id].status, Indexing, Mounting, failed},
             FailPatch(w.rows[id], cfg.maxAttempts, reason), now, cfg);
  }

  // ---- names ----

  lemma MountNameIsElement(name: string)
    requires IsMountName(name)
    ensures IsElement(name)
  {
    assert !IsSafe('/');
  }

  /** The name chosen for a row is a legal directory entry that no other row stores. */
  lemma MountNameIsFree(w: World, id: Id, dirs: set<string>)
    requires WellFormed(w) && id in w.rows
    ensures var name := MountName(w.rows[id], id, TakenNames(w, dirs)); IsMountName(name) && FreeName(w, id, name)
  {
    var row := w.rows[id];
    var taken := TakenNames(w, dirs);
    var others := if HasMountPath(row) then taken - {Base(row.mountPath.value)} else taken;
    AllocateIsFree(row.basename, id, others);
    assert SafeId(id);
    AllocateIsMountName(row.basename, id, others);
    forall k | k in w.rows && k != id && HasMountPath(w.rows[k])
      ensures Base(w.rows[k].mountPath.value) in others
    {
      assert Base(w.rows[k].mountPath.value) in StoredNames(w);
    }
  }

  /** Nor is it that of a visible directory under mount_root, unless the row stores it already; and it is the
      first choice for the basename when that is free. */
  lemma MountNameIsNew(w: World, id: Id, dirs: set<string>, dir: string)
    requires id in w.rows && dir in dirs && dir != "" && dir[0] != '.'
    requires HasMountPath(w.rows[id]) ==> Base(w.rows[id].mountPath.value) != dir
    ensures MountName(w.rows[id], id, TakenNames(w, dirs)) != dir
  {
    var row := w.rows[id];
    var taken := TakenNames(w, dirs);
    AllocateIsFree(row.basename, id, if HasMountPath(row) then taken - {Base(row.mountPath.value)} else taken);
  }

  /** A row keeps its first choice of a name for as long as no other row and no directory has it. */
  lemma MountNameIsKept(w: World, id: Id, dirs: set<string>)
    requires id in w.rows
    requires var name := BaseName(w.rows[id].basename);
             && (forall k :: k in w.rows && k != id && HasMountPath(w.rows[k]) ==>
                   Base(w.rows[k].mountPath.value) != name)
             && (name !in dirs || (HasMountPath(w.rows[id]) && Base(w.rows[id].mountPath.value) == name))
    ensures MountName(w.rows[id], id, TakenNames(w, dirs)) == BaseName(w.rows[id].basename)
  {}

  /** A limit on index slots leaves room for one more. */
  ghost predicate MayTake(w: World, cfg: Config, target: Status) {
    target == Mounting || (target == Indexing && !LimitReached(Slots(w, Indexing), cfg.maxIndex))
  }

  lemma ClaimedPath(w: World, cfg: Config, id: Id, target: Status, env: BeginEnv)
    requires WellFormed(w) && id in w.rows && CanMove(w.rows, id, target, {w.rows[id].status})
    ensures var r := Claimed(w, cfg, id, target, env).rows[id];
            HasMountPath(r) && CleanPath(r) && FreeName(w, id, Base(r.mountPath.value))
  {
    var name := MountName(w.rows[id], id, TakenNames(w, env.dirs));
    MountNameIsFree(w, id, env.dirs);
    MountNameIsElement(name);
    BaseOfJoin(cfg.mountRoot, name);
  }

  lemma TakeSlot(w: World, w': World, id: Id, target: Status, cfg: Config)
    requires WellFormed(w) && ValidConfig(cfg) && id in w.rows && MayTake(w, cfg, target)
    requires Frame(w, w', id) && w'.rows[id].status == target
    ensures SlotBound(w, w', cfg)
  {
    SlotsFrame(w, w', id);
  }

  /** A change that may take one slot for the archive guarantees the step from where the limit was
      looked at. */
  lemma TakeStep(w: World, w1: World, w2: World, id: Id, target: Status, cfg: Config)
    requires WellFormed(w) && ValidConfig(cfg) && id in w.rows && MayTake(w, cfg, target)
    requires Step(w, w1, id, cfg) && Frame(w1, w2, id) && OwnOk(w1, w2, id)
    requires RowStep(w1.rows[id], w2.rows[id], cfg.maxAttempts)
    requires w2.rows[id].status == target && w2.jobs == w.jobs
    ensures Step(w, w2, id, cfg)
  {
    FrameWellFormed(w1, w2, id);
    FrameTrans(w, w1, w2, id);
    TakeSlot(w, w2, id, target, cfg);
  }

  lemma ClaimStep(w: World, cfg: Config, id: Id, target: Status, env: BeginEnv)
    requires WellFormed(w) && ValidConfig(cfg) && id in w.rows
    requires MayTake(w, cfg, target) && CanMove(w.rows, id, target, {w.rows[id].status})
    ensures Step(w, Claimed(w, cfg, id, target, env), id, cfg)
  {
    var claimed := Claimed(w, cfg, id, target, env);
    ClaimedPath(w, cfg, id, target, env);
    StepRefl(w, id, cfg);
    TakeStep(w, w, claimed, id, target, cfg);
  }

  lemma SpawnedFrame(w: World, id: Id, target: Status, managed: Managed, now: Time)
    requires WellFormed(w) && id in w.rows
    requires w.rows[id].status == target && w.rows[id].mountPath == Some(managed.mountPath)
    requires managed.pid == w.nextPid
    ensures var w' := Spawned(w, id, target, managed, now);
            && Frame(w, w', id) && OwnOk(w, w', id) && w'.jobs == w.jobs
            && w'.rows[id] == w.rows[id].(indexPath := Some(managed.indexPath), mountPid := Some(managed.pid),
                                          indexStartedAt := w'.rows[id].indexStartedAt,
                                          firstMountedAt := w'.rows[id].firstMountedAt)
  {}

  /** Registering a fresh child for a claimed row takes at most one slot in all. */
  lemma SpawnedStep(w: World, w1: World, cfg: Config, id: Id, target: Status, managed: Managed, now: Time)
    requires WellFormed(w) && ValidConfig(cfg) && id in w.rows && Step(w, w1, id, cfg) && MayTake(w, cfg, target)
    requires w1.rows[id].status == target && w1.rows[id].mountPath == Some(managed.mountPath)
    requires managed.pid == w1.nextPid && w1.jobs == w.jobs
    ensures Step(w, Spawned(w1, id, target, managed, now), id, cfg)
  {
    SpawnedFrame(w1, id, target, managed, now);
    TakeStep(w, w1, Spawned(w1, id, target, managed, now), id, target, cfg);
  }

  /** What a launch does when it fails: it books a failed start, with or without stale processes ended. */
  lemma LaunchFails(w: World, cfg: Config, id: Id, archivePath: string, needsIndex: bool, useIndexOnly: bool,
                    env: BeginEnv, cleared: World)
    requires id in w.rows && cleared == if useIndexOnly then w else w.(alive := w.alive - env.staleHolders)
    ensures var (w', begun) := Launch(w, cfg, id, archivePath, needsIndex, useIndexOnly, env);
            begun.Started? || (begun.Err? && (w' == FailStart(w, cfg, id, useIndexOnly, begun.reason, env.now)
                                              || w' == FailStart(cleared, cfg, id, useIndexOnly, begun.reason, env.now)))
  {}

  lemma LaunchStarts(w: World, cfg: Config, id: Id, archivePath: string, needsIndex: bool, useIndexOnly: bool,
                     env: BeginEnv, cleared: World)
    requires id in w.rows
    requires cleared == if useIndexOnly then w else w.(alive := w.alive - env.staleHolders)
    ensures var (w', begun) := Launch(w, cfg, id, archivePath, needsIndex, useIndexOnly, env);
            begun.Started? ==>
              && w' == Spawned(cleared, id, if useIndexOnly then Indexing else Mounting, begun.managed, env.now)
              && begun.managed.pid == w.nextPid
              && (HasMountPath(w.rows[id]) ==> w.rows[id].mountPath == Some(begun.managed.mountPath))
  {}

  lemma LaunchStep(w: World, w1: World, cfg: Config, id: Id, archivePath: string, needsIndex: bool,
                   useIndexOnly: bool, env: BeginEnv)
    requires WellFormed(w) && ValidConfig(cfg) && id in w.rows && Step(w, w1, id, cfg)
    requires var target := if useIndexOnly then Indexing else Mounting;
             MayTake(w, cfg, target) && w1.rows[id].status == target
    requires HasMountPath(w1.rows[id]) && w1.jobs == w.jobs
    ensures Step(w, Launch(w1, cfg, id, archivePath, needsIndex, useIndexOnly, env).0, id, cfg)
  {
    var begun := Launch(w1, cfg, id, archivePath, needsIndex, useIndexOnly, env).1;
    var cleared := if useIndexOnly then w1 else w1.(alive := w1.alive - env.staleHolders);
    Shrink(w1, cleared, id, cfg);
    StepTrans(w, w1, cleared, id, cfg);
    LaunchFails(w1, cfg, id, archivePath, needsIndex, useIndexOnly, env, cleared);
    LaunchStarts(w1, cfg, id, archivePath, needsIndex, useIndexOnly, env, cleared);
    if begun.Started? {
      SpawnedStep(w, cleared, cfg, id, if useIndexOnly then Indexing else Mounting, begun.managed, env.now);
    } else {
      ThenFailStart(w, w1, cfg, id, useIndexOnly, begun.reason, env.now);
      ThenFailStart(w, cleared, cfg, id, useIndexOnly, begun.reason, env.now);
    }
  }

  lemma ThenFailStart(w: World, w1: World, cfg: Config, id: Id, indexPhase: bool, reason: string, now: Time)
    requires ValidConfig(cfg) && id in w.rows && Step(w, w1, id, cfg)
    ensures Step(w, FailStart(w1, cfg, id, indexPhase, reason, now), id, cfg)
  {
    FailStartStep(w1, cfg, id, indexPhase, reason, now);
    StepTrans(w, w1, FailStart(w1, cfg, id, indexPhase, reason, now), id, cfg);
  }

  /** Starting a child: the index phase only starts below the index limit. */
  lemma BeginProcessStep(w: World, cfg: Config, id: Id, archivePath: string, needsIndex: bool,
                         indexOnly: Option<bool>, env: BeginEnv)
    requires WellFormed(w) && ValidConfig(cfg) && id in w.rows
    requires indexOnly.GetOr(needsIndex) ==> !LimitReached(Slots(w, Indexing), cfg.maxIndex)
    ensures Step(w, BeginProcess(w, cfg, id, archivePath, needsIndex, indexOnly, env).0, id, cfg)
  {
    var useIndexOnly := indexOnly.GetOr(needsIndex);
    var target := if useIndexOnly then Indexing else Mounting;
    if CanMove(w.rows, id, target, {w.rows[id].status}) {
      var claimed := Claimed(w, cfg, id, target, env);
      ClaimStep(w, cfg, id, target, env);
      ClaimedPath(w, cfg, id, target, env);
      LaunchStep(w, claimed, cfg, id, archivePath, needsIndex, useIndexOnly, env);
    } else {
      StepRefl(w, id, cfg);
    }
  }

  // ---- conversions ----

  /** A discovered row fails by way of indexing, and holds no slot afterwards. */
  lemma FailByIndexing(w: World, cfg: Config, id: Id, reason: string, now: Time)
    requires WellFormed(w) && ValidConfig(cfg) && id in w.rows
    requires w.rows[id].status == Discovered && w.rows[id].firstMountedAt.None?
    ensures Step(w, FailConvertClaim(w, cfg, id, reason, now), id, cfg)
  {
    var row := w.rows[id];
    var r1 := Updated(row, Indexing, NO_PATCH.(lastError := Set(Some(reason))), now);
    var r2 := Updated(r1, IndexFailed, FailPatch(row, cfg.maxAttempts, reason), now);
    FailedByIndexing(w, cfg, id, reason, now, r1, r2);
    RowChange(w, FailConvertClaim(w, cfg, id, reason, now), id, r2, cfg);
  }

  lemma FailedByIndexing(w: World, cfg: Config, id: Id, reason: string, now: Time, r1: Row, r2: Row)
    requires id in w.rows && w.rows[id].status == Discovered && w.rows[id].firstMountedAt.None?
    requires r1 == Updated(w.rows[id], Indexing, NO_PATCH.(lastError := Set(Some(reason))), now)
    requires r2 == Updated(r1, IndexFailed, FailPatch(w.rows[id], cfg.maxAttempts, reason), now)
    ensures FailConvertClaim(w, cfg, id, reason, now) == w.(rows := w.rows[id := r2])
  {
    assert w.rows[id := r1][id := r2] == w.rows[id := r2];
  }

  lemma FailConvertClaimStep(w: World, cfg: Config, id: Id, reason: string, now: Time)
    requires WellFormed(w) && ValidConfig(cfg) && id in w.rows
    ensures Step(w, FailConvertClaim(w, cfg, id, reason, now), id, cfg)
  {
    var row := w.rows[id];
    if row.status == Discovered && row.firstMountedAt.None? {
      FailByIndexing(w, cfg, id, reason, now);
    } else {
      var failed := if row.firstMountedAt.None? then IndexFailed else MountFailed;
      var patch := FailPatch(row, cfg.maxAttempts, reason);
      FailMove(w, id, failed, {row.status}, patch, now, cfg);
      FailMove(w, id, row.status, {row.status}, patch, now, cfg);
    }
  }

  lemma JobsSize(jobs: map<Id, Job>, id: Id, job: Job)
    ensures |jobs[id := job]| <= |jobs| + 1
  {
    assert jobs[id := job].Keys == jobs.Keys + {id};
    assert |jobs[id := job]| == |jobs[id := job].Keys| && |jobs| == |jobs.Keys|;
  }

  /** Jobs are no part of the index slots. */
  lemma SlotsWithJob(w: World, jobs: map<Id, Job>)
    ensures Slots(w.(jobs := jobs), Indexing) == Slots(w, Indexing)
  {
    assert forall k :: Holds(w.(jobs := jobs), k, Indexing) == Holds(w, k, Indexing);
    assert SlotSet(w.(jobs := jobs), Indexing) == SlotSet(w, Indexing);
  }

  /** A job for the archive itself is inside its frame. */
  lemma NewJobFrame(w: World, w1: World, id: Id, job: Job)
    requires Frame(w, w1, id) && WellFormed(w1)
    ensures var w2 := w1.(jobs := w1.jobs[id := job]); Frame(w, w2, id) && WellFormed(w2)
  {}

  lemma NewJob(w: World, w1: World, id: Id, job: Job, cfg: Config)
    requires ValidConfig(cfg) && id in w.rows && Step(w, w1, id, cfg) && w1.jobs == w.jobs
    requires !LimitReached(|w.jobs|, cfg.maxConvert)
    ensures Step(w, w1.(jobs := w1.jobs[id := job]), id, cfg)
  {
    NewJobFrame(w, w1, id, job);
    JobsSize(w1.jobs, id, job);
    SlotsWithJob(w1, w1.jobs[id := job]);
  }

  lemma BeginConvertStep(w: World, cfg: Config, id: Id, needsIndex: bool, env: BeginEnv)
    requires WellFormed(w) && ValidConfig(cfg) && id in w.rows && !LimitReached(|w.jobs|, cfg.maxConvert)
    ensures Step(w, BeginConvert(w, cfg, id, needsIndex, env).0, id, cfg)
  {
    var row := w.rows[id];
    if !env.sourceIsFile {
      FailConvertClaimStep(w, cfg, id, "archive not found: " + row.archivePath, env.now);
    } else if !CanMove(w.rows, id, Converting, {row.status}) {
      StepRefl(w, id, cfg);
    } else {
      var patch := CLEAR_PID.(lastError := Set(None));
      PlainMove(w, id, Converting, {row.status}, patch, env.now, cfg);
      NewJob(w, WithRows(w, id, Converting, {row.status}, patch, env.now), id,
             Job(row.archivePath, needsIndex, InFlight), cfg);
    }
  }

  lemma ProductMoveStep(w: World, row: Row, id: Id, resultPath: string, basename: string, now: Time, cfg: Config)
    requires WellFormed(w) && id in w.rows
    ensures Step(w, WithRows(w, id, Discovered, POST_CONVERT, ProductPatch(row, id, resultPath, basename), now), id, cfg)
  {
    PlainMove(w, id, Discovered, POST_CONVERT, ProductPatch(row, id, resultPath, basename), now, cfg);
  }

  lemma CompleteConvertIs(w: World, id: Id, resultPath: string, env: BeginEnv)
    requires id in w.rows
    ensures var w' := CompleteConvert(w, id, resultPath, env).0;
            var cleaned := CleanPartial(w, w.rows[id]);
            && (w' == cleaned || w' == WithRows(cleaned, id, Discovered, POST_CONVERT,
                  ProductPatch(w.rows[id], id, resultPath, env.convertedBasename), env.now))
            && w'.jobs == w.jobs
  {}

  lemma CompleteConvertStep(w: World, id: Id, resultPath: string, env: BeginEnv, cfg: Config)
    requires WellFormed(w) && id in w.rows
    ensures Step(w, CompleteConvert(w, id, resultPath, env).0, id, cfg)
    ensures CompleteConvert(w, id, resultPath, env).0.jobs == w.jobs
  {
    var row := w.rows[id];
    var cleaned := CleanPartial(w, row);
    CompleteConvertIs(w, id, resultPath, env);
    CleanPartialStep(w, row, id, cfg);
    ProductMoveStep(cleaned, row, id, resultPath, env.convertedBasename, env.now, cfg);
    var patch := ProductPatch(row, id, resultPath, env.convertedBasename);
    StepTrans(w, cleaned, WithRows(cleaned, id, Discovered, POST_CONVERT, patch, env.now), id, cfg);
  }

  // ---- BeginMount ----

  lemma StartIfSlotStep(w: World, cfg: Config, id: Id, needsIndex: bool, env: BeginEnv)
    requires WellFormed(w) && ValidConfig(cfg) && id in w.rows
    ensures Step(w, StartIfSlot(w, cfg, id, needsIndex, env).0, id, cfg)
  {
    if SlotFull(w, cfg, needsIndex) {
      StepRefl(w, id, cfg);
    } else {
      BeginProcessStep(w, cfg, id, w.rows[id].archivePath, needsIndex, None, env);
    }
  }

  lemma StartFreshStep(w: World, cfg: Config, id: Id, first: bool, needsIndex: bool, env: BeginEnv)
    requires WellFormed(w) && ValidConfig(cfg) && id in w.rows
    ensures Step(w, StartFresh(w, cfg, id, first, needsIndex, env).0, id, cfg)
  {
    var row := w.rows[id];
    if env.preconvert(row.archivePath) {
      if LimitReached(|w.jobs|, cfg.maxConvert) {
        StepRefl(w, id, cfg);
      } else {
        BeginConvertStep(w, cfg, id, needsIndex, env);
      }
    } else {
      match env.relocation(row.archivePath)
      case Stay => StartIfSlotStep(w, cfg, id, needsIndex, env);
      case RelocateFailed(reason) => FailConvertClaimStep(w, cfg, id, reason, env.now);
      case MovedTo(path, basename) =>
        var patch := NO_PATCH.(archivePath := Set(path), basename := Set(basename));
        var moved := WithRows(w, id, row.status, {row.status}, patch, env.now);
        PlainMove(w, id, row.status, {row.status}, patch, env.now, cfg);
        var again := NeedsIndex(moved, moved.rows[id], first);
        StartIfSlotStep(moved, cfg, id, again, env);
        StepTrans(w, moved, StartIfSlot(moved, cfg, id, again, env).0, id, cfg);
    }
  }

  lemma DispatchStep(w: World, cfg: Config, id: Id, first: bool, needsIndex: bool, env: BeginEnv)
    requires WellFormed(w) && ValidConfig(cfg) && id in w.rows
    ensures Step(w, Dispatch(w, cfg, id, first, needsIndex, env).0, id, cfg)
  {
    StepRefl(w, id, cfg);
    StartIfSlotStep(w, cfg, id, needsIndex, env);
    StartFreshStep(w, cfg, id, first, needsIndex, env);
  }

  lemma AdoptThenDispatchStep(w: World, cfg: Config, id: Id, first: bool, needsIndex: bool, env: BeginEnv)
    requires WellFormed(w) && ValidConfig(cfg) && id in w.rows
    ensures Step(w, AdoptThenDispatch(w, cfg, id, first, needsIndex, env).0, id, cfg)
  {
    if env.converted.Some? && w.rows[id].archivePath != env.converted.value {
      var adopted := CompleteConvert(w, id, env.converted.value, env).0;
      CompleteConvertStep(w, id, env.converted.value, env, cfg);
      DispatchStep(adopted, cfg, id, first, needsIndex, env);
      StepTrans(w, adopted, Dispatch(adopted, cfg, id, first, needsIndex, env).0, id, cfg);
    } else {
      DispatchStep(w, cfg, id, first, needsIndex, env);
    }
  }

  lemma CleanedAdoptStep(w: World, cfg: Config, id: Id, row: Row, first: bool, needsIndex: bool, env: BeginEnv)
    requires WellFormed(w) && ValidConfig(cfg) && id in w.rows
    ensures Step(w, AdoptThenDispatch(CleanPartial(w, row), cfg, id, first, needsIndex, env).0, id, cfg)
  {
    var cleaned := CleanPartial(w, row);
    CleanPartialStep(w, row, id, cfg);
    AdoptThenDispatchStep(cleaned, cfg, id, first, needsIndex, env);
    StepTrans(w, cleaned, AdoptThenDispatch(cleaned, cfg, id, first, needsIndex, env).0, id, cfg);
  }

  /** BeginMount, whatever the row's status and the machine's answers. */
  lemma BeginMountStep(w: World, cfg: Config, id: Id, firstIndex: Option<bool>, env: BeginEnv)
    requires WellFormed(w) && ValidConfig(cfg)
    ensures Step(w, BeginMount(w, cfg, id, firstIndex, env).0, id, cfg)
  {
    if id !in w.rows {
      StepRefl(w, id, cfg);
    } else {
      var row := w.rows[id];
      var first := firstIndex.GetOr(row.firstMountedAt.None?);
      CleanPartialStep(w, row, id, cfg);
      CleanedAdoptStep(w, cfg, id, row, first, NeedsIndex(CleanPartial(w, row), row, first), env);
    }
  }

  // ---- polling and unmounting ----

  lemma MarkMountedStep(w: World, id: Id, now: Time, cfg: Config)
    requires WellFormed(w)
    ensures Step(w, MarkMounted(w, id, now).0, id, cfg)
  {
    if id !in w.rows {
      StepRefl(w, id, cfg);
    } else {
      var w' := MarkMounted(w, id, now).0;
      if w'.rows != w.rows {
        RowChange(w, w', id, w'.rows[id], cfg);
      } else {
        StepRefl(w, id, cfg);
      }
    }
  }

  lemma DiscardedStep(w: World, id: Id, cfg: Config)
    requires WellFormed(w) && id in w.rows
    ensures Step(w, Discarded(w, id), id, cfg) && Discarded(w, id).rows == w.rows
  {
    Shrink(w, Discarded(w, id), id, cfg);
  }

  lemma MarkFailedStep(w: World, cfg: Config, id: Id, reason: string, now: Time)
    requires WellFormed(w) && ValidConfig(cfg)
    ensures Step(w, MarkFailed(w, cfg, id, reason, now).0, id, cfg)
  {
    if id in w.rows {
      DiscardedStep(w, id, cfg);
      FailAfterDrop(w, Discarded(w, id), id, if InIndexPhase(w, id) then IndexFailed else MountFailed,
                    FailureText(w, id, reason), IndexIsBad(w, id), now, cfg);
    } else {
      StepRefl(w, id, cfg);
    }
  }

  lemma FailAfterDrop(w: World, dropped: World, id: Id, failed: Status, text: string, bad: bool, now: Time, cfg: Config)
    requires ValidConfig(cfg) && id in w.rows && Step(w, dropped, id, cfg) && dropped.rows == w.rows
    requires failed != Indexing
    ensures Step(w, WithRows(dropped, id, failed, {Indexing, Mounting, failed},
                             FailedPatch(w.rows[id], cfg.maxAttempts, text, bad), now), id, cfg)
  {
    var patch := FailedPatch(w.rows[id], cfg.maxAttempts, text, bad);
    FailMove(dropped, id, failed, {Indexing, Mounting, failed}, patch, now, cfg);
    StepTrans(w, dropped, WithRows(dropped, id, failed, {Indexing, Mounting, failed}, patch, now), id, cfg);
  }

  /** Relabelling a live entry's skips changes nothing that the guarantees look at. */
  lemma SkipsStep(w: World, id: Id, skips: seq<string>, cfg: Config)
    requires WellFormed(w) && id in w.live
    ensures Step(w, w.(live := w.live[id := w.live[id].(skips := skips)]), id, cfg)
  {
    var w' := w.(live := w.live[id := w.live[id].(skips := skips)]);
    FrameWellFormed(w, w', id);
    SlotsFrame(w, w', id);
  }

  lemma LaunchedIsLive(w: World, cfg: Config, id: Id, archivePath: string, needsIndex: bool, useIndexOnly: bool,
                       env: BeginEnv)
    requires id in w.rows
    ensures var (next, begun) := Launch(w, cfg, id, archivePath, needsIndex, useIndexOnly, env);
            begun.Started? ==> id in next.live && next.live[id] == begun.managed && begun.managed.skips == []
  {}

  /** A started child is live, with nothing noted yet. */
  lemma StartedIsLive(w: World, cfg: Config, id: Id, archivePath: string, needsIndex: bool,
                      indexOnly: Option<bool>, env: BeginEnv)
    requires id in w.rows
    ensures var (next, begun) := BeginProcess(w, cfg, id, archivePath, needsIndex, indexOnly, env);
            begun.Started? ==> id in next.live && next.live[id] == begun.managed && begun.managed.skips == []
  {
    var useIndexOnly := indexOnly.GetOr(needsIndex);
    var target := if useIndexOnly then Indexing else Mounting;
    if CanMove(w.rows, id, target, {w.rows[id].status}) {
      LaunchedIsLive(Claimed(w, cfg, id, target, env), cfg, id, archivePath, needsIndex, useIndexOnly, env);
    }
  }

  /** The mount phase that follows a finished index phase. */
  lemma MountPhaseStep(w: World, cfg: Config, id: Id, m: Managed, env: BeginEnv)
    requires WellFormed(w) && ValidConfig(cfg) && id in w.rows
    ensures Step(w, StartMountPhase(w, cfg, id, m, env).0, id, cfg)
  {
    var (next, begun) := BeginProcess(w, cfg, id, m.archivePath, false, Some(false), env);
    BeginProcessStep(w, cfg, id, m.archivePath, false, Some(false), env);
    StartedIsLive(w, cfg, id, m.archivePath, false, Some(false), env);
    if begun.Started? {
      SkipsStep(next, id, Carried(m.skips), cfg);
      StepTrans(w, next, next.(live := next.live[id := next.live[id].(skips := Carried(m.skips))]), id, cfg);
    }
  }

  lemma IndexDoneStep(w: World, id: Id, now: Time, cfg: Config)
    requires WellFormed(w) && ValidConfig(cfg) && id in w.live && id in w.rows
    ensures Step(w, IndexDone(w, id, now), id, cfg)
  {
    var m := w.live[id];
    var dropped := DropLive(w, id).(alive := w.alive - {m.pid});
    Shrink(w, dropped, id, cfg);
    PlainMove(dropped, id, Mounting, {Indexing}, IndexedPatch(m), now, cfg);
    StepTrans(w, dropped, IndexDone(w, id, now), id, cfg);
  }

  lemma CompleteIndexStep(w: World, cfg: Config, id: Id, env: BeginEnv)
    requires WellFormed(w) && ValidConfig(cfg)
    ensures Step(w, CompleteIndex(w, cfg, id, env).0, id, cfg)
  {
    StepRefl(w, id, cfg);
    if id in w.live && w.live[id].phase == IndexOnly && id in w.rows && IndexReady(w, w.live[id].indexPath) {
      var done := IndexDone(w, id, env.now);
      IndexDoneStep(w, id, env.now, cfg);
      MountPhaseStep(done, cfg, id, w.live[id], env);
      StepTrans(w, done, StartMountPhase(done, cfg, id, w.live[id], env).0, id, cfg);
    }
  }

  /** One round of ProgressLive for one archive. */
  lemma ProgressOneStep(w: World, cfg: Config, id: Id, env: BeginEnv)
    requires WellFormed(w) && ValidConfig(cfg)
    ensures Step(w, ProgressOne(w, cfg, id, env), id, cfg)
  {
    StepRefl(w, id, cfg);
    match CheckChild(w, id)
    case ChildIndexComplete =>
      var (next, begun) := CompleteIndex(w, cfg, id, env);
      CompleteIndexStep(w, cfg, id, env);
      if begun.Err? {
        MarkFailedStep(next, cfg, id, MOUNT_START_FAILED + begun.reason, env.now);
        StepTrans(w, next, MarkFailed(next, cfg, id, MOUNT_START_FAILED + begun.reason, env.now).0, id, cfg);
      }
    case ChildMounted => MarkMountedStep(w, id, env.now, cfg);
    case ChildExited => MarkFailedStep(w, cfg, id, EXITED_EARLY, env.now);
    case _ =>
  }

  lemma FailJobStep(w: World, cfg: Config, id: Id, error: string, now: Time)
    requires WellFormed(w) && ValidConfig(cfg) && id in w.rows
    ensures Step(w, FailJob(w, cfg, id, error, now), id, cfg)
  {
    var row := w.rows[id];
    FailMove(w, id, if row.firstMountedAt.None? then IndexFailed else MountFailed, {row.status},
             FailPatch(row, cfg.maxAttempts, error), now, cfg);
  }

  lemma FinishJobStep(w: World, cfg: Config, id: Id, job: Job, env: BeginEnv)
    requires WellFormed(w) && ValidConfig(cfg) && id in w.rows && job.state != InFlight
    ensures Step(w, FinishJob(w, cfg, id, job, env), id, cfg)
  {
    match job.state
    case JobFailed(error) => FailJobStep(w, cfg, id, error, env.now);
    case JobDone(resultPath) =>
      var path := if resultPath == "" then job.sourcePath else resultPath;
      var (done, ok) := CompleteConvert(w, id, path, env);
      CompleteConvertStep(w, id, path, env, cfg);
      if ok {
        BeginMountStep(done, cfg, id, Some(job.needsIndex), env);
        StepTrans(w, done, BeginMount(done, cfg, id, Some(job.needsIndex), env).0, id, cfg);
      } else {
        FailJobStep(done, cfg, id, POST_CONVERT_FAILED, env.now);
        StepTrans(w, done, FailJob(done, cfg, id, POST_CONVERT_FAILED, env.now), id, cfg);
      }
  }

  /** One round of PollConvert for one job. */
  lemma PollOneStep(w: World, cfg: Config, id: Id, env: BeginEnv)
    requires WellFormed(w) && ValidConfig(cfg)
    ensures Step(w, PollOne(w, cfg, id, env), id, cfg)
  {
    StepRefl(w, id, cfg);
    if id in w.jobs && w.jobs[id].state != InFlight {
      var removed := w.(jobs := w.jobs - {id});
      Shrink(w, removed, id, cfg);
      if id in w.rows {
        FinishJobStep(removed, cfg, id, w.jobs[id], env);
        StepTrans(w, removed, FinishJob(removed, cfg, id, w.jobs[id], env), id, cfg);
      }
    }
  }

  /** Unmount, with or without marking the row absent. */
  lemma UnmountStep(w: World, id: Id, toAbsent: bool, unmounted: bool, now: Time, cfg: Config)
    requires WellFormed(w)
    ensures Step(w, Unmount(w, id, toAbsent, unmounted, now), id, cfg)
  {
    StepRefl(w, id, cfg);
    if id in w.rows {
      var moved := ToUnmounting(w, id, now);
      PlainMove(w, id, Unmounting, {w.rows[id].status}, CLEAR_PID, now, cfg);
      var stopped := Stopped(moved, id, UnmountPath(w, id), unmounted);
      Shrink(moved, stopped, id, cfg);
      StepTrans(w, moved, stopped, id, cfg);
      if toAbsent {
        MarkAbsentSucceeds(stopped.rows, id, Keep, now);
        var gone := stopped.(rows := ArchiveStore.MarkAbsent(stopped.rows, id, Keep, now));
        RowChange(stopped, gone, id, gone.rows[id], cfg);
        StepTrans(w, stopped, gone, id, cfg);
      }
    }
  }
}
