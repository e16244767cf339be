/** Starts of rows that may not be retried: the one way by which the daemon by itself still begins work on
    them, and exactly when. The tick starts no such row, but it finishes their conversions
    (internal/mounter/engine_jobs.go, internal/service/tick.go). */
module Retries {
  import opened ArchiveStore
  import opened Corners
  import opened Guarantees
  import opened Lifecycle
  import opened Options
  import opened RepairTheorems
  import opened Reconciling
  import opened Runs
  import opened Services
  import opened Statuses
  import opened Steps

  /** What the daemon does without an operator: it starts only rows that may be retried. */
  predicate TickMakes(w: World, e: Event) {
    e.Begin? ==> e.id in w.rows && w.rows[e.id].mountRetryable
  }

  /** A mount_failed row that may not be retried. */
  predicate GivenUp(w: World, id: Id) {
    id in w.rows && w.rows[id].status == MountFailed && !w.rows[id].mountRetryable
  }

  /** A conversion of the archive has succeeded, and its product can be taken up. */
  predicate ProductReady(w: World, id: Id, env: BeginEnv) {
    id in w.jobs && w.jobs[id].state.JobDone? && env.fingerprint
  }

  function ProductPath(job: Job): string
    requires job.state.JobDone?
  {
    if job.state.resultPath == "" then job.sourcePath else job.state.resultPath
  }

  // ---- what a poll does to a row that was given up ----

  /** The state once the product is taken up and the row is discovered again. */
  function TakenUp(w: World, id: Id, env: BeginEnv): World
    requires id in w.rows && id in w.jobs && w.jobs[id].state.JobDone?
  {
    CompleteConvert(w.(jobs := w.jobs - {id}), id, ProductPath(w.jobs[id]), env).0
  }

  /** The row as the product leaves it. */
  function ProductRow(w: World, id: Id, env: BeginEnv): Row
    requires id in w.rows && id in w.jobs && w.jobs[id].state.JobDone?
  {
    Updated(w.rows[id], Discovered, ProductPatch(w.rows[id], id, ProductPath(w.jobs[id]), env.convertedBasename), env.now)
  }

  lemma TakenUpRow(w: World, id: Id, env: BeginEnv)
    requires id in w.rows && id in w.jobs && w.jobs[id].state.JobDone?
    ensures var r := ProductRow(w, id, env);
            && r.status == Discovered && r.archivePath == ProductPath(w.jobs[id])
            && r.indexPath == w.rows[id].indexPath && r.firstMountedAt == w.rows[id].firstMountedAt
  {}

  /** Apart from its index the row is written once. */
  lemma ProductMove(w: World, id: Id, patch: Patch, now: Time)
    requires id in w.rows && w.rows[id].status == MountFailed
    ensures CanMove(w.rows, id, Discovered, POST_CONVERT)
    ensures WithRows(w, id, Discovered, POST_CONVERT, patch, now) ==
            w.(rows := w.rows[id := Updated(w.rows[id], Discovered, patch, now)])
  {}

  lemma TakenUpWorld(w: World, id: Id, env: BeginEnv)
    requires id in w.rows && w.rows[id].status == MountFailed && ProductReady(w, id, env)
    ensures TakenUp(w, id, env) == CleanPartial(w, w.rows[id]).(
              rows := w.rows[id := ProductRow(w, id, env)], jobs := w.jobs - {id})
  {
    ProductMove(CleanPartial(w.(jobs := w.jobs - {id}), w.rows[id]), id,
                ProductPatch(w.rows[id], id, ProductPath(w.jobs[id]), env.convertedBasename), env.now);
  }

  lemma TakenUpIs(w: World, id: Id, env: BeginEnv)
    requires id in w.rows && w.rows[id].status == MountFailed && ProductReady(w, id, env)
    ensures var w1 := TakenUp(w, id, env);
            && id in w1.rows && w1.rows[id].status == Discovered && w1.rows[id].archivePath == ProductPath(w.jobs[id])
            && w1.rows[id].indexPath == w.rows[id].indexPath && w1.rows[id].firstMountedAt == w.rows[id].firstMountedAt
            && w1.live == w.live && w1.nextPid == w.nextPid && w1.alive == w.alive && id !in w1.jobs
            && (forall k :: k in w.rows && k != id ==> k in w1.rows && w1.rows[k] == w.rows[k])
            && w1.rows.Keys == w.rows.Keys
            && w1.indexes == CleanPartial(w, w.rows[id]).indexes && w1.sticky == w.sticky
  {
    TakenUpRow(w, id, env);
    TakenUpWorld(w, id, env);
  }

  /** With the product at hand the poll is a start of the discovered row; otherwise it starts nothing. */
  lemma PollIs(w: World, cfg: Config, id: Id, env: BeginEnv)
    requires id in w.rows && w.rows[id].status == MountFailed
    ensures ProductReady(w, id, env) ==>
              PollOne(w, cfg, id, env) == BeginMount(TakenUp(w, id, env), cfg, id, Some(w.jobs[id].needsIndex), env).0
    ensures !ProductReady(w, id, env) ==> PollOne(w, cfg, id, env).nextPid == w.nextPid
  {}

  // ---- when a discovered row is started ----

  /** The archive path that a start would use: relocation may move it. */
  function PathToStart(path: string, env: BeginEnv): string {
    match env.relocation(path)
    case MovedTo(moved, _) => moved
    case _ => path
  }

  /** The machine has no objection: no conversion product elsewhere, no conversion needed, and neither
      relocation, outer cache, path check nor spawn fails. */
  predicate Agrees(path: string, env: BeginEnv) {
    && (env.converted.None? || env.converted.value == path)
    && !env.preconvert(path)
    && !env.relocation(path).RelocateFailed?
    && env.outer(PathToStart(path, env)).Resolved?
    && env.pathError.None? && env.spawnError.None?
  }

  /** When a process was started, the row shows it: indexing if the index is needed, mounting if not. */
  predicate ShowsStart(w: World, w': World, id: Id, needsIndex: bool) {
    w'.nextPid != w.nextPid ==> id in w'.rows && w'.rows[id].status == if needsIndex then Indexing else Mounting
  }

  lemma ProcessSpawnsIff(w: World, cfg: Config, id: Id, archivePath: string, needsIndex: bool, env: BeginEnv)
    requires id in w.rows && w.rows[id].status == Discovered
    ensures BeginProcess(w, cfg, id, archivePath, needsIndex, None, env).0.nextPid == w.nextPid + (
              if env.outer(archivePath).Resolved? && env.pathError.None? && env.spawnError.None? then 1 else 0)
    ensures ShowsStart(w, BeginProcess(w, cfg, id, archivePath, needsIndex, None, env).0, id, needsIndex)
  {
    var target := if needsIndex then Indexing else Mounting;
    var claimed := Claimed(w, cfg, id, target, env);
    LaunchSpawnsIff(claimed, cfg, id, archivePath, needsIndex, needsIndex, env);
  }

  lemma LaunchSpawnsIff(w: World, cfg: Config, id: Id, archivePath: string, needsIndex: bool, useIndexOnly: bool,
                        env: BeginEnv)
    requires id in w.rows
    ensures Launch(w, cfg, id, archivePath, needsIndex, useIndexOnly, env).0.nextPid == w.nextPid + (
              if env.outer(archivePath).Resolved? && env.pathError.None? && env.spawnError.None? then 1 else 0)
    ensures w.rows[id].status == (if useIndexOnly then Indexing else Mounting) ==>
              ShowsStart(w, Launch(w, cfg, id, archivePath, needsIndex, useIndexOnly, env).0, id, useIndexOnly)
  {}

  lemma SlotSpawnsIff(w: World, cfg: Config, id: Id, needsIndex: bool, env: BeginEnv)
    requires id in w.rows && w.rows[id].status == Discovered
    ensures StartIfSlot(w, cfg, id, needsIndex, env).0.nextPid == w.nextPid + (
              if !SlotFull(w, cfg, needsIndex) && env.outer(w.rows[id].archivePath).Resolved?
                 && env.pathError.None? && env.spawnError.None? then 1 else 0)
    ensures ShowsStart(w, StartIfSlot(w, cfg, id, needsIndex, env).0, id, needsIndex)
  {
    ProcessSpawnsIff(w, cfg, id, w.rows[id].archivePath, needsIndex, env);
  }

  /** Relocation changes neither the slots nor whether the index is needed. */
  lemma MovedKeepsSlots(w: World, cfg: Config, id: Id, path: string, basename: string, first: bool, now: Time)
    requires id in w.rows && w.rows[id].status == Discovered
    ensures var moved := WithRows(w, id, Discovered, {Discovered},
                                  NO_PATCH.(archivePath := Set(path), basename := Set(basename)), now);
            && id in moved.rows && moved.rows[id].status == Discovered && moved.rows[id].archivePath == path
            && moved.nextPid == w.nextPid
            && NeedsIndex(moved, moved.rows[id], first) == NeedsIndex(w, w.rows[id], first)
            && forall needsIndex :: SlotFull(moved, cfg, needsIndex) == SlotFull(w, cfg, needsIndex)
  {
    var moved := WithRows(w, id, Discovered, {Discovered},
                          NO_PATCH.(archivePath := Set(path), basename := Set(basename)), now);
    SameSlots(w, moved, id, Indexing);
    SameSlots(w, moved, id, Mounting);
  }

  /** A change of a row that holds no slot, and takes none, keeps the count. */
  lemma SameSlots(w: World, w': World, id: Id, status: Status)
    requires w'.rows.Keys == w.rows.Keys && (forall k :: k in w.rows && k != id ==> w'.rows[k] == w.rows[k])
    requires w'.live == w.live && w'.alive == w.alive
    requires !Holds(w, id, status) && !Holds(w', id, status)
    ensures Slots(w', status) == Slots(w, status)
  {
    forall k ensures Holds(w', k, status) == Holds(w, k, status) {}
    assert SlotSet(w', status) == SlotSet(w, status);
  }

  lemma FreshSpawnsIff(w: World, cfg: Config, id: Id, first: bool, needsIndex: bool, env: BeginEnv)
    requires id in w.rows && w.rows[id].status == Discovered && needsIndex == NeedsIndex(w, w.rows[id], first)
    requires env.converted.None? || env.converted.value == w.rows[id].archivePath
    ensures StartFresh(w, cfg, id, first, needsIndex, env).0.nextPid == w.nextPid + (
              if Agrees(w.rows[id].archivePath, env) && !SlotFull(w, cfg, needsIndex) then 1 else 0)
    ensures ShowsStart(w, StartFresh(w, cfg, id, first, needsIndex, env).0, id, needsIndex)
  {
    var row := w.rows[id];
    if env.preconvert(row.archivePath) {
      ConvertSpawnsNothing(w, cfg, id, needsIndex, env);
    } else {
      match env.relocation(row.archivePath)
      case Stay => SlotSpawnsIff(w, cfg, id, needsIndex, env);
      case RelocateFailed(reason) => FailedClaimSpawnsNothing(w, cfg, id, reason, env.now);
      case MovedTo(path, basename) =>
        var moved := WithRows(w, id, row.status, {row.status},
                              NO_PATCH.(archivePath := Set(path), basename := Set(basename)), env.now);
        MovedKeepsSlots(w, cfg, id, path, basename, first, env.now);
        SlotSpawnsIff(moved, cfg, id, needsIndex, env);
    }
  }

  lemma FailedClaimSpawnsNothing(w: World, cfg: Config, id: Id, reason: string, now: Time)
    requires id in w.rows
    ensures FailConvertClaim(w, cfg, id, reason, now).nextPid == w.nextPid
  {}

  lemma ConvertSpawnsNothing(w: World, cfg: Config, id: Id, needsIndex: bool, env: BeginEnv)
    requires id in w.rows
    ensures BeginConvert(w, cfg, id, needsIndex, env).0.nextPid == w.nextPid
  {
    FailedClaimSpawnsNothing(w, cfg, id, "archive not found: " + w.rows[id].archivePath, env.now);
  }

  /** A discovered row without a conversion is started if and only if the machine agrees and the slot it
      needs is free. */
  lemma DiscoveredSpawnsIff(w: World, cfg: Config, id: Id, first: bool, env: BeginEnv)
    requires id in w.rows && w.rows[id].status == Discovered && id !in w.jobs
    ensures var cleaned := CleanPartial(w, w.rows[id]);
            BeginMount(w, cfg, id, Some(first), env).0.nextPid == w.nextPid + (
              if Agrees(w.rows[id].archivePath, env) && !SlotFull(w, cfg, NeedsIndex(cleaned, w.rows[id], first))
              then 1 else 0)
            && ShowsStart(w, BeginMount(w, cfg, id, Some(first), env).0, id, NeedsIndex(cleaned, w.rows[id], first))
  {
    var row := w.rows[id];
    var cleaned := CleanPartial(w, row);
    CleanedSlots(w, cfg, row);
    StartIsAdoption(w, cfg, id, Some(first), env, cleaned, first);
    if env.converted.Some? && env.converted.value != row.archivePath {
      RejectedAdoption(cleaned, cfg, id, first, NeedsIndex(cleaned, row, first), env);
    } else {
      FreshSpawnsIff(cleaned, cfg, id, first, NeedsIndex(cleaned, row, first), env);
    }
  }

  lemma CleanedSlots(w: World, cfg: Config, row: Row)
    ensures var cleaned := CleanPartial(w, row);
            && cleaned.nextPid == w.nextPid
            && forall needsIndex :: SlotFull(cleaned, cfg, needsIndex) == SlotFull(w, cfg, needsIndex)
  {
    var cleaned := CleanPartial(w, row);
    assert forall k, status :: Holds(cleaned, k, status) == Holds(w, k, status);
    assert SlotSet(cleaned, Indexing) == SlotSet(w, Indexing) && SlotSet(cleaned, Mounting) == SlotSet(w, Mounting);
  }

  // ---- the theorem ----

  /** The index that a finished conversion has to build, after the partial one is gone. */
  predicate ProductNeedsIndex(w: World, id: Id, job: Job)
    requires id in w.rows
  {
    NeedsIndex(CleanPartial(w, w.rows[id]), w.rows[id], job.needsIndex)
  }

  lemma TakenUpSlots(w: World, cfg: Config, id: Id, env: BeginEnv)
    requires id in w.rows && w.rows[id].status == MountFailed && ProductReady(w, id, env)
    ensures var w1 := TakenUp(w, id, env);
            && id in w1.rows
            && (forall needsIndex :: SlotFull(w1, cfg, needsIndex) == SlotFull(w, cfg, needsIndex))
            && NeedsIndex(CleanPartial(w1, w1.rows[id]), w1.rows[id], w.jobs[id].needsIndex)
               == ProductNeedsIndex(w, id, w.jobs[id])
  {
    TakenUpIs(w, id, env);
    var w1 := TakenUp(w, id, env);
    SameSlots(w, w1, id, Indexing);
    SameSlots(w, w1, id, Mounting);
    CleanTwice(w, w1, id);
  }

  /** Cleaning a partial index a second time changes nothing about its readiness. */
  lemma CleanTwice(w: World, w1: World, id: Id)
    requires id in w.rows && w.rows[id].status == MountFailed && id in w1.rows && w1.rows[id].status == Discovered
    requires w1.rows[id].indexPath == w.rows[id].indexPath && w1.rows[id].firstMountedAt == w.rows[id].firstMountedAt
    requires w1.indexes == CleanPartial(w, w.rows[id]).indexes && w1.sticky == w.sticky
    ensures IndexReady(CleanPartial(w1, w1.rows[id]), w1.rows[id].indexPath.GetOr("")) ==
            IndexReady(CleanPartial(w, w.rows[id]), w.rows[id].indexPath.GetOr(""))
  {}

  /** A poll starts a mount_failed row if and only if a conversion of the archive has succeeded, its product
      can be taken up, the slot that it needs is free, and the machine agrees. It does not look at whether
      the row may be retried. */
  lemma PollSpawnsIff(w: World, cfg: Config, id: Id, env: BeginEnv)
    requires id in w.rows && w.rows[id].status == MountFailed
    ensures PollOne(w, cfg, id, env).nextPid == w.nextPid + (
              if && ProductReady(w, id, env)
                 && !SlotFull(w, cfg, ProductNeedsIndex(w, id, w.jobs[id]))
                 && Agrees(ProductPath(w.jobs[id]), env)
              then 1 else 0)
    ensures ProductReady(w, id, env) ==>
              ShowsStart(w, PollOne(w, cfg, id, env), id, ProductNeedsIndex(w, id, w.jobs[id]))
  {
    PollIs(w, cfg, id, env);
    if ProductReady(w, id, env) {
      TakenUpIs(w, id, env);
      TakenUpSlots(w, cfg, id, env);
      DiscoveredSpawnsIff(TakenUp(w, id, env), cfg, id, w.jobs[id].needsIndex, env);
    }
  }

  lemma ProgressSpawnsNothing(w: World, cfg: Config, id: Id, env: BeginEnv)
    requires id in w.rows && w.rows[id].status == MountFailed
    ensures ProgressOne(w, cfg, id, env).nextPid == w.nextPid
  {
    match CheckChild(w, id)
    case ChildIndexComplete =>
      IndexCompleteMeans(w, id);
      assert !CanMove(w.rows, id, Mounting, {Indexing});
      var (next, begun) := CompleteIndex(w, cfg, id, env);
      IndexDoneSpawnsNothing(w, id, env.now);
      assert begun.Err?;
      MarkFailedSpawnsNothing(next, cfg, id, MOUNT_START_FAILED + begun.reason, env.now);
    case ChildMounted => MarkMountedSpawnsNothing(w, id, env.now);
    case ChildExited => MarkFailedSpawnsNothing(w, cfg, id, EXITED_EARLY, env.now);
    case _ =>
  }

  lemma IndexDoneSpawnsNothing(w: World, id: Id, now: Time)
    requires id in w.live
    ensures IndexDone(w, id, now).nextPid == w.nextPid
  {}

  lemma MarkFailedSpawnsNothing(w: World, cfg: Config, id: Id, reason: string, now: Time)
    ensures MarkFailed(w, cfg, id, reason, now).0.nextPid == w.nextPid
  {}

  lemma MarkMountedSpawnsNothing(w: World, id: Id, now: Time)
    ensures MarkMounted(w, id, now).0.nextPid == w.nextPid
  {}

  lemma ReleaseSpawnsNothing(w: World, id: Id, toAbsent: bool, unmounted: bool, now: Time)
    ensures Unmount(w, id, toAbsent, unmounted, now).nextPid == w.nextPid
  {}

  lemma RepairSpawnsNothing(w: World, id: Id, s: Setup)
    ensures RepairRow(w, id, s).0.nextPid == w.nextPid
  {
    if id in w.rows {
      var a := DecideOne(w, id, w.rows[id], s);
      if a.Some? {
        ApplyTouches(w, id, a.value, s);
      }
    }
  }

  /** The poll that starts a row which was given up. */
  predicate LateStart(w: World, cfg: Config, id: Id, env: BeginEnv)
    requires id in w.rows
  {
    && ProductReady(w, id, env)
    && !SlotFull(w, cfg, ProductNeedsIndex(w, id, w.jobs[id]))
    && Agrees(ProductPath(w.jobs[id]), env)
  }

  /** Of all that the tick does, and of all else that can happen to a row that was given up, exactly one
      thing starts a process for it: the poll of a conversion that has succeeded, when its product can be
      taken up, the slot is free and the machine agrees. */
  lemma GivenUpStartsIff(w: World, cfg: Config, e: Event, id: Id)
    requires GivenUp(w, id) && Subject(e) == id && TickMakes(w, e)
    ensures Next(w, cfg, e).nextPid != w.nextPid <==> e.Poll? && LateStart(w, cfg, id, e.env)
  {
    match e
    case Progress(_, env) => ProgressSpawnsNothing(w, cfg, id, env);
    case Poll(_, env) => PollSpawnsIff(w, cfg, id, env);
    case Release(_, toAbsent, unmounted, now) => ReleaseSpawnsNothing(w, id, toAbsent, unmounted, now);
    case Repair(_, setup) => RepairSpawnsNothing(w, id, setup.(maxAttempts := cfg.maxAttempts));
    case _ => OtherSpawnsNothing(w, cfg, e);
  }

  lemma OtherSpawnsNothing(w: World, cfg: Config, e: Event)
    requires !(e.Begin? || e.Progress? || e.Poll? || e.Release? || e.Repair?)
    ensures Next(w, cfg, e).nextPid == w.nextPid
  {}

  // ---- a row at its limit that is started all the same ----

  /** With every attempt used up and no retry allowed, on an idle daemon: the next poll of a finished
      conversion starts the index of the row, in a new process. */
  lemma StartedAtTheLimit(w: World, cfg: Config, id: Id, env: BeginEnv)
    requires ValidConfig(cfg) && GivenUp(w, id) && w.rows[id].mountAttempts >= cfg.maxAttempts
    requires w.live == map[] && w.alive == {} && ProductReady(w, id, env)
    requires ProductNeedsIndex(w, id, w.jobs[id]) && Agrees(ProductPath(w.jobs[id]), env)
    ensures var w' := Next(w, cfg, Poll(id, env));
            w'.nextPid == w.nextPid + 1 && id in w'.rows && w'.rows[id].status == Indexing
  {
    IdleSlots(w, cfg);
    PollSpawnsIff(w, cfg, id, env);
  }

  lemma IdleSlots(w: World, cfg: Config)
    requires ValidConfig(cfg) && w.live == map[] && w.alive == {}
    ensures !SlotFull(w, cfg, true)
  {
    assert SlotSet(w, Indexing) == {};
  }

  // ---- a row that is left behind ----

  /** A discovered row that may not be retried, with nothing under way. */
  predicate Stranded(w: World, id: Id) {
    && id in w.rows && w.rows[id].status == Discovered && !w.rows[id].mountRetryable
    && id !in w.live && id !in w.jobs
  }

  /** A failed claim that cannot change the status of a discovered row, since it was mounted before, and
      leaves it without a retry. */
  predicate FailsInPlace(row: Row, cfg: Config) {
    row.firstMountedAt.Some? && !NextMountAttempt(row.mountAttempts, cfg.maxAttempts).1
  }

  /** A start that leaves the discovered row where it is. */
  predicate ComesToNothing(row: Row, path: string, cfg: Config, jobs: nat, slotFull: bool, env: BeginEnv) {
    if env.converted.Some? && env.converted.value != path then true
    else if env.preconvert(path) then
      LimitReached(jobs, cfg.maxConvert) || (!env.sourceIsFile && FailsInPlace(row, cfg))
    else if env.relocation(path).RelocateFailed? then FailsInPlace(row, cfg)
    else slotFull
  }

  lemma SpawnedLeaves(w: World, id: Id, target: Status, managed: Managed, now: Time)
    requires id in w.rows && w.rows[id].status == target && target != Discovered
    ensures var w' := Spawned(w, id, target, managed, now); id in w'.rows && w'.rows[id].status != Discovered
  {}

  lemma FailStartLeaves(w: World, cfg: Config, id: Id, indexPhase: bool, reason: string, now: Time)
    requires id in w.rows && w.rows[id].status != Discovered
    ensures var w' := FailStart(w, cfg, id, indexPhase, reason, now); id in w'.rows && w'.rows[id].status != Discovered
  {}

  lemma LaunchLeaves(w: World, cfg: Config, id: Id, archivePath: string, needsIndex: bool, useIndexOnly: bool,
                     env: BeginEnv)
    requires id in w.rows && w.rows[id].status == if useIndexOnly then Indexing else Mounting
    ensures var w' := Launch(w, cfg, id, archivePath, needsIndex, useIndexOnly, env).0;
            id in w'.rows && w'.rows[id].status != Discovered
  {
    var begun := Launch(w, cfg, id, archivePath, needsIndex, useIndexOnly, env).1;
    var cleared := if useIndexOnly then w else w.(alive := w.alive - env.staleHolders);
    LaunchFails(w, cfg, id, archivePath, needsIndex, useIndexOnly, env, cleared);
    LaunchStarts(w, cfg, id, archivePath, needsIndex, useIndexOnly, env, cleared);
    if begun.Started? {
      SpawnedLeaves(cleared, id, if useIndexOnly then Indexing else Mounting, begun.managed, env.now);
    } else {
      FailStartLeaves(w, cfg, id, useIndexOnly, begun.reason, env.now);
      FailStartLeaves(cleared, cfg, id, useIndexOnly, begun.reason, env.now);
    }
  }

  lemma ProcessLeaves(w: World, cfg: Config, id: Id, archivePath: string, needsIndex: bool, env: BeginEnv)
    requires id in w.rows && w.rows[id].status == Discovered
    ensures !Stranded(BeginProcess(w, cfg, id, archivePath, needsIndex, None, env).0, id)
  {
    var claimed := Claimed(w, cfg, id, if needsIndex then Indexing else Mounting, env);
    LaunchLeaves(claimed, cfg, id, archivePath, needsIndex, needsIndex, env);
  }

  lemma SlotStrandsIff(w: World, cfg: Config, id: Id, needsIndex: bool, env: BeginEnv)
    requires Stranded(w, id)
    ensures Stranded(StartIfSlot(w, cfg, id, needsIndex, env).0, id) <==> SlotFull(w, cfg, needsIndex)
  {
    ProcessLeaves(w, cfg, id, w.rows[id].archivePath, needsIndex, env);
  }

  lemma FailedClaimStrandsIff(w: World, cfg: Config, id: Id, reason: string, now: Time)
    requires Stranded(w, id)
    ensures Stranded(FailConvertClaim(w, cfg, id, reason, now), id) <==> FailsInPlace(w.rows[id], cfg)
  {
    var row := w.rows[id];
    if row.firstMountedAt.None? {
      var r1 := Updated(row, Indexing, NO_PATCH.(lastError := Set(Some(reason))), now);
      var r2 := Updated(r1, IndexFailed, FailPatch(row, cfg.maxAttempts, reason), now);
      FailedByIndexing(w, cfg, id, reason, now, r1, r2);
    }
  }

  lemma ConvertStrandsIff(w: World, cfg: Config, id: Id, needsIndex: bool, env: BeginEnv)
    requires Stranded(w, id)
    ensures Stranded(BeginConvert(w, cfg, id, needsIndex, env).0, id) <==>
              !env.sourceIsFile && FailsInPlace(w.rows[id], cfg)
  {
    if !env.sourceIsFile {
      FailedClaimStrandsIff(w, cfg, id, "archive not found: " + w.rows[id].archivePath, env.now);
    }
  }

  lemma FreshStrandsIff(w: World, cfg: Config, id: Id, first: bool, needsIndex: bool, env: BeginEnv)
    requires Stranded(w, id) && needsIndex == NeedsIndex(w, w.rows[id], first)
    requires env.converted.None? || env.converted.value == w.rows[id].archivePath
    ensures Stranded(StartFresh(w, cfg, id, first, needsIndex, env).0, id) <==>
              ComesToNothing(w.rows[id], w.rows[id].archivePath, cfg, |w.jobs|, SlotFull(w, cfg, needsIndex), env)
  {
    var row := w.rows[id];
    if env.preconvert(row.archivePath) {
      ConvertStrandsIff(w, cfg, id, needsIndex, env);
    } else {
      match env.relocation(row.archivePath)
      case Stay => SlotStrandsIff(w, cfg, id, needsIndex, env);
      case RelocateFailed(reason) => FailedClaimStrandsIff(w, cfg, id, reason, env.now);
      case MovedTo(path, basename) =>
        var moved := WithRows(w, id, row.status, {row.status},
                              NO_PATCH.(archivePath := Set(path), basename := Set(basename)), env.now);
        MovedKeepsSlots(w, cfg, id, path, basename, first, env.now);
        SlotStrandsIff(moved, cfg, id, needsIndex, env);
    }
  }

  lemma CleanedStrands(w: World, row: Row, id: Id)
    ensures Stranded(CleanPartial(w, row), id) <==> Stranded(w, id)
    ensures CleanPartial(w, row).rows == w.rows && CleanPartial(w, row).jobs == w.jobs
  {}

  lemma DiscoveredStrandsIff(w: World, cfg: Config, id: Id, first: bool, env: BeginEnv)
    requires Stranded(w, id)
    ensures Stranded(BeginMount(w, cfg, id, Some(first), env).0, id) <==>
              ComesToNothing(w.rows[id], w.rows[id].archivePath, cfg, |w.jobs|,
                             SlotFull(w, cfg, NeedsIndex(CleanPartial(w, w.rows[id]), w.rows[id], first)), env)
  {
    var row := w.rows[id];
    var cleaned := CleanPartial(w, row);
    CleanedSlots(w, cfg, row);
    CleanedStrands(w, row, id);
    StartIsAdoption(w, cfg, id, Some(first), env, cleaned, first);
    if env.converted.Some? && env.converted.value != row.archivePath {
      RejectedAdoption(cleaned, cfg, id, first, NeedsIndex(cleaned, row, first), env);
      CleanedStrands(cleaned, row, id);
    } else {
      FreshStrandsIff(cleaned, cfg, id, first, NeedsIndex(cleaned, row, first), env);
    }
  }

  /** The poll of a finished conversion strands the archive. */
  predicate Strands(w: World, cfg: Config, id: Id, env: BeginEnv)
    requires id in w.rows
  {
    && ProductReady(w, id, env)
    && ComesToNothing(w.rows[id], ProductPath(w.jobs[id]), cfg, |w.jobs - {id}|,
                      SlotFull(w, cfg, ProductNeedsIndex(w, id, w.jobs[id])), env)
  }

  lemma TakenUpStrands(w: World, id: Id, env: BeginEnv)
    requires GivenUp(w, id) && id !in w.live && ProductReady(w, id, env)
    ensures var w1 := TakenUp(w, id, env);
            && Stranded(w1, id) && w1.jobs == w.jobs - {id}
            && w1.rows[id].mountAttempts == w.rows[id].mountAttempts
  {
    TakenUpWorld(w, id, env);
  }

  lemma UnreadyStays(w: World, cfg: Config, id: Id, env: BeginEnv)
    requires id in w.rows && w.rows[id].status == MountFailed && !ProductReady(w, id, env)
    ensures !Stranded(PollOne(w, cfg, id, env), id)
  {}

  /** A poll leaves a given-up row discovered, with nothing under way and no retry allowed, if and only if
      its conversion has succeeded, the product is taken up, and the start after it comes to nothing:
      another product is in the way, a limit is reached, or a failure cannot be booked on the status. */
  lemma PollStrandsIff(w: World, cfg: Config, id: Id, env: BeginEnv)
    requires GivenUp(w, id) && id !in w.live
    ensures Stranded(PollOne(w, cfg, id, env), id) <==> Strands(w, cfg, id, env)
  {
    if ProductReady(w, id, env) {
      var w1 := TakenUp(w, id, env);
      PollIs(w, cfg, id, env);
      TakenUpIs(w, id, env);
      TakenUpSlots(w, cfg, id, env);
      TakenUpStrands(w, id, env);
      DiscoveredStrandsIff(w1, cfg, id, w.jobs[id].needsIndex, env);
    } else {
      UnreadyStays(w, cfg, id, env);
    }
  }

  /** A row without a retry that is discovered, on its way out or gone, with nothing under way. */
  predicate Idle(w: World, id: Id) {
    && id in w.rows && !w.rows[id].mountRetryable && w.rows[id].status in {Discovered, Unmounting, Absent}
    && id !in w.live && id !in w.jobs
  }

  lemma ReleaseIdle(w: World, id: Id, toAbsent: bool, unmounted: bool, now: Time)
    requires Idle(w, id)
    ensures Idle(Unmount(w, id, toAbsent, unmounted, now), id)
  {
    if toAbsent {
      var stopped := Stopped(ToUnmounting(w, id, now), id, UnmountPath(w, id), unmounted);
      MarkAbsentSucceeds(stopped.rows, id, Keep, now);
    }
  }

  lemma RepairIdle(w: World, id: Id, s: Setup)
    requires Idle(w, id)
    ensures Idle(RepairRow(w, id, s).0, id)
  {
    var a := DecideOne(w, id, w.rows[id], s);
    if a.Some? && a.value.kind == GoAbsent {
      MarkAbsentSucceeds(w.rows, id, Set(Some(Text(a.value.reason, s))), s.now);
    }
  }

  lemma OwnIdle(w: World, cfg: Config, e: Event, id: Id)
    requires Idle(w, id) && Subject(e) == id && TickMakes(w, e)
    ensures Idle(Next(w, cfg, e), id)
  {
    match e
    case Release(_, toAbsent, unmounted, now) => ReleaseIdle(w, id, toAbsent, unmounted, now);
    case Repair(_, setup) => RepairIdle(w, id, setup.(maxAttempts := cfg.maxAttempts));
    case _ =>
  }

  lemma NextIdle(w: World, cfg: Config, e: Event, id: Id)
    requires WellFormed(w) && ValidConfig(cfg) && Idle(w, id) && TickMakes(w, e)
    ensures Idle(Next(w, cfg, e), id)
  {
    if Subject(e) == id {
      OwnIdle(w, cfg, e, id);
    } else if !e.Discover? {
      NextStep(w, cfg, e);
    }
  }

  /** Every start in the run is the tick's own. */
  ghost predicate TickRun(w: World, cfg: Config, events: seq<Event>)
    decreases |events|
  {
    events == [] || (TickMakes(w, events[0]) && TickRun(Next(w, cfg, events[0]), cfg, events[1..]))
  }

  /** A stranded row is never worked on again without an operator or a reset: over every run it has no
      process and no conversion, and it leaves its status only on its way to absent. */
  lemma {:induction false} StrandedForGood(w: World, cfg: Config, events: seq<Event>, id: Id)
    requires WellFormed(w) && ValidConfig(cfg) && Idle(w, id) && TickRun(w, cfg, events)
    ensures Idle(Run(w, cfg, events), id)
    decreases |events|
  {
    if events != [] {
      NextIdle(w, cfg, events[0], id);
      NextKept(w, cfg, events[0]);
      StrandedForGood(Next(w, cfg, events[0]), cfg, events[1..], id);
    }
  }

  /** So the poll that strands a row is the last that happens to it: whatever follows, it stays idle, and
      new work leaves it alone. */
  lemma PollStrandsForGood(w: World, cfg: Config, id: Id, env: BeginEnv, events: seq<Event>, order: seq<Id>, m: Machine)
    requires WellFormed(w) && ValidConfig(cfg) && GivenUp(w, id) && id !in w.live && Strands(w, cfg, id, env)
    requires TickRun(PollOne(w, cfg, id, env), cfg, events)
    ensures var w' := Run(PollOne(w, cfg, id, env), cfg, events);
            Idle(w', id) && LeftAlone(w', PendingWork(w', cfg, order, m), id)
  {
    PollStrandsIff(w, cfg, id, env);
    PollOneStep(w, cfg, id, env);
    IdleForGood(PollOne(w, cfg, id, env), cfg, events, id, order, m);
  }

  lemma IdleForGood(w: World, cfg: Config, events: seq<Event>, id: Id, order: seq<Id>, m: Machine)
    requires WellFormed(w) && ValidConfig(cfg) && Idle(w, id) && TickRun(w, cfg, events)
    ensures var w' := Run(w, cfg, events);
            Idle(w', id) && LeftAlone(w', PendingWork(w', cfg, order, m), id)
  {
    StrandedForGood(w, cfg, events, id);
    RunKeepsBounds(w, cfg, events);
    NewWorkLeavesAlone(Run(w, cfg, events), cfg, order, m, id);
  }

  // ---- all starts together ----

  /** A mount_failed row is started, whether it may be retried or not. */
  ghost predicate Starts(w: World, w1: World, e: Event, id: Id) {
    && Begins(e, id) && id in w.rows && id in w1.rows && w.rows[id].status == MountFailed
    && (w1.rows[id].status != MountFailed || w.rows[id].mountAttempts < w1.rows[id].mountAttempts)
  }

  ghost function StartCount(w: World, cfg: Config, events: seq<Event>, id: Id): nat
    decreases |events|
  {
    if events == [] then 0
    else
      var w1 := Next(w, cfg, events[0]);
      (if Starts(w, w1, events[0], id) then 1 else 0) + StartCount(w1, cfg, events[1..], id)
  }

  /** The archive is begun although it was given up: an operator asks for it, or a conversion of it is
      finished. The tick itself never asks. */
  predicate Overrules(w: World, e: Event, id: Id) {
    GivenUp(w, id) && Begins(e, id) && (e.Poll? ==> id in w.jobs && w.jobs[id].state != InFlight)
  }

  ghost function OverruleCount(w: World, cfg: Config, events: seq<Event>, id: Id): nat
    decreases |events|
  {
    if events == [] then 0
    else
      (if Overrules(w, events[0], id) then 1 else 0) + OverruleCount(Next(w, cfg, events[0]), cfg, events[1..], id)
  }

  lemma StartsAre(w: World, w1: World, cfg: Config, e: Event, id: Id)
    requires w1 == Next(w, cfg, e) && Starts(w, w1, e, id)
    ensures Restarts(w, w1, e, id) || Overrules(w, e, id)
  {}

  lemma {:induction false} StartsSplit(w: World, cfg: Config, events: seq<Event>, id: Id)
    ensures StartCount(w, cfg, events, id) <= RestartCount(w, cfg, events, id) + OverruleCount(w, cfg, events, id)
    decreases |events|
  {
    if events != [] {
      var w1 := Next(w, cfg, events[0]);
      if Starts(w, w1, events[0], id) {
        StartsAre(w, w1, cfg, events[0], id);
      }
      StartsSplit(w1, cfg, events[1..], id);
    }
  }

  /** Over every run a row is started from mount_failed at most max_mount_attempts times, and once more for
      each time that it is begun after it was given up: by an operator, or by a conversion that finishes. */
  lemma AllStartsAreBounded(w: World, cfg: Config, events: seq<Event>, id: Id)
    requires WellFormed(w) && ValidConfig(cfg) && id in w.rows && w.rows[id].mountAttempts >= 0
    ensures StartCount(w, cfg, events, id) <=
            Max(1, cfg.maxAttempts - w.rows[id].mountAttempts) + OverruleCount(w, cfg, events, id)
  {
    StartsSplit(w, cfg, events, id);
    RestartsAreBounded(w, cfg, events, id);
  }
}
