/** When a start spawns a process, and what for: read off the row, the registry, the index files and the
    answers of the machine (internal/mounter/engine.go, internal/mounter/index.go). */
module Starts {
  import opened ArchiveStore
  import opened Children
  import opened Corners
  import opened Lifecycle
  import opened Options
  import opened PathLex
  import opened Repairs
  import opened Retries
  import opened Statuses

  // ---- what a start looks at ----

  /** The partial index of an archive that has never been mounted is deleted before it is looked for. */
  predicate LosesIndex(w: World, row: Row) {
    row.firstMountedAt.None? && row.status in {Discovered, Indexing, IndexFailed, MountFailed} && Deletable(w, row)
  }

  /** The start builds the index: it is told to, or else there is no index file that is not empty. */
  predicate BuildsIndex(w: World, row: Row, firstIndex: Option<bool>) {
    || (if firstIndex.Some? then firstIndex.value else row.firstMountedAt.None?)
    || row.indexPath.None? || !IsBuilt(w, row.indexPath.value)
    || LosesIndex(w, row)
  }

  /** The archives that are at work in the status: with a live child, or with a stored process that runs. */
  ghost function Busy(w: World, status: Status): set<Id> {
    set k | k in w.rows && w.rows[k].status == status
            && (k in w.live || (w.rows[k].mountPid.Some? && w.rows[k].mountPid.value in w.alive))
  }

  /** The limit leaves room for one more; a limit of zero is none. */
  ghost predicate HasRoom(w: World, cfg: Config, building: bool) {
    if building then cfg.maxIndex <= 0 || |Busy(w, Indexing)| < cfg.maxIndex
    else cfg.maxMount <= 0 || |Busy(w, Mounting)| < cfg.maxMount
  }

  /** The status table leads to the status of the work. */
  predicate Enters(status: Status, building: bool) {
    || status in {Discovered, Converting, Indexing, Mounting, MountFailed}
    || (!building && status in {Mounted, Unmounting})
  }

  predicate IsResumed(status: Status) {
    status in {Indexing, Mounting, HooksRunning}
  }

  /** Work on a row in progress is taken up when nothing of it is there; a row that is not in progress is
      begun when its archive need not be converted and can be moved where it is to be. */
  predicate IsTakenUp(w: World, id: Id, status: Status, path: string, env: BeginEnv)
    requires id in w.rows
  {
    if IsResumed(status) then id !in w.live && !IsHealthy(w, w.rows[id]) && Spawnable(path, env)
    else !env.preconvert(path) && !env.relocation(path).RelocateFailed? && Spawnable(PathToStart(path, env), env)
  }

  /** Where the archive is read from: a row in progress stays where it is. */
  function WorkPath(status: Status, path: string, env: BeginEnv): string {
    if IsResumed(status) then path else PathToStart(path, env)
  }

  /** A conversion product lies at another path. */
  predicate HasProduct(row: Row, env: BeginEnv) {
    env.converted.Some? && env.converted.value != row.archivePath
  }

  function PathFor(w: World, id: Id, env: BeginEnv): string {
    if id !in w.rows then ""
    else if HasProduct(w.rows[id], env) then PathToStart(env.converted.value, env)
    else WorkPath(w.rows[id].status, w.rows[id].archivePath, env)
  }

  /** There is room for the work, and it can be begun, where the archive is or where its product is. */
  ghost predicate SpawnsFor(w: World, cfg: Config, id: Id, building: bool, env: BeginEnv)
    requires id in w.rows
  {
    var row := w.rows[id];
    && HasRoom(w, cfg, building)
    && if HasProduct(row, env) then
         && env.fingerprint && row.status in {IndexFailed, MountFailed}
         && IsTakenUp(w, id, Discovered, env.converted.value, env)
       else Enters(row.status, building) && IsTakenUp(w, id, row.status, row.archivePath, env)
  }

  /** Everything that a start depends on agrees. */
  ghost predicate Spawns(w: World, cfg: Config, id: Id, firstIndex: Option<bool>, env: BeginEnv) {
    && id in w.rows && id !in w.jobs && w.rows[id].status != Converting
    && SpawnsFor(w, cfg, id, BuildsIndex(w, w.rows[id], firstIndex), env)
  }

  /** Row, live entry and process agree on the paths, and the index is that of the archive. */
  ghost predicate HasPaths(w: World, w': World, cfg: Config, id: Id) {
    && id in w'.rows && id in w'.live
    && w'.rows[id].mountPath == Some(w'.live[id].mountPath)
    && w.nextPid in w'.paths && w'.paths[w.nextPid] == w'.live[id].mountPath
    && w'.live[id].indexPath == Join(cfg.indexDir, id + ".index.sqlite")
    && w'.rows[id].indexPath == Some(w'.live[id].indexPath)
  }

  /** A new process runs for the archive, in the phase that its row shows. */
  ghost predicate StartedAs(w: World, w': World, cfg: Config, id: Id, path: string, env: BeginEnv, building: bool) {
    && id in w'.rows && id in w'.live
    && w'.rows[id].archivePath == path && env.outer(path) == Resolved(w'.live[id].archivePath)
    && HasPaths(w, w', cfg, id) && w'.live[id].isFirstIndex == building
    && w'.nextPid == w.nextPid + 1 && w.nextPid in w'.alive
    && w'.live[id].pid == w.nextPid && w'.rows[id].mountPid == Some(w.nextPid)
    && w'.live[id].skips == []
    && if building then w'.live[id].phase == IndexOnly && w'.rows[id].status == Indexing
       else w'.live[id].phase == MountPhase && w'.rows[id].status == Mounting
  }

  ghost predicate Leads(w: World, w': World, cfg: Config, id: Id, path: string, env: BeginEnv, building: bool,
                        spawns: bool)
  {
    if spawns then StartedAs(w, w', cfg, id, path, env, building) else w'.nextPid == w.nextPid
  }

  // ---- the helpers of the model say the same ----

  lemma NeedsIndexIff(w: World, row: Row, first: bool)
    ensures NeedsIndex(CleanPartial(w, row), row, first) <==> BuildsIndex(w, row, Some(first))
  {
    DeletableIff(w, row);
    BuiltIff(CleanPartial(w, row), row.indexPath.GetOr(""));
  }

  lemma RoomIff(w: World, cfg: Config, building: bool)
    ensures HasRoom(w, cfg, building) <==> !SlotFull(w, cfg, building)
  {
    assert Busy(w, Indexing) == SlotSet(w, Indexing) && Busy(w, Mounting) == SlotSet(w, Mounting);
  }

  lemma EntersIff(status: Status, building: bool)
    ensures Enters(status, building) <==> ValidTransition(status, if building then Indexing else Mounting)
  {}

  // ---- step by step ----

  lemma LaunchLeads(w: World, cfg: Config, id: Id, path: string, building: bool, env: BeginEnv)
    requires id in w.rows && w.rows[id].status == (if building then Indexing else Mounting)
    requires w.rows[id].indexPath == Some(Join(cfg.indexDir, id + ".index.sqlite")) && w.rows[id].mountPath.Some?
    requires w.rows[id].archivePath == path
    ensures Leads(w, Launch(w, cfg, id, path, building, building, env).0, cfg, id, path, env, building,
                  Spawnable(path, env))
  {
    if Spawnable(path, env) {
      LaunchedAs(w, cfg, id, path, building, env);
    } else {
      LaunchSpawnsIff(w, cfg, id, path, building, building, env);
    }
  }

  lemma LaunchedAs(w: World, cfg: Config, id: Id, path: string, building: bool, env: BeginEnv)
    requires id in w.rows && w.rows[id].status == (if building then Indexing else Mounting) && Spawnable(path, env)
    requires w.rows[id].indexPath == Some(Join(cfg.indexDir, id + ".index.sqlite")) && w.rows[id].mountPath.Some?
    requires w.rows[id].archivePath == path
    ensures StartedAs(w, Launch(w, cfg, id, path, building, building, env).0, cfg, id, path, env, building)
  {}

  lemma ProcessLeads(w: World, cfg: Config, id: Id, path: string, building: bool, env: BeginEnv)
    requires id in w.rows
    requires w.rows[id].archivePath == path
    ensures Leads(w, BeginProcess(w, cfg, id, path, building, None, env).0, cfg, id, path, env, building,
                  Enters(w.rows[id].status, building) && Spawnable(path, env))
  {
    EntersIff(w.rows[id].status, building);
    var target := if building then Indexing else Mounting;
    if CanMove(w.rows, id, target, {w.rows[id].status}) {
      ClaimedStatus(w, cfg, id, target, env);
      LaunchLeads(Claimed(w, cfg, id, target, env), cfg, id, path, building, env);
    }
  }

  lemma ClaimedStatus(w: World, cfg: Config, id: Id, target: Status, env: BeginEnv)
    requires id in w.rows && CanMove(w.rows, id, target, {w.rows[id].status})
    ensures var claimed := Claimed(w, cfg, id, target, env);
            && id in claimed.rows && claimed.rows[id].status == target && claimed.nextPid == w.nextPid
            && claimed.rows[id].archivePath == w.rows[id].archivePath
            && claimed.rows[id].indexPath == Some(Join(cfg.indexDir, id + ".index.sqlite"))
            && claimed.rows[id].mountPath == Some(Join(cfg.mountRoot, MountName(w.rows[id], id, TakenNames(w, env.dirs))))
  {}

  lemma SlotLeads(w: World, cfg: Config, id: Id, building: bool, env: BeginEnv)
    requires id in w.rows
    ensures Leads(w, StartIfSlot(w, cfg, id, building, env).0, cfg, id, w.rows[id].archivePath, env, building,
                  HasRoom(w, cfg, building) && Enters(w.rows[id].status, building)
                  && Spawnable(w.rows[id].archivePath, env))
  {
    RoomIff(w, cfg, building);
    ProcessLeads(w, cfg, id, w.rows[id].archivePath, building, env);
  }

  /** A row that holds no slot, before and after, does not matter to the room there is. */
  lemma RoomSame(w: World, w': World, cfg: Config, id: Id)
    requires id in w.rows && id in w'.rows && w'.live == w.live && w'.alive == w.alive
    requires w'.rows == w.rows[id := w'.rows[id]]
    requires w.rows[id].status !in {Indexing, Mounting} && w'.rows[id].status !in {Indexing, Mounting}
    ensures forall building :: HasRoom(w', cfg, building) == HasRoom(w, cfg, building)
  {
    assert Busy(w', Indexing) == Busy(w, Indexing) && Busy(w', Mounting) == Busy(w, Mounting);
  }

  /** A row that moves to another path, in the status that it has. */
  lemma MovedSame(w: World, cfg: Config, id: Id, path: string, basename: string, first: bool, now: Time)
    requires id in w.rows && !IsResumed(w.rows[id].status)
    ensures var status := w.rows[id].status;
            var moved := WithRows(w, id, status, {status},
                                  NO_PATCH.(archivePath := Set(path), basename := Set(basename)), now);
            && id in moved.rows && moved.rows[id].status == status && moved.rows[id].archivePath == path
            && moved.nextPid == w.nextPid
            && NeedsIndex(moved, moved.rows[id], first) == NeedsIndex(w, w.rows[id], first)
            && forall building :: HasRoom(moved, cfg, building) == HasRoom(w, cfg, building)
  {
    var status := w.rows[id].status;
    var moved := WithRows(w, id, status, {status},
                          NO_PATCH.(archivePath := Set(path), basename := Set(basename)), now);
    RoomSame(w, moved, cfg, id);
  }

  lemma FreshLeads(w: World, cfg: Config, id: Id, first: bool, building: bool, env: BeginEnv)
    requires id in w.rows && !IsResumed(w.rows[id].status) && building == NeedsIndex(w, w.rows[id], first)
    ensures Leads(w, StartFresh(w, cfg, id, first, building, env).0, cfg, id,
                  PathToStart(w.rows[id].archivePath, env), env, building,
                  HasRoom(w, cfg, building) && Enters(w.rows[id].status, building)
                  && IsTakenUp(w, id, w.rows[id].status, w.rows[id].archivePath, env))
  {
    var row := w.rows[id];
    if env.preconvert(row.archivePath) {
      ConvertSpawnsNothing(w, cfg, id, building, env);
    } else {
      match env.relocation(row.archivePath)
      case Stay => SlotLeads(w, cfg, id, building, env);
      case RelocateFailed(reason) => FailedClaimSpawnsNothing(w, cfg, id, reason, env.now);
      case MovedTo(path, basename) =>
        var moved := WithRows(w, id, row.status, {row.status},
                              NO_PATCH.(archivePath := Set(path), basename := Set(basename)), env.now);
        MovedSame(w, cfg, id, path, basename, first, env.now);
        SlotLeads(moved, cfg, id, building, env);
    }
  }

  lemma ResumeLeads(w: World, cfg: Config, id: Id, building: bool, env: BeginEnv)
    requires id in w.rows && IsResumed(w.rows[id].status)
    ensures Leads(w, Resume(w, cfg, id, building, env).0, cfg, id, w.rows[id].archivePath, env, building,
                  HasRoom(w, cfg, building) && Enters(w.rows[id].status, building)
                  && IsTakenUp(w, id, w.rows[id].status, w.rows[id].archivePath, env))
  {
    SlotLeads(w, cfg, id, building, env);
  }

  lemma DispatchLeads(w: World, cfg: Config, id: Id, first: bool, building: bool, env: BeginEnv)
    requires id in w.rows && building == NeedsIndex(w, w.rows[id], first)
    ensures Leads(w, Dispatch(w, cfg, id, first, building, env).0, cfg, id,
                  WorkPath(w.rows[id].status, w.rows[id].archivePath, env), env, building,
                  HasRoom(w, cfg, building) && Enters(w.rows[id].status, building)
                  && IsTakenUp(w, id, w.rows[id].status, w.rows[id].archivePath, env))
  {
    if IsResumed(w.rows[id].status) {
      ResumeLeads(w, cfg, id, building, env);
    } else {
      FreshLeads(w, cfg, id, first, building, env);
    }
  }

  // ---- an adopted product ----

  lemma AdoptedIs(w: World, id: Id, path: string, env: BeginEnv)
    requires id in w.rows && env.fingerprint && w.rows[id].status in {IndexFailed, MountFailed}
    requires CleanPartial(w, w.rows[id]) == w
    ensures var (adopted, ok) := CompleteConvert(w, id, path, env);
            && ok && adopted == w.(rows := adopted.rows) && id in adopted.rows
            && adopted.rows == w.rows[id := adopted.rows[id]]
            && adopted.rows[id].status == Discovered && adopted.rows[id].archivePath == path
            && adopted.rows[id].indexPath == w.rows[id].indexPath
  {}

  /** Taking up a product of a failed row: it is discovered there, and nothing else about a start changes. */
  lemma AdoptedSame(w: World, cfg: Config, id: Id, first: bool, path: string, env: BeginEnv)
    requires id in w.rows && env.fingerprint && w.rows[id].status in {IndexFailed, MountFailed}
    requires CleanPartial(w, w.rows[id]) == w
    ensures var (adopted, ok) := CompleteConvert(w, id, path, env);
            && ok && id in adopted.rows && adopted.rows[id].status == Discovered && adopted.rows[id].archivePath == path
            && adopted.nextPid == w.nextPid
            && NeedsIndex(adopted, adopted.rows[id], first) == NeedsIndex(w, w.rows[id], first)
            && forall building :: HasRoom(adopted, cfg, building) == HasRoom(w, cfg, building)
  {
    var adopted := CompleteConvert(w, id, path, env).0;
    AdoptedIs(w, id, path, env);
    RoomSame(w, adopted, cfg, id);
  }

  lemma ProductLeads(w: World, cfg: Config, id: Id, first: bool, building: bool, env: BeginEnv)
    requires id in w.rows && building == NeedsIndex(w, w.rows[id], first)
    requires CleanPartial(w, w.rows[id]) == w && HasProduct(w.rows[id], env)
    requires env.fingerprint && w.rows[id].status in {IndexFailed, MountFailed}
    ensures Leads(w, AdoptThenDispatch(w, cfg, id, first, building, env).0, cfg, id,
                  PathToStart(env.converted.value, env), env, building,
                  HasRoom(w, cfg, building) && IsTakenUp(w, id, Discovered, env.converted.value, env))
  {
    var path := env.converted.value;
    var adopted := CompleteConvert(w, id, path, env).0;
    AdoptedIs(w, id, path, env);
    AdoptedSame(w, cfg, id, first, path, env);
    DispatchLeads(adopted, cfg, id, first, building, env);
    LeadsFrom(w, adopted, Dispatch(adopted, cfg, id, first, building, env).0, cfg, id, PathToStart(path, env), env,
              building, HasRoom(w, cfg, building) && IsTakenUp(w, id, Discovered, path, env));
  }

  /** The same from a state with the same next process. */
  lemma LeadsFrom(w: World, w1: World, w2: World, cfg: Config, id: Id, path: string, env: BeginEnv, building: bool,
                  spawns: bool)
    requires Leads(w1, w2, cfg, id, path, env, building, spawns) && w1.nextPid == w.nextPid
    ensures Leads(w, w2, cfg, id, path, env, building, spawns)
  {}

  lemma AdoptLeads(w: World, cfg: Config, id: Id, first: bool, building: bool, env: BeginEnv)
    requires id in w.rows && building == NeedsIndex(w, w.rows[id], first) && w.rows[id].status != Converting
    requires CleanPartial(w, w.rows[id]) == w
    ensures Leads(w, AdoptThenDispatch(w, cfg, id, first, building, env).0, cfg, id, PathFor(w, id, env), env, building,
                  SpawnsFor(w, cfg, id, building, env))
  {
    if !HasProduct(w.rows[id], env) {
      DispatchLeads(w, cfg, id, first, building, env);
    } else if env.fingerprint && w.rows[id].status in {IndexFailed, MountFailed} {
      ProductLeads(w, cfg, id, first, building, env);
    } else {
      RejectedAdoption(w, cfg, id, first, building, env);
    }
  }

  lemma CleanTwiceIs(w: World, row: Row)
    ensures var cleaned := CleanPartial(w, row);
            && CleanPartial(cleaned, row) == cleaned && cleaned.rows == w.rows && cleaned.nextPid == w.nextPid
            && cleaned.live == w.live && cleaned.alive == w.alive && cleaned.mounts == w.mounts && cleaned.jobs == w.jobs
  {}

  lemma CleanedRoom(w: World, cfg: Config, row: Row)
    ensures forall building :: HasRoom(CleanPartial(w, row), cfg, building) == HasRoom(w, cfg, building)
  {
    var cleaned := CleanPartial(w, row);
    CleanTwiceIs(w, row);
    assert Busy(cleaned, Indexing) == Busy(w, Indexing) && Busy(cleaned, Mounting) == Busy(w, Mounting);
  }

  /** The clean-up changes nothing else that a start depends on. */
  lemma CleanedSpawns(w: World, cfg: Config, id: Id, building: bool, env: BeginEnv)
    requires id in w.rows
    ensures var cleaned := CleanPartial(w, w.rows[id]);
            && id in cleaned.rows && PathFor(cleaned, id, env) == PathFor(w, id, env)
            && SpawnsFor(cleaned, cfg, id, building, env) == SpawnsFor(w, cfg, id, building, env)
  {
    CleanTwiceIs(w, w.rows[id]);
    CleanedRoom(w, cfg, w.rows[id]);
  }

  lemma OpenStart(w: World, cfg: Config, id: Id, firstIndex: Option<bool>, env: BeginEnv)
    requires id in w.rows && id !in w.jobs && w.rows[id].status != Converting
    ensures var building := BuildsIndex(w, w.rows[id], firstIndex);
            Leads(w, BeginMount(w, cfg, id, firstIndex, env).0, cfg, id, PathFor(w, id, env), env, building,
                  SpawnsFor(w, cfg, id, building, env))
  {
    var row := w.rows[id];
    var cleaned := CleanPartial(w, row);
    var first := firstIndex.GetOr(row.firstMountedAt.None?);
    var building := NeedsIndex(cleaned, row, first);
    CleanTwiceIs(w, row);
    NeedsIndexIff(w, row, first);
    assert building == BuildsIndex(w, row, firstIndex);
    CleanedSpawns(w, cfg, id, building, env);
    StartIsAdoption(w, cfg, id, firstIndex, env, cleaned, first);
    AdoptLeads(cleaned, cfg, id, first, building, env);
    LeadsFrom(w, cleaned, BeginMount(w, cfg, id, firstIndex, env).0, cfg, id, PathFor(w, id, env), env, building,
              SpawnsFor(w, cfg, id, building, env));
  }

  // ---- the theorem ----

  /** A start spawns a process if and only if everything it depends on agrees. The process builds the index
      if and only if it is told to or there is no index file that is not empty, once a partial one is
      deleted; otherwise it mounts. The row shows which. */
  lemma StartOutcome(w: World, cfg: Config, id: Id, firstIndex: Option<bool>, env: BeginEnv)
    ensures Leads(w, BeginMount(w, cfg, id, firstIndex, env).0, cfg, id, PathFor(w, id, env), env,
                  id in w.rows && BuildsIndex(w, w.rows[id], firstIndex), Spawns(w, cfg, id, firstIndex, env))
  {
    if id in w.rows && id !in w.jobs && w.rows[id].status != Converting {
      OpenStart(w, cfg, id, firstIndex, env);
    } else {
      ShutStart(w, cfg, id, firstIndex, env);
    }
  }

  lemma ShutStart(w: World, cfg: Config, id: Id, firstIndex: Option<bool>, env: BeginEnv)
    requires id !in w.rows || id in w.jobs || w.rows[id].status == Converting
    ensures BeginMount(w, cfg, id, firstIndex, env).0.nextPid == w.nextPid
  {}

  // ---- conversions ----

  /** The status table leads to converting. */
  predicate EntersConverting(status: Status) {
    status in {Discovered, MountFailed, Unmounting}
  }

  predicate IsConverted(status: Status, path: string, jobs: nat, cfg: Config, env: BeginEnv) {
    && EntersConverting(status) && env.preconvert(path) && env.sourceIsFile
    && (cfg.maxConvert <= 0 || jobs < cfg.maxConvert)
  }

  /** Everything that a conversion depends on agrees. */
  predicate Queues(w: World, cfg: Config, id: Id, env: BeginEnv) {
    && id in w.rows && w.rows[id].status != Converting
    && if HasProduct(w.rows[id], env) then
         && env.fingerprint && w.rows[id].status in {IndexFailed, MountFailed}
         && IsConverted(Discovered, env.converted.value, |w.jobs|, cfg, env)
       else IsConverted(w.rows[id].status, w.rows[id].archivePath, |w.jobs|, cfg, env)
  }

  /** A job is in flight for the archive, and its row is converting without a process. */
  ghost predicate Queued(w': World, id: Id, path: string, building: bool) {
    && id in w'.jobs && w'.jobs[id] == Job(path, building, InFlight)
    && id in w'.rows && w'.rows[id].status == Converting && w'.rows[id].mountPid == None && w'.rows[id].lastError == None
    && w'.rows[id].archivePath == path
  }

  ghost predicate QueuesAs(w': World, id: Id, path: string, building: bool, queues: bool) {
    if queues then Queued(w', id, path, building) else id !in w'.jobs
  }

  lemma FailedClaimQueuesNothing(w: World, cfg: Config, id: Id, reason: string, now: Time)
    requires id in w.rows
    ensures FailConvertClaim(w, cfg, id, reason, now).jobs == w.jobs
  {}

  lemma ConvertQueues(w: World, cfg: Config, id: Id, building: bool, env: BeginEnv)
    requires id in w.rows && id !in w.jobs && w.rows[id].status != Converting
    ensures QueuesAs(BeginConvert(w, cfg, id, building, env).0, id, w.rows[id].archivePath, building,
                     EntersConverting(w.rows[id].status) && env.sourceIsFile)
  {
    FailedClaimQueuesNothing(w, cfg, id, "archive not found: " + w.rows[id].archivePath, env.now);
    ConvertingIff(w.rows[id].status);
  }

  lemma ConvertingIff(status: Status)
    ensures status != Converting ==> (EntersConverting(status) <==> ValidTransition(status, Converting))
  {}

  lemma LaunchQueuesNothing(w: World, cfg: Config, id: Id, path: string, building: bool, env: BeginEnv)
    requires id in w.rows
    ensures Launch(w, cfg, id, path, building, building, env).0.jobs == w.jobs
  {}

  lemma SlotQueuesNothing(w: World, cfg: Config, id: Id, building: bool, env: BeginEnv)
    requires id in w.rows
    ensures StartIfSlot(w, cfg, id, building, env).0.jobs == w.jobs
  {
    LaunchQueuesNothing(Claimed(w, cfg, id, if building then Indexing else Mounting, env), cfg, id,
                        w.rows[id].archivePath, building, env);
  }

  lemma FreshQueues(w: World, cfg: Config, id: Id, first: bool, building: bool, env: BeginEnv)
    requires id in w.rows && id !in w.jobs && w.rows[id].status != Converting && !IsResumed(w.rows[id].status)
    ensures QueuesAs(StartFresh(w, cfg, id, first, building, env).0, id, w.rows[id].archivePath, building,
                     IsConverted(w.rows[id].status, w.rows[id].archivePath, |w.jobs|, cfg, env))
  {
    var row := w.rows[id];
    if env.preconvert(row.archivePath) {
      ConvertQueues(w, cfg, id, building, env);
    } else {
      match env.relocation(row.archivePath)
      case Stay => SlotQueuesNothing(w, cfg, id, building, env);
      case RelocateFailed(reason) => FailedClaimQueuesNothing(w, cfg, id, reason, env.now);
      case MovedTo(path, basename) =>
        var moved := WithRows(w, id, row.status, {row.status},
                              NO_PATCH.(archivePath := Set(path), basename := Set(basename)), env.now);
        SlotQueuesNothing(moved, cfg, id, NeedsIndex(moved, moved.rows[id], first), env);
    }
  }

  lemma DispatchQueues(w: World, cfg: Config, id: Id, first: bool, building: bool, env: BeginEnv)
    requires id in w.rows && id !in w.jobs && w.rows[id].status != Converting
    ensures QueuesAs(Dispatch(w, cfg, id, first, building, env).0, id, w.rows[id].archivePath, building,
                     IsConverted(w.rows[id].status, w.rows[id].archivePath, |w.jobs|, cfg, env))
  {
    if IsResumed(w.rows[id].status) {
      SlotQueuesNothing(w, cfg, id, building, env);
    } else {
      FreshQueues(w, cfg, id, first, building, env);
    }
  }

  lemma AdoptQueues(w: World, cfg: Config, id: Id, first: bool, building: bool, env: BeginEnv)
    requires id in w.rows && id !in w.jobs && w.rows[id].status != Converting
    requires CleanPartial(w, w.rows[id]) == w && HasProduct(w.rows[id], env)
    ensures QueuesAs(AdoptThenDispatch(w, cfg, id, first, building, env).0, id, env.converted.value, building,
                     Queues(w, cfg, id, env))
  {
    var path := env.converted.value;
    if env.fingerprint && w.rows[id].status in {IndexFailed, MountFailed} {
      AdoptedIs(w, id, path, env);
      DispatchQueues(CompleteConvert(w, id, path, env).0, cfg, id, first, building, env);
    } else {
      RejectedAdoption(w, cfg, id, first, building, env);
    }
  }

  /** A start queues a conversion if and only if the archive has to be converted, its source is there, the
      conversions have room, and the status leads to converting; the index that it is for is the same. */
  lemma QueueOutcome(w: World, cfg: Config, id: Id, firstIndex: Option<bool>, env: BeginEnv)
    requires id in w.rows && id !in w.jobs
    ensures var row := w.rows[id];
            QueuesAs(BeginMount(w, cfg, id, firstIndex, env).0, id,
                     if HasProduct(row, env) then env.converted.value else row.archivePath,
                     BuildsIndex(w, row, firstIndex), Queues(w, cfg, id, env))
  {
    var row := w.rows[id];
    var cleaned := CleanPartial(w, row);
    var first := firstIndex.GetOr(row.firstMountedAt.None?);
    CleanTwiceIs(w, row);
    if row.status != Converting {
      NeedsIndexIff(w, row, first);
      StartIsAdoption(w, cfg, id, firstIndex, env, cleaned, first);
      if HasProduct(row, env) {
        AdoptQueues(cleaned, cfg, id, first, NeedsIndex(cleaned, row, first), env);
      } else {
        DispatchQueues(cleaned, cfg, id, first, NeedsIndex(cleaned, row, first), env);
      }
    }
  }

  // ---- conversions that have finished ----

  /** The row with a product taken up. */
  function WithProduct(r: Row, id: Id, path: string, env: BeginEnv): Row {
    r.(status := Discovered, archivePath := path, basename := env.convertedBasename, lastError := None,
       mountPath := if ForgetsName(r, id, env.convertedBasename) then None else r.mountPath)
  }

  /** The state with a finished job gone and its product taken up. */
  function WithProductUp(w: World, id: Id, path: string, env: BeginEnv): World
    requires id in w.rows
  {
    w.(jobs := w.jobs - {id}, rows := w.rows[id := WithProduct(w.rows[id], id, path, env)],
       indexes := if LosesIndex(w, w.rows[id]) then w.indexes - {w.rows[id].indexPath.value} else w.indexes)
  }

  lemma ProductIsUp(w: World, id: Id, path: string, env: BeginEnv)
    requires id in w.rows && env.fingerprint && w.rows[id].status in {Converting, IndexFailed, MountFailed}
    ensures CompleteConvert(w.(jobs := w.jobs - {id}), id, path, env) == (WithProductUp(w, id, path, env), true)
  {
    var removed := w.(jobs := w.jobs - {id});
    CleanedIs(removed, w.rows[id]);
    AdoptedRow(removed, id, path, env);
    CompleteConvertIff(removed, id, path, env);
    AdoptedRest(removed, id, path, env);
  }

  lemma CleanedIs(w: World, row: Row)
    ensures CleanPartial(w, row) ==
            w.(indexes := if LosesIndex(w, row) then w.indexes - {row.indexPath.value} else w.indexes)
  {
    DeletableIff(w, row);
  }

  lemma AdoptedRest(w: World, id: Id, path: string, env: BeginEnv)
    requires id in w.rows && env.fingerprint && w.rows[id].status in {Converting, IndexFailed, MountFailed}
    ensures var cleaned, adopted := CleanPartial(w, w.rows[id]), CompleteConvert(w, id, path, env).0;
            && id in adopted.rows && adopted == cleaned.(rows := adopted.rows)
            && adopted.rows == w.rows[id := adopted.rows[id]]
  {}

  /** When a conversion has succeeded and its product can be taken up, the poll is a start of the row that is
      discovered there, for the index that the job was for. */
  lemma PollStarts(w: World, cfg: Config, id: Id, env: BeginEnv)
    requires id in w.rows && w.rows[id].status in {Converting, IndexFailed, MountFailed}
    requires id in w.jobs && w.jobs[id].state.JobDone? && env.fingerprint
    ensures var first := Some(w.jobs[id].needsIndex);
            var w1 := WithProductUp(w, id, ProductPath(w.jobs[id]), env);
            Leads(w, PollOne(w, cfg, id, env), cfg, id, PathFor(w1, id, env), env,
                  BuildsIndex(w1, w1.rows[id], first), Spawns(w1, cfg, id, first, env))
  {
    var path, first := ProductPath(w.jobs[id]), Some(w.jobs[id].needsIndex);
    var w1 := WithProductUp(w, id, path, env);
    ProductIsUp(w, id, path, env);
    PollIsStart(w, cfg, id, env, w1);
    StartOutcome(w1, cfg, id, first, env);
    LeadsFrom(w, w1, PollOne(w, cfg, id, env), cfg, id, PathFor(w1, id, env), env, BuildsIndex(w1, w1.rows[id], first),
              Spawns(w1, cfg, id, first, env));
  }

  lemma PollIsStart(w: World, cfg: Config, id: Id, env: BeginEnv, w1: World)
    requires id in w.rows && id in w.jobs && w.jobs[id].state.JobDone?
    requires CompleteConvert(w.(jobs := w.jobs - {id}), id, ProductPath(w.jobs[id]), env) == (w1, true)
    ensures PollOne(w, cfg, id, env) == BeginMount(w1, cfg, id, Some(w.jobs[id].needsIndex), env).0
  {}

  /** The status table leads to the failure. */
  predicate CanFail(row: Row) {
    if row.firstMountedAt.None? then row.status in {Converting, Indexing, IndexFailed}
    else row.status in {Converting, Indexing, Mounting, MountFailed, Mounted, HooksRunning, Unmounting}
  }

  /** When it has not, or its product cannot be taken up, the failure is booked if the table has a way. */
  lemma PollFails(w: World, cfg: Config, id: Id, env: BeginEnv)
    requires id in w.rows && id in w.jobs && w.jobs[id].state != InFlight
    requires w.jobs[id].state.JobDone? ==>
               !(env.fingerprint && w.rows[id].status in {Converting, IndexFailed, MountFailed})
    ensures var r, w' := w.rows[id], PollOne(w, cfg, id, env);
            && w'.jobs == w.jobs - {id} && w'.live == w.live && w'.nextPid == w.nextPid
            && id in w'.rows && w'.rows[id] ==
                 if CanFail(r) then
                   r.(status := if r.firstMountedAt.None? then IndexFailed else MountFailed, mountPid := None,
                      mountAttempts := r.mountAttempts + 1,
                      mountRetryable := cfg.maxAttempts >= 1 && r.mountAttempts + 1 < cfg.maxAttempts,
                      lastError := Some(if w.jobs[id].state.JobFailed? then w.jobs[id].state.error
                                        else POST_CONVERT_FAILED))
                 else r
  {
    var job, removed := w.jobs[id], w.(jobs := w.jobs - {id});
    CanFailIff(w.rows[id]);
    if job.state.JobDone? {
      CompleteConvertIff(removed, id, ProductPath(job), env);
      CleanTwiceIs(removed, w.rows[id]);
    }
  }

  lemma CanFailIff(row: Row)
    ensures CanFail(row) <==> ValidTransition(row.status, if row.firstMountedAt.None? then IndexFailed else MountFailed)
  {}

  /** A job that is still in flight is left alone. */
  lemma PollWaits(w: World, cfg: Config, id: Id, env: BeginEnv)
    requires id !in w.jobs || w.jobs[id].state == InFlight
    ensures PollOne(w, cfg, id, env) == w
  {}
}
