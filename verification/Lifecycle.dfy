/** What one step of the engine does to the whole state of the daemon (internal/mounter/engine.go,
    internal/mounter/engine_jobs.go, internal/mounter/index.go). */
module Lifecycle {
  import opened ArchiveStore
  import opened MountNames
  import opened NestedSkips
  import opened Options
  import opened PathLex
  import opened Statuses
  import opened Strings

  datatype Phase = IndexOnly | MountPhase

  /** An entry of the live registry. */
  datatype Managed = Managed(
    pid: nat, archivePath: string, indexPath: string, mountPath: string,
    isFirstIndex: bool, phase: Phase, skips: seq<string>)

  datatype JobState = InFlight | JobFailed(error: string) | JobDone(resultPath: string)

  datatype Job = Job(sourcePath: string, needsIndex: bool, state: JobState)

  datatype Config = Config(
    mountRoot: string, indexDir: string,
    maxIndex: int, maxMount: int, maxConvert: int, maxAttempts: int)

  /** The store, the live registry, the convert jobs, and the parts of the machine they depend on: the
      sizes of the index files, the index files that cannot be removed, the FUSE mounts, the live
      processes, the mount paths on the command lines of the processes started so far, and the next
      process id. Process ids are not reused. */
  datatype World = World(
    rows: Rows, live: map<Id, Managed>, jobs: map<Id, Job>,
    indexes: map<string, nat>, sticky: set<string>, mounts: set<string>, alive: set<nat>,
    paths: map<nat, string>, nextPid: nat)

  // ---- index files ----

  predicate Blank(s: string) {
    forall i :: 0 <= i < |s| ==> IsSpace(s[i])
  }

  /** IndexFileReady. */
  predicate IndexReady(w: World, path: string) {
    !Blank(path) && path in w.indexes && w.indexes[path] > 0
  }

  /** ResolveNeedsIndex. */
  predicate NeedsIndex(w: World, row: Row, first: bool) {
    !IndexReady(w, row.indexPath.GetOr("")) || first
  }

  /** ShouldDeletePartialIndex. */
  predicate IsPartial(row: Row) {
    && row.firstMountedAt.None?
    && !Blank(row.indexPath.GetOr(""))
    && (row.status == Indexing || row.status == IndexFailed || row.status == Discovered || row.status == MountFailed)
  }

  predicate CanDelete(w: World, path: string) {
    !Blank(path) && path in w.indexes && path !in w.sticky
  }

  /** DeleteIndexFile. */
  function DeleteIndex(w: World, path: string): World {
    if CanDelete(w, path) then w.(indexes := w.indexes - {path}) else w
  }

  /** ApplyPartialIndexCleanup. */
  function CleanPartial(w: World, row: Row): World {
    if IsPartial(row) then DeleteIndex(w, row.indexPath.GetOr("")) else w
  }

  // ---- slots and limits ----

  /** holdsIndexSlot and holdsMountSlot. */
  predicate Holds(w: World, id: Id, status: Status) {
    && id in w.rows
    && w.rows[id].status == status
    && (id in w.live || (w.rows[id].mountPid.Some? && w.rows[id].mountPid.value in w.alive))
  }

  function SlotSet(w: World, status: Status): set<Id> {
    set id | id in w.rows && Holds(w, id, status)
  }

  /** ActiveIndexCount and ActiveMountCount. */
  function Slots(w: World, status: Status): nat {
    |SlotSet(w, status)|
  }

  predicate LimitReached(active: int, limit: int) {
    limit > 0 && active >= limit
  }

  // ---- failure bookkeeping ----

  /** NextMountAttempt. */
  function NextMountAttempt(attempts: int, maxAttempts: int): (int, bool) {
    (attempts + 1, maxAttempts >= 1 && attempts + 1 < maxAttempts)
  }

  function FailPatch(row: Row, maxAttempts: int, reason: string): Patch {
    var (attempts, retryable) := NextMountAttempt(row.mountAttempts, maxAttempts);
    CLEAR_PID.(mountAttempts := Set(attempts), mountRetryable := Set(retryable), lastError := Set(Some(reason)))
  }

  function WithRows(w: World, id: Id, to: Status, expected: set<Status>, patch: Patch, now: Time): World {
    w.(rows := Move(w.rows, id, to, expected, patch, now))
  }

  /** failStart. */
  function FailStart(w: World, cfg: Config, id: Id, indexPhase: bool, reason: string, now: Time): World
    requires id in w.rows
  {
    var failed := if indexPhase then IndexFailed else MountFailed;
    WithRows(w, id, failed, {w.rows[id].status, Indexing, Mounting, failed},
             FailPatch(w.rows[id], cfg.maxAttempts, reason), now)
  }

  // ---- mount names ----

  predicate HasMountPath(row: Row) {
    row.mountPath.Some? && row.mountPath.value != ""
  }

  function StoredNames(w: World): set<string> {
    set id | id in w.rows && HasMountPath(w.rows[id]) :: Base(w.rows[id].mountPath.value)
  }

  /** TakenMountNames: visible directories under mount_root, and the names of stored mount paths. */
  function TakenNames(w: World, dirs: set<string>): set<string> {
    (set d | d in dirs && d != "" && d[0] != '.') + StoredNames(w)
  }

  /** The name a row mounts under, once mountNameForRec and RequestFromConfig have both spoken: the
      row's own stored name does not stand in its way. */
  function MountName(row: Row, id: Id, taken: set<string>): string {
    Allocate(row.basename, id, if HasMountPath(row) then taken - {Base(row.mountPath.value)} else taken)
  }

  // ---- starting ratarmount ----

  datatype Relocation = Stay | MovedTo(path: string, basename: string) | RelocateFailed(reason: string)

  datatype OuterCache = Resolved(path: string) | CacheFailed(reason: string)

  /** What the machine answers while one archive is being started. */
  datatype BeginEnv = BeginEnv(
    now: Time,
    dirs: set<string>,                    // directories under mount_root
    converted: Option<string>,            // an existing conversion product
    fingerprint: bool,                    // the product can be fingerprinted, and no other row has its path
    convertedBasename: string,            // the basename kept for the product
    preconvert: string -> bool,           // ShouldPreconvert
    sourceIsFile: bool,                   // the source of a conversion is a regular file
    relocation: string -> Relocation,     // ShouldRelocate and its outcome
    outer: string -> OuterCache,          // the outer cache copy
    pathError: Option<string>,            // EnginePathsAllowed
    staleHolders: set<nat>,               // stale processes on the mount path
    spawnError: Option<string>)

  datatype Begun = Nothing | Started(managed: Managed) | Err(reason: string)

  const INDEX_SUFFIX := ".index.sqlite"

  function IndexPathFor(cfg: Config, id: Id): string {
    Join(cfg.indexDir, id + INDEX_SUFFIX)
  }

  function PathPatch(indexPath: string, mountPath: string): Patch {
    NO_PATCH.(indexPath := Set(Some(indexPath)), mountPath := Set(Some(mountPath)))
  }

  /** The child is spawned under a fresh pid, registered, and its pid stored. */
  function Spawned(w: World, id: Id, target: Status, managed: Managed, now: Time): World {
    var patch := PathPatch(managed.indexPath, managed.mountPath).(mountPid := Set(Some(managed.pid)));
    WithRows(w.(live := w.live[id := managed], alive := w.alive + {managed.pid},
                paths := w.paths[managed.pid := managed.mountPath], nextPid := w.nextPid + 1),
             id, target, {target}, patch, now)
  }

  /** The claim: the target status, the index path and the mount path. */
  function Claimed(w: World, cfg: Config, id: Id, target: Status, env: BeginEnv): World
    requires id in w.rows
  {
    var name := MountName(w.rows[id], id, TakenNames(w, env.dirs));
    WithRows(w, id, target, {w.rows[id].status}, PathPatch(IndexPathFor(cfg, id), Join(cfg.mountRoot, name)), env.now)
  }

  /** What follows a claim: the checks that can fail the start, and the spawn. */
  function Launch(w: World, cfg: Config, id: Id, archivePath: string, needsIndex: bool, useIndexOnly: bool,
                  env: BeginEnv): (World, Begun)
    requires id in w.rows
  {
    match env.outer(archivePath)
    case CacheFailed(reason) => (FailStart(w, cfg, id, useIndexOnly, reason, env.now), Err(reason))
    case Resolved(path) =>
      if env.pathError.Some? then
        (FailStart(w, cfg, id, useIndexOnly, env.pathError.value, env.now), Err(env.pathError.value))
      else
        var cleared := if useIndexOnly then w else w.(alive := w.alive - env.staleHolders);
        if env.spawnError.Some? then
          (FailStart(cleared, cfg, id, useIndexOnly, env.spawnError.value, env.now), Err(env.spawnError.value))
        else
          var row := w.rows[id];
          var managed := Managed(w.nextPid, path, row.indexPath.GetOr(""), row.mountPath.GetOr(""), needsIndex,
                                 if useIndexOnly then IndexOnly else MountPhase, []);
          (Spawned(cleared, id, if useIndexOnly then Indexing else Mounting, managed, env.now), Started(managed))
  }

  /** beginMountProcess. */
  function BeginProcess(w: World, cfg: Config, id: Id, archivePath: string, needsIndex: bool,
                        indexOnly: Option<bool>, env: BeginEnv): (World, Begun)
    requires id in w.rows
  {
    var useIndexOnly := indexOnly.GetOr(needsIndex);
    var target := if useIndexOnly then Indexing else Mounting;
    if !CanMove(w.rows, id, target, {w.rows[id].status}) then (w, Err("transition rejected"))
    else Launch(Claimed(w, cfg, id, target, env), cfg, id, archivePath, needsIndex, useIndexOnly, env)
  }

  // ---- conversions ----

  /** failConvertClaim: by way of indexing when a discovered row cannot fail directly, and as a field-only
      patch when no edge leads to the failure status. */
  function FailConvertClaim(w: World, cfg: Config, id: Id, reason: string, now: Time): World
    requires id in w.rows
  {
    var row := w.rows[id];
    var failed := if row.firstMountedAt.None? then IndexFailed else MountFailed;
    var patch := FailPatch(row, cfg.maxAttempts, reason);
    var mid := if row.status == Discovered && failed == IndexFailed
               then WithRows(w, id, Indexing, {Discovered}, NO_PATCH.(lastError := Set(Some(reason))), now)
               else w;
    var status := mid.rows[id].status;
    if CanMove(mid.rows, id, failed, {status}) then WithRows(mid, id, failed, {status}, patch, now)
    else WithRows(mid, id, status, {status}, patch, now)
  }

  /** beginConvertAsync. */
  function BeginConvert(w: World, cfg: Config, id: Id, needsIndex: bool, env: BeginEnv): (World, Begun)
    requires id in w.rows
  {
    var row := w.rows[id];
    if !env.sourceIsFile then
      (FailConvertClaim(w, cfg, id, "archive not found: " + row.archivePath, env.now), Err("archive not found"))
    else if !CanMove(w.rows, id, Converting, {row.status}) then (w, Err("transition rejected"))
    else
      var claimed := WithRows(w, id, Converting, {row.status}, CLEAR_PID.(lastError := Set(None)), env.now);
      (claimed.(jobs := claimed.jobs[id := Job(row.archivePath, needsIndex, InFlight)]), Nothing)
  }

  const POST_CONVERT := {Converting, MountFailed, IndexFailed}

  /** The mount path of a row is stale when it is not the name its basename stands for. */
  predicate StalePath(row: Row, id: Id, basename: string) {
    row.mountPath.Some? && !Blank(row.mountPath.value) && Base(row.mountPath.value) != Allocate(basename, id, {})
  }

  /** What taking up a conversion product stores. */
  function ProductPatch(row: Row, id: Id, resultPath: string, basename: string): Patch {
    NO_PATCH.(archivePath := Set(resultPath), basename := Set(basename), lastError := Set(None),
              mountPath := if StalePath(row, id, basename) then Set(None) else Keep)
  }

  /** completeConvertSuccess: whether it succeeded, and the world it leaves either way. */
  function CompleteConvert(w: World, id: Id, resultPath: string, env: BeginEnv): (World, bool)
    requires id in w.rows
  {
    var row := w.rows[id];
    var cleaned := CleanPartial(w, row);
    if env.fingerprint && CanMove(cleaned.rows, id, Discovered, POST_CONVERT)
    then (WithRows(cleaned, id, Discovered, POST_CONVERT,
                   ProductPatch(row, id, resultPath, env.convertedBasename), env.now), true)
    else (cleaned, false)
  }

  // ---- BeginMount ----

  /** The limit of the slot a start would take. */
  predicate SlotFull(w: World, cfg: Config, needsIndex: bool) {
    if needsIndex then LimitReached(Slots(w, Indexing), cfg.maxIndex)
    else LimitReached(Slots(w, Mounting), cfg.maxMount)
  }

  function StartIfSlot(w: World, cfg: Config, id: Id, needsIndex: bool, env: BeginEnv): (World, Begun)
    requires id in w.rows
  {
    if SlotFull(w, cfg, needsIndex) then (w, Nothing)
    else BeginProcess(w, cfg, id, w.rows[id].archivePath, needsIndex, None, env)
  }

  /** The branch for a row that is already indexing, mounting or running hooks. */
  function Resume(w: World, cfg: Config, id: Id, needsIndex: bool, env: BeginEnv): (World, Begun)
    requires id in w.rows
  {
    var row := w.rows[id];
    if id in w.live then (w, Started(w.live[id]))
    else if && row.mountPid.Some? && row.mountPid.value in w.alive
            && HasMountPath(row) && row.mountPath.value in w.mounts
    then (w, Nothing)
    else StartIfSlot(w, cfg, id, needsIndex, env)
  }

  /** The branch for a row that is not in progress: convert, relocate, or start. */
  function StartFresh(w: World, cfg: Config, id: Id, first: bool, needsIndex: bool, env: BeginEnv): (World, Begun)
    requires id in w.rows
  {
    var row := w.rows[id];
    if env.preconvert(row.archivePath) then
      if LimitReached(|w.jobs|, cfg.maxConvert) then (w, Nothing)
      else BeginConvert(w, cfg, id, needsIndex, env)
    else
      match env.relocation(row.archivePath)
      case Stay => StartIfSlot(w, cfg, id, needsIndex, env)
      case RelocateFailed(reason) => (FailConvertClaim(w, cfg, id, reason, env.now), Err(reason))
      case MovedTo(path, basename) =>
        var moved := WithRows(w, id, row.status, {row.status},
                              NO_PATCH.(archivePath := Set(path), basename := Set(basename)), env.now);
        StartIfSlot(moved, cfg, id, NeedsIndex(moved, moved.rows[id], first), env)
  }

  /** The rest of BeginMount, after any conversion product has been adopted. */
  function Dispatch(w: World, cfg: Config, id: Id, first: bool, needsIndex: bool, env: BeginEnv): (World, Begun)
    requires id in w.rows
  {
    var status := w.rows[id].status;
    if status == Indexing || status == Mounting || status == HooksRunning
    then Resume(w, cfg, id, needsIndex, env)
    else StartFresh(w, cfg, id, first, needsIndex, env)
  }

  /** Adopting an existing conversion product before going on. */
  function AdoptThenDispatch(w: World, cfg: Config, id: Id, first: bool, needsIndex: bool, env: BeginEnv): (World, Begun)
    requires id in w.rows
  {
    if env.converted.Some? && w.rows[id].archivePath != env.converted.value then
      var (adopted, ok) := CompleteConvert(w, id, env.converted.value, env);
      if ok then Dispatch(adopted, cfg, id, first, needsIndex, env) else (adopted, Nothing)
    else Dispatch(w, cfg, id, first, needsIndex, env)
  }

  /** BeginMount. The first-index flag is inferred from the row when it is not given. */
  function BeginMount(w: World, cfg: Config, id: Id, firstIndex: Option<bool>, env: BeginEnv): (World, Begun) {
    if id !in w.rows then (w, Err("not found"))
    else
      var row := w.rows[id];
      var cleaned := CleanPartial(w, row);
      var first := firstIndex.GetOr(row.firstMountedAt.None?);
      if row.status == Converting || id in w.jobs then (cleaned, Nothing)
      else AdoptThenDispatch(cleaned, cfg, id, first, NeedsIndex(cleaned, row, first), env)
  }

  // ---- polling live children ----

  datatype ChildStatus = ChildRunning | ChildIndexComplete | ChildMounted | ChildExited | ChildUnknown

  /** CheckChild. */
  function CheckChild(w: World, id: Id): ChildStatus {
    if id !in w.live then ChildUnknown
    else
      var m := w.live[id];
      if m.phase == IndexOnly then
        if m.pid in w.alive then ChildRunning
        else if IndexReady(w, m.indexPath) then ChildIndexComplete
        else ChildExited
      else if m.mountPath in w.mounts then
        if IndexReady(w, m.indexPath) then ChildMounted else ChildRunning
      else if m.pid in w.alive then ChildRunning
      else ChildExited
  }

  function DropLive(w: World, id: Id): World {
    w.(live := w.live - {id})
  }

  /** What the end of the index phase stores: its index path, and its skips as an advisory. */
  function IndexedPatch(m: Managed): Patch {
    var sum := Format(m.skips, DEFAULT_SAMPLES);
    NO_PATCH.(indexPath := Set(Some(m.indexPath)), lastError := if sum != "" then Set(Some(sum)) else Keep)
  }

  /** The mount phase that follows a finished index phase; it inherits the skips noted so far. */
  function StartMountPhase(w: World, cfg: Config, id: Id, m: Managed, env: BeginEnv): (World, Begun)
    requires id in w.rows
  {
    var (next, begun) := BeginProcess(w, cfg, id, m.archivePath, false, Some(false), env);
    if begun.Started? then
      var carried := begun.managed.(skips := Carried(m.skips));
      (next.(live := next.live[id := carried]), Started(carried))
    else (next, begun)
  }

  /** The end of a child's index phase: the child is gone, and the claim moves on to mounting. */
  function IndexDone(w: World, id: Id, now: Time): World
    requires id in w.live
  {
    var m := w.live[id];
    WithRows(DropLive(w, id).(alive := w.alive - {m.pid}), id, Mounting, {Indexing}, IndexedPatch(m), now)
  }

  /** CompleteIndexAndStartMount. */
  function CompleteIndex(w: World, cfg: Config, id: Id, env: BeginEnv): (World, Begun) {
    if id !in w.live || w.live[id].phase != IndexOnly || id !in w.rows
       || !IndexReady(w, w.live[id].indexPath)
    then (w, Err("complete_index rejected"))
    else
      if !CanMove(w.rows, id, Mounting, {Indexing}) then (IndexDone(w, id, env.now), Err("transition rejected"))
      else StartMountPhase(IndexDone(w, id, env.now), cfg, id, w.live[id], env)
  }

  /** NoteNestedSkip drops empty paths. */
  function Carried(skips: seq<string>): seq<string> {
    if skips == [] then []
    else if skips[0] == "" then Carried(skips[1..])
    else [skips[0]] + Carried(skips[1..])
  }

  /** MarkMounted: last_error keeps fresh skips, or else a stored pure advisory; the live entry stays. */
  function MarkMounted(w: World, id: Id, now: Time): (World, bool) {
    if id !in w.rows then (w, false)
    else
      var row := w.rows[id];
      var kept := if row.lastError.Some? && IsSkipOnly(row.lastError.value) then row.lastError else None;
      var sum := if id in w.live then Format(w.live[id].skips, DEFAULT_SAMPLES) else "";
      var patch := NO_PATCH.(lastError := Set(if sum != "" then Some(sum) else kept),
                             mountPid := if id in w.live then Set(Some(w.live[id].pid)) else Keep);
      var expected := {Indexing, Mounting, Mounted};
      (WithRows(w, id, Mounted, expected, patch, now), CanMove(w.rows, id, Mounted, expected))
  }

  /** The index file a failure is about. */
  function FailedIndexPath(w: World, id: Id): string
    requires id in w.rows
  {
    if id in w.live && w.live[id].indexPath != "" then w.live[id].indexPath else w.rows[id].indexPath.GetOr("")
  }

  predicate InIndexPhase(w: World, id: Id) {
    id in w.live && w.live[id].phase == IndexOnly
  }

  /** A failure deletes the index when it was being built, or is not usable. */
  predicate IndexIsBad(w: World, id: Id)
    requires id in w.rows
  {
    InIndexPhase(w, id) || !IndexReady(w, FailedIndexPath(w, id))
  }

  function FailureText(w: World, id: Id, reason: string): string {
    if id in w.live then Enrich(reason, w.live[id].skips) else reason
  }

  function FailedPatch(row: Row, maxAttempts: int, text: string, bad: bool): Patch {
    FailPatch(row, maxAttempts, text).(indexPath := if bad then Set(None) else Keep)
  }

  /** What a failure takes away before it is stored: a bad index, and the live entry. */
  function Discarded(w: World, id: Id): World
    requires id in w.rows
  {
    DropLive(if IndexIsBad(w, id) then DeleteIndex(w, FailedIndexPath(w, id)) else w, id)
  }

  /** MarkFailed. */
  function MarkFailed(w: World, cfg: Config, id: Id, reason: string, now: Time): (World, bool) {
    if id !in w.rows then (w, false)
    else
      var failed := if InIndexPhase(w, id) then IndexFailed else MountFailed;
      var patch := FailedPatch(w.rows[id], cfg.maxAttempts, FailureText(w, id, reason), IndexIsBad(w, id));
      var expected := {Indexing, Mounting, failed};
      (WithRows(Discarded(w, id), id, failed, expected, patch, now), CanMove(w.rows, id, failed, expected))
  }

  const MOUNT_START_FAILED := "index build complete but mount start failed: "
  const EXITED_EARLY := "ratarmount exited before mount ready"

  /** ProgressLive, for one live entry. */
  function ProgressOne(w: World, cfg: Config, id: Id, env: BeginEnv): World {
    match CheckChild(w, id)
    case ChildIndexComplete =>
      var (next, begun) := CompleteIndex(w, cfg, id, env);
      if begun.Err? then MarkFailed(next, cfg, id, MOUNT_START_FAILED + begun.reason, env.now).0 else next
    case ChildMounted => MarkMounted(w, id, env.now).0
    case ChildExited => MarkFailed(w, cfg, id, EXITED_EARLY, env.now).0
    case _ => w
  }

  // ---- polling conversions ----

  const POST_CONVERT_FAILED := "post-convert transition failed"

  /** What becomes of the archive of a finished job. */
  function FinishJob(w: World, cfg: Config, id: Id, job: Job, env: BeginEnv): World
    requires id in w.rows && job.state != InFlight
  {
    match job.state
    case JobFailed(error) => FailJob(w, cfg, id, error, env.now)
    case JobDone(resultPath) =>
      var (done, ok) := CompleteConvert(w, id, if resultPath == "" then job.sourcePath else resultPath, env);
      if ok then BeginMount(done, cfg, id, Some(job.needsIndex), env).0
      else FailJob(done, cfg, id, POST_CONVERT_FAILED, env.now)
  }

  /** PollConvert, for one job. */
  function PollOne(w: World, cfg: Config, id: Id, env: BeginEnv): World {
    if id !in w.jobs || w.jobs[id].state == InFlight then w
    else
      var removed := w.(jobs := w.jobs - {id});
      if id in w.rows then FinishJob(removed, cfg, id, w.jobs[id], env) else removed
  }

  /** The failure branch of PollConvert: its transition may be rejected, and is then forgotten. */
  function FailJob(w: World, cfg: Config, id: Id, error: string, now: Time): World
    requires id in w.rows
  {
    var row := w.rows[id];
    WithRows(w, id, if row.firstMountedAt.None? then IndexFailed else MountFailed, {row.status},
             FailPatch(row, cfg.maxAttempts, error), now)
  }

  // ---- unmounting ----

  function ToUnmounting(w: World, id: Id, now: Time): World
    requires id in w.rows
  {
    var status := w.rows[id].status;
    if status != Unmounting && status != Absent then WithRows(w, id, Unmounting, {status}, CLEAR_PID, now) else w
  }

  /** The mount that an unmount is about. */
  function UnmountPath(w: World, id: Id): string
    requires id in w.rows
  {
    if id in w.live then w.live[id].mountPath else w.rows[id].mountPath.GetOr("")
  }

  /** The unmount sequence: the process that is known is signalled, and the mount may come off. */
  function Stopped(w: World, id: Id, mountPath: string, unmounted: bool): World
    requires id in w.rows
  {
    var signalled := if id in w.live then {w.live[id].pid}
                     else if w.rows[id].mountPid.Some? then {w.rows[id].mountPid.value}
                     else {};
    DropLive(w, id).(alive := w.alive - signalled,
                     mounts := if unmounted then w.mounts - {mountPath} else w.mounts)
  }

  /** Unmount. A process is signalled when it is live in the registry, or when its pid is still stored
      once the row has been moved to unmounting. */
  function Unmount(w: World, id: Id, toAbsent: bool, unmounted: bool, now: Time): World {
    if id !in w.rows then w
    else
      var stopped := Stopped(ToUnmounting(w, id, now), id, UnmountPath(w, id), unmounted);
      if toAbsent then stopped.(rows := ArchiveStore.MarkAbsent(stopped.rows, id, Keep, now)) else stopped
  }
}
