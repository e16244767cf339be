/** The liveness repair pass and the boot plan (internal/reconcile/decide.go, internal/reconcile/apply.go,
    internal/reconcile/reconciler.go), as functions of the whole state. */
module Reconciling {
  import opened ArchiveStore
  import opened Lifecycle
  import opened Options
  import opened Statuses

  /** Normalized settings, the probes that look outside the daemon, and which optional probes and
      callbacks are wired. */
  datatype Setup = Setup(
    now: Time, timeout: real, timeoutText: string, maxAttempts: int,
    present: set<string>,       // archive paths that are regular files
    liveWired: bool,            // the live registry can be asked
    convertWired: bool,         // the convert jobs can be asked
    unmountWired: bool)         // a mount left behind can be unmounted

  datatype Kind = Ok | FailIndex | FailMount | GoAbsent | CleanupIndex | Requeue | RequestRemount

  datatype Reason =
    | ConvertRunning | ConvertInterrupted | IndexFinished | MountReady | ProcessDead | TimedOut | InProgress
    | Healthy | Unhealthy(mountOk: bool, pidOk: bool) | UnhealthyAndMissing(mountOk: bool, pidOk: bool)
    | MissingDuringUnmount | PartialIndex | Boot(what: string)

  datatype Action = Action(kind: Kind, reason: Reason, previous: Status, target: Option<Status>)

  function Shown(b: bool): string {
    if b then "true" else "false"
  }

  /** The text stored in last_error. */
  function Text(reason: Reason, s: Setup): string {
    match reason
    case ConvertInterrupted => "7z flatten interrupted"
    case ProcessDead => "ratarmount process dead before mount ready"
    case TimedOut => "mount_ready timeout (" + s.timeoutText + ")"
    case Unhealthy(m, p) => "mount unhealthy (ismount=" + Shown(m) + ", pid_alive=" + Shown(p) + ")"
    case UnhealthyAndMissing(m, p) =>
      "mount unhealthy (ismount=" + Shown(m) + ", pid_alive=" + Shown(p) + ") and archive missing"
    case MissingDuringUnmount => "archive missing during unmount"
    case Boot(what) => what
    case _ => ""
  }

  // ---- decisions ----

  predicate PidAlive(w: World, row: Row) {
    row.mountPid.Some? && row.mountPid.value in w.alive
  }

  predicate PidDead(w: World, row: Row) {
    row.mountPid.Some? && row.mountPid.value !in w.alive
  }

  predicate MountIsUp(w: World, row: Row) {
    HasMountPath(row) && row.mountPath.value in w.mounts
  }

  predicate Overdue(row: Row, s: Setup) {
    row.indexStartedAt.Some? && s.now - row.indexStartedAt.value > s.timeout
  }

  function FailInProgress(status: Status, reason: Reason): Action {
    if status == Indexing then Action(FailIndex, reason, status, Some(IndexFailed))
    else Action(FailMount, reason, status, Some(MountFailed))
  }

  /** checkInProgress. A missing mount is never a reason by itself. */
  function CheckInProgress(w: World, id: Id, row: Row, s: Setup): Action {
    if row.status == Converting then
      if s.convertWired && id in w.jobs then Action(Ok, ConvertRunning, row.status, None)
      else Action(FailMount, ConvertInterrupted, row.status, Some(MountFailed))
    else
      var asked := s.liveWired && id in w.live;
      var exited := asked && w.live[id].pid !in w.alive;
      if exited && w.live[id].phase == IndexOnly && IndexReady(w, w.live[id].indexPath) then
        Action(Ok, IndexFinished, row.status, None)
      else if asked && !exited && w.live[id].phase == MountPhase && w.live[id].mountPath != ""
              && w.live[id].mountPath in w.mounts && IndexReady(w, w.live[id].indexPath) then
        Action(Ok, MountReady, row.status, None)
      else if PidDead(w, row) || exited then FailInProgress(row.status, ProcessDead)
      else if Overdue(row, s) then FailInProgress(row.status, TimedOut)
      else Action(Ok, InProgress, row.status, None)
  }

  /** checkHealthyMount. */
  function CheckHealthyMount(w: World, row: Row, s: Setup): Action {
    var mountOk, pidOk := MountIsUp(w, row), PidAlive(w, row);
    if mountOk && pidOk then Action(Ok, Healthy, row.status, None)
    else if row.archivePath !in s.present then
      Action(GoAbsent, UnhealthyAndMissing(mountOk, pidOk), row.status, Some(Absent))
    else Action(FailMount, Unhealthy(mountOk, pidOk), row.status, Some(MountFailed))
  }

  /** DecideOne. */
  function DecideOne(w: World, id: Id, row: Row, s: Setup): Option<Action> {
    match row.status
    case Absent => None
    case Indexing => Some(CheckInProgress(w, id, row, s))
    case Mounting => Some(CheckInProgress(w, id, row, s))
    case Converting => Some(CheckInProgress(w, id, row, s))
    case Mounted => Some(CheckHealthyMount(w, row, s))
    case HooksRunning => Some(CheckHealthyMount(w, row, s))
    case Unmounting =>
      if row.archivePath !in s.present then Some(Action(GoAbsent, MissingDuringUnmount, row.status, Some(Absent)))
      else None
    case _ =>
      if IsPartial(row) && row.indexPath.GetOr("") in w.indexes
      then Some(Action(CleanupIndex, PartialIndex, row.status, None))
      else None
  }

  /** requeueTarget: mounting has no way back to discovered. */
  function RequeueTarget(row: Row): Status {
    if row.status == Mounting || row.firstMountedAt.Some? then MountFailed else Discovered
  }

  /** PlanBoot. */
  function PlanBoot(row: Row, s: Setup): Option<Action> {
    var missing := row.archivePath !in s.present;
    match row.status
    case Absent => None
    case Indexing =>
      Some(Action(Requeue, Boot("boot: previous process died mid-index/mount"), row.status, Some(RequeueTarget(row))))
    case Mounting =>
      Some(Action(Requeue, Boot("boot: previous process died mid-index/mount"), row.status, Some(RequeueTarget(row))))
    case Unmounting =>
      if missing then Some(Action(GoAbsent, Boot("boot: archive missing during unmount"), row.status, Some(Absent)))
      else Some(Action(Requeue, Boot("boot: interrupted unmount; re-queue"), row.status, Some(RequeueTarget(row))))
    case Converting =>
      if missing then Some(Action(GoAbsent, Boot("boot: archive missing during convert"), row.status, Some(Absent)))
      else Some(Action(Requeue, Boot("boot: interrupted convert; re-queue"), row.status, Some(RequeueTarget(row))))
    case Mounted => Some(BootRemount(row, missing))
    case HooksRunning => Some(BootRemount(row, missing))
    case _ =>
      if row.mountPid.Some? then Some(Action(Requeue, Boot("boot: clear stale PID"), row.status, Some(row.status)))
      else None
  }

  function BootRemount(row: Row, missing: bool): Action {
    if missing then Action(GoAbsent, Boot("boot: archive missing; was mounted"), row.status, Some(Absent))
    else Action(RequestRemount, Boot("boot: clear stale PID and request remount"), row.status, Some(MountFailed))
  }

  // ---- application ----

  function Unmounted(w: World, row: Row, s: Setup): World {
    if s.unmountWired && HasMountPath(row) then w.(mounts := w.mounts - {row.mountPath.value}) else w
  }

  /** A failure of the row forgets its index when it never mounted, or was indexing. */
  predicate ForgetsIndex(row: Row, kind: Kind) {
    kind == FailIndex || row.firstMountedAt.None?
  }

  function FailedStatus(kind: Kind): Status {
    if kind == FailIndex then IndexFailed else MountFailed
  }

  function RepairPatch(row: Row, kind: Kind, text: string, maxAttempts: int): Patch {
    FailPatch(row, maxAttempts, text).(indexPath := if ForgetsIndex(row, kind) then Set(None) else Keep)
  }

  function RequeuePatch(row: Row): Patch {
    CLEAR_PID.(mountRetryable := if row.status == Unmounting || row.status == Converting then Set(true) else Keep)
  }

  const REMOUNT_PATCH := CLEAR_PID.(mountRetryable := Set(true))
  const FORGET_INDEX := NO_PATCH.(indexPath := Set(None))

  /** Apply: the new state, and whether the store accepted every transition it asked for. */
  function Apply(w: World, id: Id, a: Action, s: Setup): (World, bool)
    requires id in w.rows
  {
    var row := w.rows[id];
    match a.kind
    case Ok => (w, true)
    case CleanupIndex =>
      var path := row.indexPath.GetOr("");
      if IsPartial(row) && CanDelete(w, path) then
        (WithRows(DeleteIndex(w, path), id, row.status, {row.status}, FORGET_INDEX, s.now),
         CanMove(w.rows, id, row.status, {row.status}))
      else (w, true)
    case GoAbsent =>
      var dropped := Unmounted(DropLive(w, id), row, s);
      var gone := ArchiveStore.MarkAbsent(dropped.rows, id, Set(Some(Text(a.reason, s))), s.now);
      (dropped.(rows := gone), gone[id].status == Absent)
    case FailIndex => Fail(w, id, a, s)
    case FailMount => Fail(w, id, a, s)
    case Requeue =>
      var target := a.target.GetOr(RequeueTarget(row));
      (WithRows(w, id, target, {row.status}, RequeuePatch(row), s.now), CanMove(w.rows, id, target, {row.status}))
    case RequestRemount =>
      (WithRows(w, id, MountFailed, {row.status}, REMOUNT_PATCH, s.now), CanMove(w.rows, id, MountFailed, {row.status}))
  }

  /** What a failure takes down before it is stored: the live entry, the mount, the index file. */
  function TakenDown(w: World, id: Id, row: Row, kind: Kind, s: Setup): World {
    var dropped := DropLive(w, id);
    var cleared := if MountIsUp(w, row) then Unmounted(dropped, row, s) else dropped;
    if ForgetsIndex(row, kind) then DeleteIndex(cleared, row.indexPath.GetOr("")) else cleared
  }

  /** applyFail. */
  function Fail(w: World, id: Id, a: Action, s: Setup): (World, bool)
    requires id in w.rows
  {
    var row := w.rows[id];
    var failed := FailedStatus(a.kind);
    (WithRows(TakenDown(w, id, row, a.kind, s), id, failed, {row.status},
              RepairPatch(row, a.kind, Text(a.reason, s), s.maxAttempts), s.now),
     CanMove(w.rows, id, failed, {row.status}))
  }

  // ---- passes ----

  /** What a pass reports of one archive. */
  datatype Report = Report(id: Id, action: Action, accepted: bool)

  function RepairRow(w: World, id: Id, s: Setup): (World, seq<Report>) {
    if id !in w.rows then (w, [])
    else
      match DecideOne(w, id, w.rows[id], s)
      case None => (w, [])
      case Some(a) => var (w', accepted) := Apply(w, id, a, s); (w', [Report(id, a, accepted)])
  }

  /** Reconcile: one pass over the rows in table order. */
  function Reconcile(w: World, order: seq<Id>, s: Setup): (World, seq<Report>)
    decreases |order|
  {
    if order == [] then (w, [])
    else
      var n := |order| - 1;
      var (w1, reports) := Reconcile(w, order[..n], s);
      var (w2, more) := RepairRow(w1, order[n], s);
      (w2, reports + more)
  }

  function BootRow(w: World, id: Id, s: Setup): (World, seq<Report>) {
    if id !in w.rows then (w, [])
    else
      match PlanBoot(w.rows[id], s)
      case None => (w, [])
      case Some(a) => var (w', accepted) := Apply(w, id, a, s); (w', [Report(id, a, accepted)])
  }

  /** Boot: the startup pass. */
  function BootPass(w: World, order: seq<Id>, s: Setup): (World, seq<Report>)
    decreases |order|
  {
    if order == [] then (w, [])
    else
      var n := |order| - 1;
      var (w1, reports) := BootPass(w, order[..n], s);
      var (w2, more) := BootRow(w1, order[n], s);
      (w2, reports + more)
  }
}
