/** What the engine's steps do in the corners: starts that do not start anything, products that are
    never adopted, failures that are forgotten or booked twice, and processes that are not signalled. */
module Corners {
  import opened ArchiveStore
  import opened Lifecycle
  import opened MountNames
  import opened Options
  import opened PathLex
  import opened Statuses
  import opened Steps
  import opened Strings

  // ---- a start that leaves the row where it was has started nothing ----

  /** No process, no live entry and no job is new, or the row shows that work has begun on it. */
  ghost predicate VisibleWork(w: World, w': World, id: Id) {
    || (w'.live == w.live && w'.jobs == w.jobs && w'.nextPid == w.nextPid)
    || (id in w'.rows && w'.rows[id].status in {Indexing, Mounting, Converting})
  }

  lemma SpawnedShows(w: World, id: Id, target: Status, managed: Managed, now: Time)
    requires id in w.rows && w.rows[id].status == target && (target == Indexing || target == Mounting)
    ensures var w' := Spawned(w, id, target, managed, now); id in w'.rows && w'.rows[id].status == target
  {}

  lemma LaunchShows(w: World, cfg: Config, id: Id, archivePath: string, needsIndex: bool, useIndexOnly: bool,
                    env: BeginEnv)
    requires id in w.rows && w.rows[id].status == (if useIndexOnly then Indexing else Mounting)
    ensures VisibleWork(w, Launch(w, cfg, id, archivePath, needsIndex, useIndexOnly, env).0, id)
  {
    var begun := Launch(w, cfg, id, archivePath, needsIndex, useIndexOnly, env).1;
    var cleared := if useIndexOnly then w else w.(alive := w.alive - env.staleHolders);
    LaunchFails(w, cfg, id, archivePath, needsIndex, useIndexOnly, env, cleared);
    LaunchStarts(w, cfg, id, archivePath, needsIndex, useIndexOnly, env, cleared);
    if begun.Started? {
      SpawnedShows(cleared, id, if useIndexOnly then Indexing else Mounting, begun.managed, env.now);
    }
  }

  lemma ProcessShows(w: World, cfg: Config, id: Id, archivePath: string, needsIndex: bool, env: BeginEnv)
    requires id in w.rows
    ensures VisibleWork(w, BeginProcess(w, cfg, id, archivePath, needsIndex, None, env).0, id)
  {
    var target := if needsIndex then Indexing else Mounting;
    if CanMove(w.rows, id, target, {w.rows[id].status}) {
      LaunchShows(Claimed(w, cfg, id, target, env), cfg, id, archivePath, needsIndex, needsIndex, env);
    }
  }

  lemma SlotShows(w: World, cfg: Config, id: Id, needsIndex: bool, env: BeginEnv)
    requires id in w.rows
    ensures VisibleWork(w, StartIfSlot(w, cfg, id, needsIndex, env).0, id)
  {
    ProcessShows(w, cfg, id, w.rows[id].archivePath, needsIndex, env);
  }

  lemma FailedClaimShows(w: World, cfg: Config, id: Id, reason: string, now: Time)
    requires id in w.rows
    ensures VisibleWork(w, FailConvertClaim(w, cfg, id, reason, now), id)
  {}

  lemma ConvertShows(w: World, cfg: Config, id: Id, needsIndex: bool, env: BeginEnv)
    requires id in w.rows
    ensures VisibleWork(w, BeginConvert(w, cfg, id, needsIndex, env).0, id)
  {
    var row := w.rows[id];
    if !env.sourceIsFile {
      FailedClaimShows(w, cfg, id, "archive not found: " + row.archivePath, env.now);
    } else if CanMove(w.rows, id, Converting, {row.status}) {
      var claimed := WithRows(w, id, Converting, {row.status}, CLEAR_PID.(lastError := Set(None)), env.now);
      ClaimedShows(w, claimed, id, Job(row.archivePath, needsIndex, InFlight));
    }
  }

  lemma ClaimedShows(w: World, claimed: World, id: Id, job: Job)
    requires id in claimed.rows && claimed.rows[id].status == Converting
    ensures VisibleWork(w, claimed.(jobs := claimed.jobs[id := job]), id)
  {}

  /** The same from a world with the same registry, jobs and processes. */
  lemma ShowsFrom(w: World, w1: World, w2: World, id: Id)
    requires VisibleWork(w1, w2, id) && w1.live == w.live && w1.jobs == w.jobs && w1.nextPid == w.nextPid
    ensures VisibleWork(w, w2, id)
  {}

  lemma FreshShows(w: World, cfg: Config, id: Id, first: bool, needsIndex: bool, env: BeginEnv)
    requires id in w.rows
    ensures VisibleWork(w, StartFresh(w, cfg, id, first, needsIndex, env).0, id)
  {
    var row := w.rows[id];
    if env.preconvert(row.archivePath) {
      ConvertShows(w, cfg, id, needsIndex, env);
    } else {
      match env.relocation(row.archivePath)
      case Stay => SlotShows(w, cfg, id, needsIndex, env);
      case RelocateFailed(reason) => FailedClaimShows(w, cfg, id, reason, env.now);
      case MovedTo(path, basename) =>
        var moved := WithRows(w, id, row.status, {row.status},
                              NO_PATCH.(archivePath := Set(path), basename := Set(basename)), env.now);
        var again := NeedsIndex(moved, moved.rows[id], first);
        SlotShows(moved, cfg, id, again, env);
        ShowsFrom(w, moved, StartIfSlot(moved, cfg, id, again, env).0, id);
    }
  }

  lemma DispatchShows(w: World, cfg: Config, id: Id, first: bool, needsIndex: bool, env: BeginEnv)
    requires id in w.rows
    ensures VisibleWork(w, Dispatch(w, cfg, id, first, needsIndex, env).0, id)
  {
    SlotShows(w, cfg, id, needsIndex, env);
    FreshShows(w, cfg, id, first, needsIndex, env);
  }

  lemma AdoptShows(w: World, cfg: Config, id: Id, first: bool, needsIndex: bool, env: BeginEnv)
    requires id in w.rows
    ensures VisibleWork(w, AdoptThenDispatch(w, cfg, id, first, needsIndex, env).0, id)
  {
    if env.converted.Some? && w.rows[id].archivePath != env.converted.value {
      var adopted := CompleteConvert(w, id, env.converted.value, env).0;
      DispatchShows(adopted, cfg, id, first, needsIndex, env);
      ShowsFrom(w, adopted, Dispatch(adopted, cfg, id, first, needsIndex, env).0, id);
    } else {
      DispatchShows(w, cfg, id, first, needsIndex, env);
    }
  }

  /** A start that leaves the row outside indexing, mounting and converting has spawned no process, made
      no live entry and queued no conversion. */
  lemma NothingStartsUnseen(w: World, cfg: Config, id: Id, firstIndex: Option<bool>, env: BeginEnv)
    ensures VisibleWork(w, BeginMount(w, cfg, id, firstIndex, env).0, id)
  {
    if id in w.rows {
      var row := w.rows[id];
      var cleaned := CleanPartial(w, row);
      var first := firstIndex.GetOr(row.firstMountedAt.None?);
      var needsIndex := NeedsIndex(cleaned, row, first);
      AdoptShows(cleaned, cfg, id, first, needsIndex, env);
      ShowsFrom(w, cleaned, AdoptThenDispatch(cleaned, cfg, id, first, needsIndex, env).0, id);
    }
  }

  // ---- adopting an existing conversion product ----

  lemma CompleteConvertIff(w: World, id: Id, resultPath: string, env: BeginEnv)
    requires id in w.rows
    ensures var (w', ok) := CompleteConvert(w, id, resultPath, env);
            && (ok <==> env.fingerprint && w.rows[id].status in POST_CONVERT)
            && (ok ==> w'.rows[id].status == Discovered && w'.rows[id].archivePath == resultPath)
            && (!ok ==> w' == CleanPartial(w, w.rows[id]))
  {}

  /** The row that a product leaves: discovered there under the basename kept for it, without an error, and
      without its mount path when that is not the name the basename stands for. */
  lemma AdoptedRow(w: World, id: Id, resultPath: string, env: BeginEnv)
    requires id in w.rows && env.fingerprint && w.rows[id].status in {Converting, MountFailed, IndexFailed}
    ensures var r, w' := w.rows[id], CompleteConvert(w, id, resultPath, env).0;
            id in w'.rows && w'.rows[id] ==
              r.(status := Discovered, archivePath := resultPath, basename := env.convertedBasename,
                 lastError := None, mountPath := if ForgetsName(r, id, env.convertedBasename) then None else r.mountPath)
  {
    CompleteConvertIs(w, id, resultPath, env);
    ForgetsNameIff(w.rows[id], id, env.convertedBasename);
  }

  /** The row stores a mount path, and its name is not the one that the basename stands for. */
  predicate ForgetsName(r: Row, id: Id, basename: string) {
    && r.mountPath.Some? && (exists i :: 0 <= i < |r.mountPath.value| && !IsSpace(r.mountPath.value[i]))
    && Base(r.mountPath.value) != Allocate(basename, id, {})
  }

  lemma ForgetsNameIff(r: Row, id: Id, basename: string)
    ensures ForgetsName(r, id, basename) <==> StalePath(r, id, basename)
  {}

  lemma RejectedAdoption(w: World, cfg: Config, id: Id, first: bool, needsIndex: bool, env: BeginEnv)
    requires id in w.rows && env.converted.Some? && env.converted.value != w.rows[id].archivePath
    requires !(env.fingerprint && w.rows[id].status in POST_CONVERT)
    ensures AdoptThenDispatch(w, cfg, id, first, needsIndex, env) == (CleanPartial(w, w.rows[id]), Nothing)
  {
    CompleteConvertIff(w, id, env.converted.value, env);
  }

  lemma StartIsAdoption(w: World, cfg: Config, id: Id, firstIndex: Option<bool>, env: BeginEnv, cleaned: World,
                        first: bool)
    requires id in w.rows && id !in w.jobs && w.rows[id].status != Converting
    requires cleaned == CleanPartial(w, w.rows[id]) && first == firstIndex.GetOr(w.rows[id].firstMountedAt.None?)
    ensures cleaned.rows == w.rows
    ensures BeginMount(w, cfg, id, firstIndex, env) ==
            AdoptThenDispatch(cleaned, cfg, id, first, NeedsIndex(cleaned, w.rows[id], first), env)
  {}

  /** Nothing is different but the index files. */
  ghost predicate OnlyIndexes(w: World, w': World) {
    w' == w.(indexes := w'.indexes)
  }

  lemma CleanPartialOnlyIndexes(w: World, row: Row)
    ensures OnlyIndexes(w, CleanPartial(w, row))
  {}

  /** With a conversion product in place at another path, a start stalls unless the row has failed before
      and the product can be fingerprinted. A discovered row is not among those, so it stays discovered
      for as long as the product is there: nothing is started, and no error is kept. */
  lemma AdoptionStalls(w: World, cfg: Config, id: Id, firstIndex: Option<bool>, env: BeginEnv)
    requires id in w.rows && id !in w.jobs && w.rows[id].status != Converting
    requires env.converted.Some? && env.converted.value != w.rows[id].archivePath
    requires !(env.fingerprint && w.rows[id].status in {MountFailed, IndexFailed})
    ensures var (w', begun) := BeginMount(w, cfg, id, firstIndex, env); begun == Nothing && OnlyIndexes(w, w')
  {
    var row := w.rows[id];
    var cleaned := CleanPartial(w, row);
    var first := firstIndex.GetOr(row.firstMountedAt.None?);
    StartIsAdoption(w, cfg, id, firstIndex, env, cleaned, first);
    RejectedAdoption(cleaned, cfg, id, first, NeedsIndex(cleaned, row, first), env);
    CleanPartialOnlyIndexes(w, row);
    CleanPartialOnlyIndexes(cleaned, row);
  }

  // ---- failed conversions ----

  /** The failure of a conversion is booked on its row if and only if the status table leads from the
      row's status to the failure status; otherwise the job is gone and the row says nothing of it. */
  lemma FailedJobBooked(w: World, cfg: Config, id: Id, env: BeginEnv)
    requires id in w.rows && id in w.jobs && w.jobs[id].state.JobFailed?
    ensures var w' := PollOne(w, cfg, id, env);
            var row := w.rows[id];
            var failed := if row.firstMountedAt.None? then IndexFailed else MountFailed;
            && id !in w'.jobs
            && (ValidTransition(row.status, failed) ==>
                  && w'.rows[id].status == failed
                  && w'.rows[id].mountAttempts == row.mountAttempts + 1
                  && w'.rows[id].lastError == Some(w.jobs[id].state.error))
            && (!ValidTransition(row.status, failed) ==> w'.rows == w.rows)
  {}

  /** A row that reconcile failed while its conversion ran, and that never mounted, loses that
      conversion's error: mount_failed has no edge to index_failed. */
  lemma InterruptedConversionLosesItsError(w: World, cfg: Config, id: Id, env: BeginEnv)
    requires id in w.rows && id in w.jobs && w.jobs[id].state.JobFailed?
    requires w.rows[id].status == MountFailed && w.rows[id].firstMountedAt.None?
    ensures PollOne(w, cfg, id, env).rows == w.rows
  {
    FailedJobBooked(w, cfg, id, env);
  }

  // ---- a start that fails right after its index was built ----

  /** The row has failed to mount, and its attempts are n more. */
  ghost predicate Booked(w: World, w': World, cfg: Config, id: Id, n: nat) {
    && id in w.rows && id in w'.rows && id !in w'.live
    && w'.rows[id].status == MountFailed
    && w'.rows[id].mountAttempts == w.rows[id].mountAttempts + n
    && w'.rows[id].mountRetryable == (cfg.maxAttempts >= 1 && w'.rows[id].mountAttempts < cfg.maxAttempts)
    && w'.rows[id].mountPid == None && w'.rows[id].lastError.Some? && w'.nextPid == w.nextPid
  }

  /** A launch fails if and only if the outer cache, the path check or the spawn does. */
  lemma LaunchFailsIff(w: World, cfg: Config, id: Id, archivePath: string, needsIndex: bool, useIndexOnly: bool,
                       env: BeginEnv)
    requires id in w.rows
    ensures Launch(w, cfg, id, archivePath, needsIndex, useIndexOnly, env).1.Err? <==>
              env.outer(archivePath).CacheFailed? || env.pathError.Some? || env.spawnError.Some?
  {}

  lemma FailStartBooks(w: World, cleared: World, cfg: Config, id: Id, reason: string, now: Time)
    requires id in w.rows && cleared.rows == w.rows && cleared.live == w.live && id !in w.live
    requires w.rows[id].status == Mounting && cleared.nextPid == w.nextPid
    ensures Booked(w, FailStart(cleared, cfg, id, false, reason, now), cfg, id, 1)
  {}

  /** A mount start on a claimed row that fails, for whatever reason, books one attempt. */
  lemma LaunchBooks(w: World, cfg: Config, id: Id, archivePath: string, env: BeginEnv)
    requires id in w.rows && id !in w.live && w.rows[id].status == Mounting
    ensures var (next, begun) := Launch(w, cfg, id, archivePath, false, false, env);
            begun.Err? ==> Booked(w, next, cfg, id, 1)
  {
    var begun := Launch(w, cfg, id, archivePath, false, false, env).1;
    var cleared := w.(alive := w.alive - env.staleHolders);
    LaunchFails(w, cfg, id, archivePath, false, false, env, cleared);
    if begun.Err? {
      FailStartBooks(w, w, cfg, id, begun.reason, env.now);
      FailStartBooks(w, cleared, cfg, id, begun.reason, env.now);
    }
  }

  lemma ClaimKeepsAttempts(w: World, cfg: Config, id: Id, env: BeginEnv)
    requires id in w.rows && w.rows[id].status == Mounting
    ensures var claimed := Claimed(w, cfg, id, Mounting, env);
            && id in claimed.rows && claimed.live == w.live && claimed.rows[id].status == Mounting
            && claimed.rows[id].mountAttempts == w.rows[id].mountAttempts && claimed.nextPid == w.nextPid
  {}

  /** The same counted from a state with the same attempts. */
  lemma BookedFrom(w: World, moved: World, next: World, cfg: Config, id: Id)
    requires Booked(moved, next, cfg, id, 1) && id in w.rows && moved.nextPid == w.nextPid
    requires moved.rows[id].mountAttempts == w.rows[id].mountAttempts
    ensures Booked(w, next, cfg, id, 1)
  {}

  lemma HandoverFails(w: World, moved: World, cfg: Config, id: Id, m: Managed, env: BeginEnv)
    requires id in w.rows && id in moved.rows && id !in moved.live
    requires moved.rows[id].status == Mounting && moved.rows[id].mountAttempts == w.rows[id].mountAttempts
    requires moved.nextPid == w.nextPid
    ensures var (next, begun) := StartMountPhase(moved, cfg, id, m, env);
            && (begun.Err? ==> Booked(w, next, cfg, id, 1))
            && (begun.Err? <==>
                env.outer(m.archivePath).CacheFailed? || env.pathError.Some? || env.spawnError.Some?)
  {
    var claimed := Claimed(moved, cfg, id, Mounting, env);
    ClaimKeepsAttempts(moved, cfg, id, env);
    LaunchBooks(claimed, cfg, id, m.archivePath, env);
    LaunchFailsIff(claimed, cfg, id, m.archivePath, false, false, env);
    var (next, begun) := StartMountPhase(moved, cfg, id, m, env);
    if begun.Err? {
      BookedFrom(w, claimed, next, cfg, id);
    }
  }

  lemma IndexDoneIs(w: World, id: Id, now: Time)
    requires id in w.rows && id in w.live && w.rows[id].status == Indexing
    ensures var moved := IndexDone(w, id, now);
            && id in moved.rows && id !in moved.live
            && moved.rows[id].status == Mounting && moved.rows[id].mountAttempts == w.rows[id].mountAttempts
            && moved.nextPid == w.nextPid
  {}

  lemma IndexCompleteMeans(w: World, id: Id)
    requires CheckChild(w, id) == ChildIndexComplete
    ensures id in w.live && w.live[id].phase == IndexOnly && IndexReady(w, w.live[id].indexPath)
  {}

  lemma CompleteIndexIs(w: World, cfg: Config, id: Id, env: BeginEnv)
    requires id in w.rows && CheckChild(w, id) == ChildIndexComplete && w.rows[id].status == Indexing
    requires id in w.live && id in IndexDone(w, id, env.now).rows
    ensures CompleteIndex(w, cfg, id, env) == StartMountPhase(IndexDone(w, id, env.now), cfg, id, w.live[id], env)
  {
    IndexCompleteMeans(w, id);
    assert CanMove(w.rows, id, Mounting, {Indexing});
  }

  lemma FailedAgain(w: World, next: World, cfg: Config, id: Id, reason: string, now: Time)
    requires Booked(w, next, cfg, id, 1)
    ensures Booked(w, MarkFailed(next, cfg, id, reason, now).0, cfg, id, 2)
  {}

  /** Every such failure costs two attempts: the start books one, the poll that saw it another. It
      happens if and only if the outer cache, the path check or the spawn fails. */
  lemma FailedHandoverCostsTwo(w: World, cfg: Config, id: Id, env: BeginEnv)
    requires id in w.rows && CheckChild(w, id) == ChildIndexComplete && w.rows[id].status == Indexing
    ensures id in w.live
    ensures CompleteIndex(w, cfg, id, env).1.Err? ==> Booked(w, ProgressOne(w, cfg, id, env), cfg, id, 2)
    ensures CompleteIndex(w, cfg, id, env).1.Err? <==>
              env.outer(w.live[id].archivePath).CacheFailed? || env.pathError.Some? || env.spawnError.Some?
  {
    IndexCompleteMeans(w, id);
    IndexDoneIs(w, id, env.now);
    CompleteIndexIs(w, cfg, id, env);
    HandoverFails(w, IndexDone(w, id, env.now), cfg, id, w.live[id], env);
    var (next, begun) := CompleteIndex(w, cfg, id, env);
    if begun.Err? {
      FailedAgain(w, next, cfg, id, MOUNT_START_FAILED + begun.reason, env.now);
    }
  }

  // ---- which process an unmount signals ----

  /** Unmount ends a process if and only if it is the row's live child, or the row has no live entry, was
      already unmounting or absent, and still stores the pid. For a row in any other status the stored
      pid is cleared before it is looked at. */
  lemma UnmountSignalsIff(w: World, id: Id, toAbsent: bool, unmounted: bool, now: Time, pid: nat)
    requires id in w.rows && pid in w.alive
    ensures pid !in Unmount(w, id, toAbsent, unmounted, now).alive <==>
              || (id in w.live && w.live[id].pid == pid)
              || (id !in w.live && w.rows[id].status in {Unmounting, Absent} && w.rows[id].mountPid == Some(pid))
  {
    assert forall s: Status :: s != Absent && s != Unmounting ==> ValidTransition(s, Unmounting);
  }

  /** The row as an unmount leaves it: gone if it is to be or was, otherwise unmounting. Its pid is forgotten
      when its status changes or it is to be gone, and nothing else about it changes. */
  function Released(r: Row, toAbsent: bool): Row {
    r.(status := if toAbsent || r.status == Absent then Absent else Unmounting,
       mountPid := if toAbsent || r.status !in {Unmounting, Absent} then None else r.mountPid)
  }

  lemma StoppedIsReleased(w: World, id: Id, unmounted: bool, now: Time)
    requires id in w.rows
    ensures var w' := Stopped(ToUnmounting(w, id, now), id, UnmountPath(w, id), unmounted);
            && id in w'.rows && w'.live == w.live - {id} && w'.rows[id] == Released(w.rows[id], false)
            && w'.mounts == (if unmounted then w.mounts - {UnmountPath(w, id)} else w.mounts)
            && w'.indexes == w.indexes && w'.jobs == w.jobs
  {
    assert forall s: Status :: s != Absent && s != Unmounting ==> ValidTransition(s, Unmounting);
  }

  lemma GoneIsReleased(w: World, stopped: World, id: Id, now: Time)
    requires id in w.rows && id in stopped.rows && stopped.rows[id] == Released(w.rows[id], false)
    ensures var rows := ArchiveStore.MarkAbsent(stopped.rows, id, Keep, now);
            id in rows && rows[id] == Released(w.rows[id], true)
  {
    MarkAbsentSucceeds(stopped.rows, id, Keep, now);
  }

  /** Whatever its status, an unmounted row has no live entry, and is unmounting, or absent if it is to go or
      was gone. The mount that comes off is that of the live entry, or else the stored one. */
  lemma UnmountEnds(w: World, id: Id, toAbsent: bool, unmounted: bool, now: Time)
    requires id in w.rows
    ensures var w' := Unmount(w, id, toAbsent, unmounted, now);
            var path := if id in w.live then w.live[id].mountPath else w.rows[id].mountPath.GetOr("");
            && id in w'.rows && w'.rows[id] == Released(w.rows[id], toAbsent)
            && w'.live == w.live - {id} && w'.mounts == (if unmounted then w.mounts - {path} else w.mounts)
            && w'.indexes == w.indexes && w'.jobs == w.jobs
  {
    StoppedIsReleased(w, id, unmounted, now);
    GoneIsReleased(w, Stopped(ToUnmounting(w, id, now), id, UnmountPath(w, id), unmounted), id, now);
  }
}
