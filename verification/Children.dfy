/** What polling a live child does, by what is seen of it: whether its process is there, its mount, and its
    index file (internal/mounter/engine.go). */
module Children {
  import opened Advisories
  import opened ArchiveStore
  import opened Corners
  import opened Lifecycle
  import opened NestedSkips
  import opened Options
  import opened Repairs
  import opened Statuses

  /** The index file is there and not empty. */
  predicate IsBuilt(w: World, path: string) {
    IsPath(Some(path)) && path in w.indexes && w.indexes[path] > 0
  }

  /** The machine lets a process be started for the archive. */
  predicate Spawnable(archivePath: string, env: BeginEnv) {
    env.outer(archivePath).Resolved? && env.pathError.None? && env.spawnError.None?
  }

  /** The index process is gone, and a mount process has taken its place, with the skips noted so far. */
  ghost predicate HandedOver(w: World, w': World, id: Id) {
    && id in w.live && id in w.rows && id in w'.live && id in w'.rows
    && w'.rows[id].status == Mounting && w'.rows[id].indexPath.Some?
    && w'.rows[id].lastError == (if w.live[id].skips == [] then w.rows[id].lastError
                                 else Some(Format(w.live[id].skips, DEFAULT_SAMPLES)))
    && w'.rows[id].mountPid == Some(w.nextPid)
    && w'.nextPid == w.nextPid + 1 && w'.live[id].pid == w.nextPid && w.nextPid in w'.alive
    && w'.live[id].phase == MountPhase && w'.live[id].skips == Carried(w.live[id].skips)
  }

  /** The child has failed: its entry is gone, the row has failed with n attempts more and stores no process. */
  ghost predicate ChildFailed(w: World, w': World, id: Id, status: Status, cfg: Config, n: nat) {
    && id in w.rows && id in w'.rows && id !in w'.live
    && var r, r' := w.rows[id], w'.rows[id];
    && r'.status == status && r'.mountPid == None && r'.mountAttempts == r.mountAttempts + n
    && r'.mountRetryable == (cfg.maxAttempts >= 1 && r'.mountAttempts < cfg.maxAttempts)
    && r'.lastError.Some? && w'.nextPid == w.nextPid
  }

  /** The index file of the child goes, when it can. */
  ghost predicate IndexGone(w: World, w': World, path: string) {
    w'.indexes == if IsPath(Some(path)) && path in w.indexes && path !in w.sticky then w.indexes - {path} else w.indexes
  }

  lemma BuiltIff(w: World, path: string)
    ensures IsBuilt(w, path) <==> IndexReady(w, path)
  {}

  /** Nothing happens to an archive without a live entry. */
  lemma NoChild(w: World, cfg: Config, id: Id, env: BeginEnv)
    requires id !in w.live
    ensures ProgressOne(w, cfg, id, env) == w
  {}

  // ---- a child that builds the index ----

  /** For as long as its process runs, an index child is left alone, whatever its index file looks like. */
  lemma IndexChildRuns(w: World, cfg: Config, id: Id, env: BeginEnv)
    requires id in w.live && w.live[id].phase == IndexOnly && w.live[id].pid in w.alive
    ensures ProgressOne(w, cfg, id, env) == w
  {}

  lemma LaunchedMount(w: World, cfg: Config, id: Id, archivePath: string, env: BeginEnv)
    requires id in w.rows && w.rows[id].status == Mounting && Spawnable(archivePath, env)
    ensures var (w', begun) := Launch(w, cfg, id, archivePath, false, false, env);
            && begun.Started? && id in w'.live && w'.live[id] == begun.managed && id in w'.rows
            && begun.managed.pid == w.nextPid && begun.managed.phase == MountPhase && w.nextPid in w'.alive
            && w'.nextPid == w.nextPid + 1 && w'.rows[id].status == Mounting
            && w'.rows[id].mountPid == Some(w.nextPid) && w'.rows[id].indexPath.Some?
            && w'.rows[id].lastError == w.rows[id].lastError
  {}

  lemma ClaimedMount(w: World, cfg: Config, id: Id, env: BeginEnv)
    requires id in w.rows && w.rows[id].status == Mounting
    ensures var claimed := Claimed(w, cfg, id, Mounting, env);
            && id in claimed.rows && claimed.rows[id].status == Mounting && claimed.nextPid == w.nextPid
            && CanMove(w.rows, id, Mounting, {Mounting}) && claimed.rows[id].lastError == w.rows[id].lastError
  {}

  /** The end of the index phase stores the skips, if there are any. */
  lemma IndexedText(w: World, id: Id, now: Time)
    requires id in w.rows && id in w.live && w.rows[id].status == Indexing
    ensures var done := IndexDone(w, id, now);
            id in done.rows && done.rows[id].lastError ==
              if w.live[id].skips == [] then w.rows[id].lastError
              else Some(Format(w.live[id].skips, DEFAULT_SAMPLES))
  {
    if w.live[id].skips != [] {
      FormatIsNotEmpty(w.live[id].skips);
    }
  }

  lemma MountPhaseStarts(w: World, cfg: Config, id: Id, m: Managed, env: BeginEnv)
    requires id in w.rows && w.rows[id].status == Mounting && Spawnable(m.archivePath, env)
    ensures var (w', begun) := StartMountPhase(w, cfg, id, m, env);
            && begun.Started? && id in w'.live && id in w'.rows && w'.rows[id].status == Mounting
            && w'.rows[id].mountPid == Some(w.nextPid) && w'.rows[id].indexPath.Some?
            && w'.live[id].pid == w.nextPid && w'.live[id].phase == MountPhase && w'.nextPid == w.nextPid + 1
            && w.nextPid in w'.alive && w'.live[id].skips == Carried(m.skips)
            && w'.rows[id].lastError == w.rows[id].lastError
  {
    ClaimedMount(w, cfg, id, env);
    LaunchedMount(Claimed(w, cfg, id, Mounting, env), cfg, id, m.archivePath, env);
  }

  /** Once its process is gone and its index file is there and not empty, the mount is started in its place;
      a mount that cannot be started fails the row. */
  lemma IndexChildIsDone(w: World, cfg: Config, id: Id, env: BeginEnv)
    requires id in w.live && w.live[id].phase == IndexOnly && id in w.rows && w.rows[id].status == Indexing
    requires w.live[id].pid !in w.alive && IsBuilt(w, w.live[id].indexPath)
    ensures var w' := ProgressOne(w, cfg, id, env);
            if Spawnable(w.live[id].archivePath, env) then HandedOver(w, w', id)
            else ChildFailed(w, w', id, MountFailed, cfg, 2)
  {
    var m := w.live[id];
    BuiltIff(w, m.indexPath);
    FailedHandoverCostsTwo(w, cfg, id, env);
    CompleteIndexIs(w, cfg, id, env);
    IndexDoneIs(w, id, env.now);
    IndexedText(w, id, env.now);
    if Spawnable(m.archivePath, env) {
      MountPhaseStarts(IndexDone(w, id, env.now), cfg, id, m, env);
    }
  }

  /** Once its process is gone without a usable index, the row has failed to index. */
  lemma IndexChildIsLost(w: World, cfg: Config, id: Id, env: BeginEnv)
    requires id in w.live && w.live[id].phase == IndexOnly && id in w.rows && w.rows[id].status == Indexing
    requires w.live[id].pid !in w.alive && !IsBuilt(w, w.live[id].indexPath)
    ensures ChildFailed(w, ProgressOne(w, cfg, id, env), id, IndexFailed, cfg, 1)
    ensures ProgressOne(w, cfg, id, env).rows[id].indexPath == None
    ensures w.live[id].indexPath != "" ==> IndexGone(w, ProgressOne(w, cfg, id, env), w.live[id].indexPath)
  {
    BuiltIff(w, w.live[id].indexPath);
  }

  // ---- a child that mounts ----

  /** A mount child is left alone until its mount is there and its index usable, or its process is gone
      without a mount. */
  lemma MountChildRuns(w: World, cfg: Config, id: Id, env: BeginEnv)
    requires id in w.live && w.live[id].phase == MountPhase
    requires if w.live[id].mountPath in w.mounts then !IsBuilt(w, w.live[id].indexPath) else w.live[id].pid in w.alive
    ensures ProgressOne(w, cfg, id, env) == w
  {
    BuiltIff(w, w.live[id].indexPath);
  }

  /** With its mount there and its index usable, the row is mounted, and stores the child's process. */
  lemma MountChildIsUp(w: World, cfg: Config, id: Id, env: BeginEnv)
    requires id in w.live && w.live[id].phase == MountPhase && id in w.rows
    requires w.rows[id].status in {Indexing, Mounting, Mounted}
    requires w.live[id].mountPath in w.mounts && IsBuilt(w, w.live[id].indexPath)
    ensures var w' := ProgressOne(w, cfg, id, env);
            && id in w'.rows && w'.rows[id].status == Mounted && w'.rows[id].mountPid == Some(w.live[id].pid)
            && (w.rows[id].status != Mounted ==> w'.rows[id].firstMountedAt.Some?)
            && w'.rows[id].mountAttempts == w.rows[id].mountAttempts
            && w' == w.(rows := w'.rows)
  {
    BuiltIff(w, w.live[id].indexPath);
  }

  /** Without a mount and without its process, the row has failed to mount; an index that is not usable goes
      with it. */
  lemma MountChildIsLost(w: World, cfg: Config, id: Id, env: BeginEnv)
    requires id in w.live && w.live[id].phase == MountPhase && id in w.rows && w.rows[id].status == Mounting
    requires w.live[id].mountPath !in w.mounts && w.live[id].pid !in w.alive
    ensures ChildFailed(w, ProgressOne(w, cfg, id, env), id, MountFailed, cfg, 1)
    ensures w.live[id].indexPath != "" ==>
              ProgressOne(w, cfg, id, env).rows[id].indexPath ==
              if IsBuilt(w, w.live[id].indexPath) then w.rows[id].indexPath else None
    ensures w.live[id].indexPath != "" && !IsBuilt(w, w.live[id].indexPath) ==>
              IndexGone(w, ProgressOne(w, cfg, id, env), w.live[id].indexPath)
    ensures IsBuilt(w, w.live[id].indexPath) ==> ProgressOne(w, cfg, id, env).indexes == w.indexes
  {
    BuiltIff(w, w.live[id].indexPath);
  }
}
