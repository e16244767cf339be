/** The engine as the daemon runs it: methods that update the store, the live registry and the job table
    in place (internal/mounter/engine.go, internal/mounter/engine_jobs.go, internal/mounter/index.go). Each
    method's effect is the step of the same name on the whole state. */
module Engines {
  import opened ArchiveStore
  import opened Lifecycle
  import opened MountNames
  import opened NestedSkips
  import opened Options
  import opened PathLex
  import opened Sequences
  import opened Statuses
  import opened Steps

  // ---- what the loops compute ----

  function Among(ids: seq<Id>, held: set<Id>): set<Id> {
    set id | id in ids && id in held
  }

  /** Counting along a duplicate-free listing counts a set. */
  lemma AmongNext(ids: seq<Id>, held: set<Id>, i: nat)
    requires i < |ids| && NoDuplicates(ids)
    ensures |Among(ids[..i + 1], held)| == |Among(ids[..i], held)| + if ids[i] in held then 1 else 0
  {
    assert ids[..i + 1] == ids[..i] + [ids[i]];
    if ids[i] in held {
      assert Among(ids[..i + 1], held) == Among(ids[..i], held) + {ids[i]};
    } else {
      assert Among(ids[..i + 1], held) == Among(ids[..i], held);
    }
  }

  function NamesAmong(w: World, ids: seq<Id>): set<string> {
    set id | id in ids && id in w.rows && HasMountPath(w.rows[id]) :: Base(w.rows[id].mountPath.value)
  }

  lemma NamesNext(w: World, ids: seq<Id>, i: nat)
    requires i < |ids|
    ensures NamesAmong(w, ids[..i + 1]) ==
            NamesAmong(w, ids[..i])
            + if ids[i] in w.rows && HasMountPath(w.rows[ids[i]]) then {Base(w.rows[ids[i]].mountPath.value)} else {}
  {
    assert ids[..i + 1] == ids[..i] + [ids[i]];
  }

  /** The children are visited in some order, each once. */
  function ProgressAll(w: World, cfg: Config, order: seq<Id>, env: Id -> BeginEnv): World {
    if order == [] then w
    else
      var last := order[|order| - 1];
      ProgressOne(ProgressAll(w, cfg, order[..|order| - 1], env), cfg, last, env(last))
  }

  function PollAll(w: World, cfg: Config, order: seq<Id>, env: Id -> BeginEnv): World {
    if order == [] then w
    else
      var last := order[|order| - 1];
      PollOne(PollAll(w, cfg, order[..|order| - 1], env), cfg, last, env(last))
  }

  class Engine {
    const cfg: Config
    const store: Store
    var live: map<Id, Managed>
    var jobs: map<Id, Job>
    var indexes: map<string, nat>
    var sticky: set<string>
    var mounts: set<string>
    var alive: set<nat>
    var paths: map<nat, string>
    var nextPid: nat

    constructor (cfg: Config, store: Store)
      ensures this.cfg == cfg && this.store == store
      ensures World() == Lifecycle.World(store.rows, map[], map[], map[], {}, {}, {}, map[], 1)
    {
      this.cfg, this.store := cfg, store;
      live, jobs, indexes, sticky, mounts, alive, paths, nextPid := map[], map[], map[], {}, {}, {}, map[], 1;
    }

    function World(): World
      reads this, store
    {
      Lifecycle.World(store.rows, live, jobs, indexes, sticky, mounts, alive, paths, nextPid)
    }

    // ---- index files ----

    method DeleteIndexFile(path: string) returns (deleted: bool)
      modifies `indexes
      ensures deleted == CanDelete(old(World()), path)
      ensures World() == DeleteIndex(old(World()), path)
    {
      if Blank(path) || path !in indexes || path in sticky {
        return false;
      }
      indexes := indexes - {path};
      return true;
    }

    method ApplyPartialIndexCleanup(row: Row)
      modifies `indexes
      ensures World() == CleanPartial(old(World()), row)
    {
      if IsPartial(row) {
        var _ := DeleteIndexFile(row.indexPath.GetOr(""));
      }
    }

    // ---- slots ----

    /** ActiveIndexCount and ActiveMountCount. */
    method ActiveCount(status: Status) returns (n: nat)
      requires store.Valid()
      ensures n == Slots(World(), status)
    {
      var ids := store.ListArchives(Only(status));
      n := 0;
      for i := 0 to |ids|
        invariant n == |Among(ids[..i], SlotSet(World(), status))|
      {
        AmongNext(ids, SlotSet(World(), status), i);
        var row := store.rows[ids[i]];
        if ids[i] in live || (row.mountPid.Some? && row.mountPid.value in alive) {
          n := n + 1;
        }
      }
      assert ids[..|ids|] == ids;
      assert Among(ids, SlotSet(World(), status)) == SlotSet(World(), status);
    }

    // ---- mount names ----

    /** The visible directories. */
    method VisibleNames(dirs: set<string>) returns (names: set<string>)
      ensures names == set d | d in dirs && d != "" && d[0] != '.'
    {
      names := {};
      var rest := dirs;
      while rest != {}
        invariant rest <= dirs
        invariant names == set d | d in dirs - rest && d != "" && d[0] != '.'
        decreases |rest|
      {
        var d :| d in rest;
        if d != "" && d[0] != '.' {
          names := names + {d};
        }
        rest := rest - {d};
      }
    }

    /** The names that rows store. */
    method NamesInUse() returns (names: set<string>)
      requires store.Valid()
      ensures names == StoredNames(World())
    {
      names := {};
      for i := 0 to |store.order|
        invariant names == NamesAmong(World(), store.order[..i])
      {
        var row := store.rows[store.order[i]];
        NamesNext(World(), store.order, i);
        if row.mountPath.Some? && row.mountPath.value != "" {
          names := names + {Base(row.mountPath.value)};
        }
      }
      assert NamesAmong(World(), store.order[..|store.order|]) == StoredNames(World());
    }

    method TakenMountNames(dirs: set<string>) returns (names: set<string>)
      requires store.Valid()
      ensures names == TakenNames(World(), dirs)
    {
      var visible := VisibleNames(dirs);
      var stored := NamesInUse();
      names := visible + stored;
    }

    /** mountNameForRec, then the name that the request is made with. */
    method ChooseMountName(row: Row, id: Id, taken: set<string>) returns (name: string)
      ensures name == MountName(row, id, taken)
    {
      var others, own := taken, "";
      if row.mountPath.Some? && row.mountPath.value != "" {
        own := Base(row.mountPath.value);
        others := others - {own};
      }
      var expected := SanitizeMountName(row.basename, id, others);
      if own != "" && own == expected {
        return own;
      }
      name := SanitizeMountName(row.basename, id, others);
    }

    // ---- starting ratarmount ----

    method FailStart(id: Id, indexPhase: bool, reason: string, now: Time)
      requires id in store.rows
      modifies store`rows
      ensures World() == Lifecycle.FailStart(old(World()), cfg, id, indexPhase, reason, now)
    {
      var row := store.rows[id];
      var failed := if indexPhase then IndexFailed else MountFailed;
      var _ := store.Transition(id, failed, {row.status, Indexing, Mounting, failed},
                                FailPatch(row, cfg.maxAttempts, reason), now);
    }

    /** The claim is made before anything that can fail. */
    method Claim(id: Id, target: Status, env: BeginEnv)
      requires store.Valid() && id in store.rows
      modifies store`rows
      ensures store.Valid() && World() == Claimed(old(World()), cfg, id, target, env)
    {
      var row := store.rows[id];
      var taken := TakenMountNames(env.dirs);
      var name := ChooseMountName(row, id, taken);
      var _ := store.Transition(id, target, {row.status},
                                PathPatch(IndexPathFor(cfg, id), Join(cfg.mountRoot, name)), env.now);
    }

    method Spawn(id: Id, archivePath: string, needsIndex: bool, useIndexOnly: bool, env: BeginEnv)
      returns (begun: Begun)
      requires store.Valid() && id in store.rows
      modifies this, store`rows
      ensures store.Valid()
      ensures (World(), begun) == Launch(old(World()), cfg, id, archivePath, needsIndex, useIndexOnly, env)
    {
      match env.outer(archivePath)
      case CacheFailed(reason) =>
        FailStart(id, useIndexOnly, reason, env.now);
        return Err(reason);
      case Resolved(path) =>
        if env.pathError.Some? {
          FailStart(id, useIndexOnly, env.pathError.value, env.now);
          return Err(env.pathError.value);
        }
        if !useIndexOnly {
          alive := alive - env.staleHolders;
        }
        if env.spawnError.Some? {
          FailStart(id, useIndexOnly, env.spawnError.value, env.now);
          return Err(env.spawnError.value);
        }
        var row := store.rows[id];
        var managed := Managed(nextPid, path, row.indexPath.GetOr(""), row.mountPath.GetOr(""), needsIndex,
                               if useIndexOnly then IndexOnly else MountPhase, []);
        Register(id, if useIndexOnly then Indexing else Mounting, managed, env.now);
        return Started(managed);
    }

    method Register(id: Id, target: Status, managed: Managed, now: Time)
      requires store.Valid()
      modifies this, store`rows
      ensures store.Valid() && World() == Spawned(old(World()), id, target, managed, now)
    {
      live := live[id := managed];
      alive := alive + {managed.pid};
      paths := paths[managed.pid := managed.mountPath];
      nextPid := nextPid + 1;
      var patch := PathPatch(managed.indexPath, managed.mountPath).(mountPid := Set(Some(managed.pid)));
      var _ := store.Transition(id, target, {target}, patch, now);
    }

    method BeginMountProcess(id: Id, archivePath: string, needsIndex: bool, indexOnly: Option<bool>, env: BeginEnv)
      returns (begun: Begun)
      requires store.Valid() && id in store.rows
      modifies this, store`rows
      ensures store.Valid()
      ensures (World(), begun) == BeginProcess(old(World()), cfg, id, archivePath, needsIndex, indexOnly, env)
    {
      var useIndexOnly := indexOnly.GetOr(needsIndex);
      var target := if useIndexOnly then Indexing else Mounting;
      if !ValidTransition(store.rows[id].status, target) {
        return Err("transition rejected");
      }
      Claim(id, target, env);
      begun := Spawn(id, archivePath, needsIndex, useIndexOnly, env);
    }

    // ---- conversions ----

    method FailConvertClaim(id: Id, reason: string, now: Time)
      requires store.Valid() && id in store.rows
      modifies store`rows
      ensures store.Valid() && World() == Lifecycle.FailConvertClaim(old(World()), cfg, id, reason, now)
    {
      var row := store.rows[id];
      var failed := if row.firstMountedAt.None? then IndexFailed else MountFailed;
      var patch := FailPatch(row, cfg.maxAttempts, reason);
      if row.status == Discovered && failed == IndexFailed {
        var _ := store.Transition(id, Indexing, {row.status}, NO_PATCH.(lastError := Set(Some(reason))), now);
      }
      var status := store.rows[id].status;
      var ok := store.Transition(id, failed, {status}, patch, now);
      if !ok {
        var _ := store.Transition(id, status, {status}, patch, now);
      }
    }

    method BeginConvertAsync(id: Id, needsIndex: bool, env: BeginEnv) returns (begun: Begun)
      requires store.Valid() && id in store.rows
      modifies this, store`rows
      ensures store.Valid() && (World(), begun) == BeginConvert(old(World()), cfg, id, needsIndex, env)
    {
      var row := store.rows[id];
      if !env.sourceIsFile {
        FailConvertClaim(id, "archive not found: " + row.archivePath, env.now);
        return Err("archive not found");
      }
      var ok := store.Transition(id, Converting, {row.status}, CLEAR_PID.(lastError := Set(None)), env.now);
      if !ok {
        return Err("transition rejected");
      }
      jobs := jobs[id := Job(row.archivePath, needsIndex, InFlight)];
      return Nothing;
    }

    method CompleteConvertSuccess(id: Id, resultPath: string, env: BeginEnv) returns (ok: bool)
      requires store.Valid() && id in store.rows
      modifies `indexes, store`rows
      ensures store.Valid() && (World(), ok) == CompleteConvert(old(World()), id, resultPath, env)
    {
      var row := store.rows[id];
      ApplyPartialIndexCleanup(row);
      if !env.fingerprint {
        return false;
      }
      var patch := NO_PATCH.(archivePath := Set(resultPath), basename := Set(env.convertedBasename),
                             lastError := Set(None));
      if row.mountPath.Some? && !Blank(row.mountPath.value) {
        var expected := SanitizeMountName(env.convertedBasename, id, {});
        if Base(row.mountPath.value) != expected {
          patch := patch.(mountPath := Set(None));
        }
      }
      ok := store.Transition(id, Discovered, POST_CONVERT, patch, env.now);
    }

    // ---- BeginMount ----

    method StartUnderLimit(id: Id, needsIndex: bool, env: BeginEnv) returns (begun: Begun)
      requires store.Valid() && id in store.rows
      modifies this, store`rows
      ensures store.Valid() && (World(), begun) == StartIfSlot(old(World()), cfg, id, needsIndex, env)
    {
      if needsIndex {
        var active := ActiveCount(Indexing);
        if LimitReached(active, cfg.maxIndex) {
          return Nothing;
        }
      } else {
        var active := ActiveCount(Mounting);
        if LimitReached(active, cfg.maxMount) {
          return Nothing;
        }
      }
      begun := BeginMountProcess(id, store.rows[id].archivePath, needsIndex, None, env);
    }

    method ResumeWork(id: Id, needsIndex: bool, env: BeginEnv) returns (begun: Begun)
      requires store.Valid() && id in store.rows
      modifies this, store`rows
      ensures store.Valid() && (World(), begun) == Resume(old(World()), cfg, id, needsIndex, env)
    {
      if id in live {
        return Started(live[id]);
      }
      var row := store.rows[id];
      if row.mountPid.Some? && row.mountPid.value in alive {
        if HasMountPath(row) && row.mountPath.value in mounts {
          return Nothing;
        }
      }
      begun := StartUnderLimit(id, needsIndex, env);
    }

    method StartNew(id: Id, first: bool, needsIndex: bool, env: BeginEnv) returns (begun: Begun)
      requires store.Valid() && id in store.rows
      modifies this, store`rows
      ensures store.Valid() && (World(), begun) == StartFresh(old(World()), cfg, id, first, needsIndex, env)
    {
      var row := store.rows[id];
      if env.preconvert(row.archivePath) {
        if LimitReached(|jobs|, cfg.maxConvert) {
          return Nothing;
        }
        begun := BeginConvertAsync(id, needsIndex, env);
        return;
      }
      match env.relocation(row.archivePath)
      case Stay => begun := StartUnderLimit(id, needsIndex, env);
      case RelocateFailed(reason) =>
        FailConvertClaim(id, reason, env.now);
        begun := Err(reason);
      case MovedTo(path, basename) =>
        var _ := store.Transition(id, row.status, {row.status},
                                  NO_PATCH.(archivePath := Set(path), basename := Set(basename)), env.now);
        begun := StartUnderLimit(id, NeedsIndex(World(), store.rows[id], first), env);
    }

    method BeginMount(id: Id, firstIndex: Option<bool>, env: BeginEnv) returns (begun: Begun)
      requires store.Valid()
      modifies this, store`rows
      ensures store.Valid() && (World(), begun) == Lifecycle.BeginMount(old(World()), cfg, id, firstIndex, env)
    {
      if id !in store.rows {
        return Err("not found");
      }
      var row := store.rows[id];
      ApplyPartialIndexCleanup(row);
      var first := firstIndex.GetOr(row.firstMountedAt.None?);
      var needsIndex := NeedsIndex(World(), row, first);
      if row.status == Converting || id in jobs {
        return Nothing;
      }
      begun := AdoptAndStart(id, first, needsIndex, env);
    }

    method AdoptAndStart(id: Id, first: bool, needsIndex: bool, env: BeginEnv) returns (begun: Begun)
      requires store.Valid() && id in store.rows
      modifies this, store`rows
      ensures store.Valid()
      ensures (World(), begun) == AdoptThenDispatch(old(World()), cfg, id, first, needsIndex, env)
    {
      if env.converted.Some? && store.rows[id].archivePath != env.converted.value {
        var ok := CompleteConvertSuccess(id, env.converted.value, env);
        if !ok {
          return Nothing;
        }
      }
      var status := store.rows[id].status;
      if status == Indexing || status == Mounting || status == HooksRunning {
        begun := ResumeWork(id, needsIndex, env);
      } else {
        begun := StartNew(id, first, needsIndex, env);
      }
    }

    // ---- polling live children ----

    method CheckChild(id: Id) returns (status: ChildStatus)
      ensures status == Lifecycle.CheckChild(World(), id)
    {
      if id !in live {
        return ChildUnknown;
      }
      var m := live[id];
      var exited := m.pid !in alive;
      if m.phase == IndexOnly {
        if !exited {
          return ChildRunning;
        }
        return if IndexReady(World(), m.indexPath) then ChildIndexComplete else ChildExited;
      }
      if m.mountPath in mounts {
        return if IndexReady(World(), m.indexPath) then ChildMounted else ChildRunning;
      }
      return if exited then ChildExited else ChildRunning;
    }

    method NoteSkips(id: Id, skips: seq<string>)
      requires id in live && live[id].skips == []
      modifies `live
      ensures live == old(live)[id := old(live)[id].(skips := Carried(skips))]
    {
      var noted: seq<string> := [];
      for i := 0 to |skips|
        invariant Carried(skips) == noted + Carried(skips[i..])
      {
        assert skips[i..][0] == skips[i] && skips[i..][1..] == skips[i + 1..];
        if skips[i] != "" {
          noted := noted + [skips[i]];
        }
      }
      assert noted == Carried(skips);
      live := live[id := live[id].(skips := noted)];
    }

    method StartMountPhase(id: Id, m: Managed, env: BeginEnv) returns (begun: Begun)
      requires store.Valid() && id in store.rows
      modifies this, store`rows
      ensures store.Valid() && (World(), begun) == Lifecycle.StartMountPhase(old(World()), cfg, id, m, env)
    {
      begun := BeginMountProcess(id, m.archivePath, false, Some(false), env);
      StartedIsLive(old(World()), cfg, id, m.archivePath, false, Some(false), env);
      if begun.Started? {
        NoteSkips(id, m.skips);
        begun := Started(live[id]);
      }
    }

    method CompleteIndexAndStartMount(id: Id, env: BeginEnv) returns (begun: Begun)
      requires store.Valid()
      modifies this, store`rows
      ensures store.Valid() && (World(), begun) == CompleteIndex(old(World()), cfg, id, env)
    {
      if id !in live || live[id].phase != IndexOnly || id !in store.rows || !IndexReady(World(), live[id].indexPath) {
        return Err("complete_index rejected");
      }
      var m := live[id];
      alive := alive - {m.pid};
      live := live - {id};
      var ok := store.Transition(id, Mounting, {Indexing}, IndexedPatch(m), env.now);
      if !ok {
        return Err("transition rejected");
      }
      begun := StartMountPhase(id, m, env);
    }

    method MarkMounted(id: Id, now: Time) returns (ok: bool)
      modifies store`rows
      ensures (World(), ok) == Lifecycle.MarkMounted(old(World()), id, now)
    {
      if id !in store.rows {
        return false;
      }
      var row := store.rows[id];
      var patch := NO_PATCH.(lastError := Set(None));
      if row.lastError.Some? && IsSkipOnly(row.lastError.value) {
        patch := patch.(lastError := Set(row.lastError));
      }
      if id in live {
        var sum := Format(live[id].skips, DEFAULT_SAMPLES);
        if sum != "" {
          patch := patch.(lastError := Set(Some(sum)));
        }
        patch := patch.(mountPid := Set(Some(live[id].pid)));
      }
      ok := store.Transition(id, Mounted, {Indexing, Mounting, Mounted}, patch, now);
    }

    method MarkFailed(id: Id, reason: string, now: Time) returns (ok: bool)
      modifies `indexes, `live, store`rows
      ensures (World(), ok) == Lifecycle.MarkFailed(old(World()), cfg, id, reason, now)
    {
      if id !in store.rows {
        return false;
      }
      ghost var w := World();
      var row := store.rows[id];
      var failed, path, text := MountFailed, row.indexPath.GetOr(""), reason;
      if id in live {
        if live[id].indexPath != "" {
          path := live[id].indexPath;
        }
        if live[id].phase == IndexOnly {
          failed := IndexFailed;
        }
        text := Enrich(reason, live[id].skips);
      }
      var bad := failed == IndexFailed || !IndexReady(World(), path);
      assert path == FailedIndexPath(w, id) && bad == IndexIsBad(w, id) && text == FailureText(w, id, reason);
      if bad {
        var _ := DeleteIndexFile(path);
      }
      live := live - {id};
      ok := store.Transition(id, failed, {Indexing, Mounting, failed},
                             FailedPatch(row, cfg.maxAttempts, text, bad), now);
    }

    method Progress(id: Id, env: BeginEnv)
      requires store.Valid()
      modifies this, store`rows
      ensures store.Valid() && World() == ProgressOne(old(World()), cfg, id, env)
    {
      var status := CheckChild(id);
      match status
      case ChildIndexComplete =>
        var begun := CompleteIndexAndStartMount(id, env);
        if begun.Err? {
          var _ := MarkFailed(id, MOUNT_START_FAILED + begun.reason, env.now);
        }
      case ChildMounted => var _ := MarkMounted(id, env.now);
      case ChildExited => var _ := MarkFailed(id, EXITED_EARLY, env.now);
      case _ =>
    }

    /** The children of the moment are visited in an order the registry does not promise. */
    method ProgressLive(env: Id -> BeginEnv) returns (ghost visited: seq<Id>)
      requires store.Valid()
      modifies this, store`rows
      ensures store.Valid()
      ensures NoDuplicates(visited) && forall id :: id in visited <==> id in old(live)
      ensures World() == ProgressAll(old(World()), cfg, visited, env)
    {
      var pending := live.Keys;
      visited := [];
      while pending != {}
        invariant store.Valid()
        invariant NoDuplicates(visited)
        invariant forall id :: id in visited <==> id in old(live) && id !in pending
        invariant pending <= old(live).Keys
        invariant World() == ProgressAll(old(World()), cfg, visited, env)
        decreases |pending|
      {
        var id :| id in pending;
        pending := pending - {id};
        Progress(id, env(id));
        visited := visited + [id];
      }
    }

    // ---- polling conversions ----

    method FailJob(id: Id, error: string, now: Time)
      requires id in store.rows
      modifies store`rows
      ensures World() == Lifecycle.FailJob(old(World()), cfg, id, error, now)
    {
      var row := store.rows[id];
      var failed := if row.firstMountedAt.None? then IndexFailed else MountFailed;
      var _ := store.Transition(id, failed, {row.status}, FailPatch(row, cfg.maxAttempts, error), now);
    }

    method PollJob(id: Id, env: BeginEnv)
      requires store.Valid()
      modifies this, store`rows
      ensures store.Valid() && World() == PollOne(old(World()), cfg, id, env)
    {
      if id !in jobs || jobs[id].state == InFlight {
        return;
      }
      var job := jobs[id];
      jobs := jobs - {id};
      if id in store.rows {
        FinishConvert(id, job, env);
      }
    }

    method FinishConvert(id: Id, job: Job, env: BeginEnv)
      requires store.Valid() && id in store.rows && job.state != InFlight
      modifies this, store`rows
      ensures store.Valid() && World() == FinishJob(old(World()), cfg, id, job, env)
    {
      match job.state
      case JobFailed(error) => FailJob(id, error, env.now);
      case JobDone(resultPath) =>
        var ok := CompleteConvertSuccess(id, if resultPath == "" then job.sourcePath else resultPath, env);
        if ok {
          var _ := BeginMount(id, Some(job.needsIndex), env);
        } else {
          FailJob(id, POST_CONVERT_FAILED, env.now);
        }
    }

    method PollConvert(env: Id -> BeginEnv) returns (ghost visited: seq<Id>)
      requires store.Valid()
      modifies this, store`rows
      ensures store.Valid()
      ensures NoDuplicates(visited) && forall id :: id in visited <==> id in old(jobs)
      ensures World() == PollAll(old(World()), cfg, visited, env)
    {
      var pending := jobs.Keys;
      visited := [];
      while pending != {}
        invariant store.Valid()
        invariant NoDuplicates(visited)
        invariant forall id :: id in visited <==> id in old(jobs) && id !in pending
        invariant pending <= old(jobs).Keys
        invariant World() == PollAll(old(World()), cfg, visited, env)
        decreases |pending|
      {
        var id :| id in pending;
        pending := pending - {id};
        PollJob(id, env(id));
        visited := visited + [id];
      }
    }

    // ---- unmounting ----

    method StopChild(id: Id, mountPath: string, unmounted: bool)
      requires id in store.rows
      modifies `alive, `live, `mounts
      ensures World() == Stopped(old(World()), id, mountPath, unmounted)
    {
      if id in live {
        alive := alive - {live[id].pid};
      } else if store.rows[id].mountPid.Some? {
        alive := alive - {store.rows[id].mountPid.value};
      }
      if unmounted {
        mounts := mounts - {mountPath};
      }
      live := live - {id};
    }

    method Unmount(id: Id, toAbsent: bool, unmounted: bool, now: Time)
      requires store.Valid()
      modifies this, store`rows
      ensures store.Valid() && World() == Lifecycle.Unmount(old(World()), id, toAbsent, unmounted, now)
    {
      if id !in store.rows {
        return;
      }
      var mountPath := if id in live then live[id].mountPath else store.rows[id].mountPath.GetOr("");
      var status := store.rows[id].status;
      if status != Unmounting && status != Absent {
        var _ := store.Transition(id, Unmounting, {status}, CLEAR_PID, now);
      }
      StopChild(id, mountPath, unmounted);
      if toAbsent {
        var _ := store.SetAbsent(id, Keep, now);
      }
    }
  }
}
