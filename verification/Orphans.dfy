/** The boot-time clean-up of ratarmount processes that no archive tracks
    (internal/mounter/orphans_unix.go). */
module Orphans {
  import opened ArchiveStore
  import opened Engines
  import opened Guarantees
  import opened Lifecycle
  import opened Options
  import opened PathLex
  import opened RatarmountArgv
  import opened Reconciling
  import opened RepairTheorems
  import opened Runs
  import opened Sequences
  import opened Strings
  import opened Tidiness

  /** A ratarmount process found in the process table, with its clean mount path. */
  datatype Proc = Proc(pid: nat, mountPath: string)

  /** mountUnderRoot. */
  predicate UnderRoot(mountPath: string, root: string) {
    Clean(mountPath) == Clean(root) || Clean(root) + "/" <= Clean(mountPath)
  }

  /** The process that belongs to a row: its live child, or else the stored pid; 0 when there is none. */
  function Tracked(w: World, id: Id): nat
    requires id in w.rows
  {
    if id in w.live && w.live[id].pid > 0 then w.live[id].pid else w.rows[id].mountPid.GetOr(0)
  }

  /** The row expects its tracked process at its mount path. */
  predicate Expects(w: World, root: string, id: Id) {
    && id in w.rows && w.rows[id].mountPath.Some?
    && UnderRoot(w.rows[id].mountPath.value, root)
    && IsActive(w.rows[id].status)
    && Tracked(w, id) > 0
  }

  function ExpectedPath(w: World, id: Id): string
    requires id in w.rows
  {
    Clean(w.rows[id].mountPath.GetOr(""))
  }

  /** The table of expected processes: of two rows with one path, the later counts. */
  function Expected(w: World, root: string, order: seq<Id>): map<string, nat> {
    if order == [] then map[]
    else
      var last := order[|order| - 1];
      var rest := Expected(w, root, order[..|order| - 1]);
      if Expects(w, root, last) then rest[ExpectedPath(w, last) := Tracked(w, last)] else rest
  }

  predicate Condemned(p: Proc, expected: map<string, nat>, root: string) {
    UnderRoot(p.mountPath, root) && !(p.mountPath in expected && expected[p.mountPath] == p.pid)
  }

  function KilledAmong(procs: seq<Proc>, expected: map<string, nat>, root: string): seq<nat> {
    if procs == [] then []
    else
      var last := procs[|procs| - 1];
      KilledAmong(procs[..|procs| - 1], expected, root) + if Condemned(last, expected, root) then [last.pid] else []
  }

  function PidsOf(pids: seq<nat>): set<nat> {
    set p | p in pids
  }

  function KilledAt(procs: seq<Proc>, expected: map<string, nat>, root: string): set<string> {
    set p | p in procs && Condemned(p, expected, root) :: p.mountPath
  }

  /** The mounts left behind by what was killed, whose tracked process is not running. */
  function ToClear(w: World, procs: seq<Proc>, expected: map<string, nat>, root: string): set<string> {
    set mp | mp in KilledAt(procs, expected, root) && mp in w.mounts
             && !(mp in expected && expected[mp] in w.alive)
  }

  /** ReconcileOrphanMounts. A mount that is cleared may stay when it cannot be unmounted. */
  function Reaped(w: World, root: string, order: seq<Id>, procs: seq<Proc>, stuck: set<string>): World {
    var expected := Expected(w, root, order);
    var killed := w.(alive := w.alive - PidsOf(KilledAmong(procs, expected, root)));
    killed.(mounts := killed.mounts - (ToClear(killed, procs, expected, root) - stuck))
  }

  /** A path is under the root when it is the root, or continues it after a slash; both are cleaned first. */
  lemma UnderRootIff(mountPath: string, root: string)
    ensures UnderRoot(mountPath, root) <==>
              Clean(mountPath) == Clean(root) || exists rest :: Clean(mountPath) == Clean(root) + "/" + rest
  {
    var p, r := Clean(mountPath), Clean(root) + "/";
    if r <= p {
      assert p == r + p[|r|..];
    }
  }

  method TrackedPid(e: Engine, id: Id, row: Row) returns (keep: nat)
    requires id in e.store.rows && row == e.store.rows[id]
    ensures keep == Tracked(e.World(), id)
  {
    keep := 0;
    if id in e.live && e.live[id].pid > 0 {
      keep := e.live[id].pid;
    }
    if keep == 0 && row.mountPid.Some? {
      keep := row.mountPid.value;
    }
  }

  lemma ExpectedNext(w: World, root: string, order: seq<Id>, i: nat)
    requires i < |order|
    ensures Expected(w, root, order[..i + 1]) ==
            var rest := Expected(w, root, order[..i]);
            if Expects(w, root, order[i]) then rest[ExpectedPath(w, order[i]) := Tracked(w, order[i])] else rest
  {
    assert order[..i + 1][..i] == order[..i];
  }

  /** The first half: the table of expected processes. */
  method ExpectedMounts(e: Engine) returns (expected: map<string, nat>)
    requires e.store.Valid()
    ensures expected == Expected(e.World(), e.cfg.mountRoot, e.store.order)
  {
    expected := map[];
    for i := 0 to |e.store.order|
      invariant expected == Expected(e.World(), e.cfg.mountRoot, e.store.order[..i])
    {
      var id := e.store.order[i];
      ExpectedNext(e.World(), e.cfg.mountRoot, e.store.order, i);
      var row := e.store.rows[id];
      if row.mountPath.None? {
        continue;
      }
      if !UnderRoot(row.mountPath.value, e.cfg.mountRoot) || !IsActive(row.status) {
        continue;
      }
      var keep := TrackedPid(e, id, row);
      if keep > 0 {
        expected := expected[Clean(row.mountPath.value) := keep];
      }
    }
    assert e.store.order[..|e.store.order|] == e.store.order;
  }

  lemma KilledNext(procs: seq<Proc>, i: nat, expected: map<string, nat>, root: string)
    requires i < |procs|
    ensures KilledAmong(procs[..i + 1], expected, root) ==
            KilledAmong(procs[..i], expected, root) + if Condemned(procs[i], expected, root) then [procs[i].pid] else []
    ensures KilledAt(procs[..i + 1], expected, root) ==
            KilledAt(procs[..i], expected, root)
            + if Condemned(procs[i], expected, root) then {procs[i].mountPath} else {}
  {
    assert procs[..i + 1][..i] == procs[..i];
    assert procs[..i + 1] == procs[..i] + [procs[i]];
  }

  /** The second half: everything under the root that is not expected is killed. */
  method KillOrphans(e: Engine, procs: seq<Proc>, expected: map<string, nat>)
    returns (pids: seq<nat>, paths: set<string>)
    modifies e`alive
    ensures pids == KilledAmong(procs, expected, e.cfg.mountRoot)
    ensures paths == KilledAt(procs, expected, e.cfg.mountRoot)
    ensures e.alive == old(e.alive) - PidsOf(pids)
  {
    pids, paths := [], {};
    for i := 0 to |procs|
      invariant pids == KilledAmong(procs[..i], expected, e.cfg.mountRoot)
      invariant paths == KilledAt(procs[..i], expected, e.cfg.mountRoot)
      invariant e.alive == old(e.alive) - PidsOf(pids)
    {
      var p := procs[i];
      KilledNext(procs, i, expected, e.cfg.mountRoot);
      if !UnderRoot(p.mountPath, e.cfg.mountRoot) || (p.mountPath in expected && p.pid == expected[p.mountPath]) {
        continue;
      }
      e.alive := e.alive - {p.pid};
      pids := pids + [p.pid];
      paths := paths + {p.mountPath};
    }
    assert procs[..|procs|] == procs;
  }

  method ReconcileOrphanMounts(e: Engine, procs: seq<Proc>, stuck: set<string>)
    returns (pids: seq<nat>, cleared: set<string>)
    requires e.store.Valid()
    modifies e`alive, e`mounts
    ensures pids == KilledAmong(procs, Expected(old(e.World()), e.cfg.mountRoot, e.store.order), e.cfg.mountRoot)
    ensures e.World() == Reaped(old(e.World()), e.cfg.mountRoot, e.store.order, procs, stuck)
    ensures e.mounts == old(e.mounts) - (cleared - stuck)
  {
    var expected := ExpectedMounts(e);
    var paths;
    pids, paths := KillOrphans(e, procs, expected);
    cleared := set mp | mp in paths && mp in e.mounts && !(mp in expected && expected[mp] in e.alive);
    assert cleared == ToClear(e.World(), procs, expected, e.cfg.mountRoot);
    e.mounts := e.mounts - (cleared - stuck);
  }

  // ---- who is killed ----

  lemma CleanIsRooted(path: string)
    requires Rooted(path)
    ensures Rooted(Clean(path))
  {}

  /** Under an absolute root no path cleans to the current directory. */
  lemma UnderRootIsStored(w: World, root: string, id: Id)
    requires Rooted(root) && Expects(w, root, id)
    ensures HasMountPath(w.rows[id])
  {
    CleanIsRooted(root);
    assert Clean("") == ".";
  }

  /** The stored paths of different rows are different, since their last elements are. */
  lemma ExpectedPathsDiffer(w: World, root: string, i: Id, j: Id)
    requires WellFormed(w) && Rooted(root) && i != j && Expects(w, root, i) && Expects(w, root, j)
    ensures ExpectedPath(w, i) != ExpectedPath(w, j)
  {
    UnderRootIsStored(w, root, i);
    UnderRootIsStored(w, root, j);
    assert CleanPath(w.rows[i]) && CleanPath(w.rows[j]);
  }

  lemma {:induction false} ExpectedIff(w: World, root: string, order: seq<Id>, path: string, pid: nat)
    requires WellFormed(w) && Rooted(root)
    ensures (path in Expected(w, root, order) && Expected(w, root, order)[path] == pid) <==>
            exists id :: id in order && Expects(w, root, id) && ExpectedPath(w, id) == path && Tracked(w, id) == pid
    decreases |order|
  {
    if order != [] {
      var front, last := order[..|order| - 1], order[|order| - 1];
      assert order == front + [last];
      ExpectedIff(w, root, front, path, pid);
      if Expects(w, root, last) && ExpectedPath(w, last) == path {
        forall id | id in order && Expects(w, root, id) && ExpectedPath(w, id) == path ensures id == last {
          if id != last {
            ExpectedPathsDiffer(w, root, id, last);
          }
        }
      }
    }
  }

  lemma {:induction false} KilledAmongIff(procs: seq<Proc>, expected: map<string, nat>, root: string, pid: nat)
    ensures pid in KilledAmong(procs, expected, root) <==>
            exists p :: p in procs && p.pid == pid && Condemned(p, expected, root)
    decreases |procs|
  {
    if procs != [] {
      var front, last := procs[..|procs| - 1], procs[|procs| - 1];
      assert procs == front + [last];
      KilledAmongIff(front, expected, root, pid);
    }
  }

  /** The process is the tracked child of an active archive, at that archive's mount path. */
  ghost predicate Belongs(w: World, root: string, p: Proc) {
    exists id :: Expects(w, root, id) && ExpectedPath(w, id) == p.mountPath && Tracked(w, id) == p.pid
  }

  /** In a well-formed state a listed ratarmount process is killed if and only if it is mounted under the
      root and is not the tracked child of an active archive with that mount path. */
  lemma KilledIff(w: World, root: string, order: seq<Id>, procs: seq<Proc>, pid: nat)
    requires WellFormed(w) && Rooted(root) && forall id :: id in w.rows ==> id in order
    ensures pid in KilledAmong(procs, Expected(w, root, order), root) <==>
            exists p :: p in procs && p.pid == pid && UnderRoot(p.mountPath, root) && !Belongs(w, root, p)
  {
    var expected := Expected(w, root, order);
    KilledAmongIff(procs, expected, root, pid);
    forall p | p in procs
      ensures Condemned(p, expected, root) <==> UnderRoot(p.mountPath, root) && !Belongs(w, root, p)
    {
      ExpectedIff(w, root, order, p.mountPath, p.pid);
    }
  }

  /** A mount is cleared if and only if a process was killed there, no process tracked for it is left running,
      and it comes off. */
  lemma ClearedIff(w: World, root: string, order: seq<Id>, procs: seq<Proc>, stuck: set<string>, mp: string)
    requires WellFormed(w) && Rooted(root) && (forall id :: id in w.rows ==> id in order) && mp in w.mounts
    ensures var w' := Reaped(w, root, order, procs, stuck);
            mp !in w'.mounts <==>
              && mp !in stuck
              && (exists p :: p in procs && p.mountPath == mp && UnderRoot(mp, root) && !Belongs(w, root, p))
              && !(exists id :: Expects(w, root, id) && ExpectedPath(w, id) == mp && Tracked(w, id) in w'.alive)
  {
    var expected := Expected(w, root, order);
    var killed := w.(alive := w.alive - PidsOf(KilledAmong(procs, expected, root)));
    forall p | p in procs
      ensures Condemned(p, expected, root) <==> UnderRoot(p.mountPath, root) && !Belongs(w, root, p)
    {
      ExpectedIff(w, root, order, p.mountPath, p.pid);
    }
    TrackedAt(w, root, order, mp, killed.alive);
  }

  lemma TrackedAt(w: World, root: string, order: seq<Id>, mp: string, alive: set<nat>)
    requires WellFormed(w) && Rooted(root) && forall id :: id in w.rows ==> id in order
    ensures var expected := Expected(w, root, order);
            (mp in expected && expected[mp] in alive) <==>
              exists id :: Expects(w, root, id) && ExpectedPath(w, id) == mp && Tracked(w, id) in alive
  {
    var expected := Expected(w, root, order);
    if mp in expected {
      ExpectedIff(w, root, order, mp, expected[mp]);
    }
    if id :| Expects(w, root, id) && ExpectedPath(w, id) == mp && Tracked(w, id) in alive {
      ExpectedIff(w, root, order, mp, Tracked(w, id));
    }
  }

  /** The boot pass leaves no row active, so right after it the table of expected processes is empty. */
  lemma {:induction false} NoneExpected(w: World, root: string, order: seq<Id>)
    requires forall id :: id in w.rows && id in order ==> !IsActive(w.rows[id].status)
    ensures Expected(w, root, order) == map[]
    decreases |order|
  {
    if order != [] {
      var front, last := order[..|order| - 1], order[|order| - 1];
      assert order == front + [last];
      NoneExpected(w, root, front);
    }
  }

  /** The clean-up runs right after the boot pass: it kills every listed process under the root, those of
      mounts that still work included. */
  lemma BootKillsAll(w: World, root: string, order: seq<Id>, s: Setup, procs: seq<Proc>, stuck: set<string>, p: Proc)
    requires NoDuplicates(order) && (forall id :: id in order ==> id in w.rows) && p in procs
    ensures var booted := BootPass(w, order, s).0;
            && (forall pid :: pid in KilledAmong(procs, Expected(booted, root, order), root) <==>
                  exists q :: q in procs && q.pid == pid && UnderRoot(q.mountPath, root))
            && (UnderRoot(p.mountPath, root) ==> p.pid !in Reaped(booted, root, order, procs, stuck).alive)
  {
    var booted := BootPass(w, order, s).0;
    BootPassResult(w, order, s);
    NoneExpected(booted, root, order);
    forall pid ensures pid in KilledAmong(procs, map[], root) <==>
                       exists q :: q in procs && q.pid == pid && UnderRoot(q.mountPath, root)
    {
      KilledAmongIff(procs, map[], root, pid);
      forall q | q in procs ensures Condemned(q, map[], root) <==> UnderRoot(q.mountPath, root) {}
    }
  }

  /** The path that a process of the daemon is listed with: the one parsed from the command line that was
      built for the mount path it was started with. */
  ghost predicate ListedAs(shown: string, started: string) {
    exists req: Request ::
      && NulFree(Argv(req)) && req.archivePath != "" && req.mountPath == started
      && ParseMountPath(Cmdline(Argv(req))) == Some(shown)
  }

  /** Every process that the daemon has started is listed by its own command line. */
  ghost predicate TrueListing(w: World, procs: seq<Proc>) {
    forall p :: p in procs && p.pid in w.paths ==> ListedAs(p.mountPath, w.paths[p.pid])
  }

  lemma ListedPath(shown: string, started: string)
    requires ListedAs(shown, started) && Trimmed(started) && started != ""
    ensures shown == Clean(started)
  {
    var req: Request :| NulFree(Argv(req)) && req.archivePath != "" && req.mountPath == started
                        && ParseMountPath(Cmdline(Argv(req))) == Some(shown);
    ParseOfBuild(req);
    assert TrimSpace(started) == started;
  }

  /** A path under an absolute root begins with a slash, once it is clean. */
  lemma UnderRootIsRooted(path: string, root: string)
    requires Rooted(root) && UnderRoot(path, root)
    ensures Rooted(Clean(path))
  {
    CleanIsRooted(root);
  }

  lemma CleanRootedPath(path: string)
    requires Rooted(Clean(path)) && path != ""
    ensures Rooted(path)
  {
    if !Rooted(path) {
      var parts := Resolve([], Split(path, '/'), false);
      SplitParts(path, '/');
      ResolveIsResolved([], Split(path, '/'), false);
      if parts != [] {
        JoinSlashStart(parts);
      }
    }
  }

  /** Where the tracked child of an active archive is listed: at the archive's mount path. */
  lemma TrackedIsListedAtItsPath(w: World, root: string, procs: seq<Proc>, id: Id, p: Proc)
    requires WellFormed(w) && Tidy(w) && Rooted(root) && Expects(w, root, id)
    requires TrueListing(w, procs) && p in procs && p.pid == Tracked(w, id)
    ensures p.mountPath == ExpectedPath(w, id)
  {
    TrackedStartedAt(w, id, Tracked(w, id));
    var path := w.rows[id].mountPath.value;
    UnderRootIsRooted(path, root);
    CleanRootedPath(path);
    SlashIsVisible();
    ListedPath(p.mountPath, path);
  }

  lemma SlashIsVisible()
    ensures !IsSpace('/')
  {}

  /** After every run the tracked child of an active archive survives the clean-up, as long as the process
      table shows every process of the daemon with the command line it was started with. */
  lemma TrackedChildSurvives(w: World, cfg: Config, events: seq<Event>, order: seq<Id>, procs: seq<Proc>,
                             stuck: set<string>, id: Id)
    requires WellFormed(w) && ValidConfig(cfg) && Tidy(w) && Rooted(cfg.mountRoot)
    requires var w' := Run(w, cfg, events);
             && (forall k :: k in w'.rows ==> k in order)
             && Expects(w', cfg.mountRoot, id)
             && Tracked(w', id) in w'.alive
             && TrueListing(w', procs)
    ensures var w' := Run(w, cfg, events);
            Tracked(w', id) in Reaped(w', cfg.mountRoot, order, procs, stuck).alive
  {
    var w' := Run(w, cfg, events);
    RunKeepsBounds(w, cfg, events);
    RunKeepsTidy(w, cfg, events);
    TrackedIsSpared(w', cfg.mountRoot, order, procs, stuck, id);
  }

  lemma TrackedIsSpared(w: World, root: string, order: seq<Id>, procs: seq<Proc>, stuck: set<string>, id: Id)
    requires WellFormed(w) && Tidy(w) && Rooted(root) && forall k :: k in w.rows ==> k in order
    requires Expects(w, root, id) && Tracked(w, id) in w.alive && TrueListing(w, procs)
    ensures Tracked(w, id) in Reaped(w, root, order, procs, stuck).alive
  {
    KilledIff(w, root, order, procs, Tracked(w, id));
    forall p | p in procs && p.pid == Tracked(w, id) ensures Belongs(w, root, p) {
      TrackedIsListedAtItsPath(w, root, procs, id, p);
      assert Expects(w, root, id) && ExpectedPath(w, id) == p.mountPath;
    }
  }

  /** After the clean-up every listed process under the root that is still running belongs to an active
      archive. */
  lemma OnlyTrackedRemain(w: World, root: string, order: seq<Id>, procs: seq<Proc>, stuck: set<string>, p: Proc)
    requires WellFormed(w) && Rooted(root) && forall id :: id in w.rows ==> id in order
    requires p in procs && UnderRoot(p.mountPath, root)
    requires p.pid in Reaped(w, root, order, procs, stuck).alive
    ensures Belongs(w, root, p)
  {
    KilledIff(w, root, order, procs, p.pid);
  }
}
