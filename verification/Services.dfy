/** One cycle of the service (internal/service/tick.go): repair when it is due, progress, finished
    conversions, then new work. Its counters are read once and go stale, and yet every cycle is a run of
    engine steps, so that all that holds over runs holds over cycles. */
module Services {
  import opened ArchiveStore
  import opened Engines
  import opened Guarantees
  import opened Lifecycle
  import opened Options
  import opened Reconcilers
  import opened Reconciling
  import opened Runs
  import opened Sequences
  import opened Sorting
  import opened Statuses
  import opened Steps

  /** What the machine answers while new work is started. */
  datatype Machine = Machine(
    lowDisk: bool, smallestFirst: bool,
    stable: string -> bool, isFile: string -> bool, preconvert: string -> bool,
    stuck: Id -> BeginEnv, found: Id -> BeginEnv, again: Id -> BeginEnv)

  /** The counters that startPendingWork keeps for itself. */
  datatype Tally = Tally(indexing: int, mounting: int, converting: int)

  // ---- the passes ----

  /** retryStuckIndexWork takes up rows that are in progress without a process or a job. */
  predicate Stuck(w: World, id: Id, m: Machine) {
    && id in w.rows && id !in w.jobs && id !in w.live
    && !PidAlive(w, w.rows[id])
    && m.isFile(w.rows[id].archivePath) && w.rows[id].mountRetryable
  }

  function StuckOne(w: World, cfg: Config, id: Id, m: Machine): World {
    if Stuck(w, id, m) then BeginMount(w, cfg, id, Some(w.rows[id].firstMountedAt.None?), m.stuck(id)).0 else w
  }

  function StuckPass(w: World, cfg: Config, ids: seq<Id>, m: Machine): World
    decreases |ids|
  {
    if ids == [] then w else StuckPass(StuckOne(w, cfg, ids[0], m), cfg, ids[1..], m)
  }

  function RetryStuck(w: World, cfg: Config, order: seq<Id>, m: Machine): World {
    var w1 := StuckPass(w, cfg, WithStatus(w.rows, order, Indexing), m);
    StuckPass(w1, cfg, WithStatus(w1.rows, order, Mounting), m)
  }

  /** A start that went ahead counts against its slot, a conversion against the conversions. */
  function Counted(tally: Tally, w: World, id: Id, begun: Begun, needsIndex: bool): Tally {
    match begun
    case Started(_) =>
      if needsIndex then tally.(indexing := tally.indexing + 1) else tally.(mounting := tally.mounting + 1)
    case Nothing => if id in w.jobs then tally.(converting := tally.converting + 1) else tally
    case Err(_) => tally
  }

  predicate NoConvertRoom(w: World, cfg: Config, id: Id, tally: Tally, m: Machine)
    requires id in w.rows
  {
    m.preconvert(w.rows[id].archivePath) && tally.converting >= cfg.maxConvert
  }

  predicate IsFresh(w: World, cfg: Config, id: Id, tally: Tally, m: Machine) {
    && id in w.rows && id !in w.jobs
    && m.stable(w.rows[id].archivePath) && m.isFile(w.rows[id].archivePath)
    && w.rows[id].mountRetryable
    && !NoConvertRoom(w, cfg, id, tally, m)
  }

  function FreshOne(w: World, cfg: Config, id: Id, tally: Tally, m: Machine): (World, Tally) {
    if IsFresh(w, cfg, id, tally, m) then
      var (w1, begun) := BeginMount(w, cfg, id, Some(true), m.found(id));
      (w1, Counted(tally, w1, id, begun, true))
    else (w, tally)
  }

  /** First-time indexing of the discovered rows. */
  function FreshPass(w: World, cfg: Config, ids: seq<Id>, tally: Tally, m: Machine): (World, Tally)
    decreases |ids|
  {
    if ids == [] || tally.indexing >= cfg.maxIndex then (w, tally)
    else
      var (w1, t1) := FreshOne(w, cfg, ids[0], tally, m);
      FreshPass(w1, cfg, ids[1..], t1, m)
  }

  predicate IsRetry(w: World, cfg: Config, id: Id, tally: Tally, m: Machine) {
    && id in w.rows && id !in w.jobs
    && w.rows[id].mountRetryable && m.isFile(w.rows[id].archivePath)
    && !NoConvertRoom(w, cfg, id, tally, m)
  }

  predicate IndexMissing(w: World, id: Id)
    requires id in w.rows
  {
    !IndexReady(w, w.rows[id].indexPath.GetOr(""))
  }

  /** The first retry that finds its kind of slot taken ends the pass. */
  predicate Halts(w: World, cfg: Config, id: Id, tally: Tally, m: Machine) {
    && IsRetry(w, cfg, id, tally, m)
    && if IndexMissing(w, id) then tally.indexing >= cfg.maxIndex else LimitReached(tally.mounting, cfg.maxMount)
  }

  function RetryOne(w: World, cfg: Config, id: Id, tally: Tally, m: Machine): (World, Tally) {
    if IsRetry(w, cfg, id, tally, m) then
      var (w1, begun) := BeginMount(w, cfg, id, Some(false), m.again(id));
      (w1, Counted(tally, w1, id, begun, IndexMissing(w, id)))
    else (w, tally)
  }

  /** Another try for the rows that failed to mount. */
  function RetryPass(w: World, cfg: Config, ids: seq<Id>, tally: Tally, m: Machine): (World, Tally)
    decreases |ids|
  {
    if ids == [] || Halts(w, cfg, ids[0], tally, m) then (w, tally)
    else
      var (w1, t1) := RetryOne(w, cfg, ids[0], tally, m);
      RetryPass(w1, cfg, ids[1..], t1, m)
  }

  function FirstTally(w: World, order: seq<Id>): Tally {
    Tally(Slots(w, Indexing), Slots(w, Mounting), |WithStatus(w.rows, order, Converting)|)
  }

  function Discoveries(w: World, order: seq<Id>, m: Machine): seq<Id> {
    Candidates(w.rows, WithStatus(w.rows, order, Discovered), m.smallestFirst)
  }

  function IndexingWork(w: World, cfg: Config, order: seq<Id>, tally: Tally, m: Machine): (World, Tally) {
    if tally.indexing < (if m.lowDisk then 0 else cfg.maxIndex)
    then FreshPass(w, cfg, Discoveries(w, order, m), tally, m) else (w, tally)
  }

  /** startPendingWork. The tally is taken before the stuck rows are taken up. */
  function PendingWork(w: World, cfg: Config, order: seq<Id>, m: Machine): World {
    var (w1, t1) := IndexingWork(RetryStuck(w, cfg, order, m), cfg, order, FirstTally(w, order), m);
    RetryPass(w1, cfg, WithStatus(w1.rows, order, MountFailed), t1, m).0
  }

  // ---- every pass is a run of engine steps ----

  ghost predicate Reaches(w: World, w': World, cfg: Config) {
    exists events :: Run(w, cfg, events) == w'
  }

  lemma {:induction false} RunAppend(w: World, cfg: Config, a: seq<Event>, b: seq<Event>)
    ensures Run(w, cfg, a + b) == Run(Run(w, cfg, a), cfg, b)
    decreases |a|
  {
    if a == [] {
      assert a + b == b;
    } else {
      assert (a + b)[1..] == a[1..] + b;
      RunAppend(Next(w, cfg, a[0]), cfg, a[1..], b);
    }
  }

  lemma ReachesRefl(w: World, cfg: Config)
    ensures Reaches(w, w, cfg)
  {
    assert Run(w, cfg, []) == w;
  }

  lemma ReachesTrans(w0: World, w1: World, w2: World, cfg: Config)
    requires Reaches(w0, w1, cfg) && Reaches(w1, w2, cfg)
    ensures Reaches(w0, w2, cfg)
  {
    var a :| Run(w0, cfg, a) == w1;
    var b :| Run(w1, cfg, b) == w2;
    RunAppend(w0, cfg, a, b);
  }

  lemma ReachesNext(w: World, w': World, cfg: Config, e: Event)
    requires w' == Next(w, cfg, e)
    ensures Reaches(w, w', cfg)
  {
    RunOne(w, w', cfg, e);
    assert Run(w, cfg, [e]) == w';
  }

  lemma RunOne(w: World, w': World, cfg: Config, e: Event)
    requires w' == Next(w, cfg, e)
    ensures Run(w, cfg, [e]) == w'
  {
    assert Run(w', cfg, []) == w';
    assert [e][1..] == [];
  }

  lemma BeginReaches(w: World, cfg: Config, id: Id, first: Option<bool>, env: BeginEnv)
    ensures Reaches(w, BeginMount(w, cfg, id, first, env).0, cfg)
  {
    ReachesNext(w, BeginMount(w, cfg, id, first, env).0, cfg, Begin(id, first, env));
  }

  lemma StuckOneReaches(w: World, cfg: Config, id: Id, m: Machine)
    ensures Reaches(w, StuckOne(w, cfg, id, m), cfg)
  {
    ReachesRefl(w, cfg);
    if Stuck(w, id, m) {
      BeginReaches(w, cfg, id, Some(w.rows[id].firstMountedAt.None?), m.stuck(id));
    }
  }

  lemma FreshOneReaches(w: World, cfg: Config, id: Id, tally: Tally, m: Machine)
    ensures Reaches(w, FreshOne(w, cfg, id, tally, m).0, cfg)
  {
    ReachesRefl(w, cfg);
    BeginReaches(w, cfg, id, Some(true), m.found(id));
  }

  lemma RetryOneReaches(w: World, cfg: Config, id: Id, tally: Tally, m: Machine)
    ensures Reaches(w, RetryOne(w, cfg, id, tally, m).0, cfg)
  {
    ReachesRefl(w, cfg);
    BeginReaches(w, cfg, id, Some(false), m.again(id));
  }

  lemma {:induction false} StuckPassReaches(w: World, cfg: Config, ids: seq<Id>, m: Machine)
    ensures Reaches(w, StuckPass(w, cfg, ids, m), cfg)
    decreases |ids|
  {
    ReachesRefl(w, cfg);
    if ids != [] {
      var w1 := StuckOne(w, cfg, ids[0], m);
      StuckOneReaches(w, cfg, ids[0], m);
      StuckPassReaches(w1, cfg, ids[1..], m);
      ReachesTrans(w, w1, StuckPass(w1, cfg, ids[1..], m), cfg);
    }
  }

  lemma {:induction false} FreshPassReaches(w: World, cfg: Config, ids: seq<Id>, tally: Tally, m: Machine)
    ensures Reaches(w, FreshPass(w, cfg, ids, tally, m).0, cfg)
    decreases |ids|
  {
    ReachesRefl(w, cfg);
    if ids != [] && tally.indexing < cfg.maxIndex {
      var (w1, t1) := FreshOne(w, cfg, ids[0], tally, m);
      FreshOneReaches(w, cfg, ids[0], tally, m);
      FreshPassReaches(w1, cfg, ids[1..], t1, m);
      ReachesTrans(w, w1, FreshPass(w1, cfg, ids[1..], t1, m).0, cfg);
    }
  }

  lemma {:induction false} RetryPassReaches(w: World, cfg: Config, ids: seq<Id>, tally: Tally, m: Machine)
    ensures Reaches(w, RetryPass(w, cfg, ids, tally, m).0, cfg)
    decreases |ids|
  {
    ReachesRefl(w, cfg);
    if ids != [] && !Halts(w, cfg, ids[0], tally, m) {
      var (w1, t1) := RetryOne(w, cfg, ids[0], tally, m);
      RetryOneReaches(w, cfg, ids[0], tally, m);
      RetryPassReaches(w1, cfg, ids[1..], t1, m);
      ReachesTrans(w, w1, RetryPass(w1, cfg, ids[1..], t1, m).0, cfg);
    }
  }

  lemma RetryStuckReaches(w: World, cfg: Config, order: seq<Id>, m: Machine)
    ensures Reaches(w, RetryStuck(w, cfg, order, m), cfg)
  {
    var w1 := StuckPass(w, cfg, WithStatus(w.rows, order, Indexing), m);
    StuckPassReaches(w, cfg, WithStatus(w.rows, order, Indexing), m);
    StuckPassReaches(w1, cfg, WithStatus(w1.rows, order, Mounting), m);
    ReachesTrans(w, w1, StuckPass(w1, cfg, WithStatus(w1.rows, order, Mounting), m), cfg);
  }

  lemma IndexingWorkReaches(w: World, cfg: Config, order: seq<Id>, tally: Tally, m: Machine)
    ensures Reaches(w, IndexingWork(w, cfg, order, tally, m).0, cfg)
  {
    ReachesRefl(w, cfg);
    FreshPassReaches(w, cfg, Discoveries(w, order, m), tally, m);
  }

  /** Starting new work is a run of starts. */
  lemma PendingWorkReaches(w: World, cfg: Config, order: seq<Id>, m: Machine)
    ensures Reaches(w, PendingWork(w, cfg, order, m), cfg)
  {
    var w0 := RetryStuck(w, cfg, order, m);
    var tally := FirstTally(w, order);
    var (w1, t1) := IndexingWork(w0, cfg, order, tally, m);
    RetryStuckReaches(w, cfg, order, m);
    IndexingWorkReaches(w0, cfg, order, tally, m);
    ReachesTrans(w, w0, w1, cfg);
    RetryPassReaches(w1, cfg, WithStatus(w1.rows, order, MountFailed), t1, m);
    ReachesTrans(w, w1, RetryPass(w1, cfg, WithStatus(w1.rows, order, MountFailed), t1, m).0, cfg);
  }

  lemma {:induction false} ProgressAllReaches(w: World, cfg: Config, order: seq<Id>, env: Id -> BeginEnv)
    ensures Reaches(w, ProgressAll(w, cfg, order, env), cfg)
    decreases |order|
  {
    ReachesRefl(w, cfg);
    if order != [] {
      var last := order[|order| - 1];
      var w1 := ProgressAll(w, cfg, order[..|order| - 1], env);
      ProgressAllReaches(w, cfg, order[..|order| - 1], env);
      ReachesNext(w1, ProgressOne(w1, cfg, last, env(last)), cfg, Progress(last, env(last)));
      ReachesTrans(w, w1, ProgressOne(w1, cfg, last, env(last)), cfg);
    }
  }

  lemma {:induction false} PollAllReaches(w: World, cfg: Config, order: seq<Id>, env: Id -> BeginEnv)
    ensures Reaches(w, PollAll(w, cfg, order, env), cfg)
    decreases |order|
  {
    ReachesRefl(w, cfg);
    if order != [] {
      var last := order[|order| - 1];
      var w1 := PollAll(w, cfg, order[..|order| - 1], env);
      PollAllReaches(w, cfg, order[..|order| - 1], env);
      ReachesNext(w1, PollOne(w1, cfg, last, env(last)), cfg, Poll(last, env(last)));
      ReachesTrans(w, w1, PollOne(w1, cfg, last, env(last)), cfg);
    }
  }

  lemma {:induction false} ReconcileReaches(w: World, cfg: Config, order: seq<Id>, s: Setup)
    requires s.maxAttempts == cfg.maxAttempts
    ensures Reaches(w, Reconcile(w, order, s).0, cfg)
    decreases |order|
  {
    ReachesRefl(w, cfg);
    if order != [] {
      var n := |order| - 1;
      var w1 := Reconcile(w, order[..n], s).0;
      ReconcileReaches(w, cfg, order[..n], s);
      assert s.(maxAttempts := cfg.maxAttempts) == s;
      ReachesNext(w1, RepairRow(w1, order[n], s).0, cfg, Repair(order[n], s));
      ReachesTrans(w, w1, RepairRow(w1, order[n], s).0, cfg);
    }
  }

  /** What is reached within the limits stays within them, and its mount names stay distinct. */
  lemma ReachesKeepsBounds(w: World, w': World, cfg: Config)
    requires WellFormed(w) && ValidConfig(cfg) && Reaches(w, w', cfg)
    ensures SlotBound(w, w', cfg) && JobBound(w, w', cfg) && WellFormed(w') && w.rows.Keys <= w'.rows.Keys
  {
    var events :| Run(w, cfg, events) == w';
    RunKeepsBounds(w, cfg, events);
  }

  // ---- what new work leaves alone ----

  /** The archive's row and live entry are as they were. */
  ghost predicate LeftAlone(w: World, w': World, id: Id) {
    && w'.rows.Keys == w.rows.Keys
    && (id in w.rows ==> w'.rows[id] == w.rows[id])
    && (id in w'.live <==> id in w.live)
    && (id in w.live ==> w'.live[id] == w.live[id])
  }

  lemma StuckOneStep(w: World, cfg: Config, k: Id, m: Machine)
    requires WellFormed(w) && ValidConfig(cfg)
    ensures Step(w, StuckOne(w, cfg, k, m), k, cfg)
  {
    StepRefl(w, k, cfg);
    if Stuck(w, k, m) {
      BeginMountStep(w, cfg, k, Some(w.rows[k].firstMountedAt.None?), m.stuck(k));
    }
  }

  lemma FreshOneStep(w: World, cfg: Config, k: Id, tally: Tally, m: Machine)
    requires WellFormed(w) && ValidConfig(cfg)
    ensures Step(w, FreshOne(w, cfg, k, tally, m).0, k, cfg)
  {
    StepRefl(w, k, cfg);
    BeginMountStep(w, cfg, k, Some(true), m.found(k));
  }

  lemma RetryOneStep(w: World, cfg: Config, k: Id, tally: Tally, m: Machine)
    requires WellFormed(w) && ValidConfig(cfg)
    ensures Step(w, RetryOne(w, cfg, k, tally, m).0, k, cfg)
  {
    StepRefl(w, k, cfg);
    BeginMountStep(w, cfg, k, Some(false), m.again(k));
  }

  lemma StepLeavesAlone(w: World, w': World, k: Id, cfg: Config, id: Id)
    requires Step(w, w', k, cfg) && (k != id || w' == w)
    ensures LeftAlone(w, w', id)
  {}

  lemma LeftAloneTrans(w0: World, w1: World, w2: World, id: Id)
    requires LeftAlone(w0, w1, id) && LeftAlone(w1, w2, id)
    ensures LeftAlone(w0, w2, id)
  {}

  /** A pass over these ids has nothing to do with the archive. */
  ghost predicate Parked(w: World, ids: seq<Id>, id: Id) {
    id in ids ==> id in w.rows && !w.rows[id].mountRetryable
  }

  lemma {:induction false} StuckPassLeavesAlone(w: World, cfg: Config, ids: seq<Id>, m: Machine, id: Id)
    requires WellFormed(w) && ValidConfig(cfg) && Parked(w, ids, id)
    ensures LeftAlone(w, StuckPass(w, cfg, ids, m), id) && WellFormed(StuckPass(w, cfg, ids, m))
    decreases |ids|
  {
    if ids != [] {
      var w1 := StuckOne(w, cfg, ids[0], m);
      StuckOneStep(w, cfg, ids[0], m);
      StepLeavesAlone(w, w1, ids[0], cfg, id);
      StuckPassLeavesAlone(w1, cfg, ids[1..], m, id);
      LeftAloneTrans(w, w1, StuckPass(w1, cfg, ids[1..], m), id);
    }
  }

  lemma {:induction false} FreshPassLeavesAlone(w: World, cfg: Config, ids: seq<Id>, tally: Tally, m: Machine, id: Id)
    requires WellFormed(w) && ValidConfig(cfg) && Parked(w, ids, id)
    ensures LeftAlone(w, FreshPass(w, cfg, ids, tally, m).0, id) && WellFormed(FreshPass(w, cfg, ids, tally, m).0)
    decreases |ids|
  {
    if ids != [] && tally.indexing < cfg.maxIndex {
      var (w1, t1) := FreshOne(w, cfg, ids[0], tally, m);
      FreshOneStep(w, cfg, ids[0], tally, m);
      StepLeavesAlone(w, w1, ids[0], cfg, id);
      FreshPassLeavesAlone(w1, cfg, ids[1..], t1, m, id);
      LeftAloneTrans(w, w1, FreshPass(w1, cfg, ids[1..], t1, m).0, id);
    }
  }

  lemma {:induction false} RetryPassLeavesAlone(w: World, cfg: Config, ids: seq<Id>, tally: Tally, m: Machine, id: Id)
    requires WellFormed(w) && ValidConfig(cfg) && Parked(w, ids, id)
    ensures LeftAlone(w, RetryPass(w, cfg, ids, tally, m).0, id) && WellFormed(RetryPass(w, cfg, ids, tally, m).0)
    decreases |ids|
  {
    if ids != [] && !Halts(w, cfg, ids[0], tally, m) {
      var (w1, t1) := RetryOne(w, cfg, ids[0], tally, m);
      RetryOneStep(w, cfg, ids[0], tally, m);
      StepLeavesAlone(w, w1, ids[0], cfg, id);
      RetryPassLeavesAlone(w1, cfg, ids[1..], t1, m, id);
      LeftAloneTrans(w, w1, RetryPass(w1, cfg, ids[1..], t1, m).0, id);
    }
  }

  /** New work never touches an archive that may not be retried, nor one that is not discovered, in
      progress or failed to mount. A row in index_failed stays there until its attempts are reset. */
  lemma NewWorkLeavesAlone(w: World, cfg: Config, order: seq<Id>, m: Machine, id: Id)
    requires WellFormed(w) && ValidConfig(cfg) && id in w.rows
    requires !w.rows[id].mountRetryable || w.rows[id].status !in {Discovered, Indexing, Mounting, MountFailed}
    ensures LeftAlone(w, PendingWork(w, cfg, order, m), id)
  {
    var w1 := StuckPass(w, cfg, WithStatus(w.rows, order, Indexing), m);
    StuckPassLeavesAlone(w, cfg, WithStatus(w.rows, order, Indexing), m, id);
    var w2 := StuckPass(w1, cfg, WithStatus(w1.rows, order, Mounting), m);
    StuckPassLeavesAlone(w1, cfg, WithStatus(w1.rows, order, Mounting), m, id);
    LeftAloneTrans(w, w1, w2, id);
    var tally := FirstTally(w, order);
    var (w3, t3) := IndexingWork(w2, cfg, order, tally, m);
    IndexingWorkLeavesAlone(w2, cfg, order, tally, m, id);
    LeftAloneTrans(w, w2, w3, id);
    var failed := WithStatus(w3.rows, order, MountFailed);
    RetryPassLeavesAlone(w3, cfg, failed, t3, m, id);
    LeftAloneTrans(w, w3, RetryPass(w3, cfg, failed, t3, m).0, id);
  }

  lemma DiscoveriesAreDiscovered(w: World, order: seq<Id>, m: Machine, id: Id)
    requires id in Discoveries(w, order, m)
    ensures id in w.rows && w.rows[id].status == Discovered
  {
    var listed := WithStatus(w.rows, order, Discovered);
    SortedResult(w.rows, listed);
    assert id in multiset(Discoveries(w, order, m));
    assert id in multiset(listed);
  }

  lemma IndexingWorkLeavesAlone(w: World, cfg: Config, order: seq<Id>, tally: Tally, m: Machine, id: Id)
    requires WellFormed(w) && ValidConfig(cfg) && id in w.rows
    requires !w.rows[id].mountRetryable || w.rows[id].status != Discovered
    ensures var w' := IndexingWork(w, cfg, order, tally, m).0; LeftAlone(w, w', id) && WellFormed(w')
  {
    var ids := Discoveries(w, order, m);
    if id in ids {
      DiscoveriesAreDiscovered(w, order, m, id);
    }
    FreshPassLeavesAlone(w, cfg, ids, tally, m, id);
  }

  // ---- the service ----

  class Service {
    const engine: Engine
    const reconciler: Reconciler

    constructor (engine: Engine)
      ensures this.engine == engine && this.reconciler.engine == engine && fresh(this.reconciler)
    {
      this.engine := engine;
      this.reconciler := new Reconciler(engine);
    }

    /** The engine's state satisfies the invariant. */
    ghost predicate Valid()
      reads engine, engine.store
    {
      engine.store.Valid() && WellFormed(engine.World()) && ValidConfig(engine.cfg)
    }

    /** The rows that a pass has yet to visit are as they were listed. */
    ghost predicate Listed(ids: seq<Id>, i: nat, recs: Rows)
      reads engine.store
    {
      && recs.Keys == engine.store.rows.Keys && (forall k :: i <= k < |ids| ==> ids[k] in recs)
      && forall k :: i <= k < |ids| ==> engine.store.rows[ids[k]] == recs[ids[k]]
    }

    method TryStuck(id: Id, row: Row, m: Machine)
      requires Valid() && id in engine.store.rows && row == engine.store.rows[id]
      modifies engine, engine.store`rows
      ensures Valid() && Step(old(engine.World()), engine.World(), id, engine.cfg)
      ensures engine.World() == StuckOne(old(engine.World()), engine.cfg, id, m)
    {
      StuckOneStep(engine.World(), engine.cfg, id, m);
      if id in engine.jobs || id in engine.live || (row.mountPid.Some? && row.mountPid.value in engine.alive)
         || !m.isFile(row.archivePath) || !row.mountRetryable {
        return;
      }
      var _ := engine.BeginMount(id, Some(row.firstMountedAt.None?), m.stuck(id));
    }

    method StuckAt(ids: seq<Id>, i: nat, recs: Rows, m: Machine, ghost pass: World)
      requires Valid() && NoDuplicates(ids) && i < |ids| && Listed(ids, i, recs)
      requires pass == StuckPass(engine.World(), engine.cfg, ids[i..], m)
      modifies engine, engine.store`rows
      ensures Valid() && Listed(ids, i + 1, recs)
      ensures pass == StuckPass(engine.World(), engine.cfg, ids[i + 1..], m)
    {
      ghost var w := engine.World();
      TryStuck(ids[i], recs[ids[i]], m);
      StuckNext(w, engine.World(), engine.cfg, ids, i, m);
    }

    method TakeUpStuck(status: Status, m: Machine)
      requires Valid()
      modifies engine, engine.store`rows
      ensures Valid()
      ensures var ids := WithStatus(old(engine.store.rows), engine.store.order, status);
              engine.World() == StuckPass(old(engine.World()), engine.cfg, ids, m)
    {
      var ids := engine.store.ListArchives(Only(status));
      var recs := engine.store.rows;
      ghost var pass := StuckPass(engine.World(), engine.cfg, ids, m);
      assert ids[0..] == ids;
      for i := 0 to |ids|
        invariant Valid() && Listed(ids, i, recs)
        invariant pass == StuckPass(engine.World(), engine.cfg, ids[i..], m)
      {
        StuckAt(ids, i, recs, m, pass);
      }
    }

    /** retryStuckIndexWork. */
    method RetryStuckIndexWork(m: Machine)
      requires Valid()
      modifies engine, engine.store`rows
      ensures Valid()
      ensures engine.World() == RetryStuck(old(engine.World()), engine.cfg, engine.store.order, m)
    {
      TakeUpStuck(Indexing, m);
      TakeUpStuck(Mounting, m);
    }

    method TryFresh(id: Id, row: Row, tally: Tally, m: Machine) returns (next: Tally)
      requires Valid() && id in engine.store.rows && row == engine.store.rows[id]
      modifies engine, engine.store`rows
      ensures Valid() && Step(old(engine.World()), engine.World(), id, engine.cfg)
      ensures (engine.World(), next) == FreshOne(old(engine.World()), engine.cfg, id, tally, m)
    {
      FreshOneStep(engine.World(), engine.cfg, id, tally, m);
      if id in engine.jobs || !m.stable(row.archivePath) || !m.isFile(row.archivePath) || !row.mountRetryable {
        return tally;
      }
      if m.preconvert(row.archivePath) && tally.converting >= engine.cfg.maxConvert {
        return tally;
      }
      var begun := engine.BeginMount(id, Some(true), m.found(id));
      next := Counted(tally, engine.World(), id, begun, true);
    }

    method FreshAt(ids: seq<Id>, i: nat, recs: Rows, tally: Tally, m: Machine, ghost pass: (World, Tally))
      returns (next: Tally)
      requires Valid() && NoDuplicates(ids) && i < |ids| && Listed(ids, i, recs) && tally.indexing < engine.cfg.maxIndex
      requires pass == FreshPass(engine.World(), engine.cfg, ids[i..], tally, m)
      modifies engine, engine.store`rows
      ensures Valid() && Listed(ids, i + 1, recs)
      ensures pass == FreshPass(engine.World(), engine.cfg, ids[i + 1..], next, m)
    {
      ghost var w := engine.World();
      next := TryFresh(ids[i], recs[ids[i]], tally, m);
      FreshNext(w, tally, engine.World(), next, engine.cfg, ids, i, m);
    }

    method IndexInOrder(ids: seq<Id>, recs: Rows, tally: Tally, m: Machine) returns (next: Tally)
      requires Valid() && NoDuplicates(ids) && Known(recs, ids) && recs == engine.store.rows
      modifies engine, engine.store`rows
      ensures Valid()
      ensures (engine.World(), next) == FreshPass(old(engine.World()), engine.cfg, ids, tally, m)
    {
      ghost var pass := FreshPass(engine.World(), engine.cfg, ids, tally, m);
      assert ids[0..] == ids;
      next := tally;
      var i := 0;
      while i < |ids| && next.indexing < engine.cfg.maxIndex
        invariant 0 <= i <= |ids| && Valid() && Listed(ids, i, recs)
        invariant pass == FreshPass(engine.World(), engine.cfg, ids[i..], next, m)
      {
        next := FreshAt(ids, i, recs, next, m, pass);
        i := i + 1;
      }
    }

    method IndexDiscovered(tally: Tally, m: Machine) returns (next: Tally)
      requires Valid()
      modifies engine, engine.store`rows
      ensures Valid()
      ensures var ids := Discoveries(old(engine.World()), engine.store.order, m);
              (engine.World(), next) == FreshPass(old(engine.World()), engine.cfg, ids, tally, m)
    {
      var listed := engine.store.ListArchives(Only(Discovered));
      CandidatesDistinct(engine.store.rows, listed, m.smallestFirst);
      next := IndexInOrder(Candidates(engine.store.rows, listed, m.smallestFirst), engine.store.rows, tally, m);
    }

    method TryAgain(id: Id, row: Row, tally: Tally, m: Machine) returns (halt: bool, next: Tally)
      requires Valid() && id in engine.store.rows && row == engine.store.rows[id]
      modifies engine, engine.store`rows
      ensures Valid() && Step(old(engine.World()), engine.World(), id, engine.cfg)
      ensures halt == Halts(old(engine.World()), engine.cfg, id, tally, m)
      ensures halt ==> engine.World() == old(engine.World()) && next == tally
      ensures !halt ==> (engine.World(), next) == RetryOne(old(engine.World()), engine.cfg, id, tally, m)
    {
      StepRefl(engine.World(), id, engine.cfg);
      RetryOneStep(engine.World(), engine.cfg, id, tally, m);
      if !row.mountRetryable || !m.isFile(row.archivePath) || id in engine.jobs {
        return false, tally;
      }
      if m.preconvert(row.archivePath) && tally.converting >= engine.cfg.maxConvert {
        return false, tally;
      }
      var needsIndex := !IndexReady(engine.World(), row.indexPath.GetOr(""));
      if needsIndex {
        if tally.indexing >= engine.cfg.maxIndex {
          return true, tally;
        }
      } else if LimitReached(tally.mounting, engine.cfg.maxMount) {
        return true, tally;
      }
      var begun := engine.BeginMount(id, Some(false), m.again(id));
      return false, Counted(tally, engine.World(), id, begun, needsIndex);
    }

    method RetryAt(ids: seq<Id>, i: nat, recs: Rows, tally: Tally, m: Machine, ghost pass: (World, Tally))
      returns (halt: bool, next: Tally)
      requires Valid() && NoDuplicates(ids) && i < |ids| && Listed(ids, i, recs)
      requires pass == RetryPass(engine.World(), engine.cfg, ids[i..], tally, m)
      modifies engine, engine.store`rows
      ensures Valid()
      ensures halt ==> pass == (engine.World(), next)
      ensures !halt ==> Listed(ids, i + 1, recs) && pass == RetryPass(engine.World(), engine.cfg, ids[i + 1..], next, m)
    {
      ghost var w := engine.World();
      halt, next := TryAgain(ids[i], recs[ids[i]], tally, m);
      if halt {
        RetryHalts(w, tally, engine.cfg, ids, i, m);
      } else {
        RetryNext(w, tally, engine.World(), next, engine.cfg, ids, i, m);
      }
    }

    method RetryFailed(tally: Tally, m: Machine) returns (next: Tally)
      requires Valid()
      modifies engine, engine.store`rows
      ensures Valid()
      ensures var ids := WithStatus(old(engine.store.rows), engine.store.order, MountFailed);
              (engine.World(), next) == RetryPass(old(engine.World()), engine.cfg, ids, tally, m)
    {
      var ids := engine.store.ListArchives(Only(MountFailed));
      var recs := engine.store.rows;
      ghost var pass := RetryPass(engine.World(), engine.cfg, ids, tally, m);
      assert ids[0..] == ids;
      next := tally;
      for i := 0 to |ids|
        invariant Valid() && Listed(ids, i, recs)
        invariant pass == RetryPass(engine.World(), engine.cfg, ids[i..], next, m)
      {
        var halt;
        halt, next := RetryAt(ids, i, recs, next, m, pass);
        if halt {
          return;
        }
      }
    }

    /** startPendingWork: the counters are read once, before the stuck rows are taken up. */
    method StartPendingWork(m: Machine)
      requires Valid()
      modifies engine, engine.store`rows
      ensures Valid()
      ensures engine.World() == PendingWork(old(engine.World()), engine.cfg, engine.store.order, m)
    {
      var slots := if m.lowDisk then 0 else engine.cfg.maxIndex;
      var indexing := engine.ActiveCount(Indexing);
      var mounting := engine.ActiveCount(Mounting);
      var converts := engine.store.ListArchives(Only(Converting));
      var tally := Tally(indexing, mounting, |converts|);
      RetryStuckIndexWork(m);
      if tally.indexing < slots {
        tally := IndexDiscovered(tally, m);
      }
      tally := RetryFailed(tally, m);
    }

    /** Tick, without scanning, cleaning and hooks: the limits hold across it. */
    method Tick(due: Option<Setup>, progress: Id -> BeginEnv, poll: Id -> BeginEnv, m: Machine)
      requires Valid() && reconciler.engine == engine
      requires due.Some? ==> due.value.maxAttempts == engine.cfg.maxAttempts
      modifies engine, engine.store`rows
      ensures Valid() && Reaches(old(engine.World()), engine.World(), engine.cfg)
      ensures SlotBound(old(engine.World()), engine.World(), engine.cfg)
      ensures JobBound(old(engine.World()), engine.World(), engine.cfg)
    {
      ghost var w0 := engine.World();
      ReachesRefl(w0, engine.cfg);
      if due.Some? {
        ReconcileReaches(w0, engine.cfg, engine.store.order, due.value);
        ReachesKeepsBounds(w0, Reconcile(w0, engine.store.order, due.value).0, engine.cfg);
        var _ := reconciler.Reconcile(due.value);
      }
      ghost var w1 := engine.World();
      ghost var visited := engine.ProgressLive(progress);
      ghost var w2 := engine.World();
      ProgressAllReaches(w1, engine.cfg, visited, progress);
      ReachesTrans(w0, w1, w2, engine.cfg);
      ghost var polled := engine.PollConvert(poll);
      ghost var w3 := engine.World();
      PollAllReaches(w2, engine.cfg, polled, poll);
      ReachesTrans(w0, w2, w3, engine.cfg);
      ReachesKeepsBounds(w0, w3, engine.cfg);
      StartPendingWork(m);
      PendingWorkReaches(w3, engine.cfg, engine.store.order, m);
      ReachesTrans(w0, w3, engine.World(), engine.cfg);
      ReachesKeepsBounds(w0, engine.World(), engine.cfg);
    }
  }

  // ---- a pass over one row more ----

  lemma StuckNext(w1: World, w2: World, cfg: Config, ids: seq<Id>, i: nat, m: Machine)
    requires i < |ids| && w2 == StuckOne(w1, cfg, ids[i], m)
    ensures StuckPass(w1, cfg, ids[i..], m) == StuckPass(w2, cfg, ids[i + 1..], m)
  {
    assert ids[i..][1..] == ids[i + 1..];
  }

  lemma FreshNext(w1: World, t1: Tally, w2: World, t2: Tally, cfg: Config, ids: seq<Id>, i: nat, m: Machine)
    requires i < |ids| && t1.indexing < cfg.maxIndex && (w2, t2) == FreshOne(w1, cfg, ids[i], t1, m)
    ensures FreshPass(w1, cfg, ids[i..], t1, m) == FreshPass(w2, cfg, ids[i + 1..], t2, m)
  {
    assert ids[i..][1..] == ids[i + 1..];
  }

  lemma RetryNext(w1: World, t1: Tally, w2: World, t2: Tally, cfg: Config, ids: seq<Id>, i: nat, m: Machine)
    requires i < |ids| && !Halts(w1, cfg, ids[i], t1, m) && (w2, t2) == RetryOne(w1, cfg, ids[i], t1, m)
    ensures RetryPass(w1, cfg, ids[i..], t1, m) == RetryPass(w2, cfg, ids[i + 1..], t2, m)
  {
    assert ids[i..][1..] == ids[i + 1..];
  }

  lemma RetryHalts(w: World, tally: Tally, cfg: Config, ids: seq<Id>, i: nat, m: Machine)
    requires i < |ids| && Halts(w, cfg, ids[i], tally, m)
    ensures RetryPass(w, cfg, ids[i..], tally, m) == (w, tally)
  {}

  lemma CandidatesDistinct(rows: Rows, listed: seq<Id>, smallestFirst: bool)
    requires Known(rows, listed) && NoDuplicates(listed)
    ensures NoDuplicates(Candidates(rows, listed, smallestFirst)) && Known(rows, Candidates(rows, listed, smallestFirst))
  {
    SortedResult(rows, listed);
    PermutedDistinct(listed, Sorted(rows, listed));
  }
}
