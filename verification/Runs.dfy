/** What holds over every run of the daemon: any interleaving of engine steps, polls, unmounts, hook
    moves and repairs with children that end, mounts that come and go, and workers that report. */
module Runs {
  import opened ArchiveStore
  import opened Guarantees
  import opened Lifecycle
  import opened Options
  import opened Reconciling
  import opened RepairTheorems
  import opened Statuses
  import opened Steps

  datatype Event =
    | Discover(id: Id, archivePath: string, basename: string, sizeBytes: int)
    | Begin(id: Id, firstIndex: Option<bool>, env: BeginEnv)
    | Progress(id: Id, env: BeginEnv)
    | Poll(id: Id, env: BeginEnv)
    | Release(id: Id, toAbsent: bool, unmounted: bool, now: Time)
    | Repair(id: Id, setup: Setup)
    | EnterHooks(id: Id, now: Time)
    | LeaveHooks(id: Id, lastError: Option<string>, now: Time)
    | ChildEnds(pid: nat)
    | MountsAre(mounts: set<string>)
    | IndexIs(path: string, size: nat)
    | JobReports(id: Id, state: JobState)
    | SkipNoted(id: Id, path: string)

  /** The scanner or an operator stores a new archive, under a new id that is safe in file names. */
  function Found(w: World, id: Id, archivePath: string, basename: string, sizeBytes: int): World {
    if CanInsert(w.rows, id, archivePath) && SafeId(id)
    then w.(rows := w.rows[id := NewRow(archivePath, basename, sizeBytes, None, None)])
    else w
  }

  function Next(w: World, cfg: Config, e: Event): World {
    match e
    case Discover(id, path, basename, sizeBytes) => Found(w, id, path, basename, sizeBytes)
    case Begin(id, first, env) => BeginMount(w, cfg, id, first, env).0
    case Progress(id, env) => ProgressOne(w, cfg, id, env)
    case Poll(id, env) => PollOne(w, cfg, id, env)
    case Release(id, toAbsent, unmounted, now) => Unmount(w, id, toAbsent, unmounted, now)
    case Repair(id, setup) => RepairRow(w, id, setup.(maxAttempts := cfg.maxAttempts)).0
    case EnterHooks(id, now) => WithRows(w, id, HooksRunning, {Mounted, HooksRunning}, NO_PATCH, now)
    case LeaveHooks(id, lastError, now) =>
      WithRows(w, id, Mounted, {HooksRunning, Mounted}, NO_PATCH.(lastError := Set(lastError)), now)
    case ChildEnds(pid) => w.(alive := w.alive - {pid})
    case MountsAre(mounts) => w.(mounts := mounts)
    case IndexIs(path, size) => w.(indexes := w.indexes[path := size])
    case JobReports(id, state) =>
      if id in w.jobs && w.jobs[id].state == InFlight
      then w.(jobs := w.jobs[id := w.jobs[id].(state := state)]) else w
    case SkipNoted(id, path) =>
      if id in w.live && path != ""
      then w.(live := w.live[id := w.live[id].(skips := w.live[id].skips + [path])]) else w
  }

  function Run(w: World, cfg: Config, events: seq<Event>): World
    decreases |events|
  {
    if events == [] then w else Run(Next(w, cfg, events[0]), cfg, events[1..])
  }

  /** The one archive an event can change. */
  function Subject(e: Event): Id {
    match e
    case Discover(id, _, _, _) => id
    case Begin(id, _, _) => id
    case Progress(id, _) => id
    case Poll(id, _) => id
    case Release(id, _, _, _) => id
    case Repair(id, _) => id
    case EnterHooks(id, _) => id
    case LeaveHooks(id, _, _) => id
    case JobReports(id, _) => id
    case SkipNoted(id, _) => id
    case _ => ""
  }

  lemma HookMoveStep(w: World, id: Id, to: Status, expected: set<Status>, patch: Patch, now: Time, cfg: Config)
    requires WellFormed(w) && (to == HooksRunning || to == Mounted)
    requires patch == NO_PATCH || patch == NO_PATCH.(lastError := patch.lastError)
    ensures Step(w, WithRows(w, id, to, expected, patch, now), id, cfg)
  {
    if id in w.rows {
      PlainMove(w, id, to, expected, patch, now, cfg);
    } else {
      assert WithRows(w, id, to, expected, patch, now) == w;
      StepRefl(w, id, cfg);
    }
  }

  lemma JobReportStep(w: World, id: Id, state: JobState, cfg: Config)
    requires WellFormed(w) && id in w.jobs
    ensures Step(w, w.(jobs := w.jobs[id := w.jobs[id].(state := state)]), id, cfg)
  {
    var w' := w.(jobs := w.jobs[id := w.jobs[id].(state := state)]);
    assert w'.jobs.Keys == w.jobs.Keys;
    assert |w'.jobs| == |w'.jobs.Keys| == |w.jobs|;
    FrameWellFormed(w, w', id);
    SlotsFrame(w, w', id);
  }

  lemma OtherStep(w: World, cfg: Config, e: Event)
    requires WellFormed(w) && ValidConfig(cfg)
    requires !(e.Discover? || e.Begin? || e.Progress? || e.Poll? || e.Release? || e.Repair?)
    ensures Step(w, Next(w, cfg, e), Subject(e), cfg)
  {
    match e
    case EnterHooks(id, now) => HookMoveStep(w, id, HooksRunning, {Mounted, HooksRunning}, NO_PATCH, now, cfg);
    case LeaveHooks(id, lastError, now) =>
      HookMoveStep(w, id, Mounted, {HooksRunning, Mounted}, NO_PATCH.(lastError := Set(lastError)), now, cfg);
    case JobReports(id, state) =>
      StepRefl(w, id, cfg);
      if id in w.jobs {
        JobReportStep(w, id, state, cfg);
      }
    case SkipNoted(id, path) =>
      StepRefl(w, id, cfg);
      if id in w.live {
        SkipsStep(w, id, w.live[id].skips + [path], cfg);
      }
    case _ => Shrink(w, Next(w, cfg, e), Subject(e), cfg);
  }

  /** Every event but a discovery is a step on its subject. */
  lemma NextStep(w: World, cfg: Config, e: Event)
    requires WellFormed(w) && ValidConfig(cfg) && !e.Discover?
    ensures Step(w, Next(w, cfg, e), Subject(e), cfg)
  {
    match e
    case Begin(id, first, env) => BeginMountStep(w, cfg, id, first, env);
    case Progress(id, env) => ProgressOneStep(w, cfg, id, env);
    case Poll(id, env) => PollOneStep(w, cfg, id, env);
    case Release(id, toAbsent, unmounted, now) => UnmountStep(w, id, toAbsent, unmounted, now, cfg);
    case Repair(id, setup) => RepairStep(w, id, setup.(maxAttempts := cfg.maxAttempts), cfg);
    case _ => OtherStep(w, cfg, e);
  }

  /** What every event keeps: the invariant, the bounds, every row and its bookkeeping. */
  ghost predicate Kept(w: World, w': World, cfg: Config) {
    && WellFormed(w') && SlotBound(w, w', cfg) && JobBound(w, w', cfg)
    && forall k :: k in w.rows ==> k in w'.rows && RowStep(w.rows[k], w'.rows[k], cfg.maxAttempts)
  }

  lemma FoundKept(w: World, cfg: Config, id: Id, path: string, basename: string, sizeBytes: int)
    requires WellFormed(w)
    ensures Kept(w, Found(w, id, path, basename, sizeBytes), cfg)
  {
    FoundSlots(w, id, path, basename, sizeBytes);
    FoundWellFormed(w, id, path, basename, sizeBytes);
  }

  lemma FoundSlots(w: World, id: Id, path: string, basename: string, sizeBytes: int)
    ensures var w' := Found(w, id, path, basename, sizeBytes);
            && Slots(w', Indexing) == Slots(w, Indexing) && w'.jobs == w.jobs
            && forall k :: k in w.rows ==> k in w'.rows && w'.rows[k] == w.rows[k]
  {
    var w' := Found(w, id, path, basename, sizeBytes);
    assert forall k :: Holds(w', k, Indexing) == Holds(w, k, Indexing);
    assert SlotSet(w', Indexing) == SlotSet(w, Indexing);
  }

  /** A row without a process or a path takes nothing that another one has. */
  lemma InsertedWellFormed(w: World, w': World, id: Id, row: Row)
    requires WellFormed(w) && id !in w.rows && SafeId(id) && w' == w.(rows := w.rows[id := row])
    requires row.mountPath.None? && row.mountPid.None?
    ensures WellFormed(w')
  {
    assert !HasMountPath(row);
    assert forall k :: k in w'.rows <==> k in w.rows || k == id;
    assert DistinctNames(w');
  }

  /** A row that has just been found is well-formed. */
  lemma FoundWellFormed(w: World, id: Id, path: string, basename: string, sizeBytes: int)
    requires WellFormed(w)
    ensures WellFormed(Found(w, id, path, basename, sizeBytes))
  {
    if CanInsert(w.rows, id, path) && SafeId(id) {
      InsertedWellFormed(w, Found(w, id, path, basename, sizeBytes), id, NewRow(path, basename, sizeBytes, None, None));
    }
  }

  lemma NextKept(w: World, cfg: Config, e: Event)
    requires WellFormed(w) && ValidConfig(cfg)
    ensures Kept(w, Next(w, cfg, e), cfg)
  {
    if e.Discover? {
      FoundKept(w, cfg, e.id, e.archivePath, e.basename, e.sizeBytes);
    } else {
      NextStep(w, cfg, e);
      StepKept(w, Next(w, cfg, e), Subject(e), cfg);
    }
  }

  lemma StepKept(w: World, w': World, id: Id, cfg: Config)
    requires Step(w, w', id, cfg)
    ensures Kept(w, w', cfg)
  {}

  // ---- bounds and names over runs ----

  /** Over every run the index slots stay within the configured limit, or within what was held at the
      start when that was more; the same goes for convert jobs; and the stored mount names stay
      distinct. */
  lemma {:induction false} RunKeepsBounds(w: World, cfg: Config, events: seq<Event>)
    requires WellFormed(w) && ValidConfig(cfg)
    ensures var w' := Run(w, cfg, events);
            && SlotBound(w, w', cfg)
            && JobBound(w, w', cfg)
            && WellFormed(w')
            && w.rows.Keys <= w'.rows.Keys
    decreases |events|
  {
    if events != [] {
      NextKept(w, cfg, events[0]);
      RunKeepsBounds(Next(w, cfg, events[0]), cfg, events[1..]);
    }
  }

  /** From an idle daemon the limits are never exceeded at all. */
  lemma RunFromIdle(w: World, cfg: Config, events: seq<Event>)
    requires WellFormed(w) && ValidConfig(cfg) && w.live == map[] && w.jobs == map[] && w.alive == {}
    ensures Slots(Run(w, cfg, events), Indexing) <= cfg.maxIndex
    ensures |Run(w, cfg, events).jobs| <= cfg.maxConvert
    ensures DistinctNames(Run(w, cfg, events))
  {
    assert SlotSet(w, Indexing) == {};
    RunKeepsBounds(w, cfg, events);
  }

  // ---- how often a failed mount is started again ----

  /** The event starts a row or finishes its conversion: the two ways by which work begins on it. */
  predicate Begins(e: Event, id: Id) {
    (e.Begin? || e.Poll?) && Subject(e) == id
  }

  /** A retryable mount_failed row is started by an event that leads from w to w1: it leaves its status,
      or it fails again at once. */
  ghost predicate Restarts(w: World, w1: World, e: Event, id: Id) {
    && Begins(e, id) && id in w.rows && id in w1.rows
    && w.rows[id].status == MountFailed && w.rows[id].mountRetryable
    && (w1.rows[id].status != MountFailed || w.rows[id].mountAttempts < w1.rows[id].mountAttempts)
  }

  ghost function RestartCount(w: World, cfg: Config, events: seq<Event>, id: Id): nat
    decreases |events|
  {
    if events == [] then 0
    else
      var w1 := Next(w, cfg, events[0]);
      (if Restarts(w, w1, events[0], id) then 1 else 0) + RestartCount(w1, cfg, events[1..], id)
  }

  /** After n restarts since the attempts stood at base: every return to mount_failed has been paid for. */
  ghost predicate Paid(r: Row, base: int, n: nat, maxAttempts: int) {
    && r.mountAttempts >= base
    && (n > 0 ==> r.mountAttempts >= base + n - if r.status == MountFailed then 0 else 1)
    && (r.mountAttempts > base && r.mountRetryable ==> r.mountAttempts < maxAttempts)
  }

  lemma PaidStep(r: Row, r': Row, base: int, n: nat, maxAttempts: int, restarted: bool)
    requires Paid(r, base, n, maxAttempts) && RowStep(r, r', maxAttempts)
    requires restarted ==> r.status == MountFailed && r.mountRetryable
                           && (r'.status != MountFailed || r.mountAttempts < r'.mountAttempts)
    ensures Paid(r', base, if restarted then n + 1 else n, maxAttempts)
    ensures restarted && n > 0 ==> base + n < maxAttempts
  {}

  lemma {:induction false} RestartsArePaid(w: World, cfg: Config, events: seq<Event>, id: Id, base: int, n: nat)
    requires WellFormed(w) && ValidConfig(cfg) && id in w.rows && Paid(w.rows[id], base, n, cfg.maxAttempts)
    requires n <= Max(1, cfg.maxAttempts - base)
    ensures n + RestartCount(w, cfg, events, id) <= Max(1, cfg.maxAttempts - base)
    decreases |events|
  {
    if events != [] {
      var e := events[0];
      var w1 := Next(w, cfg, e);
      NextKept(w, cfg, e);
      var restarted := Restarts(w, w1, e, id);
      PaidStep(w.rows[id], w1.rows[id], base, n, cfg.maxAttempts, restarted);
      RestartsArePaid(w1, cfg, events[1..], id, base, if restarted then n + 1 else n);
    }
  }

  /** Between two resets of the attempts a retryable row is started from mount_failed at most
      max_mount_attempts times, by whatever way and whatever else happens; the attempts already booked
      count against it. */
  lemma RestartsAreBounded(w: World, cfg: Config, events: seq<Event>, id: Id)
    requires WellFormed(w) && ValidConfig(cfg) && id in w.rows && w.rows[id].mountAttempts >= 0
    ensures RestartCount(w, cfg, events, id) <= Max(1, cfg.maxAttempts - w.rows[id].mountAttempts)
    ensures RestartCount(w, cfg, events, id) <= cfg.maxAttempts
  {
    RestartsArePaid(w, cfg, events, id, w.rows[id].mountAttempts, 0);
  }
}
