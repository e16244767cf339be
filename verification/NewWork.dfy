/** Which archives a cycle of the service begins work on, and which it leaves alone
    (internal/service/tick.go). */
module NewWork {
  import opened ArchiveStore
  import opened Corners
  import opened Guarantees
  import opened Lifecycle
  import opened Options
  import opened Repairs
  import opened Retries
  import opened Runs
  import opened Sequences
  import opened Services
  import opened Sorting
  import opened Starts
  import opened Statuses

  // ---- who is wanted ----

  /** It may be worked on at all: its archive is a file, it may be retried, and no conversion of it is out. */
  predicate IsReady(w: World, id: Id, m: Machine) {
    id in w.rows && w.rows[id].mountRetryable && m.isFile(w.rows[id].archivePath) && id !in w.jobs
  }

  /** A discovered archive must have settled on the disk. */
  predicate IsReadyNew(w: World, id: Id, m: Machine) {
    IsReady(w, id, m) && m.stable(w.rows[id].archivePath)
  }

  predicate IsReadyStuck(w: World, id: Id, m: Machine) {
    IsReady(w, id, m) && id !in w.live
  }

  /** Whether a cycle may touch the archive: by its status, and with enough disk for new ones. */
  predicate IsWanted(w: World, id: Id, m: Machine) {
    && id in w.rows
    && match w.rows[id].status
       case Discovered => !m.lowDisk && IsReadyNew(w, id, m)
       case Indexing => IsReadyStuck(w, id, m)
       case Mounting => IsReadyStuck(w, id, m)
       case MountFailed => IsReady(w, id, m)
       case _ => false
  }

  /** Row, live entry and job are as they were. */
  ghost predicate Untouched(w: World, w': World, id: Id) {
    LeftAlone(w, w', id) && (id in w'.jobs <==> id in w.jobs)
  }

  lemma UntouchedTrans(w0: World, w1: World, w2: World, id: Id)
    requires Untouched(w0, w1, id) && Untouched(w1, w2, id)
    ensures Untouched(w0, w2, id)
  {}

  lemma StepUntouched(w: World, w': World, k: Id, cfg: Config, id: Id)
    requires Step(w, w', k, cfg) && (k != id || w' == w)
    ensures Untouched(w, w', id)
  {}

  lemma {:induction false} StuckPassKeeps(w: World, cfg: Config, ids: seq<Id>, m: Machine, id: Id)
    requires WellFormed(w) && ValidConfig(cfg) && id in w.rows && (id in ids ==> !IsReadyStuck(w, id, m))
    ensures var w' := StuckPass(w, cfg, ids, m); Untouched(w, w', id) && WellFormed(w')
    decreases |ids|
  {
    if ids != [] {
      var w1 := StuckOne(w, cfg, ids[0], m);
      StuckOneStep(w, cfg, ids[0], m);
      StepUntouched(w, w1, ids[0], cfg, id);
      StuckPassKeeps(w1, cfg, ids[1..], m, id);
      UntouchedTrans(w, w1, StuckPass(w1, cfg, ids[1..], m), id);
    }
  }

  lemma {:induction false} FreshPassKeeps(w: World, cfg: Config, ids: seq<Id>, tally: Tally, m: Machine, id: Id)
    requires WellFormed(w) && ValidConfig(cfg) && id in w.rows && (id in ids ==> !IsReadyNew(w, id, m))
    ensures var w' := FreshPass(w, cfg, ids, tally, m).0; Untouched(w, w', id) && WellFormed(w')
    decreases |ids|
  {
    if ids != [] && tally.indexing < cfg.maxIndex {
      var (w1, t1) := FreshOne(w, cfg, ids[0], tally, m);
      FreshOneStep(w, cfg, ids[0], tally, m);
      StepUntouched(w, w1, ids[0], cfg, id);
      FreshPassKeeps(w1, cfg, ids[1..], t1, m, id);
      UntouchedTrans(w, w1, FreshPass(w1, cfg, ids[1..], t1, m).0, id);
    }
  }

  lemma {:induction false} RetryPassKeeps(w: World, cfg: Config, ids: seq<Id>, tally: Tally, m: Machine, id: Id)
    requires WellFormed(w) && ValidConfig(cfg) && id in w.rows && (id in ids ==> !IsReady(w, id, m))
    ensures var w' := RetryPass(w, cfg, ids, tally, m).0; Untouched(w, w', id) && WellFormed(w')
    decreases |ids|
  {
    if ids != [] && !Halts(w, cfg, ids[0], tally, m) {
      var (w1, t1) := RetryOne(w, cfg, ids[0], tally, m);
      RetryOneStep(w, cfg, ids[0], tally, m);
      StepUntouched(w, w1, ids[0], cfg, id);
      RetryPassKeeps(w1, cfg, ids[1..], t1, m, id);
      UntouchedTrans(w, w1, RetryPass(w1, cfg, ids[1..], t1, m).0, id);
    }
  }

  lemma RetryStuckKeeps(w: World, cfg: Config, order: seq<Id>, m: Machine, id: Id)
    requires WellFormed(w) && ValidConfig(cfg) && id in w.rows
    requires w.rows[id].status in {Indexing, Mounting} ==> !IsReadyStuck(w, id, m)
    ensures var w' := RetryStuck(w, cfg, order, m); Untouched(w, w', id) && WellFormed(w')
  {
    var w1 := StuckPass(w, cfg, WithStatus(w.rows, order, Indexing), m);
    StuckPassKeeps(w, cfg, WithStatus(w.rows, order, Indexing), m, id);
    StuckPassKeeps(w1, cfg, WithStatus(w1.rows, order, Mounting), m, id);
    UntouchedTrans(w, w1, RetryStuck(w, cfg, order, m), id);
  }

  lemma IndexingWorkKeeps(w: World, cfg: Config, order: seq<Id>, tally: Tally, m: Machine, id: Id)
    requires WellFormed(w) && ValidConfig(cfg) && id in w.rows
    requires w.rows[id].status == Discovered ==> m.lowDisk || !IsReadyNew(w, id, m)
    requires tally.indexing >= 0
    ensures var w' := IndexingWork(w, cfg, order, tally, m).0; Untouched(w, w', id) && WellFormed(w')
  {
    if !m.lowDisk {
      var ids := Discoveries(w, order, m);
      if id in ids {
        DiscoveriesAreDiscovered(w, order, m, id);
      }
      FreshPassKeeps(w, cfg, ids, tally, m, id);
    }
  }

  /** What comes after the stuck rows. */
  function LaterWork(w: World, cfg: Config, order: seq<Id>, tally: Tally, m: Machine): World {
    var (w1, t1) := IndexingWork(w, cfg, order, tally, m);
    RetryPass(w1, cfg, WithStatus(w1.rows, order, MountFailed), t1, m).0
  }

  lemma LaterWorkKeeps(w: World, cfg: Config, order: seq<Id>, tally: Tally, m: Machine, id: Id)
    requires WellFormed(w) && ValidConfig(cfg) && id in w.rows && tally.indexing >= 0
    requires w.rows[id].status == Discovered ==> m.lowDisk || !IsReadyNew(w, id, m)
    requires w.rows[id].status == MountFailed ==> !IsReady(w, id, m)
    ensures Untouched(w, LaterWork(w, cfg, order, tally, m), id)
  {
    var (w1, t1) := IndexingWork(w, cfg, order, tally, m);
    IndexingWorkKeeps(w, cfg, order, tally, m, id);
    RetryPassKeeps(w1, cfg, WithStatus(w1.rows, order, MountFailed), t1, m, id);
    UntouchedTrans(w, w1, LaterWork(w, cfg, order, tally, m), id);
  }

  lemma SameReadiness(w: World, w': World, m: Machine, id: Id)
    requires Untouched(w, w', id) && id in w.rows
    ensures id in w'.rows && w'.rows[id] == w.rows[id]
    ensures IsReady(w', id, m) == IsReady(w, id, m) && IsReadyNew(w', id, m) == IsReadyNew(w, id, m)
  {}

  /** A cycle leaves every archive alone that is not wanted: on low disk each discovered one, and otherwise
      each that has not settled, is no file, may not be retried, or is being worked on already. */
  lemma UnwantedIsLeftAlone(w: World, cfg: Config, order: seq<Id>, m: Machine, id: Id)
    requires WellFormed(w) && ValidConfig(cfg) && id in w.rows && !IsWanted(w, id, m)
    ensures Untouched(w, PendingWork(w, cfg, order, m), id)
  {
    var w0, tally := RetryStuck(w, cfg, order, m), FirstTally(w, order);
    RetryStuckKeeps(w, cfg, order, m, id);
    SameReadiness(w, w0, m, id);
    LaterWorkKeeps(w0, cfg, order, tally, m, id);
    UntouchedTrans(w, w0, PendingWork(w, cfg, order, m), id);
  }

  /** An archive that has just been found is wanted as soon as it is a settled file and there is disk. */
  lemma FoundIsWanted(w: World, id: Id, path: string, basename: string, sizeBytes: int, m: Machine)
    requires id !in w.jobs && CanInsert(w.rows, id, path) && SafeId(id)
    ensures IsWanted(Found(w, id, path, basename, sizeBytes), id, m) <==> m.isFile(path) && m.stable(path) && !m.lowDisk
  {}

  // ---- work that goes on ----

  /** The process is none that a start of any archive would find holding a mount. */
  ghost predicate Spared(m: Machine, pid: nat) {
    forall k :: pid !in m.stuck(k).staleHolders && pid !in m.found(k).staleHolders && pid !in m.again(k).staleHolders
  }

  lemma LaunchSpares(w: World, cfg: Config, id: Id, path: string, building: bool, env: BeginEnv, pid: nat)
    requires id in w.rows && pid in w.alive && pid !in env.staleHolders
    ensures pid in Launch(w, cfg, id, path, building, building, env).0.alive
  {}

  lemma SlotSpares(w: World, cfg: Config, id: Id, building: bool, env: BeginEnv, pid: nat)
    requires id in w.rows && pid in w.alive && pid !in env.staleHolders
    ensures pid in StartIfSlot(w, cfg, id, building, env).0.alive
  {
    var claimed := Claimed(w, cfg, id, if building then Indexing else Mounting, env);
    LaunchSpares(claimed, cfg, id, w.rows[id].archivePath, building, env, pid);
  }

  lemma FailedClaimSpares(w: World, cfg: Config, id: Id, reason: string, now: Time)
    requires id in w.rows
    ensures FailConvertClaim(w, cfg, id, reason, now).alive == w.alive
  {}

  lemma FreshSpares(w: World, cfg: Config, id: Id, first: bool, building: bool, env: BeginEnv, pid: nat)
    requires id in w.rows && pid in w.alive && pid !in env.staleHolders
    ensures pid in StartFresh(w, cfg, id, first, building, env).0.alive
  {
    var row := w.rows[id];
    if env.preconvert(row.archivePath) {
      FailedClaimSpares(w, cfg, id, "archive not found: " + row.archivePath, env.now);
    } else {
      match env.relocation(row.archivePath)
      case Stay => SlotSpares(w, cfg, id, building, env, pid);
      case RelocateFailed(reason) => FailedClaimSpares(w, cfg, id, reason, env.now);
      case MovedTo(path, basename) =>
        var moved := WithRows(w, id, row.status, {row.status},
                              NO_PATCH.(archivePath := Set(path), basename := Set(basename)), env.now);
        SlotSpares(moved, cfg, id, NeedsIndex(moved, moved.rows[id], first), env, pid);
    }
  }

  lemma DispatchSpares(w: World, cfg: Config, id: Id, first: bool, building: bool, env: BeginEnv, pid: nat)
    requires id in w.rows && pid in w.alive && pid !in env.staleHolders
    ensures pid in Dispatch(w, cfg, id, first, building, env).0.alive
  {
    SlotSpares(w, cfg, id, building, env, pid);
    FreshSpares(w, cfg, id, first, building, env, pid);
  }

  lemma AdoptSpares(w: World, cfg: Config, id: Id, first: bool, building: bool, env: BeginEnv, pid: nat)
    requires id in w.rows && pid in w.alive && pid !in env.staleHolders
    ensures pid in AdoptThenDispatch(w, cfg, id, first, building, env).0.alive
  {
    if env.converted.Some? && w.rows[id].archivePath != env.converted.value {
      var adopted := CompleteConvert(w, id, env.converted.value, env).0;
      CompleteConvertSpares(w, id, env.converted.value, env);
      DispatchSpares(adopted, cfg, id, first, building, env, pid);
    } else {
      DispatchSpares(w, cfg, id, first, building, env, pid);
    }
  }

  lemma CompleteConvertSpares(w: World, id: Id, path: string, env: BeginEnv)
    requires id in w.rows
    ensures var adopted := CompleteConvert(w, id, path, env).0; id in adopted.rows && adopted.alive == w.alive
  {}

  lemma BeginSpares(w: World, cfg: Config, id: Id, first: Option<bool>, env: BeginEnv, pid: nat)
    requires pid in w.alive && pid !in env.staleHolders
    ensures pid in BeginMount(w, cfg, id, first, env).0.alive
  {
    if id in w.rows {
      var row := w.rows[id];
      var cleaned := CleanPartial(w, row);
      var f := first.GetOr(row.firstMountedAt.None?);
      CleanTwiceIs(w, row);
      if id !in w.jobs && row.status != Converting {
        StartIsAdoption(w, cfg, id, first, env, cleaned, f);
        AdoptSpares(cleaned, cfg, id, f, NeedsIndex(cleaned, row, f), env, pid);
      }
    }
  }

  lemma {:induction false} RunningStuckPass(w: World, cfg: Config, ids: seq<Id>, m: Machine, id: Id, pid: nat)
    requires WellFormed(w) && ValidConfig(cfg) && Spared(m, pid)
    requires id in w.rows && w.rows[id].mountPid == Some(pid) && pid in w.alive
    ensures var w' := StuckPass(w, cfg, ids, m); Untouched(w, w', id) && WellFormed(w') && pid in w'.alive
    decreases |ids|
  {
    if ids != [] {
      var w1 := StuckOne(w, cfg, ids[0], m);
      StuckOneStep(w, cfg, ids[0], m);
      StepUntouched(w, w1, ids[0], cfg, id);
      if Stuck(w, ids[0], m) {
        BeginSpares(w, cfg, ids[0], Some(w.rows[ids[0]].firstMountedAt.None?), m.stuck(ids[0]), pid);
      }
      RunningStuckPass(w1, cfg, ids[1..], m, id, pid);
      UntouchedTrans(w, w1, StuckPass(w1, cfg, ids[1..], m), id);
    }
  }

  /** Work in progress whose stored process still runs is left alone, registered or not. */
  lemma RunningIsLeftAlone(w: World, cfg: Config, order: seq<Id>, m: Machine, id: Id, pid: nat)
    requires WellFormed(w) && ValidConfig(cfg) && Spared(m, pid) && id in w.rows
    requires w.rows[id].status in {Indexing, Mounting} && w.rows[id].mountPid == Some(pid) && pid in w.alive
    ensures Untouched(w, PendingWork(w, cfg, order, m), id)
  {
    var w1 := StuckPass(w, cfg, WithStatus(w.rows, order, Indexing), m);
    RunningStuckPass(w, cfg, WithStatus(w.rows, order, Indexing), m, id, pid);
    RunningStuckPass(w1, cfg, WithStatus(w1.rows, order, Mounting), m, id, pid);
    var w0, tally := RetryStuck(w, cfg, order, m), FirstTally(w, order);
    UntouchedTrans(w, w1, w0, id);
    LaterWorkKeeps(w0, cfg, order, tally, m, id);
    UntouchedTrans(w, w0, PendingWork(w, cfg, order, m), id);
  }

  // ---- the first discovered archive ----

  /** Besides being ready, an archive that has to be converted needs room among the conversions. */
  predicate IsNext(w: World, cfg: Config, id: Id, converting: int, m: Machine) {
    && IsReady(w, id, m)
    && (m.preconvert(w.rows[id].archivePath) ==> converting < cfg.maxConvert)
  }

  predicate IsNextNew(w: World, cfg: Config, id: Id, converting: int, m: Machine) {
    IsNext(w, cfg, id, converting, m) && m.stable(w.rows[id].archivePath)
  }

  lemma {:induction false} FreshPassSkips(w: World, cfg: Config, ids: seq<Id>, i: nat, tally: Tally, m: Machine)
    requires i <= |ids| && forall j :: 0 <= j < i ==> !IsNextNew(w, cfg, ids[j], tally.converting, m)
    ensures FreshPass(w, cfg, ids, tally, m) == FreshPass(w, cfg, ids[i..], tally, m)
    decreases |ids|
  {
    if i > 0 && tally.indexing < cfg.maxIndex {
      assert !IsNextNew(w, cfg, ids[0], tally.converting, m);
      forall j | 0 <= j < i - 1 ensures !IsNextNew(w, cfg, ids[1..][j], tally.converting, m) {
        assert ids[1..][j] == ids[j + 1];
      }
      FreshPassSkips(w, cfg, ids[1..], i - 1, tally, m);
      assert ids[1..][i - 1..] == ids[i..];
    } else if i == 0 {
      assert ids[0..] == ids;
    }
  }

  lemma FreshPassBegins(w: World, cfg: Config, ids: seq<Id>, i: nat, tally: Tally, m: Machine)
    requires WellFormed(w) && ValidConfig(cfg) && NoDuplicates(ids) && i < |ids| && tally.indexing < cfg.maxIndex
    requires forall j :: 0 <= j < i ==> !IsNextNew(w, cfg, ids[j], tally.converting, m)
    requires IsNextNew(w, cfg, ids[i], tally.converting, m)
    ensures var w1 := BeginMount(w, cfg, ids[i], Some(true), m.found(ids[i])).0;
            var w' := FreshPass(w, cfg, ids, tally, m).0;
            Untouched(w1, w', ids[i]) && WellFormed(w') && ids[i] in w1.rows
  {
    var rest := ids[i..];
    FreshPassSkips(w, cfg, ids, i, tally, m);
    var (w1, t1) := FreshOne(w, cfg, rest[0], tally, m);
    assert w1 == BeginMount(w, cfg, ids[i], Some(true), m.found(ids[i])).0;
    FreshOneStep(w, cfg, rest[0], tally, m);
    assert ids[i] !in rest[1..];
    FreshPassKeeps(w1, cfg, rest[1..], t1, m, ids[i]);
  }

  /** Of two discovered archives the one that comes first: the smaller one, or the one listed first. */
  ghost predicate ComesFirst(w: World, order: seq<Id>, x: Id, y: Id, m: Machine)
    requires x in w.rows && y in w.rows
  {
    if m.smallestFirst then Before(w.rows, x, y)
    else exists i, j :: 0 <= i < j < |order| && order[i] == x && order[j] == y
  }

  lemma {:induction false} ListingOrder(rows: Rows, order: seq<Id>, status: Status, x: Id, y: Id)
    requires NoDuplicates(order) && x in rows && y in rows && rows[x].status == status && rows[y].status == status
    requires exists i, j :: 0 <= i < j < |order| && order[i] == x && order[j] == y
    ensures exists i, j :: 0 <= i < j < |WithStatus(rows, order, status)|
                           && WithStatus(rows, order, status)[i] == x && WithStatus(rows, order, status)[j] == y
    decreases |order|
  {
    var i, j :| 0 <= i < j < |order| && order[i] == x && order[j] == y;
    var n := |order| - 1;
    var before := WithStatus(rows, order[..n], status);
    var ids := WithStatus(rows, order, status);
    assert order[..n][i] == x;
    if j == n {
      assert ids == before + [y];
      assert x in before;
      var k :| 0 <= k < |before| && before[k] == x;
      assert ids[k] == x && ids[|before|] == y;
    } else {
      assert order[..n][j] == y;
      ListingOrder(rows, order[..n], status, x, y);
      var a, b :| 0 <= a < b < |before| && before[a] == x && before[b] == y;
      assert ids[a] == x && ids[b] == y;
    }
  }

  /** An archive that comes first is not behind the other one in the list of candidates. */
  lemma FirstIsAhead(w: World, order: seq<Id>, m: Machine, i: nat, j: nat)
    requires NoDuplicates(order)
    requires var ids := Discoveries(w, order, m); i < |ids| && j < |ids| && i != j
    requires var ids := Discoveries(w, order, m);
             ids[i] in w.rows && ids[j] in w.rows && ComesFirst(w, order, ids[i], ids[j], m)
    ensures i < j
  {
    var ids := Discoveries(w, order, m);
    var listed := WithStatus(w.rows, order, Discovered);
    CandidatesDistinct(w.rows, listed, m.smallestFirst);
    DiscoveriesAreDiscovered(w, order, m, ids[i]);
    DiscoveriesAreDiscovered(w, order, m, ids[j]);
    if m.smallestFirst {
      SortedResult(w.rows, listed);
      BeforeTotal(w.rows, ids[i], ids[j]);
    } else {
      ListingOrder(w.rows, order, Discovered, ids[i], ids[j]);
    }
  }

  lemma DiscoveriesHold(w: World, order: seq<Id>, m: Machine, id: Id)
    requires NoDuplicates(order) && id in w.rows && id in order && w.rows[id].status == Discovered
    ensures id in Discoveries(w, order, m) && NoDuplicates(Discoveries(w, order, m))
  {
    var listed := WithStatus(w.rows, order, Discovered);
    CandidatesDistinct(w.rows, listed, m.smallestFirst);
    SortedResult(w.rows, listed);
    assert id in multiset(listed);
    assert id in multiset(Sorted(w.rows, listed));
  }

  /** The next discovered archive of the state: it is ready, and ahead of every other one that is. */
  ghost predicate IsFirstNew(w: World, cfg: Config, order: seq<Id>, id: Id, converting: int, m: Machine) {
    && id in w.rows && id in order && w.rows[id].status == Discovered && IsNextNew(w, cfg, id, converting, m)
    && forall k :: k in w.rows && k != id && w.rows[k].status == Discovered && IsNextNew(w, cfg, k, converting, m) ==>
         ComesFirst(w, order, id, k, m)
  }

  lemma FirstNewAt(w: World, cfg: Config, order: seq<Id>, id: Id, converting: int, m: Machine) returns (i: nat)
    requires NoDuplicates(order) && IsFirstNew(w, cfg, order, id, converting, m)
    ensures var ids := Discoveries(w, order, m);
            && NoDuplicates(ids) && i < |ids| && ids[i] == id
            && forall j :: 0 <= j < i ==> !IsNextNew(w, cfg, ids[j], converting, m)
  {
    var ids := Discoveries(w, order, m);
    DiscoveriesHold(w, order, m, id);
    i :| 0 <= i < |ids| && ids[i] == id;
    forall j | 0 <= j < i ensures !IsNextNew(w, cfg, ids[j], converting, m) {
      DiscoveriesAreDiscovered(w, order, m, ids[j]);
      if IsNextNew(w, cfg, ids[j], converting, m) {
        FirstIsAhead(w, order, m, i, j);
      }
    }
  }

  /** Whatever is started of the archive when its turn comes is what it is left with. */
  ghost predicate IsUnderWay(w: World, w': World, id: Id, building: bool) {
    && id in w'.rows && id in w'.live && w'.live[id].pid == w.nextPid && w'.rows[id].mountPid == Some(w.nextPid)
    && if building then w'.live[id].phase == IndexOnly && w'.rows[id].status == Indexing
       else w'.live[id].phase == MountPhase && w'.rows[id].status == Mounting
  }

  lemma UnderWay(w: World, w1: World, w2: World, cfg: Config, id: Id, path: string, env: BeginEnv, building: bool)
    requires StartedAs(w, w1, cfg, id, path, env, building) && Untouched(w1, w2, id)
    ensures IsUnderWay(w, w2, id, building)
  {}

  lemma UnderWayStays(w: World, w1: World, w2: World, id: Id, building: bool)
    requires IsUnderWay(w, w1, id, building) && Untouched(w1, w2, id)
    ensures IsUnderWay(w, w2, id, building)
  {}

  /** After the stuck rows are taken up, with enough disk and a slot by the counter, the next discovered
      archive is indexed in a new process, when the machine lets it. */
  lemma FirstNewIsIndexed(w: World, cfg: Config, order: seq<Id>, tally: Tally, m: Machine, id: Id)
    requires WellFormed(w) && ValidConfig(cfg) && NoDuplicates(order)
    requires !m.lowDisk && 0 <= tally.indexing < cfg.maxIndex
    requires IsFirstNew(w, cfg, order, id, tally.converting, m) && Spawns(w, cfg, id, Some(true), m.found(id))
    ensures IsUnderWay(w, LaterWork(w, cfg, order, tally, m), id, true)
  {
    var i := FirstNewAt(w, cfg, order, id, tally.converting, m);
    var w1 := BeginMount(w, cfg, id, Some(true), m.found(id)).0;
    var (w2, t2) := IndexingWork(w, cfg, order, tally, m);
    FreshPassBegins(w, cfg, Discoveries(w, order, m), i, tally, m);
    StartOutcome(w, cfg, id, Some(true), m.found(id));
    UnderWay(w, w1, w2, cfg, id, PathFor(w, id, m.found(id)), m.found(id), true);
    RetryPassKeeps(w2, cfg, WithStatus(w2.rows, order, MountFailed), t2, m, id);
    UnderWayStays(w, w2, LaterWork(w, cfg, order, tally, m), id, true);
  }

  // ---- the counters ----

  /** What a start counts for: one more of its kind when it went ahead, one conversion when it queued one. */
  lemma CountedIs(tally: Tally, w: World, id: Id, begun: Begun, needsIndex: bool)
    ensures var counted := Counted(tally, w, id, begun, needsIndex);
            && counted.indexing == tally.indexing + (if begun.Started? && needsIndex then 1 else 0)
            && counted.mounting == tally.mounting + (if begun.Started? && !needsIndex then 1 else 0)
            && counted.converting == tally.converting + (if begun.Nothing? && id in w.jobs then 1 else 0)
  {}

  lemma SlotSpawnIsStarted(w: World, cfg: Config, id: Id, building: bool, env: BeginEnv)
    requires id in w.rows
    ensures var (w', begun) := StartIfSlot(w, cfg, id, building, env); w'.nextPid > w.nextPid ==> begun.Started?
    ensures StartIfSlot(w, cfg, id, building, env).0.nextPid <= w.nextPid + 1
  {
    LaunchSpawnsIff(Claimed(w, cfg, id, if building then Indexing else Mounting, env), cfg, id, w.rows[id].archivePath,
                    building, building, env);
  }

  lemma FreshSpawnIsStarted(w: World, cfg: Config, id: Id, first: bool, building: bool, env: BeginEnv)
    requires id in w.rows
    ensures var (w', begun) := StartFresh(w, cfg, id, first, building, env); w'.nextPid > w.nextPid ==> begun.Started?
    ensures StartFresh(w, cfg, id, first, building, env).0.nextPid <= w.nextPid + 1
  {
    var row := w.rows[id];
    if env.preconvert(row.archivePath) {
      ConvertSpawnsNothing(w, cfg, id, building, env);
    } else {
      match env.relocation(row.archivePath)
      case Stay => SlotSpawnIsStarted(w, cfg, id, building, env);
      case RelocateFailed(reason) => FailedClaimSpawnsNothing(w, cfg, id, reason, env.now);
      case MovedTo(path, basename) =>
        var moved := WithRows(w, id, row.status, {row.status},
                              NO_PATCH.(archivePath := Set(path), basename := Set(basename)), env.now);
        SlotSpawnIsStarted(moved, cfg, id, NeedsIndex(moved, moved.rows[id], first), env);
    }
  }

  lemma DispatchSpawnIsStarted(w: World, cfg: Config, id: Id, first: bool, building: bool, env: BeginEnv)
    requires id in w.rows
    ensures var (w', begun) := Dispatch(w, cfg, id, first, building, env); w'.nextPid > w.nextPid ==> begun.Started?
    ensures Dispatch(w, cfg, id, first, building, env).0.nextPid <= w.nextPid + 1
  {
    SlotSpawnIsStarted(w, cfg, id, building, env);
    FreshSpawnIsStarted(w, cfg, id, first, building, env);
  }

  lemma AdoptSpawnIsStarted(w: World, cfg: Config, id: Id, first: bool, building: bool, env: BeginEnv)
    requires id in w.rows
    ensures var (w', begun) := AdoptThenDispatch(w, cfg, id, first, building, env);
            w'.nextPid > w.nextPid ==> begun.Started?
    ensures AdoptThenDispatch(w, cfg, id, first, building, env).0.nextPid <= w.nextPid + 1
  {
    if env.converted.Some? && w.rows[id].archivePath != env.converted.value {
      var adopted := CompleteConvert(w, id, env.converted.value, env).0;
      CompleteConvertSpawnsNothing(w, id, env.converted.value, env);
      DispatchSpawnIsStarted(adopted, cfg, id, first, building, env);
    } else {
      DispatchSpawnIsStarted(w, cfg, id, first, building, env);
    }
  }

  lemma CompleteConvertSpawnsNothing(w: World, id: Id, path: string, env: BeginEnv)
    requires id in w.rows
    ensures var adopted := CompleteConvert(w, id, path, env).0; id in adopted.rows && adopted.nextPid == w.nextPid
  {}

  /** A start that spawns a process says so. */
  lemma SpawnIsStarted(w: World, cfg: Config, id: Id, first: Option<bool>, env: BeginEnv)
    ensures var (w', begun) := BeginMount(w, cfg, id, first, env); w'.nextPid > w.nextPid ==> begun.Started?
    ensures BeginMount(w, cfg, id, first, env).0.nextPid <= w.nextPid + 1
  {
    if id !in w.rows || id in w.jobs || w.rows[id].status == Converting {
      ShutStart(w, cfg, id, first, env);
    } else {
      var row := w.rows[id];
      var cleaned := CleanPartial(w, row);
      var f := first.GetOr(row.firstMountedAt.None?);
      CleanTwiceIs(w, row);
      StartIsAdoption(w, cfg, id, first, env, cleaned, f);
      AdoptSpawnIsStarted(cleaned, cfg, id, f, NeedsIndex(cleaned, row, f), env);
    }
  }

  /** The pass over the discovered archives counts every process that it spawns, and spawns no more of them
      than its counter leaves. */
  lemma {:induction false} FreshPassIsCounted(w: World, cfg: Config, ids: seq<Id>, tally: Tally, m: Machine)
    ensures var (w', t) := FreshPass(w, cfg, ids, tally, m);
            && w'.nextPid - w.nextPid <= t.indexing - tally.indexing
            && t.indexing <= Max(tally.indexing, cfg.maxIndex)
    decreases |ids|
  {
    if ids != [] && tally.indexing < cfg.maxIndex {
      var (w1, t1) := FreshOne(w, cfg, ids[0], tally, m);
      SpawnIsStarted(w, cfg, ids[0], Some(true), m.found(ids[0]));
      FreshPassIsCounted(w1, cfg, ids[1..], t1, m);
    }
  }

  /** So does the pass over the failed ones, for both kinds of slots. */
  lemma {:induction false} RetryPassIsCounted(w: World, cfg: Config, ids: seq<Id>, tally: Tally, m: Machine)
    ensures var (w', t) := RetryPass(w, cfg, ids, tally, m);
            && w'.nextPid - w.nextPid <= t.indexing - tally.indexing + t.mounting - tally.mounting
            && t.indexing <= Max(tally.indexing, cfg.maxIndex)
            && (cfg.maxMount > 0 ==> t.mounting <= Max(tally.mounting, cfg.maxMount))
    decreases |ids|
  {
    if ids != [] && !Halts(w, cfg, ids[0], tally, m) {
      var (w1, t1) := RetryOne(w, cfg, ids[0], tally, m);
      SpawnIsStarted(w, cfg, ids[0], Some(false), m.again(ids[0]));
      RetryPassIsCounted(w1, cfg, ids[1..], t1, m);
    }
  }

  // ---- a daemon with nothing to take up ----

  /** All work in progress is registered. */
  ghost predicate NothingStuck(w: World) {
    forall k :: k in w.rows && w.rows[k].status in {Indexing, Mounting} ==> k in w.live
  }

  lemma {:induction false} IdleStuckPass(w: World, cfg: Config, ids: seq<Id>, m: Machine)
    requires NothingStuck(w) && forall k :: k in ids ==> k in w.rows && w.rows[k].status in {Indexing, Mounting}
    ensures StuckPass(w, cfg, ids, m) == w
    decreases |ids|
  {
    if ids != [] {
      assert ids[0] in w.live;
      IdleStuckPass(w, cfg, ids[1..], m);
    }
  }

  lemma NothingIsTakenUp(w: World, cfg: Config, order: seq<Id>, m: Machine)
    requires NothingStuck(w)
    ensures RetryStuck(w, cfg, order, m) == w
    ensures PendingWork(w, cfg, order, m) == LaterWork(w, cfg, order, FirstTally(w, order), m)
  {
    IdleStuckPass(w, cfg, WithStatus(w.rows, order, Indexing), m);
    IdleStuckPass(w, cfg, WithStatus(w.rows, order, Mounting), m);
  }

  lemma FirstTallyIs(w: World, order: seq<Id>)
    ensures var tally := FirstTally(w, order);
            && tally.indexing == |Busy(w, Indexing)| && tally.mounting == |Busy(w, Mounting)|
            && tally.converting == |WithStatus(w.rows, order, Converting)|
  {
    assert Busy(w, Indexing) == SlotSet(w, Indexing) && Busy(w, Mounting) == SlotSet(w, Mounting);
  }

  /** A machine without objections: no product at another path, no conversion, and neither relocation, outer
      cache, path check nor spawn fails. */
  lemma AgreedSpawns(w: World, cfg: Config, id: Id, firstIndex: bool, env: BeginEnv)
    requires id in w.rows && id !in w.jobs && w.rows[id].status in {Discovered, MountFailed}
    requires Agrees(w.rows[id].archivePath, env) && HasRoom(w, cfg, BuildsIndex(w, w.rows[id], Some(firstIndex)))
    ensures Spawns(w, cfg, id, Some(firstIndex), env)
  {}

  /** With nothing to take up, enough disk, a free slot and a machine that agrees, the cycle indexes the
      next discovered archive in a new process. */
  lemma CycleIndexesFirst(w: World, cfg: Config, order: seq<Id>, m: Machine, id: Id)
    requires WellFormed(w) && ValidConfig(cfg) && NoDuplicates(order) && NothingStuck(w)
    requires !m.lowDisk && |Busy(w, Indexing)| < cfg.maxIndex
    requires IsFirstNew(w, cfg, order, id, |WithStatus(w.rows, order, Converting)|, m)
    requires Agrees(w.rows[id].archivePath, m.found(id))
    ensures IsUnderWay(w, PendingWork(w, cfg, order, m), id, true)
  {
    NothingIsTakenUp(w, cfg, order, m);
    FirstTallyIs(w, order);
    AgreedSpawns(w, cfg, id, true, m.found(id));
    FirstNewIsIndexed(w, cfg, order, FirstTally(w, order), m, id);
  }

  // ---- the first failed archive ----

  /** The counters leave room for the kind of slot that the retry needs. */
  predicate HasTurn(w: World, cfg: Config, id: Id, tally: Tally)
    requires id in w.rows
  {
    var row := w.rows[id];
    if !IsPath(row.indexPath) || row.indexPath.value !in w.indexes
       || w.indexes[row.indexPath.value] == 0
    then tally.indexing < cfg.maxIndex
    else cfg.maxMount <= 0 || tally.mounting < cfg.maxMount
  }

  lemma TurnIff(w: World, cfg: Config, id: Id, tally: Tally, m: Machine)
    requires IsNext(w, cfg, id, tally.converting, m)
    ensures HasTurn(w, cfg, id, tally) <==> !Halts(w, cfg, id, tally, m)
  {
    ReadyIff(w, w.rows[id].indexPath.GetOr(""));
  }

  lemma {:induction false} RetryPassSkips(w: World, cfg: Config, ids: seq<Id>, i: nat, tally: Tally, m: Machine)
    requires i <= |ids| && forall j :: 0 <= j < i ==> !IsNext(w, cfg, ids[j], tally.converting, m)
    ensures RetryPass(w, cfg, ids, tally, m) == RetryPass(w, cfg, ids[i..], tally, m)
    decreases |ids|
  {
    if i > 0 {
      assert !IsNext(w, cfg, ids[0], tally.converting, m);
      forall j | 0 <= j < i - 1 ensures !IsNext(w, cfg, ids[1..][j], tally.converting, m) {
        assert ids[1..][j] == ids[j + 1];
      }
      RetryPassSkips(w, cfg, ids[1..], i - 1, tally, m);
      assert ids[1..][i - 1..] == ids[i..];
    } else {
      assert ids[0..] == ids;
    }
  }

  /** The first failed archive in the list that is ready is begun again, if its turn has come; if not, none
      is. */
  lemma RetryPassBegins(w: World, cfg: Config, ids: seq<Id>, i: nat, tally: Tally, m: Machine)
    requires WellFormed(w) && ValidConfig(cfg) && NoDuplicates(ids) && i < |ids|
    requires forall j :: 0 <= j < i ==> !IsNext(w, cfg, ids[j], tally.converting, m)
    requires IsNext(w, cfg, ids[i], tally.converting, m)
    ensures var w' := RetryPass(w, cfg, ids, tally, m).0;
            if HasTurn(w, cfg, ids[i], tally)
            then Untouched(BeginMount(w, cfg, ids[i], Some(false), m.again(ids[i])).0, w', ids[i])
            else w' == w
  {
    var rest := ids[i..];
    RetryPassSkips(w, cfg, ids, i, tally, m);
    TurnIff(w, cfg, ids[i], tally, m);
    if HasTurn(w, cfg, ids[i], tally) {
      var (w1, t1) := RetryOne(w, cfg, rest[0], tally, m);
      RetryOneStep(w, cfg, rest[0], tally, m);
      assert ids[i] !in rest[1..];
      RetryPassKeeps(w1, cfg, rest[1..], t1, m, ids[i]);
    }
  }

  /** The next failed archive of the state: ready, and listed before every other one that is. */
  ghost predicate IsFirstFailed(w: World, cfg: Config, order: seq<Id>, id: Id, converting: int, m: Machine) {
    && id in w.rows && id in order && w.rows[id].status == MountFailed && IsNext(w, cfg, id, converting, m)
    && forall k :: k in w.rows && k != id && w.rows[k].status == MountFailed && IsNext(w, cfg, k, converting, m) ==>
         exists i, j :: 0 <= i < j < |order| && order[i] == id && order[j] == k
  }

  lemma FirstFailedAt(w: World, cfg: Config, order: seq<Id>, id: Id, converting: int, m: Machine) returns (i: nat)
    requires NoDuplicates(order) && IsFirstFailed(w, cfg, order, id, converting, m)
    ensures var ids := WithStatus(w.rows, order, MountFailed);
            && i < |ids| && ids[i] == id
            && forall j :: 0 <= j < i ==> !IsNext(w, cfg, ids[j], converting, m)
  {
    var ids := WithStatus(w.rows, order, MountFailed);
    i :| 0 <= i < |ids| && ids[i] == id;
    forall j | 0 <= j < i ensures !IsNext(w, cfg, ids[j], converting, m) {
      assert ids[j] in ids;
      if IsNext(w, cfg, ids[j], converting, m) {
        ListingOrder(w.rows, order, MountFailed, id, ids[j]);
      }
    }
  }

  /** No discovered archive is to be begun. */
  ghost predicate NothingNew(w: World, cfg: Config, order: seq<Id>, m: Machine) {
    forall k :: k in w.rows && w.rows[k].status == Discovered ==>
      !IsNextNew(w, cfg, k, |WithStatus(w.rows, order, Converting)|, m)
  }

  lemma NothingNewIsBegun(w: World, cfg: Config, order: seq<Id>, m: Machine)
    requires NothingNew(w, cfg, order, m)
    ensures IndexingWork(w, cfg, order, FirstTally(w, order), m) == (w, FirstTally(w, order))
  {
    FirstTallyIs(w, order);
    var ids, tally := Discoveries(w, order, m), FirstTally(w, order);
    forall j | 0 <= j < |ids| ensures !IsNextNew(w, cfg, ids[j], tally.converting, m) {
      DiscoveriesAreDiscovered(w, order, m, ids[j]);
    }
    FreshPassSkips(w, cfg, ids, |ids|, tally, m);
  }

  /** With nothing to take up and nothing new, the cycle begins the next failed archive again, with a machine
      that agrees: it is indexed if its index file is missing or empty, and mounted if not. */
  lemma CycleRetriesFirst(w: World, cfg: Config, order: seq<Id>, m: Machine, id: Id)
    requires WellFormed(w) && ValidConfig(cfg) && NoDuplicates(order) && NothingStuck(w) && NothingNew(w, cfg, order, m)
    requires IsFirstFailed(w, cfg, order, id, |WithStatus(w.rows, order, Converting)|, m)
    requires HasTurn(w, cfg, id, FirstTally(w, order))
    requires HasRoom(w, cfg, BuildsIndex(w, w.rows[id], Some(false))) && Agrees(w.rows[id].archivePath, m.again(id))
    ensures IsUnderWay(w, PendingWork(w, cfg, order, m), id, BuildsIndex(w, w.rows[id], Some(false)))
  {
    var tally := FirstTally(w, order);
    NothingIsTakenUp(w, cfg, order, m);
    NothingNewIsBegun(w, cfg, order, m);
    FirstTallyIs(w, order);
    var i := FirstFailedAt(w, cfg, order, id, tally.converting, m);
    AgreedSpawns(w, cfg, id, false, m.again(id));
    RetryPassBegins(w, cfg, WithStatus(w.rows, order, MountFailed), i, tally, m);
    StartOutcome(w, cfg, id, Some(false), m.again(id));
    UnderWay(w, BeginMount(w, cfg, id, Some(false), m.again(id)).0, PendingWork(w, cfg, order, m), cfg, id,
             PathFor(w, id, m.again(id)), m.again(id), BuildsIndex(w, w.rows[id], Some(false)));
  }

  // ---- the first stuck archive ----

  /** Work in progress of which nothing is left: it is ready, has no entry, and no stored process of it runs. */
  predicate IsStuck(w: World, id: Id, m: Machine) {
    && IsReadyStuck(w, id, m)
    && (w.rows[id].mountPid.Some? ==> w.rows[id].mountPid.value !in w.alive)
  }

  lemma {:induction false} StuckPassSkips(w: World, cfg: Config, ids: seq<Id>, i: nat, m: Machine)
    requires i <= |ids| && forall j :: 0 <= j < i ==> !IsStuck(w, ids[j], m)
    ensures StuckPass(w, cfg, ids, m) == StuckPass(w, cfg, ids[i..], m)
    decreases |ids|
  {
    if i > 0 {
      assert !IsStuck(w, ids[0], m);
      forall j | 0 <= j < i - 1 ensures !IsStuck(w, ids[1..][j], m) {
        assert ids[1..][j] == ids[j + 1];
      }
      StuckPassSkips(w, cfg, ids[1..], i - 1, m);
      assert ids[1..][i - 1..] == ids[i..];
    } else {
      assert ids[0..] == ids;
    }
  }

  /** The first stuck indexing row of the listing is taken up, and what is started of it stays. */
  lemma CycleTakesUpFirst(w: World, cfg: Config, order: seq<Id>, m: Machine, i: nat)
    requires WellFormed(w) && ValidConfig(cfg) && NoDuplicates(order)
    requires var ids := WithStatus(w.rows, order, Indexing);
             && i < |ids| && (forall j :: 0 <= j < i ==> !IsStuck(w, ids[j], m)) && IsStuck(w, ids[i], m)
             && Spawns(w, cfg, ids[i], Some(w.rows[ids[i]].firstMountedAt.None?), m.stuck(ids[i]))
    ensures var id := WithStatus(w.rows, order, Indexing)[i];
            IsUnderWay(w, PendingWork(w, cfg, order, m), id,
                       BuildsIndex(w, w.rows[id], Some(w.rows[id].firstMountedAt.None?)))
  {
    var ids := WithStatus(w.rows, order, Indexing);
    var id, rest := ids[i], ids[i..];
    var first := Some(w.rows[id].firstMountedAt.None?);
    var building := BuildsIndex(w, w.rows[id], first);
    StuckPassSkips(w, cfg, ids, i, m);
    var w1 := StuckOne(w, cfg, id, m);
    StuckOneStep(w, cfg, id, m);
    StartOutcome(w, cfg, id, first, m.stuck(id));
    assert StartedAs(w, w1, cfg, id, PathFor(w, id, m.stuck(id)), m.stuck(id), building);
    assert id !in rest[1..];
    StuckPassKeeps(w1, cfg, rest[1..], m, id);
    var w2 := StuckPass(w, cfg, ids, m);
    UnderWay(w, w1, w2, cfg, id, PathFor(w, id, m.stuck(id)), m.stuck(id), building);
    StuckPassKeeps(w2, cfg, WithStatus(w2.rows, order, Mounting), m, id);
    var w3 := RetryStuck(w, cfg, order, m);
    UnderWayStays(w, w2, w3, id, building);
    LaterWorkKeeps(w3, cfg, order, FirstTally(w, order), m, id);
    UnderWayStays(w, w3, PendingWork(w, cfg, order, m), id, building);
  }
}
