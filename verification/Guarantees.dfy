/** What every step of the engine guarantees about the one archive it works on, and about all others. */
module Guarantees {
  import opened ArchiveStore
  import opened Lifecycle
  import opened MountNames
  import opened Options
  import opened PathLex
  import opened Statuses

  /** The bounds that configuration loading enforces. */
  ghost predicate ValidConfig(cfg: Config) {
    cfg.maxIndex >= 1 && cfg.maxConvert >= 1 && cfg.maxAttempts >= 1
  }

  /** No two rows store mount paths of the same base name. */
  ghost predicate DistinctNames(w: World) {
    forall i, j :: i in w.rows && j in w.rows && i != j && HasMountPath(w.rows[i]) && HasMountPath(w.rows[j]) ==>
      Base(w.rows[i].mountPath.value) != Base(w.rows[j].mountPath.value)
  }

  ghost predicate CleanPath(row: Row) {
    HasMountPath(row) ==> Clean(row.mountPath.value) == row.mountPath.value
  }

  predicate SafeId(id: Id) {
    forall i :: 0 <= i < |id| ==> IsSafe(id[i])
  }

  /** The invariant: every stored or live process id has been handed out before, archive ids are
      file-name safe, and stored mount paths are clean and distinct in their last element. */
  ghost predicate WellFormed(w: World) {
    && w.nextPid > 0
    && (forall p :: p in w.alive ==> p < w.nextPid)
    && (forall id :: id in w.rows && w.rows[id].mountPid.Some? ==> w.rows[id].mountPid.value < w.nextPid)
    && (forall id :: id in w.live ==> w.live[id].pid < w.nextPid)
    && (forall id :: id in w.rows ==> SafeId(id) && CleanPath(w.rows[id]))
    && DistinctNames(w)
  }

  /** Nothing but the archive id changes, apart from processes that end or are newly started. */
  ghost predicate Frame(w: World, w': World, id: Id) {
    && w'.rows.Keys == w.rows.Keys
    && (forall k :: k in w.rows && k != id ==> w'.rows[k] == w.rows[k])
    && (forall k :: k != id ==> (k in w'.live <==> k in w.live))
    && (forall k :: k in w.live && k != id ==> w'.live[k] == w.live[k])
    && (forall k :: k != id ==> (k in w'.jobs <==> k in w.jobs))
    && w.nextPid <= w'.nextPid
    && (forall p :: p in w'.alive ==> p in w.alive || w.nextPid <= p)
    && (forall p :: p in w.paths && p < w.nextPid ==> p in w'.paths && w'.paths[p] == w.paths[p])
  }

  /** Failures only add up: attempts never fall, entering mount_failed raises them, a raised counter at
      the limit is not retryable, and nothing but a raise can touch the flag. */
  ghost predicate RowStep(r: Row, r': Row, maxAttempts: int) {
    && r.mountAttempts <= r'.mountAttempts
    && (r'.status == MountFailed && r.status != MountFailed ==> r.mountAttempts < r'.mountAttempts)
    && (r.mountAttempts < r'.mountAttempts && r'.mountRetryable ==> r'.mountAttempts < maxAttempts)
    && (r.mountAttempts == r'.mountAttempts && r'.mountRetryable ==> r.mountRetryable)
  }

  function Max(a: int, b: int): int {
    if a < b then b else a
  }

  ghost predicate SlotBound(w: World, w': World, cfg: Config) {
    Slots(w', Indexing) <= Max(Slots(w, Indexing), cfg.maxIndex)
  }

  ghost predicate JobBound(w: World, w': World, cfg: Config) {
    |w'.jobs| <= Max(|w.jobs|, cfg.maxConvert)
  }

  /** The guarantee of one step on archive id. */
  ghost predicate Step(w: World, w': World, id: Id, cfg: Config) {
    && Frame(w, w', id)
    && WellFormed(w')
    && (id in w.rows ==> RowStep(w.rows[id], w'.rows[id], cfg.maxAttempts))
    && SlotBound(w, w', cfg)
    && JobBound(w, w', cfg)
  }

  lemma FrameTrans(w0: World, w1: World, w2: World, id: Id)
    requires Frame(w0, w1, id) && Frame(w1, w2, id)
    ensures Frame(w0, w2, id)
  {}

  lemma StepTrans(w0: World, w1: World, w2: World, id: Id, cfg: Config)
    requires Step(w0, w1, id, cfg) && Step(w1, w2, id, cfg)
    ensures Step(w0, w2, id, cfg)
  {}

  lemma StepRefl(w: World, id: Id, cfg: Config)
    requires WellFormed(w)
    ensures Step(w, w, id, cfg)
  {}

  lemma SubsetSize<T>(a: set<T>, b: set<T>)
    requires a <= b
    ensures |a| <= |b|
  {
    if a != b {
      assert b - a != {} by {
        assert b - a == {} ==> b == a + (b - a);
      }
      var x :| x in b - a;
      SubsetSize(a, b - {x});
    }
  }

  /** At most one more index slot is held, and none more when the archive itself takes none. */
  lemma SlotsFrame(w: World, w': World, id: Id)
    requires WellFormed(w) && Frame(w, w', id)
    ensures Slots(w', Indexing) <= Slots(w, Indexing) + 1
    ensures (Holds(w', id, Indexing) ==> Holds(w, id, Indexing)) ==> Slots(w', Indexing) <= Slots(w, Indexing)
  {
    var a, b := SlotSet(w, Indexing), SlotSet(w', Indexing);
    forall k | k in b && k != id ensures k in a {}
    if Holds(w', id, Indexing) ==> Holds(w, id, Indexing) {
      SubsetSize(b, a);
    }
    SubsetSize(b, a + {id});
  }

  // ---- primitive changes ----

  /** A name that no other row stores. */
  ghost predicate FreeName(w: World, id: Id, name: string) {
    forall k :: k in w.rows && k != id && HasMountPath(w.rows[k]) ==> Base(w.rows[k].mountPath.value) != name
  }

  /** What the changed archive itself must satisfy for the invariant to carry over. */
  ghost predicate OwnOk(w: World, w': World, id: Id)
    requires Frame(w, w', id)
  {
    && (forall p :: p in w'.alive ==> p < w'.nextPid)
    && (id in w'.live ==> w'.live[id].pid < w'.nextPid)
    && (id in w.rows ==>
          var r, r' := w.rows[id], w'.rows[id];
          && (r'.mountPid.Some? ==> r'.mountPid.value < w'.nextPid)
          && (r'.mountPath == r.mountPath || r'.mountPath == None
              || (CleanPath(r') && FreeName(w, id, Base(r'.mountPath.value)))))
  }

  lemma FrameWellFormed(w: World, w': World, id: Id)
    requires WellFormed(w) && Frame(w, w', id) && OwnOk(w, w', id)
    ensures WellFormed(w')
  {
    FrameDistinct(w, w', id);
  }

  lemma FrameDistinct(w: World, w': World, id: Id)
    requires DistinctNames(w) && Frame(w, w', id) && OwnOk(w, w', id)
    ensures DistinctNames(w')
  {}

  /** A new row value that guarantees the step when nothing else changes. */
  ghost predicate RowOk(w: World, r: Row, r': Row, cfg: Config) {
    && RowStep(r, r', cfg.maxAttempts)
    && (r'.mountPid == r.mountPid || r'.mountPid == None || (r'.status != Indexing && r'.mountPid.value < w.nextPid))
    && (r'.status == Indexing ==> r.status == Indexing)
    && (r'.mountPath == r.mountPath || r'.mountPath == None)
  }

  lemma RowChange(w: World, w': World, id: Id, r': Row, cfg: Config)
    requires WellFormed(w) && id in w.rows
    requires w' == w.(rows := w.rows[id := r']) && RowOk(w, w.rows[id], r', cfg)
    ensures Step(w, w', id, cfg)
  {
    SlotsFrame(w, w', id);
    FrameWellFormed(w, w', id);
  }

  /** Dropping the live entry or the job of the archive, ending processes, or touching files. */
  lemma Shrink(w: World, w': World, id: Id, cfg: Config)
    requires WellFormed(w) && w'.rows == w.rows && w'.nextPid == w.nextPid && w'.paths == w.paths
    requires w'.alive <= w.alive
    requires w'.live == w.live || w'.live == w.live - {id}
    requires w'.jobs == w.jobs || w'.jobs == w.jobs - {id}
    ensures Step(w, w', id, cfg)
  {
    SlotsFrame(w, w', id);
    FrameWellFormed(w, w', id);
    SubsetSize(w'.jobs.Keys, w.jobs.Keys);
    assert |w'.jobs| == |w'.jobs.Keys| && |w.jobs| == |w.jobs.Keys|;
  }

  /** A transition whose patch leaves attempts, retryability and mount path alone, and does not lead to
      indexing or to mount_failed. */
  lemma PlainMove(w: World, id: Id, to: Status, expected: set<Status>, patch: Patch, now: Time, cfg: Config)
    requires WellFormed(w) && id in w.rows
    requires (to != MountFailed && to != Indexing) || w.rows[id].status == to
    requires patch.mountAttempts == Keep && patch.mountRetryable == Keep
    requires patch.mountPath == Keep || patch.mountPath == Set(None)
    requires patch.mountPid == Keep || patch.mountPid == Set(None)
             || (to != Indexing && patch.mountPid.value.Some? && patch.mountPid.value.value < w.nextPid)
    ensures Step(w, WithRows(w, id, to, expected, patch, now), id, cfg)
  {
    if CanMove(w.rows, id, to, expected) {
      RowChange(w, WithRows(w, id, to, expected, patch, now), id, Updated(w.rows[id], to, patch, now), cfg);
    } else {
      assert WithRows(w, id, to, expected, patch, now) == w;
    }
  }

  /** A transition that books a failure on the row. */
  lemma FailMove(w: World, id: Id, to: Status, expected: set<Status>, patch: Patch, now: Time, cfg: Config)
    requires WellFormed(w) && id in w.rows && ValidConfig(cfg)
    requires to != Indexing || w.rows[id].status == Indexing
    requires patch.mountPid == Set(None) && patch.mountPath == Keep
    requires var (attempts, retryable) := NextMountAttempt(w.rows[id].mountAttempts, cfg.maxAttempts);
             patch.mountAttempts == Set(attempts) && patch.mountRetryable == Set(retryable)
    ensures Step(w, WithRows(w, id, to, expected, patch, now), id, cfg)
  {
    if CanMove(w.rows, id, to, expected) {
      RowChange(w, WithRows(w, id, to, expected, patch, now), id, Updated(w.rows[id], to, patch, now), cfg);
    } else {
      assert WithRows(w, id, to, expected, patch, now) == w;
    }
  }
}
