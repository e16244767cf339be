/** The repair passes as the daemon runs them (internal/reconcile/apply.go, internal/reconcile/reconciler.go):
    loops over a listing taken once at the start, acting on the engine in place. */
module Reconcilers {
  import opened ArchiveStore
  import opened Engines
  import opened Lifecycle
  import opened Options
  import opened Reconciling
  import opened RepairTheorems
  import opened Statuses

  // ---- the clean-up of partial indexes ----

  predicate Cleanable(w: World, id: Id) {
    id in w.rows && IsPartial(w.rows[id]) && CanDelete(w, w.rows[id].indexPath.GetOr(""))
  }

  function CleanRow(w: World, id: Id, now: Time): (World, nat) {
    if Cleanable(w, id) then
      var row := w.rows[id];
      (WithRows(DeleteIndex(w, row.indexPath.GetOr("")), id, row.status, {row.status}, FORGET_INDEX, now), 1)
    else (w, 0)
  }

  /** CleanupPartialIndexes: the state, and the number of files removed. */
  function CleanupPass(w: World, order: seq<Id>, now: Time): (World, nat)
    decreases |order|
  {
    if order == [] then (w, 0)
    else
      var last := |order| - 1;
      var (w1, n) := CleanupPass(w, order[..last], now);
      var (w2, more) := CleanRow(w1, order[last], now);
      (w2, n + more)
  }

  lemma CleanRowResult(w: World, id: Id, now: Time)
    ensures var (w', n) := CleanRow(w, id, now);
            && w'.rows.Keys == w.rows.Keys && w'.sticky == w.sticky
            && !Cleanable(w', id)
            && w'.indexes.Keys <= w.indexes.Keys
            && |w'.indexes| + n == |w.indexes|
            && (forall k :: k in w.rows && k != id ==> w'.rows[k] == w.rows[k])
  {
    if Cleanable(w, id) {
      var path := w.rows[id].indexPath.GetOr("");
      assert w.indexes.Keys == (w.indexes - {path}).Keys + {path};
      assert |w.indexes| == |w.indexes.Keys| && |w.indexes - {path}| == |(w.indexes - {path}).Keys|;
    }
  }

  /** After the pass no listed row has a partial index that could still be deleted, and the number
      reported is the number of index files that are gone. */
  lemma {:induction false} CleanupPassResult(w: World, order: seq<Id>, now: Time)
    ensures var (w', n) := CleanupPass(w, order, now);
            && w'.rows.Keys == w.rows.Keys && w'.sticky == w.sticky
            && w'.indexes.Keys <= w.indexes.Keys
            && |w'.indexes| + n == |w.indexes|
            && (forall id :: !Cleanable(w, id) ==> !Cleanable(w', id))
            && (forall id :: id in order ==> !Cleanable(w', id))
    decreases |order|
  {
    if order != [] {
      var last := |order| - 1;
      var w1 := CleanupPass(w, order[..last], now).0;
      CleanupPassResult(w, order[..last], now);
      CleanRowResult(w1, order[last], now);
      assert order == order[..last] + [order[last]];
      forall id | !Cleanable(w1, id) ensures !Cleanable(CleanRow(w1, order[last], now).0, id) {
        if id != order[last] && id in w1.rows {
          assert CleanRow(w1, order[last], now).0.rows[id] == w1.rows[id];
        }
      }
    }
  }

  // ---- a pass over one row more ----

  lemma ReconcileNext(w: World, order: seq<Id>, i: nat, s: Setup, w1: World, r1: seq<Report>, w2: World, r2: seq<Report>)
    requires i < |order| && Reconcile(w, order[..i], s) == (w1, r1) && RepairRow(w1, order[i], s) == (w2, r2)
    ensures Reconcile(w, order[..i + 1], s) == (w2, r1 + r2)
  {
    assert order[..i + 1][..i] == order[..i];
  }

  lemma BootNext(w: World, order: seq<Id>, i: nat, s: Setup, w1: World, r1: seq<Report>, w2: World, r2: seq<Report>)
    requires i < |order| && BootPass(w, order[..i], s) == (w1, r1) && BootRow(w1, order[i], s) == (w2, r2)
    ensures BootPass(w, order[..i + 1], s) == (w2, r1 + r2)
  {
    assert order[..i + 1][..i] == order[..i];
  }

  lemma CleanupNext(w: World, order: seq<Id>, i: nat, now: Time, w1: World, r1: nat, w2: World, r2: nat)
    requires i < |order| && CleanupPass(w, order[..i], now) == (w1, r1) && CleanRow(w1, order[i], now) == (w2, r2)
    ensures CleanupPass(w, order[..i + 1], now) == (w2, r1 + r2)
  {
    assert order[..i + 1][..i] == order[..i];
  }

  class Reconciler {
    const engine: Engine

    constructor (engine: Engine)
      ensures this.engine == engine
    {
      this.engine := engine;
    }

    ghost predicate Valid()
      reads engine.store
    {
      engine.store.Valid()
    }

    method UnmountIfMounted(row: Row, s: Setup)
      modifies engine`mounts
      ensures engine.World() == Unmounted(old(engine.World()), row, s)
    {
      if s.unmountWired && HasMountPath(row) {
        engine.mounts := engine.mounts - {row.mountPath.value};
      }
    }

    method TakeDown(id: Id, row: Row, kind: Kind, s: Setup)
      modifies engine
      ensures engine.World() == TakenDown(old(engine.World()), id, row, kind, s)
    {
      engine.live := engine.live - {id};
      if HasMountPath(row) && row.mountPath.value in engine.mounts {
        UnmountIfMounted(row, s);
      }
      if kind == FailIndex || row.firstMountedAt.None? {
        var _ := engine.DeleteIndexFile(row.indexPath.GetOr(""));
      }
    }

    /** applyFail. */
    method ApplyFail(id: Id, row: Row, a: Action, s: Setup) returns (accepted: bool)
      requires Valid() && id in engine.store.rows && row == engine.store.rows[id]
      modifies engine, engine.store`rows
      ensures Valid() && (engine.World(), accepted) == Fail(old(engine.World()), id, a, s)
    {
      TakeDown(id, row, a.kind, s);
      var patch := RepairPatch(row, a.kind, Text(a.reason, s), s.maxAttempts);
      accepted := engine.store.Transition(id, FailedStatus(a.kind), {row.status}, patch, s.now);
    }

    method ApplyCleanup(id: Id, row: Row, s: Setup) returns (accepted: bool)
      requires Valid() && id in engine.store.rows && row == engine.store.rows[id]
      modifies engine`indexes, engine.store`rows
      ensures Valid()
      ensures (engine.World(), accepted) ==
              Apply(old(engine.World()), id, Action(CleanupIndex, PartialIndex, row.status, None), s)
    {
      if !IsPartial(row) {
        return true;
      }
      var deleted := engine.DeleteIndexFile(row.indexPath.GetOr(""));
      if !deleted {
        return true;
      }
      accepted := engine.store.Transition(id, row.status, {row.status}, FORGET_INDEX, s.now);
    }

    method ApplyAbsent(id: Id, row: Row, a: Action, s: Setup) returns (accepted: bool)
      requires Valid() && id in engine.store.rows && row == engine.store.rows[id] && a.kind == GoAbsent
      modifies engine, engine.store`rows
      ensures Valid() && (engine.World(), accepted) == Apply(old(engine.World()), id, a, s)
    {
      engine.live := engine.live - {id};
      UnmountIfMounted(row, s);
      MarkAbsentSucceeds(engine.store.rows, id, Set(Some(Text(a.reason, s))), s.now);
      accepted := engine.store.SetAbsent(id, Set(Some(Text(a.reason, s))), s.now);
    }

    method ApplyAction(id: Id, row: Row, a: Action, s: Setup) returns (accepted: bool)
      requires Valid() && id in engine.store.rows && row == engine.store.rows[id]
      modifies engine, engine.store`rows
      ensures Valid() && (engine.World(), accepted) == Apply(old(engine.World()), id, a, s)
    {
      match a.kind
      case Ok => accepted := true;
      case CleanupIndex => accepted := ApplyCleanup(id, row, s);
      case GoAbsent => accepted := ApplyAbsent(id, row, a, s);
      case FailIndex => accepted := ApplyFail(id, row, a, s);
      case FailMount => accepted := ApplyFail(id, row, a, s);
      case Requeue =>
        var target := a.target.GetOr(RequeueTarget(row));
        var patch := CLEAR_PID;
        if row.status == Unmounting || row.status == Converting {
          patch := patch.(mountRetryable := Set(true));
        }
        accepted := engine.store.Transition(id, target, {row.status}, patch, s.now);
      case RequestRemount =>
        accepted := engine.store.Transition(id, MountFailed, {row.status}, REMOUNT_PATCH, s.now);
    }

    /** The rows of other archives are as they were. */
    twostate predicate OthersKept(id: Id)
      reads engine.store
    {
      && engine.store.rows.Keys == old(engine.store.rows).Keys
      && forall k :: k in engine.store.rows && k != id ==> engine.store.rows[k] == old(engine.store.rows)[k]
    }

    method RepairListed(id: Id, row: Row, s: Setup) returns (reports: seq<Report>)
      requires Valid() && id in engine.store.rows && row == engine.store.rows[id]
      modifies engine, engine.store`rows
      ensures Valid() && OthersKept(id) && (engine.World(), reports) == RepairRow(old(engine.World()), id, s)
    {
      var a := DecideOne(engine.World(), id, row, s);
      if a.None? {
        return [];
      }
      ApplyTouches(engine.World(), id, a.value, s);
      var accepted := ApplyAction(id, row, a.value, s);
      return [Report(id, a.value, accepted)];
    }

    method BootListed(id: Id, row: Row, s: Setup) returns (reports: seq<Report>)
      requires Valid() && id in engine.store.rows && row == engine.store.rows[id]
      modifies engine, engine.store`rows
      ensures Valid() && OthersKept(id) && (engine.World(), reports) == BootRow(old(engine.World()), id, s)
    {
      var a := PlanBoot(row, s);
      if a.None? {
        return [];
      }
      ApplyTouches(engine.World(), id, a.value, s);
      var accepted := ApplyAction(id, row, a.value, s);
      return [Report(id, a.value, accepted)];
    }

    method CleanListed(id: Id, row: Row, now: Time) returns (n: nat)
      requires Valid() && id in engine.store.rows && row == engine.store.rows[id]
      modifies engine`indexes, engine.store`rows
      ensures Valid() && OthersKept(id) && (engine.World(), n) == CleanRow(old(engine.World()), id, now)
    {
      if !IsPartial(row) {
        return 0;
      }
      var deleted := engine.DeleteIndexFile(row.indexPath.GetOr(""));
      if !deleted {
        return 0;
      }
      var _ := engine.store.Transition(id, row.status, {row.status}, FORGET_INDEX, now);
      return 1;
    }

    /** Reconcile: decisions are made on the rows as they were listed, which the pass has not changed since. */
    method Reconcile(s: Setup) returns (reports: seq<Report>)
      requires Valid()
      modifies engine, engine.store`rows
      ensures Valid()
      ensures (engine.World(), reports) == Reconciling.Reconcile(old(engine.World()), engine.store.order, s)
    {
      var ids, recs := engine.store.order, engine.store.rows;
      ghost var w0 := engine.World();
      reports := [];
      for i := 0 to |ids|
        invariant Valid() && ids == engine.store.order && recs.Keys == engine.store.rows.Keys
        invariant forall k :: i <= k < |ids| ==> engine.store.rows[ids[k]] == recs[ids[k]]
        invariant Reconciling.Reconcile(w0, ids[..i], s) == (engine.World(), reports)
      {
        ghost var w1 := engine.World();
        var more := RepairListed(ids[i], recs[ids[i]], s);
        ReconcileNext(w0, ids, i, s, w1, reports, engine.World(), more);
        reports := reports + more;
      }
      assert ids[..|ids|] == ids;
    }

    method Boot(s: Setup) returns (reports: seq<Report>)
      requires Valid()
      modifies engine, engine.store`rows
      ensures Valid()
      ensures (engine.World(), reports) == BootPass(old(engine.World()), engine.store.order, s)
    {
      var ids, recs := engine.store.order, engine.store.rows;
      ghost var w0 := engine.World();
      reports := [];
      for i := 0 to |ids|
        invariant Valid() && ids == engine.store.order && recs.Keys == engine.store.rows.Keys
        invariant forall k :: i <= k < |ids| ==> engine.store.rows[ids[k]] == recs[ids[k]]
        invariant BootPass(w0, ids[..i], s) == (engine.World(), reports)
      {
        ghost var w1 := engine.World();
        var more := BootListed(ids[i], recs[ids[i]], s);
        BootNext(w0, ids, i, s, w1, reports, engine.World(), more);
        reports := reports + more;
      }
      assert ids[..|ids|] == ids;
    }

    method CleanNext(ids: seq<Id>, i: nat, row: Row, now: Time, n: nat, ghost w0: World) returns (n': nat)
      requires Valid() && i < |ids| && ids[i] in engine.store.rows && row == engine.store.rows[ids[i]]
      requires CleanupPass(w0, ids[..i], now) == (engine.World(), n)
      modifies engine, engine.store`rows
      ensures Valid() && OthersKept(ids[i])
      ensures CleanupPass(w0, ids[..i + 1], now) == (engine.World(), n')
    {
      ghost var w1 := engine.World();
      var more := CleanListed(ids[i], row, now);
      n' := n + more;
      CleanupNext(w0, ids, i, now, w1, n, engine.World(), more);
    }

    method CleanupPartialIndexes(now: Time) returns (n: nat)
      requires Valid()
      modifies engine, engine.store`rows
      ensures Valid()
      ensures (engine.World(), n) == CleanupPass(old(engine.World()), engine.store.order, now)
    {
      var ids, recs := engine.store.order, engine.store.rows;
      ghost var w0 := engine.World();
      n := 0;
      for i := 0 to |ids|
        invariant Valid() && ids == engine.store.order && recs.Keys == engine.store.rows.Keys
        invariant forall k :: i <= k < |ids| ==> engine.store.rows[ids[k]] == recs[ids[k]]
        invariant CleanupPass(w0, ids[..i], now) == (engine.World(), n)
      {
        n := CleanNext(ids, i, recs[ids[i]], now, n, w0);
      }
      assert ids[..|ids|] == ids;
    }
  }
}
