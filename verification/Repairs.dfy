/** What a repair does to a row, by its status and by what is seen of it: when it is left alone, when it is
    failed, and when it is given up (internal/reconcile/decide.go, internal/reconcile/apply.go). */
module Repairs {
  import opened ArchiveStore
  import opened Lifecycle
  import opened Options
  import opened Reconciling
  import opened RepairTheorems
  import opened Sequences
  import opened Statuses
  import opened Strings

  /** The process is there, and so is the mount. */
  predicate IsHealthy(w: World, row: Row) {
    && row.mountPid.Some? && row.mountPid.value in w.alive
    && row.mountPath.Some? && row.mountPath.value != "" && row.mountPath.value in w.mounts
  }

  predicate IsPath(path: Option<string>) {
    path.Some? && exists i :: 0 <= i < |path.value| && !IsSpace(path.value[i])
  }

  /** The index file of the row can be deleted. */
  predicate Deletable(w: World, row: Row) {
    IsPath(row.indexPath) && row.indexPath.value in w.indexes && row.indexPath.value !in w.sticky
  }

  /** The mount of the row is taken down, when there is one and that is wired. */
  function Mountless(w: World, row: Row, s: Setup): set<string> {
    if s.unmountWired && row.mountPath.Some? && row.mountPath.value != "" then w.mounts - {row.mountPath.value}
    else w.mounts
  }

  /** Apart from the row, the live entry is gone, the mount may be, and the index file is when it is to be. */
  ghost predicate TornDown(w: World, w': World, id: Id, s: Setup, withIndex: bool)
    requires id in w.rows
  {
    && w'.live == w.live - {id} && w'.mounts == Mountless(w, w.rows[id], s)
    && w'.indexes == (if withIndex && Deletable(w, w.rows[id]) then w.indexes - {w.rows[id].indexPath.value}
                      else w.indexes)
    && w'.jobs == w.jobs && w'.alive == w.alive
  }

  /** The row has failed: one attempt more, no process, and no index when it never mounted or was indexing. */
  ghost predicate FailedTo(w: World, w': World, id: Id, status: Status, s: Setup) {
    && id in w.rows && id in w'.rows
    && var r, r' := w.rows[id], w'.rows[id];
    && var forgets := status == IndexFailed || r.firstMountedAt.None?;
    && r' == r.(status := status, mountPid := None, mountAttempts := r.mountAttempts + 1,
                mountRetryable := s.maxAttempts >= 1 && r.mountAttempts + 1 < s.maxAttempts,
                indexPath := if forgets then None else r.indexPath, lastError := r'.lastError)
    && r'.lastError.Some?
    && TornDown(w, w', id, s, forgets)
  }

  /** The archive is given up. */
  ghost predicate GivenAway(w: World, w': World, id: Id, s: Setup) {
    && id in w.rows && id in w'.rows
    && var r, r' := w.rows[id], w'.rows[id];
    && r' == r.(status := Absent, mountPid := None, lastError := r'.lastError)
    && r'.lastError.Some?
    && TornDown(w, w', id, s, false)
  }

  lemma FailedRow(row: Row, kind: Kind, text: string, s: Setup)
    requires kind == FailIndex || kind == FailMount
    ensures var status := if kind == FailIndex then IndexFailed else MountFailed;
            Updated(row, status, RepairPatch(row, kind, text, s.maxAttempts), s.now) ==
            row.(status := status, mountPid := None, mountAttempts := row.mountAttempts + 1,
                 mountRetryable := s.maxAttempts >= 1 && row.mountAttempts + 1 < s.maxAttempts,
                 indexPath := if status == IndexFailed || row.firstMountedAt.None? then None else row.indexPath,
                 lastError := Some(text))
  {}

  lemma DeletableIff(w: World, row: Row)
    ensures Deletable(w, row) <==> CanDelete(w, row.indexPath.GetOr(""))
  {}

  lemma TakenDownIs(w: World, id: Id, kind: Kind, s: Setup)
    requires id in w.rows && (kind == FailIndex || kind == FailMount)
    ensures TornDown(w, TakenDown(w, id, w.rows[id], kind, s), id, s,
                     kind == FailIndex || w.rows[id].firstMountedAt.None?)
    ensures TakenDown(w, id, w.rows[id], kind, s).rows == w.rows
  {
    DeletableIff(w, w.rows[id]);
  }

  lemma FailOutcome(w: World, id: Id, a: Action, s: Setup)
    requires id in w.rows && (a.kind == FailIndex || a.kind == FailMount) && Legal(w.rows[id], a)
    ensures FailedTo(w, Fail(w, id, a, s).0, id, if a.kind == FailIndex then IndexFailed else MountFailed, s)
  {
    FailedRow(w.rows[id], a.kind, Text(a.reason, s), s);
    TakenDownIs(w, id, a.kind, s);
  }

  lemma AbsentOutcome(w: World, id: Id, a: Action, s: Setup)
    requires id in w.rows && a.kind == GoAbsent
    ensures GivenAway(w, Apply(w, id, a, s).0, id, s)
  {
    MarkAbsentSucceeds(w.rows, id, Set(Some(Text(a.reason, s))), s.now);
  }

  // ---- one status after the other ----

  /** A mounted row is left alone if and only if both its process and its mount are there. If not, it is
      failed for a remount when the archive is still there, and given up when it is not. */
  lemma MountedOutcome(w: World, id: Id, s: Setup)
    requires id in w.rows && w.rows[id].status in {Mounted, HooksRunning}
    ensures var w' := RepairRow(w, id, s).0;
            if IsHealthy(w, w.rows[id]) then w' == w
            else if w.rows[id].archivePath in s.present then FailedTo(w, w', id, MountFailed, s)
            else GivenAway(w, w', id, s)
  {
    DecisionIsLegal(w, id, w.rows[id], s);
    var a := DecideOne(w, id, w.rows[id], s).value;
    match a.kind
    case GoAbsent => AbsentOutcome(w, id, a, s);
    case FailMount => FailOutcome(w, id, a, s);
    case _ =>
  }

  /** A converting row is left alone if and only if its job is known. */
  lemma ConvertingOutcome(w: World, id: Id, s: Setup)
    requires id in w.rows && w.rows[id].status == Converting
    ensures var w' := RepairRow(w, id, s).0;
            if s.convertWired && id in w.jobs then w' == w else FailedTo(w, w', id, MountFailed, s)
  {
    var a := DecideOne(w, id, w.rows[id], s).value;
    if a.kind == FailMount {
      FailOutcome(w, id, a, s);
    }
  }

  /** A row that is unmounting is given up if and only if its archive is gone; an absent one stays. */
  lemma LeavingOutcome(w: World, id: Id, s: Setup)
    requires id in w.rows && w.rows[id].status in {Unmounting, Absent}
    ensures var w' := RepairRow(w, id, s).0;
            if w.rows[id].status == Absent || w.rows[id].archivePath in s.present then w' == w
            else GivenAway(w, w', id, s)
  {
    var a := DecideOne(w, id, w.rows[id], s);
    if a.Some? {
      AbsentOutcome(w, id, a.value, s);
    }
  }

  /** A queued row loses its index if and only if it never mounted and the file is there and can go. */
  lemma QueuedOutcome(w: World, id: Id, s: Setup)
    requires id in w.rows && w.rows[id].status in {Discovered, IndexFailed, MountFailed}
    ensures var row, w' := w.rows[id], RepairRow(w, id, s).0;
            w' == if row.firstMountedAt.None? && Deletable(w, row)
                  then w.(rows := w.rows[id := row.(indexPath := None)], indexes := w.indexes - {row.indexPath.value})
                  else w
  {
    DeletableIff(w, w.rows[id]);
  }

  /** The registry reports the end of the index, or a mount that works. */
  predicate ReportedFine(w: World, id: Id, s: Setup) {
    && s.liveWired && id in w.live
    && var m := w.live[id];
    && IsPath(Some(m.indexPath)) && m.indexPath in w.indexes && w.indexes[m.indexPath] > 0
    && if m.pid in w.alive then m.phase == MountPhase && m.mountPath != "" && m.mountPath in w.mounts
       else m.phase == IndexOnly
  }

  /** Its stored process or its live child is gone, or its time is up. */
  predicate InTrouble(w: World, id: Id, s: Setup)
    requires id in w.rows
  {
    var row := w.rows[id];
    || (row.mountPid.Some? && row.mountPid.value !in w.alive)
    || (s.liveWired && id in w.live && w.live[id].pid !in w.alive)
    || (row.indexStartedAt.Some? && s.now - row.indexStartedAt.value > s.timeout)
  }

  /** Work in progress is left alone if and only if nothing is wrong with it, or the registry reports it
      fine; otherwise it fails in the phase that it is in. */
  lemma InProgressOutcome(w: World, id: Id, s: Setup)
    requires id in w.rows && w.rows[id].status in {Indexing, Mounting}
    ensures var w' := RepairRow(w, id, s).0;
            if ReportedFine(w, id, s) || !InTrouble(w, id, s) then w' == w
            else FailedTo(w, w', id, if w.rows[id].status == Indexing then IndexFailed else MountFailed, s)
  {
    InProgressKind(w, id, s);
    var a := DecideOne(w, id, w.rows[id], s).value;
    if a.kind != Ok {
      FailOutcome(w, id, a, s);
    }
  }

  lemma InProgressKind(w: World, id: Id, s: Setup)
    requires id in w.rows && w.rows[id].status in {Indexing, Mounting}
    ensures var a := DecideOne(w, id, w.rows[id], s);
            && a.Some? && (a.value.kind == Ok <==> ReportedFine(w, id, s) || !InTrouble(w, id, s))
            && (a.value.kind != Ok ==> a.value.kind == if w.rows[id].status == Indexing then FailIndex else FailMount)
  {
    if id in w.live {
      ReadyIff(w, w.live[id].indexPath);
    }
  }

  lemma ReadyIff(w: World, path: string)
    ensures IndexReady(w, path) <==> IsPath(Some(path)) && path in w.indexes && w.indexes[path] > 0
  {}

  // ---- the pass ----

  function RowOf(w: World, id: Id): Option<Row> {
    if id in w.rows then Some(w.rows[id]) else None
  }

  lemma FailRowOnly(w: World, w': World, id: Id, a: Action, s: Setup)
    requires id in w.rows && id in w'.rows && w'.rows[id] == w.rows[id]
    ensures RowOf(Fail(w', id, a, s).0, id) == RowOf(Fail(w, id, a, s).0, id)
  {
    var row := w.rows[id];
    var patch := RepairPatch(row, a.kind, Text(a.reason, s), s.maxAttempts);
    MovedRowOnly(TakenDown(w, id, row, a.kind, s), TakenDown(w', id, row, a.kind, s), id, FailedStatus(a.kind),
                 {row.status}, patch, s.now);
  }

  lemma MovedRowOnly(w: World, w': World, id: Id, to: Status, expected: set<Status>, patch: Patch, now: Time)
    requires id in w.rows && id in w'.rows && w'.rows[id] == w.rows[id]
    ensures RowOf(WithRows(w', id, to, expected, patch, now), id) == RowOf(WithRows(w, id, to, expected, patch, now), id)
  {}

  lemma AbsentRowOnly(w: World, w': World, id: Id, a: Action, s: Setup)
    requires id in w.rows && id in w'.rows && w'.rows[id] == w.rows[id] && a.kind == GoAbsent
    ensures RowOf(Apply(w', id, a, s).0, id) == RowOf(Apply(w, id, a, s).0, id)
  {
    MarkAbsentSucceeds(w.rows, id, Set(Some(Text(a.reason, s))), s.now);
    MarkAbsentSucceeds(w'.rows, id, Set(Some(Text(a.reason, s))), s.now);
  }

  lemma CleanupRowOnly(w: World, w': World, id: Id, a: Action, s: Setup)
    requires SameView(w, w', id) && a.kind == CleanupIndex
    ensures RowOf(Apply(w', id, a, s).0, id) == RowOf(Apply(w, id, a, s).0, id)
  {}

  /** The same view leads to the same row. */
  lemma ViewRepairs(w: World, w': World, id: Id, s: Setup)
    requires SameView(w, w', id)
    ensures RowOf(RepairRow(w', id, s).0, id) == RowOf(RepairRow(w, id, s).0, id)
  {
    ViewDecides(w, w', id, s);
    DecisionIsLegal(w, id, w.rows[id], s);
    var a := DecideOne(w, id, w.rows[id], s);
    if a.Some? {
      match a.value.kind
      case GoAbsent => AbsentRowOnly(w, w', id, a.value, s);
      case FailIndex => FailRowOnly(w, w', id, a.value, s);
      case FailMount => FailRowOnly(w, w', id, a.value, s);
      case CleanupIndex => CleanupRowOnly(w, w', id, a.value, s);
      case _ =>
    }
  }

  lemma ViewTrans(w: World, w1: World, w2: World, id: Id)
    requires SameView(w, w1, id) && SameView(w1, w2, id)
    ensures SameView(w, w2, id)
  {}

  lemma OthersKeep(w: World, id: Id, k: Id, s: Setup)
    requires NoSharing(w) && k in w.rows && k != id
    ensures SameView(w, RepairRow(w, id, s).0, k)
  {
    if id in w.rows {
      var a := DecideOne(w, id, w.rows[id], s);
      if a.Some? {
        ApplyTouches(w, id, a.value, s);
        OthersKeepView(w, RepairRow(w, id, s).0, id, k);
      }
    }
  }

  lemma {:induction false} UnlistedKeeps(w: World, order: seq<Id>, s: Setup, id: Id)
    requires NoSharing(w) && id in w.rows && id !in order
    ensures SameView(w, Reconcile(w, order, s).0, id)
    decreases |order|
  {
    if order != [] {
      var n := |order| - 1;
      var w1 := Reconcile(w, order[..n], s).0;
      UnlistedKeeps(w, order[..n], s, id);
      ReconcileCalms(w, order[..n], s);
      OthersKeep(w1, order[n], id, s);
      ViewTrans(w, w1, RepairRow(w1, order[n], s).0, id);
    }
  }

  /** A pass repairs each listed row as it stood at the start, whatever it does to the others. */
  lemma {:induction false} PassOutcome(w: World, order: seq<Id>, s: Setup, id: Id)
    requires NoSharing(w) && NoDuplicates(order) && id in order && id in w.rows
    ensures RowOf(Reconcile(w, order, s).0, id) == RowOf(RepairRow(w, id, s).0, id)
    decreases |order|
  {
    var n := |order| - 1;
    var w1 := Reconcile(w, order[..n], s).0;
    assert order == order[..n] + [order[n]];
    ReconcileCalms(w, order[..n], s);
    if id == order[n] {
      UnlistedKeeps(w, order[..n], s, id);
      ViewRepairs(w, w1, id, s);
    } else {
      PassOutcome(w, order[..n], s, id);
      OthersKeep(w1, order[n], id, s);
    }
  }
}
