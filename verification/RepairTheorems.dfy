/** One reconcile pass reaches a fixed point, one boot pass empties the boot plan, and neither asks for
    a move that the status table forbids. */
module RepairTheorems {
  import opened ArchiveStore
  import opened Guarantees
  import opened Lifecycle
  import opened Options
  import opened Reconciling
  import opened Sequences
  import opened Statuses
  import opened Steps

  // ---- decisions about work in progress ----

  ghost predicate Exited(w: World, id: Id, s: Setup) {
    s.liveWired && id in w.live && w.live[id].pid !in w.alive
  }

  /** An indexing or mounting row is failed exactly when its process is gone or its time is up, and the
      live registry does not report its index finished or its mount ready. */
  lemma InProgressFailsIff(w: World, id: Id, row: Row, s: Setup)
    requires row.status == Indexing || row.status == Mounting
    ensures var a := DecideOne(w, id, row, s);
            && a.Some?
            && (a.value.kind == Ok || a.value.kind == if row.status == Indexing then FailIndex else FailMount)
            && (a.value.kind != Ok <==>
                && (PidDead(w, row) || Exited(w, id, s) || Overdue(row, s))
                && !(Exited(w, id, s) && w.live[id].phase == IndexOnly && IndexReady(w, w.live[id].indexPath))
                && !(s.liveWired && id in w.live && CheckChild(w, id) == ChildMounted && w.live[id].pid in w.alive
                     && w.live[id].mountPath != ""))
  {}

  /** Whatever IsMount says: no dead pid, no exited child and no timeout means no failure. */
  lemma MissingMountIsNoFailure(w: World, id: Id, row: Row, s: Setup, mounts: set<string>)
    requires row.status == Indexing || row.status == Mounting
    requires !PidDead(w, row) && !Exited(w, id, s) && !Overdue(row, s)
    ensures var a := DecideOne(w.(mounts := mounts), id, row, s); a.Some? && a.value.kind == Ok
  {
    InProgressFailsIff(w.(mounts := mounts), id, row, s);
  }

  // ---- the reconcile pass ----

  /** No action, or one that does nothing, or a deletion that cannot succeed. */
  ghost predicate Calm(w: World, id: Id, s: Setup) {
    id in w.rows ==>
      var a := DecideOne(w, id, w.rows[id], s);
      a.Some? ==>
        || a.value.kind == Ok
        || (a.value.kind == CleanupIndex && w.rows[id].indexPath.GetOr("") in w.sticky)
  }

  /** The table has every edge that reconcile asks for. */
  lemma RepairIsAccepted(w: World, id: Id, s: Setup)
    ensures forall r :: r in RepairRow(w, id, s).1 ==> r.accepted
  {
    if id in w.rows {
      var a := DecideOne(w, id, w.rows[id], s);
      if a.Some? {
        ActionIsAccepted(w, id, a.value, s);
      }
    }
  }

  /** The edges behind each kind of action. */
  ghost predicate Legal(row: Row, a: Action) {
    match a.kind
    case FailIndex => row.status == Indexing
    case FailMount => row.status in {Mounting, Converting, Mounted, HooksRunning}
    case Requeue => a.target.Some? && ValidTransition(row.status, a.target.value)
    case RequestRemount => row.status in {Mounted, HooksRunning}
    case _ => true
  }

  lemma ActionIsAccepted(w: World, id: Id, a: Action, s: Setup)
    requires id in w.rows && Legal(w.rows[id], a)
    ensures Apply(w, id, a, s).1
  {
    if a.kind == GoAbsent {
      MarkAbsentSucceeds(w.rows, id, Set(Some(Text(a.reason, s))), s.now);
    }
  }

  /** What an action can reach: its own row, live entry, mount and index file. */
  ghost predicate Touches(w: World, w': World, id: Id) {
    && w'.rows.Keys == w.rows.Keys
    && (forall k :: k in w.rows && k != id ==> w'.rows[k] == w.rows[k])
    && (w'.live == w.live || w'.live == w.live - {id})
    && w'.jobs == w.jobs && w'.alive == w.alive && w'.nextPid == w.nextPid && w'.sticky == w.sticky
    && w'.paths == w.paths
    && (w'.mounts == w.mounts || (id in w.rows && HasMountPath(w.rows[id])
                                  && w'.mounts == w.mounts - {w.rows[id].mountPath.value}))
    && (w'.indexes == w.indexes || (id in w.rows && !Blank(w.rows[id].indexPath.GetOr(""))
                                    && w'.indexes == w.indexes - {w.rows[id].indexPath.GetOr("")}))
  }

  lemma FailTouches(w: World, id: Id, a: Action, s: Setup)
    requires id in w.rows
    ensures Touches(w, Fail(w, id, a, s).0, id)
  {}

  lemma GoAbsentTouches(w: World, id: Id, text: string, s: Setup)
    requires id in w.rows
    ensures var dropped := Unmounted(DropLive(w, id), w.rows[id], s);
            Touches(w, dropped.(rows := ArchiveStore.MarkAbsent(dropped.rows, id, Set(Some(text)), s.now)), id)
  {}

  lemma ApplyTouches(w: World, id: Id, a: Action, s: Setup)
    requires id in w.rows
    ensures Touches(w, Apply(w, id, a, s).0, id)
  {
    match a.kind
    case FailIndex => FailTouches(w, id, a, s);
    case FailMount => FailTouches(w, id, a, s);
    case GoAbsent => GoAbsentTouches(w, id, Text(a.reason, s), s);
    case _ =>
  }

  predicate InProgress(row: Row) {
    row.status == Indexing || row.status == Mounting
  }

  /** The paths of different archives are different, in the rows and, for work in progress, in the live
      registry: no other live entry is ever asked. */
  ghost predicate NoSharing(w: World) {
    forall i, j :: i in w.rows && j in w.rows && i != j ==> Apart(w, i, j)
  }

  /** What archive j uses is not what row i stores. */
  ghost predicate Apart(w: World, i: Id, j: Id)
    requires i in w.rows && j in w.rows
  {
    && (HasMountPath(w.rows[i]) ==>
          && w.rows[j].mountPath != w.rows[i].mountPath
          && (j in w.live && InProgress(w.rows[j]) ==> w.live[j].mountPath != w.rows[i].mountPath.value))
    && (!Blank(w.rows[i].indexPath.GetOr("")) ==>
          && w.rows[j].indexPath != w.rows[i].indexPath
          && (j in w.live && InProgress(w.rows[j]) ==> w.live[j].indexPath != w.rows[i].indexPath.GetOr("")))
  }

  /** What a decision about archive k looks at. */
  ghost predicate SameView(w: World, w': World, k: Id) {
    && k in w.rows && k in w'.rows && w'.rows[k] == w.rows[k]
    && w'.alive == w.alive && w'.jobs == w.jobs && w'.sticky == w.sticky
    && (k in w'.live <==> k in w.live)
    && (k in w.live ==> w'.live[k] == w.live[k])
    && (k in w.live && InProgress(w.rows[k]) ==>
          && (w.live[k].mountPath in w'.mounts <==> w.live[k].mountPath in w.mounts)
          && (IndexReady(w', w.live[k].indexPath) <==> IndexReady(w, w.live[k].indexPath)))
    && (MountIsUp(w', w.rows[k]) <==> MountIsUp(w, w.rows[k]))
    && (IsPartial(w.rows[k]) ==>
          (w.rows[k].indexPath.GetOr("") in w'.indexes <==> w.rows[k].indexPath.GetOr("") in w.indexes))
  }

  lemma ViewDecides(w: World, w': World, k: Id, s: Setup)
    requires SameView(w, w', k)
    ensures DecideOne(w', k, w'.rows[k], s) == DecideOne(w, k, w.rows[k], s)
  {}

  /** An action on one archive changes nothing that a decision about another looks at. */
  lemma OthersKeepView(w: World, w': World, id: Id, k: Id)
    requires NoSharing(w) && Touches(w, w', id) && id in w.rows && k in w.rows && k != id
    ensures SameView(w, w', k)
  {
    OthersKeepMount(w, w', id, k);
    OthersKeepIndex(w, w', id, k);
  }

  lemma OthersKeepMount(w: World, w': World, id: Id, k: Id)
    requires NoSharing(w) && Touches(w, w', id) && id in w.rows && k in w.rows && k != id
    ensures MountIsUp(w', w.rows[k]) <==> MountIsUp(w, w.rows[k])
    ensures k in w.live && InProgress(w.rows[k]) ==>
              (w.live[k].mountPath in w'.mounts <==> w.live[k].mountPath in w.mounts)
  {
    assert Apart(w, id, k);
  }

  lemma OthersKeepIndex(w: World, w': World, id: Id, k: Id)
    requires NoSharing(w) && Touches(w, w', id) && id in w.rows && k in w.rows && k != id
    ensures k in w.live && InProgress(w.rows[k]) ==>
              (IndexReady(w', w.live[k].indexPath) <==> IndexReady(w, w.live[k].indexPath))
    ensures IsPartial(w.rows[k]) ==>
              (w.rows[k].indexPath.GetOr("") in w'.indexes <==> w.rows[k].indexPath.GetOr("") in w.indexes)
  {
    var path := w.rows[id].indexPath.GetOr("");
    assert forall p :: p in w.indexes && p != path ==> (p in w'.indexes && w'.indexes[p] == w.indexes[p]);
    assert forall p :: p in w'.indexes ==> p in w.indexes;
    if w'.indexes != w.indexes {
      assert Apart(w, id, k);
    }
  }

  lemma AbsentCalms(w: World, id: Id, a: Action, s: Setup)
    requires id in w.rows && a.kind == GoAbsent
    ensures Calm(Apply(w, id, a, s).0, id, s)
  {
    MarkAbsentSucceeds(w.rows, id, Set(Some(Text(a.reason, s))), s.now);
  }

  lemma CleanupCalms(w: World, id: Id, a: Action, s: Setup)
    requires id in w.rows && a.kind == CleanupIndex && DecideOne(w, id, w.rows[id], s) == Some(a)
    ensures Calm(Apply(w, id, a, s).0, id, s)
  {
    assert CanDelete(w, w.rows[id].indexPath.GetOr("")) ==> Apply(w, id, a, s).0.rows[id].indexPath == None;
  }

  lemma FailedCalms(w: World, id: Id, a: Action, s: Setup)
    requires id in w.rows && (a.kind == FailIndex || a.kind == FailMount) && Legal(w.rows[id], a)
    ensures Calm(Apply(w, id, a, s).0, id, s)
  {
    FailCalms(w, id, a, s);
  }

  /** Acting on an archive leaves it calm. */
  lemma RepairCalms(w: World, id: Id, s: Setup)
    requires id in w.rows
    ensures Calm(RepairRow(w, id, s).0, id, s)
  {
    DecisionIsLegal(w, id, w.rows[id], s);
    var a := DecideOne(w, id, w.rows[id], s);
    if a.Some? {
      match a.value.kind
      case GoAbsent => AbsentCalms(w, id, a.value, s);
      case CleanupIndex => CleanupCalms(w, id, a.value, s);
      case FailIndex => FailedCalms(w, id, a.value, s);
      case FailMount => FailedCalms(w, id, a.value, s);
      case _ =>
    }
  }

  lemma DecisionIsLegal(w: World, id: Id, row: Row, s: Setup)
    ensures var a := DecideOne(w, id, row, s);
            a.Some? ==> Legal(row, a.value) && a.value.kind != Requeue && a.value.kind != RequestRemount
  {}

  lemma FailCalms(w: World, id: Id, a: Action, s: Setup)
    requires id in w.rows && (a.kind == FailIndex || a.kind == FailMount) && Legal(w.rows[id], a)
    ensures var r' := Fail(w, id, a, s).0.rows[id];
            && (r'.status == IndexFailed || r'.status == MountFailed)
            && (r'.indexPath == None || r'.firstMountedAt.Some?)
            && !IsPartial(r')
  {}

  lemma TouchesKeepsNoSharing(w: World, w': World, id: Id, s: Setup)
    requires NoSharing(w) && Touches(w, w', id) && id in w.rows
    requires KeepsPaths(w.rows[id], w'.rows[id])
    ensures NoSharing(w')
  {
    forall k | k in w.rows ensures KeepsPaths(w.rows[k], w'.rows[k]) {}
    KeptPathsKeepNoSharing(w, w');
  }

  lemma KeptPathsKeepNoSharing(w: World, w': World)
    requires NoSharing(w) && w'.rows.Keys == w.rows.Keys
    requires forall k :: k in w.rows ==> KeepsPaths(w.rows[k], w'.rows[k])
    requires forall k :: k in w'.live ==> k in w.live && w'.live[k] == w.live[k]
    ensures NoSharing(w')
  {
    forall i, j | i in w'.rows && j in w'.rows && i != j ensures Apart(w', i, j) {
      assert Apart(w, i, j);
      KeptApart(w, w', i, j);
    }
  }

  lemma KeptApart(w: World, w': World, i: Id, j: Id)
    requires i in w.rows && j in w.rows && Apart(w, i, j) && i in w'.rows && j in w'.rows
    requires KeepsPaths(w.rows[i], w'.rows[i]) && KeepsPaths(w.rows[j], w'.rows[j])
    requires j in w'.live ==> j in w.live && w'.live[j] == w.live[j]
    ensures Apart(w', i, j)
  {}

  /** No action renames a mount or begins work, and an index path is kept or forgotten. */
  ghost predicate KeepsPaths(r: Row, r': Row) {
    && r'.mountPath == r.mountPath && (r'.indexPath == r.indexPath || r'.indexPath == None)
    && (InProgress(r') ==> InProgress(r))
  }

  lemma FailKeepsPaths(w: World, id: Id, a: Action, s: Setup)
    requires id in w.rows
    ensures var w' := Fail(w, id, a, s).0; id in w'.rows && KeepsPaths(w.rows[id], w'.rows[id])
  {}

  lemma AbsentKeepsPaths(w: World, id: Id, a: Action, s: Setup)
    requires id in w.rows && a.kind == GoAbsent
    ensures var w' := Apply(w, id, a, s).0; id in w'.rows && KeepsPaths(w.rows[id], w'.rows[id])
  {
    MarkAbsentSucceeds(w.rows, id, Set(Some(Text(a.reason, s))), s.now);
  }

  lemma ApplyKeepsPaths(w: World, id: Id, a: Action, s: Setup)
    requires id in w.rows && a.kind != Requeue && a.kind != RequestRemount
    ensures var w' := Apply(w, id, a, s).0; id in w'.rows && KeepsPaths(w.rows[id], w'.rows[id])
  {
    match a.kind
    case FailIndex => FailKeepsPaths(w, id, a, s);
    case FailMount => FailKeepsPaths(w, id, a, s);
    case GoAbsent => AbsentKeepsPaths(w, id, a, s);
    case _ =>
  }

  lemma RepairRowKeeps(w: World, id: Id, s: Setup)
    requires NoSharing(w)
    ensures var w' := RepairRow(w, id, s).0;
            && NoSharing(w') && w'.rows.Keys == w.rows.Keys
            && (id in w.rows ==> Calm(w', id, s))
            && forall k :: k != id && Calm(w, k, s) ==> Calm(w', k, s)
  {
    if id in w.rows {
      var w' := RepairRow(w, id, s).0;
      RepairCalms(w, id, s);
      var a := DecideOne(w, id, w.rows[id], s);
      if a.Some? {
        ApplyTouches(w, id, a.value, s);
        DecisionIsLegal(w, id, w.rows[id], s);
        ApplyKeepsPaths(w, id, a.value, s);
        TouchesKeepsNoSharing(w, w', id, s);
        forall k | k != id && Calm(w, k, s) ensures Calm(w', k, s) {
          if k in w.rows {
            OthersKeepView(w, w', id, k);
            ViewDecides(w, w', k, s);
          }
        }
      }
    }
  }

  lemma {:induction false} ReconcileCalms(w: World, order: seq<Id>, s: Setup)
    requires NoSharing(w)
    ensures var w' := Reconcile(w, order, s).0;
            && NoSharing(w') && w'.rows.Keys == w.rows.Keys
            && (forall k :: k in order || Calm(w, k, s) ==> Calm(w', k, s))
    ensures forall r :: r in Reconcile(w, order, s).1 ==> r.accepted
    decreases |order|
  {
    if order != [] {
      var n := |order| - 1;
      var w1 := Reconcile(w, order[..n], s).0;
      ReconcileCalms(w, order[..n], s);
      RepairRowKeeps(w1, order[n], s);
      RepairIsAccepted(w1, order[n], s);
      assert order == order[..n] + [order[n]];
      assert order[n] !in w1.rows ==> Calm(RepairRow(w1, order[n], s).0, order[n], s);
    }
  }

  /** Every report is one of the kinds that leave things as they are. */
  ghost predicate Quiet(reports: seq<Report>, w: World) {
    forall r :: r in reports ==>
      && r.id in w.rows
      && (r.action.kind == Ok
          || (r.action.kind == CleanupIndex && w.rows[r.id].indexPath.GetOr("") in w.sticky))
  }

  lemma CalmRow(w: World, id: Id, s: Setup)
    requires Calm(w, id, s)
    ensures RepairRow(w, id, s).0 == w && Quiet(RepairRow(w, id, s).1, w)
  {
    if id in w.rows {
      var a := DecideOne(w, id, w.rows[id], s);
      if a.Some? && a.value.kind == CleanupIndex {
        assert !CanDelete(w, w.rows[id].indexPath.GetOr(""));
      }
    }
  }

  /** A pass over calm rows changes nothing. */
  lemma {:induction false} CalmPass(w: World, order: seq<Id>, s: Setup)
    requires forall k :: k in order ==> Calm(w, k, s)
    ensures Reconcile(w, order, s).0 == w && Quiet(Reconcile(w, order, s).1, w)
    decreases |order|
  {
    if order != [] {
      var n := |order| - 1;
      CalmPass(w, order[..n], s);
      CalmRow(w, order[n], s);
    }
  }

  /** Reconcile reaches its fixed point in one pass: all its moves are accepted, and a second pass with
      the same probes and clock changes nothing. It reports only ok actions, and the clean-up of index
      files that could not be deleted. */
  lemma ReconcileFixedPoint(w: World, order: seq<Id>, s: Setup)
    requires NoSharing(w)
    ensures var (w1, reports1) := Reconcile(w, order, s);
            var (w2, reports2) := Reconcile(w1, order, s);
            && w2 == w1
            && Quiet(reports2, w1)
            && forall r :: r in reports1 ==> r.accepted
  {
    ReconcileCalms(w, order, s);
    CalmPass(Reconcile(w, order, s).0, order, s);
  }

  /** What a repair does to its row: a failure is booked once, and nothing but a failure is; the hook
      status, the first mount and the mount path are never touched. */
  ghost predicate Repaired(r: Row, r': Row, kind: Kind, maxAttempts: int) {
    && r'.hooksStatus == r.hooksStatus && r'.firstMountedAt == r.firstMountedAt && r'.mountPath == r.mountPath
    && if kind == FailIndex || kind == FailMount then
         && r'.status == FailedStatus(kind) && r'.mountPid == None
         && r'.mountAttempts == r.mountAttempts + 1
         && r'.mountRetryable == (maxAttempts >= 1 && r'.mountAttempts < maxAttempts)
       else r'.mountAttempts == r.mountAttempts && r'.mountRetryable == r.mountRetryable
  }

  lemma FailRepairs(w: World, id: Id, a: Action, s: Setup)
    requires id in w.rows && (a.kind == FailIndex || a.kind == FailMount) && Legal(w.rows[id], a)
    ensures var w' := Fail(w, id, a, s).0;
            id in w'.rows && Repaired(w.rows[id], w'.rows[id], a.kind, s.maxAttempts)
  {}

  lemma AbsentRepairs(w: World, id: Id, a: Action, s: Setup)
    requires id in w.rows && a.kind == GoAbsent
    ensures var w' := Apply(w, id, a, s).0;
            id in w'.rows && Repaired(w.rows[id], w'.rows[id], a.kind, s.maxAttempts)
  {
    MarkAbsentSucceeds(w.rows, id, Set(Some(Text(a.reason, s))), s.now);
  }

  lemma CleanupRepairs(w: World, id: Id, a: Action, s: Setup)
    requires id in w.rows && (a.kind == CleanupIndex || a.kind == Ok)
    ensures var w' := Apply(w, id, a, s).0;
            id in w'.rows && Repaired(w.rows[id], w'.rows[id], a.kind, s.maxAttempts)
  {}

  lemma ActionRepairs(w: World, id: Id, a: Action, s: Setup)
    requires id in w.rows && Legal(w.rows[id], a) && a.kind != Requeue && a.kind != RequestRemount
    ensures var w' := Apply(w, id, a, s).0;
            id in w'.rows && Repaired(w.rows[id], w'.rows[id], a.kind, s.maxAttempts)
  {
    match a.kind
    case FailIndex => FailRepairs(w, id, a, s);
    case FailMount => FailRepairs(w, id, a, s);
    case GoAbsent => AbsentRepairs(w, id, a, s);
    case CleanupIndex => CleanupRepairs(w, id, a, s);
    case Ok => CleanupRepairs(w, id, a, s);
  }

  lemma RepairKeepsHistory(w: World, id: Id, s: Setup)
    requires id in w.rows
    ensures var w' := RepairRow(w, id, s).0;
            match DecideOne(w, id, w.rows[id], s)
            case None => w' == w
            case Some(a) => id in w'.rows && Repaired(w.rows[id], w'.rows[id], a.kind, s.maxAttempts)
  {
    DecisionIsLegal(w, id, w.rows[id], s);
    var a := DecideOne(w, id, w.rows[id], s);
    if a.Some? {
      ActionRepairs(w, id, a.value, s);
    }
  }

  // ---- the boot pass ----

  /** Work that the last daemon was in the middle of, and that needs the archive to go on. */
  predicate WasAtWork(status: Status) {
    status in {Converting, Mounted, HooksRunning, Unmounting}
  }

  /** The status that boot leaves a row in: gone if it was gone or its archive is, otherwise queued for a
      remount if it was mounted before, and for a first start if not. */
  function BootStatus(row: Row, missing: bool): Status {
    if row.status == Absent || (WasAtWork(row.status) && missing) then Absent
    else if row.status in {Discovered, IndexFailed, MountFailed} then row.status
    else if row.status in {Mounting, Mounted, HooksRunning} || row.firstMountedAt.Some? then MountFailed
    else Discovered
  }

  /** A row as boot leaves it: queued or gone, without a process, its paths, its hook history and its
      attempts as they were. It may be retried if it could before, or if its work goes on. */
  ghost predicate Booted(r: Row, r': Row, s: Setup) {
    var missing := r.archivePath !in s.present;
    && r'.status == BootStatus(r, missing)
    && (if r.status == Absent then r' == r else r'.mountPid == None)
    && r'.mountRetryable == (r.mountRetryable || (WasAtWork(r.status) && !missing))
    && (if r'.status == Absent && r.status != Absent then r'.lastError.Some? else r'.lastError == r.lastError)
    && r'.hooksStatus == r.hooksStatus
    && r'.firstMountedAt == r.firstMountedAt
    && r'.mountAttempts == r.mountAttempts
    && r'.archivePath == r.archivePath && r'.mountPath == r.mountPath && r'.indexPath == r.indexPath
  }

  /** A row that boot goes on with, moved to the status it is to have. */
  lemma BootMove(row: Row, target: Status, patch: Patch, s: Setup)
    requires row.status != Absent && target == BootStatus(row, row.archivePath !in s.present) && target != Absent
    requires patch == RequeuePatch(row) || (patch == REMOUNT_PATCH && row.status in {Mounted, HooksRunning})
    requires row.status in {Mounted, HooksRunning} ==> patch == REMOUNT_PATCH
    ensures var r' := Updated(row, target, patch, s.now); Booted(row, r', s) && PlanBoot(r', s) == None
  {}

  lemma BootTargets(row: Row, s: Setup)
    ensures var a := PlanBoot(row, s);
            match a
            case None => Booted(row, row, s)
            case Some(a) =>
              && Legal(row, a)
              && a.kind in {Requeue, RequestRemount, GoAbsent}
              && row.status != Absent
              && a.target == Some(BootStatus(row, row.archivePath !in s.present))
              && (a.kind == GoAbsent <==> a.target == Some(Absent))
              && (a.kind == RequestRemount ==> a.target == Some(MountFailed))
              && (a.kind != GoAbsent ==> (a.kind == RequestRemount <==> row.status in {Mounted, HooksRunning}))
  {}

  /** The other rows are as they were, and this one is as boot leaves it. */
  ghost predicate RowBooted(w: World, w': World, id: Id, s: Setup) {
    && id in w.rows && w'.rows.Keys == w.rows.Keys
    && (forall k :: k in w.rows && k != id ==> w'.rows[k] == w.rows[k])
    && Booted(w.rows[id], w'.rows[id], s)
    && PlanBoot(w'.rows[id], s) == None
  }

  lemma BootedAbsent(w: World, id: Id, a: Action, s: Setup)
    requires id in w.rows && a.kind == GoAbsent && w.rows[id].status != Absent
    requires BootStatus(w.rows[id], w.rows[id].archivePath !in s.present) == Absent
    ensures RowBooted(w, Apply(w, id, a, s).0, id, s)
  {
    ApplyTouches(w, id, a, s);
    MarkAbsentSucceeds(w.rows, id, Set(Some(Text(a.reason, s))), s.now);
  }

  lemma BootedMove(w: World, id: Id, target: Status, patch: Patch, s: Setup)
    requires id in w.rows && ValidTransition(w.rows[id].status, target) && w.rows[id].status != Absent
    requires target == BootStatus(w.rows[id], w.rows[id].archivePath !in s.present) && target != Absent
    requires patch == if w.rows[id].status in {Mounted, HooksRunning} then REMOUNT_PATCH else RequeuePatch(w.rows[id])
    ensures RowBooted(w, WithRows(w, id, target, {w.rows[id].status}, patch, s.now), id, s)
  {
    BootMove(w.rows[id], target, patch, s);
  }

  lemma BootRowResult(w: World, id: Id, s: Setup)
    requires id in w.rows
    ensures RowBooted(w, BootRow(w, id, s).0, id, s)
    ensures forall r :: r in BootRow(w, id, s).1 ==> r.accepted
  {
    var row := w.rows[id];
    var a := PlanBoot(row, s);
    BootTargets(row, s);
    if a.Some? {
      ActionIsAccepted(w, id, a.value, s);
      match a.value.kind
      case GoAbsent => BootedAbsent(w, id, a.value, s);
      case Requeue => BootedMove(w, id, a.value.target.value, RequeuePatch(row), s);
      case RequestRemount => BootedMove(w, id, MountFailed, REMOUNT_PATCH, s);
    }
  }

  /** The listed rows are as boot leaves them, and the others as they were. */
  ghost predicate AllBooted(w: World, w': World, order: seq<Id>, s: Setup) {
    && w'.rows.Keys == w.rows.Keys
    && (forall id :: id in w.rows && id !in order ==> w'.rows[id] == w.rows[id])
    && (forall id :: id in order ==>
          id in w.rows && Booted(w.rows[id], w'.rows[id], s) && PlanBoot(w'.rows[id], s) == None)
  }

  lemma AllBootedNext(w: World, w1: World, w2: World, order: seq<Id>, id: Id, s: Setup)
    requires AllBooted(w, w1, order, s) && id !in order && RowBooted(w1, w2, id, s)
    ensures AllBooted(w, w2, order + [id], s)
  {
    forall k | k in order + [id]
      ensures k in w.rows && Booted(w.rows[k], w2.rows[k], s) && PlanBoot(w2.rows[k], s) == None
    {
      if k != id {
        assert k in order;
      }
    }
  }

  /** After the boot pass every listed row is exactly as boot is to leave it: gone if and only if it was
      gone, or its archive is missing and it was at work; and every move was legal. */
  lemma {:induction false} BootPassResult(w: World, order: seq<Id>, s: Setup)
    requires NoDuplicates(order) && forall id :: id in order ==> id in w.rows
    ensures AllBooted(w, BootPass(w, order, s).0, order, s)
    ensures forall r :: r in BootPass(w, order, s).1 ==> r.accepted
    decreases |order|
  {
    if order != [] {
      var n := |order| - 1;
      var w1 := BootPass(w, order[..n], s).0;
      BootPassResult(w, order[..n], s);
      BootRowResult(w1, order[n], s);
      assert order == order[..n] + [order[n]];
      assert order[n] !in order[..n];
      AllBootedNext(w, w1, BootRow(w1, order[n], s).0, order[..n], order[n], s);
    }
  }

  lemma {:induction false} NothingPlanned(w: World, order: seq<Id>, s: Setup)
    requires forall id :: id in order && id in w.rows ==> PlanBoot(w.rows[id], s) == None
    ensures BootPass(w, order, s).0 == w && BootPass(w, order, s).1 == []
    decreases |order|
  {
    if order != [] {
      var n := |order| - 1;
      NothingPlanned(w, order[..n], s);
      assert BootRow(w, order[n], s) == (w, []);
    }
  }

  /** A second boot plans nothing. */
  lemma SecondBootIsIdle(w: World, order: seq<Id>, s: Setup)
    requires NoDuplicates(order) && forall id :: id in order ==> id in w.rows
    ensures var w1 := BootPass(w, order, s).0; BootPass(w1, order, s).0 == w1 && BootPass(w1, order, s).1 == []
  {
    BootPassResult(w, order, s);
    NothingPlanned(BootPass(w, order, s).0, order, s);
  }

  // ---- reconcile keeps the engine's guarantees ----

  lemma TakenDownStep(w: World, id: Id, row: Row, kind: Kind, s: Setup, cfg: Config)
    requires WellFormed(w)
    ensures Step(w, TakenDown(w, id, row, kind, s), id, cfg) && TakenDown(w, id, row, kind, s).rows == w.rows
  {
    Shrink(w, TakenDown(w, id, row, kind, s), id, cfg);
  }

  lemma BookedStep(w: World, down: World, id: Id, kind: Kind, text: string, s: Setup, cfg: Config)
    requires ValidConfig(cfg) && s.maxAttempts == cfg.maxAttempts && id in w.rows
    requires Step(w, down, id, cfg) && down.rows == w.rows && (kind == FailIndex || kind == FailMount)
    ensures Step(w, WithRows(down, id, FailedStatus(kind), {w.rows[id].status},
                             RepairPatch(w.rows[id], kind, text, s.maxAttempts), s.now), id, cfg)
  {
    var row := w.rows[id];
    var patch := RepairPatch(row, kind, text, s.maxAttempts);
    FailMove(down, id, FailedStatus(kind), {row.status}, patch, s.now, cfg);
    StepTrans(w, down, WithRows(down, id, FailedStatus(kind), {row.status}, patch, s.now), id, cfg);
  }

  lemma FailStep(w: World, id: Id, a: Action, s: Setup, cfg: Config)
    requires WellFormed(w) && ValidConfig(cfg) && s.maxAttempts == cfg.maxAttempts && id in w.rows
    requires a.kind == FailIndex || a.kind == FailMount
    ensures Step(w, Fail(w, id, a, s).0, id, cfg)
  {
    TakenDownStep(w, id, w.rows[id], a.kind, s, cfg);
    BookedStep(w, TakenDown(w, id, w.rows[id], a.kind, s), id, a.kind, Text(a.reason, s), s, cfg);
  }

  lemma GoAbsentStep(w: World, id: Id, text: string, s: Setup, cfg: Config)
    requires WellFormed(w) && id in w.rows
    ensures var dropped := Unmounted(DropLive(w, id), w.rows[id], s);
            Step(w, dropped.(rows := ArchiveStore.MarkAbsent(dropped.rows, id, Set(Some(text)), s.now)), id, cfg)
  {
    var dropped := Unmounted(DropLive(w, id), w.rows[id], s);
    Shrink(w, dropped, id, cfg);
    MarkAbsentSucceeds(dropped.rows, id, Set(Some(text)), s.now);
    var gone := dropped.(rows := ArchiveStore.MarkAbsent(dropped.rows, id, Set(Some(text)), s.now));
    RowChange(dropped, gone, id, gone.rows[id], cfg);
    StepTrans(w, dropped, gone, id, cfg);
  }

  lemma CleanupStep(w: World, id: Id, s: Setup, cfg: Config)
    requires WellFormed(w) && id in w.rows
    ensures var row := w.rows[id];
            Step(w, WithRows(DeleteIndex(w, row.indexPath.GetOr("")), id, row.status, {row.status}, FORGET_INDEX, s.now),
                 id, cfg)
  {
    var row := w.rows[id];
    var deleted := DeleteIndex(w, row.indexPath.GetOr(""));
    DeleteIndexStep(w, row.indexPath.GetOr(""), id, cfg);
    PlainMove(deleted, id, row.status, {row.status}, FORGET_INDEX, s.now, cfg);
    StepTrans(w, deleted, WithRows(deleted, id, row.status, {row.status}, FORGET_INDEX, s.now), id, cfg);
  }

  lemma ApplyStep(w: World, id: Id, a: Action, s: Setup, cfg: Config)
    requires WellFormed(w) && ValidConfig(cfg) && s.maxAttempts == cfg.maxAttempts && id in w.rows
    requires a.kind != Requeue && a.kind != RequestRemount
    ensures Step(w, Apply(w, id, a, s).0, id, cfg)
  {
    StepRefl(w, id, cfg);
    match a.kind
    case Ok =>
    case FailIndex => FailStep(w, id, a, s, cfg);
    case FailMount => FailStep(w, id, a, s, cfg);
    case GoAbsent => GoAbsentStep(w, id, Text(a.reason, s), s, cfg);
    case CleanupIndex => CleanupStep(w, id, s, cfg);
  }

  lemma DecideNeverQueues(w: World, id: Id, row: Row, s: Setup)
    ensures var a := DecideOne(w, id, row, s); a.Some? ==> a.value.kind != Requeue && a.value.kind != RequestRemount
  {}

  /** Repairing one row is a step like any other. */
  lemma RepairStep(w: World, id: Id, s: Setup, cfg: Config)
    requires WellFormed(w) && ValidConfig(cfg) && s.maxAttempts == cfg.maxAttempts
    ensures Step(w, RepairRow(w, id, s).0, id, cfg)
  {
    StepRefl(w, id, cfg);
    if id in w.rows {
      DecideNeverQueues(w, id, w.rows[id], s);
      var a := DecideOne(w, id, w.rows[id], s);
      if a.Some? {
        ApplyStep(w, id, a.value, s, cfg);
      }
    }
  }
}
