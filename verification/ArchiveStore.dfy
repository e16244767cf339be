/** The archives table and its guarded updates (internal/state/store.go). */
module ArchiveStore {
  import opened Options
  import opened Sequences
  import opened Statuses

  type Id = string
  type Time = real

  /** The columns of an archive row that the lifecycle reads or writes. */
  datatype Row = Row(
    archivePath: string,
    basename: string,
    sizeBytes: int,
    status: Status,
    firstMountedAt: Option<Time>,
    mountPath: Option<string>,
    indexPath: Option<string>,
    mountPid: Option<nat>,
    mountAttempts: int,
    mountRetryable: bool,
    lastError: Option<string>,
    hooksStatus: HooksStatus,
    indexStartedAt: Option<Time>)

  type Rows = map<Id, Row>

  /** One entry of an update's field map: absent, or present with a value. */
  datatype Field<T> = Keep | Set(value: T) {
    function Over(stored: T): T {
      match this
      case Keep => stored
      case Set(v) => v
    }
  }

  datatype Patch = Patch(
    archivePath: Field<string>,
    basename: Field<string>,
    mountPath: Field<Option<string>>,
    indexPath: Field<Option<string>>,
    mountPid: Field<Option<nat>>,
    mountAttempts: Field<int>,
    mountRetryable: Field<bool>,
    lastError: Field<Option<string>>)

  const NO_PATCH := Patch(Keep, Keep, Keep, Keep, Keep, Keep, Keep, Keep)

  /** The row after a transition: the new status, the automatic columns, then the given fields. */
  function Updated(row: Row, to: Status, patch: Patch, now: Time): Row {
    row.(status := to,
         indexStartedAt := if to == Indexing || to == Mounting then Some(now) else row.indexStartedAt,
         firstMountedAt :=
           if (to == Mounted || to == HooksRunning) && (row.status == Indexing || row.status == Mounting)
              && row.firstMountedAt.None?
           then Some(now) else row.firstMountedAt,
         archivePath := patch.archivePath.Over(row.archivePath),
         basename := patch.basename.Over(row.basename),
         mountPath := patch.mountPath.Over(row.mountPath),
         indexPath := patch.indexPath.Over(row.indexPath),
         mountPid := patch.mountPid.Over(row.mountPid),
         mountAttempts := patch.mountAttempts.Over(row.mountAttempts),
         mountRetryable := patch.mountRetryable.Over(row.mountRetryable),
         lastError := patch.lastError.Over(row.lastError))
  }

  /** The automatic columns: work on the index or the mount is stamped when it begins, and the first mount
      when it comes out of such work; a stamp of the first mount is never replaced. */
  lemma Stamps(row: Row, to: Status, patch: Patch, now: Time)
    ensures var r := Updated(row, to, patch, now);
            && r.status == to
            && r.indexStartedAt == (if to in {Indexing, Mounting} then Some(now) else row.indexStartedAt)
            && r.firstMountedAt == (if row.firstMountedAt.None? && row.status in {Indexing, Mounting}
                                       && to in {Mounted, HooksRunning}
                                    then Some(now) else row.firstMountedAt)
            && r.hooksStatus == row.hooksStatus && r.sizeBytes == row.sizeBytes
  {}

  /** Whether Transition accepts: the row exists, its status is one of the expected, and the table has
      the edge. */
  predicate CanMove(rows: Rows, id: Id, to: Status, expected: set<Status>) {
    id in rows && rows[id].status in expected && ValidTransition(rows[id].status, to)
  }

  /** Transition; a rejected one changes nothing. */
  function Move(rows: Rows, id: Id, to: Status, expected: set<Status>, patch: Patch, now: Time): (rows': Rows)
    ensures rows'.Keys == rows.Keys
    ensures forall k :: k in rows && k != id ==> rows'[k] == rows[k]
  {
    if CanMove(rows, id, to, expected) then rows[id := Updated(rows[id], to, patch, now)] else rows
  }

  const CLEAR_PID := NO_PATCH.(mountPid := Set(None))

  /** MarkAbsent: by way of unmounting unless the row is already there or gone. */
  function MarkAbsent(rows: Rows, id: Id, lastError: Field<Option<string>>, now: Time): (rows': Rows)
    ensures rows'.Keys == rows.Keys
    ensures forall k :: k in rows && k != id ==> rows'[k] == rows[k]
  {
    var fields := CLEAR_PID.(lastError := lastError);
    if id !in rows then rows
    else if rows[id].status == Absent then Move(rows, id, Absent, {Absent}, fields, now)
    else if rows[id].status == Unmounting then Move(rows, id, Absent, {Unmounting}, fields, now)
    else if !CanMove(rows, id, Unmounting, {rows[id].status}) then rows
    else
      Move(Move(rows, id, Unmounting, {rows[id].status}, CLEAR_PID, now), id, Absent, {Unmounting}, fields, now)
  }

  /** The row once it is absent. */
  function Gone(row: Row, lastError: Field<Option<string>>): Row {
    row.(status := Absent, mountPid := None, lastError := lastError.Over(row.lastError))
  }

  lemma GoneDirectly(row: Row, lastError: Field<Option<string>>, now: Time)
    ensures Updated(row, Absent, CLEAR_PID.(lastError := lastError), now) == Gone(row, lastError)
    ensures Updated(Updated(row, Unmounting, CLEAR_PID, now), Absent, CLEAR_PID.(lastError := lastError), now) ==
            Gone(row, lastError)
  {}

  lemma UnmountingIsNear(status: Status)
    ensures status != Absent && status != Unmounting ==> ValidTransition(status, Unmounting)
    ensures ValidTransition(Unmounting, Absent)
  {}

  lemma MoveTwice(rows: Rows, id: Id, r1: Row, r2: Row)
    requires id in rows
    ensures rows[id := r1][id := r2] == rows[id := r2]
  {}

  /** MarkAbsent is never rejected, whatever the status: each of its steps is an edge of the table. */
  lemma MarkAbsentSucceeds(rows: Rows, id: Id, lastError: Field<Option<string>>, now: Time)
    requires id in rows
    ensures MarkAbsent(rows, id, lastError, now) == rows[id := Gone(rows[id], lastError)]
  {
    var row := rows[id];
    GoneDirectly(row, lastError, now);
    UnmountingIsNear(row.status);
    MoveTwice(rows, id, Updated(row, Unmounting, CLEAR_PID, now), Gone(row, lastError));
  }

  /** Ids and archive paths are unique in the table. */
  predicate CanInsert(rows: Rows, id: Id, archivePath: string) {
    id !in rows && forall k :: k in rows ==> rows[k].archivePath != archivePath
  }

  /** No two rows have the same archive path. */
  ghost predicate UniquePaths(rows: Rows) {
    forall i, j :: i in rows && j in rows && i != j ==> rows[i].archivePath != rows[j].archivePath
  }

  /** A row is taken exactly when its id is new and the archive paths stay unique. */
  lemma InsertIff(rows: Rows, id: Id, row: Row)
    requires UniquePaths(rows)
    ensures CanInsert(rows, id, row.archivePath) <==> id !in rows && UniquePaths(rows[id := row])
  {
    var after := rows[id := row];
    if id !in rows && UniquePaths(after) {
      forall k | k in rows ensures rows[k].archivePath != row.archivePath {
        assert after[k] == rows[k] && after[id] == row && k != id;
      }
    }
  }

  /** A row that has just been discovered. */
  function NewRow(archivePath: string, basename: string, sizeBytes: int, mountPath: Option<string>,
                  indexPath: Option<string>): Row
  {
    Row(archivePath, basename, sizeBytes, Discovered, None, mountPath, indexPath, None, 0, true, None, HooksNone, None)
  }

  /** It has no history: no attempts, no error, no mount, no process and no hooks, and it may be tried. */
  lemma NewRowIs(archivePath: string, basename: string, sizeBytes: int)
    ensures var r := NewRow(archivePath, basename, sizeBytes, None, None);
            && r.status == Discovered && r.mountRetryable && r.mountAttempts == 0 && r.lastError == None
            && r.firstMountedAt == None && r.mountPid == None && r.hooksStatus == HooksNone
            && r.archivePath == archivePath && r.basename == basename && r.sizeBytes == sizeBytes
  {}

  /** What a listing asks for: every row, those of one status, or those of some statuses. */
  datatype Filter = Everything | Only(status: Status) | AnyOf(statuses: seq<Status>) {
    predicate Takes(status: Status) {
      match this
      case Everything => true
      case Only(wanted) => status == wanted
      case AnyOf(wanted) => status in wanted
    }
  }

  /** The ids of the rows that pass the filter, in table order. */
  function Listing(rows: Rows, order: seq<Id>, filter: Filter): (ids: seq<Id>)
    ensures forall id :: id in ids <==> id in order && id in rows && filter.Takes(rows[id].status)
    ensures NoDuplicates(order) ==> NoDuplicates(ids)
  {
    if order == [] then []
    else
      var last := order[|order| - 1];
      assert order == order[..|order| - 1] + [last];
      var before := Listing(rows, order[..|order| - 1], filter);
      if last in rows && filter.Takes(rows[last].status) then before + [last] else before
  }

  /** The ids of the rows with a status, in table order. */
  function WithStatus(rows: Rows, order: seq<Id>, status: Status): (ids: seq<Id>)
    ensures forall id :: id in ids <==> id in order && id in rows && rows[id].status == status
    ensures NoDuplicates(order) ==> NoDuplicates(ids)
  {
    Listing(rows, order, Only(status))
  }

  class Store {
    var rows: Rows
    /** Creation order, the order of every listing. */
    var order: seq<Id>

    ghost predicate Valid()
      reads this
    {
      NoDuplicates(order) && forall id :: id in order <==> id in rows
    }

    constructor ()
      ensures Valid() && rows == map[] && order == []
    {
      rows, order := map[], [];
    }

    /** InsertDiscovered: the id is a new UUID, or the one given; the paths are optional. */
    method InsertDiscovered(id: Id, archivePath: string, basename: string, sizeBytes: int,
                            mountPath: Option<string>, indexPath: Option<string>) returns (ok: bool)
      requires Valid()
      modifies this
      ensures Valid() && ok == CanInsert(old(rows), id, archivePath)
      ensures ok ==> order == old(order) + [id]
                     && rows == old(rows)[id := NewRow(archivePath, basename, sizeBytes, mountPath, indexPath)]
      ensures !ok ==> order == old(order) && rows == old(rows)
    {
      if !CanInsert(rows, id, archivePath) {
        return false;
      }
      rows := rows[id := NewRow(archivePath, basename, sizeBytes, mountPath, indexPath)];
      order := order + [id];
      return true;
    }

    method Transition(id: Id, to: Status, expected: set<Status>, patch: Patch, now: Time) returns (ok: bool)
      modifies `rows
      ensures ok == CanMove(old(rows), id, to, expected)
      ensures rows == Move(old(rows), id, to, expected, patch, now)
    {
      if id !in rows || rows[id].status !in expected {
        return false;
      }
      if !ValidTransition(rows[id].status, to) {
        return false;
      }
      rows := rows[id := Updated(rows[id], to, patch, now)];
      return true;
    }

    method SetAbsent(id: Id, lastError: Field<Option<string>>, now: Time) returns (ok: bool)
      modifies `rows
      ensures ok == (id in old(rows))
      ensures rows == MarkAbsent(old(rows), id, lastError, now)
    {
      if id !in rows {
        return false;
      }
      MarkAbsentSucceeds(rows, id, lastError, now);
      var fields := CLEAR_PID.(lastError := lastError);
      if rows[id].status == Absent {
        ok := Transition(id, Absent, {Absent}, fields, now);
      } else {
        if rows[id].status != Unmounting {
          ok := Transition(id, Unmounting, {rows[id].status}, CLEAR_PID, now);
          if !ok {
            return false;
          }
        }
        ok := Transition(id, Absent, {Unmounting}, fields, now);
      }
    }

    method ListArchives(filter: Filter) returns (ids: seq<Id>)
      ensures ids == Listing(rows, order, filter)
    {
      ids := [];
      for i := 0 to |order|
        invariant ids == Listing(rows, order[..i], filter)
      {
        assert order[..i + 1][..i] == order[..i];
        if order[i] in rows && filter.Takes(rows[order[i]].status) {
          ids := ids + [order[i]];
        }
      }
      assert order[..|order|] == order;
    }
  }
}
