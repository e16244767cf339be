/** The event stream of status snapshots: a full snapshot, then deltas, then a full snapshot again every
    so many ticks (internal/api/sse_diff.go, internal/api/sse.go), and a client that replays it. */
module StatusStream {
  import opened Options
  import opened Sorting

  datatype Json = Null | Bool(b: bool) | Num(n: real) | Str(s: string) | Arr(items: seq<Json>) | Obj(fields: Fields)

  type Fields = map<string, Json>

  /** A status payload. A missing field is Null; the top-level counts and the fields that only ride along
      keep their presence. */
  datatype Snapshot = Snapshot(
    ok: Json, counts: Json, lowDisk: Json, lastScanAt: Json, metrics: Json, archives: Json, top: Fields,
    diskFree: Option<Json>, minFree: Option<Json>, lastScan: Option<Json>, lastScanMs: Option<Json>)

  const NO_SNAPSHOT := Snapshot(Null, Null, Null, Null, Null, Null, map[], None, None, None, None)

  /** The keys that are compared: top-level counts, and the fields of an archive row. */
  datatype Keys = Keys(top: seq<string>, watched: seq<string>)

  const ALL_KEYS := Keys(
    ["mounted", "indexing", "mounting", "discovered", "hooks_running", "index_failed", "mount_failed", "absent"],
    ["status", "hooks_status", "progress_label", "elapsed_s", "last_error", "mount_path", "archive_path",
     "index_path", "overlay_path", "mount_pid", "pid_alive", "mount_attempts", "mount_retryable", "mount_phase",
     "is_first_index", "live_pid", "size_bytes", "is_mounted", "removed_at", "fingerprint", "metrics",
     "index_duration_seconds", "mount_duration_seconds", "convert_source_size_bytes", "convert_duration_seconds",
     "nested_skips_count", "nested_skips_summary"])

  const ARCHIVE_ID := "archive_id"

  function Get(m: Fields, k: string): Json {
    if k in m then m[k] else Null
  }

  function AsString(v: Json): string {
    if v.Str? then v.s else ""
  }

  predicate AsBool(v: Json) {
    match v
    case Bool(b) => b
    case Str(s) => s in ["1", "true", "True", "TRUE", "yes", "on"]
    case Num(n) => n != 0.0
    case _ => false
  }

  predicate Usable(s: Snapshot) {
    s.ok != Bool(false)
  }

  function IdOf(row: Fields): string {
    AsString(Get(row, ARCHIVE_ID))
  }

  /** asSliceOfMaps. */
  function RowsIn(items: seq<Json>): seq<Fields> {
    if items == [] then []
    else (if items[0].Obj? then [items[0].fields] else []) + RowsIn(items[1..])
  }

  function Rows(s: Snapshot): seq<Fields> {
    if s.archives.Arr? then RowsIn(s.archives.items) else []
  }

  /** archivesByID: rows without an id are skipped, and of two rows with one id the last counts. */
  function ById(rows: seq<Fields>): (m: map<string, Fields>)
    ensures forall id :: id in m ==> id != "" && IdOf(m[id]) == id
    ensures forall id :: id in m <==> id != "" && exists r :: r in rows && IdOf(r) == id
  {
    if rows == [] then map[]
    else
      var last := rows[|rows| - 1];
      assert rows == rows[..|rows| - 1] + [last];
      var m := ById(rows[..|rows| - 1]);
      if IdOf(last) == "" then m else m[IdOf(last) := last]
  }

  predicate SameOn(a: Fields, b: Fields, keys: seq<string>) {
    forall k :: k in keys ==> Get(a, k) == Get(b, k)
  }

  /** countsEqual. */
  predicate CountsEqual(prev: Snapshot, curr: Snapshot, keys: Keys) {
    && prev.counts == curr.counts
    && SameOn(prev.top, curr.top, keys.top)
    && AsBool(prev.lowDisk) == AsBool(curr.lowDisk)
    && AsString(prev.lastScanAt) == AsString(curr.lastScanAt)
  }

  // ---- events ----

  datatype Event =
    | CountsEvent(counts: Json, lowDisk: Json, lastScanAt: Json, top: Fields)
    | ArchiveEvent(archives: seq<Fields>, removed: seq<string>)
    | ScanEvent(scanAt: string, lastScan: Option<Json>, lastScanMs: Option<Json>)
    | MetricsEvent(metrics: Json)
    | LowDiskEvent(low: bool, diskFree: Option<Json>, minFree: Option<Json>)
    | SnapshotEvent(snapshot: Snapshot)

  function Project(m: Fields, keys: seq<string>): Fields {
    map k | k in m && k in keys :: m[k]
  }

  /** Ids in ascending order, each once. */
  function InsertId(ids: seq<string>, id: string): seq<string> {
    if ids == [] || Precedes(id, ids[0]) then [id] + ids
    else if id == ids[0] then ids
    else [ids[0]] + InsertId(ids[1..], id)
  }

  function SortIds(ids: seq<string>): seq<string> {
    if ids == [] then [] else InsertId(SortIds(ids[..|ids| - 1]), ids[|ids| - 1])
  }

  predicate RowChanged(prev: map<string, Fields>, curr: map<string, Fields>, id: string, keys: Keys) {
    id in curr && !(id in prev && SameOn(prev[id], curr[id], keys.watched))
  }

  /** The ids of changed rows, as often as they are listed. */
  function ChangedAmong(rows: seq<Fields>, prev: map<string, Fields>, curr: map<string, Fields>, keys: Keys)
    : seq<string>
  {
    if rows == [] then []
    else
      var last := rows[|rows| - 1];
      ChangedAmong(rows[..|rows| - 1], prev, curr, keys)
      + if RowChanged(prev, curr, IdOf(last), keys) then [IdOf(last)] else []
  }

  function RemovedAmong(rows: seq<Fields>, prev: map<string, Fields>, curr: map<string, Fields>): seq<string> {
    if rows == [] then []
    else
      var last := rows[|rows| - 1];
      RemovedAmong(rows[..|rows| - 1], prev, curr)
      + if IdOf(last) in prev && IdOf(last) !in curr then [IdOf(last)] else []
  }

  function RowsOf(ids: seq<string>, rows: map<string, Fields>): seq<Fields>
    requires forall id :: id in ids ==> id in rows
  {
    seq(|ids|, i requires 0 <= i < |ids| => rows[ids[i]])
  }

  function CountsDelta(prev: Snapshot, curr: Snapshot, keys: Keys): seq<Event> {
    if CountsEqual(prev, curr, keys) then []
    else [CountsEvent(curr.counts, curr.lowDisk, curr.lastScanAt, Project(curr.top, keys.top))]
  }

  /** The rows that are new or changed, and the ids that are gone. */
  function Changed(prev: Snapshot, curr: Snapshot, keys: Keys): (ids: seq<string>)
    ensures forall id :: id in ids ==> id in ById(Rows(curr))
  {
    ChangedIff(prev, curr, keys);
    SortIds(ChangedAmong(Rows(curr), ById(Rows(prev)), ById(Rows(curr)), keys))
  }

  function Removed(prev: Snapshot, curr: Snapshot): seq<string> {
    SortIds(RemovedAmong(Rows(prev), ById(Rows(prev)), ById(Rows(curr))))
  }

  function ArchiveDelta(prev: Snapshot, curr: Snapshot, keys: Keys): seq<Event> {
    if Changed(prev, curr, keys) == [] && Removed(prev, curr) == [] then []
    else [ArchiveEvent(RowsOf(Changed(prev, curr, keys), ById(Rows(curr))), Removed(prev, curr))]
  }

  function ScanDelta(prev: Snapshot, curr: Snapshot): seq<Event> {
    var at := AsString(curr.lastScanAt);
    if at != "" && at != AsString(prev.lastScanAt) then [ScanEvent(at, curr.lastScan, curr.lastScanMs)] else []
  }

  function MetricsDelta(prev: Snapshot, curr: Snapshot): seq<Event> {
    if prev.metrics == curr.metrics then [] else [MetricsEvent(curr.metrics)]
  }

  function LowDiskDelta(prev: Snapshot, curr: Snapshot): seq<Event> {
    if AsBool(prev.lowDisk) == AsBool(curr.lowDisk) then []
    else [LowDiskEvent(AsBool(curr.lowDisk), curr.diskFree, curr.minFree)]
  }

  /** DiffSnapshots, as the events it makes the stream send, in the order they are sent. */
  function Delta(prev: Snapshot, curr: Snapshot, keys: Keys): seq<Event> {
    if !Usable(curr) then []
    else CountsDelta(prev, curr, keys) + ArchiveDelta(prev, curr, keys) + ScanDelta(prev, curr)
         + MetricsDelta(prev, curr) + LowDiskDelta(prev, curr)
  }

  lemma {:induction false} InsertIdIs(ids: seq<string>, id: string)
    ensures forall x :: x in InsertId(ids, id) <==> x in ids || x == id
  {
    if ids != [] && !Precedes(id, ids[0]) && id != ids[0] {
      InsertIdIs(ids[1..], id);
      assert ids == [ids[0]] + ids[1..];
    }
  }

  lemma {:induction false} SortIdsIs(ids: seq<string>)
    ensures forall x :: x in SortIds(ids) <==> x in ids
  {
    if ids != [] {
      SortIdsIs(ids[..|ids| - 1]);
      InsertIdIs(SortIds(ids[..|ids| - 1]), ids[|ids| - 1]);
      assert ids == ids[..|ids| - 1] + [ids[|ids| - 1]];
    }
  }

  lemma {:induction false} ChangedAmongIs(rows: seq<Fields>, prev: map<string, Fields>, curr: map<string, Fields>,
                                          keys: Keys)
    ensures forall id :: id in ChangedAmong(rows, prev, curr, keys) <==>
              RowChanged(prev, curr, id, keys) && exists r :: r in rows && IdOf(r) == id
  {
    if rows != [] {
      ChangedAmongIs(rows[..|rows| - 1], prev, curr, keys);
      assert rows == rows[..|rows| - 1] + [rows[|rows| - 1]];
    }
  }

  lemma {:induction false} RemovedAmongIs(rows: seq<Fields>, prev: map<string, Fields>, curr: map<string, Fields>)
    ensures forall id :: id in RemovedAmong(rows, prev, curr) <==>
              id in prev && id !in curr && exists r :: r in rows && IdOf(r) == id
  {
    if rows != [] {
      RemovedAmongIs(rows[..|rows| - 1], prev, curr);
      assert rows == rows[..|rows| - 1] + [rows[|rows| - 1]];
    }
  }

  lemma ChangedIff(prev: Snapshot, curr: Snapshot, keys: Keys)
    ensures forall id :: id in SortIds(ChangedAmong(Rows(curr), ById(Rows(prev)), ById(Rows(curr)), keys)) <==>
              RowChanged(ById(Rows(prev)), ById(Rows(curr)), id, keys)
  {
    var was, now := ById(Rows(prev)), ById(Rows(curr));
    ChangedAmongIs(Rows(curr), was, now, keys);
    SortIdsIs(ChangedAmong(Rows(curr), was, now, keys));
  }

  lemma RemovedIff(prev: Snapshot, curr: Snapshot)
    ensures forall id :: id in Removed(prev, curr) <==> id in ById(Rows(prev)) && id !in ById(Rows(curr))
  {
    var was, now := ById(Rows(prev)), ById(Rows(curr));
    RemovedAmongIs(Rows(prev), was, now);
    SortIdsIs(RemovedAmong(Rows(prev), was, now));
  }

  /** The archive event names exactly the rows that are new or changed on a watched key, and exactly the
      ids that are gone. */
  lemma ArchiveIdsAre(prev: Snapshot, curr: Snapshot, keys: Keys)
    ensures forall id :: id in Changed(prev, curr, keys) <==>
              id in ById(Rows(curr))
              && !(id in ById(Rows(prev)) && SameOn(ById(Rows(prev))[id], ById(Rows(curr))[id], keys.watched))
    ensures forall id :: id in Removed(prev, curr) <==> id in ById(Rows(prev)) && id !in ById(Rows(curr))
  {
    ChangedIff(prev, curr, keys);
    RemovedIff(prev, curr);
  }

  ghost predicate Ascending(ids: seq<string>) {
    forall i, j :: 0 <= i < j < |ids| ==> Precedes(ids[i], ids[j])
  }

  lemma {:induction false} InsertIdAscends(ids: seq<string>, id: string)
    requires Ascending(ids)
    ensures Ascending(InsertId(ids, id))
  {
    var r := InsertId(ids, id);
    if ids != [] {
      if Precedes(id, ids[0]) {
        forall j | 0 < j < |r| ensures Precedes(r[0], r[j]) {
          if j > 1 {
            PrecedesTrans(id, ids[0], ids[j - 1]);
          }
        }
      } else if id != ids[0] {
        InsertIdAscends(ids[1..], id);
        InsertIdIs(ids[1..], id);
        PrecedesTotal(id, ids[0]);
        forall j | 0 < j < |r| ensures Precedes(r[0], r[j]) {
          assert r[j] in InsertId(ids[1..], id);
          assert r[j] == id || r[j] in ids[1..];
        }
      }
    }
  }

  /** The ids of an archive event ascend, so that each comes once. */
  lemma {:induction false} SortIdsAscends(ids: seq<string>)
    ensures Ascending(SortIds(ids))
  {
    if ids != [] {
      SortIdsAscends(ids[..|ids| - 1]);
      InsertIdAscends(SortIds(ids[..|ids| - 1]), ids[|ids| - 1]);
    }
  }

  // ---- the client ----

  /** What a client shows. */
  datatype View = View(
    counts: Json, top: Fields, lowDisk: bool, lastScanAt: string, metrics: Json, rows: map<string, Fields>)

  function Shown(s: Snapshot, keys: Keys): View {
    View(s.counts, Project(s.top, keys.top), AsBool(s.lowDisk), AsString(s.lastScanAt), s.metrics, ById(Rows(s)))
  }

  function Upsert(rows: map<string, Fields>, patches: seq<Fields>): map<string, Fields> {
    if patches == [] then rows
    else
      var last := patches[|patches| - 1];
      var before := Upsert(rows, patches[..|patches| - 1]);
      if IdOf(last) == "" then before else before[IdOf(last) := last]
  }

  function Without(rows: map<string, Fields>, ids: seq<string>): map<string, Fields> {
    map id | id in rows && id !in ids :: rows[id]
  }

  /** A counts event replaces the overview, an archive event removes and upserts rows, and a snapshot
      that is not ok is ignored. */
  function Applied(v: View, e: Event, keys: Keys): View {
    match e
    case CountsEvent(counts, lowDisk, lastScanAt, top) =>
      v.(counts := counts, top := top, lowDisk := AsBool(lowDisk), lastScanAt := AsString(lastScanAt))
    case ArchiveEvent(archives, removed) => v.(rows := Upsert(Without(v.rows, removed), archives))
    case ScanEvent(at, _, _) => v.(lastScanAt := at)
    case MetricsEvent(metrics) => v.(metrics := metrics)
    case LowDiskEvent(low, _, _) => v.(lowDisk := low)
    case SnapshotEvent(s) => if Usable(s) then Shown(s, keys) else v
  }

  function Replay(v: View, events: seq<Event>, keys: Keys): View
    decreases |events|
  {
    if events == [] then v else Replay(Applied(v, events[0], keys), events[1..], keys)
  }

  /** Rows with the same ids that are equal on every watched key. */
  ghost predicate SameRows(a: map<string, Fields>, b: map<string, Fields>, keys: Keys) {
    a.Keys == b.Keys && forall id :: id in a ==> SameOn(a[id], b[id], keys.watched)
  }

  ghost predicate OverviewAgrees(v: View, s: Snapshot, keys: Keys) {
    && v.counts == s.counts && SameOn(v.top, s.top, keys.top)
    && v.lowDisk == AsBool(s.lowDisk) && v.lastScanAt == AsString(s.lastScanAt)
  }

  /** The client agrees with a snapshot: the same ids, rows that are equal on every watched key, and the
      same overview and metrics. */
  ghost predicate Agrees(v: View, s: Snapshot, keys: Keys) {
    SameRows(v.rows, ById(Rows(s)), keys) && OverviewAgrees(v, s, keys) && v.metrics == s.metrics
  }

  lemma ShownAgrees(s: Snapshot, keys: Keys)
    ensures Agrees(Shown(s, keys), s, keys)
  {}

  lemma {:induction false} ReplayConcat(v: View, a: seq<Event>, b: seq<Event>, keys: Keys)
    ensures Replay(v, a + b, keys) == Replay(Replay(v, a, keys), b, keys)
    decreases |a|
  {
    if a == [] {
      assert a + b == b;
    } else {
      assert (a + b)[1..] == a[1..] + b;
      ReplayConcat(Applied(v, a[0], keys), a[1..], b, keys);
    }
  }

  lemma ReplayOne(v: View, e: Event, keys: Keys)
    ensures Replay(v, [e], keys) == Applied(v, e, keys)
  {
    assert [e][1..] == [];
    assert Replay(Applied(v, e, keys), [], keys) == Applied(v, e, keys);
  }

  lemma UpsertNext(rows: map<string, Fields>, front: seq<string>, last: string, curr: map<string, Fields>)
    requires (forall id :: id in front ==> id in curr) && last in curr && last != "" && IdOf(curr[last]) == last
    ensures Upsert(rows, RowsOf(front + [last], curr)) == Upsert(rows, RowsOf(front, curr))[last := curr[last]]
  {
    var all := RowsOf(front + [last], curr);
    assert all[..|all| - 1] == RowsOf(front, curr);
  }

  lemma {:induction false} UpsertIs(rows: map<string, Fields>, ids: seq<string>, curr: map<string, Fields>)
    requires forall id :: id in ids ==> id in curr
    requires forall id :: id in curr ==> id != "" && IdOf(curr[id]) == id
    ensures var m := Upsert(rows, RowsOf(ids, curr));
            && (forall k :: k in m <==> k in rows || k in ids)
            && (forall k :: k in m ==> m[k] == if k in ids then curr[k] else rows[k])
  {
    if ids != [] {
      var front, last := ids[..|ids| - 1], ids[|ids| - 1];
      assert ids == front + [last];
      UpsertIs(rows, front, curr);
      UpsertNext(rows, front, last, curr);
    }
  }

  lemma MergedRows(rows: map<string, Fields>, was: map<string, Fields>, now: map<string, Fields>,
                   changed: seq<string>, removed: seq<string>, keys: Keys)
    requires SameRows(rows, was, keys)
    requires forall id :: id in now ==> id != "" && IdOf(now[id]) == id
    requires forall id :: id in changed ==> id in now
    requires forall id :: id in changed <==> RowChanged(was, now, id, keys)
    requires forall id :: id in removed <==> id in was && id !in now
    ensures SameRows(Upsert(Without(rows, removed), RowsOf(changed, now)), now, keys)
    ensures changed == [] && removed == [] ==> SameRows(rows, now, keys)
  {
    UpsertIs(Without(rows, removed), changed, now);
    if changed == [] && removed == [] {
      forall id | id in now ensures id in rows && SameOn(rows[id], now[id], keys.watched) {
        assert !RowChanged(was, now, id, keys);
      }
    }
  }

  /** Applying the archive event brings the rows up to date on the watched keys, and touches nothing else. */
  lemma ArchiveDeltaAgrees(v: View, prev: Snapshot, curr: Snapshot, keys: Keys)
    requires SameRows(v.rows, ById(Rows(prev)), keys)
    ensures var v' := Replay(v, ArchiveDelta(prev, curr, keys), keys);
            v' == v.(rows := v'.rows) && SameRows(v'.rows, ById(Rows(curr)), keys)
  {
    var was, now := ById(Rows(prev)), ById(Rows(curr));
    var changed, removed := Changed(prev, curr, keys), Removed(prev, curr);
    ChangedIff(prev, curr, keys);
    RemovedIff(prev, curr);
    MergedRows(v.rows, was, now, changed, removed, keys);
    ReplayOne(v, ArchiveEvent(RowsOf(changed, now), removed), keys);
  }

  lemma CountsDeltaAgrees(v: View, prev: Snapshot, curr: Snapshot, keys: Keys)
    requires OverviewAgrees(v, prev, keys)
    ensures var v' := Replay(v, CountsDelta(prev, curr, keys), keys);
            OverviewAgrees(v', curr, keys) && v'.rows == v.rows && v'.metrics == v.metrics
  {
    if !CountsEqual(prev, curr, keys) {
      ReplayOne(v, CountsEvent(curr.counts, curr.lowDisk, curr.lastScanAt, Project(curr.top, keys.top)), keys);
    }
  }

  /** The events after the overview and the rows repeat what the overview said, and bring the metrics. */
  lemma TailDeltaAgrees(v: View, prev: Snapshot, curr: Snapshot, keys: Keys)
    requires OverviewAgrees(v, curr, keys) && v.metrics == prev.metrics
    ensures Replay(v, ScanDelta(prev, curr) + MetricsDelta(prev, curr) + LowDiskDelta(prev, curr), keys)
            == v.(metrics := curr.metrics)
  {
    var scan, metrics, low := ScanDelta(prev, curr), MetricsDelta(prev, curr), LowDiskDelta(prev, curr);
    ReplayConcat(v, scan + metrics, low, keys);
    ReplayConcat(v, scan, metrics, keys);
    ReplayOne(v, ScanEvent(AsString(curr.lastScanAt), curr.lastScan, curr.lastScanMs), keys);
    ReplayOne(v, MetricsEvent(curr.metrics), keys);
    ReplayOne(v.(metrics := curr.metrics), LowDiskEvent(AsBool(curr.lowDisk), curr.diskFree, curr.minFree), keys);
  }

  lemma FrontDeltaAgrees(v: View, prev: Snapshot, curr: Snapshot, keys: Keys)
    requires Agrees(v, prev, keys)
    ensures var v' := Replay(v, CountsDelta(prev, curr, keys) + ArchiveDelta(prev, curr, keys), keys);
            OverviewAgrees(v', curr, keys) && SameRows(v'.rows, ById(Rows(curr)), keys) && v'.metrics == prev.metrics
  {
    var counts := CountsDelta(prev, curr, keys);
    ReplayConcat(v, counts, ArchiveDelta(prev, curr, keys), keys);
    CountsDeltaAgrees(v, prev, curr, keys);
    ArchiveDeltaAgrees(Replay(v, counts, keys), prev, curr, keys);
  }

  /** A client that agrees with one snapshot agrees with the next once it has applied the delta. */
  lemma DeltaAgrees(v: View, prev: Snapshot, curr: Snapshot, keys: Keys)
    requires Agrees(v, prev, keys) && Usable(curr)
    ensures Agrees(Replay(v, Delta(prev, curr, keys), keys), curr, keys)
  {
    var front := CountsDelta(prev, curr, keys) + ArchiveDelta(prev, curr, keys);
    var tail := ScanDelta(prev, curr) + MetricsDelta(prev, curr) + LowDiskDelta(prev, curr);
    assert Delta(prev, curr, keys) == front + tail;
    ReplayConcat(v, front, tail, keys);
    FrontDeltaAgrees(v, prev, curr, keys);
    TailDeltaAgrees(Replay(v, front, keys), prev, curr, keys);
  }

  // ---- when nothing is sent ----

  /** The two snapshots tell a client the same. */
  ghost predicate SameNews(prev: Snapshot, curr: Snapshot, keys: Keys) {
    && CountsEqual(prev, curr, keys)
    && prev.metrics == curr.metrics
    && SameRows(ById(Rows(prev)), ById(Rows(curr)), keys)
  }

  /** No event is sent if and only if the snapshots differ in nothing that is watched; equal snapshots
      send none. */
  lemma SilentIff(prev: Snapshot, curr: Snapshot, keys: Keys)
    requires Usable(curr)
    ensures Delta(prev, curr, keys) == [] <==> SameNews(prev, curr, keys)
    ensures prev == curr ==> Delta(prev, curr, keys) == []
  {
    ArchiveSilentIff(prev, curr, keys);
  }

  /** Which events are sent, each only as it is given here. A scan is told when it has a time, and a new one. */
  lemma ScanSentIff(prev: Snapshot, curr: Snapshot, keys: Keys, e: Event)
    requires e.ScanEvent?
    ensures var at := AsString(curr.lastScanAt);
            e in Delta(prev, curr, keys) <==>
              && curr.ok != Bool(false) && at != "" && at != AsString(prev.lastScanAt)
              && e == ScanEvent(at, curr.lastScan, curr.lastScanMs)
  {}

  /** The metrics are told when they differ. */
  lemma MetricsSentIff(prev: Snapshot, curr: Snapshot, keys: Keys, e: Event)
    requires e.MetricsEvent?
    ensures e in Delta(prev, curr, keys) <==>
              curr.ok != Bool(false) && curr.metrics != prev.metrics && e == MetricsEvent(curr.metrics)
  {}

  /** The disk is told when it becomes low, or is no more. */
  lemma DiskSentIff(prev: Snapshot, curr: Snapshot, keys: Keys, e: Event)
    requires e.LowDiskEvent?
    ensures var low := AsBool(curr.lowDisk);
            e in Delta(prev, curr, keys) <==>
              curr.ok != Bool(false) && low != AsBool(prev.lowDisk) && e == LowDiskEvent(low, curr.diskFree, curr.minFree)
  {}

  lemma CountsInDelta(prev: Snapshot, curr: Snapshot, keys: Keys, e: Event)
    requires e.CountsEvent?
    ensures e in Delta(prev, curr, keys) <==> curr.ok != Bool(false) && e in CountsDelta(prev, curr, keys)
  {}

  /** The counts are told when anything about them differs, the disk and the time of the scan included. */
  lemma CountsSentIff(prev: Snapshot, curr: Snapshot, keys: Keys, e: Event)
    requires e.CountsEvent?
    ensures e in Delta(prev, curr, keys) <==>
              && curr.ok != Bool(false) && !SameCounts(prev, curr, keys)
              && e == CountsEvent(curr.counts, curr.lowDisk, curr.lastScanAt, Project(curr.top, keys.top))
  {
    CountsInDelta(prev, curr, keys, e);
  }

  ghost predicate SameCounts(prev: Snapshot, curr: Snapshot, keys: Keys) {
    && curr.counts == prev.counts && AsBool(curr.lowDisk) == AsBool(prev.lowDisk)
    && AsString(curr.lastScanAt) == AsString(prev.lastScanAt)
    && forall k :: k in keys.top ==> Get(curr.top, k) == Get(prev.top, k)
  }

  lemma ArchiveSilentIff(prev: Snapshot, curr: Snapshot, keys: Keys)
    ensures ArchiveDelta(prev, curr, keys) == [] <==> SameRows(ById(Rows(prev)), ById(Rows(curr)), keys)
  {
    ChangedIff(prev, curr, keys);
    RemovedIff(prev, curr);
    NothingIn(Changed(prev, curr, keys));
    NothingIn(Removed(prev, curr));
  }

  lemma NothingIn(ids: seq<string>)
    ensures (forall x :: x !in ids) ==> ids == []
  {
    if ids != [] {
      assert ids[0] in ids;
    }
  }

  // ---- the stream ----

  /** A refresh: the polled snapshot, and whether the ticker asked for it. */
  datatype Poll = Poll(curr: Snapshot, ticker: bool)

  /** The baseline of the next delta, and the ticks since the last full snapshot. */
  datatype State = State(prev: Snapshot, tick: nat)

  predicate SendsFull(st: State, p: Poll, fullEvery: nat) {
    p.ticker && st.tick + 1 >= fullEvery
  }

  /** emitSSERefresh: what is sent. */
  function Sent(st: State, p: Poll, fullEvery: nat, keys: Keys): seq<Event> {
    Delta(st.prev, p.curr, keys) + if SendsFull(st, p, fullEvery) then [SnapshotEvent(p.curr)] else []
  }

  /** emitSSERefresh: the state it leaves. */
  function After(st: State, p: Poll, fullEvery: nat): State {
    State(if Usable(p.curr) then p.curr else st.prev,
          if !p.ticker then st.tick else if SendsFull(st, p, fullEvery) then 0 else st.tick + 1)
  }

  function SentAll(st: State, polls: seq<Poll>, fullEvery: nat, keys: Keys): seq<Event>
    decreases |polls|
  {
    if polls == [] then []
    else Sent(st, polls[0], fullEvery, keys) + SentAll(After(st, polls[0], fullEvery), polls[1..], fullEvery, keys)
  }

  /** The last snapshot that was ok. */
  function LastUsable(prev: Snapshot, polls: seq<Poll>): Snapshot
    decreases |polls|
  {
    if polls == [] then prev
    else LastUsable(if Usable(polls[0].curr) then polls[0].curr else prev, polls[1..])
  }

  /** A snapshot that says it is not ok is never diffed against, nor diffed: at most it is sent as it is. Any
      other becomes the baseline. */
  lemma OnlyOkCounts(st: State, p: Poll, fullEvery: nat, keys: Keys)
    ensures p.curr.ok == Bool(false) ==>
              && After(st, p, fullEvery).prev == st.prev
              && forall e :: e in Sent(st, p, fullEvery, keys) ==> e.SnapshotEvent?
    ensures p.curr.ok != Bool(false) ==> After(st, p, fullEvery).prev == p.curr
  {}

  /** The snapshot that the client is to agree with: the last one that did not say it was not ok. */
  lemma {:induction false} LastUsableIs(prev: Snapshot, polls: seq<Poll>)
    ensures var last := LastUsable(prev, polls);
            || (last == prev && forall i :: 0 <= i < |polls| ==> polls[i].curr.ok == Bool(false))
            || exists i :: 0 <= i < |polls| && polls[i].curr == last && last.ok != Bool(false)
                           && forall j :: i < j < |polls| ==> polls[j].curr.ok == Bool(false)
    decreases |polls|
  {
    if polls != [] {
      var rest := polls[1..];
      var next := if polls[0].curr.ok != Bool(false) then polls[0].curr else prev;
      LastUsableIs(next, rest);
      var last := LastUsable(next, rest);
      assert last == LastUsable(prev, polls);
      if i :| 0 <= i < |rest| && rest[i].curr == last && last.ok != Bool(false)
              && forall j :: i < j < |rest| ==> rest[j].curr.ok == Bool(false) {
        assert polls[i + 1].curr == last;
        forall j | i + 1 < j < |polls| ensures polls[j].curr.ok == Bool(false) {
          assert rest[j - 1] == polls[j];
        }
      } else {
        forall j | 0 < j < |polls| ensures polls[j].curr.ok == Bool(false) {
          assert rest[j - 1] == polls[j];
        }
        assert polls[0].curr.ok != Bool(false) ==> polls[0].curr == last;
      }
    }
  }

  /** What counts as true in a snapshot. */
  lemma TruthIs(v: Json)
    ensures AsBool(v) <==> v == Bool(true) || (v.Num? && v.n != 0.0)
                           || (v.Str? && (v.s == "1" || v.s == "true" || v.s == "True" || v.s == "TRUE"
                                          || v.s == "yes" || v.s == "on"))
  {}

  method ArchivesById(rows: seq<Fields>) returns (m: map<string, Fields>)
    ensures m == ById(rows)
  {
    m := map[];
    for i := 0 to |rows|
      invariant m == ById(rows[..i])
    {
      assert rows[..i + 1][..i] == rows[..i];
      var id := IdOf(rows[i]);
      if id == "" {
        continue;
      }
      m := m[id := rows[i]];
    }
    assert rows[..|rows|] == rows;
  }

  method ChangedListed(rows: seq<Fields>, was: map<string, Fields>, now: map<string, Fields>, keys: Keys)
    returns (ids: seq<string>)
    ensures ids == ChangedAmong(rows, was, now, keys)
  {
    ids := [];
    for i := 0 to |rows|
      invariant ids == ChangedAmong(rows[..i], was, now, keys)
    {
      assert rows[..i + 1][..i] == rows[..i];
      var id := IdOf(rows[i]);
      if id in now && (id !in was || !SameOn(was[id], now[id], keys.watched)) {
        ids := ids + [id];
      }
    }
    assert rows[..|rows|] == rows;
  }

  method RemovedListed(rows: seq<Fields>, was: map<string, Fields>, now: map<string, Fields>)
    returns (ids: seq<string>)
    ensures ids == RemovedAmong(rows, was, now)
  {
    ids := [];
    for i := 0 to |rows|
      invariant ids == RemovedAmong(rows[..i], was, now)
    {
      assert rows[..i + 1][..i] == rows[..i];
      var id := IdOf(rows[i]);
      if id in was && id !in now {
        ids := ids + [id];
      }
    }
    assert rows[..|rows|] == rows;
  }

  method DiffSnapshots(prev: Snapshot, curr: Snapshot, keys: Keys) returns (events: seq<Event>)
    ensures events == Delta(prev, curr, keys)
  {
    events := [];
    if !Usable(curr) {
      return;
    }
    if !CountsEqual(prev, curr, keys) {
      events := events + [CountsEvent(curr.counts, curr.lowDisk, curr.lastScanAt, Project(curr.top, keys.top))];
    }
    var was := ArchivesById(Rows(prev));
    var now := ArchivesById(Rows(curr));
    var changed := ChangedListed(Rows(curr), was, now, keys);
    changed := SortIds(changed);
    assert changed == Changed(prev, curr, keys);
    var removed := RemovedListed(Rows(prev), was, now);
    removed := SortIds(removed);
    if changed != [] || removed != [] {
      events := events + [ArchiveEvent(RowsOf(changed, now), removed)];
    }
    assert events == CountsDelta(prev, curr, keys) + ArchiveDelta(prev, curr, keys);
    events := events + ScanDelta(prev, curr);
    events := events + MetricsDelta(prev, curr);
    events := events + LowDiskDelta(prev, curr);
  }

  const DEFAULT_FULL_EVERY := 4

  class Stream {
    const keys: Keys
    const fullEvery: nat
    var prev: Snapshot
    var tick: nat

    function Current(): State
      reads this
    {
      State(prev, tick)
    }

    /** On connection the first snapshot is sent in full. */
    constructor (first: Snapshot, fullEvery: int)
      ensures keys == ALL_KEYS && Current() == State(first, 0)
      ensures this.fullEvery == if fullEvery <= 0 then DEFAULT_FULL_EVERY else fullEvery
    {
      keys := ALL_KEYS;
      this.fullEvery := if fullEvery <= 0 then DEFAULT_FULL_EVERY else fullEvery;
      prev, tick := first, 0;
    }

    method EmitRefresh(curr: Snapshot, countTowardFull: bool) returns (events: seq<Event>)
      modifies this
      ensures events == Sent(old(Current()), Poll(curr, countTowardFull), fullEvery, keys)
      ensures Current() == After(old(Current()), Poll(curr, countTowardFull), fullEvery)
    {
      events := DiffSnapshots(prev, curr, keys);
      if countTowardFull {
        tick := tick + 1;
        if tick >= fullEvery {
          tick := 0;
          events := events + [SnapshotEvent(curr)];
        }
      }
      if Usable(curr) {
        prev := curr;
      }
    }
  }

  // ---- the client keeps up ----

  lemma SentAgrees(v: View, st: State, p: Poll, fullEvery: nat, keys: Keys)
    requires Agrees(v, st.prev, keys)
    ensures Agrees(Replay(v, Sent(st, p, fullEvery, keys), keys), After(st, p, fullEvery).prev, keys)
  {
    var delta := Delta(st.prev, p.curr, keys);
    if Usable(p.curr) {
      DeltaAgrees(v, st.prev, p.curr, keys);
      ShownAgrees(p.curr, keys);
    }
    if SendsFull(st, p, fullEvery) {
      ReplayConcat(v, delta, [SnapshotEvent(p.curr)], keys);
      ReplayOne(Replay(v, delta, keys), SnapshotEvent(p.curr), keys);
    } else {
      assert Sent(st, p, fullEvery, keys) == delta;
    }
  }

  /** A client that agrees with the baseline agrees, after any sequence of refreshes, with the last snapshot
      that was ok. */
  lemma {:induction false} StreamAgrees(v: View, st: State, polls: seq<Poll>, fullEvery: nat, keys: Keys)
    requires Agrees(v, st.prev, keys)
    ensures Agrees(Replay(v, SentAll(st, polls, fullEvery, keys), keys), LastUsable(st.prev, polls), keys)
    decreases |polls|
  {
    if polls != [] {
      var st1 := After(st, polls[0], fullEvery);
      var first := Sent(st, polls[0], fullEvery, keys);
      SentAgrees(v, st, polls[0], fullEvery, keys);
      ReplayConcat(v, first, SentAll(st1, polls[1..], fullEvery, keys), keys);
      StreamAgrees(Replay(v, first, keys), st1, polls[1..], fullEvery, keys);
    }
  }

  const REFUSED := NO_SNAPSHOT.(ok := Bool(false))

  lemma FirstAgrees(first: Snapshot, keys: Keys)
    requires Usable(first) || first == REFUSED
    ensures Agrees(Applied(Shown(NO_SNAPSHOT, keys), SnapshotEvent(first), keys), first, keys)
  {
    if Usable(first) {
      ShownAgrees(first, keys);
    } else {
      ShownAgrees(REFUSED, keys);
      assert Shown(REFUSED, keys) == Shown(NO_SNAPSHOT, keys);
    }
  }

  /** From the connection on: a client that starts empty and is sent the first snapshot, ok or refused,
      always shows the last snapshot that was ok. */
  lemma ClientKeepsUp(first: Snapshot, polls: seq<Poll>, fullEvery: nat, keys: Keys)
    requires Usable(first) || first == REFUSED
    ensures var v := Applied(Shown(NO_SNAPSHOT, keys), SnapshotEvent(first), keys);
            Agrees(Replay(v, SentAll(State(first, 0), polls, fullEvery, keys), keys), LastUsable(first, polls), keys)
  {
    FirstAgrees(first, keys);
    StreamAgrees(Applied(Shown(NO_SNAPSHOT, keys), SnapshotEvent(first), keys), State(first, 0), polls, fullEvery, keys);
  }

  // ---- how often a full snapshot is sent ----

  function Ticks(polls: seq<Poll>): nat {
    if polls == [] then 0 else (if polls[0].ticker then 1 else 0) + Ticks(polls[1..])
  }

  function Fulls(events: seq<Event>): nat {
    if events == [] then 0 else (if events[0].SnapshotEvent? then 1 else 0) + Fulls(events[1..])
  }

  lemma {:induction false} FullsConcat(a: seq<Event>, b: seq<Event>)
    ensures Fulls(a + b) == Fulls(a) + Fulls(b)
  {
    if a == [] {
      assert a + b == b;
    } else {
      assert (a + b)[1..] == a[1..] + b;
      FullsConcat(a[1..], b);
    }
  }

  lemma {:induction false} NoFulls(events: seq<Event>)
    requires forall e :: e in events ==> !e.SnapshotEvent?
    ensures Fulls(events) == 0
  {
    if events != [] {
      NoFulls(events[1..]);
    }
  }

  lemma SentFulls(st: State, p: Poll, fullEvery: nat, keys: Keys)
    ensures Fulls(Sent(st, p, fullEvery, keys)) == if SendsFull(st, p, fullEvery) then 1 else 0
  {
    NoFulls(Delta(st.prev, p.curr, keys));
    var full := if SendsFull(st, p, fullEvery) then [SnapshotEvent(p.curr)] else [];
    assert full != [] ==> full[1..] == [];
    FullsConcat(Delta(st.prev, p.curr, keys), full);
  }

  /** The tick counter after the refreshes. */
  function TickAfter(tick: nat, polls: seq<Poll>, fullEvery: nat): nat
    decreases |polls|
  {
    if polls == [] then tick
    else
      var next := if !polls[0].ticker then tick else if tick + 1 >= fullEvery then 0 else tick + 1;
      TickAfter(next, polls[1..], fullEvery)
  }

  lemma OneMore(n: nat, d: nat)
    ensures (1 + n) * d == d + n * d
  {}

  /** Full snapshots are counted out by the ticker alone: every fullEvery-th of its refreshes sends one,
      however many refreshes were notified in between. */
  lemma {:induction false} FullsAddUp(st: State, polls: seq<Poll>, fullEvery: nat, keys: Keys)
    requires st.tick < fullEvery
    ensures TickAfter(st.tick, polls, fullEvery) < fullEvery
    ensures Fulls(SentAll(st, polls, fullEvery, keys)) * fullEvery + TickAfter(st.tick, polls, fullEvery)
            == st.tick + Ticks(polls)
    decreases |polls|
  {
    if polls != [] {
      var st1 := After(st, polls[0], fullEvery);
      var first, rest := Sent(st, polls[0], fullEvery, keys), SentAll(st1, polls[1..], fullEvery, keys);
      SentFulls(st, polls[0], fullEvery, keys);
      FullsConcat(first, rest);
      FullsAddUp(st1, polls[1..], fullEvery, keys);
      OneMore(Fulls(rest), fullEvery);
      assert Fulls(SentAll(st, polls, fullEvery, keys)) == Fulls(first) + Fulls(rest);
    }
  }
}
