/** One archive's hook cycles over time (internal/hooks/runner.go). */
module HookRunner {
  import opened HookCycles
  import opened NestedSkips
  import opened Options
  import opened Sequences
  import opened Statuses

  const HARD_FAILED := "one or more hooks hard-failed"
  const RETRY_REASON := "one or more hooks returned EX_TEMPFAIL/timeout"

  /** What the discovery and security checks find in hooks_dir. */
  datatype Discovery =
    | DirRefused(reason: string)
    | HookRefused(name: string, reason: string)
    | Found(hooks: seq<string>)

  datatype CycleResult =
    | NotRun(status: HooksStatus)
    | Ran(status: HooksStatus, results: seq<RunResult>)
    | Rejected

  /** The archive row's hook columns, its hook rows, and every process started so far. */
  datatype HookState = HookState(
    status: Status, hooksStatus: HooksStatus, lastError: Option<string>, rows: Rows, runs: seq<string>)

  /** How a cycle ends. */
  datatype Ending = Succeeded | Retrying | HardFailed(reason: string)

  /** A pure advisory is kept as it is, an enriched error is cut down to its advisory. */
  function KeptOnSuccess(prior: string, skipOnly: bool, segment: (string, nat)): Option<string> {
    if prior == "" then None
    else if skipOnly then Some(prior)
    else if segment.1 > 0 then Some(segment.0)
    else None
  }

  /** last_error after an ending: success keeps only the skip advisory, the others carry it along. */
  function ErrorAfter(ending: Ending, lastError: Option<string>): Option<string> {
    var prior := lastError.GetOr("");
    match ending
    case Succeeded => KeptOnSuccess(prior, IsSkipOnly(prior), Extract(prior))
    case Retrying => Some(Preserve(RETRY_REASON, prior))
    case HardFailed(reason) => Some(Preserve(reason, prior))
  }

  function StatusAfter(ending: Ending): HooksStatus {
    match ending
    case Succeeded => HooksSuccess
    case Retrying => HooksRetry
    case HardFailed(_) => HooksFailed
  }

  function EndingOf(aggregate: HooksStatus): Ending {
    match aggregate
    case HooksFailed => HardFailed(HARD_FAILED)
    case HooksRetry => Retrying
    case _ => Succeeded
  }

  /** SeedHooks: missing rows only. */
  function Seeded(rows: Rows, hooks: seq<string>): Rows {
    if hooks == [] then rows
    else rows + (map h | h in hooks && h !in rows :: HookRow(HookPending, 0, None, None))
  }

  function Finished(st: HookState, ending: Ending): HookState {
    st.(status := Mounted, hooksStatus := StatusAfter(ending), lastError := ErrorAfter(ending, st.lastError))
  }

  /** One pass over a found hook set, up to its ending. */
  function Cycled(st: HookState, hooks: seq<string>, outcomes: Outcomes, cfg: HooksConfig): (HookState, CycleResult) {
    var pass := RunFrom(Seeded(st.rows, hooks), hooks, outcomes, cfg, false);
    var ending := EndingOf(Aggregate(pass.results));
    (Finished(st.(rows := pass.rows, runs := st.runs + pass.ran), ending),
     Ran(StatusAfter(ending), pass.results))
  }

  /** RunForArchive. A row that may not enter hooks_running is left alone, but for its seeded hooks. */
  function AfterRun(st: HookState, force: bool, discovery: Discovery, outcomes: Outcomes, cfg: HooksConfig)
    : (HookState, CycleResult)
  {
    if !force && !ShouldRunHooks(st.hooksStatus, cfg.rerunOnFailure) then (st, NotRun(st.hooksStatus))
    else
      var entered := ValidTransition(st.status, HooksRunning);
      match discovery
      case DirRefused(reason) =>
        if entered then (Finished(st, HardFailed(reason)), Ran(HooksFailed, [])) else (st, Rejected)
      case HookRefused(name, reason) =>
        if entered then
          (Finished(st, HardFailed("hook security: " + reason)),
           Ran(HooksFailed, [RunResult(name, HookFailed, None, 0, Refused(reason), false)]))
        else (st, Rejected)
      case Found(hooks) =>
        if entered then Cycled(st, hooks, outcomes, cfg)
        else (st.(rows := Seeded(st.rows, hooks)), Rejected)
  }

  /** Every hook that is not settled takes its turn twice: to start and to end. */
  ghost predicate IsSchedule(rows: Rows, hooks: seq<string>, schedule: seq<nat>) {
    && (forall i :: i in schedule ==> i < |hooks| && !Settled(rows, hooks[i]))
    && (forall i :: 0 <= i < |hooks| && !Settled(rows, hooks[i]) ==> multiset(schedule)[i] == 2)
  }

  /** Equal but for the order in which processes were started. */
  ghost predicate SameButOrder(a: (HookState, CycleResult), b: (HookState, CycleResult)) {
    && a.1 == b.1
    && a.0.(runs := []) == b.0.(runs := [])
    && multiset(a.0.runs) == multiset(b.0.runs)
  }

  /** How often hook i has taken its turn. */
  ghost function Turns(schedule: seq<nat>, k: nat, i: nat): nat
    requires k <= |schedule|
  {
    multiset(schedule[..k])[i]
  }

  lemma TurnsStep(schedule: seq<nat>, k: nat)
    requires k < |schedule|
    ensures forall i :: Turns(schedule, k + 1, i) == Turns(schedule, k, i) + if i == schedule[k] then 1 else 0
    ensures Turns(schedule, k + 1, schedule[k]) <= multiset(schedule)[schedule[k]]
  {
    assert schedule[..k + 1] == schedule[..k] + [schedule[k]];
    assert schedule == schedule[..k + 1] + schedule[k + 1..];
  }

  /** A hook's row after none, one or both of its store updates. */
  ghost function RowAfter(rows: Rows, hook: string, outcomes: Outcomes, cfg: HooksConfig, turns: nat): Option<HookRow> {
    if turns == 0 then Lookup(rows, hook)
    else if turns == 1 then Some(RunningRow(rows, hook))
    else Some(EndedRow(RunningRow(rows, hook), outcomes(hook), cfg.maxRetries))
  }

  /** The state of a parallel pass after k turns: rows, results and starts of each hook depend on
      that hook's own turns only. */
  ghost predicate ParallelAt(
    rows0: Rows, hooks: seq<string>, outcomes: Outcomes, cfg: HooksConfig, schedule: seq<nat>, k: nat,
    rows: Rows, results: seq<RunResult>)
    requires k <= |schedule|
  {
    && |results| == |hooks|
    && (forall i: nat :: i < |hooks| ==>
          Lookup(rows, hooks[i]) == RowAfter(rows0, hooks[i], outcomes, cfg, Turns(schedule, k, i)))
    && (forall h :: h !in hooks ==> Lookup(rows, h) == Lookup(rows0, h))
    && (forall i: nat :: i < |hooks| && (Settled(rows0, hooks[i]) || Turns(schedule, k, i) >= 2) ==>
          results[i] == OwnResult(rows0, hooks[i], outcomes, cfg))
  }

  ghost predicate RunsAt(hooks: seq<string>, schedule: seq<nat>, k: nat, runs0: seq<string>, runs: seq<string>)
    requires k <= |schedule|
  {
    && (forall i: nat :: i < |hooks| ==>
          multiset(runs)[hooks[i]] == multiset(runs0)[hooks[i]] + if Turns(schedule, k, i) > 0 then 1 else 0)
    && (forall h :: h !in hooks ==> multiset(runs)[h] == multiset(runs0)[h])
  }

  /** The result slots before any process has ended: settled hooks have answered. */
  function InitialResults(rows: Rows, hooks: seq<string>): seq<RunResult> {
    seq(|hooks|, i requires 0 <= i < |hooks| =>
      if Settled(rows, hooks[i]) then SettledResult(rows, hooks[i])
      else RunResult(hooks[i], HookPending, None, 0, NoReason, false))
  }

  lemma ParallelInit(rows0: Rows, hooks: seq<string>, outcomes: Outcomes, cfg: HooksConfig, schedule: seq<nat>,
                     runs0: seq<string>)
    ensures ParallelAt(rows0, hooks, outcomes, cfg, schedule, 0, rows0, InitialResults(rows0, hooks))
    ensures RunsAt(hooks, schedule, 0, runs0, runs0)
  {}

  lemma ParallelStart(
    rows0: Rows, hooks: seq<string>, outcomes: Outcomes, cfg: HooksConfig, schedule: seq<nat>, k: nat,
    rows: Rows, results: seq<RunResult>)
    requires k < |schedule| && schedule[k] < |hooks|
    requires NoDuplicates(hooks) && IsSchedule(rows0, hooks, schedule)
    requires ParallelAt(rows0, hooks, outcomes, cfg, schedule, k, rows, results)
    requires Turns(schedule, k, schedule[k]) == 0
    ensures var hook := hooks[schedule[k]];
            ParallelAt(rows0, hooks, outcomes, cfg, schedule, k + 1,
                       rows[hook := RunningRow(rows, hook)], results)
  {
    TurnsStep(schedule, k);
    var i := schedule[k];
    assert Lookup(rows, hooks[i]) == Lookup(rows0, hooks[i]);
    var rows' := rows[hooks[i] := RunningRow(rows, hooks[i])];
    forall j: nat | j < |hooks|
      ensures Lookup(rows', hooks[j]) == RowAfter(rows0, hooks[j], outcomes, cfg, Turns(schedule, k + 1, j))
    {
      if j != i {
        assert hooks[j] != hooks[i];
      }
    }
  }

  lemma ParallelStop(
    rows0: Rows, hooks: seq<string>, outcomes: Outcomes, cfg: HooksConfig, schedule: seq<nat>, k: nat,
    rows: Rows, results: seq<RunResult>)
    requires k < |schedule| && schedule[k] < |hooks|
    requires NoDuplicates(hooks) && IsSchedule(rows0, hooks, schedule)
    requires ParallelAt(rows0, hooks, outcomes, cfg, schedule, k, rows, results)
    requires Turns(schedule, k, schedule[k]) > 0
    ensures var i := schedule[k];
            && Lookup(rows, hooks[i]) == Some(RunningRow(rows0, hooks[i]))
            && ParallelAt(rows0, hooks, outcomes, cfg, schedule, k + 1,
                          rows[hooks[i] := EndedRow(rows[hooks[i]], outcomes(hooks[i]), cfg.maxRetries)],
                          results[i := RunResultOf(hooks[i], rows[hooks[i]].attempts, outcomes(hooks[i]),
                                                   cfg.maxRetries)])
  {
    TurnsStep(schedule, k);
    var i := schedule[k];
    assert i in schedule;
    assert Lookup(rows, hooks[i]) == Some(RunningRow(rows0, hooks[i]));
    var rows' := rows[hooks[i] := EndedRow(rows[hooks[i]], outcomes(hooks[i]), cfg.maxRetries)];
    forall j: nat | j < |hooks|
      ensures Lookup(rows', hooks[j]) == RowAfter(rows0, hooks[j], outcomes, cfg, Turns(schedule, k + 1, j))
    {
      if j != i {
        assert hooks[j] != hooks[i];
      }
    }
  }

  lemma RunsStart(hooks: seq<string>, schedule: seq<nat>, k: nat, runs0: seq<string>, runs: seq<string>)
    requires k < |schedule| && schedule[k] < |hooks| && NoDuplicates(hooks)
    requires RunsAt(hooks, schedule, k, runs0, runs)
    ensures if Turns(schedule, k, schedule[k]) == 0
            then RunsAt(hooks, schedule, k + 1, runs0, runs + [hooks[schedule[k]]])
            else RunsAt(hooks, schedule, k + 1, runs0, runs)
  {
    TurnsStep(schedule, k);
    var i := schedule[k];
    forall j: nat | j < |hooks| && j != i ensures hooks[j] != hooks[i] {}
  }

  lemma ParallelEnd(
    rows0: Rows, hooks: seq<string>, outcomes: Outcomes, cfg: HooksConfig, schedule: seq<nat>,
    rows: Rows, results: seq<RunResult>)
    requires NoDuplicates(hooks) && !cfg.stopOnHardFail && IsSchedule(rows0, hooks, schedule)
    requires ParallelAt(rows0, hooks, outcomes, cfg, schedule, |schedule|, rows, results)
    ensures var pass := RunFrom(rows0, hooks, outcomes, cfg, false); rows == pass.rows && results == pass.results
  {
    var pass := RunFrom(rows0, hooks, outcomes, cfg, false);
    AllTurns(rows0, hooks, schedule);
    UnstoppedRows(rows0, hooks, outcomes, cfg);
    forall h ensures Lookup(rows, h) == Lookup(pass.rows, h) {
      if h in hooks {
        var i: nat :| i < |hooks| && hooks[i] == h;
      }
    }
    SameLookups(rows, pass.rows);
    UnstoppedResults(rows0, hooks, outcomes, cfg);
  }

  lemma AllTurns(rows0: Rows, hooks: seq<string>, schedule: seq<nat>)
    requires IsSchedule(rows0, hooks, schedule)
    ensures forall i: nat :: i < |hooks| ==>
              Turns(schedule, |schedule|, i) == if Settled(rows0, hooks[i]) then 0 else 2
  {
    assert schedule[..|schedule|] == schedule;
    forall i: nat | i < |hooks| && Settled(rows0, hooks[i]) ensures multiset(schedule)[i] == 0 {
      assert i !in schedule;
    }
  }

  lemma RunsEnd(
    rows0: Rows, hooks: seq<string>, outcomes: Outcomes, cfg: HooksConfig, schedule: seq<nat>,
    runs0: seq<string>, runs: seq<string>)
    requires NoDuplicates(hooks) && !cfg.stopOnHardFail && IsSchedule(rows0, hooks, schedule)
    requires RunsAt(hooks, schedule, |schedule|, runs0, runs)
    ensures multiset(runs) == multiset(runs0) + multiset(RunFrom(rows0, hooks, outcomes, cfg, false).ran)
  {
    AllTurns(rows0, hooks, schedule);
    UnstoppedRan(rows0, hooks, outcomes, cfg);
    var total := multiset(runs0) + multiset(RunFrom(rows0, hooks, outcomes, cfg, false).ran);
    forall h ensures multiset(runs)[h] == total[h] {
      if h in hooks {
        var i: nat :| i < |hooks| && hooks[i] == h;
      }
    }
  }

  class Runner {
    const cfg: HooksConfig
    var status: Status
    var hooksStatus: HooksStatus
    var lastError: Option<string>
    var rows: Rows
    var runs: seq<string>

    constructor (cfg: HooksConfig)
      ensures this.cfg == cfg
      ensures State() == HookState(Mounted, HooksNone, None, map[], [])
    {
      this.cfg := cfg;
      status, hooksStatus, lastError, rows, runs := Mounted, HooksNone, None, map[], [];
    }

    function State(): HookState
      reads this
    {
      HookState(status, hooksStatus, lastError, rows, runs)
    }

    method RunForArchive(force: bool, discovery: Discovery, outcomes: Outcomes, parallel: bool,
                         schedule: seq<nat>)
      returns (result: CycleResult)
      requires parallel && discovery.Found? ==>
                 NoDuplicates(discovery.hooks) && IsSchedule(Seeded(rows, discovery.hooks), discovery.hooks, schedule)
      modifies this
      ensures !parallel ==> (State(), result) == AfterRun(old(State()), force, discovery, outcomes, cfg)
      ensures parallel ==> SameButOrder((State(), result),
                AfterRun(old(State()), force, discovery, outcomes, cfg.(stopOnHardFail := false)))
    {
      if !force && !ShouldRunHooks(hooksStatus, cfg.rerunOnFailure) {
        return NotRun(hooksStatus);
      }
      var entered;
      match discovery {
        case DirRefused(reason) =>
          entered := EnterHooksRunning([]);
          if !entered {
            return Rejected;
          }
          result := Finish(HardFailed(reason), []);
        case HookRefused(name, reason) =>
          entered := EnterHooksRunning([]);
          if !entered {
            return Rejected;
          }
          result := Finish(HardFailed("hook security: " + reason),
                           [RunResult(name, HookFailed, None, 0, Refused(reason), false)]);
        case Found(hooks) =>
          entered := EnterHooksRunning(hooks);
          if !entered {
            return Rejected;
          }
          var results;
          if parallel {
            ghost var seeded := rows;
            results := RunParallel(hooks, outcomes, schedule);
            UnstoppedRan(seeded, hooks, outcomes, cfg.(stopOnHardFail := false));
          } else {
            results := RunSequential(hooks, outcomes);
          }
          var aggregate := AggregateStatus(results);
          result := Finish(EndingOf(aggregate), results);
      }
    }

    method EnterHooksRunning(seeds: seq<string>) returns (ok: bool)
      modifies this
      ensures ok == ValidTransition(old(status), HooksRunning)
      ensures State() ==
        var seeded := old(State()).(rows := Seeded(old(rows), seeds));
        if ok then seeded.(status := HooksRunning, hooksStatus := HooksInProgress) else seeded
    {
      rows := Seeded(rows, seeds);
      ok := ValidTransition(status, HooksRunning);
      if ok {
        status, hooksStatus := HooksRunning, HooksInProgress;
      }
    }

    /** finishSuccess, finishFailed and finishRetry. */
    method Finish(ending: Ending, results: seq<RunResult>) returns (result: CycleResult)
      requires status == HooksRunning
      modifies this
      ensures State() == Finished(old(State()), ending)
      ensures result == Ran(StatusAfter(ending), results)
    {
      lastError := ErrorAfter(ending, lastError);
      hooksStatus := StatusAfter(ending);
      status := Mounted;
      return Ran(hooksStatus, results);
    }

    /** The loop with its stop flag. */
    method RunSequential(hooks: seq<string>, outcomes: Outcomes) returns (results: seq<RunResult>)
      modifies this
      ensures var pass := RunFrom(old(rows), hooks, outcomes, cfg, false);
              && results == pass.results
              && State() == old(State()).(rows := pass.rows, runs := old(runs) + pass.ran)
    {
      results := [];
      var stop := false;
      ghost var pass := RunFrom(rows, hooks, outcomes, cfg, false);
      ghost var ran: seq<string> := [];
      for i := 0 to |hooks|
        invariant Splits(pass, results, ran, RunFrom(rows, hooks[i..], outcomes, cfg, stop))
        invariant State() == old(State()).(rows := rows, runs := old(runs) + ran)
      {
        SplitsStep(pass, results, ran, rows, hooks, i, outcomes, cfg, stop);
        ran := ran + TurnOf(rows, hooks[i], outcomes, cfg, stop).ran;
        var result;
        result, stop := TakeTurn(hooks[i], outcomes, stop);
        results := results + [result];
      }
    }

    /** The body of the loop. */
    method TakeTurn(hook: string, outcomes: Outcomes, stop: bool) returns (result: RunResult, stop': bool)
      modifies this
      ensures var turn := TurnOf(old(rows), hook, outcomes, cfg, stop);
              && result == turn.result
              && stop' == turn.stopped
              && State() == old(State()).(rows := turn.rows, runs := old(runs) + turn.ran)
    {
      if stop {
        rows := rows[hook := SkippedRow(rows, hook)];
        return RunResult(hook, HookSkipped, None, 0, PriorHardFail, false), true;
      }
      if hook in rows && rows[hook].status == HookSuccess {
        var row := rows[hook];
        return RunResult(hook, HookSuccess, row.lastExitCode, row.attempts, NoReason, false), false;
      }
      if hook in rows && rows[hook].status == HookSkipped {
        var row := rows[hook];
        return RunResult(hook, HookSkipped, None, row.attempts, row.lastError.GetOr(NoReason), false), false;
      }
      result := RunOne(hook, outcomes);
      stop' := result.status == HookFailed && cfg.stopOnHardFail;
    }

    method RunOne(hook: string, outcomes: Outcomes) returns (result: RunResult)
      modifies this
      ensures State() == old(State()).(runs := old(runs) + [hook],
                rows := old(rows)[hook := EndedRow(RunningRow(old(rows), hook), outcomes(hook), cfg.maxRetries)])
      ensures result == RunResultOf(hook, NextAttempt(old(rows), hook), outcomes(hook), cfg.maxRetries)
    {
      var attempts := if hook in rows then rows[hook].attempts + 1 else 1;
      rows := rows[hook := RunningRow(rows, hook)];
      runs := runs + [hook];
      var outcome := outcomes(hook);
      var (status, error) := ClassifyExit(outcome, attempts, cfg.maxRetries);
      rows := rows[hook := EndedRow(rows[hook], outcome, cfg.maxRetries)];
      result := RunResult(hook, status, if outcome.Exited? then Some(outcome.code) else None, attempts, error,
                          outcome.Timeout?);
    }

    /** One goroutine a hook. Each does two store updates, before and after its process; the schedule
        says in which order the updates of the goroutines reach the store. */
    method RunParallel(hooks: seq<string>, outcomes: Outcomes, schedule: seq<nat>)
      returns (results: seq<RunResult>)
      requires NoDuplicates(hooks) && IsSchedule(rows, hooks, schedule)
      modifies `rows, `runs
      ensures var pass := RunFrom(old(rows), hooks, outcomes, cfg.(stopOnHardFail := false), false);
              && results == pass.results
              && rows == pass.rows
              && multiset(runs) == multiset(old(runs)) + multiset(pass.ran)
    {
      ghost var rows0 := rows;
      ghost var free := cfg.(stopOnHardFail := false);
      results := InitialResults(rows, hooks);
      ParallelInit(rows, hooks, outcomes, free, schedule, runs);
      var started: set<nat> := {};
      for k := 0 to |schedule|
        invariant forall i: nat :: i in started <==> i < |hooks| && Turns(schedule, k, i) > 0
        invariant ParallelAt(rows0, hooks, outcomes, free, schedule, k, rows, results)
        invariant RunsAt(hooks, schedule, k, old(runs), runs)
      {
        TurnsStep(schedule, k);
        var i := schedule[k];
        assert i in schedule;
        RunsStart(hooks, schedule, k, old(runs), runs);
        if i !in started {
          ParallelStart(rows0, hooks, outcomes, free, schedule, k, rows, results);
          rows := rows[hooks[i] := RunningRow(rows, hooks[i])];
          runs := runs + [hooks[i]];
          started := started + {i};
        } else {
          ParallelStop(rows0, hooks, outcomes, free, schedule, k, rows, results);
          var running := rows[hooks[i]];
          rows := rows[hooks[i] := EndedRow(running, outcomes(hooks[i]), cfg.maxRetries)];
          results := results[i := RunResultOf(hooks[i], running.attempts, outcomes(hooks[i]), cfg.maxRetries)];
        }
      }
      ParallelEnd(rows0, hooks, outcomes, free, schedule, rows, results);
      RunsEnd(rows0, hooks, outcomes, free, schedule, old(runs), runs);
    }
  }
}
