/** First-mount hook cycles (internal/hooks/runner.go, internal/hooks/classify.go). */
module HookCycles {
  import opened Options
  import opened Sequences
  import opened Statuses

  const EXIT_RETRY := 75

  /** The error text of a hook row or result, one constructor a message. */
  datatype Reason =
    | NoReason
    | SpawnError(message: string)
    | TimedOut
    | TimeoutExhausted(attempts: int, maxRetries: int)
    | NoCode
    | TempFail
    | TempFailExhausted(attempts: int, maxRetries: int)
    | KilledBy(signal: int)
    | HardFail(code: int)
    | PriorHardFail
    | Refused(why: string)

  /** One row of the hooks table. */
  datatype HookRow = HookRow(
    status: HookStatus, attempts: int, lastExitCode: Option<int>, lastError: Option<Reason>)

  /** How one hook process can end. */
  datatype Outcome = CannotSpawn(error: string) | Timeout | NoExitCode | Exited(code: int)

  datatype RunResult = RunResult(
    hook: string, status: HookStatus, exitCode: Option<int>, attempts: int, error: Reason, timedOut: bool)

  datatype HooksConfig = HooksConfig(maxRetries: int, stopOnHardFail: bool, rerunOnFailure: bool)

  /** The outcome of every hook's process in one cycle. */
  type Outcomes = string -> Outcome

  type Rows = map<string, HookRow>

  /** The effect of one pass over the hooks: the rows it leaves, its results in hook order, and the
      hooks whose process it started, in hook order. */
  datatype Pass = Pass(rows: Rows, results: seq<RunResult>, ran: seq<string>)

  /** ClassifyExit, with the spawn-error branch of runOne: a row status and an error. */
  function ClassifyExit(outcome: Outcome, attempts: int, maxRetries: int): (HookStatus, Reason) {
    match outcome
    case CannotSpawn(error) => (HookFailed, SpawnError(error))
    case Timeout =>
      if attempts > maxRetries then (HookFailed, TimeoutExhausted(attempts, maxRetries))
      else (HookRetry, TimedOut)
    case NoExitCode => (HookFailed, NoCode)
    case Exited(code) =>
      if code == 0 then (HookSuccess, NoReason)
      else if code == EXIT_RETRY then
        if attempts > maxRetries then (HookFailed, TempFailExhausted(attempts, maxRetries))
        else (HookRetry, TempFail)
      else if code < 0 then (HookFailed, KilledBy(-code))
      else (HookFailed, HardFail(code))
  }

  /** How an exit is taken: success for zero alone, a retry for code 75 or a timeout while attempts are left,
      a hard failure for anything else, with the reason that fits. */
  lemma ClassifiedAs(outcome: Outcome, attempts: int, maxRetries: int)
    ensures var (status, reason) := ClassifyExit(outcome, attempts, maxRetries);
            && status in {HookSuccess, HookRetry, HookFailed}
            && (status == HookSuccess <==> outcome == Exited(0))
            && (status == HookRetry <==> (outcome == Exited(75) || outcome == Timeout) && attempts <= maxRetries)
            && (forall code :: outcome == Exited(code) && status == HookFailed ==>
                  reason == if code == 75 then TempFailExhausted(attempts, maxRetries)
                            else if code < 0 then KilledBy(-code) else HardFail(code))
            && (forall error :: outcome == CannotSpawn(error) ==> reason == SpawnError(error))
            && (outcome == NoExitCode ==> reason == NoCode)
            && (outcome == Timeout && status == HookFailed ==> reason == TimeoutExhausted(attempts, maxRetries))
            && (status == HookRetry ==> reason == if outcome == Timeout then TimedOut else TempFail)
            && (status == HookSuccess ==> reason == NoReason)
  {}

  /** ShouldRunHooks. */
  predicate ShouldRunHooks(status: HooksStatus, rerunOnFailure: bool) {
    match status
    case HooksSuccess => false
    case HooksFailed => rerunOnFailure
    case _ => true
  }

  predicate IsTerminal(status: HooksStatus) {
    status == HooksSuccess || status == HooksFailed
  }

  predicate HasStatus(results: seq<RunResult>, status: HookStatus) {
    exists i :: 0 <= i < |results| && results[i].status == status
  }

  /** The archive-level status that a list of hook results stands for. */
  function Aggregate(results: seq<RunResult>): HooksStatus {
    if HasStatus(results, HookFailed) then HooksFailed
    else if HasStatus(results, HookRetry) then HooksRetry
    else if HasStatus(results, HookSkipped) && !HasStatus(results, HookSuccess) then HooksFailed
    else HooksSuccess
  }

  /** AggregateStatus: one loop that sets four flags. */
  method AggregateStatus(results: seq<RunResult>) returns (status: HooksStatus)
    ensures status == Aggregate(results)
  {
    if |results| == 0 {
      return HooksSuccess;
    }
    var hasFailed, hasRetry, hasSuccess, hasSkipped := false, false, false, false;
    for i := 0 to |results|
      invariant hasFailed == HasStatus(results[..i], HookFailed)
      invariant hasRetry == HasStatus(results[..i], HookRetry)
      invariant hasSuccess == HasStatus(results[..i], HookSuccess)
      invariant hasSkipped == HasStatus(results[..i], HookSkipped)
    {
      ghost var before := results[..i];
      assert results[..i + 1] == before + [results[i]];
      HasStatusAppend(before, results[i]);
      match results[i].status
      case HookFailed => hasFailed := true;
      case HookRetry => hasRetry := true;
      case HookSuccess => hasSuccess := true;
      case HookSkipped => hasSkipped := true;
      case _ =>
    }
    assert results[..|results|] == results;
    if hasFailed {
      return HooksFailed;
    }
    if hasRetry {
      return HooksRetry;
    }
    if hasSkipped && !hasSuccess {
      return HooksFailed;
    }
    return HooksSuccess;
  }

  lemma HasStatusAppend(results: seq<RunResult>, r: RunResult)
    ensures forall s :: HasStatus(results + [r], s) <==> HasStatus(results, s) || r.status == s
  {
    forall s ensures HasStatus(results + [r], s) <==> HasStatus(results, s) || r.status == s {
      assert (results + [r])[|results|] == r;
      forall i | 0 <= i < |results| ensures (results + [r])[i] == results[i] {}
    }
  }

  // ---- one hook ----

  function NextAttempt(rows: Rows, hook: string): int {
    if hook in rows then rows[hook].attempts + 1 else 1
  }

  /** The row while the process runs. */
  function RunningRow(rows: Rows, hook: string): HookRow {
    if hook in rows then rows[hook].(status := HookRunning, attempts := NextAttempt(rows, hook))
    else HookRow(HookRunning, 1, None, None)
  }

  /** The row once the process has ended: a missing exit code keeps the stored one. */
  function EndedRow(running: HookRow, outcome: Outcome, maxRetries: int): HookRow {
    var (status, error) := ClassifyExit(outcome, running.attempts, maxRetries);
    HookRow(status, running.attempts,
            if outcome.Exited? then Some(outcome.code) else running.lastExitCode, Some(error))
  }

  function RunResultOf(hook: string, attempts: int, outcome: Outcome, maxRetries: int): RunResult {
    var (status, error) := ClassifyExit(outcome, attempts, maxRetries);
    RunResult(hook, status, if outcome.Exited? then Some(outcome.code) else None, attempts, error,
              outcome.Timeout?)
  }

  /** A success or skipped row answers for its hook without a process. */
  predicate Settled(rows: Rows, hook: string) {
    hook in rows && (rows[hook].status == HookSuccess || rows[hook].status == HookSkipped)
  }

  function SettledResult(rows: Rows, hook: string): RunResult
    requires Settled(rows, hook)
  {
    var row := rows[hook];
    if row.status == HookSuccess then RunResult(hook, HookSuccess, row.lastExitCode, row.attempts, NoReason, false)
    else RunResult(hook, HookSkipped, None, row.attempts, row.lastError.GetOr(NoReason), false)
  }

  function SkippedRow(rows: Rows, hook: string): HookRow {
    if hook in rows then rows[hook].(status := HookSkipped, lastError := Some(PriorHardFail))
    else HookRow(HookSkipped, 0, None, Some(PriorHardFail))
  }

  /** One turn of the sequential loop: the row map, the result, the process started if any, and
      whether the rest of the pass is stopped. */
  datatype Turn = Turn(rows: Rows, result: RunResult, ran: seq<string>, stopped: bool)

  function TurnOf(rows: Rows, hook: string, outcomes: Outcomes, cfg: HooksConfig, stopped: bool): Turn {
    if stopped then
      Turn(rows[hook := SkippedRow(rows, hook)],
           RunResult(hook, HookSkipped, None, 0, PriorHardFail, false), [], true)
    else if Settled(rows, hook) then Turn(rows, SettledResult(rows, hook), [], false)
    else
      var running := RunningRow(rows, hook);
      var ended := EndedRow(running, outcomes(hook), cfg.maxRetries);
      Turn(rows[hook := ended], RunResultOf(hook, running.attempts, outcomes(hook), cfg.maxRetries), [hook],
           ended.status == HookFailed && cfg.stopOnHardFail)
  }

  /** The pass from the first hook on; stopped holds after a hard failure when such a failure stops
      the cycle. */
  function RunFrom(rows: Rows, hooks: seq<string>, outcomes: Outcomes, cfg: HooksConfig, stopped: bool): Pass
    decreases |hooks|
  {
    if hooks == [] then Pass(rows, [], [])
    else
      var turn := TurnOf(rows, hooks[0], outcomes, cfg, stopped);
      Prepend(turn.result, turn.ran, RunFrom(turn.rows, hooks[1..], outcomes, cfg, turn.stopped))
  }

  function Prepend(result: RunResult, ran: seq<string>, pass: Pass): Pass {
    Pass(pass.rows, [result] + pass.results, ran + pass.ran)
  }

  /** A pass seen as what its first turns produced, followed by the rest. */
  predicate Splits(pass: Pass, results: seq<RunResult>, ran: seq<string>, rest: Pass) {
    pass == Pass(rest.rows, results + rest.results, ran + rest.ran)
  }

  lemma SplitsStep(pass: Pass, results: seq<RunResult>, ran: seq<string>, rows: Rows,
                   hooks: seq<string>, i: nat, outcomes: Outcomes, cfg: HooksConfig, stopped: bool)
    requires i < |hooks|
    requires Splits(pass, results, ran, RunFrom(rows, hooks[i..], outcomes, cfg, stopped))
    ensures var turn := TurnOf(rows, hooks[i], outcomes, cfg, stopped);
            Splits(pass, results + [turn.result], ran + turn.ran,
                   RunFrom(turn.rows, hooks[i + 1..], outcomes, cfg, turn.stopped))
  {
    assert hooks[i..][0] == hooks[i] && hooks[i..][1..] == hooks[i + 1..];
    var turn := TurnOf(rows, hooks[i], outcomes, cfg, stopped);
    var rest := RunFrom(turn.rows, hooks[i + 1..], outcomes, cfg, turn.stopped);
    assert results + ([turn.result] + rest.results) == (results + [turn.result]) + rest.results;
    assert ran + (turn.ran + rest.ran) == (ran + turn.ran) + rest.ran;
  }

  function Lookup(rows: Rows, hook: string): Option<HookRow> {
    if hook in rows then Some(rows[hook]) else None
  }

  lemma SameLookups(a: Rows, b: Rows)
    requires forall h :: Lookup(a, h) == Lookup(b, h)
    ensures a == b
  {
    forall h ensures h in a <==> h in b {
      assert Lookup(a, h) == Lookup(b, h);
    }
    forall h | h in a ensures a[h] == b[h] {
      assert Lookup(a, h) == Lookup(b, h);
    }
  }

  /** What each hook contributes when nothing stops the pass: its own row and outcome alone decide. */
  function OwnResult(rows: Rows, hook: string, outcomes: Outcomes, cfg: HooksConfig): RunResult {
    if Settled(rows, hook) then SettledResult(rows, hook)
    else RunResultOf(hook, NextAttempt(rows, hook), outcomes(hook), cfg.maxRetries)
  }

  function OwnRow(rows: Rows, hook: string, outcomes: Outcomes, cfg: HooksConfig): HookRow {
    if Settled(rows, hook) then rows[hook]
    else EndedRow(RunningRow(rows, hook), outcomes(hook), cfg.maxRetries)
  }

  /** The row of a hook that is not reached: skipped for the failure before it, its attempts as they were. */
  lemma SkippedAs(rows: Rows, hook: string)
    ensures var r := SkippedRow(rows, hook);
            && r.status == HookSkipped && r.lastError == Some(PriorHardFail)
            && r.attempts == (if hook in rows then rows[hook].attempts else 0)
            && r.lastExitCode == (if hook in rows then rows[hook].lastExitCode else None)
  {}

  /** A settled hook answers by its row, and never for a timeout. */
  lemma SettledAs(rows: Rows, hook: string)
    requires Settled(rows, hook)
    ensures var row := rows[hook];
            SettledResult(rows, hook) ==
              RunResult(hook, row.status, if row.status == HookSuccess then row.lastExitCode else None, row.attempts,
                        if row.status == HookSuccess then NoReason else row.lastError.GetOr(NoReason), false)
  {}

  /** The row and the result of a hook that is executed: one attempt more, its exit as it was taken, and the
      exit code that was seen last. */
  lemma ExecutedAs(rows: Rows, hook: string, outcomes: Outcomes, cfg: HooksConfig)
    requires !Settled(rows, hook)
    ensures var attempts := if hook in rows then rows[hook].attempts + 1 else 1;
            var (status, reason) := ClassifyExit(outcomes(hook), attempts, cfg.maxRetries);
            var code := if outcomes(hook).Exited? then Some(outcomes(hook).code) else None;
            var seen := if hook in rows then rows[hook].lastExitCode else None;
            && OwnRow(rows, hook, outcomes, cfg) ==
               HookRow(status, attempts, if code.Some? then code else seen, Some(reason))
            && OwnResult(rows, hook, outcomes, cfg) ==
               RunResult(hook, status, code, attempts, reason, outcomes(hook) == Timeout)
  {}

  /** Without a stop the pass is pointwise: no hook sees another one's outcome. */
  lemma {:induction false} UnstoppedResults(rows: Rows, hooks: seq<string>, outcomes: Outcomes, cfg: HooksConfig)
    requires NoDuplicates(hooks) && !cfg.stopOnHardFail
    ensures var results := RunFrom(rows, hooks, outcomes, cfg, false).results;
            && |results| == |hooks|
            && forall i :: 0 <= i < |hooks| ==> results[i] == OwnResult(rows, hooks[i], outcomes, cfg)
    decreases |hooks|
  {
    if hooks != [] {
      var hook, rest := hooks[0], hooks[1..];
      var rows' := rows[hook := OwnRow(rows, hook, outcomes, cfg)];
      assert Settled(rows, hook) ==> rows' == rows;
      UnstoppedResults(rows', rest, outcomes, cfg);
      forall i | 1 <= i < |hooks|
        ensures OwnResult(rows', rest[i - 1], outcomes, cfg) == OwnResult(rows, hooks[i], outcomes, cfg)
      {
        assert rest[i - 1] == hooks[i] != hook;
      }
    }
  }

  lemma {:induction false} UnstoppedRows(rows: Rows, hooks: seq<string>, outcomes: Outcomes, cfg: HooksConfig)
    requires NoDuplicates(hooks) && !cfg.stopOnHardFail
    ensures var rows' := RunFrom(rows, hooks, outcomes, cfg, false).rows;
            forall h :: Lookup(rows', h) ==
                        if h in hooks then Some(OwnRow(rows, h, outcomes, cfg)) else Lookup(rows, h)
    decreases |hooks|
  {
    if hooks != [] {
      var hook, rest := hooks[0], hooks[1..];
      var rows' := rows[hook := OwnRow(rows, hook, outcomes, cfg)];
      assert Settled(rows, hook) ==> rows' == rows;
      UnstoppedRows(rows', rest, outcomes, cfg);
      assert hook !in rest;
      assert forall h :: h in hooks <==> h == hook || h in rest;
      assert forall h :: h != hook ==> OwnRow(rows', h, outcomes, cfg) == OwnRow(rows, h, outcomes, cfg);
    }
  }

  lemma {:induction false} UnstoppedRan(rows: Rows, hooks: seq<string>, outcomes: Outcomes, cfg: HooksConfig)
    requires NoDuplicates(hooks) && !cfg.stopOnHardFail
    ensures var ran := RunFrom(rows, hooks, outcomes, cfg, false).ran;
            forall h :: multiset(ran)[h] == if h in hooks && !Settled(rows, h) then 1 else 0
    decreases |hooks|
  {
    if hooks != [] {
      var hook, rest := hooks[0], hooks[1..];
      var rows' := rows[hook := OwnRow(rows, hook, outcomes, cfg)];
      assert Settled(rows, hook) ==> rows' == rows;
      UnstoppedRan(rows', rest, outcomes, cfg);
      assert hook !in rest;
      assert forall h :: h in hooks <==> h == hook || h in rest;
      assert forall h :: h != hook ==> Settled(rows', h) == Settled(rows, h);
    }
  }

  // ---- every hook of a pass, stopped or not ----

  /** The hook is executed and fails hard when the pass comes to it. */
  predicate FailsHard(rows: Rows, hook: string, outcomes: Outcomes, cfg: HooksConfig) {
    !Settled(rows, hook) && OwnRow(rows, hook, outcomes, cfg).status == HookFailed
  }

  /** A hard failure before the j-th hook stops the pass. */
  predicate Halted(rows: Rows, hooks: seq<string>, outcomes: Outcomes, cfg: HooksConfig, j: nat)
    requires j <= |hooks|
  {
    cfg.stopOnHardFail && exists i :: 0 <= i < j && FailsHard(rows, hooks[i], outcomes, cfg)
  }

  /** The result of a hook that is not reached. */
  function StoppedResult(hook: string): RunResult {
    RunResult(hook, HookSkipped, None, 0, PriorHardFail, false)
  }

  /** What a pass does at its j-th hook: skipped when the pass was halted before, otherwise decided by
      the hook's own row and outcome. */
  ghost predicate At(rows: Rows, hooks: seq<string>, outcomes: Outcomes, cfg: HooksConfig, pass: Pass, j: nat,
                     halted: bool)
    requires j < |hooks|
  {
    && hooks[j] in pass.rows
    && pass.rows[hooks[j]] == (if halted then SkippedRow(rows, hooks[j]) else OwnRow(rows, hooks[j], outcomes, cfg))
    && multiset(pass.ran)[hooks[j]] == (if halted || Settled(rows, hooks[j]) then 0 else 1)
    && j < |pass.results|
    && (!halted ==> pass.results[j] == OwnResult(rows, hooks[j], outcomes, cfg))
    && (halted ==> pass.results[j] == StoppedResult(hooks[j]))
  }

  /** A hook that is not listed is not run, and its row stays. */
  lemma {:induction false} UnlistedStays(rows: Rows, hooks: seq<string>, outcomes: Outcomes, cfg: HooksConfig,
                                         stopped: bool, hook: string)
    requires hook !in hooks
    ensures var pass := RunFrom(rows, hooks, outcomes, cfg, stopped);
            Lookup(pass.rows, hook) == Lookup(rows, hook) && multiset(pass.ran)[hook] == 0
    decreases |hooks|
  {
    if hooks != [] {
      var turn := TurnOf(rows, hooks[0], outcomes, cfg, stopped);
      assert Lookup(turn.rows, hook) == Lookup(rows, hook) && hook !in turn.ran;
      UnlistedStays(turn.rows, hooks[1..], outcomes, cfg, turn.stopped, hook);
    }
  }

  /** Another hook's row does not matter to a hook. */
  lemma OwnIsOwn(rows: Rows, rows': Rows, hook: string, outcomes: Outcomes, cfg: HooksConfig)
    requires Lookup(rows', hook) == Lookup(rows, hook)
    ensures OwnRow(rows', hook, outcomes, cfg) == OwnRow(rows, hook, outcomes, cfg)
    ensures OwnResult(rows', hook, outcomes, cfg) == OwnResult(rows, hook, outcomes, cfg)
    ensures Settled(rows', hook) == Settled(rows, hook) && SkippedRow(rows', hook) == SkippedRow(rows, hook)
    ensures FailsHard(rows', hook, outcomes, cfg) == FailsHard(rows, hook, outcomes, cfg)
  {}

  /** The first turn: what it does to its own hook, and whether it halts the pass. */
  lemma FirstTurn(rows: Rows, hook: string, outcomes: Outcomes, cfg: HooksConfig, stopped: bool)
    ensures var turn := TurnOf(rows, hook, outcomes, cfg, stopped);
            && hook in turn.rows
            && turn.rows[hook] == (if stopped then SkippedRow(rows, hook) else OwnRow(rows, hook, outcomes, cfg))
            && (forall h :: h != hook ==> Lookup(turn.rows, h) == Lookup(rows, h))
            && turn.ran == (if stopped || Settled(rows, hook) then [] else [hook])
            && (!stopped ==> turn.result == OwnResult(rows, hook, outcomes, cfg))
            && (stopped ==> turn.result == StoppedResult(hook))
            && turn.stopped == (stopped || (cfg.stopOnHardFail && FailsHard(rows, hook, outcomes, cfg)))
  {}

  lemma {:induction false} PassFrom(rows: Rows, hooks: seq<string>, outcomes: Outcomes, cfg: HooksConfig,
                                    stopped: bool, j: nat)
    requires NoDuplicates(hooks) && j < |hooks|
    ensures At(rows, hooks, outcomes, cfg, RunFrom(rows, hooks, outcomes, cfg, stopped), j,
               stopped || Halted(rows, hooks, outcomes, cfg, j))
    decreases |hooks|
  {
    var turn := TurnOf(rows, hooks[0], outcomes, cfg, stopped);
    var rest := RunFrom(turn.rows, hooks[1..], outcomes, cfg, turn.stopped);
    if j == 0 {
      UnlistedStays(turn.rows, hooks[1..], outcomes, cfg, turn.stopped, hooks[0]);
      FirstAt(rows, hooks, outcomes, cfg, stopped, rest);
    } else {
      PassFrom(turn.rows, hooks[1..], outcomes, cfg, turn.stopped, j - 1);
      LaterAt(rows, hooks, outcomes, cfg, stopped, rest, j);
    }
  }

  lemma FirstAt(rows: Rows, hooks: seq<string>, outcomes: Outcomes, cfg: HooksConfig, stopped: bool, rest: Pass)
    requires hooks != []
    requires var turn := TurnOf(rows, hooks[0], outcomes, cfg, stopped);
             Lookup(rest.rows, hooks[0]) == Lookup(turn.rows, hooks[0]) && multiset(rest.ran)[hooks[0]] == 0
    ensures var turn := TurnOf(rows, hooks[0], outcomes, cfg, stopped);
            At(rows, hooks, outcomes, cfg, Prepend(turn.result, turn.ran, rest), 0, stopped)
  {
    FirstTurn(rows, hooks[0], outcomes, cfg, stopped);
  }

  lemma LaterAt(rows: Rows, hooks: seq<string>, outcomes: Outcomes, cfg: HooksConfig, stopped: bool, rest: Pass, j: nat)
    requires NoDuplicates(hooks) && 0 < j < |hooks|
    requires var turn := TurnOf(rows, hooks[0], outcomes, cfg, stopped);
             At(turn.rows, hooks[1..], outcomes, cfg, rest, j - 1,
                turn.stopped || Halted(turn.rows, hooks[1..], outcomes, cfg, j - 1))
    ensures var turn := TurnOf(rows, hooks[0], outcomes, cfg, stopped);
            At(rows, hooks, outcomes, cfg, Prepend(turn.result, turn.ran, rest), j,
               stopped || Halted(rows, hooks, outcomes, cfg, j))
  {
    var turn := TurnOf(rows, hooks[0], outcomes, cfg, stopped);
    FirstTurn(rows, hooks[0], outcomes, cfg, stopped);
    HaltedTail(rows, turn.rows, hooks, outcomes, cfg, j);
    PrependAt(rows, turn.rows, hooks, outcomes, cfg, turn, rest, j,
              turn.stopped || Halted(turn.rows, hooks[1..], outcomes, cfg, j - 1));
  }

  /** Halting before the j-th hook: at the first, or after it. */
  lemma HaltedTail(rows: Rows, rows': Rows, hooks: seq<string>, outcomes: Outcomes, cfg: HooksConfig, j: nat)
    requires NoDuplicates(hooks) && 0 < j < |hooks|
    requires forall h :: h != hooks[0] ==> Lookup(rows', h) == Lookup(rows, h)
    ensures Halted(rows, hooks, outcomes, cfg, j) <==>
              || (cfg.stopOnHardFail && FailsHard(rows, hooks[0], outcomes, cfg))
              || Halted(rows', hooks[1..], outcomes, cfg, j - 1)
  {
    forall i | 1 <= i < j
      ensures FailsHard(rows', hooks[1..][i - 1], outcomes, cfg) == FailsHard(rows, hooks[i], outcomes, cfg)
    {
      OwnIsOwn(rows, rows', hooks[i], outcomes, cfg);
    }
    if i :| 0 <= i < j && FailsHard(rows, hooks[i], outcomes, cfg) {
      assert i > 0 ==> FailsHard(rows', hooks[1..][i - 1], outcomes, cfg);
    }
    if i :| 0 <= i < j - 1 && FailsHard(rows', hooks[1..][i], outcomes, cfg) {
      assert FailsHard(rows, hooks[i + 1], outcomes, cfg);
    }
  }

  lemma PrependAt(rows: Rows, rows': Rows, hooks: seq<string>, outcomes: Outcomes, cfg: HooksConfig, turn: Turn,
                  rest: Pass, j: nat, halted: bool)
    requires NoDuplicates(hooks) && 0 < j < |hooks| && At(rows', hooks[1..], outcomes, cfg, rest, j - 1, halted)
    requires Lookup(rows', hooks[j]) == Lookup(rows, hooks[j]) && hooks[j] !in turn.ran
    ensures At(rows, hooks, outcomes, cfg, Prepend(turn.result, turn.ran, rest), j, halted)
  {
    OwnIsOwn(rows, rows', hooks[j], outcomes, cfg);
    assert hooks[1..][j - 1] == hooks[j];
    assert ([turn.result] + rest.results)[j] == rest.results[j - 1];
    assert multiset(turn.ran + rest.ran) == multiset(turn.ran) + multiset(rest.ran);
  }

  /** A pass over any hooks: each is skipped if and only if stopping is on and an earlier one was executed
      and failed hard; every other hook ends as its own row and outcome say. */
  lemma PassAt(rows: Rows, hooks: seq<string>, outcomes: Outcomes, cfg: HooksConfig, j: nat)
    requires NoDuplicates(hooks) && j < |hooks|
    ensures At(rows, hooks, outcomes, cfg, RunFrom(rows, hooks, outcomes, cfg, false), j,
               Halted(rows, hooks, outcomes, cfg, j))
  {
    PassFrom(rows, hooks, outcomes, cfg, false, j);
  }

  // ---- sequential and parallel passes agree ----

  /** Stopping at a hard failure either changes nothing, or both passes hold a hard failure. */
  lemma {:induction false} StopOrSame(rows: Rows, hooks: seq<string>, outcomes: Outcomes, cfg: HooksConfig)
    ensures var stop := RunFrom(rows, hooks, outcomes, cfg, false);
            var free := RunFrom(rows, hooks, outcomes, cfg.(stopOnHardFail := false), false);
            || stop == free
            || (HasStatus(stop.results, HookFailed) && HasStatus(free.results, HookFailed))
    decreases |hooks|
  {
    if hooks != [] {
      var hook := hooks[0];
      var free := cfg.(stopOnHardFail := false);
      if Settled(rows, hook) {
        StopOrSame(rows, hooks[1..], outcomes, cfg);
        PrependStatus(SettledResult(rows, hook), RunFrom(rows, hooks[1..], outcomes, cfg, false).results);
        PrependStatus(SettledResult(rows, hook), RunFrom(rows, hooks[1..], outcomes, free, false).results);
      } else {
        var ended := OwnRow(rows, hook, outcomes, cfg);
        var result := OwnResult(rows, hook, outcomes, cfg);
        var stopped := ended.status == HookFailed && cfg.stopOnHardFail;
        if !stopped {
          StopOrSame(rows[hook := ended], hooks[1..], outcomes, cfg);
        }
        PrependStatus(result, RunFrom(rows[hook := ended], hooks[1..], outcomes, cfg, stopped).results);
        PrependStatus(result, RunFrom(rows[hook := ended], hooks[1..], outcomes, free, false).results);
      }
    }
  }

  lemma PrependStatus(r: RunResult, results: seq<RunResult>)
    ensures forall s :: HasStatus([r] + results, s) <==> r.status == s || HasStatus(results, s)
  {
    forall s ensures HasStatus([r] + results, s) <==> r.status == s || HasStatus(results, s) {
      assert ([r] + results)[0] == r;
      forall i | 0 <= i < |results| ensures ([r] + results)[i + 1] == results[i] {}
    }
  }

  /** The archive-level status does not depend on whether a hard failure stops the pass. */
  lemma StopKeepsAggregate(rows: Rows, hooks: seq<string>, outcomes: Outcomes, cfg: HooksConfig)
    ensures Aggregate(RunFrom(rows, hooks, outcomes, cfg, false).results) ==
            Aggregate(RunFrom(rows, hooks, outcomes, cfg.(stopOnHardFail := false), false).results)
  {
    StopOrSame(rows, hooks, outcomes, cfg);
  }

  // ---- settled rows ----

  /** A hook whose row is success or skipped is not executed, and its row stays one of the two. */
  lemma {:induction false} SettledIsNotRun(
      rows: Rows, hooks: seq<string>, outcomes: Outcomes, cfg: HooksConfig, stopped: bool, hook: string)
    requires Settled(rows, hook)
    ensures var pass := RunFrom(rows, hooks, outcomes, cfg, stopped);
            hook !in pass.ran && Settled(pass.rows, hook)
    ensures var pass := RunFrom(rows, hooks, outcomes, cfg, stopped);
            rows[hook].status == HookSkipped ==> pass.rows[hook].status == HookSkipped
    decreases |hooks|
  {
    if hooks != [] {
      var h := hooks[0];
      if stopped {
        SettledIsNotRun(rows[h := SkippedRow(rows, h)], hooks[1..], outcomes, cfg, true, hook);
      } else if Settled(rows, h) {
        SettledIsNotRun(rows, hooks[1..], outcomes, cfg, false, hook);
      } else {
        var ended := OwnRow(rows, h, outcomes, cfg);
        SettledIsNotRun(rows[h := ended], hooks[1..], outcomes, cfg,
                        ended.status == HookFailed && cfg.stopOnHardFail, hook);
      }
    }
  }
}
