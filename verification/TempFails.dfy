/** Hooks that always ask for a retry (internal/hooks/runner.go, internal/service/tick.go): how often the
    automatic cycles execute them, with failures run again or not. */
module TempFails {
  import opened HookCycles
  import opened HookHistory
  import opened HookRunner
  import opened Options
  import opened Sequences
  import opened Statuses

  // ---- hooks that always ask for a retry ----

  ghost predicate AlwaysTempFail(outs: seq<Outcomes>, hooks: seq<string>) {
    forall i, h :: 0 <= i < |outs| && h in hooks ==> outs[i](h) == Exited(EXIT_RETRY)
  }

  /** The hook always exits with 75. */
  predicate AlwaysAsks(outs: seq<Outcomes>, hook: string) {
    forall i :: 0 <= i < |outs| ==> outs[i](hook) == Exited(EXIT_RETRY)
  }

  ghost predicate TriedExactly(rows: Rows, hooks: seq<string>, k: nat) {
    forall h :: h in hooks ==> !Settled(rows, h) && NextAttempt(rows, h) == k + 1
  }

  lemma {:induction false} StoppedRunsNothing(rows: Rows, hooks: seq<string>, outcomes: Outcomes, cfg: HooksConfig)
    ensures RunFrom(rows, hooks, outcomes, cfg, true).ran == []
    decreases |hooks|
  {
    if hooks != [] {
      StoppedRunsNothing(TurnOf(rows, hooks[0], outcomes, cfg, true).rows, hooks[1..], outcomes, cfg);
    }
  }

  lemma TempFailUnfailed(rows: Rows, hooks: seq<string>, outcomes: Outcomes, cfg: HooksConfig, k: nat)
    requires NoDuplicates(hooks) && TriedExactly(rows, hooks, k) && k < cfg.maxRetries && !cfg.stopOnHardFail
    requires forall h :: h in hooks ==> outcomes(h) == Exited(EXIT_RETRY)
    ensures var results := RunFrom(rows, hooks, outcomes, cfg, false).results;
            |results| == |hooks| && forall i :: 0 <= i < |results| ==> results[i].status == HookRetry
  {
    UnstoppedResults(rows, hooks, outcomes, cfg);
  }

  lemma PointwiseTempFail(rows: Rows, hooks: seq<string>, outcomes: Outcomes, cfg: HooksConfig, pass: Pass, k: nat)
    requires Pointwise(rows, hooks, outcomes, cfg, pass) && hooks != [] && TriedExactly(rows, hooks, k)
    requires forall h :: h in hooks ==> outcomes(h) == Exited(EXIT_RETRY)
    requires k < cfg.maxRetries
    ensures HasStatus(pass.results, HookRetry) && !HasStatus(pass.results, HookFailed)
    ensures TriedExactly(pass.rows, hooks, k + 1)
    ensures forall h :: h in hooks ==> multiset(pass.ran)[h] == 1
  {
    assert pass.results[0] == OwnResult(rows, hooks[0], outcomes, cfg);
    forall i | 0 <= i < |pass.results| ensures pass.results[i].status == HookRetry {
      assert pass.results[i] == OwnResult(rows, hooks[i], outcomes, cfg);
    }
    forall h | h in hooks ensures !Settled(pass.rows, h) && NextAttempt(pass.rows, h) == k + 2 {
      OwnRowAttempts(rows, pass.rows, h, outcomes, cfg);
    }
  }

  /** Below the limit every hook runs once and is to be retried. */
  lemma TempFailPass(rows: Rows, hooks: seq<string>, outcomes: Outcomes, cfg: HooksConfig, k: nat)
    requires NoDuplicates(hooks) && hooks != [] && TriedExactly(rows, hooks, k)
    requires forall h :: h in hooks ==> outcomes(h) == Exited(EXIT_RETRY)
    requires k < cfg.maxRetries
    ensures var pass := RunFrom(rows, hooks, outcomes, cfg, false);
            && Aggregate(pass.results) == HooksRetry
            && TriedExactly(pass.rows, hooks, k + 1)
            && forall h :: h in hooks ==> multiset(pass.ran)[h] == 1
  {
    TempFailUnfailed(rows, hooks, outcomes, cfg.(stopOnHardFail := false), k);
    UnfailedPass(rows, hooks, outcomes, cfg);
    PointwiseTempFail(rows, hooks, outcomes, cfg, RunFrom(rows, hooks, outcomes, cfg, false), k);
  }

  /** At the limit the first hook fails hard, and a stop keeps the others from running. */
  lemma ExhaustedPass(rows: Rows, hooks: seq<string>, outcomes: Outcomes, cfg: HooksConfig)
    requires NoDuplicates(hooks) && hooks != [] && cfg.maxRetries >= 0 && TriedExactly(rows, hooks, cfg.maxRetries)
    requires forall h :: h in hooks ==> outcomes(h) == Exited(EXIT_RETRY)
    ensures var pass := RunFrom(rows, hooks, outcomes, cfg, false);
            && Aggregate(pass.results) == HooksFailed
            && forall h :: h in hooks ==>
                 multiset(pass.ran)[h] == if h == hooks[0] || !cfg.stopOnHardFail then 1 else 0
  {
    var pass := RunFrom(rows, hooks, outcomes, cfg, false);
    var turn := TurnOf(rows, hooks[0], outcomes, cfg, false);
    assert turn.result.status == HookFailed && pass.results[0] == turn.result;
    if cfg.stopOnHardFail {
      StoppedRunsNothing(turn.rows, hooks[1..], outcomes, cfg);
      assert pass.ran == [hooks[0]];
    } else {
      UnstoppedRan(rows, hooks, outcomes, cfg);
    }
  }

  // ---- one hook that always asks for a retry, beside any others ----

  /** What is seen of a hook in one cycle: the status that the cycle ends in, and whether it was halted
      before the hook. */
  datatype Seen = Seen(status: HooksStatus, halted: bool)

  function SeenIn(t: Table, hooks: seq<string>, outcomes: Outcomes, cfg: HooksConfig, j: nat): Seen
    requires j < |hooks|
  {
    Seen(TableCycle(t, hooks, outcomes, cfg).status, Halted(Seeded(t.rows, hooks), hooks, outcomes, cfg, j))
  }

  /** The cycles one after the other. */
  function Trace(t: Table, hooks: seq<string>, outs: seq<Outcomes>, cfg: HooksConfig, j: nat): (trace: seq<Seen>)
    requires j < |hooks|
    ensures |trace| == |outs|
    decreases |outs|
  {
    if outs == [] then []
    else [SeenIn(t, hooks, outs[0], cfg, j)] + Trace(TableCycle(t, hooks, outs[0], cfg), hooks, outs[1..], cfg, j)
  }

  /** The hook gets its last attempt: n cycles ask for a retry as a whole, and the one after them is not
      halted before the hook. */
  predicate GetsLast(trace: seq<Seen>, n: nat) {
    && n < |trace|
    && (forall i :: 0 <= i < n ==> trace[i].status == HooksRetry)
    && !trace[n].halted
  }

  /** A cycle that ends in retry has run the hook, unless it was settled. */
  lemma RetryRuns(rows: Rows, hooks: seq<string>, outcomes: Outcomes, cfg: HooksConfig, j: nat)
    requires NoDuplicates(hooks) && j < |hooks|
    requires Aggregate(RunFrom(rows, hooks, outcomes, cfg, false).results) == HooksRetry
    ensures var pass := RunFrom(rows, hooks, outcomes, cfg, false);
            && multiset(pass.ran)[hooks[j]] == (if Settled(rows, hooks[j]) then 0 else 1)
            && Lookup(pass.rows, hooks[j]) == Some(OwnRow(rows, hooks[j], outcomes, cfg))
            && j < |pass.results| && pass.results[j] == OwnResult(rows, hooks[j], outcomes, cfg)
            && OwnResult(rows, hooks[j], outcomes, cfg).status != HookFailed
  {
    AggregateEnds(RunFrom(rows, hooks, outcomes, cfg, false).results);
    UnfailedPass(rows, hooks, outcomes, cfg);
  }

  /** The row and the result of a hook that asks for a retry once more. */
  lemma TempFailOnce(rows: Rows, hook: string, outcomes: Outcomes, cfg: HooksConfig, k: nat)
    requires !Settled(rows, hook) && NextAttempt(rows, hook) == k + 1 && outcomes(hook) == Exited(EXIT_RETRY)
    ensures OwnResult(rows, hook, outcomes, cfg).status == if k < cfg.maxRetries then HookRetry else HookFailed
    ensures var r := OwnRow(rows, hook, outcomes, cfg);
            r.attempts == k + 1 && r.status == if k < cfg.maxRetries then HookRetry else HookFailed
  {}

  /** The runs of one hook over a cycle. */
  lemma CycleRuns(t: Table, hooks: seq<string>, outcomes: Outcomes, cfg: HooksConfig, j: nat)
    requires NoDuplicates(hooks) && j < |hooks| && !Settled(t.rows, hooks[j])
    ensures multiset(TableCycle(t, hooks, outcomes, cfg).runs)[hooks[j]] ==
            multiset(t.runs)[hooks[j]] + if Halted(Seeded(t.rows, hooks), hooks, outcomes, cfg, j) then 0 else 1
  {
    var rows := Seeded(t.rows, hooks);
    SeededNextAttempt(t.rows, hooks);
    assert hooks[j] in hooks;
    PassAt(rows, hooks, outcomes, cfg, j);
    var pass := RunFrom(rows, hooks, outcomes, cfg, false);
    assert multiset(t.runs + pass.ran) == multiset(t.runs) + multiset(pass.ran);
  }

  predicate RanAtMost(before: seq<string>, after: seq<string>, hook: string, n: int) {
    multiset(before)[hook] <= multiset(after)[hook] <= multiset(before)[hook] + n
  }

  predicate RanExactly(before: seq<string>, after: seq<string>, hook: string, n: int) {
    multiset(after)[hook] == multiset(before)[hook] + n
  }

  /** A cycle below the limit that asks for a retry: one run, one attempt more. */
  lemma RetryCycle(t: Table, hooks: seq<string>, outcomes: Outcomes, cfg: HooksConfig, j: nat, k: nat)
    requires NoDuplicates(hooks) && j < |hooks| && outcomes(hooks[j]) == Exited(EXIT_RETRY)
    requires !Settled(t.rows, hooks[j]) && NextAttempt(t.rows, hooks[j]) == k + 1
    requires TableCycle(t, hooks, outcomes, cfg).status == HooksRetry
    ensures k < cfg.maxRetries
    ensures var next := TableCycle(t, hooks, outcomes, cfg);
            && !Settled(next.rows, hooks[j]) && NextAttempt(next.rows, hooks[j]) == k + 2
            && RanExactly(t.runs, next.runs, hooks[j], 1)
  {
    var rows := Seeded(t.rows, hooks);
    SeededNextAttempt(t.rows, hooks);
    assert hooks[j] in hooks;
    RetryRuns(rows, hooks, outcomes, cfg, j);
    TempFailOnce(rows, hooks[j], outcomes, cfg, k);
    var pass := RunFrom(rows, hooks, outcomes, cfg, false);
    assert multiset(t.runs + pass.ran) == multiset(t.runs) + multiset(pass.ran);
  }

  lemma TraceGoesOn(t: Table, hooks: seq<string>, outs: seq<Outcomes>, cfg: HooksConfig, j: nat, next: Table)
    requires j < |hooks| && outs != [] && next == TableCycle(t, hooks, outs[0], cfg)
    ensures Trace(t, hooks, outs, cfg, j) ==
            [SeenIn(t, hooks, outs[0], cfg, j)] + Trace(next, hooks, outs[1..], cfg, j)
    ensures SeenIn(t, hooks, outs[0], cfg, j).status == next.status
  {}

  lemma GetsLastGoesOn(trace: seq<Seen>, seen: Seen, rest: seq<Seen>, n: nat)
    requires trace == [seen] + rest
    ensures n > 0 ==> (GetsLast(trace, n) <==> seen.status == HooksRetry && GetsLast(rest, n - 1))
    ensures n == 0 ==> (GetsLast(trace, n) <==> !seen.halted)
  {
    assert trace[0] == seen;
    assert forall i :: 0 <= i < |rest| ==> trace[i + 1] == rest[i];
    if n > 0 && seen.status == HooksRetry && GetsLast(rest, n - 1) {
      forall i | 0 <= i < n ensures trace[i].status == HooksRetry {
        assert i > 0 ==> trace[i] == rest[i - 1];
      }
      assert trace[n] == rest[n - 1];
    }
    if n > 0 && GetsLast(trace, n) {
      assert rest[n - 1] == trace[n];
      forall i | 0 <= i < n - 1 ensures rest[i].status == HooksRetry {
        assert rest[i] == trace[i + 1];
      }
    }
  }

  /** At most n runs, and that many exactly when it gets them. */
  predicate RanBy(before: seq<string>, after: seq<string>, hook: string, n: int, gets: bool) {
    RanAtMost(before, after, hook, n) && (RanExactly(before, after, hook, n) <==> gets)
  }

  lemma OneRunMore(a: seq<string>, b: seq<string>, c: seq<string>, hook: string, n: int, gets: bool)
    requires RanExactly(a, b, hook, 1)
    ensures RanBy(b, c, hook, n, gets) ==> RanBy(a, c, hook, n + 1, gets)
  {}

  lemma StopBranch(t: Table, next: Table, hooks: seq<string>, outcomes: Outcomes, cfg: HooksConfig, j: nat, n: nat,
                   rest: seq<Seen>)
    requires NoDuplicates(hooks) && j < |hooks| && !Settled(t.rows, hooks[j])
    requires next == TableCycle(t, hooks, outcomes, cfg) && next.status != HooksRetry
    ensures RanBy(t.runs, next.runs, hooks[j], n + 1, GetsLast([SeenIn(t, hooks, outcomes, cfg, j)] + rest, n))
  {
    CycleRuns(t, hooks, outcomes, cfg, j);
    var seen := SeenIn(t, hooks, outcomes, cfg, j);
    GetsLastGoesOn([seen] + rest, seen, rest, n);
  }

  /** The attempts that are left after the next one. */
  function RetriesLeft(rows: Rows, hook: string, cfg: HooksConfig): nat {
    if NextAttempt(rows, hook) > cfg.maxRetries then 0 else cfg.maxRetries + 1 - NextAttempt(rows, hook)
  }

  /** A hook that always asks for a retry and has not settled, on an archive that is taken up. */
  ghost predicate Asking(t: Table, hooks: seq<string>, outs: seq<Outcomes>, cfg: HooksConfig, j: nat)
    requires j < |hooks|
  {
    && NoDuplicates(hooks) && ShouldRunHooks(t.status, cfg.rerunOnFailure)
    && AlwaysAsks(outs, hooks[j])
    && !Settled(t.rows, hooks[j]) && NextAttempt(t.rows, hooks[j]) >= 1
  }

  /** With n attempts behind the next one. */
  ghost predicate Trying(t: Table, hooks: seq<string>, outs: seq<Outcomes>, cfg: HooksConfig, j: nat, n: nat)
    requires j < |hooks|
  {
    Asking(t, hooks, outs, cfg, j) && !cfg.rerunOnFailure && n == RetriesLeft(t.rows, hooks[j], cfg)
  }

  lemma RetryBranch(trace: seq<Seen>, seen: Seen, rest: seq<Seen>, a: seq<string>, b: seq<string>, c: seq<string>,
                    hook: string, n: nat)
    requires trace == [seen] + rest && seen.status == HooksRetry && n > 0
    requires RanExactly(a, b, hook, 1) && RanBy(b, c, hook, n, GetsLast(rest, n - 1))
    ensures RanBy(a, c, hook, n + 1, GetsLast(trace, n))
  {
    GetsLastGoesOn(trace, seen, rest, n);
    OneRunMore(a, b, c, hook, n, GetsLast(rest, n - 1));
  }

  lemma NoRuns(runs: seq<string>, hook: string, n: nat)
    ensures RanBy(runs, runs, hook, n + 1, GetsLast([], n))
  {}

  lemma RetryKeepsTrying(t: Table, next: Table, hooks: seq<string>, outs: seq<Outcomes>, cfg: HooksConfig, j: nat, n: nat)
    requires j < |hooks| && Trying(t, hooks, outs, cfg, j, n) && outs != []
    requires next == TableCycle(t, hooks, outs[0], cfg) && next.status == HooksRetry
    ensures n > 0 && Trying(next, hooks, outs[1..], cfg, j, n - 1) && RanExactly(t.runs, next.runs, hooks[j], 1)
  {
    RetryCycle(t, hooks, outs[0], cfg, j, NextAttempt(t.rows, hooks[j]) - 1);
  }

  lemma {:induction false} TempFailRunsAt(t: Table, hooks: seq<string>, outs: seq<Outcomes>, cfg: HooksConfig, j: nat,
                                          n: nat, end: Table, trace: seq<Seen>)
    requires j < |hooks| && Trying(t, hooks, outs, cfg, j, n)
    requires end == TableCycles(t, hooks, outs, cfg) && trace == Trace(t, hooks, outs, cfg, j)
    ensures RanBy(t.runs, end.runs, hooks[j], n + 1, GetsLast(trace, n))
    decreases |outs|
  {
    if outs == [] {
      NoRuns(t.runs, hooks[j], n);
    } else {
      var next := TableCycle(t, hooks, outs[0], cfg);
      var seen := SeenIn(t, hooks, outs[0], cfg, j);
      var rest := Trace(next, hooks, outs[1..], cfg, j);
      CyclesGoOn(t, hooks, outs, cfg, next);
      TraceGoesOn(t, hooks, outs, cfg, j, next);
      if next.status == HooksRetry {
        RetryKeepsTrying(t, next, hooks, outs, cfg, j, n);
        TempFailRunsAt(next, hooks, outs[1..], cfg, j, n - 1, end, rest);
        RetryBranch([seen] + rest, seen, rest, t.runs, next.runs, end.runs, hooks[j], n);
      } else {
        CycleEnds(t, hooks, outs[0], cfg);
        NotTaken(next.status, cfg.rerunOnFailure);
        StopBranch(t, next, hooks, outs[0], cfg, j, n, rest);
      }
    }
  }

  /** A hook that always asks for a retry, beside any others and whatever they do, runs at most once more
      than it has retries left, which is hook_max_retries at first, when failures are not run again. It
      runs exactly that often if and only if every cycle before the last asks for a retry as a whole, and
      in the last one no stop comes before the hook. */
  lemma TempFailRuns(st: HookState, hooks: seq<string>, outs: seq<Outcomes>, cfg: HooksConfig, j: nat, end: HookState)
    requires j < |hooks| && st.status == Mounted && Asking(TableOf(st), hooks, outs, cfg, j) && !cfg.rerunOnFailure
    requires end == AutoCycles(st, hooks, outs, cfg)
    ensures var n := RetriesLeft(st.rows, hooks[j], cfg);
            RanBy(st.runs, end.runs, hooks[j], n + 1, GetsLast(Trace(TableOf(st), hooks, outs, cfg, j), n))
  {
    AutoCyclesTable(st, hooks, outs, cfg);
    var t, n := TableOf(st), RetriesLeft(st.rows, hooks[j], cfg);
    TempFailRunsAt(t, hooks, outs, cfg, j, n, TableOf(end), Trace(t, hooks, outs, cfg, j));
  }

  // ---- failures that are run again ----

  /** The cycles before the first one that is halted before the hook. */
  function Unhalted(trace: seq<Seen>): nat {
    if trace == [] || trace[0].halted then 0 else 1 + Unhalted(trace[1..])
  }

  /** There are no more than n cycles, or one of the first n + 1 is halted before the hook. */
  predicate EndsBy(trace: seq<Seen>, n: nat) {
    |trace| <= n || exists i :: 0 <= i <= n < |trace| && trace[i].halted
  }

  lemma {:induction false} UnhaltedIff(trace: seq<Seen>, n: nat)
    ensures Unhalted(trace) <= n <==> EndsBy(trace, n)
    decreases |trace|
  {
    if trace != [] && !trace[0].halted && n > 0 {
      var rest := trace[1..];
      UnhaltedIff(rest, n - 1);
      if i :| 0 <= i <= n < |trace| && trace[i].halted {
        assert rest[i - 1] == trace[i];
      }
      if i :| 0 <= i <= n - 1 < |rest| && rest[i].halted {
        assert trace[i + 1] == rest[i];
      }
    }
  }

  /** A settled hook is not executed by any of the cycles. */
  lemma {:induction false} SettledCycles(t: Table, hooks: seq<string>, outs: seq<Outcomes>, cfg: HooksConfig,
                                         hook: string)
    requires Settled(t.rows, hook)
    ensures RanExactly(t.runs, TableCycles(t, hooks, outs, cfg).runs, hook, 0)
    decreases |outs|
  {
    if outs != [] && ShouldRunHooks(t.status, cfg.rerunOnFailure) {
      var rows := Seeded(t.rows, hooks);
      SettledIsNotRun(rows, hooks, outs[0], cfg, false, hook);
      var next := TableCycle(t, hooks, outs[0], cfg);
      var pass := RunFrom(rows, hooks, outs[0], cfg, false);
      assert multiset(t.runs + pass.ran) == multiset(t.runs) + multiset(pass.ran);
      SettledCycles(next, hooks, outs[1..], cfg, hook);
    }
  }

  /** One cycle for a hook that asks for a retry: without a halt it is to run again, and the archive has
      not succeeded; with one it is skipped. */
  lemma AskingCycle(t: Table, hooks: seq<string>, outs: seq<Outcomes>, cfg: HooksConfig, j: nat)
    requires j < |hooks| && Asking(t, hooks, outs, cfg, j) && outs != []
    ensures var next := TableCycle(t, hooks, outs[0], cfg);
            if Halted(Seeded(t.rows, hooks), hooks, outs[0], cfg, j)
            then Settled(next.rows, hooks[j])
            else !Settled(next.rows, hooks[j]) && NextAttempt(next.rows, hooks[j]) >= 1
                 && next.status != HooksSuccess
  {
    var rows := Seeded(t.rows, hooks);
    SeededNextAttempt(t.rows, hooks);
    assert hooks[j] in hooks;
    PassAt(rows, hooks, outs[0], cfg, j);
    AskedOnce(rows, hooks[j], outs[0], cfg);
    var results := RunFrom(rows, hooks, outs[0], cfg, false).results;
    if !Halted(rows, hooks, outs[0], cfg, j) {
      UnfinishedAggregate(results, j);
    }
  }

  lemma AskedOnce(rows: Rows, hook: string, outcomes: Outcomes, cfg: HooksConfig)
    requires !Settled(rows, hook) && outcomes(hook) == Exited(EXIT_RETRY)
    ensures OwnResult(rows, hook, outcomes, cfg).status in {HookRetry, HookFailed}
    ensures var r := OwnRow(rows, hook, outcomes, cfg);
            r.attempts == NextAttempt(rows, hook) && r.status in {HookRetry, HookFailed}
  {}

  lemma UnfinishedAggregate(results: seq<RunResult>, j: nat)
    requires j < |results| && results[j].status in {HookRetry, HookFailed}
    ensures Aggregate(results) != HooksSuccess
  {
    assert HasStatus(results, HookRetry) || HasStatus(results, HookFailed);
  }

  lemma {:induction false} RerunRunsAt(t: Table, hooks: seq<string>, outs: seq<Outcomes>, cfg: HooksConfig, j: nat)
    requires j < |hooks| && Asking(t, hooks, outs, cfg, j) && cfg.rerunOnFailure
    ensures RanExactly(t.runs, TableCycles(t, hooks, outs, cfg).runs, hooks[j],
                       Unhalted(Trace(t, hooks, outs, cfg, j)))
    decreases |outs|
  {
    if outs != [] {
      var next := TableCycle(t, hooks, outs[0], cfg);
      CyclesGoOn(t, hooks, outs, cfg, next);
      TraceGoesOn(t, hooks, outs, cfg, j, next);
      CycleRuns(t, hooks, outs[0], cfg, j);
      AskingCycle(t, hooks, outs, cfg, j);
      if Halted(Seeded(t.rows, hooks), hooks, outs[0], cfg, j) {
        SettledCycles(next, hooks, outs[1..], cfg, hooks[j]);
      } else {
        RerunRunsAt(next, hooks, outs[1..], cfg, j);
        assert Trace(t, hooks, outs, cfg, j)[1..] == Trace(next, hooks, outs[1..], cfg, j);
      }
    }
  }

  /** When failures are run again, a hook that always asks for a retry runs in every cycle before the first
      one that is halted before it, and in none after. */
  lemma RerunRuns(st: HookState, hooks: seq<string>, outs: seq<Outcomes>, cfg: HooksConfig, j: nat)
    requires j < |hooks| && st.status == Mounted && Asking(TableOf(st), hooks, outs, cfg, j) && cfg.rerunOnFailure
    ensures RanExactly(st.runs, AutoCycles(st, hooks, outs, cfg).runs, hooks[j],
                       Unhalted(Trace(TableOf(st), hooks, outs, cfg, j)))
  {
    AutoCyclesTable(st, hooks, outs, cfg);
    RerunRunsAt(TableOf(st), hooks, outs, cfg, j);
  }

  /** So a bound of n runs is kept if and only if there are no more than n cycles, or one of the first
      n + 1 is halted before the hook. */
  lemma RerunKeepsBoundIff(st: HookState, hooks: seq<string>, outs: seq<Outcomes>, cfg: HooksConfig, j: nat, n: nat)
    requires j < |hooks| && st.status == Mounted && Asking(TableOf(st), hooks, outs, cfg, j) && cfg.rerunOnFailure
    ensures RanAtMost(st.runs, AutoCycles(st, hooks, outs, cfg).runs, hooks[j], n) <==>
              EndsBy(Trace(TableOf(st), hooks, outs, cfg, j), n)
  {
    RerunRuns(st, hooks, outs, cfg, j);
    UnhaltedIff(Trace(TableOf(st), hooks, outs, cfg, j), n);
  }

  /** No cycle is ever halted before the hook, whatever the rows are. */
  ghost predicate NeverHalts(hooks: seq<string>, outs: seq<Outcomes>, cfg: HooksConfig, j: nat)
    requires j < |hooks|
  {
    forall rows: Rows, i :: 0 <= i < |outs| ==> !Halted(rows, hooks, outs[i], cfg, j)
  }

  lemma {:induction false} NeverHalted(t: Table, hooks: seq<string>, outs: seq<Outcomes>, cfg: HooksConfig, j: nat)
    requires j < |hooks| && NeverHalts(hooks, outs, cfg, j)
    ensures Unhalted(Trace(t, hooks, outs, cfg, j)) == |outs|
    decreases |outs|
  {
    if outs != [] {
      var next := TableCycle(t, hooks, outs[0], cfg);
      TraceGoesOn(t, hooks, outs, cfg, j, next);
      NeverHalted(next, hooks, outs[1..], cfg, j);
      assert Trace(t, hooks, outs, cfg, j)[1..] == Trace(next, hooks, outs[1..], cfg, j);
    }
  }

  lemma RerunEach(t: Table, hooks: seq<string>, outs: seq<Outcomes>, cfg: HooksConfig, j: nat)
    requires j < |hooks| && Asking(t, hooks, outs, cfg, j) && cfg.rerunOnFailure && (j == 0 || !cfg.stopOnHardFail)
    ensures RanExactly(t.runs, TableCycles(t, hooks, outs, cfg).runs, hooks[j], |outs|)
  {
    assert NeverHalts(hooks, outs, cfg, j);
    NeverHalted(t, hooks, outs, cfg, j);
    RerunRunsAt(t, hooks, outs, cfg, j);
  }

  /** The first hook, and every hook when hard failures do not stop a cycle, is executed in each cycle,
      without any limit. */
  lemma RerunHasNoLimit(st: HookState, hooks: seq<string>, outs: seq<Outcomes>, cfg: HooksConfig, j: nat)
    requires j < |hooks| && st.status == Mounted && Asking(TableOf(st), hooks, outs, cfg, j) && cfg.rerunOnFailure
    requires j == 0 || !cfg.stopOnHardFail
    ensures RanExactly(st.runs, AutoCycles(st, hooks, outs, cfg).runs, hooks[j], |outs|)
  {
    AutoCyclesTable(st, hooks, outs, cfg);
    RerunEach(TableOf(st), hooks, outs, cfg, j);
  }

  /** A single hook without any retry allowed: executed once in each of any number of cycles. */
  lemma RerunOfOne(st: HookState, hook: string, outs: seq<Outcomes>, cfg: HooksConfig)
    requires st == HookState(Mounted, HooksNone, st.lastError, map[], [])
    requires cfg.maxRetries == 0 && cfg.rerunOnFailure && AlwaysAsks(outs, hook)
    ensures multiset(AutoCycles(st, [hook], outs, cfg).runs)[hook] == |outs|
  {
    RerunHasNoLimit(st, [hook], outs, cfg, 0);
  }

  /** The hook asks for a retry, and all others succeed. */
  function OnlyAsks(hook: string): Outcomes {
    h => if h == hook then Exited(EXIT_RETRY) else Exited(0)
  }

  /** Others that succeed halt nothing, so the hook runs in each of n cycles. */
  lemma RerunAmongOthers(st: HookState, hooks: seq<string>, cfg: HooksConfig, j: nat, n: nat)
    requires j < |hooks| && st.status == Mounted && Asking(TableOf(st), hooks, [], cfg, j) && cfg.rerunOnFailure
    ensures var outs := seq(n, _ => OnlyAsks(hooks[j]));
            AlwaysAsks(outs, hooks[j]) && RanExactly(st.runs, AutoCycles(st, hooks, outs, cfg).runs, hooks[j], n)
  {
    var outs := seq(n, _ => OnlyAsks(hooks[j]));
    forall rows: Rows, i | 0 <= i < n ensures !Halted(rows, hooks, outs[i], cfg, j) {
      forall k | 0 <= k < j ensures !FailsHard(rows, hooks[k], outs[i], cfg) {}
    }
    NeverHalted(TableOf(st), hooks, outs, cfg, j);
    RerunRuns(st, hooks, outs, cfg, j);
  }

  /** The bound holds whatever the other hooks do if and only if failures are not run again. */
  lemma BoundedIffNotRerun(st: HookState, hooks: seq<string>, cfg: HooksConfig, j: nat)
    requires j < |hooks| && st.status == Mounted && Asking(TableOf(st), hooks, [], cfg, j)
    ensures (forall outs :: AlwaysAsks(outs, hooks[j]) ==>
               RanAtMost(st.runs, AutoCycles(st, hooks, outs, cfg).runs, hooks[j],
                         RetriesLeft(st.rows, hooks[j], cfg) + 1))
            <==> !cfg.rerunOnFailure
  {
    if cfg.rerunOnFailure {
      RerunAmongOthers(st, hooks, cfg, j, RetriesLeft(st.rows, hooks[j], cfg) + 2);
    } else {
      forall outs | AlwaysAsks(outs, hooks[j])
        ensures RanAtMost(st.runs, AutoCycles(st, hooks, outs, cfg).runs, hooks[j],
                          RetriesLeft(st.rows, hooks[j], cfg) + 1)
      {
        TempFailRuns(st, hooks, outs, cfg, j, AutoCycles(st, hooks, outs, cfg));
      }
    }
  }

  // ---- when all hooks always ask for a retry ----

  /** With every attempt of the first hook used up, each further cycle fails. */
  lemma {:induction false} ExhaustedStays(t: Table, hooks: seq<string>, outs: seq<Outcomes>, cfg: HooksConfig)
    requires hooks != [] && AlwaysAsks(outs, hooks[0]) && NoDuplicates(hooks) && t.status == HooksFailed
    requires !Settled(t.rows, hooks[0]) && NextAttempt(t.rows, hooks[0]) > cfg.maxRetries
    ensures TableCycles(t, hooks, outs, cfg).status == HooksFailed
    decreases |outs|
  {
    if outs != [] && cfg.rerunOnFailure {
      var rows := Seeded(t.rows, hooks);
      SeededNextAttempt(t.rows, hooks);
      assert hooks[0] in hooks;
      PassAt(rows, hooks, outs[0], cfg, 0);
      FailsAgain(rows, hooks[0], outs[0], cfg);
      var pass := RunFrom(rows, hooks, outs[0], cfg, false);
      assert HasStatus(pass.results, HookFailed) by {
        assert pass.results[0].status == HookFailed;
      }
      ExhaustedStays(TableCycle(t, hooks, outs[0], cfg), hooks, outs[1..], cfg);
    }
  }

  lemma FailsAgain(rows: Rows, hook: string, outcomes: Outcomes, cfg: HooksConfig)
    requires !Settled(rows, hook) && outcomes(hook) == Exited(EXIT_RETRY) && NextAttempt(rows, hook) > cfg.maxRetries
    ensures OwnResult(rows, hook, outcomes, cfg).status == HookFailed
    ensures var r := OwnRow(rows, hook, outcomes, cfg);
            r.status == HookFailed && r.attempts == NextAttempt(rows, hook)
  {}

  /** The runs that follow once all attempts are used up: one more for a hook that is reached, or one in
      every cycle when failures are run again. */
  function LastRuns(hooks: seq<string>, h: string, cfg: HooksConfig, cycles: nat): nat
    requires hooks != []
  {
    if h != hooks[0] && cfg.stopOnHardFail then 0
    else if cfg.rerunOnFailure then cycles
    else 1
  }

  /** What the cycle with the last attempt leads to. */
  lemma ExhaustedCycle(t: Table, hooks: seq<string>, outs: seq<Outcomes>, cfg: HooksConfig, next: Table)
    requires NoDuplicates(hooks) && hooks != [] && outs != [] && next == TableCycle(t, hooks, outs[0], cfg)
    requires cfg.maxRetries >= 0 && AlwaysTempFail(outs, hooks) && TriedExactly(t.rows, hooks, cfg.maxRetries)
    ensures next.status == HooksFailed
    ensures !Settled(next.rows, hooks[0]) && NextAttempt(next.rows, hooks[0]) > cfg.maxRetries
    ensures forall h :: h in hooks ==>
              RanExactly(t.runs, next.runs, h, if h == hooks[0] || !cfg.stopOnHardFail then 1 else 0)
  {
    var rows := Seeded(t.rows, hooks);
    SeededNextAttempt(t.rows, hooks);
    ExhaustedPass(rows, hooks, outs[0], cfg);
    var pass := RunFrom(rows, hooks, outs[0], cfg, false);
    assert multiset(t.runs + pass.ran) == multiset(t.runs) + multiset(pass.ran);
    assert hooks[0] in hooks;
    PassAt(rows, hooks, outs[0], cfg, 0);
    FailsAgain(rows, hooks[0], outs[0], cfg);
  }

  /** With stopping on, that cycle skips every later hook. */
  lemma ExhaustedSkips(t: Table, hooks: seq<string>, outs: seq<Outcomes>, cfg: HooksConfig, j: nat)
    requires NoDuplicates(hooks) && 0 < j < |hooks| && outs != [] && cfg.stopOnHardFail
    requires cfg.maxRetries >= 0 && AlwaysTempFail(outs, hooks) && TriedExactly(t.rows, hooks, cfg.maxRetries)
    ensures Settled(TableCycle(t, hooks, outs[0], cfg).rows, hooks[j])
  {
    var rows := Seeded(t.rows, hooks);
    SeededNextAttempt(t.rows, hooks);
    assert hooks[0] in hooks;
    FailsAgain(rows, hooks[0], outs[0], cfg);
    assert FailsHard(rows, hooks[0], outs[0], cfg);
    PassAt(rows, hooks, outs[0], cfg, j);
  }

  lemma ExhaustedRuns(t: Table, hooks: seq<string>, outs: seq<Outcomes>, cfg: HooksConfig, h: string)
    requires NoDuplicates(hooks) && h in hooks && outs != [] && ShouldRunHooks(t.status, cfg.rerunOnFailure)
    requires cfg.maxRetries >= 0 && AlwaysTempFail(outs, hooks) && TriedExactly(t.rows, hooks, cfg.maxRetries)
    ensures var end := TableCycles(t, hooks, outs, cfg);
            && end.status == HooksFailed
            && RanExactly(t.runs, end.runs, h, LastRuns(hooks, h, cfg, |outs|))
  {
    var next := TableCycle(t, hooks, outs[0], cfg);
    ExhaustedCycle(t, hooks, outs, cfg, next);
    CyclesGoOn(t, hooks, outs, cfg, next);
    assert AlwaysAsks(outs[1..], hooks[0]);
    ExhaustedStays(next, hooks, outs[1..], cfg);
    if cfg.rerunOnFailure {
      var j :| 0 <= j < |hooks| && hooks[j] == h;
      if j == 0 || !cfg.stopOnHardFail {
        RerunEach(t, hooks, outs, cfg, j);
      } else {
        ExhaustedSkips(t, hooks, outs, cfg, j);
        SettledCycles(next, hooks, outs[1..], cfg, h);
      }
    }
  }

  /** Below the limit each hook runs once in a cycle, and is to be retried. */
  lemma TempFailCycle(t: Table, hooks: seq<string>, outcomes: Outcomes, cfg: HooksConfig, k: nat, next: Table)
    requires NoDuplicates(hooks) && hooks != [] && TriedExactly(t.rows, hooks, k) && k < cfg.maxRetries
    requires forall h :: h in hooks ==> outcomes(h) == Exited(EXIT_RETRY)
    requires next == TableCycle(t, hooks, outcomes, cfg)
    ensures next.status == HooksRetry && TriedExactly(next.rows, hooks, k + 1)
    ensures forall h :: h in hooks ==> RanExactly(t.runs, next.runs, h, 1)
  {
    var rows := Seeded(t.rows, hooks);
    SeededNextAttempt(t.rows, hooks);
    TempFailPass(rows, hooks, outcomes, cfg, k);
    var pass := RunFrom(rows, hooks, outcomes, cfg, false);
    assert multiset(t.runs + pass.ran) == multiset(t.runs) + multiset(pass.ran);
  }

  lemma RunsAdd(a: seq<string>, b: seq<string>, c: seq<string>, hook: string, m: int, n: int)
    requires RanExactly(a, b, hook, m) && RanExactly(b, c, hook, n)
    ensures RanExactly(a, c, hook, m + n)
  {}

  lemma {:induction false} TempFailRunsFrom(t: Table, hooks: seq<string>, outs: seq<Outcomes>, cfg: HooksConfig, k: nat,
                                            h: string, end: Table)
    requires NoDuplicates(hooks) && h in hooks && ShouldRunHooks(t.status, cfg.rerunOnFailure)
    requires AlwaysTempFail(outs, hooks) && TriedExactly(t.rows, hooks, k)
    requires k <= cfg.maxRetries && |outs| + k > cfg.maxRetries && end == TableCycles(t, hooks, outs, cfg)
    ensures end.status == HooksFailed
    ensures RanExactly(t.runs, end.runs, h,
                       cfg.maxRetries - k + LastRuns(hooks, h, cfg, |outs| + k - cfg.maxRetries))
    decreases |outs|
  {
    if k < cfg.maxRetries {
      var next := TableCycle(t, hooks, outs[0], cfg);
      TempFailCycle(t, hooks, outs[0], cfg, k, next);
      CyclesGoOn(t, hooks, outs, cfg, next);
      var last := LastRuns(hooks, h, cfg, |outs| + k - cfg.maxRetries);
      TempFailRunsFrom(next, hooks, outs[1..], cfg, k + 1, h, end);
      RunsAdd(t.runs, next.runs, end.runs, h, 1, cfg.maxRetries - k - 1 + last);
    } else {
      ExhaustedRuns(t, hooks, outs, cfg, h);
    }
  }

  /** Hooks that all always ask for a retry, over enough cycles: each runs hook_max_retries times, and then
      the first one, or every one when hard failures do not stop a cycle, runs once more, or in each
      further cycle when failures are run again. */
  lemma AllTempFailRuns(st: HookState, hooks: seq<string>, outs: seq<Outcomes>, cfg: HooksConfig, h: string)
    requires NoDuplicates(hooks) && h in hooks && st.status == Mounted
    requires ShouldRunHooks(st.hooksStatus, cfg.rerunOnFailure)
    requires cfg.maxRetries >= 0 && |outs| > cfg.maxRetries && AlwaysTempFail(outs, hooks)
    requires TriedExactly(st.rows, hooks, 0)
    ensures var end := AutoCycles(st, hooks, outs, cfg);
            && end.hooksStatus == HooksFailed
            && RanExactly(st.runs, end.runs, h, cfg.maxRetries + LastRuns(hooks, h, cfg, |outs| - cfg.maxRetries))
  {
    AutoCyclesTable(st, hooks, outs, cfg);
    TempFailRunsFrom(TableOf(st), hooks, outs, cfg, 0, h, TableOf(AutoCycles(st, hooks, outs, cfg)));
  }
}
