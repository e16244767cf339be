/** What holds of any number of hook cycles in a row (internal/hooks/runner.go, and the resume rules
    of internal/cli/ops.go). */
module HookHistory {
  import opened HookCycles
  import opened HookRunner
  import opened NestedSkips
  import opened Options
  import opened Sequences
  import opened Statuses
  import opened Strings

  /** One call of RunForArchive. */
  datatype Input = Input(force: bool, discovery: Discovery, outcomes: Outcomes)

  function RunAll(st: HookState, inputs: seq<Input>, cfg: HooksConfig): HookState
    decreases |inputs|
  {
    if inputs == [] then st
    else
      var i := inputs[0];
      RunAll(AfterRun(st, i.force, i.discovery, i.outcomes, cfg).0, inputs[1..], cfg)
  }

  // ---- resume: what has settled is never executed again ----

  lemma SettledOnce(st: HookState, i: Input, cfg: HooksConfig, hook: string)
    requires Settled(st.rows, hook)
    ensures var next := AfterRun(st, i.force, i.discovery, i.outcomes, cfg).0;
            && Settled(next.rows, hook)
            && multiset(next.runs)[hook] == multiset(st.runs)[hook]
            && (st.rows[hook].status == HookSkipped ==> next.rows[hook].status == HookSkipped)
  {
    if i.discovery.Found? {
      SettledIsNotRun(Seeded(st.rows, i.discovery.hooks), i.discovery.hooks, i.outcomes, cfg, false, hook);
    }
  }

  /** However often cycles are run or forced, over whatever hook sets, a hook whose row is success or
      skipped is not executed again. */
  lemma {:induction false} SettledForever(st: HookState, inputs: seq<Input>, cfg: HooksConfig, hook: string)
    requires Settled(st.rows, hook)
    ensures var end := RunAll(st, inputs, cfg);
            && Settled(end.rows, hook)
            && multiset(end.runs)[hook] == multiset(st.runs)[hook]
            && (st.rows[hook].status == HookSkipped ==> end.rows[hook].status == HookSkipped)
    decreases |inputs|
  {
    if inputs != [] {
      var i := inputs[0];
      SettledOnce(st, i, cfg, hook);
      SettledForever(AfterRun(st, i.force, i.discovery, i.outcomes, cfg).0, inputs[1..], cfg, hook);
    }
  }

  /** A success row is not safe from a stop: it is overwritten by skipped if and only if stopping is on
      and an earlier hook is executed and fails hard; otherwise it stays as it is. */
  lemma SuccessBecomesSkipped(rows: Rows, hooks: seq<string>, outcomes: Outcomes, cfg: HooksConfig, j: nat)
    requires NoDuplicates(hooks) && j < |hooks|
    requires hooks[j] in rows && rows[hooks[j]].status == HookSuccess
    ensures var after := RunFrom(Seeded(rows, hooks), hooks, outcomes, cfg, false).rows;
            && hooks[j] in after
            && (after[hooks[j]].status == HookSkipped <==> Halted(Seeded(rows, hooks), hooks, outcomes, cfg, j))
            && (!Halted(Seeded(rows, hooks), hooks, outcomes, cfg, j) ==> after[hooks[j]] == rows[hooks[j]])
  {
    PassAt(Seeded(rows, hooks), hooks, outcomes, cfg, j);
  }

  // ---- the nested-skip advisory survives every ending ----

  /** Whether a hard-failure reason leaves the advisory readable. */
  predicate Spares(reason: string, sum: string) {
    !Contains(TrimSpace(reason), sum) || HasSuffix(TrimSpace(reason), sum)
  }

  predicate EndingSpares(ending: Ending, sum: string) {
    ending.HardFailed? ==> Spares(ending.reason, sum)
  }

  lemma PlainReasonSpares(reason: string, sum: string, n: nat)
    requires IsSegment(MARK, SummaryCount, sum, n)
    requires 'p' !in reason
    ensures Spares(reason, sum)
  {
    assert MARK[4] == 'p';
    LastIndexIff(sum, MARK, 0);
    if Contains(TrimSpace(reason), sum) {
      TrimSpaceContains(reason, sum);
      ContainsTransitive(reason, sum, MARK);
    }
  }

  lemma FixedReasonsArePlain()
    ensures 'p' !in RETRY_REASON && 'p' !in HARD_FAILED
  {
    var head, tail := "one or more hooks returned", " EX_TEMPFAIL/timeout";
    assert 'p' !in head && 'p' !in tail;
    assert RETRY_REASON == head + tail;
  }

  lemma SuccessKeepsAdvisory(mark: string, count: string -> nat, prior: string, skipOnly: bool)
    requires IsMark(mark) && ExtractBy(mark, count, prior).1 > 0
    ensures var after := KeptOnSuccess(prior, skipOnly, ExtractBy(mark, count, prior));
            after.Some? && ExtractBy(mark, count, after.value) == ExtractBy(mark, count, prior)
  {
    var (sum, n) := ExtractBy(mark, count, prior);
    ExtractByIsSegment(mark, count, prior);
    ExtractByOfSuffix(mark, count, sum, sum, n);
  }

  lemma PlainKeepsAdvisory(reason: string, prior: string)
    requires Extract(prior).1 > 0 && 'p' !in reason
    ensures Extract(Preserve(reason, prior)) == Extract(prior)
  {
    var (sum, n) := Extract(prior);
    ExtractByIsSegment(MARK, SummaryCount, prior);
    PlainReasonSpares(reason, sum, n);
    PreserveKeepsSegment(reason, prior);
  }

  /** One ending keeps the extracted summary and count, and a hard failure does so exactly when its
      reason spares the summary. */
  lemma EndingKeepsAdvisory(ending: Ending, prior: string)
    requires Extract(prior).1 > 0
    ensures var after := ErrorAfter(ending, Some(prior));
            after.Some? && (Extract(after.value) == Extract(prior) <==> EndingSpares(ending, Extract(prior).0))
  {
    match ending
    case Succeeded => SuccessKeepsAdvisory(MARK, SummaryCount, prior, IsSkipOnly(prior));
    case Retrying =>
      FixedReasonsArePlain();
      PlainKeepsAdvisory(RETRY_REASON, prior);
    case HardFailed(reason) => PreserveKeepsSegment(reason, prior);
  }

  /** What success leaves of an error: all of a pure advisory, the advisory of an enriched error, and nothing
      of any other. */
  lemma SuccessLeaves(prior: Option<string>)
    ensures var text := prior.GetOr("");
            var after := ErrorAfter(Succeeded, prior);
            && (after.None? <==> text == "" || (!IsSkipOnly(text) && Extract(text).1 == 0))
            && (after.Some? ==> after.value == if IsSkipOnly(text) then text else Extract(text).0)
  {}

  /** A refused directory or hook fails the cycle without a hook being seeded or executed. */
  lemma RefusedCycle(st: HookState, force: bool, discovery: Discovery, outcomes: Outcomes, cfg: HooksConfig)
    requires force || ShouldRunHooks(st.hooksStatus, cfg.rerunOnFailure)
    requires ValidTransition(st.status, HooksRunning) && !discovery.Found?
    ensures var (next, result) := AfterRun(st, force, discovery, outcomes, cfg);
            var reason := match discovery
                          case DirRefused(reason) => reason
                          case HookRefused(_, reason) => "hook security: " + reason
                          case Found(_) => "";
            && next == st.(status := Mounted, hooksStatus := HooksFailed, lastError := next.lastError)
            && next.lastError == Some(Preserve(reason, st.lastError.GetOr("")))
            && result == Ran(HooksFailed, if discovery.DirRefused? then [] else
                 [RunResult(discovery.name, HookFailed, None, 0, Refused(discovery.reason), false)])
  {}

  /** The ending reached by one call, if it reaches one. */
  function EndingOfInput(st: HookState, i: Input, cfg: HooksConfig): Option<Ending> {
    if (!i.force && !ShouldRunHooks(st.hooksStatus, cfg.rerunOnFailure)) || !ValidTransition(st.status, HooksRunning)
    then None
    else
      match i.discovery
      case DirRefused(reason) => Some(HardFailed(reason))
      case HookRefused(_, reason) => Some(HardFailed("hook security: " + reason))
      case Found(hooks) =>
        Some(EndingOf(Aggregate(RunFrom(Seeded(st.rows, hooks), hooks, i.outcomes, cfg, false).results)))
  }

  lemma InputEnding(st: HookState, i: Input, cfg: HooksConfig)
    ensures AfterRun(st, i.force, i.discovery, i.outcomes, cfg).0.lastError ==
            match EndingOfInput(st, i, cfg)
            case None => st.lastError
            case Some(ending) => ErrorAfter(ending, st.lastError)
  {}

  /** A call whose security refusal, if any, spares the summary. */
  predicate InputSpares(i: Input, sum: string) {
    match i.discovery
    case DirRefused(reason) => Spares(reason, sum)
    case HookRefused(_, reason) => Spares("hook security: " + reason, sum)
    case Found(_) => true
  }

  lemma EndingOfInputSpares(st: HookState, i: Input, cfg: HooksConfig, sum: string)
    requires InputSpares(i, sum) && Spares(HARD_FAILED, sum)
    ensures var ending := EndingOfInput(st, i, cfg); ending.Some? ==> EndingSpares(ending.value, sum)
  {}

  lemma InputKeepsAdvisory(st: HookState, i: Input, cfg: HooksConfig)
    requires st.lastError.Some? && Extract(st.lastError.value).1 > 0
    requires InputSpares(i, Extract(st.lastError.value).0)
    ensures var after := AfterRun(st, i.force, i.discovery, i.outcomes, cfg).0.lastError;
            after.Some? && Extract(after.value) == Extract(st.lastError.value)
  {
    var prior := st.lastError.value;
    ExtractByIsSegment(MARK, SummaryCount, prior);
    FixedReasonsArePlain();
    PlainReasonSpares(HARD_FAILED, Extract(prior).0, Extract(prior).1);
    EndingOfInputSpares(st, i, cfg, Extract(prior).0);
    InputEnding(st, i, cfg);
    var ending := EndingOfInput(st, i, cfg);
    if ending.Some? {
      EndingKeepsAdvisory(ending.value, prior);
    }
  }

  /** Over any number of cycles the summary and the count stay, as long as no security refusal
      quotes the summary in the middle of its reason. */
  lemma {:induction false} AdvisorySurvives(st: HookState, inputs: seq<Input>, cfg: HooksConfig)
    requires st.lastError.Some? && Extract(st.lastError.value).1 > 0
    requires forall i :: i in inputs ==> InputSpares(i, Extract(st.lastError.value).0)
    ensures var end := RunAll(st, inputs, cfg);
            end.lastError.Some? && Extract(end.lastError.value) == Extract(st.lastError.value)
    decreases |inputs|
  {
    if inputs != [] {
      var i := inputs[0];
      InputKeepsAdvisory(st, i, cfg);
      AdvisorySurvives(AfterRun(st, i.force, i.discovery, i.outcomes, cfg).0, inputs[1..], cfg);
    }
  }

  // ---- automatic cycles end ----

  /** The cycles that the service tick runs on its own, one after the other, for as long as it takes up the
      archive: until the status is terminal, or until success when failures are run again. */
  function AutoCycles(st: HookState, hooks: seq<string>, outs: seq<Outcomes>, cfg: HooksConfig): HookState
    decreases |outs|
  {
    if outs == [] || !ShouldRunHooks(st.hooksStatus, cfg.rerunOnFailure) then st
    else AutoCycles(AfterRun(st, false, Found(hooks), outs[0], cfg).0, hooks, outs[1..], cfg)
  }

  /** The part of the state that decides how many cycles follow. */
  datatype Table = Table(rows: Rows, status: HooksStatus, runs: seq<string>)

  function TableOf(st: HookState): Table {
    Table(st.rows, st.hooksStatus, st.runs)
  }

  function TableCycle(t: Table, hooks: seq<string>, outcomes: Outcomes, cfg: HooksConfig): Table {
    var pass := RunFrom(Seeded(t.rows, hooks), hooks, outcomes, cfg, false);
    Table(pass.rows, Aggregate(pass.results), t.runs + pass.ran)
  }

  function TableCycles(t: Table, hooks: seq<string>, outs: seq<Outcomes>, cfg: HooksConfig): Table
    decreases |outs|
  {
    if outs == [] || !ShouldRunHooks(t.status, cfg.rerunOnFailure) then t
    else TableCycles(TableCycle(t, hooks, outs[0], cfg), hooks, outs[1..], cfg)
  }

  lemma AfterRunTable(st: HookState, force: bool, hooks: seq<string>, outcomes: Outcomes, cfg: HooksConfig)
    requires st.status == Mounted && (force || ShouldRunHooks(st.hooksStatus, cfg.rerunOnFailure))
    ensures var next := AfterRun(st, force, Found(hooks), outcomes, cfg).0;
            next.status == Mounted && TableOf(next) == TableCycle(TableOf(st), hooks, outcomes, cfg)
  {}

  lemma CyclesGoOn(t: Table, hooks: seq<string>, outs: seq<Outcomes>, cfg: HooksConfig, next: Table)
    requires outs != [] && ShouldRunHooks(t.status, cfg.rerunOnFailure) && next == TableCycle(t, hooks, outs[0], cfg)
    ensures TableCycles(t, hooks, outs, cfg) == TableCycles(next, hooks, outs[1..], cfg)
    ensures !ShouldRunHooks(next.status, cfg.rerunOnFailure) ==> TableCycles(t, hooks, outs, cfg) == next
  {}

  lemma {:induction false} AutoCyclesTable(st: HookState, hooks: seq<string>, outs: seq<Outcomes>, cfg: HooksConfig)
    requires st.status == Mounted
    ensures TableOf(AutoCycles(st, hooks, outs, cfg)) == TableCycles(TableOf(st), hooks, outs, cfg)
    decreases |outs|
  {
    if outs != [] && ShouldRunHooks(st.hooksStatus, cfg.rerunOnFailure) {
      AfterRunTable(st, false, hooks, outs[0], cfg);
      AutoCyclesTable(AfterRun(st, false, Found(hooks), outs[0], cfg).0, hooks, outs[1..], cfg);
    }
  }

  /** Every hook that would run now would run for at least the (k+1)-st time. */
  ghost predicate TriedAtLeast(rows: Rows, hooks: seq<string>, k: nat) {
    forall h :: h in hooks && !Settled(rows, h) ==> NextAttempt(rows, h) >= k + 1
  }

  lemma SeededNextAttempt(rows: Rows, hooks: seq<string>)
    ensures forall h :: h in hooks ==>
              && NextAttempt(Seeded(rows, hooks), h) == NextAttempt(rows, h)
              && Settled(Seeded(rows, hooks), h) == Settled(rows, h)
  {}

  /** Every hook decides its own result and row, and runs once if it was left to run. */
  ghost predicate Pointwise(rows: Rows, hooks: seq<string>, outcomes: Outcomes, cfg: HooksConfig, pass: Pass) {
    && |pass.results| == |hooks|
    && (forall i :: 0 <= i < |hooks| ==> pass.results[i] == OwnResult(rows, hooks[i], outcomes, cfg))
    && (forall h :: h in hooks ==> Lookup(pass.rows, h) == Some(OwnRow(rows, h, outcomes, cfg)))
    && (forall h :: multiset(pass.ran)[h] == if h in hooks && !Settled(rows, h) then 1 else 0)
  }

  lemma FreePass(rows: Rows, hooks: seq<string>, outcomes: Outcomes, cfg: HooksConfig)
    requires NoDuplicates(hooks) && !cfg.stopOnHardFail
    ensures Pointwise(rows, hooks, outcomes, cfg, RunFrom(rows, hooks, outcomes, cfg, false))
  {
    UnstoppedResults(rows, hooks, outcomes, cfg);
    UnstoppedRows(rows, hooks, outcomes, cfg);
    UnstoppedRan(rows, hooks, outcomes, cfg);
  }

  /** Only the retry limit of the configuration matters to a single hook. */
  lemma PointwiseAnyStop(rows: Rows, hooks: seq<string>, outcomes: Outcomes, cfg: HooksConfig, free: HooksConfig,
                         pass: Pass)
    requires Pointwise(rows, hooks, outcomes, free, pass) && free.maxRetries == cfg.maxRetries
    ensures Pointwise(rows, hooks, outcomes, cfg, pass)
  {
    forall h ensures OwnResult(rows, h, outcomes, free) == OwnResult(rows, h, outcomes, cfg)
                     && OwnRow(rows, h, outcomes, free) == OwnRow(rows, h, outcomes, cfg) {}
  }

  /** A pass without a hard failure is pointwise, whether or not hard failures stop a pass. */
  lemma UnfailedPass(rows: Rows, hooks: seq<string>, outcomes: Outcomes, cfg: HooksConfig)
    requires NoDuplicates(hooks)
    requires !HasStatus(RunFrom(rows, hooks, outcomes, cfg.(stopOnHardFail := false), false).results, HookFailed)
             || !HasStatus(RunFrom(rows, hooks, outcomes, cfg, false).results, HookFailed)
    ensures Pointwise(rows, hooks, outcomes, cfg, RunFrom(rows, hooks, outcomes, cfg, false))
  {
    var free := cfg.(stopOnHardFail := false);
    StopOrSame(rows, hooks, outcomes, cfg);
    FreePass(rows, hooks, outcomes, free);
    PointwiseAnyStop(rows, hooks, outcomes, cfg, free, RunFrom(rows, hooks, outcomes, free, false));
  }

  lemma OwnRowAttempts(rows: Rows, rows': Rows, h: string, outcomes: Outcomes, cfg: HooksConfig)
    requires Lookup(rows', h) == Some(OwnRow(rows, h, outcomes, cfg))
    ensures Settled(rows, h) ==> Settled(rows', h)
    ensures !Settled(rows, h) ==> NextAttempt(rows', h) == NextAttempt(rows, h) + 1
    ensures !Settled(rows, h) ==>
              rows'[h].status == ClassifyExit(outcomes(h), NextAttempt(rows, h), cfg.maxRetries).0
  {}

  lemma PointwiseRetry(rows: Rows, hooks: seq<string>, outcomes: Outcomes, cfg: HooksConfig, pass: Pass, k: nat)
    requires Pointwise(rows, hooks, outcomes, cfg, pass) && TriedAtLeast(rows, hooks, k)
    requires HasStatus(pass.results, HookRetry)
    ensures TriedAtLeast(pass.rows, hooks, k + 1) && k + 1 <= cfg.maxRetries
  {
    var i :| 0 <= i < |pass.results| && pass.results[i].status == HookRetry;
    assert pass.results[i] == OwnResult(rows, hooks[i], outcomes, cfg);
    forall h | h in hooks && !Settled(pass.rows, h) ensures NextAttempt(pass.rows, h) >= k + 2 {
      OwnRowAttempts(rows, pass.rows, h, outcomes, cfg);
    }
  }

  /** A cycle that ends in retry uses up one of the allowed attempts of every hook left to run. */
  lemma RetryUsesAttempt(rows: Rows, hooks: seq<string>, outcomes: Outcomes, cfg: HooksConfig, k: nat)
    requires NoDuplicates(hooks) && TriedAtLeast(rows, hooks, k)
    requires Aggregate(RunFrom(rows, hooks, outcomes, cfg, false).results) == HooksRetry
    ensures TriedAtLeast(RunFrom(rows, hooks, outcomes, cfg, false).rows, hooks, k + 1)
    ensures k + 1 <= cfg.maxRetries
  {
    UnfailedPass(rows, hooks, outcomes, cfg);
    PointwiseRetry(rows, hooks, outcomes, cfg, RunFrom(rows, hooks, outcomes, cfg, false), k);
  }

  lemma AggregateEnds(results: seq<RunResult>)
    ensures Aggregate(results) == HooksRetry || IsTerminal(Aggregate(results))
    ensures Aggregate(results) == HooksRetry ==> !HasStatus(results, HookFailed)
  {}

  lemma CycleEnds(t: Table, hooks: seq<string>, outcomes: Outcomes, cfg: HooksConfig)
    ensures var status := TableCycle(t, hooks, outcomes, cfg).status; status == HooksRetry || IsTerminal(status)
  {
    AggregateEnds(RunFrom(Seeded(t.rows, hooks), hooks, outcomes, cfg, false).results);
  }

  /** After the first n cycles the status is terminal. */
  ghost predicate EndsAt(t: Table, hooks: seq<string>, outs: seq<Outcomes>, cfg: HooksConfig, n: nat)
    requires n <= |outs|
  {
    IsTerminal(TableCycles(t, hooks, outs[..n], cfg).status)
  }

  lemma EndsLater(t: Table, next: Table, hooks: seq<string>, outs: seq<Outcomes>, cfg: HooksConfig, n: nat)
    requires n < |outs| && ShouldRunHooks(t.status, cfg.rerunOnFailure)
    requires next == TableCycle(t, hooks, outs[0], cfg) && EndsAt(next, hooks, outs[1..], cfg, n)
    ensures EndsAt(t, hooks, outs, cfg, n + 1)
  {
    assert outs[..n + 1][0] == outs[0] && outs[..n + 1][1..] == outs[1..][..n];
  }

  /** A cycle that ends in retry has used up one of the allowed attempts. */
  lemma RetryTries(t: Table, hooks: seq<string>, outcomes: Outcomes, cfg: HooksConfig, k: nat, next: Table)
    requires NoDuplicates(hooks) && TriedAtLeast(t.rows, hooks, k)
    requires next == TableCycle(t, hooks, outcomes, cfg) && next.status == HooksRetry
    ensures TriedAtLeast(next.rows, hooks, k + 1) && k + 1 <= cfg.maxRetries
  {
    SeededNextAttempt(t.rows, hooks);
    RetryUsesAttempt(Seeded(t.rows, hooks), hooks, outcomes, cfg, k);
  }

  lemma EndsNow(t: Table, hooks: seq<string>, outs: seq<Outcomes>, cfg: HooksConfig, n: nat)
    requires n <= |outs| && IsTerminal(t.status) && (n == 0 || !ShouldRunHooks(t.status, cfg.rerunOnFailure))
    ensures EndsAt(t, hooks, outs, cfg, n)
  {}

  lemma NotTaken(status: HooksStatus, rerunOnFailure: bool)
    ensures !ShouldRunHooks(status, rerunOnFailure) ==> IsTerminal(status)
    ensures !rerunOnFailure ==> (ShouldRunHooks(status, rerunOnFailure) <==> !IsTerminal(status))
  {}

  lemma {:induction false} TableCyclesEnd(t: Table, hooks: seq<string>, outs: seq<Outcomes>, cfg: HooksConfig, k: nat)
    returns (n: nat)
    requires NoDuplicates(hooks) && TriedAtLeast(t.rows, hooks, k)
    requires |outs| + k > cfg.maxRetries && |outs| > 0
    ensures 0 < n <= |outs| && EndsAt(t, hooks, outs, cfg, n)
    decreases |outs|
  {
    NotTaken(t.status, cfg.rerunOnFailure);
    if !ShouldRunHooks(t.status, cfg.rerunOnFailure) {
      n := 1;
      EndsNow(t, hooks, outs, cfg, n);
    } else {
      var next := TableCycle(t, hooks, outs[0], cfg);
      CycleEnds(t, hooks, outs[0], cfg);
      var m := 0;
      if next.status == HooksRetry {
        RetryTries(t, hooks, outs[0], cfg, k, next);
        m := TableCyclesEnd(next, hooks, outs[1..], cfg, k + 1);
      } else {
        EndsNow(next, hooks, outs[1..], cfg, 0);
      }
      EndsLater(t, next, hooks, outs, cfg, m);
      n := m + 1;
    }
  }

  /** A status at which the cycles have ended stays. */
  lemma {:induction false} EndedCycles(t: Table, hooks: seq<string>, outs: seq<Outcomes>, cfg: HooksConfig, n: nat)
    requires n <= |outs| && EndsAt(t, hooks, outs, cfg, n) && !cfg.rerunOnFailure
    ensures IsTerminal(TableCycles(t, hooks, outs, cfg).status)
    decreases |outs|
  {
    NotTaken(t.status, cfg.rerunOnFailure);
    if n > 0 && ShouldRunHooks(t.status, cfg.rerunOnFailure) {
      var next := TableCycle(t, hooks, outs[0], cfg);
      assert outs[..n][0] == outs[0] && outs[..n][1..] == outs[1..][..n - 1];
      CyclesGoOn(t, hooks, outs[..n], cfg, next);
      CyclesGoOn(t, hooks, outs, cfg, next);
      EndedCycles(next, hooks, outs[1..], cfg, n - 1);
    }
  }

  /** Whatever the hooks do, and from whatever status, a terminal status is reached within
      hook_max_retries + 1 automatic cycles over a fixed hook set. It is the end unless failures are run
      again. */
  lemma CyclesEnd(st: HookState, hooks: seq<string>, outs: seq<Outcomes>, cfg: HooksConfig)
    requires NoDuplicates(hooks) && st.status == Mounted && cfg.maxRetries >= 0
    requires forall h :: h in st.rows ==> st.rows[h].attempts >= 0
    requires |outs| == cfg.maxRetries + 1
    ensures exists n :: 0 < n <= |outs| && IsTerminal(AutoCycles(st, hooks, outs[..n], cfg).hooksStatus)
    ensures !cfg.rerunOnFailure ==> IsTerminal(AutoCycles(st, hooks, outs, cfg).hooksStatus)
  {
    var n := CyclesEndAt(st, hooks, outs, cfg);
  }

  lemma CyclesEndAt(st: HookState, hooks: seq<string>, outs: seq<Outcomes>, cfg: HooksConfig) returns (n: nat)
    requires NoDuplicates(hooks) && st.status == Mounted && cfg.maxRetries >= 0
    requires forall h :: h in st.rows ==> st.rows[h].attempts >= 0
    requires |outs| == cfg.maxRetries + 1
    ensures 0 < n <= |outs| && IsTerminal(AutoCycles(st, hooks, outs[..n], cfg).hooksStatus)
    ensures !cfg.rerunOnFailure ==> IsTerminal(AutoCycles(st, hooks, outs, cfg).hooksStatus)
  {
    n := TableCyclesEnd(TableOf(st), hooks, outs, cfg, 0);
    AutoCyclesTable(st, hooks, outs[..n], cfg);
    AutoCyclesTable(st, hooks, outs, cfg);
    if !cfg.rerunOnFailure {
      EndedCycles(TableOf(st), hooks, outs, cfg, n);
    }
  }

  // ---- success without an execution ----

  /** The call executes its hooks. */
  predicate Executes(st: HookState, i: Input, cfg: HooksConfig) {
    && (i.force || ShouldRunHooks(st.hooksStatus, cfg.rerunOnFailure))
    && ValidTransition(st.status, HooksRunning)
    && i.discovery.Found?
  }

  /** A hook that one cycle stops before is not executed by it, nor by any call that follows. */
  lemma StoppedNeverRuns(st: HookState, i: Input, later: seq<Input>, cfg: HooksConfig, j: nat)
    requires Executes(st, i, cfg) && NoDuplicates(i.discovery.hooks) && j < |i.discovery.hooks|
    requires Halted(Seeded(st.rows, i.discovery.hooks), i.discovery.hooks, i.outcomes, cfg, j)
    ensures var end, hook := RunAll(st, [i] + later, cfg), i.discovery.hooks[j];
            && hook in end.rows && end.rows[hook].status == HookSkipped
            && multiset(end.runs)[hook] == multiset(st.runs)[hook]
  {
    var hooks := i.discovery.hooks;
    var rows := Seeded(st.rows, hooks);
    PassAt(rows, hooks, i.outcomes, cfg, j);
    var pass := RunFrom(rows, hooks, i.outcomes, cfg, false);
    assert multiset(st.runs + pass.ran) == multiset(st.runs) + multiset(pass.ran);
    var next := AfterRun(st, i.force, i.discovery, i.outcomes, cfg).0;
    assert next.rows == pass.rows && next.runs == st.runs + pass.ran;
    SettledForever(next, later, cfg, hooks[j]);
    assert ([i] + later)[1..] == later;
  }

  /** Every hook has succeeded or is skipped by its own row and outcome, and at least one has succeeded. */
  ghost predicate AllDone(rows: Rows, hooks: seq<string>, outcomes: Outcomes, cfg: HooksConfig) {
    && (forall i :: 0 <= i < |hooks| ==> OwnResult(rows, hooks[i], outcomes, cfg).status in {HookSuccess, HookSkipped})
    && exists i :: 0 <= i < |hooks| && OwnResult(rows, hooks[i], outcomes, cfg).status == HookSuccess
  }

  lemma OwnStatuses(rows: Rows, hook: string, outcomes: Outcomes, cfg: HooksConfig)
    ensures OwnResult(rows, hook, outcomes, cfg).status in {HookSuccess, HookSkipped, HookRetry, HookFailed}
    ensures OwnResult(rows, hook, outcomes, cfg).status == HookSkipped <==>
              hook in rows && rows[hook].status == HookSkipped
    ensures OwnRow(rows, hook, outcomes, cfg).status == OwnResult(rows, hook, outcomes, cfg).status
  {}

  lemma PointwiseDone(rows: Rows, hooks: seq<string>, outcomes: Outcomes, cfg: HooksConfig, pass: Pass, j: nat)
    requires Pointwise(rows, hooks, outcomes, cfg, pass)
    requires j < |hooks| && hooks[j] in rows && rows[hooks[j]].status == HookSkipped
    ensures Aggregate(pass.results) == HooksSuccess <==> AllDone(rows, hooks, outcomes, cfg)
  {
    forall i | 0 <= i < |hooks| ensures pass.results[i] == OwnResult(rows, hooks[i], outcomes, cfg) {
      OwnStatuses(rows, hooks[i], outcomes, cfg);
    }
    OwnStatuses(rows, hooks[j], outcomes, cfg);
    assert pass.results[j].status == HookSkipped;
    if AllDone(rows, hooks, outcomes, cfg) {
      var i :| 0 <= i < |hooks| && OwnResult(rows, hooks[i], outcomes, cfg).status == HookSuccess;
      assert pass.results[i].status == HookSuccess;
    } else if Aggregate(pass.results) == HooksSuccess {
      assert HasStatus(pass.results, HookSuccess);
      forall i | 0 <= i < |hooks|
        ensures OwnResult(rows, hooks[i], outcomes, cfg).status in {HookSuccess, HookSkipped}
      {
        OwnStatuses(rows, hooks[i], outcomes, cfg);
        assert pass.results[i] == OwnResult(rows, hooks[i], outcomes, cfg);
      }
    }
  }

  /** A cycle ends in success with a hook that is skipped if and only if the hook was skipped before, no
      hook fails or asks for a retry, and at least one has succeeded. */
  lemma SuccessWithSkippedIff(rows: Rows, hooks: seq<string>, outcomes: Outcomes, cfg: HooksConfig, j: nat)
    requires NoDuplicates(hooks) && j < |hooks|
    ensures var pass := RunFrom(rows, hooks, outcomes, cfg, false);
            && hooks[j] in pass.rows
            && (Aggregate(pass.results) == HooksSuccess && pass.rows[hooks[j]].status == HookSkipped <==>
                hooks[j] in rows && rows[hooks[j]].status == HookSkipped && AllDone(rows, hooks, outcomes, cfg))
  {
    var pass := RunFrom(rows, hooks, outcomes, cfg, false);
    PassAt(rows, hooks, outcomes, cfg, j);
    if Aggregate(pass.results) == HooksSuccess {
      UnfailedPass(rows, hooks, outcomes, cfg);
      OwnStatuses(rows, hooks[j], outcomes, cfg);
      assert Lookup(pass.rows, hooks[j]) == Some(OwnRow(rows, hooks[j], outcomes, cfg));
    } else if AllDone(rows, hooks, outcomes, cfg) {
      DoneIsUnfailed(rows, hooks, outcomes, cfg);
      UnfailedPass(rows, hooks, outcomes, cfg);
    }
    if hooks[j] in rows && rows[hooks[j]].status == HookSkipped
       && (Aggregate(pass.results) == HooksSuccess || AllDone(rows, hooks, outcomes, cfg)) {
      PointwiseDone(rows, hooks, outcomes, cfg, pass, j);
    }
  }

  lemma DoneIsUnfailed(rows: Rows, hooks: seq<string>, outcomes: Outcomes, cfg: HooksConfig)
    requires NoDuplicates(hooks) && AllDone(rows, hooks, outcomes, cfg)
    ensures !HasStatus(RunFrom(rows, hooks, outcomes, cfg.(stopOnHardFail := false), false).results, HookFailed)
  {
    var free := cfg.(stopOnHardFail := false);
    UnstoppedResults(rows, hooks, outcomes, free);
    assert forall h :: OwnResult(rows, h, outcomes, free) == OwnResult(rows, h, outcomes, cfg);
  }

  /** With stopping on, over any list of hooks: when the first fails hard once and succeeds in the next
      cycle, forced or because failures are run again, the archive has succeeded without any other hook
      ever being executed. */
  lemma SuccessUnexecuted(st: HookState, hooks: seq<string>, first: Outcomes, second: Outcomes, cfg: HooksConfig,
                          force: bool, j: nat)
    requires st == HookState(Mounted, HooksNone, st.lastError, map[], []) && cfg.stopOnHardFail
    requires NoDuplicates(hooks) && 0 < j < |hooks| && (force || cfg.rerunOnFailure)
    requires first(hooks[0]) == Exited(1) && second(hooks[0]) == Exited(0)
    ensures var end := RunAll(st, [Input(false, Found(hooks), first), Input(force, Found(hooks), second)], cfg);
            end.hooksStatus == HooksSuccess && multiset(end.runs)[hooks[j]] == 0
  {
    var i1, i2 := Input(false, Found(hooks), first), Input(force, Found(hooks), second);
    var rows := Seeded(map[], hooks);
    assert hooks[0] in hooks;
    assert FailsHard(rows, hooks[0], first, cfg);
    assert Halted(rows, hooks, first, cfg, j);
    StoppedNeverRuns(st, i1, [i2], cfg, j);
    assert [i1] + [i2] == [i1, i2];
    FirstFails(st, hooks, first, cfg);
    var next := AfterRun(st, false, Found(hooks), first, cfg).0;
    SecondSucceeds(next, hooks, second, cfg, force);
    assert RunAll(st, [i1, i2], cfg) == RunAll(next, [i2], cfg);
    assert RunAll(next, [i2], cfg) == AfterRun(next, force, Found(hooks), second, cfg).0;
  }

  lemma FirstFails(st: HookState, hooks: seq<string>, first: Outcomes, cfg: HooksConfig)
    requires st == HookState(Mounted, HooksNone, st.lastError, map[], []) && cfg.stopOnHardFail
    requires NoDuplicates(hooks) && hooks != [] && first(hooks[0]) == Exited(1)
    ensures var next := AfterRun(st, false, Found(hooks), first, cfg).0;
            && next.status == Mounted && next.hooksStatus == HooksFailed
            && hooks[0] in next.rows && !Settled(next.rows, hooks[0])
            && forall k :: 0 < k < |hooks| ==> hooks[k] in next.rows && next.rows[hooks[k]].status == HookSkipped
  {
    var rows := Seeded(map[], hooks);
    assert hooks[0] in hooks;
    var pass := RunFrom(rows, hooks, first, cfg, false);
    AfterRunTable(st, false, hooks, first, cfg);
    PassAt(rows, hooks, first, cfg, 0);
    assert pass.results[0].status == HookFailed;
    forall k | 0 < k < |hooks| ensures hooks[k] in pass.rows && pass.rows[hooks[k]].status == HookSkipped {
      assert FailsHard(rows, hooks[0], first, cfg);
      PassAt(rows, hooks, first, cfg, k);
    }
  }

  lemma SecondSucceeds(st: HookState, hooks: seq<string>, second: Outcomes, cfg: HooksConfig, force: bool)
    requires st.status == Mounted && st.hooksStatus == HooksFailed && (force || cfg.rerunOnFailure)
    requires NoDuplicates(hooks) && |hooks| > 1 && second(hooks[0]) == Exited(0)
    requires hooks[0] in st.rows && !Settled(st.rows, hooks[0])
    requires forall k :: 0 < k < |hooks| ==> hooks[k] in st.rows && st.rows[hooks[k]].status == HookSkipped
    ensures AfterRun(st, force, Found(hooks), second, cfg).0.hooksStatus == HooksSuccess
  {
    var rows := Seeded(st.rows, hooks);
    AfterRunTable(st, force, hooks, second, cfg);
    assert rows == st.rows;
    assert OwnResult(rows, hooks[0], second, cfg).status == HookSuccess;
    forall k | 0 <= k < |hooks|
      ensures OwnResult(rows, hooks[k], second, cfg).status in {HookSuccess, HookSkipped} {}
    assert AllDone(rows, hooks, second, cfg);
    SuccessWithSkippedIff(rows, hooks, second, cfg, 1);
  }
}
