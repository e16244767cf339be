/** The nested-skip advisory over the life of a mount: what an index child skipped reaches the mounted row
    or the reason of a failure, and can be read back there (internal/mounter/engine.go,
    internal/mounter/nested.go). */
module Advisories {
  import opened ArchiveStore
  import opened Corners
  import opened Lifecycle
  import opened NestedSkips
  import opened Options
  import opened Statuses
  import opened Steps
  import opened Strings

  /** The reason of a failure, enriched with skips, gives them back exactly when their listing is readable. */
  lemma EnrichThenExtract(reason: string, paths: seq<string>)
    requires paths != [] && |paths| <= MAX_INT
    ensures Extract(Enrich(reason, paths)) == (Format(paths, DEFAULT_SAMPLES), |paths|) <==>
            Readable(paths, DEFAULT_SAMPLES)
  {
    var sum := Format(paths, DEFAULT_SAMPLES);
    var text := Enrich(reason, paths);
    FormatIsSegment(paths, DEFAULT_SAMPLES);
    if Readable(paths, DEFAULT_SAMPLES) {
      EnrichEndsInSum(reason, paths);
      ExtractByOfSuffix(MARK, SummaryCount, text, sum, |paths|);
    }
    if Extract(text) == (sum, |paths|) {
      ExtractByIsSegment(MARK, SummaryCount, text);
    }
  }

  lemma EnrichEndsInSum(reason: string, paths: seq<string>)
    requires paths != [] && Trimmed(Format(paths, DEFAULT_SAMPLES)) && Format(paths, DEFAULT_SAMPLES) != ""
    ensures HasSuffix(TrimSpace(Enrich(reason, paths)), Format(paths, DEFAULT_SAMPLES))
  {
    var sum, trimmed := Format(paths, DEFAULT_SAMPLES), TrimSpace(reason);
    if trimmed == "" {
      assert HasSuffix(sum, sum);
    } else {
      TrimSpaceKeepsTail(trimmed + "; ", sum);
    }
  }

  /** A failure keeps the skips of its child readable. */
  lemma FailureKeepsSkips(w: World, cfg: Config, id: Id, reason: string, now: Time)
    requires id in w.rows && id in w.live && w.live[id].skips != [] && |w.live[id].skips| <= MAX_INT
    requires Readable(w.live[id].skips, DEFAULT_SAMPLES)
    ensures var (w', ok) := MarkFailed(w, cfg, id, reason, now);
            ok ==> && id in w'.rows && w'.rows[id].lastError.Some?
                   && Extract(w'.rows[id].lastError.value) ==
                      (Format(w.live[id].skips, DEFAULT_SAMPLES), |w.live[id].skips|)
  {
    EnrichThenExtract(reason, w.live[id].skips);
    FailedText(w, cfg, id, reason, now);
  }

  lemma FailedText(w: World, cfg: Config, id: Id, reason: string, now: Time)
    requires id in w.rows && id in w.live
    ensures var (w', ok) := MarkFailed(w, cfg, id, reason, now);
            ok ==> id in w'.rows && w'.rows[id].lastError == Some(Enrich(reason, w.live[id].skips))
  {}

  // ---- from the index phase to the mounted row ----

  lemma {:induction false} NothingToDrop(skips: seq<string>)
    requires forall p :: p in skips ==> p != ""
    ensures Carried(skips) == skips
  {
    if skips != [] {
      assert skips[0] in skips && forall p :: p in skips[1..] ==> p in skips;
      NothingToDrop(skips[1..]);
    }
  }

  /** A mount child that was started after an index phase carries the skips noted there. */
  lemma HandoverCarries(w: World, cfg: Config, id: Id, m: Managed, env: BeginEnv)
    requires id in w.rows
    ensures var (next, begun) := StartMountPhase(w, cfg, id, m, env);
            begun.Started? ==>
              && id in next.live && next.live[id] == begun.managed
              && next.live[id].skips == Carried(m.skips)
  {
    StartedIsLive(w, cfg, id, m.archivePath, false, Some(false), env);
  }

  lemma HandoverClaims(w: World, cfg: Config, id: Id, m: Managed, env: BeginEnv)
    requires id in w.rows && w.rows[id].status == Mounting
    ensures var (next, begun) := StartMountPhase(w, cfg, id, m, env);
            begun.Started? ==> id in next.rows && next.rows[id].status == Mounting
  {
    var claimed := Claimed(w, cfg, id, Mounting, env);
    var cleared := claimed.(alive := claimed.alive - env.staleHolders);
    LaunchStarts(claimed, cfg, id, m.archivePath, false, false, env, cleared);
    var begun := BeginProcess(w, cfg, id, m.archivePath, false, Some(false), env).1;
    if begun.Started? {
      SpawnedShows(cleared, id, Mounting, begun.managed, env.now);
    }
  }

  /** What marking mounted stores. */
  lemma MountedText(w: World, id: Id, now: Time)
    requires id in w.rows && id in w.live && w.rows[id].status == Mounting
    ensures var (w', ok) := MarkMounted(w, id, now);
            && ok && id in w'.rows && w'.rows[id].status == Mounted
            && w'.rows[id].mountPid == Some(w.live[id].pid)
            && w'.rows[id].firstMountedAt.Some?
            && (Format(w.live[id].skips, DEFAULT_SAMPLES) != "" ==>
                  w'.rows[id].lastError == Some(Format(w.live[id].skips, DEFAULT_SAMPLES)))
  {}

  lemma FormatIsNotEmpty(paths: seq<string>)
    requires paths != []
    ensures Format(paths, DEFAULT_SAMPLES) != ""
  {}

  /** The skips of the index child become the error text of the mounted row, even when the mount child
      reports none of its own; the row stores the mount child's pid and its first mount. */
  lemma SkipsReachTheMountedRow(w: World, cfg: Config, id: Id, env: BeginEnv, now: Time)
    requires id in w.rows && CheckChild(w, id) == ChildIndexComplete && w.rows[id].status == Indexing
    requires w.live[id].skips != [] && forall p :: p in w.live[id].skips ==> p != ""
    ensures var (next, begun) := CompleteIndex(w, cfg, id, env);
            begun.Started? ==>
              var (w', ok) := MarkMounted(next, id, now);
              && ok && id in w'.rows && w'.rows[id].status == Mounted
              && w'.rows[id].mountPid == Some(begun.managed.pid) && w'.rows[id].firstMountedAt.Some?
              && w'.rows[id].lastError == Some(Format(w.live[id].skips, DEFAULT_SAMPLES))
  {
    var done := IndexDone(w, id, env.now);
    IndexDoneIs(w, id, env.now);
    CompleteIndexIs(w, cfg, id, env);
    HandoverCarries(done, cfg, id, w.live[id], env);
    HandoverClaims(done, cfg, id, w.live[id], env);
    NothingToDrop(w.live[id].skips);
    FormatIsNotEmpty(w.live[id].skips);
    var (next, begun) := CompleteIndex(w, cfg, id, env);
    if begun.Started? {
      MountedText(next, id, now);
    }
  }

  // ---- mounting again ----

  lemma CountedIsMatched(text: string)
    requires SummaryCount(text) > 0
    ensures text != "" && MatchSummary(text).Some?
  {}

  lemma MatchedIsSkipOnly(text: string, trimmed: string)
    requires trimmed == TrimSpace(text) && trimmed != "" && MatchSummary(trimmed).Some?
    ensures IsSkipOnly(text)
  {}

  /** Every segment that can be extracted counts as an advisory by itself. */
  lemma SegmentIsSkipOnly(sum: string, n: nat)
    requires IsSegment(MARK, SummaryCount, sum, n)
    ensures IsSkipOnly(sum)
  {
    CountedIsMatched(sum);
    MatchedIsSkipOnly(sum, sum);
  }

  /** A stored advisory stays when a later mount reports no skips, with or without a live child. */
  lemma RemountKeepsAdvisory(w: World, id: Id, now: Time)
    requires id in w.rows && w.rows[id].lastError.Some? && IsSkipOnly(w.rows[id].lastError.value)
    requires id in w.live ==> w.live[id].skips == []
    ensures var w' := MarkMounted(w, id, now).0; id in w'.rows && w'.rows[id].lastError == w.rows[id].lastError
  {}

  /** Any other error is gone once the archive is mounted. */
  lemma MountClearsError(w: World, id: Id, now: Time)
    requires id in w.rows && w.rows[id].lastError.Some? && !IsSkipOnly(w.rows[id].lastError.value)
    requires id in w.live ==> w.live[id].skips == []
    ensures var (w', ok) := MarkMounted(w, id, now); ok ==> id in w'.rows && w'.rows[id].lastError == None
  {}
}
