/** The stable-file gate: a file is taken up once it has stopped changing (internal/scanner/stable.go). */
module StableGate {
  import opened Options

  datatype Mode = TwoScans | MinAge | Both

  /** What one scan saw of a file. */
  datatype Observation = Observation(sizeBytes: int, mtimeNs: int)

  /** PriorStat. */
  datatype Prior = Prior(seen: Observation, consecutiveSame: nat)

  /** The calls that change the gate. */
  datatype Call =
    | Checked(path: string, seen: Observation, assumeStable: bool)
    | Reset(path: string)
    | Forgot(present: set<string>)

  /** The call takes away what is known of the path. */
  predicate Clears(call: Call, path: string) {
    || (call.Reset? && (call.path == "" || call.path == path))
    || (call.Forgot? && path !in call.present)
  }

  /** The observations of a path since it was last reset or forgotten; an assumed one counts twice. */
  function Since(calls: seq<Call>, path: string): seq<Observation> {
    if calls == [] then []
    else
      var last, before := calls[|calls| - 1], Since(calls[..|calls| - 1], path);
      if Clears(last, path) then []
      else if last.Checked? && last.path == path then
        before + if last.assumeStable then [last.seen, last.seen] else [last.seen]
      else before
  }

  /** The last two observations are equal. */
  predicate Settled(seen: seq<Observation>) {
    |seen| >= 2 && seen[|seen| - 1] == seen[|seen| - 2]
  }

  /** ageSeconds: a file from the future has no age. */
  function AgeSeconds(mtimeNs: int, now: real): real {
    var age := now - mtimeNs as real / 1000000000.0;
    if age < 0.0 then 0.0 else age
  }

  /** What Check must answer, from the whole history of the path. */
  predicate Stable(mode: Mode, minAge: real, seen: seq<Observation>, now: real) {
    && Settled(seen)
    && (mode != TwoScans ==> AgeSeconds(seen[|seen| - 1].mtimeNs, now) >= minAge)
  }

  /** What Peek must answer. Without a clock the age is not looked at, and min_age alone says no. */
  predicate WouldBeStable(mode: Mode, minAge: real, seen: seq<Observation>,
                          sizeBytes: Option<int>, mtimeNs: Option<int>, now: Option<real>) {
    && seen != []
    && sizeBytes.GetOr(seen[|seen| - 1].sizeBytes) == seen[|seen| - 1].sizeBytes
    && mtimeNs.GetOr(seen[|seen| - 1].mtimeNs) == seen[|seen| - 1].mtimeNs
    && match now
       case Some(t) => Stable(mode, minAge, seen, t)
       case None => mode != MinAge && Settled(seen)
  }

  ghost predicate Matches(prior: Option<Prior>, seen: seq<Observation>) {
    match prior
    case None => seen == []
    case Some(p) =>
      && seen != [] && seen[|seen| - 1] == p.seen
      && p.consecutiveSame >= 1
      && (p.consecutiveSame >= 2 <==> Settled(seen))
  }

  class StableFileGate {
    const mode: Mode
    const minAge: real
    var prior: map<string, Prior>
    ghost var calls: seq<Call>

    function PriorOf(path: string): Option<Prior>
      reads this
    {
      if path in prior then Some(prior[path]) else None
    }

    /** The table is exactly what the calls so far amount to. */
    ghost predicate Valid()
      reads this
    {
      forall path :: Matches(PriorOf(path), Since(calls, path))
    }

    constructor (mode: Mode, minAge: real)
      ensures Valid() && this.mode == mode && this.minAge == minAge && calls == []
    {
      this.mode, this.minAge := mode, minAge;
      prior, calls := map[], [];
    }

    method Reset(path: string)
      requires Valid()
      modifies this
      ensures Valid() && calls == old(calls) + [Call.Reset(path)]
    {
      ghost var was := calls;
      calls := calls + [Call.Reset(path)];
      assert calls[..|calls| - 1] == was;
      if path == "" {
        prior := map[];
      } else {
        prior := prior - {path};
      }
      forall p ensures Matches(PriorOf(p), Since(calls, p)) {
        assert Matches(old(PriorOf(p)), Since(was, p));
      }
    }

    method ForgetMissing(present: set<string>)
      requires Valid()
      modifies this
      ensures Valid() && calls == old(calls) + [Forgot(present)]
    {
      ghost var was := calls;
      calls := calls + [Forgot(present)];
      assert calls[..|calls| - 1] == was;
      var rest := prior.Keys;
      var kept := prior;
      while rest != {}
        invariant rest <= prior.Keys
        invariant kept == map p | p in prior && (p in present || p in rest) :: prior[p]
        decreases |rest|
      {
        var p :| p in rest;
        if p !in present {
          kept := kept - {p};
        }
        rest := rest - {p};
      }
      prior := kept;
      forall p ensures Matches(PriorOf(p), Since(calls, p)) {
        assert Matches(old(PriorOf(p)), Since(was, p));
      }
    }

    method Check(path: string, sizeBytes: int, mtimeNs: int, now: real, assumeStable: bool) returns (stable: bool)
      requires Valid()
      modifies this
      ensures Valid() && calls == old(calls) + [Checked(path, Observation(sizeBytes, mtimeNs), assumeStable)]
      ensures stable == (assumeStable || Stable(mode, minAge, Since(calls, path), now))
    {
      var seen := Observation(sizeBytes, mtimeNs);
      ghost var was := calls;
      assert Matches(PriorOf(path), Since(was, path));
      calls := calls + [Checked(path, seen, assumeStable)];
      assert calls[..|calls| - 1] == was;
      var sizeUnchanged, twoOk := false, false;
      if assumeStable {
        prior := prior[path := Prior(seen, 2)];
      } else if path !in prior || prior[path].seen != seen {
        prior := prior[path := Prior(seen, 1)];
      } else {
        prior := prior[path := Prior(seen, prior[path].consecutiveSame + 1)];
        twoOk := prior[path].consecutiveSame >= 2;
        sizeUnchanged := true;
      }
      forall p ensures Matches(PriorOf(p), Since(calls, p)) {
        assert Matches(old(PriorOf(p)), Since(was, p));
      }
      if assumeStable {
        return true;
      }
      var ageOk := AgeSeconds(mtimeNs, now) >= minAge;
      match mode
      case TwoScans => return twoOk;
      case MinAge => return ageOk && sizeUnchanged;
      case Both => return twoOk && ageOk && sizeUnchanged;
    }

    method Peek(path: string, sizeBytes: Option<int>, mtimeNs: Option<int>, now: Option<real>) returns (stable: bool)
      requires Valid()
      ensures stable == WouldBeStable(mode, minAge, Since(calls, path), sizeBytes, mtimeNs, now)
    {
      assert Matches(PriorOf(path), Since(calls, path));
      if path !in prior {
        return false;
      }
      var p := prior[path];
      if sizeBytes.GetOr(p.seen.sizeBytes) != p.seen.sizeBytes || mtimeNs.GetOr(p.seen.mtimeNs) != p.seen.mtimeNs {
        return false;
      }
      var twoOk := p.consecutiveSame >= 2;
      var minAgeOk := twoOk;
      if now.Some? {
        minAgeOk := AgeSeconds(p.seen.mtimeNs, now.value) >= minAge && p.consecutiveSame >= 2;
      }
      match mode
      case TwoScans => return twoOk;
      case MinAge => return now.Some? && minAgeOk;
      case Both => return twoOk && minAgeOk;
    }
  }

  // ---- what the answers mean ----

  /** A reset forgets its path, or all paths; what is not present is forgotten. Nothing else is. */
  lemma ForgottenBy(calls: seq<Call>, call: Call, path: string)
    ensures call.Reset? ==>
              Since(calls + [call], path) == if call.path == "" || call.path == path then [] else Since(calls, path)
    ensures call.Forgot? ==> Since(calls + [call], path) == if path in call.present then Since(calls, path) else []
  {
    assert (calls + [call])[..|calls + [call]| - 1] == calls;
  }

  /** The time since the file was changed is at least the minimum; without a minimum any time will do, even
      one to come. */
  predicate IsOldEnough(minAge: real, mtimeNs: int, now: real) {
    minAge <= 0.0 || now - mtimeNs as real / 1000000000.0 >= minAge
  }

  /** A file is stable when it was the same twice in a row, and is old enough where that matters. */
  lemma StableIff(mode: Mode, minAge: real, seen: seq<Observation>, now: real)
    ensures Stable(mode, minAge, seen, now) <==>
              && |seen| >= 2 && seen[|seen| - 1] == seen[|seen| - 2]
              && (mode == TwoScans || IsOldEnough(minAge, seen[|seen| - 1].mtimeNs, now))
  {}

  /** Without a clock a peek goes by the scans alone, and says no when only the age counts. */
  lemma PeekWithoutClock(mode: Mode, minAge: real, seen: seq<Observation>, sizeBytes: Option<int>, mtimeNs: Option<int>)
    ensures WouldBeStable(mode, minAge, seen, sizeBytes, mtimeNs, None) <==>
              && mode != MinAge && |seen| >= 2 && seen[|seen| - 1] == seen[|seen| - 2]
              && (sizeBytes.Some? ==> sizeBytes.value == seen[|seen| - 1].sizeBytes)
              && (mtimeNs.Some? ==> mtimeNs.value == seen[|seen| - 1].mtimeNs)
  {}

  /** A file that is not as it was seen last is not stable, whatever the clock. */
  lemma PeekSeesChange(mode: Mode, minAge: real, seen: seq<Observation>, sizeBytes: Option<int>, mtimeNs: Option<int>,
                       now: Option<real>)
    requires seen == [] || sizeBytes.GetOr(seen[|seen| - 1].sizeBytes) != seen[|seen| - 1].sizeBytes
             || mtimeNs.GetOr(seen[|seen| - 1].mtimeNs) != seen[|seen| - 1].mtimeNs
    ensures !WouldBeStable(mode, minAge, seen, sizeBytes, mtimeNs, now)
  {}

  /** A scan that is not assumed stable settles a file exactly when the previous observation since the last
      reset was the same. */
  lemma SettledByScan(calls: seq<Call>, path: string, seen: Observation)
    ensures var before := Since(calls, path);
            Settled(Since(calls + [Checked(path, seen, false)], path)) <==>
              before != [] && before[|before| - 1] == seen
  {
    var all := calls + [Checked(path, seen, false)];
    assert all[..|all| - 1] == calls;
  }

  /** A file that is assumed stable has settled at once. */
  lemma AssumedSettles(calls: seq<Call>, path: string, seen: Observation)
    ensures var after := Since(calls + [Checked(path, seen, true)], path);
            Settled(after) && after[|after| - 1] == seen
  {
    var all := calls + [Checked(path, seen, true)];
    assert all[..|all| - 1] == calls;
  }

  /** A reset path, and a path that was missing, start over: the next scan cannot find them stable. */
  lemma StartsOver(calls: seq<Call>, call: Call, path: string, seen: Observation)
    requires Clears(call, path)
    ensures !Settled(Since(calls + [call] + [Checked(path, seen, false)], path))
  {
    var forgotten := calls + [call];
    assert forgotten[..|forgotten| - 1] == calls;
    SettledByScan(forgotten, path, seen);
  }

  /** What happens to other paths does not matter. */
  lemma OtherPathsDoNotMatter(calls: seq<Call>, call: Call, path: string)
    requires !Clears(call, path) && !(call.Checked? && call.path == path)
    ensures Since(calls + [call], path) == Since(calls, path)
  {
    assert (calls + [call])[..|calls + [call]| - 1] == calls;
  }

  /** Right after a normal check, a peek at the same clock gives the same answer, in every mode, with or
      without the size and time of the file. */
  lemma PeekAgreesWithCheck(mode: Mode, minAge: real, calls: seq<Call>, path: string, seen: Observation, now: real,
                            sizeBytes: Option<int>, mtimeNs: Option<int>)
    requires sizeBytes == None || sizeBytes == Some(seen.sizeBytes)
    requires mtimeNs == None || mtimeNs == Some(seen.mtimeNs)
    ensures var after := Since(calls + [Checked(path, seen, false)], path);
            WouldBeStable(mode, minAge, after, sizeBytes, mtimeNs, Some(now)) == Stable(mode, minAge, after, now)
  {
    var all := calls + [Checked(path, seen, false)];
    assert all[..|all| - 1] == calls;
  }

  /** A file that a peek found stable stays stable as time goes on, until it is looked at again. */
  lemma PeekStaysStable(mode: Mode, minAge: real, seen: seq<Observation>, sizeBytes: Option<int>,
                        mtimeNs: Option<int>, now: real, later: real)
    requires now <= later && WouldBeStable(mode, minAge, seen, sizeBytes, mtimeNs, Some(now))
    ensures WouldBeStable(mode, minAge, seen, sizeBytes, mtimeNs, Some(later))
  {}
}
