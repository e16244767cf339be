/** Allocation of mount directory names (internal/paths/sanitize.go). */
module MountNames {
  import opened Decimal

  const MAX_NAME := 120

  predicate IsSafe(c: char) {
    || 'A' <= c <= 'Z'
    || 'a' <= c <= 'z'
    || '0' <= c <= '9'
    || c == '.' || c == '_' || c == '+' || c == '@' || c == '-'
  }

  predicate IsEdge(c: char) {
    c == '.' || c == '_'
  }

  /** Every maximal run of unsafe characters becomes one underscore. */
  function ReplaceUnsafe(s: string): (r: string)
    ensures forall i :: 0 <= i < |r| ==> IsSafe(r[i])
  {
    if s == "" then ""
    else if IsSafe(s[0]) then [s[0]] + ReplaceUnsafe(s[1..])
    else if |s| > 1 && !IsSafe(s[1]) then ReplaceUnsafe(s[1..])
    else "_" + ReplaceUnsafe(s[1..])
  }

  /** Every run of underscores becomes one underscore. */
  function CollapseUnderscores(s: string): (r: string)
    ensures forall i :: 0 <= i < |r| ==> r[i] in s
  {
    if s == "" then ""
    else if |s| > 1 && s[0] == '_' && s[1] == '_' then CollapseUnderscores(s[1..])
    else [s[0]] + CollapseUnderscores(s[1..])
  }

  function TrimLeft(s: string): (r: string)
    ensures |r| <= |s| && r == s[|s| - |r|..]
    ensures r != "" ==> !IsEdge(r[0])
  {
    if s != "" && IsEdge(s[0]) then TrimLeft(s[1..]) else s
  }

  function TrimRight(s: string): (r: string)
    ensures r <= s
    ensures r != "" ==> !IsEdge(r[|r| - 1])
    ensures s != "" && !IsEdge(s[0]) ==> r != ""
  {
    if s != "" && IsEdge(s[|s| - 1]) then TrimRight(s[..|s| - 1]) else s
  }

  function Prefix(s: string, n: nat): (r: string)
    ensures r <= s && |r| <= n
    ensures |s| <= n ==> r == s
    ensures |s| > n ==> |r| == n
  {
    if |s| > n then s[..n] else s
  }

  /** A name that can be a directory entry of mount_root: safe characters only, never hidden,
      never "." or "..". */
  predicate IsMountName(name: string) {
    && name != ""
    && !IsEdge(name[0])
    && forall i :: 0 <= i < |name| ==> IsSafe(name[i])
  }

  /** What a basename is trimmed to, before it is cut. */
  function Trimmed(basename: string): (r: string)
    ensures forall i :: 0 <= i < |r| ==> IsSafe(r[i])
    ensures r != "" ==> !IsEdge(r[0])
  {
    var collapsed := CollapseUnderscores(ReplaceUnsafe(basename));
    assert forall i :: 0 <= i < |collapsed| ==> IsSafe(collapsed[i]);
    TrimRight(TrimLeft(collapsed))
  }

  lemma FallbackIsMountName()
    ensures IsMountName("archive") && |"archive"| <= MAX_NAME
  {}

  lemma CutIsMountName(name: string)
    requires IsMountName(name)
    ensures IsMountName(Prefix(name, MAX_NAME))
  {}

  /** The name before any collision is looked at. */
  function BaseName(basename: string): (name: string)
    ensures IsMountName(name)
    ensures |name| <= MAX_NAME
  {
    FallbackIsMountName();
    if basename == "" then "archive"
    else
      var trimmed := Trimmed(basename);
      if trimmed == "" then "archive"
      else
        CutIsMountName(trimmed);
        Prefix(trimmed, MAX_NAME)
  }

  /** A name cut to make room for "--suffix". */
  function CollideCandidate(name: string, suffix: string): string {
    var baseMax := if MAX_NAME - |suffix| - 2 < 1 then 1 else MAX_NAME - |suffix| - 2;
    var base := TrimRight(Prefix(name, baseMax));
    (if base == "" then "archive" else base) + "--" + suffix
  }

  function IdOrUnknown(id: string): (r: string)
    ensures r != ""
  {
    if id == "" then "unknown" else id
  }

  /** The i-th numbered candidate, i >= 2. */
  function Numbered(name: string, id: string, i: nat): string {
    CollideCandidate(name, Prefix(id, 8) + "-" + Itoa(i))
  }

  /** The first candidate cut from a longer and longer prefix of the id. */
  function FirstByIdPrefix(name: string, id: string, taken: set<string>, n: nat): string
    decreases |id| + 1 - n
  {
    if n > |id| then FirstNumbered(name, id, taken, 2)
    else
      var candidate := CollideCandidate(name, id[..n]);
      if candidate !in taken then candidate else FirstByIdPrefix(name, id, taken, n + 1)
  }

  /** The first free numbered candidate from i on. A candidate that was tried is struck from the
      taken names: it cannot come again, which is why the search ends. */
  function FirstNumbered(name: string, id: string, taken: set<string>, i: nat): string
    decreases |taken|
  {
    var candidate := Numbered(name, id, i);
    if candidate !in taken then candidate else FirstNumbered(name, id, taken - {candidate}, i + 1)
  }

  /** The allocated name: the first free candidate in the documented order. */
  function Allocate(basename: string, archiveId: string, taken: set<string>): string {
    var name := BaseName(basename);
    if name !in taken then name
    else
      var id := IdOrUnknown(archiveId);
      var candidate := CollideCandidate(name, Prefix(id, 8));
      if candidate !in taken then candidate else FirstByIdPrefix(name, id, taken, 8)
  }

  /** The loop of SanitizeMountName. Its last loop has no bound of its own. */
  method SanitizeMountName(basename: string, archiveId: string, taken: set<string>) returns (r: string)
    ensures r == Allocate(basename, archiveId, taken)
    ensures r !in taken
  {
    AllocateIsFree(basename, archiveId, taken);
    var name := BaseName(basename);
    if name !in taken {
      return name;
    }
    var id := IdOrUnknown(archiveId);
    var suffix := Prefix(id, 8);
    var candidate := CollideCandidate(name, suffix);
    if candidate !in taken {
      return candidate;
    }
    var n := 8;
    while n <= |id|
      invariant 8 <= n
      invariant FirstByIdPrefix(name, id, taken, 8) == FirstByIdPrefix(name, id, taken, n)
    {
      suffix := id[..n];
      candidate := CollideCandidate(name, suffix);
      if candidate !in taken {
        return candidate;
      }
      n := n + 1;
    }
    r := CountUp(name, id, taken);
  }

  /** The closing numeric loop of SanitizeMountName. */
  method CountUp(name: string, id: string, taken: set<string>) returns (r: string)
    ensures r == FirstNumbered(name, id, taken, 2)
  {
    var i := 2;
    ghost var untried := taken;
    while true
      invariant i >= 2 && untried <= taken
      invariant FirstNumbered(name, id, taken, 2) == FirstNumbered(name, id, untried, i)
      invariant forall c :: c in taken - untried ==> Tried(name, id, c, i)
      decreases |untried|
    {
      var prefix := Prefix(id, 8);
      var extra := prefix + "-" + Itoa(i);
      var candidate := CollideCandidate(name, extra);
      assert candidate == Numbered(name, id, i);
      if candidate !in taken {
        return candidate;
      }
      TriedIsNotNext(name, id, taken - untried, i);
      assert taken - (untried - {candidate}) == taken - untried + {candidate};
      untried := untried - {candidate};
      i := i + 1;
    }
  }

  ghost predicate Tried(name: string, id: string, c: string, i: nat) {
    exists j: nat :: j < i && c == Numbered(name, id, j)
  }

  lemma TriedIsNotNext(name: string, id: string, tried: set<string>, i: nat)
    requires forall c :: c in tried ==> Tried(name, id, c, i)
    ensures Numbered(name, id, i) !in tried
    ensures forall c :: c in tried + {Numbered(name, id, i)} ==> Tried(name, id, c, i + 1)
  {
    forall j: nat | j < i ensures Numbered(name, id, j) != Numbered(name, id, i) {
      NumberedDistinct(name, id, j, i);
    }
  }

  /** c ends in a dash followed by a. */
  predicate EndsInNumber(c: string, a: string) {
    |c| > |a| && c[|c| - |a|..] == a && c[|c| - |a| - 1] == '-'
  }

  lemma NumberIsUnique(c: string, a: string, b: string)
    requires AllDigits(a) && AllDigits(b) && EndsInNumber(c, a) && EndsInNumber(c, b)
    ensures a == b
  {
    assert forall k :: |c| - |a| <= k < |c| ==> c[k] == c[|c| - |a|..][k - (|c| - |a|)];
    assert forall k :: |c| - |b| <= k < |c| ==> c[k] == c[|c| - |b|..][k - (|c| - |b|)];
    assert |a| == |b|;
  }

  /** Two numbered candidates never coincide, although the base may be cut at different places. */
  lemma NumberedDistinct(name: string, id: string, i: nat, j: nat)
    requires i != j
    ensures Numbered(name, id, i) != Numbered(name, id, j)
  {
    NumberedTail(name, id, i);
    NumberedTail(name, id, j);
    AtoiItoa(i);
    AtoiItoa(j);
    if Numbered(name, id, i) == Numbered(name, id, j) {
      NumberIsUnique(Numbered(name, id, i), Itoa(i), Itoa(j));
    }
  }

  lemma NumberedTail(name: string, id: string, i: nat)
    ensures EndsInNumber(Numbered(name, id, i), Itoa(i))
  {
    var c, a := Numbered(name, id, i), Itoa(i);
    var suffix := Prefix(id, 8) + "-" + a;
    assert c[|c| - |suffix|..] == suffix;
    assert suffix[|suffix| - |a|..] == a && suffix[|suffix| - |a| - 1] == '-';
    assert c[|c| - |a|..] == c[|c| - |suffix|..][|suffix| - |a|..];
  }

  /** The numbered search ends on a free name after at most |taken| refusals, and skips no free one. */
  lemma {:induction false} FirstNumberedIsFirst(name: string, id: string, taken: set<string>, i: nat)
    returns (k: nat)
    ensures i <= k <= i + |taken|
    ensures FirstNumbered(name, id, taken, i) == Numbered(name, id, k) && Numbered(name, id, k) !in taken
    ensures forall j :: i <= j < k ==> Numbered(name, id, j) in taken
    decreases |taken|
  {
    var c := Numbered(name, id, i);
    if c !in taken {
      k := i;
    } else {
      k := FirstNumberedIsFirst(name, id, taken - {c}, i + 1);
      NumberedDistinct(name, id, i, k);
    }
  }

  /** The allocated name is free, whatever the finite set of taken names. */
  lemma AllocateIsFree(basename: string, archiveId: string, taken: set<string>)
    ensures Allocate(basename, archiveId, taken) !in taken
  {
    ByIdPrefixIsFree(BaseName(basename), IdOrUnknown(archiveId), taken, 8);
  }

  lemma {:induction false} ByIdPrefixIsFree(name: string, id: string, taken: set<string>, n: nat)
    ensures FirstByIdPrefix(name, id, taken, n) !in taken
    decreases |id| + 1 - n
  {
    if n > |id| {
      var _ := FirstNumberedIsFirst(name, id, taken, 2);
    } else if CollideCandidate(name, id[..n]) in taken {
      ByIdPrefixIsFree(name, id, taken, n + 1);
    }
  }

  /** The "archive" fallback of a candidate is never used: a mount name keeps at least its first
      character, and a candidate for a short suffix fits in 120 characters. */
  lemma CandidateShape(name: string, suffix: string) returns (base: string)
    requires IsMountName(name)
    ensures CollideCandidate(name, suffix) == base + "--" + suffix
    ensures base != "" && base <= name
    ensures |suffix| <= MAX_NAME - 3 ==> |CollideCandidate(name, suffix)| <= MAX_NAME
  {
    var baseMax := if MAX_NAME - |suffix| - 2 < 1 then 1 else MAX_NAME - |suffix| - 2;
    var cut := Prefix(name, baseMax);
    assert cut[0] == name[0];
    base := TrimRight(cut);
  }

  /** A suffix the search may append: a prefix of the id, or its first eight characters and a number
      no larger than the number of taken names plus two. */
  ghost predicate IsSuffix(id: string, taken: set<string>, suffix: string) {
    || suffix <= id
    || exists k: nat :: k <= |taken| + 2 && suffix == Prefix(id, 8) + "-" + Itoa(k)
  }

  lemma {:induction false} ByIdPrefixSuffix(name: string, id: string, taken: set<string>, n: nat)
    returns (suffix: string)
    ensures FirstByIdPrefix(name, id, taken, n) == CollideCandidate(name, suffix)
    ensures IsSuffix(id, taken, suffix)
    decreases |id| + 1 - n
  {
    if n > |id| {
      var k := FirstNumberedIsFirst(name, id, taken, 2);
      suffix := Prefix(id, 8) + "-" + Itoa(k);
    } else if CollideCandidate(name, id[..n]) !in taken {
      suffix := id[..n];
    } else {
      suffix := ByIdPrefixSuffix(name, id, taken, n + 1);
    }
  }

  /** The allocated name is the base name, or a candidate for one of the allowed suffixes. */
  lemma AllocateSuffix(basename: string, archiveId: string, taken: set<string>) returns (suffix: string)
    ensures IsSuffix(IdOrUnknown(archiveId), taken, suffix)
    ensures var r, name := Allocate(basename, archiveId, taken), BaseName(basename);
            r == name || r == CollideCandidate(name, suffix)
  {
    var name, id := BaseName(basename), IdOrUnknown(archiveId);
    suffix := Prefix(id, 8);
    if name in taken && CollideCandidate(name, suffix) in taken {
      suffix := ByIdPrefixSuffix(name, id, taken, 8);
    }
  }

  /** Every allocated name is a legal directory entry when the id is made of safe characters. */
  lemma AllocateIsMountName(basename: string, archiveId: string, taken: set<string>)
    requires forall i :: 0 <= i < |archiveId| ==> IsSafe(archiveId[i])
    ensures IsMountName(Allocate(basename, archiveId, taken))
  {
    var suffix := AllocateSuffix(basename, archiveId, taken);
    SuffixIsSafe(IdOrUnknown(archiveId), taken, suffix);
    CandidateIsMountName(BaseName(basename), suffix);
  }

  lemma SuffixIsSafe(id: string, taken: set<string>, suffix: string)
    requires IsSuffix(id, taken, suffix)
    requires forall i :: 0 <= i < |id| ==> IsSafe(id[i])
    ensures forall i :: 0 <= i < |suffix| ==> IsSafe(suffix[i])
  {
    if !(suffix <= id) {
      var k: nat :| k <= |taken| + 2 && suffix == Prefix(id, 8) + "-" + Itoa(k);
      assert forall i :: 0 <= i < |Itoa(k)| ==> IsDigit(Itoa(k)[i]);
    }
  }

  /** It fits in 120 characters for ids of up to 117, UUIDs among them, as long as fewer than a googol
      names are taken. */
  lemma AllocateFits(basename: string, archiveId: string, taken: set<string>)
    requires |archiveId| <= MAX_NAME - 3
    requires |taken| + 2 < Pow10(100)
    ensures |Allocate(basename, archiveId, taken)| <= MAX_NAME
  {
    forall k: nat | k <= |taken| + 2 ensures |Itoa(k)| <= 100 {
      ItoaLength(k, 100);
    }
    var suffix := AllocateSuffix(basename, archiveId, taken);
    var _ := CandidateShape(BaseName(basename), suffix);
  }

  lemma CandidateIsMountName(name: string, suffix: string)
    requires IsMountName(name)
    requires forall i :: 0 <= i < |suffix| ==> IsSafe(suffix[i])
    ensures IsMountName(CollideCandidate(name, suffix))
  {
    var base := CandidateShape(name, suffix);
    var c := base + "--" + suffix;
    assert c[0] == base[0] == name[0];
    forall i | 0 <= i < |c| ensures IsSafe(c[i]) {
      if i < |base| {
        assert c[i] == name[i];
      } else if i < |base| + 2 {
        assert c[i] == '-';
      } else {
        assert c[i] == suffix[i - |base| - 2];
      }
    }
  }
}
