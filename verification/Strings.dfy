/** The string operations of the Go standard library that the daemon's parsers are built from. */
module Strings {

  /** unicode.IsSpace. */
  predicate IsSpace(c: char) {
    || '\t' <= c <= '\r'
    || c == ' '
    || c == '\U{85}' || c == '\U{a0}' || c == '\U{1680}'
    || '\U{2000}' <= c <= '\U{200a}'
    || c == '\U{2028}' || c == '\U{2029}' || c == '\U{202f}' || c == '\U{205f}' || c == '\U{3000}'
  }

  /** Neither end is white space. */
  predicate Trimmed(s: string) {
    s != "" ==> !IsSpace(s[0]) && !IsSpace(s[|s| - 1])
  }

  function TrimLeft(s: string): (r: string)
    ensures |r| <= |s| && r == s[|s| - |r|..]
    ensures r != "" ==> !IsSpace(r[0])
  {
    if s != "" && IsSpace(s[0]) then TrimLeft(s[1..]) else s
  }

  function TrimRight(s: string): (r: string)
    ensures r <= s
    ensures r != "" ==> !IsSpace(r[|r| - 1])
  {
    if s != "" && IsSpace(s[|s| - 1]) then TrimRight(s[..|s| - 1]) else s
  }

  /** strings.TrimSpace. */
  function TrimSpace(s: string): (r: string)
    ensures Trimmed(r)
    ensures Trimmed(s) ==> r == s
  {
    TrimRight(TrimLeft(s))
  }

  predicate HasSuffix(s: string, suffix: string) {
    |suffix| <= |s| && s[|s| - |suffix|..] == suffix
  }

  predicate OccursAt(text: string, pattern: string, i: int) {
    && 0 <= i
    && i + |pattern| <= |text|
    && forall j :: 0 <= j < |pattern| ==> text[i + j] == pattern[j]
  }

  /** strings.Contains. */
  predicate Contains(text: string, pattern: string) {
    exists i :: 0 <= i <= |text| && OccursAt(text, pattern, i)
  }

  /** The last occurrence of the pattern below n, or -1. */
  function LastIndexBelow(text: string, pattern: string, n: nat): (r: int)
    ensures -1 <= r < n
    ensures r >= 0 ==> r + |pattern| <= |text|
  {
    if n == 0 then -1
    else if OccursAt(text, pattern, n - 1) then n - 1
    else LastIndexBelow(text, pattern, n - 1)
  }

  /** strings.LastIndex. */
  function LastIndex(text: string, pattern: string): int {
    LastIndexBelow(text, pattern, |text| + 1)
  }

  ghost predicate IsLastIndex(text: string, pattern: string, r: int) {
    && (r >= 0 ==> OccursAt(text, pattern, r))
    && (forall j: nat :: j > r ==> !OccursAt(text, pattern, j))
  }

  lemma {:induction false} LastIndexBelowSpec(text: string, pattern: string, n: nat)
    ensures var r := LastIndexBelow(text, pattern, n);
            && (r >= 0 ==> OccursAt(text, pattern, r))
            && forall j :: r < j < n ==> !OccursAt(text, pattern, j)
  {
    if n > 0 && !OccursAt(text, pattern, n - 1) {
      LastIndexBelowSpec(text, pattern, n - 1);
    }
  }

  /** LastIndex is the one position of the last occurrence, -1 when there is none. */
  lemma LastIndexIff(text: string, pattern: string, r: int)
    requires r >= -1
    ensures LastIndex(text, pattern) == r <==> IsLastIndex(text, pattern, r)
    ensures LastIndex(text, pattern) >= 0 <==> Contains(text, pattern)
  {
    LastIndexBelowSpec(text, pattern, |text| + 1);
    if IsLastIndex(text, pattern, r) {
      var m := LastIndex(text, pattern);
      assert m >= 0 ==> OccursAt(text, pattern, m);
    }
  }

  /** strings.Join. */
  function JoinWith(parts: seq<string>, separator: string): string {
    if |parts| == 0 then ""
    else if |parts| == 1 then parts[0]
    else parts[0] + separator + JoinWith(parts[1..], separator)
  }

  /** Where an occurrence in a concatenation can lie. */
  lemma ContainsConcat(a: string, b: string, pattern: string)
    ensures Contains(a + b, pattern) <==>
              || Contains(a, pattern)
              || Contains(b, pattern)
              || exists i :: 0 <= i < |a| < i + |pattern| && OccursAt(a + b, pattern, i)
  {
    var c := a + b;
    if i :| 0 <= i <= |a| && OccursAt(a, pattern, i) {
      assert OccursAt(c, pattern, i);
    }
    if i :| 0 <= i <= |b| && OccursAt(b, pattern, i) {
      assert OccursAt(c, pattern, |a| + i);
    }
    if i :| 0 <= i <= |c| && OccursAt(c, pattern, i) {
      if i + |pattern| <= |a| {
        assert OccursAt(a, pattern, i);
      } else if i >= |a| {
        assert OccursAt(b, pattern, i - |a|);
      }
    }
  }

  lemma ShiftOccurrence(text: string, pattern: string, at: nat, j: nat)
    requires at <= |text|
    ensures OccursAt(text, pattern, at + j) <==> OccursAt(text[at..], pattern, j)
  {
    if OccursAt(text[at..], pattern, j) {
      forall k | 0 <= k < |pattern| ensures text[at + j + k] == pattern[k] {
        assert text[at..][j + k] == pattern[k];
      }
    }
  }

  /** From its last occurrence on, a text holds the pattern once, at its start. */
  lemma LastOccurrenceTail(text: string, pattern: string)
    requires LastIndex(text, pattern) >= 0
    ensures OccursAt(text[LastIndex(text, pattern)..], pattern, 0)
    ensures LastIndex(text[LastIndex(text, pattern)..], pattern) == 0
  {
    var at := LastIndex(text, pattern);
    LastIndexIff(text, pattern, at);
    forall j: nat {
      ShiftOccurrence(text, pattern, at, j);
    }
    assert OccursAt(text, pattern, at + 0);
    LastIndexIff(text[at..], pattern, 0);
  }

  /** A text that ends in such a tail has its last occurrence there. */
  lemma LastOccurrenceOfSuffix(text: string, tail: string, pattern: string)
    requires LastIndex(tail, pattern) == 0 && HasSuffix(text, tail)
    ensures LastIndex(text, pattern) == |text| - |tail|
  {
    var at := |text| - |tail|;
    LastIndexIff(tail, pattern, 0);
    ShiftOccurrence(text, pattern, at, 0);
    forall j: nat | j > at ensures !OccursAt(text, pattern, j) {
      ShiftOccurrence(text, pattern, at, j - at);
    }
    LastIndexIff(text, pattern, at);
  }

  /** Trimming the left of a text whose tail starts with a visible character keeps the tail. */
  lemma {:induction false} TrimLeftKeepsTail(head: string, tail: string)
    requires tail != "" && !IsSpace(tail[0])
    ensures HasSuffix(TrimLeft(head + tail), tail)
  {
    if head != "" {
      assert (head + tail)[1..] == head[1..] + tail;
      TrimLeftKeepsTail(head[1..], tail);
    }
  }

  lemma TrimSpaceKeepsTail(head: string, tail: string)
    requires tail != "" && Trimmed(tail)
    ensures HasSuffix(TrimSpace(head + tail), tail)
  {
    TrimLeftKeepsTail(head, tail);
    var t := TrimLeft(head + tail);
    assert t[|t| - 1] == tail[|tail| - 1];
  }

  lemma SuffixIsContained(text: string, tail: string)
    requires HasSuffix(text, tail)
    ensures Contains(text, tail)
  {
    assert OccursAt(text, tail, |text| - |tail|);
  }

  lemma ConcatHasSuffix(head: string, tail: string)
    ensures HasSuffix(head + tail, tail)
  {}

  lemma TrimmedConcat(head: string, tail: string)
    requires Trimmed(head) && Trimmed(tail) && head != "" && tail != ""
    ensures Trimmed(head + "; " + tail)
  {}

  lemma ConcatSlices(a: string, b: string, c: string)
    ensures var t := a + (b + c);
            && a <= t && t[|a|..] == b + c
            && t[|a|..|a| + |b|] == b && t[|a| + |b|..] == c
  {}

  /** What a trimmed text holds, the text holds. */
  lemma TrimSpaceContains(text: string, pattern: string)
    requires Contains(TrimSpace(text), pattern)
    ensures Contains(text, pattern)
  {
    var left := TrimLeft(text);
    var at := |text| - |left|;
    var i :| 0 <= i <= |TrimSpace(text)| && OccursAt(TrimSpace(text), pattern, i);
    forall j | 0 <= j < |pattern| ensures left[i + j] == pattern[j] {
      assert TrimSpace(text)[i + j] == left[i + j];
    }
    assert OccursAt(left, pattern, i);
    ShiftOccurrence(text, pattern, at, i);
  }

  // ---- splitting at a separator ----

  /** The parts between separators; there is always at least one. */
  function Split(s: string, sep: char): (parts: seq<string>)
    ensures |parts| > 0
  {
    if s == "" then [""]
    else
      var rest := Split(s[1..], sep);
      if s[0] == sep then [""] + rest else [[s[0]] + rest[0]] + rest[1..]
  }

  lemma {:induction false} SplitParts(s: string, sep: char)
    ensures forall i :: 0 <= i < |Split(s, sep)| ==> sep !in Split(s, sep)[i]
  {
    if s != "" {
      SplitParts(s[1..], sep);
    }
  }

  lemma {:induction false} SplitWhole(s: string, sep: char)
    requires sep !in s
    ensures Split(s, sep) == [s]
  {
    if s != "" {
      SplitWhole(s[1..], sep);
      assert [s[0]] + s[1..] == s;
    }
  }

  lemma {:induction false} SplitConcat(a: string, b: string, sep: char)
    ensures Split(a + [sep] + b, sep) == Split(a, sep) + Split(b, sep)
  {
    if a == "" {
      assert ([sep] + b)[1..] == b;
      assert a + [sep] + b == [sep] + b;
    } else {
      assert (a + [sep] + b)[1..] == a[1..] + [sep] + b;
      SplitConcat(a[1..], b, sep);
    }
  }
}
