/** The nested-skip advisory kept in last_error (internal/mounter/nested.go): its printer, its
    parser, and the rule that carries it through later errors. */
module NestedSkips {
  import opened Decimal
  import opened Options
  import opened Strings

  const MARK := "skipped "
  const MAX_INT: nat := 0x7fff_ffff_ffff_ffff
  const DEFAULT_SAMPLES := 3

  /** What may follow the unit: nothing, or ": " and at least one character, none a newline. */
  predicate IsDetail(detail: string) {
    detail == "" || (|detail| > 2 && detail[0] == ':' && detail[1] == ' ' && '\n' !in detail[2..])
  }

  function DropPlural(s: string): string {
    if s != "" && s[0] == 's' then s[1..] else s
  }

  const UNIT := " nested mount"

  /** nestedSkipSummaryRE: the digits of its one group when the whole text matches. */
  function MatchSummary(text: string): Option<string> {
    if MARK <= text then
      var k := DigitRun(text[|MARK|..]);
      var tail := text[|MARK| + k..];
      if k > 0 && UNIT <= tail && IsDetail(DropPlural(tail[|UNIT|..]))
      then Some(text[|MARK|..|MARK| + k]) else None
    else None
  }

  /** The count of a text that is a summary as a whole, or 0. */
  function SummaryCount(text: string): (n: nat)
    ensures n <= MAX_INT
    ensures n > 0 ==> MARK <= text
  {
    match MatchSummary(text)
    case None => 0
    case Some(digits) => if AllDigits(digits) && Atoi(digits) <= MAX_INT then Atoi(digits) else 0
  }

  /** The last marked segment of a trimmed text, for any mark and any way of counting the skips a segment
      reports. */
  function LastSegment(mark: string, count: string -> nat, text: string): (string, nat) {
    var idx := LastIndex(text, mark);
    if text == "" || idx < 0 then ("", 0)
    else
      var candidate := TrimSpace(text[idx..]);
      var n := count(candidate);
      if n > 0 then (candidate, n) else ("", 0)
  }

  function ExtractBy(mark: string, count: string -> nat, lastError: string): (string, nat) {
    LastSegment(mark, count, TrimSpace(lastError))
  }

  /** ExtractNestedSkipSummary: the summary segment and its count, or ("", 0). */
  function Extract(lastError: string): (string, nat) {
    ExtractBy(MARK, SummaryCount, lastError)
  }

  /** IsNestedSkipOnlyLastError. */
  predicate IsSkipOnly(lastError: string) {
    var text := TrimSpace(lastError);
    text != "" && MatchSummary(text).Some?
  }

  /** Nothing but a summary, white space aside. */
  lemma SkipOnlyIff(lastError: string)
    ensures IsSkipOnly(lastError) <==> MatchSummary(TrimSpace(lastError)).Some?
  {}

  /** Appends a segment to a reason unless there is none or the reason holds it. */
  function PreserveBy(reason: string, sum: string, n: nat): string {
    if n <= 0 || sum == "" then reason
    else
      var trimmed := TrimSpace(reason);
      if trimmed == "" then sum
      else if Contains(trimmed, sum) then trimmed
      else trimmed + "; " + sum
  }

  /** PreserveNestedSkipInReason. */
  function Preserve(reason: string, priorLastError: string): string {
    var (sum, n) := Extract(priorLastError);
    PreserveBy(reason, sum, n)
  }

  function SampleCount(paths: seq<string>, maxSamples: int): (k: nat)
    requires paths != []
    ensures 1 <= k <= |paths|
  {
    var limit := if maxSamples <= 0 then DEFAULT_SAMPLES else maxSamples;
    if |paths| > limit then limit else |paths|
  }

  function Plural(paths: seq<string>): string {
    if |paths| != 1 then "s" else ""
  }

  function More(paths: seq<string>, k: nat): string
    requires k <= |paths|
  {
    if |paths| > k then " (+" + Itoa(|paths| - k) + " more)" else ""
  }

  /** The samples and the count of hidden ones, as printed after ": ". */
  function Listing(paths: seq<string>, maxSamples: int): string
    requires paths != []
  {
    var k := SampleCount(paths, maxSamples);
    JoinWith(paths[..k], ", ") + More(paths, k)
  }

  /** FormatNestedSkipSummary. */
  function Format(paths: seq<string>, maxSamples: int): string {
    if paths == [] then ""
    else
      MARK + Itoa(|paths|) + UNIT + (Plural(paths) + ": " + Listing(paths, maxSamples))
  }

  /** As it reads: the number, the unit in its number, and the samples. */
  lemma FormatIs(paths: seq<string>, maxSamples: int)
    requires paths != []
    ensures Format(paths, maxSamples) ==
            "skipped " + Itoa(|paths|) + (if |paths| == 1 then " nested mount: " else " nested mounts: ")
            + Listing(paths, maxSamples)
  {
    UnitsAre();
    Rebracket(MARK + Itoa(|paths|), UNIT, Plural(paths), ": ", Listing(paths, maxSamples));
  }

  lemma UnitsAre()
    ensures UNIT + "" + ": " == " nested mount: " && UNIT + "s" + ": " == " nested mounts: "
  {}

  lemma Rebracket(a: string, b: string, c: string, d: string, e: string)
    ensures a + b + (c + d + e) == a + (b + c + d) + e
  {}

  /** EnrichReasonWithNestedSkips. */
  function Enrich(reason: string, paths: seq<string>): string {
    var sum := Format(paths, DEFAULT_SAMPLES);
    if sum == "" then reason
    else
      var trimmed := TrimSpace(reason);
      if trimmed == "" then sum else trimmed + "; " + sum
  }

  /** A reason is only ever added to: the summary follows it, or stands for a blank one. */
  lemma EnrichIs(reason: string, paths: seq<string>)
    ensures paths == [] ==> Enrich(reason, paths) == reason
    ensures paths != [] ==>
              Enrich(reason, paths) ==
              (if TrimSpace(reason) == "" then "" else TrimSpace(reason) + "; ") + Format(paths, DEFAULT_SAMPLES)
  {
    if paths != [] {
      FormatIs(paths, DEFAULT_SAMPLES);
      assert "" + Format(paths, DEFAULT_SAMPLES) == Format(paths, DEFAULT_SAMPLES);
    }
  }

  /** A text that the extraction returns: a counted one, trimmed, whose only mark is the first. */
  predicate IsSegment(mark: string, count: string -> nat, sum: string, n: nat) {
    n > 0 && Trimmed(sum) && LastIndex(sum, mark) == 0 && count(sum) == n
  }

  /** A mark is not empty and starts visibly. */
  predicate IsMark(mark: string) {
    mark != "" && !IsSpace(mark[0])
  }

  /** The text from its last mark on: trimmed like the text, a suffix of it, and marked only at its start. */
  lemma TailAtMark(mark: string, text: string, tail: string)
    requires IsMark(mark) && Trimmed(text) && LastIndex(text, mark) >= 0 && tail == text[LastIndex(text, mark)..]
    ensures Trimmed(tail) && TrimSpace(tail) == tail && LastIndex(tail, mark) == 0 && HasSuffix(text, tail)
  {
    LastOccurrenceTail(text, mark);
    MarkStartsVisible(mark, tail);
  }

  lemma LastSegmentIsSegment(mark: string, count: string -> nat, text: string)
    requires IsMark(mark) && Trimmed(text)
    ensures var (sum, n) := LastSegment(mark, count, text);
            n > 0 ==> IsSegment(mark, count, sum, n) && HasSuffix(text, sum)
  {
    var idx := LastIndex(text, mark);
    if idx >= 0 {
      var tail := text[idx..];
      TailAtMark(mark, text, tail);
      assert LastSegment(mark, count, text) == if text != "" && count(tail) > 0 then (tail, count(tail)) else ("", 0);
    }
  }

  lemma ExtractByIsSegment(mark: string, count: string -> nat, lastError: string)
    requires IsMark(mark)
    ensures var (sum, n) := ExtractBy(mark, count, lastError);
            n > 0 ==> IsSegment(mark, count, sum, n) && HasSuffix(TrimSpace(lastError), sum)
  {
    LastSegmentIsSegment(mark, count, TrimSpace(lastError));
  }

  lemma MarkStartsVisible(mark: string, tail: string)
    requires IsMark(mark) && OccursAt(tail, mark, 0) && !IsSpace(tail[|tail| - 1])
    ensures Trimmed(tail)
  {
    assert tail[0 + 0] == mark[0];
  }

  /** The exact texts that yield a given segment: those that end in it, white space aside. */
  lemma ExtractByIff(mark: string, count: string -> nat, lastError: string, sum: string, n: nat)
    requires IsMark(mark) && IsSegment(mark, count, sum, n)
    ensures ExtractBy(mark, count, lastError) == (sum, n) <==> HasSuffix(TrimSpace(lastError), sum)
  {
    ExtractByIsSegment(mark, count, lastError);
    if HasSuffix(TrimSpace(lastError), sum) {
      ExtractByOfSuffix(mark, count, lastError, sum, n);
    }
  }

  lemma ExtractByOfSuffix(mark: string, count: string -> nat, lastError: string, sum: string, n: nat)
    requires IsMark(mark) && IsSegment(mark, count, sum, n) && HasSuffix(TrimSpace(lastError), sum)
    ensures ExtractBy(mark, count, lastError) == (sum, n)
  {
    var text := TrimSpace(lastError);
    LastOccurrenceOfSuffix(text, sum, mark);
    ExtractByAt(mark, count, lastError, text, sum, |text| - |sum|);
  }

  lemma ExtractByAt(mark: string, count: string -> nat, lastError: string, text: string, sum: string, idx: nat)
    requires text == TrimSpace(lastError) && LastIndex(text, mark) == idx < |text|
    requires text[idx..] == sum && TrimSpace(sum) == sum && count(sum) > 0
    ensures ExtractBy(mark, count, lastError) == (sum, count(sum))
  {}

  lemma PreserveByKeeps(mark: string, count: string -> nat, reason: string, sum: string, n: nat)
    requires IsMark(mark) && IsSegment(mark, count, sum, n)
    ensures ExtractBy(mark, count, PreserveBy(reason, sum, n)) == (sum, n) <==>
            !Contains(TrimSpace(reason), sum) || HasSuffix(TrimSpace(reason), sum)
  {
    ExtractByIff(mark, count, PreserveBy(reason, sum, n), sum, n);
    var trimmed := TrimSpace(reason);
    if HasSuffix(trimmed, sum) {
      SuffixIsContained(trimmed, sum);
    }
    TrimSpaceKeepsTail(trimmed + "; ", sum);
  }

  lemma PreserveByIdempotent(reason: string, sum: string, n: nat)
    requires Trimmed(sum)
    ensures PreserveBy(PreserveBy(reason, sum, n), sum, n) == PreserveBy(reason, sum, n)
  {
    var trimmed := TrimSpace(reason);
    if n > 0 && sum != "" {
      if trimmed != "" {
        TrimmedConcat(trimmed, sum);
        ConcatHasSuffix(trimmed + "; ", sum);
        SuffixIsContained(trimmed + "; " + sum, sum);
      } else {
        SuffixIsContained(sum, sum);
      }
    }
  }

  /** A new reason keeps the advisory exactly when, trimmed, it does not hold the segment already or
      holds it at its end. */
  lemma PreserveKeepsSegment(reason: string, priorLastError: string)
    requires Extract(priorLastError).1 > 0
    ensures Extract(Preserve(reason, priorLastError)) == Extract(priorLastError) <==>
            var sum, trimmed := Extract(priorLastError).0, TrimSpace(reason);
            !Contains(trimmed, sum) || HasSuffix(trimmed, sum)
  {
    var (sum, n) := Extract(priorLastError);
    ExtractByIsSegment(MARK, SummaryCount, priorLastError);
    PreserveByKeeps(MARK, SummaryCount, reason, sum, n);
  }

  /** A reason without the word "skipped" followed by a space never hides the advisory. */
  lemma PreserveKeepsSegmentOfPlainReason(reason: string, priorLastError: string)
    requires Extract(priorLastError).1 > 0
    requires !Contains(TrimSpace(reason), MARK)
    ensures Extract(Preserve(reason, priorLastError)) == Extract(priorLastError)
  {
    var (sum, n) := Extract(priorLastError);
    ExtractByIsSegment(MARK, SummaryCount, priorLastError);
    LastIndexIff(sum, MARK, 0);
    ContainsTransitive(TrimSpace(reason), sum, MARK);
    PreserveByKeeps(MARK, SummaryCount, reason, sum, n);
  }

  lemma ContainsTransitive(text: string, sum: string, mark: string)
    requires OccursAt(sum, mark, 0)
    ensures Contains(text, sum) ==> Contains(text, mark)
  {
    if i :| 0 <= i <= |text| && OccursAt(text, sum, i) {
      forall j | 0 <= j < |mark| ensures text[i + j] == mark[j] {
        assert sum[0 + j] == mark[j];
      }
      assert OccursAt(text, mark, i);
    }
  }

  /** Preserving twice is preserving once. */
  lemma PreserveIdempotent(reason: string, priorLastError: string)
    ensures Preserve(Preserve(reason, priorLastError), priorLastError) == Preserve(reason, priorLastError)
  {
    var (sum, n) := Extract(priorLastError);
    ExtractByIsSegment(MARK, SummaryCount, priorLastError);
    PreserveByIdempotent(reason, sum, n);
  }

  // ---- what the printed summary yields ----

  /** The printed samples cannot be mistaken for the end of the advisory: none holds the mark or a
      newline; a cut-off list must not end in the word "skipped", since " (+" follows it; an uncut
      list must not end in white space. */
  predicate Readable(paths: seq<string>, maxSamples: int)
    requires paths != []
  {
    var k := SampleCount(paths, maxSamples);
    && (forall i :: 0 <= i < k ==> !Contains(paths[i], MARK) && '\n' !in paths[i])
    && var last := paths[k - 1];
       if |paths| > k then !HasSuffix(last, "skipped")
       else last != "" && !IsSpace(last[|last| - 1])
  }

  lemma NoStraddle(a: string, b: string)
    requires a == "" || b == "" || a[|a| - 1] == ' ' || b[0] == ','
    ensures Contains(a + b, MARK) <==> Contains(a, MARK) || Contains(b, MARK)
  {
    ContainsConcat(a, b, MARK);
    forall i | 0 <= i < |a| < i + |MARK| ensures !OccursAt(a + b, MARK, i) {
      MarkHasNoSeparator(|a| - 1 - i, |a| - i);
      assert (a + b)[|a| - 1] == a[|a| - 1];
      assert |a| < |a + b| ==> (a + b)[|a|] == b[0];
    }
  }

  lemma MarkHasNoSeparator(j: nat, k: nat)
    requires j < 7 && k < 8
    ensures MARK[j] != ' ' && MARK[k] != ','
  {}

  /** A sample followed by " (+" makes a mark exactly when it ends in "skipped". */
  lemma StraddleMore(a: string, b: string)
    requires |b| > 1 && b[0] == ' ' && b[1] == '('
    ensures Contains(a + b, MARK) <==> Contains(a, MARK) || Contains(b, MARK) || HasSuffix(a, "skipped")
  {
    ContainsConcat(a, b, MARK);
    if HasSuffix(a, "skipped") {
      SkippedThenSpace(a, b);
    }
    forall i | 0 <= i < |a| < i + |MARK| && OccursAt(a + b, MARK, i) ensures HasSuffix(a, "skipped") {
      SkippedBeforeSpace(a, b, i);
    }
  }

  lemma SkippedThenSpace(a: string, b: string)
    requires b != "" && b[0] == ' ' && HasSuffix(a, "skipped")
    ensures OccursAt(a + b, MARK, |a| - 7)
  {
    var c := a + b;
    assert MARK == "skipped" + " ";
    forall j | 0 <= j < 8 ensures c[|a| - 7 + j] == MARK[j] {
      assert j < 7 ==> c[|a| - 7 + j] == a[|a| - 7..][j];
    }
  }

  lemma SkippedBeforeSpace(a: string, b: string, i: nat)
    requires b != "" && b[0] == ' ' && i < |a| < i + |MARK| && OccursAt(a + b, MARK, i)
    ensures HasSuffix(a, "skipped")
  {
    var c := a + b;
    assert MARK == "skipped" + " ";
    assert c[i + (|a| - i)] == MARK[|a| - i] == ' ';
    assert |a| - i == 7;
    forall j | 0 <= j < 7 ensures a[|a| - 7..][j] == "skipped"[j] {
      assert c[i + j] == MARK[j];
    }
    assert a[|a| - 7..] == "skipped";
  }

  lemma NoMark(s: string)
    requires 'k' !in s
    ensures !Contains(s, MARK)
  {
    assert MARK[1] == 'k';
  }

  lemma {:induction false} JoinedMark(parts: seq<string>)
    ensures Contains(JoinWith(parts, ", "), MARK) <==> exists i :: 0 <= i < |parts| && Contains(parts[i], MARK)
    ensures '\n' in JoinWith(parts, ", ") <==> exists i :: 0 <= i < |parts| && '\n' in parts[i]
    ensures |parts| > 0 && parts[|parts| - 1] != "" ==>
              var j, last := JoinWith(parts, ", "), parts[|parts| - 1]; HasSuffix(j, last)
    ensures |parts| > 0 && parts[|parts| - 1] == "" ==>
              var j := JoinWith(parts, ", "); j == "" || j[|j| - 1] == ' '
  {
    if |parts| == 0 {
      NoMark("");
    } else if |parts| > 1 {
      var rest := JoinWith(parts[1..], ", ");
      JoinedMark(parts[1..]);
      NoMark(", ");
      NoStraddle(parts[0], ", ");
      NoStraddle(parts[0] + ", ", rest);
      assert parts == [parts[0]] + parts[1..];
    }
  }

  /** The expression, read as a grammar: mark, digits, unit, optional plural, detail. */
  lemma MatchSummaryIff(text: string, digits: string)
    requires digits != "" && AllDigits(digits)
    ensures MatchSummary(text) == Some(digits) <==>
            exists rest :: text == MARK + digits + UNIT + rest && IsDetail(DropPlural(rest))
  {
    if MatchSummary(text) == Some(digits) {
      var rest := ShapeOfMatch(text, digits);
    }
    if rest :| text == MARK + digits + UNIT + rest && IsDetail(DropPlural(rest)) {
      MatchOfShape(digits, rest);
    }
  }

  lemma ShapeOfMatch(text: string, digits: string) returns (rest: string)
    requires MatchSummary(text) == Some(digits)
    ensures text == MARK + digits + UNIT + rest && IsDetail(DropPlural(rest))
  {
    var k := DigitRun(text[|MARK|..]);
    var tail := text[|MARK| + k..];
    rest := tail[|UNIT|..];
    assert digits == text[|MARK|..|MARK| + k];
    assert text == text[..|MARK|] + digits + tail;
    assert tail == tail[..|UNIT|] + rest;
  }

  lemma MatchOfShape(digits: string, rest: string)
    requires digits != "" && AllDigits(digits)
    ensures MatchSummary(MARK + digits + UNIT + rest) ==
            if IsDetail(DropPlural(rest)) then Some(digits) else None
  {
    var text := MARK + digits + UNIT + rest;
    assert text == MARK + (digits + (UNIT + rest));
    ConcatSlices(MARK, digits, UNIT + rest);
    DigitRunOf(digits, UNIT + rest);
    ConcatSlices("", UNIT, rest);
  }

  lemma MoreHasNoMark(paths: seq<string>, k: nat)
    requires k <= |paths|
    ensures !Contains(More(paths, k), MARK) && '\n' !in More(paths, k)
    ensures |paths| > k ==> var m := More(paths, k); |m| > 1 && m[0] == ' ' && m[1] == '(' && m[|m| - 1] == ')'
  {
    if |paths| > k {
      var digits := Itoa(|paths| - k);
      var m := " (+" + digits + " more)";
      forall i | 0 <= i < |m| ensures m[i] != 'k' && m[i] != '\n' {
        if 3 <= i < 3 + |digits| {
          assert m[i] == digits[i - 3] && IsDigit(digits[i - 3]);
        }
      }
      NoMark(m);
    } else {
      NoMark("");
    }
  }

  ghost predicate IsPlain(s: string) {
    !Contains(s, MARK) && '\n' !in s
  }

  ghost predicate EndsVisibly(s: string) {
    s != "" && !IsSpace(s[|s| - 1])
  }

  lemma CutOffIsPlain(joined: string, more: string)
    requires |more| > 1 && more[0] == ' ' && more[1] == '(' && more[|more| - 1] == ')' && IsPlain(more)
    ensures IsPlain(joined + more) <==> IsPlain(joined) && !HasSuffix(joined, "skipped")
    ensures EndsVisibly(joined + more)
  {
    StraddleMore(joined, more);
    assert (joined + more)[|joined + more| - 1] == ')';
  }

  lemma JoinedIsPlain(parts: seq<string>)
    requires parts != []
    ensures IsPlain(JoinWith(parts, ", ")) <==> forall i :: 0 <= i < |parts| ==> IsPlain(parts[i])
    ensures EndsVisibly(JoinWith(parts, ", ")) <==> EndsVisibly(parts[|parts| - 1])
  {
    JoinedMark(parts);
    var j, last := JoinWith(parts, ", "), parts[|parts| - 1];
    if last != "" {
      assert j[|j| - |last|..][|last| - 1] == j[|j| - 1];
    }
  }

  /** The listing is free of marks, newlines and trailing white space exactly when it is readable. */
  lemma ReadableIff(paths: seq<string>, maxSamples: int)
    requires paths != []
    ensures Readable(paths, maxSamples) <==>
            IsPlain(Listing(paths, maxSamples)) && EndsVisibly(Listing(paths, maxSamples))
  {
    var k := SampleCount(paths, maxSamples);
    var samples, more := paths[..k], More(paths, k);
    JoinedIsPlain(samples);
    if |paths| > k {
      MoreHasNoMark(paths, k);
      CutOffIsPlain(JoinWith(samples, ", "), more);
      JoinedSkipped(samples);
    } else {
      assert JoinWith(samples, ", ") + more == JoinWith(samples, ", ");
    }
  }

  lemma {:induction false} JoinedSkipped(parts: seq<string>)
    requires |parts| > 0
    ensures HasSuffix(JoinWith(parts, ", "), "skipped") <==> HasSuffix(parts[|parts| - 1], "skipped")
  {
    if |parts| > 1 {
      JoinedSkipped(parts[1..]);
      LastWordOfConcat(parts[0] + ", ", JoinWith(parts[1..], ", "));
      assert parts[1..][|parts| - 2] == parts[|parts| - 1];
    }
  }

  lemma LastWordOfConcat(a: string, b: string)
    requires a != "" && a[|a| - 1] == ' '
    ensures HasSuffix(a + b, "skipped") <==> HasSuffix(b, "skipped")
  {
    var c := a + b;
    if |b| >= 7 {
      assert c[|c| - 7..] == b[|b| - 7..];
    } else if |c| >= 7 {
      assert c[|c| - 7..][6 - |b|] == ' ';
    }
  }

  lemma CountOfShape(n: nat, plural: string, list: string)
    requires n <= MAX_INT && (plural == "" || plural == "s")
    ensures SummaryCount(MARK + Itoa(n) + UNIT + (plural + ": " + list)) ==
            if list != "" && '\n' !in list then n else 0
  {
    var rest := plural + ": " + list;
    var detail := DropPlural(rest);
    assert detail == ": " + list;
    assert detail[2..] == list;
    MatchOfShape(Itoa(n), rest);
    AtoiItoa(n);
  }

  lemma OnlyFirstMark(tail: string)
    ensures LastIndex(MARK + tail, MARK) == 0 <==> !Contains(tail, MARK)
  {
    var text := MARK + tail;
    assert OccursAt(text, MARK, 0);
    assert text[|MARK|..] == tail;
    forall j: nat {
      ShiftOccurrence(text, MARK, |MARK|, j);
    }
    forall j: nat | 0 < j < |MARK| ensures !OccursAt(text, MARK, j) {
      assert text[j + 0] == MARK[j] != MARK[0];
    }
    LastIndexIff(text, MARK, 0);
    if !Contains(tail, MARK) {
      forall j: nat | j > 0 ensures !OccursAt(text, MARK, j) {
        if j >= |MARK| {
          ShiftOccurrence(text, MARK, |MARK|, j - |MARK|);
        }
      }
    } else {
      var i :| 0 <= i <= |tail| && OccursAt(tail, MARK, i);
      assert OccursAt(text, MARK, |MARK| + i);
    }
  }

  lemma HeadHasNoMark(digits: string, plural: string, list: string)
    requires AllDigits(digits) && (plural == "" || plural == "s")
    ensures Contains(digits + UNIT + plural + ": " + list, MARK) <==> Contains(list, MARK)
  {
    var head := digits + UNIT + plural + ": ";
    forall i | 0 <= i < |head| ensures head[i] != 'k' {
      if i < |digits| {
        assert head[i] == digits[i] && IsDigit(digits[i]);
      } else if i < |digits| + |UNIT| {
        assert head[i] == UNIT[i - |digits|];
      }
    }
    NoMark(head);
    NoStraddle(head, list);
  }

  lemma SegmentIff(mark: string, count: string -> nat, text: string, n: nat, listed: bool, plain: bool, ended: bool)
    requires n > 0 && count(text) == (if listed then n else 0)
    requires LastIndex(text, mark) == 0 <==> plain
    requires Trimmed(text) <==> ended
    ensures IsSegment(mark, count, text, n) <==> plain && listed && ended
  {}

  lemma SegmentOfShape(n: nat, plural: string, list: string)
    requires 0 < n <= MAX_INT && (plural == "" || plural == "s")
    ensures IsSegment(MARK, SummaryCount, MARK + Itoa(n) + UNIT + (plural + ": " + list), n) <==>
            && !Contains(list, MARK) && '\n' !in list
            && list != "" && !IsSpace(list[|list| - 1])
  {
    var tail := Itoa(n) + UNIT + plural + ": " + list;
    CountOfShape(n, plural, list);
    HeadHasNoMark(Itoa(n), plural, list);
    OnlyFirstMark(tail);
    Reassociate(Itoa(n), plural, list);
    TrimmedMarked(tail, list);
    SegmentIff(MARK, SummaryCount, MARK + Itoa(n) + UNIT + (plural + ": " + list), n, list != "" && '\n' !in list,
               !Contains(list, MARK), list != "" && !IsSpace(list[|list| - 1]));
  }

  lemma Reassociate(digits: string, plural: string, list: string)
    ensures MARK + digits + UNIT + (plural + ": " + list) == MARK + (digits + UNIT + plural + ": " + list)
    ensures HasSuffix(digits + UNIT + plural + ": " + list, ": " + list)
  {
    ConcatHasSuffix(digits + UNIT + plural, ": " + list);
    assert digits + UNIT + plural + ": " + list == (digits + UNIT + plural) + (": " + list);
  }

  /** The printed text is a segment of its own exactly when its listing is readable. */
  lemma FormatIsSegment(paths: seq<string>, maxSamples: int)
    requires paths != [] && |paths| <= MAX_INT
    ensures IsSegment(MARK, SummaryCount, Format(paths, maxSamples), |paths|) <==> Readable(paths, maxSamples)
  {
    ReadableIff(paths, maxSamples);
    SegmentOfShape(|paths|, Plural(paths), Listing(paths, maxSamples));
  }

  lemma TrimmedMarked(tail: string, list: string)
    requires HasSuffix(tail, ": " + list)
    ensures Trimmed(MARK + tail) <==> list != "" && !IsSpace(list[|list| - 1])
  {
    var text, end := MARK + tail, ": " + list;
    assert text[0] == MARK[0] == 's';
    assert text[|text| - 1] == tail[|tail| - |end|..][|end| - 1];
  }

  /** Printing and reading back gives the whole text and the exact number of paths, for every
      sample cut-off, exactly when the listing is readable. */
  lemma ExtractFormat(paths: seq<string>, maxSamples: int)
    requires paths != [] && |paths| <= MAX_INT
    ensures Extract(Format(paths, maxSamples)) == (Format(paths, maxSamples), |paths|) <==>
            Readable(paths, maxSamples)
  {
    FormatIsSegment(paths, maxSamples);
    var text := Format(paths, maxSamples);
    ExtractByIsSegment(MARK, SummaryCount, text);
    if Readable(paths, maxSamples) {
      ExtractByOfSuffix(MARK, SummaryCount, text, text, |paths|);
    }
  }

  /** A list that is cut off after a sample ending in "skipped" does not come back, whatever the number
      of samples. */
  lemma CutOffUnreadable(paths: seq<string>, maxSamples: int)
    requires paths != [] && |paths| <= MAX_INT && |paths| > SampleCount(paths, maxSamples)
    requires HasSuffix(paths[SampleCount(paths, maxSamples) - 1], "skipped")
    ensures Extract(Format(paths, maxSamples)) != (Format(paths, maxSamples), |paths|)
  {
    assert !Readable(paths, maxSamples);
    ExtractFormat(paths, maxSamples);
  }

  /** Four ordinary paths with the number of samples that the daemon prints: no path holds the mark, and
      still the advisory cannot be read back, because the third ends in "skipped". */
  lemma CutOffAfterSkipped(paths: seq<string>)
    requires paths == ["/a", "/b", "/skipped", "/c"]
    ensures forall i :: 0 <= i < |paths| ==> !Contains(paths[i], MARK)
    ensures Extract(Format(paths, DEFAULT_SAMPLES)) != (Format(paths, DEFAULT_SAMPLES), 4)
  {
    forall i | 0 <= i < |paths| ensures !Contains(paths[i], MARK) {
      NoSpaceNoMark(paths[i]);
    }
    ConcatHasSuffix("/", "skipped");
    assert "/" + "skipped" == "/skipped";
    CutOffUnreadable(paths, DEFAULT_SAMPLES);
  }

  lemma NoSpaceNoMark(s: string)
    requires ' ' !in s
    ensures !Contains(s, MARK)
  {
    assert MARK[7] == ' ';
  }
}
