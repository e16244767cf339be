/** Durations as text: the parser of the configuration and the printer that answers it
    (internal/config/duration.go). Values are exact numbers of seconds. */
module Durations {
  import opened Decimal
  import opened Options

  // ---- the grammar ----

  predicate IsBlank(c: char) {
    c == ' ' || c == '\t' || c == '\n' || c == '\r' || c == 12 as char
  }

  predicate AllBlank(s: string) {
    forall i :: 0 <= i < |s| ==> IsBlank(s[i])
  }

  function DropBlanks(s: string): (r: string)
    ensures r == "" || !IsBlank(r[0])
  {
    if s != "" && IsBlank(s[0]) then DropBlanks(s[1..]) else s
  }

  function DropBlanksAtEnd(s: string): (r: string)
    ensures r == "" || !IsBlank(r[|r| - 1])
  {
    if s != "" && IsBlank(s[|s| - 1]) then DropBlanksAtEnd(s[..|s| - 1]) else s
  }

  function LowerChar(c: char): char {
    if 'A' <= c <= 'Z' then (c as int + 32) as char else c
  }

  function Lower(s: string): string {
    seq(|s|, i requires 0 <= i < |s| => LowerChar(s[i]))
  }

  datatype Unit = Millisecond | Second | Minute | Hour | Day

  /** The unit a suffix names; none is seconds. */
  function UnitNamed(name: string): Option<Unit> {
    if |name| == 0 then Some(Second)
    else if |name| == 2 then if name[0] == 'm' && name[1] == 's' then Some(Millisecond) else None
    else if |name| > 2 then None
    else if name[0] == 's' then Some(Second)
    else if name[0] == 'm' then Some(Minute)
    else if name[0] == 'h' then Some(Hour)
    else if name[0] == 'd' then Some(Day)
    else None
  }

  function Seconds(unit: Unit): real {
    match unit
    case Millisecond => 0.001
    case Second => 1.0
    case Minute => 60.0
    case Hour => 3600.0
    case Day => 86400.0
  }

  /** The number written as digits and decimals. */
  function Amount(whole: string, decimals: string): real
    requires AllDigits(whole) && AllDigits(decimals)
  {
    Atoi(whole) as real + Atoi(decimals) as real / Pow10(|decimals|) as real
  }

  /** The length of the decimals, point included; a point without digits is none. */
  function DecimalRun(s: string): (k: nat)
    ensures k <= |s| && (k > 0 ==> k > 1 && s[0] == '.' && AllDigits(s[1..k]))
  {
    if s != "" && s[0] == '.' && DigitRun(s[1..]) > 0 then
      assert s[1..][..DigitRun(s[1..])] == s[1..1 + DigitRun(s[1..])];
      1 + DigitRun(s[1..])
    else 0
  }

  function Tail(whole: string, decimals: string, rest: string): Option<real>
    requires AllDigits(whole) && AllDigits(decimals)
  {
    match UnitNamed(Lower(DropBlanksAtEnd(DropBlanks(rest))))
    case None => None
    case Some(unit) => Some(Amount(whole, decimals) * Seconds(unit))
  }

  /** ParseDuration, of a text. */
  function ParseText(text: string): Option<real> {
    var s := DropBlanks(text);
    var k := DigitRun(s);
    if k == 0 then None
    else
      var d := DecimalRun(s[k..]);
      Tail(s[..k], if d == 0 then "" else s[k..][1..d], s[k..][d..])
  }

  /** What the configuration may hold in place of a text. */
  datatype Value = Boolean(b: bool) | Number(n: real) | Text(text: string) | Other

  /** ParseDuration: numbers are seconds and not negative; truth values are refused. */
  function ParseDuration(value: Value): Option<real> {
    match value
    case Number(n) => if n < 0.0 then None else Some(n)
    case Text(text) => ParseText(text)
    case _ => None
  }

  /** Of what is no text exactly the numbers from zero on are taken, as seconds. */
  lemma NumbersAreSeconds(value: Value)
    requires !value.Text?
    ensures ParseDuration(value) == if value.Number? && value.n >= 0.0 then Some(value.n) else None
  {}

  // ---- the printer ----

  const MS_PER_DAY := 86400000
  const MS_PER_HOUR := 3600000
  const MS_PER_MINUTE := 60000

  /** The decimals of a number of thousandths, without trailing zeros. */
  function Decimals(thousandths: nat): (s: string)
    requires 0 < thousandths < 1000
    ensures s != "" && AllDigits(s)
  {
    var a, b, c := thousandths / 100, thousandths / 10 % 10, thousandths % 10;
    if b == 0 && c == 0 then [DigitChar(a)]
    else if c == 0 then [DigitChar(a), DigitChar(b)]
    else [DigitChar(a), DigitChar(b), DigitChar(c)]
  }

  /** The point and the decimals, or nothing. */
  function Fraction(decimals: string): string {
    if decimals == "" then "" else "." + decimals
  }

  /** FormatDuration, of a whole number of milliseconds. */
  function Format(ms: nat): string {
    if ms == 0 then Itoa(0) + "s"
    else if ms < 1000 then Itoa(ms) + "ms"
    else if ms % MS_PER_DAY == 0 then Itoa(ms / MS_PER_DAY) + "d"
    else if ms % MS_PER_HOUR == 0 then Itoa(ms / MS_PER_HOUR) + "h"
    else if ms % MS_PER_MINUTE == 0 then Itoa(ms / MS_PER_MINUTE) + "m"
    else if ms % 1000 == 0 then Itoa(ms / 1000) + "s"
    else Itoa(ms / 1000) + (Fraction(Decimals(ms % 1000)) + "s")
  }

  // ---- what the parser accepts ----

  lemma {:induction false} DropBlanksOf(blanks: string, rest: string)
    requires AllBlank(blanks) && (rest == "" || !IsBlank(rest[0]))
    ensures DropBlanks(blanks + rest) == rest
  {
    if blanks == "" {
      assert blanks + rest == rest;
    } else {
      assert (blanks + rest)[1..] == blanks[1..] + rest;
      DropBlanksOf(blanks[1..], rest);
    }
  }

  lemma {:induction false} DropBlanksAtEndOf(rest: string, blanks: string)
    requires AllBlank(blanks) && (rest == "" || !IsBlank(rest[|rest| - 1]))
    ensures DropBlanksAtEnd(rest + blanks) == rest
  {
    if blanks == "" {
      assert rest + blanks == rest;
    } else {
      assert (rest + blanks)[..|rest + blanks| - 1] == rest + blanks[..|blanks| - 1];
      DropBlanksAtEndOf(rest, blanks[..|blanks| - 1]);
    }
  }

  lemma {:induction false} DropBlanksSplits(s: string) returns (blanks: string)
    ensures AllBlank(blanks) && s == blanks + DropBlanks(s)
  {
    blanks := "";
    if s != "" && IsBlank(s[0]) {
      var rest := DropBlanksSplits(s[1..]);
      blanks := [s[0]] + rest;
    }
  }

  lemma {:induction false} DropBlanksAtEndSplits(s: string) returns (blanks: string)
    ensures AllBlank(blanks) && s == DropBlanksAtEnd(s) + blanks
  {
    blanks := "";
    if s != "" && IsBlank(s[|s| - 1]) {
      var rest := DropBlanksAtEndSplits(s[..|s| - 1]);
      blanks := rest + [s[|s| - 1]];
    }
  }

  /** The shape of a duration: blanks, digits, a point with decimals or neither, blanks, a unit in any
      case or none, blanks. */
  datatype Shape = Shape(before: string, whole: string, decimals: string, between: string, suffix: string, after: string)

  function Written(p: Shape): string {
    p.before + p.whole + Fraction(p.decimals) + p.between + p.suffix + p.after
  }

  ghost predicate IsShape(p: Shape) {
    && AllBlank(p.before) && AllBlank(p.between) && AllBlank(p.after)
    && p.whole != "" && AllDigits(p.whole) && AllDigits(p.decimals)
    && UnitNamed(Lower(p.suffix)).Some?
  }

  predicate IsUnitLetter(c: char) {
    c == 'm' || c == 's' || c == 'h' || c == 'd'
  }

  lemma UnitLetters(name: string)
    requires UnitNamed(name).Some?
    ensures forall i :: 0 <= i < |name| ==> IsUnitLetter(name[i])
  {}

  lemma LetterIsNoBlank(c: char)
    requires IsUnitLetter(LowerChar(c))
    ensures !IsBlank(c) && !IsDigit(c) && c != '.'
  {}

  lemma SuffixIsLetters(suffix: string)
    requires UnitNamed(Lower(suffix)).Some?
    ensures forall i :: 0 <= i < |suffix| ==> !IsBlank(suffix[i]) && !IsDigit(suffix[i]) && suffix[i] != '.'
  {
    UnitLetters(Lower(suffix));
    forall i | 0 <= i < |suffix| ensures !IsBlank(suffix[i]) && !IsDigit(suffix[i]) && suffix[i] != '.' {
      assert Lower(suffix)[i] == LowerChar(suffix[i]);
      LetterIsNoBlank(suffix[i]);
    }
  }

  /** No blanks, digits or points: what a suffix is made of. */
  ghost predicate IsWord(s: string) {
    forall i :: 0 <= i < |s| ==> !IsBlank(s[i]) && !IsDigit(s[i]) && s[i] != '.'
  }

  /** Blanks, a word and blanks are read as the word. */
  lemma WordOf(between: string, word: string, after: string)
    requires AllBlank(between) && AllBlank(after) && IsWord(word)
    ensures DropBlanksAtEnd(DropBlanks(between + word + after)) == word
    ensures EndsNumber(between + word + after)
  {
    if word == "" {
      var blanks := between + word + after;
      assert AllBlank(blanks);
      DropBlanksOf(blanks, "");
      assert blanks + "" == blanks;
    } else {
      assert between + word + after == between + (word + after);
      DropBlanksOf(between, word + after);
      DropBlanksAtEndOf(word, after);
    }
  }

  /** What may follow a number without becoming part of it. */
  predicate EndsNumber(rest: string) {
    rest == "" || (!IsDigit(rest[0]) && rest[0] != '.')
  }

  lemma TailOf(whole: string, decimals: string, between: string, suffix: string, after: string, unit: Unit)
    requires AllDigits(whole) && AllDigits(decimals) && AllBlank(between) && AllBlank(after)
    requires UnitNamed(Lower(suffix)) == Some(unit)
    ensures Tail(whole, decimals, between + suffix + after) == Some(Amount(whole, decimals) * Seconds(unit))
    ensures EndsNumber(between + suffix + after)
  {
    SuffixIsLetters(suffix);
    WordOf(between, suffix, after);
  }

  lemma DecimalRunOf(decimals: string, rest: string)
    requires AllDigits(decimals) && EndsNumber(rest)
    ensures var s := Fraction(decimals) + rest;
            var d := DecimalRun(s);
            && d == (if decimals == "" then 0 else |decimals| + 1)
            && (d > 0 ==> s[1..d] == decimals) && s[d..] == rest
            && (s == "" || !IsDigit(s[0]))
  {
    if decimals != "" {
      var s := "." + decimals + rest;
      assert s[1..] == decimals + rest;
      DigitRunOf(decimals, rest);
    } else {
      assert "" + rest == rest;
    }
  }

  lemma ParseOfDigits(whole: string, decimals: string, rest: string)
    requires whole != "" && AllDigits(whole) && AllDigits(decimals) && EndsNumber(rest)
    ensures ParseText(whole + (Fraction(decimals) + rest)) == Tail(whole, decimals, rest)
  {
    var s := Fraction(decimals) + rest;
    var text := whole + s;
    DecimalRunOf(decimals, rest);
    DigitRunOf(whole, s);
    assert text[|whole|..] == s && text[..|whole|] == whole;
    assert DropBlanks(text) == text;
  }

  lemma ParseDropsBlanks(blanks: string, text: string)
    requires AllBlank(blanks) && text != "" && IsDigit(text[0])
    ensures ParseText(blanks + text) == ParseText(text)
  {
    DropBlanksOf(blanks, text);
    assert DropBlanks(text) == text;
  }

  lemma ParseOfParts(p: Shape, unit: Unit)
    requires IsShape(p) && UnitNamed(Lower(p.suffix)) == Some(unit)
    ensures ParseText(p.before + (p.whole + (Fraction(p.decimals) + (p.between + p.suffix + p.after)))) ==
            Some(Amount(p.whole, p.decimals) * Seconds(unit))
  {
    var rest := p.between + p.suffix + p.after;
    TailOf(p.whole, p.decimals, p.between, p.suffix, p.after, unit);
    ParseOfDigits(p.whole, p.decimals, rest);
    ParseDropsBlanks(p.before, p.whole + (Fraction(p.decimals) + rest));
  }

  /** A text of the shape is read as its number times its unit. */
  lemma ParseOfShape(p: Shape)
    requires IsShape(p)
    ensures ParseText(Written(p)) == Some(Amount(p.whole, p.decimals) * Seconds(UnitNamed(Lower(p.suffix)).value))
  {
    ParseOfParts(p, UnitNamed(Lower(p.suffix)).value);
    Regroup(p.before, p.whole, Fraction(p.decimals), p.between, p.suffix, p.after);
  }

  lemma Regroup(a: string, b: string, c: string, d: string, e: string, f: string)
    ensures a + b + c + d + e + f == a + (b + (c + (d + e + f)))
  {}

  lemma ShapeOfTail(rest: string) returns (between: string, suffix: string, after: string)
    ensures AllBlank(between) && AllBlank(after) && rest == between + suffix + after
    ensures suffix == DropBlanksAtEnd(DropBlanks(rest))
  {
    between := DropBlanksSplits(rest);
    after := DropBlanksAtEndSplits(DropBlanks(rest));
    suffix := DropBlanksAtEnd(DropBlanks(rest));
    assert rest == between + (suffix + after);
  }

  lemma NumberSplits(s: string, k: nat, d: nat)
    requires k <= |s| && d == DecimalRun(s[k..])
    ensures s == s[..k] + (Fraction(if d == 0 then "" else s[k..][1..d]) + s[k..][d..])
  {
    var t := s[k..];
    assert s == s[..k] + t;
    if d > 0 {
      assert t == t[..1] + t[1..d] + t[d..];
      assert t[..1] == ".";
    }
  }

  /** Nothing else is read: what is accepted has the shape. */
  lemma ShapeOfParsed(text: string) returns (p: Shape)
    requires ParseText(text).Some?
    ensures IsShape(p) && Written(p) == text
  {
    var s := DropBlanks(text);
    var before := DropBlanksSplits(text);
    var k := DigitRun(s);
    var d := DecimalRun(s[k..]);
    var decimals := if d == 0 then "" else s[k..][1..d];
    var between, suffix, after := ShapeOfTail(s[k..][d..]);
    p := Shape(before, s[..k], decimals, between, suffix, after);
    NumberSplits(s, k, d);
    Regroup(before, s[..k], Fraction(decimals), between, suffix, after);
  }

  /** The parser accepts exactly the texts of the shape. */
  lemma ParsesIff(text: string)
    ensures ParseText(text).Some? <==> exists p :: IsShape(p) && Written(p) == text
  {
    if ParseText(text).Some? {
      var p := ShapeOfParsed(text);
    }
    if p :| IsShape(p) && Written(p) == text {
      ParseOfShape(p);
    }
  }

  // ---- the round trip ----

  lemma Atoi123(a: nat, b: nat, c: nat)
    requires a < 10 && b < 10 && c < 10
    ensures Atoi([DigitChar(a)]) == a
    ensures Atoi([DigitChar(a), DigitChar(b)]) == 10 * a + b
    ensures Atoi([DigitChar(a), DigitChar(b), DigitChar(c)]) == 100 * a + 10 * b + c
  {
    var x, y, z := [DigitChar(a)], [DigitChar(a), DigitChar(b)], [DigitChar(a), DigitChar(b), DigitChar(c)];
    assert z[..2] == y && y[..1] == x && x[..0] == "";
    assert DigitValue(DigitChar(a)) == a && DigitValue(DigitChar(b)) == b && DigitValue(DigitChar(c)) == c;
    assert Atoi(x) == 10 * Atoi("") + a;
    assert Atoi(y) == 10 * Atoi(x) + b;
    assert Atoi(z) == 10 * Atoi(y) + c;
  }

  lemma Powers()
    ensures Pow10(0) == 1 && Pow10(1) == 10 && Pow10(2) == 100 && Pow10(3) == 1000
  {
    assert Pow10(3) == 10 * Pow10(2) && Pow10(2) == 10 * Pow10(1) && Pow10(1) == 10 * Pow10(0);
  }

  lemma DecimalsValue(thousandths: nat)
    requires 0 < thousandths < 1000
    ensures var s := Decimals(thousandths);
            Atoi(s) as real / Pow10(|s|) as real == thousandths as real / 1000.0
  {
    var a, b, c := thousandths / 100, thousandths / 10 % 10, thousandths % 10;
    assert thousandths == 100 * a + 10 * b + c;
    Atoi123(a, b, c);
    Powers();
  }

  lemma ReadsBack(whole: string, decimals: string, suffix: string, unit: Unit, value: real)
    requires whole != "" && AllDigits(whole) && AllDigits(decimals) && UnitNamed(Lower(suffix)) == Some(unit)
    requires Amount(whole, decimals) * Seconds(unit) == value
    ensures ParseText(whole + (Fraction(decimals) + suffix)) == Some(value)
  {
    assert "" + suffix + "" == suffix;
    TailOf(whole, decimals, "", suffix, "", unit);
    ParseOfDigits(whole, decimals, suffix);
  }

  lemma WholeAmount(n: nat)
    ensures Amount(Itoa(n), "") == n as real
  {
    AtoiItoa(n);
  }

  lemma DecimalAmount(ms: nat)
    requires ms % 1000 != 0
    ensures Amount(Itoa(ms / 1000), Decimals(ms % 1000)) == ms as real / 1000.0
  {
    AtoiItoa(ms / 1000);
    DecimalsValue(ms % 1000);
  }

  lemma LowerUnits()
    ensures UnitNamed(Lower("ms")) == Some(Millisecond) && UnitNamed(Lower("s")) == Some(Second)
    ensures UnitNamed(Lower("m")) == Some(Minute) && UnitNamed(Lower("h")) == Some(Hour)
    ensures UnitNamed(Lower("d")) == Some(Day)
  {
    assert Lower("ms") == "ms" && Lower("s") == "s" && Lower("m") == "m" && Lower("h") == "h" && Lower("d") == "d";
  }

  lemma WholeUnits(n: nat, suffix: string, unit: Unit, value: real)
    requires UnitNamed(Lower(suffix)) == Some(unit) && n as real * Seconds(unit) == value
    ensures ParseText(Itoa(n) + suffix) == Some(value)
  {
    WholeAmount(n);
    ReadsBack(Itoa(n), "", suffix, unit, value);
    assert Fraction("") + suffix == suffix;
  }

  lemma WithDecimals(ms: nat)
    requires ms % 1000 != 0
    ensures ParseText(Itoa(ms / 1000) + (Fraction(Decimals(ms % 1000)) + "s")) == Some(ms as real / 1000.0)
  {
    DecimalAmount(ms);
    DecimalSeconds(Itoa(ms / 1000), Decimals(ms % 1000), ms as real / 1000.0);
  }

  lemma DecimalSeconds(whole: string, decimals: string, value: real)
    requires whole != "" && AllDigits(whole) && AllDigits(decimals) && Amount(whole, decimals) == value
    ensures ParseText(whole + (Fraction(decimals) + "s")) == Some(value)
  {
    LowerUnits();
    ReadsBack(whole, decimals, "s", Second, value);
  }

  /** Reading a printed duration gives back the same number of milliseconds, through all of its forms. */
  lemma RoundTrip(ms: nat)
    ensures ParseText(Format(ms)) == Some(ms as real / 1000.0)
  {
    LowerUnits();
    var value := ms as real / 1000.0;
    if ms == 0 {
      WholeUnits(0, "s", Second, value);
    } else if ms < 1000 {
      WholeUnits(ms, "ms", Millisecond, value);
    } else if ms % MS_PER_DAY == 0 {
      WholeUnits(ms / MS_PER_DAY, "d", Day, value);
    } else if ms % MS_PER_HOUR == 0 {
      WholeUnits(ms / MS_PER_HOUR, "h", Hour, value);
    } else if ms % MS_PER_MINUTE == 0 {
      WholeUnits(ms / MS_PER_MINUTE, "m", Minute, value);
    } else if ms % 1000 == 0 {
      WholeUnits(ms / 1000, "s", Second, value);
    } else {
      WithDecimals(ms);
    }
  }

  /** So different durations are printed differently. */
  lemma FormatIsInjective(a: nat, b: nat)
    requires Format(a) == Format(b)
    ensures a == b
  {
    RoundTrip(a);
    RoundTrip(b);
  }

  /** What is accepted is never negative. */
  lemma ParsedIsNotNegative(value: Value)
    ensures ParseDuration(value).Some? ==> ParseDuration(value).value >= 0.0
  {
    if value.Text? && ParseText(value.text).Some? {
      var p := ShapeOfParsed(value.text);
      ParseOfShape(p);
      AmountIsNotNegative(p.whole, p.decimals);
    }
  }

  lemma AmountIsNotNegative(whole: string, decimals: string)
    requires AllDigits(whole) && AllDigits(decimals)
    ensures Amount(whole, decimals) >= 0.0
  {
    assert Atoi(decimals) as real / Pow10(|decimals|) as real >= 0.0;
  }
}
