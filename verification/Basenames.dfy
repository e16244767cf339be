/** What is left of a basename in the mount name made of it (internal/paths/sanitize.go). */
module Basenames {
  import opened MountNames

  /** The characters that a mount name may have, by their codes: the letters and digits of ASCII, and five more. */
  lemma SafeCharacters(c: char)
    ensures IsSafe(c) <==>
              var code := c as int;
              65 <= code <= 90 || 97 <= code <= 122 || 48 <= code <= 57 || code in {46, 95, 43, 64, 45}
  {}

  predicate IsCore(c: char) {
    IsSafe(c) && !IsEdge(c)
  }

  function Sift(s: string, keep: char -> bool): string {
    if s == "" then "" else Kept(s[0], keep) + Sift(s[1..], keep)
  }

  /** The characters that sanitizing never touches, in their order. */
  function Core(s: string): string {
    Sift(s, IsCore)
  }

  lemma {:induction false} SiftConcat(a: string, b: string, keep: char -> bool)
    ensures Sift(a + b, keep) == Sift(a, keep) + Sift(b, keep)
  {
    if a == "" {
      assert a + b == b;
    } else {
      SiftConcat(a[1..], b, keep);
      SiftFirst(a, keep);
      SiftFirst(a + b, keep);
      assert (a + b)[0] == a[0] && (a + b)[1..] == a[1..] + b;
      Associate(Kept(a[0], keep), Sift(a[1..], keep), Sift(b, keep));
    }
  }

  function Kept(c: char, keep: char -> bool): string {
    if keep(c) then [c] else ""
  }

  lemma SiftFirst(s: string, keep: char -> bool)
    requires s != ""
    ensures Sift(s, keep) == Kept(s[0], keep) + Sift(s[1..], keep)
  {}

  lemma Associate(a: string, b: string, c: string)
    ensures a + (b + c) == (a + b) + c
  {}

  lemma {:induction false} ReplaceKeepsCore(s: string)
    ensures Core(ReplaceUnsafe(s)) == Core(s)
  {
    if s != "" {
      ReplaceKeepsCore(s[1..]);
    }
  }

  lemma {:induction false} CollapseKeepsCore(s: string)
    ensures Core(CollapseUnderscores(s)) == Core(s)
  {
    if s != "" {
      CollapseKeepsCore(s[1..]);
    }
  }

  lemma {:induction false} TrimLeftKeepsCore(s: string)
    ensures Core(TrimLeft(s)) == Core(s)
  {
    if s != "" && IsEdge(s[0]) {
      TrimLeftKeepsCore(s[1..]);
    }
  }

  lemma {:induction false} TrimRightKeepsCore(s: string)
    ensures Core(TrimRight(s)) == Core(s)
  {
    if s != "" && IsEdge(s[|s| - 1]) {
      var front := s[..|s| - 1];
      TrimRightKeepsCore(front);
      SiftConcat(front, [s[|s| - 1]], IsCore);
      assert s == front + [s[|s| - 1]];
    }
  }

  lemma TrimmedKeepsCore(basename: string)
    ensures Core(Trimmed(basename)) == Core(basename)
  {
    var replaced := ReplaceUnsafe(basename);
    var collapsed := CollapseUnderscores(replaced);
    ReplaceKeepsCore(basename);
    CollapseKeepsCore(replaced);
    TrimLeftKeepsCore(collapsed);
    TrimRightKeepsCore(TrimLeft(collapsed));
  }

  lemma CutKeepsCore(name: string, n: nat)
    ensures Core(Prefix(name, n)) <= Core(name)
    ensures |name| <= n ==> Core(Prefix(name, n)) == Core(name)
  {
    var cut := Prefix(name, n);
    SiftConcat(cut, name[|cut|..], IsCore);
    assert name == cut + name[|cut|..];
  }

  lemma BaseNameIs(basename: string)
    ensures BaseName(basename) == if Trimmed(basename) == "" then "archive" else Prefix(Trimmed(basename), MAX_NAME)
  {}

  /** The name keeps every character of the basename that may stand anywhere, in order, as far as it is long
      enough; only a basename without any is called "archive". */
  lemma BaseNameKeepsCore(basename: string)
    ensures Core(basename) == "" ==> BaseName(basename) == "archive"
    ensures Core(basename) != "" ==> Core(BaseName(basename)) <= Core(basename)
    ensures Core(basename) != "" && |BaseName(basename)| < MAX_NAME ==> Core(BaseName(basename)) == Core(basename)
  {
    var trimmed := Trimmed(basename);
    BaseNameIs(basename);
    TrimmedKeepsCore(basename);
    CutKeepsCore(trimmed, MAX_NAME);
    if trimmed != "" {
      assert IsCore(trimmed[0]);
    }
  }

  /** No run of underscores, and none at its ends. */
  predicate IsTidy(name: string) {
    && IsMountName(name) && !IsEdge(name[|name| - 1])
    && forall i :: 0 <= i < |name| - 1 ==> !(name[i] == '_' && name[i + 1] == '_')
  }

  lemma {:induction false} SafeStays(s: string)
    requires forall i :: 0 <= i < |s| ==> IsSafe(s[i])
    ensures ReplaceUnsafe(s) == s
  {
    if s != "" {
      SafeStays(s[1..]);
    }
  }

  lemma {:induction false} SingleStays(s: string)
    requires forall i :: 0 <= i < |s| - 1 ==> !(s[i] == '_' && s[i + 1] == '_')
    ensures CollapseUnderscores(s) == s
  {
    if s != "" {
      forall i | 0 <= i < |s| - 2 ensures !(s[1..][i] == '_' && s[1..][i + 1] == '_') {
        assert s[1..][i] == s[i + 1] && s[1..][i + 1] == s[i + 2];
      }
      SingleStays(s[1..]);
    }
  }

  /** A name that is tidy already is only cut. */
  lemma TidyNameStays(name: string)
    requires IsTidy(name)
    ensures BaseName(name) == Prefix(name, MAX_NAME)
  {
    SafeStays(name);
    SingleStays(name);
  }
}
