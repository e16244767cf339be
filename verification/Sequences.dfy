/** Sequences without duplicates, and sequences that are permutations of each other. */
module Sequences {

  predicate NoDuplicates<T(==)>(s: seq<T>) {
    forall i, j :: 0 <= i < j < |s| ==> s[i] != s[j]
  }

  lemma {:induction false} OnceEach<T>(s: seq<T>, x: T)
    requires NoDuplicates(s)
    ensures multiset(s)[x] <= 1
  {
    if s != [] {
      assert s == [s[0]] + s[1..];
      OnceEach(s[1..], x);
    }
  }

  lemma PermutedDistinct<T>(a: seq<T>, b: seq<T>)
    requires NoDuplicates(a) && multiset(a) == multiset(b)
    ensures NoDuplicates(b)
  {
    forall i, j | 0 <= i < j < |b| ensures b[i] != b[j] {
      if b[i] == b[j] {
        assert b == b[..i] + [b[i]] + b[i + 1..j] + [b[j]] + b[j + 1..];
        OnceEach(a, b[i]);
      }
    }
  }

  /** Where the first element of one sequence stands in another order of it. */
  lemma TakeOut<T>(a: seq<T>, b: seq<T>) returns (before: seq<T>, after: seq<T>)
    requires a != [] && multiset(a) == multiset(b)
    ensures b == before + [a[0]] + after && multiset(before + after) == multiset(a[1..])
  {
    assert a[0] in multiset(b);
    var i :| 0 <= i < |b| && b[i] == a[0];
    before, after := b[..i], b[i + 1..];
    assert b == before + [a[0]] + after;
    assert a == [a[0]] + a[1..];
    assert multiset(before + after) == multiset(b) - multiset{a[0]};
  }
}
