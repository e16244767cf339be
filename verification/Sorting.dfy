/** The order in which discovered archives are indexed (internal/service/tick.go). */
module Sorting {
  import opened ArchiveStore

  /** Lexicographic order of strings, character by character. */
  predicate Precedes(a: string, b: string) {
    b != "" && (a == "" || a[0] < b[0] || (a[0] == b[0] && Precedes(a[1..], b[1..])))
  }

  /** One string precedes another exactly when it is a proper prefix of it, or smaller where they first differ. */
  lemma {:induction false} PrecedesIff(a: string, b: string)
    ensures Precedes(a, b) <==> a < b || exists k :: 0 <= k < |a| && k < |b| && a[..k] == b[..k] && a[k] < b[k]
  {
    if a != "" && b != "" && a[0] == b[0] {
      PrecedesIff(a[1..], b[1..]);
      assert a == [a[0]] + a[1..] && b == [b[0]] + b[1..];
      if k :| 0 <= k < |a| && k < |b| && a[..k] == b[..k] && a[k] < b[k] {
        assert a[1..][..k - 1] == a[..k][1..] && b[1..][..k - 1] == b[..k][1..];
        assert a[1..][k - 1] < b[1..][k - 1];
      }
      if k :| 0 <= k < |a| - 1 && k < |b| - 1 && a[1..][..k] == b[1..][..k] && a[1..][k] < b[1..][k] {
        assert a[..k + 1] == [a[0]] + a[1..][..k] && b[..k + 1] == [b[0]] + b[1..][..k];
        assert a[..k + 1] == b[..k + 1] && a[k + 1] < b[k + 1];
      }
    } else if a != "" && b != "" {
      assert a[..0] == b[..0];
    }
  }

  lemma {:induction false} PrecedesTotal(a: string, b: string)
    ensures Precedes(a, b) || Precedes(b, a) || a == b
    ensures !(Precedes(a, b) && Precedes(b, a)) && !Precedes(a, a)
  {
    if a != "" {
      PrecedesTotal(a[1..], a[1..]);
    }
    if a != "" && b != "" {
      PrecedesTotal(a[1..], b[1..]);
      assert a == [a[0]] + a[1..] && b == [b[0]] + b[1..];
    }
  }

  lemma {:induction false} PrecedesTrans(a: string, b: string, c: string)
    requires Precedes(a, b) && Precedes(b, c)
    ensures Precedes(a, c)
  {
    if a != "" && a[0] == b[0] && b[0] == c[0] {
      PrecedesTrans(a[1..], b[1..], c[1..]);
    }
  }

  /** Smaller archives first, then by basename, then by id. */
  predicate Before(rows: Rows, x: Id, y: Id)
    requires x in rows && y in rows
  {
    if rows[x].sizeBytes != rows[y].sizeBytes then rows[x].sizeBytes < rows[y].sizeBytes
    else if rows[x].basename != rows[y].basename then Precedes(rows[x].basename, rows[y].basename)
    else Precedes(x, y)
  }

  /** Size decides first, then the basename, then the id. */
  lemma BeforeIff(rows: Rows, x: Id, y: Id)
    requires x in rows && y in rows
    ensures Before(rows, x, y) <==>
              || rows[x].sizeBytes < rows[y].sizeBytes
              || (rows[x].sizeBytes == rows[y].sizeBytes && Precedes(rows[x].basename, rows[y].basename))
              || (rows[x].sizeBytes == rows[y].sizeBytes && rows[x].basename == rows[y].basename && Precedes(x, y))
  {
    PrecedesTotal(rows[x].basename, rows[y].basename);
  }

  lemma BeforeTotal(rows: Rows, x: Id, y: Id)
    requires x in rows && y in rows
    ensures Before(rows, x, y) || Before(rows, y, x) || x == y
    ensures !(Before(rows, x, y) && Before(rows, y, x)) && !Before(rows, x, x)
  {
    PrecedesTotal(rows[x].basename, rows[y].basename);
    PrecedesTotal(x, y);
    PrecedesTotal(x, x);
  }

  lemma BeforeTrans(rows: Rows, x: Id, y: Id, z: Id)
    requires x in rows && y in rows && z in rows && Before(rows, x, y) && Before(rows, y, z)
    ensures Before(rows, x, z)
  {
    if rows[x].sizeBytes == rows[y].sizeBytes == rows[z].sizeBytes {
      if rows[x].basename == rows[y].basename == rows[z].basename {
        PrecedesTrans(x, y, z);
      } else if rows[x].basename != rows[y].basename && rows[y].basename != rows[z].basename {
        PrecedesTrans(rows[x].basename, rows[y].basename, rows[z].basename);
        PrecedesTotal(rows[x].basename, rows[z].basename);
      }
    }
  }

  ghost predicate Known(rows: Rows, ids: seq<Id>) {
    forall id :: id in ids ==> id in rows
  }

  /** No later id belongs before an earlier one. */
  ghost predicate Ordered(rows: Rows, ids: seq<Id>)
    requires Known(rows, ids)
  {
    forall i, j :: 0 <= i < j < |ids| ==> !Before(rows, ids[j], ids[i])
  }

  /** The place of an id in an ordered list: after everything it does not belong before. */
  function Insert(rows: Rows, ids: seq<Id>, id: Id): seq<Id>
    requires id in rows && Known(rows, ids)
  {
    if ids == [] || Before(rows, id, ids[0]) then [id] + ids else [ids[0]] + Insert(rows, ids[1..], id)
  }

  lemma {:induction false} InsertResult(rows: Rows, ids: seq<Id>, id: Id)
    requires id in rows && Known(rows, ids)
    ensures multiset(Insert(rows, ids, id)) == multiset(ids) + multiset{id}
    ensures Known(rows, Insert(rows, ids, id))
  {
    if ids != [] && !Before(rows, id, ids[0]) {
      InsertResult(rows, ids[1..], id);
      assert ids == [ids[0]] + ids[1..];
    }
    forall k | k in Insert(rows, ids, id) ensures k in rows {
      assert k in multiset(Insert(rows, ids, id));
    }
  }

  lemma {:induction false} InsertOrdered(rows: Rows, ids: seq<Id>, id: Id)
    requires id in rows && Known(rows, ids) && Ordered(rows, ids)
    ensures Known(rows, Insert(rows, ids, id)) && Ordered(rows, Insert(rows, ids, id))
  {
    InsertResult(rows, ids, id);
    var r := Insert(rows, ids, id);
    if ids != [] && !Before(rows, id, ids[0]) {
      InsertOrdered(rows, ids[1..], id);
      InsertResult(rows, ids[1..], id);
      forall j | 0 < j < |r| ensures !Before(rows, r[j], r[0]) {
        assert r[j] in multiset(Insert(rows, ids[1..], id));
        if r[j] != id {
          assert r[j] in ids[1..];
        }
      }
    } else if ids != [] {
      forall j | 0 < j < |r| ensures !Before(rows, r[j], r[0]) {
        BeforeTotal(rows, id, r[j]);
        if Before(rows, r[j], id) {
          BeforeTrans(rows, r[j], id, ids[0]);
        }
      }
    }
  }

  function Sorted(rows: Rows, ids: seq<Id>): (r: seq<Id>)
    requires Known(rows, ids)
    ensures Known(rows, r)
  {
    if ids == [] then []
    else
      var rest := Sorted(rows, ids[1..]);
      assert Known(rows, Insert(rows, rest, ids[0])) by { InsertResult(rows, rest, ids[0]); }
      Insert(rows, rest, ids[0])
  }

  lemma {:induction false} SortedResult(rows: Rows, ids: seq<Id>)
    requires Known(rows, ids)
    ensures multiset(Sorted(rows, ids)) == multiset(ids) && Ordered(rows, Sorted(rows, ids))
  {
    if ids != [] {
      SortedResult(rows, ids[1..]);
      InsertResult(rows, Sorted(rows, ids[1..]), ids[0]);
      InsertOrdered(rows, Sorted(rows, ids[1..]), ids[0]);
      assert ids == [ids[0]] + ids[1..];
    }
  }

  lemma FirstComesFirst(rows: Rows, ids: seq<Id>, id: Id)
    requires Known(rows, ids) && Ordered(rows, ids) && id in ids
    ensures !Before(rows, id, ids[0])
  {
    BeforeTotal(rows, ids[0], ids[0]);
    var i :| 0 <= i < |ids| && ids[i] == id;
  }

  lemma FirstUnique(rows: Rows, a: seq<Id>, b: seq<Id>)
    requires Known(rows, a) && Known(rows, b) && Ordered(rows, a) && Ordered(rows, b)
    requires a != [] && b != [] && a[0] in b && b[0] in a
    ensures a[0] == b[0]
  {
    FirstComesFirst(rows, a, b[0]);
    FirstComesFirst(rows, b, a[0]);
    BeforeTotal(rows, a[0], b[0]);
  }

  lemma WithoutFirst(a: seq<Id>)
    requires a != []
    ensures multiset(a[1..]) == multiset(a) - multiset{a[0]}
  {
    assert a == [a[0]] + a[1..];
  }

  /** Two ordered lists of the same ids are the same list. */
  lemma {:induction false} OrderedUnique(rows: Rows, a: seq<Id>, b: seq<Id>)
    requires Known(rows, a) && Known(rows, b) && multiset(a) == multiset(b)
    requires Ordered(rows, a) && Ordered(rows, b)
    ensures a == b
  {
    assert |a| == |multiset(a)| == |multiset(b)| == |b|;
    if a != [] {
      assert a[0] in multiset(b) && b[0] in multiset(a);
      FirstUnique(rows, a, b);
      WithoutFirst(a);
      WithoutFirst(b);
      OrderedUnique(rows, a[1..], b[1..]);
    }
  }

  /** The order of the candidates is fixed by their rows alone, not by the order of the listing. */
  lemma SortedCanonical(rows: Rows, a: seq<Id>, b: seq<Id>)
    requires Known(rows, a) && multiset(a) == multiset(b)
    ensures Known(rows, b) && Sorted(rows, a) == Sorted(rows, b)
  {
    forall id | id in b ensures id in rows {
      assert id in multiset(a);
    }
    SortedResult(rows, a);
    SortedResult(rows, b);
    OrderedUnique(rows, Sorted(rows, a), Sorted(rows, b));
  }

  /** SortArchivesForIndex. */
  function Candidates(rows: Rows, listed: seq<Id>, smallestFirst: bool): seq<Id>
    requires Known(rows, listed)
  {
    if smallestFirst then Sorted(rows, listed) else listed
  }
}
