/** Pruning the quarantine: by age, and then oldest first until a size cap is met
    (internal/cleaner/quarantine.go). */
module Quarantine {
  import opened Sequences

  /** An entry of the quarantine directory. One that cannot be read is skipped; removing one may fail. */
  datatype Entry = Entry(path: string, mtime: real, size: nat, readable: bool, removable: bool)

  function Bytes(entries: seq<Entry>): nat {
    if entries == [] then 0 else entries[0].size + Bytes(entries[1..])
  }

  function Keep(entries: seq<Entry>, drop: set<Entry>): seq<Entry> {
    if entries == [] then []
    else (if entries[0] in drop then [] else [entries[0]]) + Keep(entries[1..], drop)
  }

  predicate Expired(e: Entry, retainFor: real, now: real) {
    e.readable && now - e.mtime >= retainFor
  }

  /** What the age pass removes. */
  function Aged(entries: seq<Entry>, retainFor: real, now: real): set<Entry> {
    set e | e in entries && Expired(e, retainFor, now) && e.removable
  }

  /** What the age pass hands on to the size cap. */
  function Survivors(entries: seq<Entry>, retainFor: real, now: real): seq<Entry> {
    if entries == [] then []
    else
      var last := entries[|entries| - 1];
      Survivors(entries[..|entries| - 1], retainFor, now)
      + if last.readable && !Expired(last, retainFor, now) then [last] else []
  }

  ghost predicate OldestFirst(order: seq<Entry>) {
    forall i, j :: 0 <= i < j < |order| ==> order[i].mtime <= order[j].mtime
  }

  /** What the size cap removes: entries from the front until the total fits, skipping those that stay. */
  function Capped(order: seq<Entry>, total: int, maxBytes: int): seq<Entry> {
    if order == [] || total <= maxBytes then []
    else if !order[0].removable then Capped(order[1..], total, maxBytes)
    else [order[0]] + Capped(order[1..], total - order[0].size, maxBytes)
  }

  function Members(entries: seq<Entry>): set<Entry> {
    set e | e in entries
  }

  /** What one pruning removes, when the survivors are taken in the given order. */
  function Pruned(entries: seq<Entry>, order: seq<Entry>, retainFor: real, maxBytes: int, now: real): set<Entry> {
    Aged(entries, retainFor, now) + if maxBytes > 0 then Members(Capped(order, Bytes(order), maxBytes)) else {}
  }

  // ---- sorting ----

  function InsertByAge(order: seq<Entry>, e: Entry): seq<Entry> {
    if order == [] || e.mtime < order[0].mtime then [e] + order else [order[0]] + InsertByAge(order[1..], e)
  }

  lemma {:induction false} InsertByAgeMembers(order: seq<Entry>, e: Entry)
    ensures multiset(InsertByAge(order, e)) == multiset(order) + multiset{e}
  {
    if order != [] && e.mtime >= order[0].mtime {
      InsertByAgeMembers(order[1..], e);
      assert order == [order[0]] + order[1..];
    }
  }

  lemma {:induction false} InsertByAgeOrdered(order: seq<Entry>, e: Entry)
    requires OldestFirst(order)
    ensures OldestFirst(InsertByAge(order, e))
  {
    if order != [] && e.mtime >= order[0].mtime {
      InsertByAgeOrdered(order[1..], e);
      InsertByAgeMembers(order[1..], e);
      forall x | x in InsertByAge(order[1..], e) ensures order[0].mtime <= x.mtime {
        assert x in multiset(InsertByAge(order[1..], e));
        assert x == e || x in order[1..];
      }
    }
  }

  /** The survivors by age. Entries of one age may come in any order. */
  method SortByAge(entries: seq<Entry>) returns (order: seq<Entry>)
    ensures multiset(order) == multiset(entries) && OldestFirst(order)
  {
    order := [];
    for i := 0 to |entries|
      invariant multiset(order) == multiset(entries[..i]) && OldestFirst(order)
    {
      assert entries[..i + 1] == entries[..i] + [entries[i]];
      InsertByAgeMembers(order, entries[i]);
      InsertByAgeOrdered(order, entries[i]);
      order := InsertByAge(order, entries[i]);
    }
    assert entries[..|entries|] == entries;
  }

  method TotalBytes(entries: seq<Entry>) returns (total: nat)
    ensures total == Bytes(entries)
  {
    total := 0;
    for i := 0 to |entries|
      invariant total + Bytes(entries[i..]) == Bytes(entries)
    {
      assert entries[i..][1..] == entries[i + 1..];
      total := total + entries[i].size;
    }
  }

  // ---- removing ----

  lemma {:induction false} KeepIs(entries: seq<Entry>, drop: set<Entry>)
    ensures forall e :: e in Keep(entries, drop) <==> e in entries && e !in drop
    ensures NoDuplicates(entries) ==> NoDuplicates(Keep(entries, drop))
  {
    if entries != [] {
      KeepIs(entries[1..], drop);
      assert entries == [entries[0]] + entries[1..];
      if NoDuplicates(entries) {
        assert entries[0] !in entries[1..];
      }
    }
  }

  lemma KeepCons(e: Entry, rest: seq<Entry>, drop: set<Entry>)
    ensures Keep([e] + rest, drop) == (if e in drop then [] else [e]) + Keep(rest, drop)
    ensures Bytes([e] + rest) == e.size + Bytes(rest)
  {
    assert ([e] + rest)[1..] == rest;
  }

  lemma {:induction false} KeepKeep(entries: seq<Entry>, a: set<Entry>, b: set<Entry>)
    ensures Keep(Keep(entries, a), b) == Keep(entries, a + b)
  {
    if entries != [] {
      KeepKeep(entries[1..], a, b);
      KeepCons(entries[0], Keep(entries[1..], a), b);
      assert [] + Keep(entries[1..], a) == Keep(entries[1..], a);
    }
  }

  lemma {:induction false} KeepAll(entries: seq<Entry>, drop: set<Entry>)
    requires forall e :: e in entries ==> e !in drop
    ensures Keep(entries, drop) == entries
  {
    if entries != [] {
      KeepAll(entries[1..], drop);
    }
  }

  /** Removing an entry takes its bytes away, and it alone. */
  lemma {:induction false} KeepOne(entries: seq<Entry>, e: Entry)
    requires NoDuplicates(entries) && e in entries
    ensures Bytes(Keep(entries, {e})) + e.size == Bytes(entries)
    ensures |Keep(entries, {e})| + 1 == |entries|
  {
    KeepCons(entries[0], Keep(entries[1..], {e}), {});
    if entries[0] == e {
      assert e !in entries[1..];
      KeepAll(entries[1..], {e});
      assert Keep(entries, {e}) == [] + entries[1..] == entries[1..];
    } else {
      KeepOne(entries[1..], e);
      KeepCons(entries[0], Keep(entries[1..], {e}), {e});
    }
  }

  lemma AgedNext(listed: seq<Entry>, i: nat, retainFor: real, now: real)
    requires i < |listed| && NoDuplicates(listed)
    ensures listed[i] !in Aged(listed[..i], retainFor, now)
    ensures Aged(listed[..i + 1], retainFor, now) ==
            if Expired(listed[i], retainFor, now) && listed[i].removable
            then Aged(listed[..i], retainFor, now) + {listed[i]} else Aged(listed[..i], retainFor, now)
  {
    assert listed[..i + 1] == listed[..i] + [listed[i]];
  }

  lemma SurvivorsNext(listed: seq<Entry>, i: nat, retainFor: real, now: real)
    requires i < |listed|
    ensures Survivors(listed[..i + 1], retainFor, now) ==
            Survivors(listed[..i], retainFor, now)
            + if listed[i].readable && !Expired(listed[i], retainFor, now) then [listed[i]] else []
  {
    assert listed[..i + 1][..i] == listed[..i];
  }

  /** What the size cap removes in all: what is gone, and what it removes from the rest. */
  ghost predicate Capping(order: seq<Entry>, i: nat, total: int, maxBytes: int, gone: set<Entry>, all: set<Entry>)
    requires i <= |order|
  {
    all == gone + Members(Capped(order[i..], total, maxBytes))
  }

  lemma CappingNext(order: seq<Entry>, i: nat, total: int, total': int, maxBytes: int,
                    gone: set<Entry>, gone': set<Entry>, all: set<Entry>)
    requires i < |order| && total > maxBytes && Capping(order, i, total, maxBytes, gone, all)
    requires gone' == (if order[i].removable then gone + {order[i]} else gone)
    requires total' == (if order[i].removable then total - order[i].size else total)
    ensures Capping(order, i + 1, total', maxBytes, gone', all)
  {
    assert order[i..][1..] == order[i + 1..];
    if order[i].removable {
      var rest := Capped(order[i + 1..], total', maxBytes);
      assert Members([order[i]] + rest) == {order[i]} + Members(rest);
    }
  }

  lemma CappingEnds(order: seq<Entry>, i: nat, total: int, maxBytes: int, gone: set<Entry>, all: set<Entry>)
    requires i <= |order| && Capping(order, i, total, maxBytes, gone, all) && (i == |order| || total <= maxBytes)
    ensures gone == all
  {
    assert gone + Members([]) == gone;
  }

  class Directory {
    var entries: seq<Entry>

    ghost predicate Valid()
      reads this
    {
      NoDuplicates(entries)
    }

    constructor (entries: seq<Entry>)
      requires NoDuplicates(entries)
      ensures Valid() && this.entries == entries
    {
      this.entries := entries;
    }

    /** removeQuarantineEntry: it frees exactly the entry's bytes, or nothing. */
    method Remove(e: Entry) returns (ok: bool)
      requires Valid() && e in entries
      modifies this
      ensures Valid() && ok == e.removable
      ensures entries == if ok then Keep(old(entries), {e}) else old(entries)
      ensures Bytes(entries) + (if ok then e.size else 0) == Bytes(old(entries))
      ensures |entries| + (if ok then 1 else 0) == |old(entries)|
    {
      if !e.removable {
        return false;
      }
      KeepIs(entries, {e});
      KeepOne(entries, e);
      entries := Keep(entries, {e});
      return true;
    }

    /** What is in the directory and what has been booked as removed. */
    ghost predicate Books(count: nat, bytes: nat, removed: nat, freed: nat)
      reads this
    {
      removed + |entries| == count && freed + Bytes(entries) == bytes
    }

    /** Removes an entry that a pass has picked, and books it; the rest of the listing is as it was. */
    method Pick(e: Entry, removed: nat, freed: nat, ghost listed: seq<Entry>, ghost gone: set<Entry>,
                ghost count: nat, ghost bytes: nat)
      returns (removed': nat, freed': nat)
      requires Valid() && NoDuplicates(listed) && entries == Keep(listed, gone) && e in listed && e !in gone
      requires Books(count, bytes, removed, freed)
      modifies this
      ensures Valid() && entries == Keep(listed, if e.removable then gone + {e} else gone)
      ensures Books(count, bytes, removed', freed')
      ensures freed' == if e.removable then freed + e.size else freed
    {
      KeepIs(listed, gone);
      KeepKeep(listed, gone, {e});
      var ok := Remove(e);
      removed', freed' := removed, freed;
      if ok {
        removed', freed' := removed + 1, freed + e.size;
      }
    }

    /** The age pass. */
    method PruneByAge(retainFor: real, now: real) returns (removed: nat, freed: nat, survivors: seq<Entry>)
      requires Valid()
      modifies this
      ensures Valid()
      ensures entries == Keep(old(entries), Aged(old(entries), retainFor, now))
      ensures survivors == Survivors(old(entries), retainFor, now)
      ensures removed + |entries| == |old(entries)| && freed + Bytes(entries) == Bytes(old(entries))
    {
      var listed := entries;
      ghost var gone: set<Entry> := {};
      ghost var count, bytes := |entries|, Bytes(entries);
      removed, freed, survivors := 0, 0, [];
      KeepAll(listed, {});
      for i := 0 to |listed|
        invariant Valid() && gone == Aged(listed[..i], retainFor, now)
        invariant entries == Keep(listed, gone)
        invariant survivors == Survivors(listed[..i], retainFor, now)
        invariant Books(count, bytes, removed, freed)
      {
        var e := listed[i];
        AgedNext(listed, i, retainFor, now);
        SurvivorsNext(listed, i, retainFor, now);
        if !e.readable {
          continue;
        }
        if now - e.mtime >= retainFor {
          removed, freed := Pick(e, removed, freed, listed, gone, count, bytes);
          gone := if e.removable then gone + {e} else gone;
          continue;
        }
        survivors := survivors + [e];
      }
      assert listed[..|listed|] == listed;
    }

    /** The body of the cap's loop. */
    method CapOne(order: seq<Entry>, i: nat, total: int, maxBytes: int, removed: nat, freed: nat,
                  ghost listed: seq<Entry>, ghost gone: set<Entry>, ghost all: set<Entry>,
                  ghost count: nat, ghost bytes: nat)
      returns (total': int, removed': nat, freed': nat, ghost gone': set<Entry>)
      requires i < |order| && total > maxBytes && Capping(order, i, total, maxBytes, gone, all)
      requires Valid() && NoDuplicates(listed) && entries == Keep(listed, gone) && order[i] in listed && order[i] !in gone
      requires Books(count, bytes, removed, freed)
      modifies this
      ensures Valid() && entries == Keep(listed, gone') && Books(count, bytes, removed', freed')
      ensures gone' == if order[i].removable then gone + {order[i]} else gone
      ensures Capping(order, i + 1, total', maxBytes, gone', all)
    {
      removed', freed' := Pick(order[i], removed, freed, listed, gone, count, bytes);
      total' := total - (freed' - freed);
      gone' := if order[i].removable then gone + {order[i]} else gone;
      CappingNext(order, i, total, total', maxBytes, gone, gone', all);
    }

    /** The size cap. */
    method PruneBySize(order: seq<Entry>, maxBytes: int) returns (removed: nat, freed: nat)
      requires Valid() && NoDuplicates(order) && forall e :: e in order ==> e in entries
      modifies this
      ensures Valid()
      ensures entries == Keep(old(entries), Members(Capped(order, Bytes(order), maxBytes)))
      ensures removed + |entries| == |old(entries)| && freed + Bytes(entries) == Bytes(old(entries))
    {
      var initial := TotalBytes(order);
      var total: int := initial;
      ghost var listed := entries;
      ghost var gone: set<Entry> := {};
      ghost var count, bytes := |entries|, Bytes(entries);
      KeepAll(listed, {});
      removed, freed := 0, 0;
      var i := 0;
      ghost var all := Members(Capped(order, Bytes(order), maxBytes));
      assert order[0..] == order && {} + all == all;
      while i < |order| && total > maxBytes
        invariant 0 <= i <= |order| && Valid()
        invariant forall j :: i <= j < |order| ==> order[j] !in gone
        invariant Capping(order, i, total, maxBytes, gone, all)
        invariant entries == Keep(listed, gone)
        invariant Books(count, bytes, removed, freed)
      {
        total, removed, freed, gone :=
          CapOne(order, i, total, maxBytes, removed, freed, listed, gone, all, count, bytes);
        i := i + 1;
      }
      CappingEnds(order, i, total, maxBytes, gone, all);
    }

    /** PruneQuarantine: what is gone is what the two passes remove, and nothing is lost from the books,
        whichever removals fail. */
    method Prune(retainFor: real, maxBytes: int, now: real) returns (removed: nat, freed: nat, ghost order: seq<Entry>)
      requires Valid()
      modifies this
      ensures Valid()
      ensures multiset(order) == multiset(Survivors(old(entries), retainFor, now)) && OldestFirst(order)
      ensures entries == Keep(old(entries), Pruned(old(entries), order, retainFor, maxBytes, now))
      ensures removed + |entries| == |old(entries)| && freed + Bytes(entries) == Bytes(old(entries))
    {
      ghost var w0 := entries;
      var survivors;
      removed, freed, survivors := PruneByAge(retainFor, now);
      var sorted := SortByAge(survivors);
      order := sorted;
      assert Aged(w0, retainFor, now) + {} == Aged(w0, retainFor, now);
      if maxBytes > 0 {
        SurvivorsRemain(w0, sorted, retainFor, now);
        KeepIs(w0, Aged(w0, retainFor, now));
        var more, bytes := PruneBySize(sorted, maxBytes);
        KeepKeep(w0, Aged(w0, retainFor, now), Members(Capped(sorted, Bytes(sorted), maxBytes)));
        removed := removed + more;
        freed := freed + bytes;
      }
    }
  }

  lemma {:induction false} SurvivorsAre(entries: seq<Entry>, retainFor: real, now: real)
    ensures forall e :: e in Survivors(entries, retainFor, now) <==>
              e in entries && e.readable && !Expired(e, retainFor, now)
    ensures NoDuplicates(entries) ==> NoDuplicates(Survivors(entries, retainFor, now))
  {
    if entries != [] {
      var front, last := entries[..|entries| - 1], entries[|entries| - 1];
      SurvivorsAre(front, retainFor, now);
      assert entries == front + [last];
      if NoDuplicates(entries) {
        assert last !in front;
      }
    }
  }

  lemma SurvivorsRemain(entries: seq<Entry>, order: seq<Entry>, retainFor: real, now: real)
    requires NoDuplicates(entries) && multiset(order) == multiset(Survivors(entries, retainFor, now))
    ensures NoDuplicates(order)
    ensures forall e :: e in order <==> e in entries && e.readable && !Expired(e, retainFor, now)
    ensures forall e :: e in order ==> e !in Aged(entries, retainFor, now)
  {
    SurvivorsAre(entries, retainFor, now);
    PermutedDistinct(Survivors(entries, retainFor, now), order);
    forall e ensures e in order <==> e in Survivors(entries, retainFor, now) {
      assert e in multiset(order) <==> e in multiset(Survivors(entries, retainFor, now));
    }
  }

  // ---- what a pruning achieves ----

  /** When its removals succeed, the size cap removes a shortest oldest-first prefix: what is left fits, and
      nothing shorter would do. */
  lemma {:induction false} CapIsShortestPrefix(order: seq<Entry>, maxBytes: int) returns (k: nat)
    requires forall e :: e in order ==> e.removable
    ensures k <= |order| && Capped(order, Bytes(order), maxBytes) == order[..k]
    ensures maxBytes >= 0 ==> Bytes(order[k..]) <= maxBytes
    ensures forall j :: 0 <= j < k ==> Bytes(order[j..]) > maxBytes
    decreases |order|
  {
    k := 0;
    if order != [] && Bytes(order) > maxBytes {
      var rest := CapIsShortestPrefix(order[1..], maxBytes);
      k := rest + 1;
      assert order[..k] == [order[0]] + order[1..][..rest];
      assert order[k..] == order[1..][rest..];
      forall j | 0 <= j < k ensures Bytes(order[j..]) > maxBytes {
        if j > 0 {
          assert order[j..] == order[1..][j - 1..];
        }
      }
    }
  }

  lemma {:induction false} SizePermutes(a: seq<Entry>, b: seq<Entry>)
    requires multiset(a) == multiset(b)
    ensures Bytes(a) == Bytes(b)
    decreases |a|
  {
    if a == [] {
      assert |b| == |multiset(b)| == |multiset(a)| == 0;
    } else {
      var before, after := TakeOut(a, b);
      BytesWithout(before, a[0], after);
      SizePermutes(a[1..], before + after);
    }
  }

  lemma {:induction false} BytesConcat(a: seq<Entry>, b: seq<Entry>)
    ensures Bytes(a + b) == Bytes(a) + Bytes(b)
  {
    if a == [] {
      assert a + b == b;
    } else {
      assert (a + b)[1..] == a[1..] + b;
      BytesConcat(a[1..], b);
    }
  }

  lemma BytesWithout(before: seq<Entry>, e: Entry, after: seq<Entry>)
    ensures Bytes(before + [e] + after) == Bytes(before + after) + e.size
  {
    BytesConcat(before + [e], after);
    BytesConcat(before, [e]);
    BytesConcat(before, after);
    assert [e][1..] == [];
  }

  lemma {:induction false} SameSetSameBytes(a: seq<Entry>, b: seq<Entry>)
    requires NoDuplicates(a) && NoDuplicates(b) && forall e :: e in a <==> e in b
    ensures Bytes(a) == Bytes(b)
    decreases |a|
  {
    forall e ensures multiset(a)[e] == multiset(b)[e] {
      OnceEach(a, e);
      OnceEach(b, e);
      assert e in a <==> e in multiset(a);
      assert e in b <==> e in multiset(b);
    }
    SizePermutes(a, b);
  }

  /** With a cap, what is left of the survivors is the tail behind the removed prefix. */
  lemma LeftIsTail(entries: seq<Entry>, order: seq<Entry>, retainFor: real, maxBytes: int, now: real, k: nat)
    requires NoDuplicates(entries) && k <= |order| && maxBytes > 0
    requires forall e :: e in entries ==> e.readable && e.removable
    requires multiset(order) == multiset(Survivors(entries, retainFor, now))
    requires Capped(order, Bytes(order), maxBytes) == order[..k]
    ensures forall e :: e in Keep(entries, Pruned(entries, order, retainFor, maxBytes, now)) <==> e in order[k..]
    ensures NoDuplicates(order)
  {
    SurvivorsRemain(entries, order, retainFor, now);
    KeepIs(entries, Pruned(entries, order, retainFor, maxBytes, now));
    assert order == order[..k] + order[k..];
    forall e ensures e in order[k..] <==> e in order && e !in order[..k] {
      assert e in order <==> e in order[..k] || e in order[k..];
    }
  }

  /** When every entry can be read and removed, a pruning leaves only entries younger than the retention
      time. Without a cap it leaves all of those. */
  lemma AgeResult(entries: seq<Entry>, order: seq<Entry>, retainFor: real, maxBytes: int, now: real)
    requires NoDuplicates(entries) && forall e :: e in entries ==> e.readable && e.removable
    ensures var left := Keep(entries, Pruned(entries, order, retainFor, maxBytes, now));
            && (forall e :: e in left ==> e in entries && now - e.mtime < retainFor)
            && (maxBytes <= 0 ==> forall e :: e in entries && now - e.mtime < retainFor ==> e in left)
  {
    KeepIs(entries, Pruned(entries, order, retainFor, maxBytes, now));
  }

  /** With a cap the entries that are left fit it, and none of those removed for size is younger than one
      that stayed. */
  lemma CapResult(entries: seq<Entry>, order: seq<Entry>, retainFor: real, maxBytes: int, now: real)
    requires NoDuplicates(entries) && maxBytes > 0 && forall e :: e in entries ==> e.readable && e.removable
    requires multiset(order) == multiset(Survivors(entries, retainFor, now)) && OldestFirst(order)
    ensures var left := Keep(entries, Pruned(entries, order, retainFor, maxBytes, now));
            && Bytes(left) <= maxBytes
            && (forall e, d :: e in left && d in order && d !in left ==> d.mtime <= e.mtime)
  {
    SurvivorsRemain(entries, order, retainFor, now);
    var k := CapIsShortestPrefix(order, maxBytes);
    LeftIsTail(entries, order, retainFor, maxBytes, now, k);
    var left := Keep(entries, Pruned(entries, order, retainFor, maxBytes, now));
    KeepIs(entries, Pruned(entries, order, retainFor, maxBytes, now));
    TailOf(left, order, k);
  }

  lemma FrontIsOlder(order: seq<Entry>, k: nat, e: Entry, d: Entry)
    requires k <= |order| && OldestFirst(order) && d in order[..k] && e in order[k..]
    ensures d.mtime <= e.mtime
  {
    var i :| 0 <= i < k && order[..k][i] == d;
    var j :| 0 <= j < |order| - k && order[k..][j] == e;
    assert order[i] == d && order[k + j] == e;
  }

  lemma TailOf(left: seq<Entry>, order: seq<Entry>, k: nat)
    requires k <= |order| && NoDuplicates(left) && NoDuplicates(order) && OldestFirst(order)
    requires forall e :: e in left <==> e in order[k..]
    ensures Bytes(left) == Bytes(order[k..])
    ensures forall e, d :: e in left && d in order && d !in left ==> d.mtime <= e.mtime
  {
    SameSetSameBytes(left, order[k..]);
    assert order == order[..k] + order[k..];
    forall e, d | e in left && d in order && d !in left ensures d.mtime <= e.mtime {
      FrontIsOlder(order, k, e, d);
    }
  }
}
