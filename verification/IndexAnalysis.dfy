/** The deep and shallow sizes of a ratarmount index (internal/metrics/index_analysis.go). */
module IndexAnalysis {
  import opened Sequences

  /** A row of the files table. */
  datatype IndexRow = IndexRow(path: string, name: string, size: int, depth: int, isDir: bool)

  /** The rows, whether the table has a recursiondepth column, and which names look like archives. */
  datatype Index = Index(rows: seq<IndexRow>, hasDepth: bool, looksNested: string -> bool)

  datatype Analysis = Analysis(
    naive: int, shallow: int, deepLeaf: int, deepComplete: bool, opaqueCount: nat, opaqueBytes: int)

  // ---- full paths ----

  function Slashes(s: string): string {
    seq(|s|, i requires 0 <= i < |s| => if s[i] == '\\' then '/' else s[i])
  }

  function Rooted(p: string): string {
    if p != "" && p[0] == '/' then p else "/" + p
  }

  function TrimSlash(p: string): string {
    if p != "" && p[|p| - 1] == '/' then p[..|p| - 1] else p
  }

  /** joinIndexPath. */
  function JoinIndexPath(path: string, name: string): string {
    var p, n := Slashes(path), Slashes(name);
    if p == "" || p == "/" then
      if n == "" then "" else Rooted(n)
    else
      var dir := TrimSlash(Rooted(p));
      if n == "" then dir else dir + "/" + n
  }

  function Full(r: IndexRow): string {
    JoinIndexPath(r.path, r.name)
  }

  predicate Under(other: string, path: string) {
    path + "/" <= other
  }

  // ---- which files were opened as archives ----

  /** The first scan: some entry lies under the path. */
  predicate HasEntryUnder(rows: seq<IndexRow>, path: string) {
    exists i :: 0 <= i < |rows| && Under(Full(rows[i]), path)
  }

  /** The second scan: some other row is stored at or under the path. */
  predicate StoredUnder(r: IndexRow, path: string) {
    (r.path == path || Under(r.path, path)) && Full(r) != path
  }

  predicate HasRowStoredUnder(rows: seq<IndexRow>, path: string) {
    exists i :: 0 <= i < |rows| && StoredUnder(rows[i], path)
  }

  predicate IsContainer(rows: seq<IndexRow>, path: string) {
    HasEntryUnder(rows, path) || HasRowStoredUnder(rows, path)
  }

  // ---- the sums ----

  datatype Kind = AnyFile | TopLevel | Container | Opaque | Leaf

  predicate Is(kind: Kind, x: Index, r: IndexRow) {
    && !r.isDir
    && match kind
       case AnyFile => true
       case TopLevel => !x.hasDepth || r.depth == 0
       case Container => IsContainer(x.rows, Full(r))
       case Opaque => !IsContainer(x.rows, Full(r)) && x.looksNested(r.name)
       case Leaf => !IsContainer(x.rows, Full(r)) && !x.looksNested(r.name)
  }

  function Bytes(kind: Kind, x: Index, rows: seq<IndexRow>): int {
    if rows == [] then 0
    else
      var last := rows[|rows| - 1];
      Bytes(kind, x, rows[..|rows| - 1]) + if Is(kind, x, last) then last.size else 0
  }

  function Count(kind: Kind, x: Index, rows: seq<IndexRow>): nat {
    if rows == [] then 0
    else Count(kind, x, rows[..|rows| - 1]) + if Is(kind, x, rows[|rows| - 1]) then 1 else 0
  }

  /** analyzeIndexRows. */
  function Analyze(x: Index): Analysis {
    Analysis(Bytes(AnyFile, x, x.rows), Bytes(TopLevel, x, x.rows), Bytes(Leaf, x, x.rows),
             Count(Opaque, x, x.rows) == 0, Count(Opaque, x, x.rows), Bytes(Opaque, x, x.rows))
  }

  // ---- the program ----

  method FindUnder(all: seq<string>, path: string, ghost rows: seq<IndexRow>) returns (found: bool)
    requires |all| == |rows| && forall i :: 0 <= i < |rows| ==> all[i] == Full(rows[i])
    ensures found == HasEntryUnder(rows, path)
  {
    for i := 0 to |all|
      invariant forall j :: 0 <= j < i ==> !Under(Full(rows[j]), path)
    {
      if all[i] == path {
        continue;
      }
      if path + "/" <= all[i] {
        return true;
      }
    }
    return false;
  }

  method FindStoredUnder(rows: seq<IndexRow>, path: string) returns (found: bool)
    ensures found == HasRowStoredUnder(rows, path)
  {
    for i := 0 to |rows|
      invariant forall j :: 0 <= j < i ==> !StoredUnder(rows[j], path)
    {
      var p := rows[i].path;
      if p == path || path + "/" <= p {
        if Full(rows[i]) == path {
          continue;
        }
        return true;
      }
    }
    return false;
  }

  method Expanded(rows: seq<IndexRow>, all: seq<string>, path: string) returns (found: bool)
    requires |all| == |rows| && forall i :: 0 <= i < |rows| ==> all[i] == Full(rows[i])
    ensures found == IsContainer(rows, path)
  {
    found := FindUnder(all, path, rows);
    if !found {
      found := FindStoredUnder(rows, path);
    }
  }

  predicate IsOpened(rows: seq<IndexRow>, r: IndexRow) {
    !r.isDir && IsContainer(rows, Full(r))
  }

  /** The full paths of the first n rows that are files and were opened as archives. */
  function Containers(rows: seq<IndexRow>, n: nat): set<string>
    requires n <= |rows|
  {
    if n == 0 then {}
    else Containers(rows, n - 1) + if IsOpened(rows, rows[n - 1]) then {Full(rows[n - 1])} else {}
  }

  /** They are containers, and no opened file is missing. */
  lemma {:induction false} ContainersAre(rows: seq<IndexRow>, n: nat)
    requires n <= |rows|
    ensures forall p :: p in Containers(rows, n) ==> IsContainer(rows, p)
    ensures forall i :: 0 <= i < n && IsOpened(rows, rows[i]) ==> Full(rows[i]) in Containers(rows, n)
  {
    if n > 0 {
      ContainersAre(rows, n - 1);
    }
  }

  /** The body of the outer loop. */
  method Collect(rows: seq<IndexRow>, all: seq<string>, i: nat, expanded: set<string>) returns (more: set<string>)
    requires |all| == |rows| && forall j :: 0 <= j < |rows| ==> all[j] == Full(rows[j])
    requires i < |rows| && expanded == Containers(rows, i)
    ensures more == Containers(rows, i + 1)
  {
    more := expanded;
    if !rows[i].isDir {
      var found := Expanded(rows, all, all[i]);
      if found {
        more := more + {all[i]};
      }
    }
  }

  method FindContainers(rows: seq<IndexRow>) returns (expanded: set<string>)
    ensures expanded == Containers(rows, |rows|)
  {
    var all := seq(|rows|, i requires 0 <= i < |rows| => Full(rows[i]));
    expanded := {};
    for i := 0 to |rows|
      invariant expanded == Containers(rows, i)
    {
      expanded := Collect(rows, all, i, expanded);
    }
  }

  lemma ContainersIff(rows: seq<IndexRow>, i: nat)
    requires i < |rows| && !rows[i].isDir
    ensures Full(rows[i]) in Containers(rows, |rows|) <==> IsContainer(rows, Full(rows[i]))
  {
    ContainersAre(rows, |rows|);
    assert IsOpened(rows, rows[i]) <==> IsContainer(rows, Full(rows[i]));
  }

  lemma SumNext(kind: Kind, x: Index, i: nat)
    requires i < |x.rows|
    ensures Bytes(kind, x, x.rows[..i + 1]) ==
            Bytes(kind, x, x.rows[..i]) + if Is(kind, x, x.rows[i]) then x.rows[i].size else 0
    ensures Count(kind, x, x.rows[..i + 1]) ==
            Count(kind, x, x.rows[..i]) + if Is(kind, x, x.rows[i]) then 1 else 0
  {
    assert x.rows[..i + 1][..i] == x.rows[..i];
  }

  /** The kinds of a row, once it is known whether it was opened. */
  lemma KindsOf(x: Index, r: IndexRow, contained: bool)
    requires !r.isDir ==> (contained <==> IsContainer(x.rows, Full(r)))
    ensures Is(AnyFile, x, r) == !r.isDir && Is(TopLevel, x, r) == (!r.isDir && (!x.hasDepth || r.depth == 0))
    ensures Is(Opaque, x, r) == (!r.isDir && !contained && x.looksNested(r.name))
    ensures Is(Leaf, x, r) == (!r.isDir && !contained && !x.looksNested(r.name))
  {}

  method AnalyzeIndexRows(x: Index) returns (a: Analysis)
    ensures a == Analyze(x)
  {
    var rows := x.rows;
    var expanded := FindContainers(rows);
    var naive, shallow, deepLeaf, opaqueBytes := 0, 0, 0, 0;
    var opaqueCount: nat := 0;
    for i := 0 to |rows|
      invariant naive == Bytes(AnyFile, x, rows[..i]) && shallow == Bytes(TopLevel, x, rows[..i])
      invariant deepLeaf == Bytes(Leaf, x, rows[..i])
      invariant opaqueBytes == Bytes(Opaque, x, rows[..i]) && opaqueCount == Count(Opaque, x, rows[..i])
    {
      var r := rows[i];
      SumNext(AnyFile, x, i);
      SumNext(TopLevel, x, i);
      SumNext(Leaf, x, i);
      SumNext(Opaque, x, i);
      if !r.isDir {
        ContainersIff(rows, i);
      }
      KindsOf(x, r, Full(r) in expanded);
      if r.isDir {
        continue;
      }
      naive := naive + r.size;
      if !x.hasDepth || r.depth == 0 {
        shallow := shallow + r.size;
      }
      if Full(r) in expanded {
        continue;
      }
      if x.looksNested(r.name) {
        opaqueCount := opaqueCount + 1;
        opaqueBytes := opaqueBytes + r.size;
        continue;
      }
      deepLeaf := deepLeaf + r.size;
    }
    assert rows[..|rows|] == rows;
    a := Analysis(naive, shallow, deepLeaf, opaqueCount == 0, opaqueCount, opaqueBytes);
  }

  // ---- the second scan adds nothing ----

  /** A name that is one path element. */
  ghost predicate PlainName(name: string) {
    name != "" && '/' !in name && '\\' !in name
  }

  lemma NothingToReplace(s: string)
    requires '\\' !in s
    ensures Slashes(s) == s
  {
    assert forall i :: 0 <= i < |s| ==> Slashes(s)[i] == s[i];
  }

  /** The full path of a plainly named file starts with a slash, ends without one, and has no backslash. */
  ghost predicate CleanFull(p: string) {
    |p| >= 2 && p[0] == '/' && p[|p| - 1] != '/' && '\\' !in p
  }

  lemma FullIsClean(f: IndexRow)
    requires PlainName(f.name)
    ensures CleanFull(Full(f))
  {
    NothingToReplace(f.name);
    var p := Slashes(f.path);
    assert '\\' !in p;
    var dir := TrimSlash(Rooted(p));
    assert p != "" && p != "/" ==> Full(f) == dir + "/" + f.name;
    assert forall c :: c in dir ==> c in p || c == '/';
  }

  lemma SlashesKeepsPrefix(s: string, prefix: string)
    requires prefix <= s && '\\' !in prefix
    ensures prefix <= Slashes(s)
  {
    forall i | 0 <= i < |prefix| ensures Slashes(s)[i] == prefix[i] {}
  }

  lemma JoinAt(path: string, name: string)
    requires CleanFull(path)
    ensures JoinIndexPath(path, name) == if name == "" then path else path + "/" + Slashes(name)
    ensures JoinIndexPath(path + "/", name) == if name == "" then path else path + "/" + Slashes(name)
  {
    NothingToReplace(path);
    NothingToReplace(path + "/");
    assert TrimSlash(path + "/") == path && TrimSlash(path) == path;
    assert name == "" <==> Slashes(name) == "";
  }

  lemma JoinBelow(stored: string, name: string, path: string)
    requires CleanFull(path) && path + "/" < stored
    ensures Under(JoinIndexPath(stored, name), path)
  {
    var p := Slashes(stored);
    SlashesKeepsPrefix(stored, path + "/");
    assert |p| > |path| + 1 && p[0] == path[0] == '/';
    var dir := TrimSlash(p);
    assert path + "/" <= dir;
    var n := Slashes(name);
    assert JoinIndexPath(stored, name) == if n == "" then dir else dir + "/" + n;
  }

  /** A row stored at or under a clean path lies under it. */
  lemma StoredUnderIsUnder(r: IndexRow, path: string)
    requires CleanFull(path) && StoredUnder(r, path)
    ensures Under(Full(r), path)
  {
    JoinAt(path, r.name);
    if r.path != path && r.path != path + "/" {
      JoinBelow(r.path, r.name, path);
    }
  }

  /** For a plainly named file, being a container means that some row lies strictly under it. */
  lemma ContainerIff(x: Index, f: IndexRow)
    requires PlainName(f.name)
    ensures IsContainer(x.rows, Full(f)) <==> exists r :: r in x.rows && Under(Full(r), Full(f))
  {
    FullIsClean(f);
    if HasRowStoredUnder(x.rows, Full(f)) {
      var i :| 0 <= i < |x.rows| && StoredUnder(x.rows[i], Full(f));
      StoredUnderIsUnder(x.rows[i], Full(f));
    }
    if r :| r in x.rows && Under(Full(r), Full(f)) {
      var i :| 0 <= i < |x.rows| && x.rows[i] == r;
    }
  }

  /** The files counted as deep leaves form an antichain: none lies under another. */
  lemma LeavesAreAntichain(x: Index, f: IndexRow, g: IndexRow)
    requires f in x.rows && g in x.rows && Is(Leaf, x, f) && Is(Leaf, x, g)
    ensures !Under(Full(g), Full(f))
  {
    var i :| 0 <= i < |x.rows| && x.rows[i] == g;
  }

  // ---- the sums fit together ----

  lemma {:induction false} Partition(x: Index, rows: seq<IndexRow>)
    ensures Bytes(AnyFile, x, rows) == Bytes(Leaf, x, rows) + Bytes(Opaque, x, rows) + Bytes(Container, x, rows)
    ensures Count(AnyFile, x, rows) == Count(Leaf, x, rows) + Count(Opaque, x, rows) + Count(Container, x, rows)
  {
    if rows != [] {
      Partition(x, rows[..|rows| - 1]);
    }
  }

  /** Every byte of every file is counted once: as a deep leaf, in an opaque archive, or in a container.
      The deep size is complete if and only if every file with an archive's name was opened. */
  lemma SizesAddUp(x: Index)
    ensures var a := Analyze(x);
            && a.naive == a.deepLeaf + a.opaqueBytes + Bytes(Container, x, x.rows)
            && (a.deepComplete <==>
                  forall f :: f in x.rows && !f.isDir && x.looksNested(f.name) ==> IsContainer(x.rows, Full(f)))
  {
    Partition(x, x.rows);
    NoneIff(Opaque, x, x.rows);
  }

  lemma {:induction false} NoneIff(kind: Kind, x: Index, rows: seq<IndexRow>)
    ensures Count(kind, x, rows) == 0 <==> forall r :: r in rows ==> !Is(kind, x, r)
  {
    if rows != [] {
      NoneIff(kind, x, rows[..|rows| - 1]);
      assert rows == rows[..|rows| - 1] + [rows[|rows| - 1]];
    }
  }

  // ---- the order of the rows does not matter ----

  lemma {:induction false} SumsConcat(kind: Kind, x: Index, a: seq<IndexRow>, b: seq<IndexRow>)
    ensures Bytes(kind, x, a + b) == Bytes(kind, x, a) + Bytes(kind, x, b)
    ensures Count(kind, x, a + b) == Count(kind, x, a) + Count(kind, x, b)
  {
    if b == [] {
      assert a + b == a;
    } else {
      assert (a + b)[..|a + b| - 1] == a + b[..|b| - 1];
      SumsConcat(kind, x, a, b[..|b| - 1]);
    }
  }

  /** Taking one row out takes its share out. */
  lemma SumsWithout(kind: Kind, x: Index, before: seq<IndexRow>, r: IndexRow, after: seq<IndexRow>)
    ensures Bytes(kind, x, before + [r] + after) == Bytes(kind, x, before + after) + if Is(kind, x, r) then r.size else 0
    ensures Count(kind, x, before + [r] + after) == Count(kind, x, before + after) + if Is(kind, x, r) then 1 else 0
  {
    SumsConcat(kind, x, before + [r], after);
    SumsConcat(kind, x, before, [r]);
    SumsConcat(kind, x, before, after);
    assert [r][..0] == [];
  }

  lemma {:induction false} SumsPermute(kind: Kind, x: Index, a: seq<IndexRow>, b: seq<IndexRow>)
    requires multiset(a) == multiset(b)
    ensures Bytes(kind, x, a) == Bytes(kind, x, b) && Count(kind, x, a) == Count(kind, x, b)
    decreases |a|
  {
    if a == [] {
      assert |b| == |multiset(b)| == |multiset(a)| == 0;
    } else {
      var before, after := TakeOut(a, b);
      SumsWithout(kind, x, before, a[0], after);
      SumsWithout(kind, x, [], a[0], a[1..]);
      assert a == [] + [a[0]] + a[1..] && [] + a[1..] == a[1..];
      SumsPermute(kind, x, a[1..], before + after);
    }
  }

  lemma SameMembers(a: seq<IndexRow>, b: seq<IndexRow>, path: string)
    requires multiset(a) == multiset(b) && IsContainer(a, path)
    ensures IsContainer(b, path)
  {
    if HasEntryUnder(a, path) {
      var i :| 0 <= i < |a| && Under(Full(a[i]), path);
      assert a[i] in multiset(b);
      var j :| 0 <= j < |b| && b[j] == a[i];
    } else {
      var i :| 0 <= i < |a| && StoredUnder(a[i], path);
      assert a[i] in multiset(b);
      var j :| 0 <= j < |b| && b[j] == a[i];
    }
  }

  lemma {:induction false} SumsOfSameMembers(kind: Kind, x: Index, y: Index, rows: seq<IndexRow>)
    requires x.hasDepth == y.hasDepth && x.looksNested == y.looksNested
    requires forall p :: IsContainer(x.rows, p) <==> IsContainer(y.rows, p)
    ensures Bytes(kind, x, rows) == Bytes(kind, y, rows) && Count(kind, x, rows) == Count(kind, y, rows)
  {
    if rows != [] {
      SumsOfSameMembers(kind, x, y, rows[..|rows| - 1]);
      var r := rows[|rows| - 1];
      assert IsContainer(x.rows, Full(r)) <==> IsContainer(y.rows, Full(r));
    }
  }

  /** Any order of the rows gives the same analysis. */
  lemma OrderDoesNotMatter(x: Index, y: Index)
    requires multiset(x.rows) == multiset(y.rows) && x.hasDepth == y.hasDepth && x.looksNested == y.looksNested
    ensures Analyze(x) == Analyze(y)
  {
    forall p ensures IsContainer(x.rows, p) <==> IsContainer(y.rows, p) {
      if IsContainer(x.rows, p) {
        SameMembers(x.rows, y.rows, p);
      }
      if IsContainer(y.rows, p) {
        SameMembers(y.rows, x.rows, p);
      }
    }
    forall kind: Kind
      ensures Bytes(kind, x, x.rows) == Bytes(kind, y, y.rows) && Count(kind, x, x.rows) == Count(kind, y, y.rows)
    {
      SumsOfSameMembers(kind, x, y, x.rows);
      SumsPermute(kind, y, x.rows, y.rows);
    }
  }

  // ---- the size that is reported ----

  /** Primary: the deep size when it is complete, or else the shallow one. */
  function Primary(a: Analysis): int {
    if a.deepComplete then a.deepLeaf else a.shallow
  }

  lemma {:induction false} NotNegative(kind: Kind, x: Index, rows: seq<IndexRow>)
    requires forall r :: r in rows ==> r.size >= 0
    ensures 0 <= Bytes(kind, x, rows) <= Bytes(AnyFile, x, rows)
  {
    if rows != [] {
      NotNegative(kind, x, rows[..|rows| - 1]);
    }
  }

  /** The reported size never counts more than the naive sum; a complete deep size leaves out exactly the
      bytes of the opened archives. */
  lemma PrimaryIsHonest(x: Index)
    requires forall r :: r in x.rows ==> r.size >= 0
    ensures var a := Analyze(x);
            && 0 <= Primary(a) <= a.naive
            && (a.deepComplete ==> Primary(a) == a.naive - Bytes(Container, x, x.rows))
  {
    NotNegative(TopLevel, x, x.rows);
    NotNegative(Leaf, x, x.rows);
    Partition(x, x.rows);
    NoOpaqueBytes(x, x.rows);
  }

  lemma {:induction false} NoOpaqueBytes(x: Index, rows: seq<IndexRow>)
    ensures Count(Opaque, x, rows) == 0 ==> Bytes(Opaque, x, rows) == 0
  {
    if rows != [] {
      NoOpaqueBytes(x, rows[..|rows| - 1]);
    }
  }
}
