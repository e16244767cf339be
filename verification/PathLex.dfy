/** Lexical path operations of path/filepath on Unix: Clean, Join and Base. */
module PathLex {
  import opened Strings

  predicate NoSlash(s: string) {
    '/' !in s
  }

  /** A path element that Clean keeps as it is. */
  predicate IsElement(s: string) {
    s != "" && s != "." && s != ".." && NoSlash(s)
  }

  function JoinSlash(parts: seq<string>): string {
    if |parts| == 0 then ""
    else if |parts| == 1 then parts[0]
    else parts[0] + "/" + JoinSlash(parts[1..])
  }

  /** One step of the resolution of ".", ".." and empty elements. */
  function Push(acc: seq<string>, part: string, rooted: bool): seq<string> {
    if part == "" || part == "." then acc
    else if part == ".." then
      if acc != [] && acc[|acc| - 1] != ".." then acc[..|acc| - 1]
      else if rooted then acc
      else acc + [".."]
    else acc + [part]
  }

  function Resolve(acc: seq<string>, parts: seq<string>, rooted: bool): seq<string>
    decreases |parts|
  {
    if parts == [] then acc else Resolve(Push(acc, parts[0], rooted), parts[1..], rooted)
  }

  function Render(parts: seq<string>, rooted: bool): string {
    if rooted then "/" + JoinSlash(parts) else if parts == [] then "." else JoinSlash(parts)
  }

  predicate Rooted(path: string) {
    path != "" && path[0] == '/'
  }

  /** filepath.Clean. */
  function Clean(path: string): string {
    if path == "" then "." else Render(Resolve([], Split(path, '/'), Rooted(path)), Rooted(path))
  }

  function DropTrailingSlashes(s: string): (r: string)
    ensures r <= s
    ensures r != "" ==> r[|r| - 1] != '/'
  {
    if s != "" && s[|s| - 1] == '/' then DropTrailingSlashes(s[..|s| - 1]) else s
  }

  function AfterLastSlash(s: string): (r: string)
    ensures NoSlash(r)
  {
    if s == "" then "" else if s[|s| - 1] == '/' then "" else AfterLastSlash(s[..|s| - 1]) + [s[|s| - 1]]
  }

  /** filepath.Base. */
  function Base(path: string): string {
    if path == "" then "."
    else
      var p := DropTrailingSlashes(path);
      if p == "" then "/" else AfterLastSlash(p)
  }

  /** filepath.Join of a directory and a name. */
  function Join(dir: string, name: string): string {
    if dir == "" && name == "" then ""
    else if dir == "" then Clean(name)
    else if name == "" then Clean(dir)
    else Clean(dir + "/" + name)
  }

  // ---- splitting and joining ----

  lemma {:induction false} SplitJoinSlash(parts: seq<string>)
    requires |parts| > 0 && forall i :: 0 <= i < |parts| ==> NoSlash(parts[i])
    ensures Split(JoinSlash(parts), '/') == parts
  {
    SplitWhole(parts[0], '/');
    if |parts| > 1 {
      SplitJoinSlash(parts[1..]);
      SplitConcat(parts[0], JoinSlash(parts[1..]), '/');
    }
  }

  lemma {:induction false} ResolveConcat(acc: seq<string>, a: seq<string>, b: seq<string>, rooted: bool)
    ensures Resolve(acc, a + b, rooted) == Resolve(Resolve(acc, a, rooted), b, rooted)
    decreases |a|
  {
    if a == [] {
      assert a + b == b;
    } else {
      assert (a + b)[1..] == a[1..] + b;
      ResolveConcat(Push(acc, a[0], rooted), a[1..], b, rooted);
    }
  }

  /** What Resolve leaves: real elements, and ".." only in front of a relative path. */
  predicate Resolved(parts: seq<string>, rooted: bool) {
    && (forall i :: 0 <= i < |parts| ==> IsElement(parts[i]) || (parts[i] == ".." && !rooted))
    && (forall i, j :: 0 <= i < j < |parts| && parts[j] == ".." ==> parts[i] == "..")
  }

  lemma {:induction false} ResolveIsResolved(acc: seq<string>, parts: seq<string>, rooted: bool)
    requires Resolved(acc, rooted) && forall i :: 0 <= i < |parts| ==> NoSlash(parts[i])
    ensures Resolved(Resolve(acc, parts, rooted), rooted)
    decreases |parts|
  {
    if parts != [] {
      ResolveIsResolved(Push(acc, parts[0], rooted), parts[1..], rooted);
    }
  }

  lemma {:induction false} ResolveKeepsResolved(acc: seq<string>, parts: seq<string>, rooted: bool)
    requires Resolved(acc + parts, rooted)
    ensures Resolve(acc, parts, rooted) == acc + parts
    decreases |parts|
  {
    if parts != [] {
      assert (acc + parts)[|acc|] == parts[0];
      assert acc != [] ==> (acc + parts)[|acc| - 1] == acc[|acc| - 1];
      assert Push(acc, parts[0], rooted) == acc + [parts[0]];
      assert acc + [parts[0]] + parts[1..] == acc + parts;
      ResolveKeepsResolved(acc + [parts[0]], parts[1..], rooted);
    }
  }

  lemma {:induction false} JoinSlashStart(parts: seq<string>)
    requires |parts| > 0 && parts[0] != "" && parts[0][0] != '/'
    ensures JoinSlash(parts) != "" && JoinSlash(parts)[0] != '/'
  {}

  lemma CleanOfNothing()
    ensures Clean("/") == "/" && Clean(".") == "."
  {
    SplitWhole(".", '/');
    SplitWhole("", '/');
    SplitConcat("", "", '/');
    assert "" + "/" + "" == "/";
    assert Split("/", '/') == ["", ""] && ["", ""][1..] == [""];
    assert Resolve([], ["", ""], true) == Resolve([], [""], true) == [];
    assert Resolve([], ["."], false) == Resolve([], [], false);
  }

  lemma CleanOfRendered(parts: seq<string>, rooted: bool)
    requires Resolved(parts, rooted)
    ensures Clean(Render(parts, rooted)) == Render(parts, rooted)
  {
    if parts == [] {
      CleanOfNothing();
      assert rooted ==> Render(parts, rooted) == "/";
    } else {
      var path := Render(parts, rooted);
      JoinSlashStart(parts);
      SplitJoinSlash(parts);
      ResolveKeepsResolved([], parts, rooted);
      assert [] + parts == parts;
      if rooted {
        assert path[1..] == JoinSlash(parts);
        assert Split(path, '/') == [""] + parts;
        assert ([""] + parts)[1..] == parts;
        assert Resolve([], [""] + parts, rooted) == Resolve([], parts, rooted);
      }
    }
  }

  /** Cleaning twice is cleaning once. */
  lemma CleanIdempotent(path: string)
    ensures Clean(Clean(path)) == Clean(path)
  {
    if path == "" {
      CleanOfRendered([], false);
    } else {
      SplitParts(path, '/');
      ResolveIsResolved([], Split(path, '/'), Rooted(path));
      CleanOfRendered(Resolve([], Split(path, '/'), Rooted(path)), Rooted(path));
    }
  }

  // ---- the base of a joined name ----

  lemma {:induction false} AfterLastSlashOf(head: string, name: string)
    requires NoSlash(name) && (head == "" || head[|head| - 1] == '/')
    ensures AfterLastSlash(head + name) == name
  {
    if name != "" {
      var s := head + name;
      assert s[..|s| - 1] == head + name[..|name| - 1];
      AfterLastSlashOf(head, name[..|name| - 1]);
      assert name[..|name| - 1] + [name[|name| - 1]] == name;
    } else {
      assert head + name == head;
    }
  }

  lemma {:induction false} JoinSlashEnd(parts: seq<string>, name: string) returns (head: string)
    ensures JoinSlash(parts + [name]) == head + name
    ensures head == "" || head[|head| - 1] == '/'
    decreases |parts|
  {
    if parts == [] {
      head := "";
      assert [] + [name] == [name];
    } else {
      var rest := JoinSlashEnd(parts[1..], name);
      head := parts[0] + "/" + rest;
      assert (parts + [name])[1..] == parts[1..] + [name];
    }
  }

  lemma JoinedParts(dir: string, name: string) returns (front: seq<string>)
    requires IsElement(name)
    ensures Split(if dir == "" then name else dir + "/" + name, '/') == front + [name]
  {
    SplitWhole(name, '/');
    front := if dir == "" then [] else Split(dir, '/');
    if dir != "" {
      SplitConcat(dir, name, '/');
    }
  }

  lemma RenderedEnd(parts: seq<string>, name: string, rooted: bool) returns (full: string)
    ensures Render(parts + [name], rooted) == full + name
    ensures full == "" || full[|full| - 1] == '/'
  {
    var head := JoinSlashEnd(parts, name);
    full := if rooted then "/" + head else head;
  }

  lemma BaseOfEnd(full: string, name: string)
    requires IsElement(name) && (full == "" || full[|full| - 1] == '/')
    ensures Base(full + name) == name
  {
    AfterLastSlashOf(full, name);
    assert (full + name)[|full + name| - 1] == name[|name| - 1];
  }

  /** The base of a joined path is the joined name, and the joined path is clean. */
  lemma BaseOfJoin(dir: string, name: string)
    requires IsElement(name)
    ensures Base(Join(dir, name)) == name
    ensures Clean(Join(dir, name)) == Join(dir, name)
    ensures Join(dir, name) != "" && HasSuffix(Join(dir, name), name)
  {
    var path := if dir == "" then name else dir + "/" + name;
    var front := JoinedParts(dir, name);
    var rooted := Rooted(path);
    ResolveConcat([], front, [name], rooted);
    var resolved := Resolve([], front, rooted);
    var full := RenderedEnd(resolved, name, rooted);
    assert Resolve([], front + [name], rooted) == resolved + [name];
    BaseOfEnd(full, name);
    ConcatHasSuffix(full, name);
    CleanIdempotent(path);
  }
}
