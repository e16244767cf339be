/** The command line of a ratarmount child, and how its mount path is read back from the process table
    (internal/mounter/cmd.go, internal/mounter/orphans_unix.go). */
module RatarmountArgv {
  import opened Decimal
  import opened Options
  import opened PathLex
  import opened Strings

  /** A MountRequest. */
  datatype Request = Request(
    archiveId: string, archivePath: string, indexPath: string, overlayPath: string, mountPath: string,
    allowOther: bool, indexWorkers: nat, recursive: bool, extensions: seq<string>, extraArgs: seq<string>,
    bin: string, debug: int, logDir: string, indexOnly: bool)

  // ---- filtering the configured extra arguments ----

  const RECURSIVE_EXTENSIONS := "--recursive-extensions"

  predicate IsRecursiveFlag(arg: string) {
    arg == "--recursive" || arg == "-r" || RECURSIVE_EXTENSIONS + "=" <= arg
  }

  /** filterRecursiveFromExtras: the flags go, and the flag that takes a value goes with its value. */
  function FilterRecursive(extras: seq<string>): seq<string> {
    if extras == [] then []
    else if extras[0] == RECURSIVE_EXTENSIONS then
      if |extras| == 1 then [] else FilterRecursive(extras[2..])
    else if IsRecursiveFlag(extras[0]) then FilterRecursive(extras[1..])
    else [extras[0]] + FilterRecursive(extras[1..])
  }

  predicate IsModeFlag(arg: string) {
    arg == "--no-mount" || arg == "--mount"
  }

  /** filterMountModeFromExtras. */
  function FilterMode(extras: seq<string>): seq<string> {
    if extras == [] then []
    else if IsModeFlag(extras[0]) then FilterMode(extras[1..])
    else [extras[0]] + FilterMode(extras[1..])
  }

  /** The arguments that the loop still has to look at. */
  function Rest(extras: seq<string>, i: nat, skipNext: bool): seq<string>
    requires i <= |extras|
  {
    if skipNext then if i == |extras| then [] else extras[i + 1..] else extras[i..]
  }

  lemma FilterRecursiveNext(extras: seq<string>, i: nat)
    requires i < |extras|
    ensures FilterRecursive(extras[i..]) ==
            if extras[i] == RECURSIVE_EXTENSIONS then FilterRecursive(Rest(extras, i + 1, true))
            else (if IsRecursiveFlag(extras[i]) then [] else [extras[i]]) + FilterRecursive(extras[i + 1..])
  {
    assert extras[i..][1..] == extras[i + 1..];
    if i + 1 < |extras| {
      assert extras[i..][2..] == extras[i + 2..];
    }
  }

  method FilterRecursiveFromExtras(extras: seq<string>) returns (out: seq<string>)
    ensures out == FilterRecursive(extras)
  {
    out := [];
    var skipNext := false;
    for i := 0 to |extras|
      invariant FilterRecursive(extras) == out + FilterRecursive(Rest(extras, i, skipNext))
    {
      if skipNext {
        skipNext := false;
        continue;
      }
      FilterRecursiveNext(extras, i);
      if extras[i] == "--recursive" || extras[i] == "-r" {
        continue;
      }
      if extras[i] == RECURSIVE_EXTENSIONS {
        skipNext := true;
        continue;
      }
      if RECURSIVE_EXTENSIONS + "=" <= extras[i] {
        continue;
      }
      out := out + [extras[i]];
    }
  }

  method FilterMountModeFromExtras(extras: seq<string>) returns (out: seq<string>)
    ensures out == FilterMode(extras)
  {
    out := [];
    for i := 0 to |extras|
      invariant FilterMode(extras) == out + FilterMode(extras[i..])
    {
      assert extras[i..][1..] == extras[i + 1..];
      if !IsModeFlag(extras[i]) {
        out := out + [extras[i]];
      }
    }
  }

  /** An argument that asks for recursion, the one that takes a value included. */
  predicate AsksRecursion(arg: string) {
    arg in ["--recursive", "-r", "--recursive-extensions"] || "--recursive-extensions=" <= arg
  }

  /** No argument that asks for recursion is left, and arguments without any are all left. */
  lemma {:induction false} RecursionIsGone(extras: seq<string>)
    ensures forall a :: a in FilterRecursive(extras) ==> !AsksRecursion(a)
    ensures (forall a :: a in extras ==> !AsksRecursion(a)) ==> FilterRecursive(extras) == extras
    decreases |extras|
  {
    if extras != [] {
      RecursionIsGone(extras[1..]);
      if |extras| > 1 {
        RecursionIsGone(extras[2..]);
      }
      assert RECURSIVE_EXTENSIONS + "=" == "--recursive-extensions=";
      if forall a :: a in extras ==> !AsksRecursion(a) {
        assert extras[0] in extras;
        forall a | a in extras[1..] ensures !AsksRecursion(a) {
          assert a in extras;
        }
        assert extras == [extras[0]] + extras[1..];
      }
    }
  }

  /** The same for the two arguments that choose the mode. */
  lemma {:induction false} ModeIsGone(extras: seq<string>)
    ensures forall a :: a in FilterMode(extras) ==> a != "--no-mount" && a != "--mount"
    ensures (forall a :: a in extras ==> a != "--no-mount" && a != "--mount") ==> FilterMode(extras) == extras
    decreases |extras|
  {
    if extras != [] {
      ModeIsGone(extras[1..]);
      if forall a :: a in extras ==> a != "--no-mount" && a != "--mount" {
        assert extras[0] in extras;
        forall a | a in extras[1..] ensures a != "--no-mount" && a != "--mount" {
          assert a in extras;
        }
        assert extras == [extras[0]] + extras[1..];
      }
    }
  }

  /** Positions of a subsequence: which arguments were kept. */
  ghost predicate Kept(whole: seq<string>, part: seq<string>, at: seq<nat>) {
    && |at| == |part|
    && (forall i :: 0 <= i < |at| ==> at[i] < |whole| && whole[at[i]] == part[i])
    && (forall i, j :: 0 <= i < j < |at| ==> at[i] < at[j])
  }

  lemma KeptShift(whole: seq<string>, part: seq<string>, at: seq<nat>, d: nat) returns (shifted: seq<nat>)
    requires d <= |whole| && Kept(whole[d..], part, at)
    ensures Kept(whole, part, shifted) && forall i :: 0 <= i < |shifted| ==> d <= shifted[i]
  {
    shifted := seq(|at|, i requires 0 <= i < |at| => at[i] + d);
  }

  lemma KeptFirst(whole: seq<string>, part: seq<string>, at: seq<nat>) returns (all: seq<nat>)
    requires |whole| > 0 && Kept(whole[1..], part, at)
    ensures Kept(whole, [whole[0]] + part, all)
  {
    var shifted := KeptShift(whole, part, at, 1);
    all := [0] + shifted;
  }

  /** The recursion filter keeps the order, keeps no recursion flag, and does nothing more when it is
      applied again. */
  lemma {:induction false} FilterRecursiveResult(extras: seq<string>) returns (at: seq<nat>)
    ensures Kept(extras, FilterRecursive(extras), at)
    ensures forall a :: a in FilterRecursive(extras) ==> a != RECURSIVE_EXTENSIONS && !IsRecursiveFlag(a)
    ensures FilterRecursive(FilterRecursive(extras)) == FilterRecursive(extras)
    decreases |extras|
  {
    at := [];
    if extras != [] {
      if extras[0] == RECURSIVE_EXTENSIONS {
        if |extras| > 1 {
          var rest := FilterRecursiveResult(extras[2..]);
          at := KeptShift(extras, FilterRecursive(extras[2..]), rest, 2);
        }
      } else {
        var rest := FilterRecursiveResult(extras[1..]);
        if IsRecursiveFlag(extras[0]) {
          at := KeptShift(extras, FilterRecursive(extras[1..]), rest, 1);
        } else {
          at := KeptFirst(extras, FilterRecursive(extras[1..]), rest);
          assert ([extras[0]] + FilterRecursive(extras[1..]))[1..] == FilterRecursive(extras[1..]);
        }
      }
    }
  }

  lemma {:induction false} FilterModeKeeps(extras: seq<string>) returns (at: seq<nat>)
    ensures Kept(extras, FilterMode(extras), at)
    ensures FilterMode(FilterMode(extras)) == FilterMode(extras)
    decreases |extras|
  {
    at := [];
    if extras != [] {
      var rest := FilterModeKeeps(extras[1..]);
      if IsModeFlag(extras[0]) {
        at := KeptShift(extras, FilterMode(extras[1..]), rest, 1);
      } else {
        at := KeptFirst(extras, FilterMode(extras[1..]), rest);
        assert ([extras[0]] + FilterMode(extras[1..]))[1..] == FilterMode(extras[1..]);
      }
    }
  }

  lemma {:induction false} FilterModeCounts(extras: seq<string>)
    ensures forall a :: multiset(FilterMode(extras))[a] == if IsModeFlag(a) then 0 else multiset(extras)[a]
  {
    if extras != [] {
      FilterModeCounts(extras[1..]);
      assert extras == [extras[0]] + extras[1..];
    }
  }

  /** The mode filter keeps the order and every argument that is not a mode flag, as often as it came. */
  lemma FilterModeResult(extras: seq<string>) returns (at: seq<nat>)
    ensures Kept(extras, FilterMode(extras), at)
    ensures forall a :: multiset(FilterMode(extras))[a] == if IsModeFlag(a) then 0 else multiset(extras)[a]
    ensures FilterMode(FilterMode(extras)) == FilterMode(extras)
  {
    at := FilterModeKeeps(extras);
    FilterModeCounts(extras);
  }

  // ---- building the command line ----

  function DebugArgs(req: Request): seq<string> {
    if req.debug > 0 then ["-d", Itoa(if req.debug > 3 then 3 else req.debug)] else []
  }

  function LogArgs(req: Request): seq<string> {
    if TrimSpace(req.logDir) != ""
    then ["--log-file", Join(TrimSpace(req.logDir), req.archiveId + ".ratarmount.log")] else []
  }

  function FlagArgs(req: Request): seq<string> {
    (if req.recursive then ["--recursive"] else [])
    + (if req.overlayPath != "" then ["--write-overlay", req.overlayPath] else [])
    + (if req.allowOther then ["-o", "allow_other"] else [])
  }

  function FirstArgs(req: Request): seq<string> {
    ["-f", "--index-file", req.indexPath, "-P", Itoa(req.indexWorkers)]
  }

  function Extras(req: Request): seq<string> {
    FilterMode(if req.recursive then FilterRecursive(req.extraArgs) else req.extraArgs)
  }

  function PhaseArgs(req: Request): seq<string> {
    (if req.recursive && |req.extensions| > 0
     then [RECURSIVE_EXTENSIONS, JoinWith(req.extensions, ",")] else [])
    + (if req.indexOnly then ["--no-mount"] else [])
  }

  /** The argument vector of a request. */
  function Argv(req: Request): seq<string> {
    [req.bin] + (FirstArgs(req) + DebugArgs(req) + LogArgs(req) + FlagArgs(req) + Extras(req) + PhaseArgs(req))
    + [req.archivePath, req.mountPath]
  }

  /** The level is given when there is one, and never beyond three. */
  lemma DebugArgsAre(req: Request)
    ensures req.debug <= 0 ==> DebugArgs(req) == []
    ensures req.debug in {1, 2, 3} ==> DebugArgs(req) == ["-d", Itoa(req.debug)]
    ensures req.debug > 3 ==> DebugArgs(req) == ["-d", Itoa(3)]
  {}

  /** The flags of the request, each exactly when it is asked for. */
  lemma FlagArgsAre(req: Request)
    ensures var overlay := ["--write-overlay", req.overlayPath];
            FlagArgs(req) ==
            match (req.recursive, req.overlayPath == "", req.allowOther)
            case (false, true, false) => []
            case (false, true, true) => ["-o", "allow_other"]
            case (false, false, false) => overlay
            case (false, false, true) => overlay + ["-o", "allow_other"]
            case (true, true, false) => ["--recursive"]
            case (true, true, true) => ["--recursive", "-o", "allow_other"]
            case (true, false, false) => ["--recursive"] + overlay
            case (true, false, true) => ["--recursive"] + overlay + ["-o", "allow_other"]
  {}

  /** The extensions are given for a recursive request that has some, and the mode in the index phase. */
  lemma PhaseArgsAre(req: Request)
    ensures var some := req.recursive && req.extensions != [];
            var extensions := ["--recursive-extensions", JoinWith(req.extensions, ",")];
            && (some && req.indexOnly ==> PhaseArgs(req) == extensions + ["--no-mount"])
            && (some && !req.indexOnly ==> PhaseArgs(req) == extensions)
            && (!some && req.indexOnly ==> PhaseArgs(req) == ["--no-mount"])
            && (!some && !req.indexOnly ==> PhaseArgs(req) == [])
  {}

  method BuildDebug(req: Request) returns (args: seq<string>)
    ensures args == DebugArgs(req)
  {
    args := [];
    if req.debug > 0 {
      var d := req.debug;
      if d > 3 {
        d := 3;
      }
      args := args + ["-d", Itoa(d)];
    }
  }

  method BuildFlags(req: Request) returns (args: seq<string>)
    ensures args == FlagArgs(req)
  {
    args := [];
    if req.recursive {
      args := args + ["--recursive"];
    }
    if req.overlayPath != "" {
      args := args + ["--write-overlay", req.overlayPath];
    }
    if req.allowOther {
      args := args + ["-o", "allow_other"];
    }
  }

  method BuildExtras(req: Request) returns (extras: seq<string>)
    ensures extras == Extras(req)
  {
    extras := req.extraArgs;
    if req.recursive {
      extras := FilterRecursiveFromExtras(extras);
    }
    extras := FilterMountModeFromExtras(extras);
  }

  method BuildPhase(req: Request) returns (args: seq<string>)
    ensures args == PhaseArgs(req)
  {
    args := [];
    if req.recursive && |req.extensions| > 0 {
      args := args + [RECURSIVE_EXTENSIONS, JoinWith(req.extensions, ",")];
    }
    if req.indexOnly {
      args := args + ["--no-mount"];
    }
  }

  /** BuildRatarmountCmd, appending piece by piece. */
  method BuildRatarmountCmd(req: Request) returns (cmd: seq<string>)
    ensures cmd == Argv(req)
  {
    cmd := [req.bin, "-f", "--index-file", req.indexPath, "-P", Itoa(req.indexWorkers)];
    ghost var middle := FirstArgs(req);
    assert cmd == [req.bin] + middle;
    var debug := BuildDebug(req);
    cmd, middle := Append(req.bin, cmd, middle, debug);
    cmd, middle := Append(req.bin, cmd, middle, LogArgs(req));
    var flags := BuildFlags(req);
    cmd, middle := Append(req.bin, cmd, middle, flags);
    var extras := BuildExtras(req);
    cmd, middle := Append(req.bin, cmd, middle, extras);
    var phase := BuildPhase(req);
    cmd, middle := Append(req.bin, cmd, middle, phase);
    cmd := cmd + [req.archivePath, req.mountPath];
  }

  /** Appending to the command appends to what follows the binary. */
  method Append(bin: string, cmd: seq<string>, ghost middle: seq<string>, args: seq<string>)
    returns (cmd': seq<string>, ghost middle': seq<string>)
    requires cmd == [bin] + middle
    ensures cmd' == cmd + args && middle' == middle + args && cmd' == [bin] + middle'
  {
    cmd' := cmd + args;
    middle' := middle + args;
  }

  /** The arguments that are values: positionals, and what follows a flag that takes one. */
  function Values(req: Request): seq<string> {
    [req.bin, req.indexPath, req.archivePath, req.mountPath]
    + (if TrimSpace(req.logDir) != "" then LogArgs(req)[1..] else [])
    + (if req.overlayPath != "" then [req.overlayPath] else [])
    + (if req.recursive && |req.extensions| > 0 then [JoinWith(req.extensions, ",")] else [])
  }

  const NO_MOUNT := "--no-mount"

  lemma ExtrasHaveNoMode(req: Request)
    ensures forall a :: IsModeFlag(a) ==> a !in Extras(req)
  {
    var at := FilterModeResult(if req.recursive then FilterRecursive(req.extraArgs) else req.extraArgs);
    forall a | IsModeFlag(a) ensures a !in Extras(req) {
      assert multiset(Extras(req))[a] == 0;
    }
  }

  lemma NumeralIsNoFlag(n: nat)
    ensures Itoa(n) != NO_MOUNT
  {
    assert NO_MOUNT[0] == '-' && !IsDigit('-');
    assert IsDigit(Itoa(n)[0]);
  }

  lemma FirstArgsMode(req: Request)
    ensures NO_MOUNT in FirstArgs(req) <==> req.indexPath == NO_MOUNT
  {
    NumeralIsNoFlag(req.indexWorkers);
  }

  lemma DebugArgsMode(req: Request)
    ensures NO_MOUNT !in DebugArgs(req)
  {
    if req.debug > 0 {
      NumeralIsNoFlag(if req.debug > 3 then 3 else req.debug);
    }
  }

  lemma LogFileIsNoMode()
    ensures "--log-file" != NO_MOUNT
  {
    assert "--log-file"[2] == 'l' && NO_MOUNT[2] == 'n';
  }

  lemma InTail(args: seq<string>, x: string)
    requires args != [] && args[0] != x
    ensures x in args <==> x in args[1..]
  {}

  lemma LogArgsMode(req: Request)
    ensures NO_MOUNT in LogArgs(req) <==> TrimSpace(req.logDir) != "" && NO_MOUNT in LogArgs(req)[1..]
  {
    LogFileIsNoMode();
    if TrimSpace(req.logDir) != "" {
      InTail(LogArgs(req), NO_MOUNT);
    }
  }

  lemma FlagArgsMode(req: Request)
    ensures NO_MOUNT in FlagArgs(req) <==> req.overlayPath != "" && req.overlayPath == NO_MOUNT
  {}

  lemma PhaseArgsMode(req: Request)
    ensures NO_MOUNT in PhaseArgs(req) <==>
              req.indexOnly || (req.recursive && |req.extensions| > 0 && JoinWith(req.extensions, ",") == NO_MOUNT)
  {}

  /** Whatever the configured extras say, the whole command has --no-mount exactly in the index phase, or
      when one of its values happens to be that text. */
  lemma ModeIsThePhase(req: Request)
    ensures NO_MOUNT in Argv(req) <==> req.indexOnly || NO_MOUNT in Values(req)
    ensures forall a :: IsModeFlag(a) ==> a !in Extras(req)
  {
    ExtrasHaveNoMode(req);
    assert IsModeFlag(NO_MOUNT);
    FirstArgsMode(req);
    DebugArgsMode(req);
    LogArgsMode(req);
    FlagArgsMode(req);
    PhaseArgsMode(req);
    MiddleMode(req, NO_MOUNT);
    ValuesMode(req, NO_MOUNT);
  }

  lemma MiddleMode(req: Request, x: string)
    ensures x in Argv(req) <==>
              || x == req.bin || x in FirstArgs(req) || x in DebugArgs(req) || x in LogArgs(req) || x in FlagArgs(req)
              || x in Extras(req) || x in PhaseArgs(req) || x == req.archivePath || x == req.mountPath
  {
    InParts(x, req.bin, FirstArgs(req), DebugArgs(req), LogArgs(req), FlagArgs(req), Extras(req), PhaseArgs(req),
            req.archivePath, req.mountPath);
  }

  lemma InParts(x: string, bin: string, a: seq<string>, b: seq<string>, c: seq<string>, d: seq<string>, e: seq<string>,
                f: seq<string>, y: string, z: string)
    ensures x in [bin] + (a + b + c + d + e + f) + [y, z] <==>
              x == bin || x in a || x in b || x in c || x in d || x in e || x in f || x == y || x == z
  {}

  lemma ValuesMode(req: Request, x: string)
    ensures x in Values(req) <==>
              || x in [req.bin, req.indexPath, req.archivePath, req.mountPath]
              || (TrimSpace(req.logDir) != "" && x in LogArgs(req)[1..])
              || (req.overlayPath != "" && x == req.overlayPath)
              || (req.recursive && |req.extensions| > 0 && x == JoinWith(req.extensions, ","))
  {}

  // ---- reading the process table ----

  const NUL: char := 0 as char

  /** The cmdline file of a process: every argument ends with a NUL. */
  function Cmdline(args: seq<string>): string {
    if args == [] then "" else args[0] + [NUL] + Cmdline(args[1..])
  }

  function NonEmpty(parts: seq<string>): seq<string> {
    if parts == [] then []
    else if parts[0] == "" then NonEmpty(parts[1..])
    else [parts[0]] + NonEmpty(parts[1..])
  }

  predicate IsRatarmount(arg0: string) {
    Base(arg0) == "ratarmount" || Base(arg0) == "ratarmount-rs"
  }

  /** What the last two arguments and the first say. */
  function MountOf(args: seq<string>): Option<string> {
    if |args| < 2 || !IsRatarmount(args[0]) then None
    else
      var mountPath := TrimSpace(args[|args| - 1]);
      if mountPath == "" || mountPath == args[|args| - 2] then None else Some(Clean(mountPath))
  }

  /** parseRatarmountMountPath. */
  function ParseMountPath(cmdline: string): Option<string> {
    MountOf(NonEmpty(Split(cmdline, NUL)))
  }

  method DropEmpty(parts: seq<string>) returns (args: seq<string>)
    ensures args == NonEmpty(parts)
  {
    args := [];
    for i := 0 to |parts|
      invariant NonEmpty(parts) == args + NonEmpty(parts[i..])
    {
      assert parts[i..][1..] == parts[i + 1..];
      if parts[i] != "" {
        args := args + [parts[i]];
      }
    }
  }

  method ParseRatarmountMountPath(cmdline: string) returns (mountPath: Option<string>)
    ensures mountPath == ParseMountPath(cmdline)
  {
    var args := DropEmpty(Split(cmdline, NUL));
    if |args| < 2 {
      return None;
    }
    if !IsRatarmount(args[0]) {
      return None;
    }
    var path := TrimSpace(args[|args| - 1]);
    if path == "" || path == args[|args| - 2] {
      return None;
    }
    return Some(Clean(path));
  }

  ghost predicate NulFree(args: seq<string>) {
    forall a :: a in args ==> NUL !in a
  }

  lemma {:induction false} SplitCmdline(args: seq<string>)
    requires NulFree(args)
    ensures Split(Cmdline(args), NUL) == args + [""]
  {
    if args != [] {
      assert args[0] in args;
      SplitWhole(args[0], NUL);
      SplitCmdline(args[1..]);
      SplitConcat(args[0], Cmdline(args[1..]), NUL);
    }
  }

  lemma {:induction false} NonEmptyConcat(a: seq<string>, b: seq<string>)
    ensures NonEmpty(a + b) == NonEmpty(a) + NonEmpty(b)
  {
    if a == [] {
      assert a + b == b;
    } else {
      assert (a + b)[1..] == a[1..] + b;
      NonEmptyConcat(a[1..], b);
    }
  }

  /** The arguments that are read back: the last two, and the first that is not empty. */
  lemma ReadBack(first: string, middle: seq<string>, last: seq<string>) returns (front: seq<string>)
    requires NulFree([first] + middle + last) && NonEmpty(last) == last
    requires first != "" || (middle != [] && middle[0] != "")
    ensures NonEmpty(Split(Cmdline([first] + middle + last), NUL)) == front + last
    ensures front != [] && front[0] == if first != "" then first else middle[0]
  {
    var args := [first] + middle + last;
    SplitCmdline(args);
    NonEmptyConcat(args, [""]);
    NonEmptyConcat([first] + middle, last);
    front := NonEmpty([first] + middle);
    assert ([first] + middle)[1..] == middle;
    assert NonEmpty([""]) == [];
  }

  lemma MountOfEnds(front: seq<string>, archivePath: string, mountPath: string)
    requires front != []
    ensures MountOf(front + [archivePath, mountPath]) ==
            if IsRatarmount(front[0]) && TrimSpace(mountPath) != "" && TrimSpace(mountPath) != archivePath
            then Some(Clean(TrimSpace(mountPath))) else None
  {
    var args := front + [archivePath, mountPath];
    assert args[0] == front[0] && args[|args| - 1] == mountPath && args[|args| - 2] == archivePath;
  }

  lemma EmptyIsNoRatarmount()
    ensures !IsRatarmount("") && !IsRatarmount("-f")
  {
    assert Base("") == ".";
    assert AfterLastSlash("-f") == AfterLastSlash("-") + "f" by {
      assert "-f"[..1] == "-";
    }
    assert AfterLastSlash("-") == "-" by {
      assert "-"[..0] == "";
    }
  }

  /** The mount path that is read from the process table is the one the command was built with, in its
      clean form: for every list of extra arguments, in the index phase and in the mount phase. It is
      read at all if and only if the binary is ratarmount and the path is not blank and not the archive. */
  lemma ParseOfBuild(req: Request)
    requires NulFree(Argv(req)) && req.archivePath != "" && req.mountPath != ""
    ensures ParseMountPath(Cmdline(Argv(req))) ==
            if IsRatarmount(req.bin) && TrimSpace(req.mountPath) != "" && TrimSpace(req.mountPath) != req.archivePath
            then Some(Clean(TrimSpace(req.mountPath))) else None
  {
    var middle := ArgvShape(req);
    var last := [req.archivePath, req.mountPath];
    LastTwo(req.archivePath, req.mountPath);
    var front := ReadBack(req.bin, middle, last);
    EmptyIsNoRatarmount();
    assert IsRatarmount(front[0]) == IsRatarmount(req.bin);
    MountOfEnds(front, req.archivePath, req.mountPath);
  }

  lemma LastTwo(a: string, b: string)
    requires a != "" && b != ""
    ensures NonEmpty([a, b]) == [a, b]
  {
    var empty: seq<string> := [];
    assert [a, b][1..] == [b] && [b][1..] == empty;
    assert NonEmpty(empty) == [];
    assert NonEmpty([b]) == [b] + NonEmpty([b][1..]);
  }

  lemma ArgvShape(req: Request) returns (middle: seq<string>)
    ensures Argv(req) == [req.bin] + middle + [req.archivePath, req.mountPath]
    ensures middle != [] && middle[0] == "-f"
  {
    middle := FirstArgs(req) + DebugArgs(req) + LogArgs(req) + FlagArgs(req) + Extras(req) + PhaseArgs(req);
    assert middle[0] == FirstArgs(req)[0];
  }

  /** A clean mount path without outer white space comes back exactly. */
  lemma ParseReturnsMountPath(req: Request)
    requires NulFree(Argv(req)) && req.archivePath != "" && IsRatarmount(req.bin)
    requires req.mountPath != "" && TrimSpace(req.mountPath) == req.mountPath && Clean(req.mountPath) == req.mountPath
    requires req.mountPath != req.archivePath
    ensures ParseMountPath(Cmdline(Argv(req))) == Some(req.mountPath)
  {
    ParseOfBuild(req);
  }
}
