/**
 Rewriting the command line of a child Python process so that it starts under the debugger,
 away from Windows (where nothing is quoted or unquoted on the way).
 */
module PatchArguments {
  import opened Options
  import opened Sequences
  import opened SetupArguments

  /** What patch_args looks up: whether a path names a Python interpreter, the code that
      replaces the code after -c (None when there is no port to connect to), and the
      debugger's own command line, which starts with the path of pydevd.py. */
  datatype Setting = Setting(isPython: string -> bool, wrapCode: Option<string -> string>, setup: seq<string>)

  predicate IsFlag(arg: string) {
    "-" <= arg
  }

  predicate IsModuleFlag(arg: string) {
    "-m" <= arg
  }

  predicate TakesValue(arg: string) {
    arg == "-m" || arg == "-W" || arg == "-X"
  }

  predicate IsManaged(arg: string) {
    |arg| >= |"pydevd.py"| && arg[|arg| - |"pydevd.py"|..] == "pydevd.py"
  }

  function AfterLastDot(s: string): string {
    if s == "" || s[|s| - 1] == '.' then "" else AfterLastDot(s[..|s| - 1]) + [s[|s| - 1]]
  }

  lemma {:induction false} AfterLastDotIs(s: string)
    ensures var r := AfterLastDot(s);
            '.' !in r && |r| <= |s| && s[|s| - |r|..] == r && (|r| < |s| ==> s[|s| - |r| - 1] == '.')
  {
    if s != "" && s[|s| - 1] != '.' {
      AfterLastDotIs(s[..|s| - 1]);
      assert s == s[..|s| - 1] + [s[|s| - 1]];
    }
  }

  predicate IsArchive(arg: string) {
    AfterLastDot(arg) in ["zip", "pyz", "pyzw"]
  }

  /** The first position from i on that is not a flag. */
  function FlagsEnd(args: seq<string>, i: nat): (e: nat)
    requires i <= |args|
    ensures i <= e <= |args|
    ensures forall k | i <= k < e :: IsFlag(args[k])
    ensures e < |args| ==> !IsFlag(args[e])
    decreases |args| - i
  {
    if i < |args| && IsFlag(args[i]) then FlagsEnd(args, i + 1) else i
  }

  /** The position of a -c that belongs to the interpreter, or -1. */
  function COption(args: seq<string>): int {
    if args == [] then -1
    else
      var c := Find(args, "-c");
      if c < |args| && (c == 0 || c < FlagsEnd(args, 1)) then c else -1
  }

  method GetCOptionIndex(args: seq<string>) returns (c: int)
    ensures c == COption(args)
  {
    var ind := 0;
    while ind < |args| && args[ind] != "-c"
      invariant 0 <= ind <= |args| && "-c" !in args[..ind]
    {
      ind := ind + 1;
    }
    FindIs(args, "-c", ind);
    if ind == |args| {
      return -1;
    }
    var i := 1;
    while i < ind
      invariant forall k | 1 <= k < i && k < |args| :: IsFlag(args[k])
    {
      if !IsFlag(args[i]) {
        FlagsEndIs(args, i);
        return -1;
      }
      i := i + 1;
    }
    if ind > 0 {
      FlagsPast(args, ind);
    }
    return ind;
  }

  lemma FindIs(args: seq<string>, x: string, i: nat)
    requires i <= |args| && x !in args[..i] && (i < |args| ==> args[i] == x)
    ensures Find(args, x) == i
  {
  }

  lemma FlagsEndIs(args: seq<string>, i: nat)
    requires 1 <= i < |args| && !IsFlag(args[i])
    requires forall k | 1 <= k < i :: IsFlag(args[k])
    ensures FlagsEnd(args, 1) == i
  {
  }

  lemma FlagsPast(args: seq<string>, i: nat)
    requires 1 <= i < |args|
    requires forall k | 1 <= k <= i :: IsFlag(args[k])
    ensures i < FlagsEnd(args, 1)
  {
  }

  /** The first argument that is neither a flag nor the value of a flag that takes one. */
  function ProgramAt(args: seq<string>, i: nat): (p: nat)
    ensures p < |args| ==> i <= p && !IsFlag(args[p])
    decreases |args| - i
  {
    if i >= |args| then |args|
    else if IsFlag(args[i]) then ProgramAt(args, if TakesValue(args[i]) then i + 2 else i + 1)
    else i
  }

  predicate RunsArchive(args: seq<string>) {
    var p := ProgramAt(args, 1);
    p < |args| && IsArchive(args[p])
  }

  /** The flags before `i` that stay with the interpreter: all but -m and -mname. */
  function Kept(args: seq<string>, i: nat): seq<string>
    requires i <= |args|
  {
    if i <= 1 then [] else Kept(args, i - 1) + if IsModuleFlag(args[i - 1]) then [] else [args[i - 1]]
  }

  function ModuleFlags(args: seq<string>, i: nat): nat
    requires i <= |args|
  {
    if i <= 1 then 0 else ModuleFlags(args, i - 1) + if IsModuleFlag(args[i - 1]) then 1 else 0
  }

  /** The name in the last -mname. */
  function ModuleName(args: seq<string>, i: nat): Option<string>
    requires i <= |args|
  {
    if i <= 1 then None
    else if IsModuleFlag(args[i - 1]) && args[i - 1] != "-m" then Some(args[i - 1][2..])
    else ModuleName(args, i - 1)
  }

  function Repeat(x: string, n: nat): (r: seq<string>)
    ensures |r| == n && forall k | 0 <= k < n :: r[k] == x
  {
    if n == 0 then [] else [x] + Repeat(x, n - 1)
  }

  /** The debugger's part: its command line, with --module once per -m, and --file. */
  function Debugger(setup: seq<string>, modules: nat): seq<string>
    requires setup != []
  {
    [setup[0]] + Repeat("--module", modules) + (setup[1..] + ["--file"])
  }

  function Through(xs: seq<string>, x: string): seq<string> {
    var i := Find(xs, x);
    if i < |xs| then xs[..i + 1] else xs
  }

  function Given(name: Option<string>): seq<string> {
    if name.Some? then [name.value] else []
  }

  function Rewritten(setup: seq<string>, head: seq<string>, args: seq<string>): seq<string>
    requires setup != [] && |args| > 1
  {
    var e := FlagsEnd(args, 1);
    if e < |args| && IsManaged(args[e]) then args
    else head + Kept(args, e) + Through(Debugger(setup, ModuleFlags(args, e)), "--file")
         + Given(ModuleName(args, e)) + args[e..]
  }

  /** What patch_args returns. */
  function Patched(env: Setting, args: seq<string>): seq<string>
    requires env.setup != []
  {
    if args == [] || !env.isPython(args[0]) then args
    else
      var c := COption(args);
      if c != -1 && env.wrapCode.Some? then
        if c + 1 < |args| then args[c + 1 := env.wrapCode.value(args[c + 1])] else args
      else if c == -1 && RunsArchive(args) then args
      else if |args| == 1 then args
      else Rewritten(env.setup, if c == -1 then [args[0]] else [], args)
  }

  /** Whether the arguments run an archive; the loop that looks past the flags. */
  method FindArchive(args: seq<string>) returns (found: bool)
    requires args != []
    ensures found == RunsArchive(args)
  {
    var continueNext := false;
    for i := 1 to |args|
      invariant ProgramAt(args, if continueNext then i + 1 else i) == ProgramAt(args, 1)
    {
      if continueNext {
        continueNext := false;
        continue;
      }
      if IsFlag(args[i]) {
        continueNext := TakesValue(args[i]);
        continue;
      }
      return IsArchive(args[i]);
    }
    return false;
  }

  /** patch_args. A raised exception is caught there, and the arguments are returned. */
  method PatchArgs(env: Setting, args: seq<string>) returns (r: seq<string>)
    requires env.setup != []
    ensures r == Patched(env, args)
  {
    if |args| == 0 || !env.isPython(args[0]) {
      return args;
    }
    var newArgs: seq<string> := [];
    var c := GetCOptionIndex(args);
    if c != -1 {
      if env.wrapCode.Some? {
        if c + 1 >= |args| {
          return args; // IndexError
        }
        newArgs := args[c + 1 := env.wrapCode.value(args[c + 1])];
        return newArgs;
      }
    } else {
      var archive := FindArchive(args);
      if archive {
        return args;
      }
      newArgs := [args[0]];
    }
    if |args| == 1 {
      return args; // IndexError at args[1]
    }
    r := Rewrite(env.setup, newArgs, args);
  }

  method Rewrite(setup: seq<string>, head: seq<string>, args: seq<string>) returns (newArgs: seq<string>)
    requires setup != [] && |args| > 1
    ensures newArgs == Rewritten(setup, head, args)
  {
    var i, original, moduleName;
    i, newArgs, original, moduleName := TakeFlags(setup, head, args);
    if i < |args| && IsManaged(args[i]) {
      return args;
    }
    newArgs := CopyThrough(newArgs, original, "--file");
    if moduleName != None {
      newArgs := newArgs + [moduleName.value];
    }
    ghost var before := newArgs;
    var e := i;
    while i < |args|
      invariant e <= i <= |args| && newArgs == before + args[e..i]
    {
      newArgs := newArgs + [args[i]];
      assert args[e..i + 1] == args[e..i] + [args[i]];
      i := i + 1;
    }
    assert args[e..i] == args[e..];
  }

  /** The loop over the flags of the interpreter. */
  method TakeFlags(setup: seq<string>, head: seq<string>, args: seq<string>)
      returns (i: nat, newArgs: seq<string>, original: seq<string>, moduleName: Option<string>)
    requires setup != [] && |args| > 1
    ensures i == FlagsEnd(args, 1)
    ensures newArgs == head + Kept(args, i)
    ensures original == Debugger(setup, ModuleFlags(args, i))
    ensures moduleName == ModuleName(args, i)
  {
    newArgs := head;
    original := setup + ["--file"];
    moduleName := None;
    i := 1;
    while i < |args|
      invariant 1 <= i <= |args| && FlagsEnd(args, i) == FlagsEnd(args, 1)
      invariant original == Debugger(setup, ModuleFlags(args, i))
      invariant newArgs == head + Kept(args, i) && moduleName == ModuleName(args, i)
    {
      if IsModuleFlag(args[i]) {
        OneMore(setup, ModuleFlags(args, i));
        original := original[..1] + ["--module"] + original[1..];
        if args[i] != "-m" {
          moduleName := Some(args[i][2..]);
        }
      } else if IsFlag(args[i]) {
        newArgs := newArgs + [args[i]];
      } else {
        break;
      }
      i := i + 1;
    }
  }

  lemma OneMore(setup: seq<string>, n: nat)
    requires setup != []
    ensures var d := Debugger(setup, n); d[..1] + ["--module"] + d[1..] == Debugger(setup, n + 1)
  {
  }

  /** Appends elements up to and with the first that equals `x`. */
  method CopyThrough(to: seq<string>, from: seq<string>, x: string) returns (r: seq<string>)
    ensures r == to + Through(from, x)
  {
    r := to;
    for k := 0 to |from|
      invariant r == to + from[..k] && x !in from[..k]
    {
      r := r + [from[k]];
      if from[k] == x {
        FindIs(from, x, k);
        return;
      }
    }
    FindIs(from, x, |from|);
  }

  // ----- patching twice -----

  /** The path of pydevd.py, which is not a flag. */
  predicate SetupOk(setup: seq<string>) {
    setup != [] && IsManaged(setup[0]) && !IsFlag(setup[0])
  }

  lemma {:induction false} KeptAreFlags(args: seq<string>, i: nat)
    requires i <= |args| && forall k | 1 <= k < i :: IsFlag(args[k])
    ensures forall k | 0 <= k < |Kept(args, i)| :: IsFlag(Kept(args, i)[k]) && Kept(args, i)[k] in args[1..]
  {
    if i > 1 {
      KeptAreFlags(args, i - 1);
      assert args[i - 1] == args[1..][i - 2];
    }
  }

  lemma ThroughStarts(setup: seq<string>, n: nat)
    requires SetupOk(setup)
    ensures var d := Through(Debugger(setup, n), "--file"); d != [] && d[0] == setup[0]
  {
    var i := Find(Debugger(setup, n), "--file");
    assert setup[0] != "--file";
  }

  /** The first argument after the flags of a rewritten command line is the debugger. */
  lemma RewrittenStops(setup: seq<string>, args: seq<string>)
    requires SetupOk(setup) && |args| > 1 && Rewritten(setup, [args[0]], args) != args
    ensures var r := Rewritten(setup, [args[0]], args);
            var e := FlagsEnd(args, 1);
            var f := 1 + |Kept(args, e)|;
            f < |r| && r[..f] == [args[0]] + Kept(args, e) && r[f] == setup[0] && FlagsEnd(r, 1) == f
  {
    var e := FlagsEnd(args, 1);
    var n := ModuleFlags(args, e);
    ThroughStarts(setup, n);
    KeptAreFlags(args, e);
    FlagsStop(args[0], Kept(args, e), Through(Debugger(setup, n), "--file"), Given(ModuleName(args, e)), args[e..]);
  }

  lemma FlagsStop(first: string, flags: seq<string>, t: seq<string>, name: seq<string>, rest: seq<string>)
    requires forall k | 0 <= k < |flags| :: IsFlag(flags[k])
    requires t != [] && !IsFlag(t[0])
    ensures var r := [first] + flags + t + name + rest;
            var f := 1 + |flags|;
            f < |r| && r[..f] == [first] + flags && r[f] == t[0] && FlagsEnd(r, 1) == f
  {
    var r := [first] + flags + t + name + rest;
    var f := 1 + |flags|;
    forall k | 1 <= k < f ensures IsFlag(r[k]) {
      assert r[k] == flags[k - 1];
    }
    FlagsEndIs(r, f);
  }

  /** Unless a -c belongs to the interpreter, patching an already patched command line changes
      nothing. */
  lemma PatchingTwice(env: Setting, args: seq<string>)
    requires SetupOk(env.setup) && COption(args) == -1
    ensures Patched(env, Patched(env, args)) == Patched(env, args)
  {
    var r := Patched(env, args);
    if r != args {
      RewrittenStops(env.setup, args);
      NoCOption(args);
      StillPython(r, args[0], Kept(args, FlagsEnd(args, 1)));
    }
  }

  lemma StillPython(r: seq<string>, first: string, flags: seq<string>)
    requires first != "-c" && "-c" !in flags
    requires r != [] && FlagsEnd(r, 1) < |r| && r[..FlagsEnd(r, 1)] == [first] + flags
    ensures r[0] == first && COption(r) == -1
  {
    var f := FlagsEnd(r, 1);
    assert r[0] == r[..f][0];
    FindPast(r, "-c", f);
  }

  lemma FindPast(xs: seq<string>, x: string, f: nat)
    requires f <= |xs| && x !in xs[..f]
    ensures Find(xs, x) >= f
  {
  }

  /** Among the interpreter and its flags there is no -c. */
  lemma NoCOption(args: seq<string>)
    requires args != [] && COption(args) == -1
    ensures args[0] != "-c" && "-c" !in Kept(args, FlagsEnd(args, 1))
  {
    var e := FlagsEnd(args, 1);
    var c := Find(args, "-c");
    assert "-c" !in args[..e] by {
      assert args[..e] == args[..c][..e];
    }
    KeptWithin(args, e);
  }

  lemma {:induction false} KeptWithin(args: seq<string>, i: nat)
    requires i <= |args|
    ensures forall x <- Kept(args, i) :: x in args[..i]
  {
    if i > 1 {
      KeptWithin(args, i - 1);
      assert args[..i] == args[..i - 1] + [args[i - 1]];
    }
  }

  // ----- what the child does with the rewritten command line -----

  /** The arguments are rewritten: a Python with arguments, none of them a -c of the
      interpreter, that runs neither an archive nor the debugger. */
  predicate Rewrites(env: Setting, args: seq<string>) {
    && |args| > 1
    && env.isPython(args[0])
    && COption(args) == -1
    && !RunsArchive(args)
    && !Debugged(args)
  }

  predicate Debugged(args: seq<string>)
    requires |args| > 1
  {
    var e := FlagsEnd(args, 1);
    e < |args| && IsManaged(args[e])
  }

  /** What is to run under the debugger: the module in -mname, and all from the first argument
      that is not a flag. */
  function Program(args: seq<string>): seq<string>
    requires |args| > 1
  {
    var e := FlagsEnd(args, 1);
    Given(ModuleName(args, e)) + args[e..]
  }

  lemma FindAtEnd(xs: seq<string>, x: string)
    requires x !in xs
    ensures Find(xs + [x], x) == |xs|
  {
    FindIs(xs + [x], x, |xs|);
  }

  /** The rewritten line, when the debugger's options do not contain --file. */
  lemma RewrittenIs(setup: seq<string>, args: seq<string>)
    requires SetupOk(setup) && |args| > 1 && !Debugged(args) && "--file" !in setup
    ensures var e := FlagsEnd(args, 1);
            Rewritten(setup, [args[0]], args) ==
            [args[0]] + Kept(args, e) +
            ([setup[0]] + (Repeat("--module", ModuleFlags(args, e)) + (setup[1..] + (["--file"] + Program(args)))))
  {
    var e := FlagsEnd(args, 1);
    var n := ModuleFlags(args, e);
    DebuggerHasNoFile(setup, n);
    Regroup([args[0]] + Kept(args, e), [setup[0]], Repeat("--module", n), setup[1..], ["--file"],
            Given(ModuleName(args, e)), args[e..]);
  }

  lemma DebuggerHasNoFile(setup: seq<string>, n: nat)
    requires setup != [] && "--file" !in setup
    ensures Through(Debugger(setup, n), "--file") == Debugger(setup, n)
  {
    var options := [setup[0]] + Repeat("--module", n) + setup[1..];
    assert Debugger(setup, n) == options + ["--file"];
    assert "--module" != "--file";
    assert "--file" !in Repeat("--module", n);
    FindAtEnd(options, "--file");
  }

  lemma Regroup(head: seq<string>, a: seq<string>, b: seq<string>, c: seq<string>, d: seq<string>, f: seq<string>,
                g: seq<string>)
    ensures head + (a + b + (c + d)) + f + g == head + (a + (b + (c + (d + (f + g)))))
  {
    Assoc(head + (a + b + (c + d)), f, g);
    Assoc(head, a + b + (c + d), f + g);
    Assoc(a + b, c + d, f + g);
    Assoc(a, b, c + d + (f + g));
    Assoc(c, d, f + g);
  }

  lemma Assoc(a: seq<string>, b: seq<string>, c: seq<string>)
    ensures a + b + c == a + (b + c)
  {
  }

  /** What the debugger is given, after its own path. */
  function DebuggerReads(setup: seq<string>, args: seq<string>): seq<string>
    requires |args| > 1
  {
    Repeat("--module", ModuleFlags(args, FlagsEnd(args, 1))) + (setup + (["--file"] + Program(args)))
  }

  lemma ChildLine(env: Setting, args: seq<string>)
    requires SetupOk(env.setup) && "--file" !in env.setup && Rewrites(env, args)
    ensures var r := Patched(env, args);
            var k := FlagsEnd(r, 1);
            && k < |r|
            && r[..k] == [args[0]] + Kept(args, FlagsEnd(args, 1))
            && r[k] == env.setup[0]
            && r[k + 1..] == DebuggerReads(env.setup[1..], args)
  {
    RewrittenIs(env.setup, args);
    KeptAreFlags(args, FlagsEnd(args, 1));
    StopsAt(args[0], Kept(args, FlagsEnd(args, 1)), env.setup[0], DebuggerReads(env.setup[1..], args));
  }

  /** What stands in the rewritten line: the path and the flags before the first argument that is
      no flag, in order but without -m and -mname; the debugger's path; and behind that what the
      debugger, if it is run, reads as its own options, a program and its arguments: all from that
      first argument on, unchanged. It takes the program for a module exactly when -m was given or
      the options say --module, and fails when there is no program. What the interpreter makes of
      the line, and whether this program is the one it would have run, is in ChildInterpreter. */
  lemma ChildReads(env: Setting, handlers: seq<Handler>, setup: Setup, file: string, args: seq<string>)
    requires HandlersOk(handlers) && Accepted(handlers, setup)
    requires env.setup == [file] + ToArgv(handlers, setup) && SetupOk(env.setup) && "--file" !in env.setup
    requires Rewrites(env, args)
    ensures var r := Patched(env, args);
            var e := FlagsEnd(args, 1);
            var k := FlagsEnd(r, 1);
            && k < |r|
            && r[..k] == [args[0]] + Kept(args, e)
            && r[k] == file
            && Read(handlers, r[k + 1..], NOTHING) ==
               if Program(args) == [] then Failed
               else Parsed(Setup(setup.values, setup.flags + (if ModuleFlags(args, e) == 0 then {} else {"module"}),
                                 "", false),
                           Program(args)[0], Program(args))
  {
    ChildLine(env, args);
    assert env.setup[1..] == ToArgv(handlers, setup);
    ReadsBack(handlers, setup, Repeat("--module", ModuleFlags(args, FlagsEnd(args, 1))), Program(args));
  }

  lemma StopsAt(first: string, flags: seq<string>, stop: string, rest: seq<string>)
    requires forall k | 0 <= k < |flags| :: IsFlag(flags[k])
    requires !IsFlag(stop)
    ensures var r := [first] + flags + ([stop] + rest);
            var f := FlagsEnd(r, 1);
            f < |r| && r[..f] == [first] + flags && r[f] == stop && r[f + 1..] == rest
  {
    FlagsStop(first, flags, [stop] + rest, [], []);
    assert [first] + flags + ([stop] + rest) + [] + [] == [first] + flags + ([stop] + rest);
  }

  /** With a -c of the interpreter and a port, only the code after -c is replaced. */
  lemma CodeIsWrapped(env: Setting, args: seq<string>)
    requires env.setup != [] && args != [] && env.isPython(args[0]) && env.wrapCode.Some?
    requires 0 <= COption(args) < |args| - 1
    ensures var r := Patched(env, args);
            var c := COption(args);
            && |r| == |args| && args[c] == "-c"
            && r[..c + 1] == args[..c + 1]
            && r[c + 1] == env.wrapCode.value(args[c + 1])
            && r[c + 2..] == args[c + 2..]
  {
  }

  /** With a -c of the interpreter and no port, the line is rewritten behind nothing. */
  predicate LosesHead(env: Setting, args: seq<string>)
    requires args != []
  {
    env.isPython(args[0]) && COption(args) != -1 && env.wrapCode.None? && |args| > 1 && !Debugged(args)
  }

  /** The first thing behind the interpreter in a rewritten line. */
  function Behind(setup: seq<string>, args: seq<string>): string
    requires setup != [] && |args| > 1
  {
    var kept := Kept(args, FlagsEnd(args, 1));
    if kept == [] then setup[0] else kept[0]
  }

  lemma ThroughFirst(xs: seq<string>, x: string)
    requires xs != []
    ensures Through(xs, x) != [] && Through(xs, x)[0] == xs[0]
  {
  }

  /** The result starts with the interpreter exactly when there is no such -c without a port, or
      what stands behind the interpreter happens to be the same. */
  lemma StartsWithInterpreter(env: Setting, args: seq<string>)
    requires env.setup != [] && args != []
    ensures var r := Patched(env, args);
            r != [] && (r[0] == args[0] <==> !LosesHead(env, args) || Behind(env.setup, args) == args[0])
  {
    if |args| > 1 {
      ThroughFirst(Debugger(env.setup, ModuleFlags(args, FlagsEnd(args, 1))), "--file");
      RewrittenStarts(env.setup, [], args);
      RewrittenStarts(env.setup, [args[0]], args);
    }
    if 0 <= COption(args) < |args| - 1 && env.isPython(args[0]) && env.wrapCode.Some? {
      CodeIsWrapped(env, args);
    }
  }

  lemma RewrittenStarts(setup: seq<string>, head: seq<string>, args: seq<string>)
    requires setup != [] && |args| > 1 && |head| <= 1
    ensures Rewritten(setup, head, args) != []
    ensures Rewritten(setup, head, args)[0] ==
            if Debugged(args) then args[0] else if head == [] then Behind(setup, args) else head[0]
  {
    ThroughFirst(Debugger(setup, ModuleFlags(args, FlagsEnd(args, 1))), "--file");
  }

  /** The interpreter is all that is lost then. */
  lemma InterpreterIsLost(env: Setting, args: seq<string>)
    requires env.setup != [] && args != [] && LosesHead(env, args)
    ensures [args[0]] + Patched(env, args) == Rewritten(env.setup, [args[0]], args)
  {
    var e := FlagsEnd(args, 1);
    var t := Through(Debugger(env.setup, ModuleFlags(args, e)), "--file");
    var name := Given(ModuleName(args, e));
    Prepend([args[0]], Kept(args, e), t, name, args[e..]);
  }

  lemma Prepend(head: seq<string>, a: seq<string>, b: seq<string>, c: seq<string>, d: seq<string>)
    ensures head + ([] + a + b + c + d) == head + a + b + c + d
  {
  }

  // ----- the two loops over the flags -----

  /** How many flags directly before `i` take a value. */
  function ValueFlags(args: seq<string>, i: nat): nat
    requires i <= |args|
  {
    if i > 1 && TakesValue(args[i - 1]) then 1 + ValueFlags(args, i - 1) else 0
  }

  lemma {:induction false} Visits(args: seq<string>, i: nat)
    requires 1 <= i <= |args| && forall k | 1 <= k < i :: IsFlag(args[k])
    ensures ProgramAt(args, 1) == ProgramAt(args, if ValueFlags(args, i) % 2 == 0 then i else i + 1)
    decreases i
  {
    if i > 1 {
      Visits(args, i - 1);
    }
  }

  /** The loop that looks for an archive skips the values of flags, and the one that rewrites
      does not. They agree on where the program is exactly when an even number of flags that
      take a value come directly before the first argument that is not a flag, or there is no
      such argument. */
  lemma TwoReadings(args: seq<string>)
    requires args != []
    ensures var e := FlagsEnd(args, 1);
            ProgramAt(args, 1) == e <==> e == |args| || ValueFlags(args, e) % 2 == 0
  {
    var e := FlagsEnd(args, 1);
    Visits(args, e);
  }
}
