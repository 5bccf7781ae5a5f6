/** Which command lines of child processes are left as they are, in terms of their text. */
module PatchedLines {
  import opened Options
  import opened Histories
  import opened Sequences
  import opened PatchArguments

  predicate Dash(arg: string) {
    arg != "" && arg[0] == '-'
  }

  predicate EndsWith(s: string, end: string) {
    |end| <= |s| && s[|s| - |end|..] == end
  }

  /** The first -c, with nothing but flags between the interpreter and it. */
  predicate OwnCode(args: seq<string>, c: nat) {
    c < |args| && args[c] == "-c" && "-c" !in args[..c] && forall k | 1 <= k < c :: Dash(args[k])
  }

  /** What follows the last dot, or all of a name without a dot, is zip, pyz or pyzw. */
  predicate ArchiveName(s: string) {
    s == "zip" || s == "pyz" || s == "pyzw" || EndsWith(s, ".zip") || EndsWith(s, ".pyz") || EndsWith(s, ".pyzw")
  }

  /** From position `i` over flags to the next position each, past the value of -m, -W and -X. */
  predicate LeadsFrom(args: seq<string>, i: nat, path: seq<nat>) {
    && path != [] && path[0] == i
    && forall k | 0 <= k < |path| - 1 :: StepAt(args, path, k)
  }

  predicate StepAt(args: seq<string>, path: seq<nat>, k: nat)
    requires k + 1 < |path|
  {
    && path[k] < |args| && Dash(args[path[k]])
    && path[k + 1] == path[k] + if args[path[k]] in ["-m", "-W", "-X"] then 2 else 1
  }

  /** Where the flags, and the values of those that take one, have been passed, an archive is
      named. */
  ghost predicate ArchiveGiven(args: seq<string>) {
    exists path: seq<nat> :: LeadsFrom(args, 1, path) && StopsAtArchive(args, path[|path| - 1])
  }

  predicate StopsAtArchive(args: seq<string>, p: nat) {
    p < |args| && !Dash(args[p]) && ArchiveName(args[p])
  }

  /** The first argument that is not a flag is pydevd. */
  predicate Debugging(args: seq<string>) {
    exists e | 1 <= e < |args| :: EndsWith(args[e], "pydevd.py") && !Dash(args[e]) && AllFlags(args, e)
  }

  predicate AllFlags(args: seq<string>, e: nat)
    requires e <= |args|
  {
    forall k | 1 <= k < e :: Dash(args[k])
  }

  // ----- the words of the rewriting functions -----

  lemma FlagIsDash(arg: string)
    ensures IsFlag(arg) <==> Dash(arg)
  {
  }

  lemma OwnCodeIff(args: seq<string>, c: nat)
    ensures OwnCode(args, c) <==> COption(args) == c
  {
    if args != [] {
      var f := Find(args, "-c");
      var e := FlagsEnd(args, 1);
      if OwnCode(args, c) {
        FindIs(args, "-c", c);
        if c > 0 {
          FlagsPast(args, c);
        }
      }
      if COption(args) == c && c > 0 {
        assert forall k | 1 <= k < c :: IsFlag(args[k]);
      }
    }
  }

  lemma {:induction false} AfterLastDotOf(s: string)
    requires '.' !in s
    ensures AfterLastDot(s) == s
  {
    if s != "" {
      assert s[|s| - 1] in s;
      AfterLastDotOf(s[..|s| - 1]);
    }
  }

  lemma {:induction false} AfterLastDotBehind(s: string, t: string)
    requires '.' !in t
    ensures AfterLastDot(s + "." + t) == t
    decreases |t|
  {
    var all := s + "." + t;
    if t != "" {
      assert t[|t| - 1] in t;
      assert all[..|all| - 1] == s + "." + t[..|t| - 1];
      AfterLastDotBehind(s, t[..|t| - 1]);
    }
  }

  lemma ExtensionIff(s: string, t: string)
    requires '.' !in t
    ensures AfterLastDot(s) == t <==> s == t || EndsWith(s, "." + t)
  {
    if s == t {
      AfterLastDotOf(s);
    } else if EndsWith(s, "." + t) {
      var n := |s| - |t| - 1;
      assert s == s[..n] + "." + t;
      AfterLastDotBehind(s[..n], t);
    } else {
      AfterLastDotIs(s);
    }
  }

  lemma ArchiveNameIff(s: string)
    ensures IsArchive(s) <==> ArchiveName(s)
  {
    ExtensionIff(s, "zip");
    ExtensionIff(s, "pyz");
    ExtensionIff(s, "pyzw");
    var t := AfterLastDot(s);
    assert IsArchive(s) <==> t == "zip" || t == "pyz" || t == "pyzw";
    assert "." + "zip" == ".zip" && "." + "pyz" == ".pyz" && "." + "pyzw" == ".pyzw";
  }

  /** The loop that looks for an archive follows the flags. */
  lemma {:induction false} PathTo(args: seq<string>, i: nat) returns (path: seq<nat>)
    requires ProgramAt(args, i) < |args|
    ensures LeadsFrom(args, i, path) && path[|path| - 1] == ProgramAt(args, i) && !Dash(args[ProgramAt(args, i)])
    decreases |args| - i
  {
    path := [i];
    if IsFlag(args[i]) {
      var next := PathTo(args, if TakesValue(args[i]) then i + 2 else i + 1);
      path := [i] + next;
      forall k | 0 <= k < |path| - 1 ensures StepAt(args, path, k) {
        assert k > 0 ==> StepAt(args, next, k - 1);
      }
    }
  }

  lemma {:induction false} PathEnds(args: seq<string>, i: nat, path: seq<nat>)
    requires LeadsFrom(args, i, path) && path[|path| - 1] < |args| && !Dash(args[path[|path| - 1]])
    ensures ProgramAt(args, i) == path[|path| - 1]
    decreases |path|
  {
    if |path| > 1 {
      assert StepAt(args, path, 0);
      forall k | 0 <= k < |path| - 2 ensures StepAt(args, path[1..], k) {
        assert StepAt(args, path, k + 1);
      }
      PathEnds(args, path[1], path[1..]);
    }
  }

  lemma ArchiveGivenIff(args: seq<string>)
    ensures ArchiveGiven(args) <==> RunsArchive(args)
  {
    if RunsArchive(args) {
      var path := PathTo(args, 1);
      ArchiveNameIff(args[ProgramAt(args, 1)]);
    }
    if path: seq<nat> :| LeadsFrom(args, 1, path) && StopsAtArchive(args, path[|path| - 1]) {
      PathEnds(args, 1, path);
      ArchiveNameIff(args[ProgramAt(args, 1)]);
    }
  }

  lemma DebuggingIff(args: seq<string>)
    requires |args| > 1
    ensures Debugging(args) <==> Debugged(args)
  {
    var f := FlagsEnd(args, 1);
    if Debugged(args) {
      assert AllFlags(args, f) && EndsWith(args[f], "pydevd.py");
    }
    if e :| 1 <= e < |args| && EndsWith(args[e], "pydevd.py") && !Dash(args[e]) && AllFlags(args, e) {
      FlagsEndIs(args, e);
    }
  }

  /** A line that is rewritten gets longer. */
  lemma {:induction false} KeptAndModules(args: seq<string>, i: nat)
    requires 1 <= i <= |args|
    ensures |Kept(args, i)| + ModuleFlags(args, i) == i - 1
  {
    if i > 1 {
      KeptAndModules(args, i - 1);
    }
  }

  lemma RewrittenIsLonger(setup: seq<string>, head: seq<string>, args: seq<string>)
    requires SetupOk(setup) && |args| > 1 && !Debugged(args)
    ensures |Rewritten(setup, head, args)| > |args|
  {
    var e := FlagsEnd(args, 1);
    var n := ModuleFlags(args, e);
    KeptAndModules(args, e);
    var d := Debugger(setup, n);
    var f := Find(d, "--file");
    assert d[|d| - 1] == "--file" && "--module"[2] == 'm' && "--file"[2] == 'f';
    assert forall k | 1 <= k <= n :: d[k] == "--module";
    assert forall k | 0 <= k <= n :: d[k] != "--file";
  }

  // ----- the lines that are left alone -----

  /** Without a -c of its own, or a port, an interpreter's line is left alone if it has no
      arguments, or runs the debugger already. */
  predicate NothingToRewrite(args: seq<string>) {
    |args| == 1 || Debugging(args)
  }

  /** With a port, the code behind -c stays if there is none, or what replaces it is the same. */
  predicate SameCode(env: Setting, args: seq<string>, c: nat) {
    c + 1 < |args| && env.wrapCode.Some? ==> env.wrapCode.value(args[c + 1]) == args[c + 1]
  }

  /** The line stays, given its own -c at `c`. */
  predicate StaysWithCode(env: Setting, args: seq<string>, c: nat) {
    if env.wrapCode.Some? then SameCode(env, args, c) else NothingToRewrite(args)
  }

  /** patch_args returns the line as it was exactly if it is empty or runs no Python; or has code
      behind a -c of its own that stays the same, or, without a port, nothing to rewrite; or has no
      such -c and names an archive or has nothing to rewrite. */
  lemma LeftAloneIff(env: Setting, args: seq<string>)
    requires SetupOk(env.setup)
    ensures Patched(env, args) == args <==>
            || args == []
            || !env.isPython(args[0])
            || (exists c | 0 <= c < |args| :: OwnCode(args, c) && StaysWithCode(env, args, c))
            || ((forall c | 0 <= c < |args| :: !OwnCode(args, c)) && (ArchiveGiven(args) || NothingToRewrite(args)))
  {
    if args != [] && env.isPython(args[0]) {
      StaysWithOwnCode(env, args);
      if COption(args) >= 0 {
        CodeStays(env, args);
      } else {
        ArchiveStays(env, args);
      }
    }
  }

  lemma StaysWithOwnCode(env: Setting, args: seq<string>)
    requires args != []
    ensures (exists c | 0 <= c < |args| :: OwnCode(args, c) && StaysWithCode(env, args, c)) <==>
            COption(args) >= 0 && StaysWithCode(env, args, COption(args))
    ensures (forall c | 0 <= c < |args| :: !OwnCode(args, c)) <==> COption(args) < 0
  {
    forall c | 0 <= c < |args| ensures OwnCode(args, c) <==> COption(args) == c {
      OwnCodeIff(args, c);
    }
    if COption(args) >= 0 {
      OwnCodeIff(args, COption(args));
    }
  }

  lemma ArchiveStays(env: Setting, args: seq<string>)
    requires SetupOk(env.setup) && args != [] && env.isPython(args[0]) && COption(args) < 0
    ensures Patched(env, args) == args <==> ArchiveGiven(args) || NothingToRewrite(args)
  {
    ArchiveGivenIff(args);
    RewritingStays(env, args, [args[0]]);
  }

  lemma CodeStays(env: Setting, args: seq<string>)
    requires SetupOk(env.setup) && args != [] && env.isPython(args[0]) && COption(args) >= 0
    ensures Patched(env, args) == args <==> StaysWithCode(env, args, COption(args))
  {
    var c := COption(args);
    if env.wrapCode.None? {
      RewritingStays(env, args, []);
    } else if c < |args| - 1 {
      assert Patched(env, args)[c + 1] == env.wrapCode.value(args[c + 1]);
    }
  }

  lemma RewritingStays(env: Setting, args: seq<string>, head: seq<string>)
    requires SetupOk(env.setup) && args != []
    ensures |args| > 1 ==> (Rewritten(env.setup, head, args) == args <==> NothingToRewrite(args))
  {
    if |args| > 1 {
      DebuggingIff(args);
      if !Debugged(args) {
        RewrittenIsLonger(env.setup, head, args);
      }
    }
  }

  // ----- what a rewritten line is -----

  predicate NamesModule(arg: string) {
    |arg| >= 2 && arg[0] == '-' && arg[1] == 'm'
  }

  /** A flag that stays with the interpreter. */
  function Stays(arg: string): seq<string> {
    if NamesModule(arg) then [] else [arg]
  }

  lemma ModuleFlagIff(arg: string)
    ensures IsModuleFlag(arg) <==> NamesModule(arg)
  {
  }

  lemma {:induction false} KeptIs(args: seq<string>, i: nat)
    requires 1 <= i <= |args|
    ensures Kept(args, i) == Collected(args[1..i], Stays)
  {
    if i > 1 {
      KeptIs(args, i - 1);
      assert args[1..i] == args[1..i - 1] + [args[i - 1]];
      CollectedNext(args[1..i - 1], args[i - 1], Stays);
      ModuleFlagIff(args[i - 1]);
    }
  }

  lemma {:induction false} ModulesAre(args: seq<string>, i: nat)
    requires 1 <= i <= |args|
    ensures ModuleFlags(args, i) == Count(args[1..i], NamesModule)
  {
    if i > 1 {
      ModulesAre(args, i - 1);
      assert args[1..i] == args[1..i - 1] + [args[i - 1]];
      CountNext(args[1..i - 1], args[i - 1], NamesModule);
      ModuleFlagIff(args[i - 1]);
    }
  }

  /** The name is that in the last -mname before `e`; there is none if no flag before `e` has one. */
  predicate LastName(args: seq<string>, e: nat, name: seq<string>)
    requires e <= |args|
  {
    if name == [] then forall k | 1 <= k < e :: !HasName(args[k])
    else |name| == 1 && exists k | 1 <= k < e ::
           args[k] == "-m" + name[0] && HasName(args[k]) && forall m | k < m < e :: !HasName(args[m])
  }

  predicate HasName(arg: string) {
    NamesModule(arg) && |arg| > 2
  }

  lemma {:induction false} ModuleNameIs(args: seq<string>, i: nat)
    requires 1 <= i <= |args|
    ensures LastName(args, i, Given(ModuleName(args, i)))
  {
    if i > 1 {
      var arg := args[i - 1];
      ModuleFlagIff(arg);
      if HasName(arg) {
        assert arg == "-m" + arg[2..];
        assert LastName(args, i, [arg[2..]]);
      } else {
        ModuleNameIs(args, i - 1);
        var name := Given(ModuleName(args, i - 1));
        assert ModuleName(args, i) == ModuleName(args, i - 1);
        if name != [] {
          var k :| 1 <= k < i - 1 && args[k] == "-m" + name[0] && HasName(args[k])
                   && forall m | k < m < i - 1 :: !HasName(args[m]);
          assert args[k] == "-m" + name[0];
        }
      }
    }
  }

  /** The debugger's command line: its path, one --module for each -m and -mname, its options and
      --file. */
  function DebuggerLine(setup: seq<string>, modules: nat): seq<string>
    requires setup != []
  {
    [setup[0]] + (Repeat("--module", modules) + (setup[1..] + ["--file"]))
  }

  /** `t` is `line` up to and with the first --file. */
  predicate UpToFile(line: seq<string>, t: seq<string>) {
    t != [] && t <= line && t[|t| - 1] == "--file" && "--file" !in t[..|t| - 1]
  }

  lemma ThroughIs(line: seq<string>)
    requires "--file" in line
    ensures UpToFile(line, Through(line, "--file"))
  {
    var i := Find(line, "--file");
    assert line[..i + 1][..i] == line[..i];
  }

  /** When patch_args rewrites a line, it is the interpreter; the flags before the first other
      argument, in order, without -m and -mname; the debugger's line up to the first --file; the name
      in the last -mname; and all from that argument on. */
  lemma RewrittenLineIs(env: Setting, args: seq<string>) returns (e: nat, name: seq<string>, debugger: seq<string>)
    requires SetupOk(env.setup) && Rewrites(env, args)
    ensures 1 <= e <= |args| && AllFlags(args, e) && (e < |args| ==> !Dash(args[e]))
    ensures LastName(args, e, name)
    ensures UpToFile(DebuggerLine(env.setup, Count(args[1..e], NamesModule)), debugger)
    ensures Patched(env, args) == [args[0]] + Collected(args[1..e], Stays) + debugger + name + args[e..]
  {
    e := FlagsEnd(args, 1);
    name := Given(ModuleName(args, e));
    debugger := Through(Debugger(env.setup, ModuleFlags(args, e)), "--file");
    KeptIs(args, e);
    ModulesAre(args, e);
    ModuleNameIs(args, e);
    DebuggerIs(env.setup, ModuleFlags(args, e));
    PatchedIsRewritten(env, args);
  }

  lemma PatchedIsRewritten(env: Setting, args: seq<string>)
    requires SetupOk(env.setup) && Rewrites(env, args)
    ensures var e := FlagsEnd(args, 1);
            Patched(env, args) ==
            [args[0]] + Kept(args, e) + Through(Debugger(env.setup, ModuleFlags(args, e)), "--file")
            + Given(ModuleName(args, e)) + args[e..]
  {
  }

  lemma DebuggerIs(setup: seq<string>, modules: nat)
    requires setup != []
    ensures UpToFile(DebuggerLine(setup, modules), Through(Debugger(setup, modules), "--file"))
  {
    Assoc([setup[0]], Repeat("--module", modules), setup[1..] + ["--file"]);
    var line := DebuggerLine(setup, modules);
    assert line[|line| - 1] == "--file";
    ThroughIs(line);
  }
}
