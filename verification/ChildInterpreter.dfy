/**
 What the interpreter makes of a command line, before and after it was rewritten: whether it
 runs the debugger, and whether the debugger then runs what the interpreter would have run.
 */
module ChildInterpreter {
  import opened Options
  import opened PatchArguments
  import opened Sequences
  import opened SetupArguments

  /** How the interpreter reads its command line: -c, -m and a lone - end its options, with or
      without more text behind the letter, and -W and -X take the next argument as their value. */
  datatype Kind = Script | Module | Code

  /** The interpreter's options, and what it runs: a script, module or code and its arguments. */
  datatype Reading = Reading(options: seq<string>, kind: Kind, line: seq<string>) | NoProgram

  predicate TakesNext(arg: string) {
    arg == "-W" || arg == "-X"
  }

  predicate EndsOptions(arg: string) {
    "-m" <= arg || "-c" <= arg || arg == "-"
  }

  /** Where the interpreter stops reading options, from position i on. */
  function OptionsEnd(args: seq<string>, i: nat): (t: nat)
    ensures t <= |args| && (i <= |args| ==> i <= t)
    ensures t < |args| ==> EndsOptions(args[t]) || !IsFlag(args[t])
    decreases |args| - i
  {
    if i >= |args| then |args|
    else if EndsOptions(args[i]) || !IsFlag(args[i]) then i
    else OptionsEnd(args, if TakesNext(args[i]) then i + 2 else i + 1)
  }

  /** What stands behind -m or -c: in the same argument or from the next one on. */
  function Following(args: seq<string>, t: nat): seq<string>
    requires t < |args| && EndsOptions(args[t])
  {
    if |args[t]| <= 2 then args[t + 1..] else [args[t][2..]] + args[t + 1..]
  }

  function Reads(args: seq<string>): Reading
    requires args != []
  {
    var t := OptionsEnd(args, 1);
    if t == |args| then NoProgram
    else if "-m" <= args[t] then Reading(args[1..t], Module, Following(args, t))
    else if "-c" <= args[t] then Reading(args[1..t], Code, Following(args, t))
    else Reading(args[1..t], Script, args[t..])
  }

  // ----- which flags the interpreter looks at -----

  /** How many arguments directly before `k` take the next one as their value. */
  function Takers(args: seq<string>, k: nat): nat
    requires k <= |args|
  {
    if k > 1 && TakesNext(args[k - 1]) then 1 + Takers(args, k - 1) else 0
  }

  /** Whether the interpreter looks at argument `k` itself, given that it gets that far. */
  predicate Looked(args: seq<string>, k: nat)
    requires k <= |args|
  {
    Takers(args, k) % 2 == 0
  }

  /** No argument before `k` that the interpreter looks at ends the options. */
  predicate Passes(args: seq<string>, k: nat)
    requires k <= |args|
  {
    forall j | 1 <= j < k && EndsOptions(args[j]) :: !Looked(args, j)
  }

  lemma LookedNext(args: seq<string>, k: nat)
    requires 1 <= k < |args|
    ensures Looked(args, k + 1) <==> !(TakesNext(args[k]) && Looked(args, k))
  {
  }

  lemma PassesNext(args: seq<string>, k: nat)
    requires 1 <= k < |args|
    ensures Passes(args, k + 1) <==> Passes(args, k) && !(EndsOptions(args[k]) && Looked(args, k))
  {
  }

  lemma {:induction false} LooksAt(args: seq<string>, k: nat)
    requires 1 <= k <= |args| && forall j | 1 <= j < k :: IsFlag(args[j])
    ensures Passes(args, k) && Looked(args, k) ==> OptionsEnd(args, 1) == OptionsEnd(args, k)
    ensures Passes(args, k) && !Looked(args, k) ==> OptionsEnd(args, 1) == OptionsEnd(args, k + 1)
    ensures !Passes(args, k) ==> OptionsEnd(args, 1) < k
  {
    if k > 1 {
      var i := k - 1;
      LooksAt(args, i);
      PassesNext(args, i);
      LookedNext(args, i);
    }
  }

  /** Behind flags, the interpreter stops exactly at an argument that ends its options or is no
      flag, if none before it ends them and it is not taken for a value. */
  lemma StopsExactlyAt(args: seq<string>, k: nat)
    requires 1 <= k < |args| && forall j | 1 <= j < k :: IsFlag(args[j])
    requires EndsOptions(args[k]) || !IsFlag(args[k])
    ensures OptionsEnd(args, 1) == k <==> Passes(args, k) && Looked(args, k)
  {
    LooksAt(args, k);
  }

  lemma {:induction false} SamePrefix(args: seq<string>, other: seq<string>, k: nat)
    requires k <= |args| && k <= |other| && args[..k] == other[..k]
    ensures Looked(args, k) <==> Looked(other, k)
    ensures Passes(args, k) <==> Passes(other, k)
  {
    forall j: nat | j < k ensures args[j] == other[j] && Takers(args, j) == Takers(other, j) {
      assert args[j] == args[..k][j] == other[..k][j];
      SameTakers(args, other, k, j);
    }
    SameTakers(args, other, k, k);
  }

  lemma {:induction false} SameTakers(args: seq<string>, other: seq<string>, k: nat, j: nat)
    requires j <= k <= |args| && k <= |other| && args[..k] == other[..k]
    ensures Takers(args, j) == Takers(other, j)
    decreases j
  {
    if j > 1 {
      assert args[j - 1] == args[..k][j - 1] == other[..k][j - 1];
      SameTakers(args, other, k, j - 1);
    }
  }

  // ----- the rewritten line -----

  /** The interpreter's own path and the flags that it keeps. */
  function Head(args: seq<string>): seq<string>
    requires |args| > 1
  {
    [args[0]] + Kept(args, FlagsEnd(args, 1))
  }

  /** Behind `head`, an argument that is no flag is what the interpreter runs exactly if it gets
      there. */
  lemma RunsNext(head: seq<string>, script: string, rest: seq<string>)
    requires head != [] && (forall j | 1 <= j < |head| :: IsFlag(head[j])) && !IsFlag(script)
    ensures Reads(head + ([script] + rest)) == Reading(head[1..], Script, [script] + rest) <==>
            Passes(head, |head|) && Looked(head, |head|)
  {
    var r := head + ([script] + rest);
    var k := |head|;
    assert r[..k] == head == head[..k];
    SamePrefix(head, r, k);
    StopsExactlyAt(r, k);
    assert r[k] == script && r[k..] == [script] + rest;
    assert r[1..k] == head[1..];
    var t := OptionsEnd(r, 1);
    assert t != k ==> |r[1..t]| != |head[1..]|;
  }

  lemma HeadIsFlags(args: seq<string>)
    requires |args| > 1
    ensures forall j | 1 <= j < |Head(args)| :: IsFlag(Head(args)[j])
  {
    KeptAreFlags(args, FlagsEnd(args, 1));
  }

  lemma PatchedIs(env: Setting, args: seq<string>)
    requires SetupOk(env.setup) && "--file" !in env.setup && Rewrites(env, args)
    ensures Patched(env, args) == Head(args) + ([env.setup[0]] + DebuggerReads(env.setup[1..], args))
  {
    RewrittenIs(env.setup, args);
  }

  /** The interpreter runs the debugger exactly if, of the flags that it keeps, none ends its
      options and the last one does not take the debugger for its value. */
  lemma DebuggerIsRun(env: Setting, args: seq<string>)
    requires SetupOk(env.setup) && "--file" !in env.setup && Rewrites(env, args)
    ensures Reads(Patched(env, args)) ==
            Reading(Head(args)[1..], Script, [env.setup[0]] + DebuggerReads(env.setup[1..], args)) <==>
            Passes(Head(args), |Head(args)|) && Looked(Head(args), |Head(args)|)
  {
    PatchedIs(env, args);
    HeadIsFlags(args);
    RunsNext(Head(args), env.setup[0], DebuggerReads(env.setup[1..], args));
  }

  // ----- what the source takes for the program, and what the interpreter takes for it -----

  predicate NamesModule(args: seq<string>)
    requires |args| > 1
  {
    var e := FlagsEnd(args, 1);
    e > 1 && IsModuleFlag(args[e - 1])
  }

  /** Where the flags end, the one that names a module left out. */
  function NamedAt(args: seq<string>): (n: nat)
    requires |args| > 1
    ensures 1 <= n <= FlagsEnd(args, 1)
  {
    FlagsEnd(args, 1) - if NamesModule(args) then 1 else 0
  }

  /** -m or -mname comes last among the flags, or not at all; the interpreter gets to what is
      behind them; and there is a program. */
  predicate Understood(args: seq<string>)
    requires |args| > 1
  {
    var n := NamedAt(args);
    && (forall j | 1 <= j < n :: !IsModuleFlag(args[j]))
    && Passes(args, n) && Looked(args, n)
    && Program(args) != []
  }

  /** Both take the same for the interpreter's options, and the same for the program. */
  predicate Agrees(args: seq<string>)
    requires |args| > 1
  {
    var direct := Reads(args);
    && direct.Reading? && direct.kind != Code
    && direct.options == Kept(args, FlagsEnd(args, 1))
    && direct.line == Program(args) && direct.line != []
  }

  lemma {:induction false} KeptAll(args: seq<string>, n: nat)
    requires 1 <= n <= |args| && forall j | 1 <= j < n :: !IsModuleFlag(args[j])
    ensures Kept(args, n) == args[1..n] && ModuleFlags(args, n) == 0 && ModuleName(args, n) == None
  {
    if n > 1 {
      KeptAll(args, n - 1);
      assert args[1..n] == args[1..n - 1] + [args[n - 1]];
    }
  }

  lemma {:induction false} KeptFewer(args: seq<string>, n: nat)
    requires 1 <= n <= |args|
    ensures |Kept(args, n)| <= n - 1
    ensures |Kept(args, n)| == n - 1 ==> forall j | 1 <= j < n :: !IsModuleFlag(args[j])
    ensures forall x <- Kept(args, n) :: !IsModuleFlag(x)
    ensures ModuleName(args, n).Some? ==> exists j | 1 <= j < n :: IsModuleFlag(args[j])
  {
    if n > 1 {
      KeptFewer(args, n - 1);
    }
  }

  lemma {:induction false} NameStays(args: seq<string>, j: nat, n: nat)
    requires 1 <= j < n <= |args| && IsModuleFlag(args[j]) && args[j] != "-m"
    ensures ModuleName(args, n).Some?
    decreases n
  {
    if j < n - 1 {
      NameStays(args, j, n - 1);
    }
  }

  lemma UnderstoodStops(args: seq<string>)
    requires |args| > 1 && Understood(args)
    ensures OptionsEnd(args, 1) == NamedAt(args) && NamedAt(args) < |args|
  {
    KeptBefore(args);
    StopsExactlyAt(args, NamedAt(args));
  }

  lemma UnderstoodAgrees(args: seq<string>)
    requires |args| > 1 && Understood(args)
    ensures Agrees(args) && OptionsEnd(args, 1) == NamedAt(args) && Head(args) == args[..NamedAt(args)]
    ensures Reads(args).kind == (if NamesModule(args) then Module else Script)
    ensures ModuleFlags(args, FlagsEnd(args, 1)) == if NamesModule(args) then 1 else 0
  {
    UnderstoodStops(args);
    KeptBefore(args);
    assert args[..NamedAt(args)] == [args[0]] + args[1..NamedAt(args)];
    LineIsProgram(args, Given(ModuleName(args, FlagsEnd(args, 1))));
  }

  lemma LineIsProgram(args: seq<string>, given: seq<string>)
    requires |args| > 1 && OptionsEnd(args, 1) == NamedAt(args) < |args|
    requires given == if NamesModule(args) && args[NamedAt(args)] != "-m" then [args[NamedAt(args)][2..]] else []
    requires given + args[FlagsEnd(args, 1)..] != []
    ensures var r := Reads(args);
            && r.Reading? && r.line == given + args[FlagsEnd(args, 1)..]
            && r.options == args[1..NamedAt(args)]
            && r.kind == if NamesModule(args) then Module else Script
  {
    var n := NamedAt(args);
    if NamesModule(args) {
      ModuleLineIs(args, n, given);
    } else {
      ScriptLineIs(args, n);
      assert given + args[n..] == args[n..];
    }
  }

  lemma ModuleLineIs(args: seq<string>, n: nat, given: seq<string>)
    requires args != [] && OptionsEnd(args, 1) == n < |args| && IsModuleFlag(args[n])
    requires given == if args[n] == "-m" then [] else [args[n][2..]]
    ensures Reads(args) == Reading(args[1..n], Module, given + args[n + 1..])
  {
    assert args[n] != "-m" ==> |args[n]| > 2;
  }

  lemma ScriptLineIs(args: seq<string>, n: nat)
    requires args != [] && OptionsEnd(args, 1) == n < |args| && !IsFlag(args[n])
    ensures Reads(args) == Reading(args[1..n], Script, args[n..])
  {
  }

  lemma KeptBefore(args: seq<string>)
    requires |args| > 1 && forall j | 1 <= j < NamedAt(args) :: !IsModuleFlag(args[j])
    ensures var e, n := FlagsEnd(args, 1), NamedAt(args);
            && Kept(args, e) == args[1..n]
            && ModuleFlags(args, e) == (if NamesModule(args) then 1 else 0)
            && Given(ModuleName(args, e)) == if NamesModule(args) && args[n] != "-m" then [args[n][2..]] else []
  {
    KeptAll(args, NamedAt(args));
  }

  /** What the interpreter stops at is not among the flags before it. */
  lemma AgreesNoModule(args: seq<string>)
    requires |args| > 1 && Agrees(args)
    ensures var t := OptionsEnd(args, 1);
            && 1 <= t <= FlagsEnd(args, 1)
            && (forall j | 1 <= j < t :: !IsModuleFlag(args[j]))
            && Kept(args, FlagsEnd(args, 1)) == args[1..t]
            && Passes(args, t) && Looked(args, t)
  {
    var t, e := OptionsEnd(args, 1), FlagsEnd(args, 1);
    KeptFewer(args, e);
    assert |args[1..t]| == t - 1;
    forall j | 1 <= j < t ensures !IsModuleFlag(args[j]) {
      assert args[j] == args[1..t][j - 1];
    }
    StopsExactlyAt(args, t);
  }

  lemma AgreesUnderstood(args: seq<string>)
    requires |args| > 1 && Agrees(args)
    ensures Understood(args)
  {
    var t, e := OptionsEnd(args, 1), FlagsEnd(args, 1);
    AgreesNoModule(args);
    KeptFewer(args, e);
    if t < e {
      StopsAtModule(args);
    }
  }

  /** If the interpreter stops before the flags end, it stops at the last of them, which names
      the module. */
  lemma StopsAtModule(args: seq<string>)
    requires |args| > 1 && Agrees(args) && OptionsEnd(args, 1) < FlagsEnd(args, 1)
    ensures OptionsEnd(args, 1) == FlagsEnd(args, 1) - 1 && NamesModule(args)
  {
    var t, e := OptionsEnd(args, 1), FlagsEnd(args, 1);
    AgreesNoModule(args);
    KeptAll(args, t);
    LineLength(args);
    ProgramLength(args);
    if "-m" <= args[t] && args[t] != "-m" {
      NameStays(args, t, e);
    } else if e == t + 2 {
      SecondModule(args, t);
    }
  }

  lemma ProgramLength(args: seq<string>)
    requires |args| > 1
    ensures var e := FlagsEnd(args, 1);
            |Program(args)| == |args| - e + if ModuleName(args, e).Some? then 1 else 0
  {
  }

  lemma LineLength(args: seq<string>)
    requires |args| > 1 && Reads(args).Reading? && Reads(args).kind != Code
    ensures var t := OptionsEnd(args, 1);
            |Reads(args).line| == |args| - t - if args[t] == "-m" then 1 else 0
  {
  }

  /** A second -m, or -mname, right behind -m does not name what the interpreter runs. */
  lemma SecondModule(args: seq<string>, t: nat)
    requires 1 <= t && t + 2 <= |args| && FlagsEnd(args, 1) == t + 2
    requires ModuleName(args, t) == None && Kept(args, t + 2) == Kept(args, t) && args[t] in ["-m", "-"]
    ensures args[t] == "-m" ==> Program(args) != args[t + 1..]
    ensures args[t] == "-" ==> Program(args) != args[t..]
  {
    assert |Kept(args, t + 2)| == |Kept(args, t + 1)| + if IsModuleFlag(args[t + 1]) then 0 else 1;
    var name := ModuleName(args, t + 2);
    assert ModuleName(args, t + 1) == None;
    if name.Some? {
      assert Given(name) == [args[t + 1][2..]];
      assert Program(args)[0] == args[t + 1][2..];
      assert |args[t + 1][2..]| == |args[t + 1]| - 2;
    } else {
      assert |Program(args)| == |args| - t - 2;
    }
  }

  // ----- the whole -----

  /** The interpreter keeps its options and runs the debugger, and the debugger runs, with its
      own options, what the interpreter would have run, in the same way. */
  predicate RunsTheSame(env: Setting, handlers: seq<Handler>, setup: Setup, args: seq<string>)
    requires |args| > 1 && SetupOk(env.setup)
  {
    var r := Patched(env, args);
    var direct := Reads(args);
    && direct.Reading? && direct.kind != Code && direct.line != []
    && r != []
    && var now := Reads(r);
       && now.Reading? && now.kind == Script && now.options == direct.options
       && now.line != [] && now.line[0] == env.setup[0]
       && var p := Read(handlers, now.line[1..], NOTHING);
          && p.Parsed? && p.file == direct.line[0] && p.argv == direct.line
          && ("module" in p.setup.flags <==> direct.kind == Module)
          && p.setup.values == setup.values && p.setup.flags - {"module"} == setup.flags - {"module"}
  }

  /** What the debugger reads behind its own path. */
  lemma DebuggerParses(handlers: seq<Handler>, setup: Setup, file: string, args: seq<string>)
    requires HandlersOk(handlers) && Accepted(handlers, setup) && |args| > 1
    ensures Read(handlers, DebuggerReads(([file] + ToArgv(handlers, setup))[1..], args), NOTHING) ==
            if Program(args) == [] then Failed
            else Parsed(Setup(setup.values,
                              setup.flags + (if ModuleFlags(args, FlagsEnd(args, 1)) == 0 then {} else {"module"}),
                              "", false),
                        Program(args)[0], Program(args))
  {
    assert ([file] + ToArgv(handlers, setup))[1..] == ToArgv(handlers, setup);
    ReadsBack(handlers, setup, Repeat("--module", ModuleFlags(args, FlagsEnd(args, 1))), Program(args));
  }

  /** An interpreter that keeps its options and runs the debugger stops at the debugger's place
      in the line. */
  lemma StopsAtDebugger(head: seq<string>, file: string, rest: seq<string>, args: seq<string>, t: nat)
    requires head != [] && (forall j | 1 <= j < |head| :: IsFlag(head[j])) && !IsFlag(file)
    requires |args| > 1 && 1 <= t <= |args| && |head| <= FlagsEnd(args, 1)
    requires FlagsEnd(args, 1) < |args| ==> args[FlagsEnd(args, 1)] != file
    requires var now := Reads(head + ([file] + rest));
             now.Reading? && now.kind == Script && now.options == args[1..t] && now.line != [] && now.line[0] == file
    ensures Reads(head + ([file] + rest)) == Reading(head[1..], Script, [file] + rest)
  {
    var r := head + ([file] + rest);
    var u := OptionsEnd(r, 1);
    var o := Reads(r).options;
    assert forall j | 0 <= j < |head| :: r[j] == head[j];
    assert r[|head|] == file;
    assert |o| == u - 1 && |args[1..t]| == t - 1;
    assert forall j | 1 <= j <= |o| :: r[j] == o[j - 1] && args[j] == o[j - 1];
    assert |head| > |o|;
    assert r[u..][0] == r[u];
    assert u == |head|;
    assert r[u..] == [file] + rest && r[1..u] == head[1..];
  }

  /** The child runs the same program in the same way if, and only if, the command line is
      understood and a debugger that was itself told --module is to run a module. */
  lemma RunsTheSameIff(env: Setting, handlers: seq<Handler>, setup: Setup, file: string, args: seq<string>)
    requires HandlersOk(handlers) && Accepted(handlers, setup)
    requires env.setup == [file] + ToArgv(handlers, setup) && SetupOk(env.setup) && "--file" !in env.setup
    requires Rewrites(env, args)
    ensures RunsTheSame(env, handlers, setup, args) <==>
            Understood(args) && ("module" in setup.flags ==> NamesModule(args))
  {
    if RunsTheSame(env, handlers, setup, args) {
      SameIsUnderstood(env, handlers, setup, file, args);
    } else if Understood(args) && ("module" in setup.flags ==> NamesModule(args)) {
      UnderstoodIsSame(env, handlers, setup, file, args);
    }
  }

  lemma SameIsUnderstood(env: Setting, handlers: seq<Handler>, setup: Setup, file: string, args: seq<string>)
    requires HandlersOk(handlers) && Accepted(handlers, setup)
    requires env.setup == [file] + ToArgv(handlers, setup) && SetupOk(env.setup) && "--file" !in env.setup
    requires Rewrites(env, args) && RunsTheSame(env, handlers, setup, args)
    ensures Understood(args) && ("module" in setup.flags ==> NamesModule(args))
  {
    var rest := DebuggerReads(env.setup[1..], args);
    PatchedIs(env, args);
    HeadIsFlags(args);
    KeptFewer(args, FlagsEnd(args, 1));
    StopsAtDebugger(Head(args), file, rest, args, OptionsEnd(args, 1));
    assert ([file] + rest)[1..] == rest;
    DebuggerParses(handlers, setup, file, args);
    assert Head(args)[1..] == Kept(args, FlagsEnd(args, 1));
    AgreesUnderstood(args);
    UnderstoodAgrees(args);
  }

  /** The rewritten line as the interpreter reads it, when the original is understood. */
  lemma UnderstoodReads(env: Setting, args: seq<string>)
    requires SetupOk(env.setup) && "--file" !in env.setup && Rewrites(env, args) && Understood(args)
    ensures Patched(env, args) != []
    ensures Reads(Patched(env, args)) ==
            Reading(Kept(args, FlagsEnd(args, 1)), Script, [env.setup[0]] + DebuggerReads(env.setup[1..], args))
  {
    var n := NamedAt(args);
    UnderstoodAgrees(args);
    assert Head(args)[..n] == args[..n];
    SamePrefix(Head(args), args, n);
    DebuggerIsRun(env, args);
    PatchedIs(env, args);
    assert Head(args)[1..] == Kept(args, FlagsEnd(args, 1));
  }

  lemma UnderstoodIsSame(env: Setting, handlers: seq<Handler>, setup: Setup, file: string, args: seq<string>)
    requires HandlersOk(handlers) && Accepted(handlers, setup)
    requires env.setup == [file] + ToArgv(handlers, setup) && SetupOk(env.setup) && "--file" !in env.setup
    requires Rewrites(env, args) && Understood(args) && ("module" in setup.flags ==> NamesModule(args))
    ensures RunsTheSame(env, handlers, setup, args)
  {
    var rest := DebuggerReads(env.setup[1..], args);
    UnderstoodAgrees(args);
    UnderstoodReads(env, args);
    assert ([file] + rest)[1..] == rest;
    DebuggerParses(handlers, setup, file, args);
  }

  // ----- two kinds of command line that are not understood -----

  predicate TakesWarning(args: seq<string>) {
    |args| == 4 && args[1] == "-W" && !IsFlag(args[2]) && !IsFlag(args[3])
  }

  /** python -W ignore a.py, and the like. */
  predicate IsWarningLine(env: Setting, args: seq<string>) {
    && TakesWarning(args)
    && env.isPython(args[0]) && args[0] != "-c"
    && !IsManaged(args[2]) && !IsArchive(args[3])
  }

  /** The value of -W is taken for the program; and the interpreter takes the debugger for the
      value of -W, so it runs something else. */
  lemma ValueIsTakenForProgram(env: Setting, args: seq<string>)
    requires SetupOk(env.setup) && "--file" !in env.setup && IsWarningLine(env, args)
    ensures Rewrites(env, args) && !Understood(args)
    ensures Reads(args) == Reading(["-W", args[2]], Script, [args[3]]) && Program(args) == [args[2], args[3]]
    ensures var r := Patched(env, args);
            && r == [args[0], "-W"] + env.setup + ["--file", args[2], args[3]]
            && OptionsEnd(r, 1) > 2 && r[2] == env.setup[0]
  {
    WarningRewrites(env, args);
    WarningReads(args);
    WarningKept(args);
    WarningPatched(env, args);
    TakesDebugger(args[0], env.setup, ["--file", args[2], args[3]]);
  }

  lemma WarningPatched(env: Setting, args: seq<string>)
    requires SetupOk(env.setup) && "--file" !in env.setup && Rewrites(env, args) && TakesWarning(args)
    ensures Patched(env, args) == [args[0], "-W"] + env.setup + ["--file", args[2], args[3]]
  {
    WarningKept(args);
    PatchedIs(env, args);
    WarningLine([args[0], "-W"], env.setup, [args[2], args[3]]);
    assert ["--file"] + [args[2], args[3]] == ["--file", args[2], args[3]];
  }

  lemma TakesDebugger(python: string, setup: seq<string>, rest: seq<string>)
    requires setup != []
    ensures var r := [python, "-W"] + setup + rest; OptionsEnd(r, 1) > 2 && r[2] == setup[0]
  {
    SkipsValue([python, "-W"] + setup + rest, 1);
  }

  lemma SkipsValue(r: seq<string>, i: nat)
    requires i + 1 < |r| && r[i] == "-W"
    ensures OptionsEnd(r, i) == OptionsEnd(r, i + 2) > i + 1 && ProgramAt(r, i) == ProgramAt(r, i + 2)
  {
    WIsFlag();
  }

  lemma WIsFlag()
    ensures IsFlag("-W") && !EndsOptions("-W") && !IsModuleFlag("-W")
  {
    assert "-W"[1] == 'W';
  }

  lemma WarningLine(head: seq<string>, setup: seq<string>, program: seq<string>)
    requires setup != []
    ensures head + ([setup[0]] + (Repeat("--module", 0) + (setup[1..] + (["--file"] + program)))) ==
            head + setup + (["--file"] + program)
  {
    assert [setup[0]] + setup[1..] == setup;
    assert Repeat("--module", 0) + (setup[1..] + (["--file"] + program)) == setup[1..] + (["--file"] + program);
    assert [setup[0]] + (setup[1..] + (["--file"] + program)) == setup + (["--file"] + program);
  }

  lemma WarningRewrites(env: Setting, args: seq<string>)
    requires IsWarningLine(env, args)
    ensures Rewrites(env, args)
  {
    WarningProgram(args);
    NoC(args);
  }

  lemma WarningProgram(args: seq<string>)
    requires TakesWarning(args) && args[0] != "-c"
    ensures FlagsEnd(args, 1) == 2 && ProgramAt(args, 1) == 3 && "-c" !in args
  {
    WIsFlag();
    FlagsEndIs(args, 2);
    SkipsValue(args, 1);
    assert IsFlag("-c");
    forall x <- args ensures x != "-c" {
    }
  }

  lemma NoC(args: seq<string>)
    requires args != [] && "-c" !in args
    ensures COption(args) == -1
  {
  }

  lemma WarningReads(args: seq<string>)
    requires TakesWarning(args)
    ensures Reads(args) == Reading(["-W", args[2]], Script, [args[3]])
  {
    SkipsValue(args, 1);
    assert OptionsEnd(args, 3) == 3;
    assert args[1..3] == ["-W", args[2]] && args[3..] == [args[3]];
  }

  lemma WarningKept(args: seq<string>)
    requires TakesWarning(args)
    ensures Head(args) == [args[0], "-W"] && ModuleFlags(args, 2) == 0 && FlagsEnd(args, 1) == 2
    ensures Program(args) == [args[2], args[3]] && !Understood(args)
  {
    WIsFlag();
    FlagsEndIs(args, 2);
    assert Kept(args, 1) == [] && Kept(args, 2) == ["-W"];
    assert ModuleFlags(args, 1) == 0 && ModuleName(args, 1) == None;
    assert args[2..] == [args[2], args[3]];
    assert Takers(args, 1) == 0 && Takers(args, 2) == 1;
  }

  /** python -mmod -v, and the like. */
  predicate IsModuleLine(env: Setting, args: seq<string>) {
    && |args| == 3 && env.isPython(args[0]) && args[0] != "-c"
    && IsModuleFlag(args[1]) && |args[1]| > 2
    && IsFlag(args[2]) && !IsModuleFlag(args[2]) && args[2] != "-c"
  }

  /** A flag behind -mname is one for the module; it becomes one for the interpreter, and the
      module does not get it. */
  lemma ModuleLosesFlag(env: Setting, args: seq<string>)
    requires SetupOk(env.setup) && "--file" !in env.setup && IsModuleLine(env, args)
    ensures Rewrites(env, args) && !Understood(args)
    ensures Reads(args) == Reading([], Module, [args[1][2..], args[2]]) && Program(args) == [args[1][2..]]
    ensures Patched(env, args) == [args[0], args[2]]
            + ([env.setup[0], "--module"] + (env.setup[1..] + ["--file", args[1][2..]]))
  {
    ModuleRewrites(env, args);
    ModuleKept(env, args);
    PatchedIs(env, args);
    ModulePatched(env.setup, [args[1][2..]]);
  }

  lemma ModulePatched(setup: seq<string>, program: seq<string>)
    requires setup != []
    ensures [setup[0]] + (Repeat("--module", 1) + (setup[1..] + (["--file"] + program))) ==
            [setup[0], "--module"] + (setup[1..] + (["--file"] + program))
  {
    assert Repeat("--module", 1) == ["--module"] + Repeat("--module", 0) == ["--module"];
  }

  lemma ModuleRewrites(env: Setting, args: seq<string>)
    requires IsModuleLine(env, args)
    ensures Rewrites(env, args) && FlagsEnd(args, 1) == 3
    ensures Reads(args) == Reading([], Module, [args[1][2..], args[2]])
  {
    assert IsFlag(args[1]) && args[1] != "-c" by {
      assert args[1][1] == 'm';
    }
    assert FlagsEnd(args, 1) == FlagsEnd(args, 2) == FlagsEnd(args, 3) == 3;
    NoC(args);
    assert ProgramAt(args, 1) == ProgramAt(args, 2);
    assert ProgramAt(args, 2) == ProgramAt(args, if TakesValue(args[2]) then 4 else 3) == 3;
    assert OptionsEnd(args, 1) == 1;
    assert args[1..1] == [] && args[2..] == [args[2]];
  }

  lemma ModuleKept(env: Setting, args: seq<string>)
    requires IsModuleLine(env, args) && FlagsEnd(args, 1) == 3
    ensures Head(args) == [args[0], args[2]] && ModuleFlags(args, 3) == 1
    ensures Program(args) == [args[1][2..]] && !Understood(args)
  {
    assert Kept(args, 1) == [] && Kept(args, 2) == [] && Kept(args, 3) == [args[2]];
    assert ModuleFlags(args, 1) == 0 && ModuleFlags(args, 2) == 1;
    assert ModuleName(args, 3) == ModuleName(args, 2) == Some(args[1][2..]);
  }
}
