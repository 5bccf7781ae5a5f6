/**
 The debugger's own command line: written for a child process by setup_to_argv and read there
 by process_command_line.
 */
module SetupArguments {
  import opened Options
  import Framing

  datatype Kind = Flag | Text | Number

  /** An accepted option `--name`. A flag has no value; a number is 0 by default. */
  datatype Handler = Handler(name: string, kind: Kind)

  /** The options that differ from their defaults, numbers as their decimal text; the mode of Qt
      support; and whether breakpoints are traced (DEBUG_TRACE_BREAKPOINTS and DEBUG_TRACE_LEVEL). */
  datatype Setup = Setup(values: map<string, string>, flags: set<string>, qtSupport: string, tracing: bool)

  datatype Parsed = Parsed(setup: Setup, file: string, argv: seq<string>) | Failed

  const NOTHING := Setup(map[], {}, "", false)

  function Dashed(name: string): (arg: string)
    ensures |arg| == |name| + 2 && arg[2..] == name
  {
    "--" + name
  }

  predicate DistinctNames(handlers: seq<Handler>) {
    forall i, j | 0 <= i < j < |handlers| :: handlers[i].name != handlers[j].name
  }

  /** ACCEPTED_ARG_HANDLERS: distinct names, among them `module`; --file has no handler. */
  predicate HandlersOk(handlers: seq<Handler>) {
    && DistinctNames(handlers)
    && (forall h <- handlers :: h.name != "file")
    && Handler("module", Flag) in handlers
  }

  function Emit(h: Handler, setup: Setup): seq<string> {
    if !h.kind.Flag? then
      if h.name in setup.values then [Dashed(h.name), setup.values[h.name]] else []
    else
      if h.name in setup.flags then [Dashed(h.name)] else []
  }

  function ToArgv(handlers: seq<Handler>, setup: Setup): seq<string> {
    if handlers == [] then [] else Emit(handlers[0], setup) + ToArgv(handlers[1..], setup)
  }

  lemma {:induction false} ToArgvNext(handlers: seq<Handler>, h: Handler, setup: Setup)
    ensures ToArgv(handlers + [h], setup) == ToArgv(handlers, setup) + Emit(h, setup)
    decreases |handlers|
  {
    if handlers == [] {
      assert handlers + [h] == [h];
    } else {
      assert (handlers + [h])[1..] == handlers[1..] + [h];
      ToArgvNext(handlers[1..], h, setup);
    }
  }

  method SetupToArgv(handlers: seq<Handler>, pydevdFile: string, setup: Setup) returns (ret: seq<string>)
    ensures ret == [pydevdFile] + ToArgv(handlers, setup)
  {
    ret := [pydevdFile];
    for i := 0 to |handlers|
      invariant ret == [pydevdFile] + ToArgv(handlers[..i], setup)
    {
      var h := handlers[i];
      assert handlers[..i + 1] == handlers[..i] + [h];
      ToArgvNext(handlers[..i], h, setup);
      if !h.kind.Flag? {
        if h.name in setup.values {
          ret := ret + [Dashed(h.name)];
          ret := ret + [setup.values[h.name]];
        }
      } else if h.name in setup.flags {
        ret := ret + [Dashed(h.name)];
      }
    }
    assert handlers[..|handlers|] == handlers;
  }

  function Lookup(handlers: seq<Handler>, arg: string): (r: Option<Handler>)
    ensures r.Some? ==> r.value in handlers && Dashed(r.value.name) == arg
  {
    if handlers == [] then None
    else if Dashed(handlers[0].name) == arg then Some(handlers[0])
    else Lookup(handlers[1..], arg)
  }

  lemma {:induction false} LookupFinds(handlers: seq<Handler>, h: Handler)
    requires DistinctNames(handlers) && h in handlers
    ensures Lookup(handlers, Dashed(h.name)) == Some(h)
    decreases |handlers|
  {
    if Dashed(handlers[0].name) == Dashed(h.name) {
      assert handlers[0].name == Dashed(handlers[0].name)[2..] == h.name;
    } else {
      LookupFinds(handlers[1..], h);
    }
  }

  /** int(v) as text */
  function NumberText(v: string): Option<string> {
    var r := Framing.ParseInt(v);
    if r.None? then None
    else if r.value < 0 then Some("-" + Framing.Decimal(-r.value))
    else Some(Framing.Decimal(r.value))
  }

  /** The value as it is kept; None is a ValueError. */
  function Convert(h: Handler, v: string): Option<string> {
    if h.kind.Number? then NumberText(v) else Some(v)
  }

  function Accept(h: Handler, v: string, acc: Setup): Setup {
    if h.kind.Flag? then acc.(flags := acc.flags + {h.name})
    else if h.kind.Number? && v == "0" then acc.(values := acc.values - {h.name})
    else acc.(values := acc.values[h.name := v])
  }

  const QT_MODES := ["none", "auto", "pyqt5", "pyqt4", "pyside"]

  /** The mode that --qt-support or --qt-support=mode asks for; None is a ValueError. */
  function QtMode(arg: string): Option<string> {
    if arg == "--qt-support" then Some("auto")
    else if "--qt-support=" <= arg && arg[|"--qt-support="|..] in QT_MODES then
      Some(if arg[|"--qt-support="|..] == "none" then "" else arg[|"--qt-support="|..])
    else None
  }

  function SetDebug(acc: Setup): Setup {
    acc.(flags := acc.flags + {"DEBUG_RECORD_SOCKET_READS"}, tracing := true)
  }

  /** Reads the options in `argv`, on top of those in `acc`. */
  function Read(handlers: seq<Handler>, argv: seq<string>, acc: Setup): Parsed
    decreases |argv|
  {
    if argv == [] then Parsed(acc, "", [])
    else
      var h := Lookup(handlers, argv[0]);
      if h.Some? && !h.value.kind.Flag? then
        if |argv| == 1 || Convert(h.value, argv[1]).None? then Failed
        else Read(handlers, argv[2..], Accept(h.value, Convert(h.value, argv[1]).value, acc))
      else if h.Some? then Read(handlers, argv[1..], Accept(h.value, "", acc))
      else if "--qt-support" <= argv[0] then
        if QtMode(argv[0]).None? then Failed else Read(handlers, argv[1..], acc.(qtSupport := QtMode(argv[0]).value))
      else if argv[0] == "--file" then if |argv| > 1 then Parsed(acc, argv[1], argv[1..]) else Failed
      else if argv[0] == "--DEBUG" then Read(handlers, argv[1..], SetDebug(acc))
      else Failed
  }

  /** process_command_line. The list is shortened as it is read; what is left of it is the
      program's own. */
  method ProcessCommandLine(handlers: seq<Handler>, args: seq<string>) returns (r: Parsed)
    requires args != []
    ensures r == Read(handlers, args[1..], NOTHING)
  {
    var argv := args[1..];
    var setup := NOTHING;
    var file := "";
    var i := 0;
    while i < |argv|
      invariant i == 0 || i == |argv|
      invariant i == 0 ==> file == "" && Read(handlers, argv, setup) == Read(handlers, args[1..], NOTHING)
      invariant i > 0 ==> Parsed(setup, file, argv) == Read(handlers, args[1..], NOTHING)
      decreases |argv| - i
    {
      var handler := Lookup(handlers, argv[i]);
      if handler.Some? {
        argv := argv[1..];
        if handler.value.kind.Flag? {
          setup := Accept(handler.value, "", setup);
        } else {
          if |argv| == 0 || Convert(handler.value, argv[i]).None? {
            return Failed; // IndexError or ValueError
          }
          setup := Accept(handler.value, Convert(handler.value, argv[i]).value, setup);
          argv := argv[1..];
        }
      } else if "--qt-support" <= argv[i] {
        if QtMode(argv[i]).None? {
          return Failed; // ValueError
        }
        setup := setup.(qtSupport := QtMode(argv[i]).value);
        argv := argv[1..];
      } else if argv[i] == "--file" {
        argv := argv[1..];
        if |argv| == 0 {
          return Failed; // IndexError
        }
        file := argv[i];
        i := |argv|;
      } else if argv[i] == "--DEBUG" {
        argv := argv[1..];
        setup := SetDebug(setup);
      } else {
        return Failed; // ValueError
      }
    }
    return Parsed(setup, file, argv);
  }

  // ----- reading what was written -----

  function AddAll(handlers: seq<Handler>, setup: Setup, acc: Setup): Setup {
    if handlers == [] then acc else AddAll(handlers[1..], setup, Add(handlers[0], setup, acc))
  }

  function Add(h: Handler, setup: Setup, acc: Setup): Setup {
    if h.kind.Flag? then
      if h.name in setup.flags then acc.(flags := acc.flags + {h.name}) else acc
    else
      if h.name in setup.values then acc.(values := acc.values[h.name := setup.values[h.name]]) else acc
  }

  /** The value of a number is written as a number, and is not the default. */
  predicate NumberOk(h: Handler, setup: Setup) {
    h.kind.Number? && h.name in setup.values ==>
      setup.values[h.name] != "0" && NumberText(setup.values[h.name]) == Some(setup.values[h.name])
  }

  lemma {:induction false} ReadEmitted(all: seq<Handler>, handlers: seq<Handler>, setup: Setup, acc: Setup,
                                       rest: seq<string>)
    requires HandlersOk(all) && (forall h <- handlers :: h in all) && forall h <- handlers :: NumberOk(h, setup)
    ensures Read(all, ToArgv(handlers, setup) + rest, acc) == Read(all, rest, AddAll(handlers, setup, acc))
    decreases |handlers|
  {
    if handlers == [] {
      assert ToArgv(handlers, setup) + rest == rest;
    } else {
      var h := handlers[0];
      var tail := ToArgv(handlers[1..], setup) + rest;
      assert ToArgv(handlers, setup) + rest == Emit(h, setup) + tail;
      ReadOne(all, h, setup, acc, tail);
      assert forall k <- handlers[1..] :: k in handlers;
      ReadEmitted(all, handlers[1..], setup, Add(h, setup, acc), rest);
    }
  }

  lemma ReadOne(all: seq<Handler>, h: Handler, setup: Setup, acc: Setup, tail: seq<string>)
    requires HandlersOk(all) && h in all && NumberOk(h, setup)
    ensures Read(all, Emit(h, setup) + tail, acc) == Read(all, tail, Add(h, setup, acc))
  {
    LookupFinds(all, h);
    var argv := Emit(h, setup) + tail;
    if Emit(h, setup) == [] {
      assert argv == tail;
    } else {
      assert argv[0] == Dashed(h.name) && argv[|Emit(h, setup)|..] == tail;
    }
  }

  /** Every option in `setup` is an accepted one, and numbers are numbers other than 0. */
  predicate Accepted(handlers: seq<Handler>, setup: Setup) {
    && (forall name <- setup.values :: Handler(name, Text) in handlers || Handler(name, Number) in handlers)
    && (forall name <- setup.flags :: Handler(name, Flag) in handlers)
    && (forall h <- handlers :: NumberOk(h, setup))
  }

  predicate Written(handlers: seq<Handler>, setup: Setup, name: string) {
    name in setup.values && exists h <- handlers :: h.name == name && !h.kind.Flag?
  }

  lemma WrittenNext(handlers: seq<Handler>, setup: Setup, name: string)
    requires handlers != []
    ensures Written(handlers, setup, name) <==>
            (name in setup.values && handlers[0].name == name && !handlers[0].kind.Flag?)
              || Written(handlers[1..], setup, name)
  {
    assert forall h :: h in handlers <==> h == handlers[0] || h in handlers[1..];
  }

  lemma {:induction false} AddAllValues(handlers: seq<Handler>, setup: Setup, acc: Setup, name: string)
    ensures var values := AddAll(handlers, setup, acc).values;
            && (name in values <==> name in acc.values || Written(handlers, setup, name))
            && (name in values ==>
                  values[name] == if Written(handlers, setup, name) then setup.values[name] else acc.values[name])
    decreases |handlers|
  {
    if handlers != [] {
      AddAllValues(handlers[1..], setup, Add(handlers[0], setup, acc), name);
      WrittenNext(handlers, setup, name);
    }
  }

  lemma {:induction false} AddAllFlags(handlers: seq<Handler>, setup: Setup, acc: Setup, name: string)
    ensures name in AddAll(handlers, setup, acc).flags <==>
            name in acc.flags || (name in setup.flags && Handler(name, Flag) in handlers)
    decreases |handlers|
  {
    if handlers != [] {
      AddAllFlags(handlers[1..], setup, Add(handlers[0], setup, acc), name);
      assert Handler(name, Flag) in handlers <==>
             Handler(name, Flag) == handlers[0] || Handler(name, Flag) in handlers[1..];
    }
  }

  lemma {:induction false} AddAllRest(handlers: seq<Handler>, setup: Setup, acc: Setup)
    ensures AddAll(handlers, setup, acc).qtSupport == acc.qtSupport
            && AddAll(handlers, setup, acc).tracing == acc.tracing
    decreases |handlers|
  {
    if handlers != [] {
      AddAllRest(handlers[1..], setup, Add(handlers[0], setup, acc));
    }
  }

  lemma FileIsNoOption(handlers: seq<Handler>)
    requires HandlersOk(handlers)
    ensures Lookup(handlers, "--file") == None && !("--qt-support" <= "--file")
  {
    assert "--file"[2] == 'f';
    var r := Lookup(handlers, "--file");
    assert "--file"[2..] == "file";
  }

  lemma AddsSetup(handlers: seq<Handler>, setup: Setup, acc: Setup)
    requires Accepted(handlers, setup) && acc.values == map[]
    ensures AddAll(handlers, setup, acc) == Setup(setup.values, setup.flags + acc.flags, acc.qtSupport, acc.tracing)
  {
    var all := AddAll(handlers, setup, acc);
    forall n: string ensures n in all.values <==> n in setup.values {
      AddAllValues(handlers, setup, acc, n);
      assert n in setup.values ==> Written(handlers, setup, n);
    }
    forall n <- all.values ensures all.values[n] == setup.values[n] {
      AddAllValues(handlers, setup, acc, n);
    }
    forall n: string ensures n in all.flags <==> n in setup.flags + acc.flags {
      AddAllFlags(handlers, setup, acc, n);
    }
    AddAllRest(handlers, setup, acc);
    assert all.values == setup.values && all.flags == setup.flags + acc.flags;
  }

  /** process_command_line reads back the options that setup_to_argv wrote, with --module added
      if it was given before them, and leaves the program's arguments. Qt support and tracing are
      not among them. */
  lemma ReadsBack(handlers: seq<Handler>, setup: Setup, modules: seq<string>, program: seq<string>)
    requires HandlersOk(handlers) && Accepted(handlers, setup)
    requires forall m <- modules :: m == "--module"
    ensures Read(handlers, modules + (ToArgv(handlers, setup) + (["--file"] + program)), NOTHING) ==
            if program == [] then Failed
            else Parsed(Setup(setup.values, setup.flags + (if modules == [] then {} else {"module"}), "", false),
                        program[0], program)
  {
    var rest := ["--file"] + program;
    var acc := if modules == [] then NOTHING else Accept(Handler("module", Flag), "", NOTHING);
    ReadModules(handlers, modules, ToArgv(handlers, setup) + rest, NOTHING);
    ReadEmitted(handlers, handlers, setup, acc, rest);
    AddsSetup(handlers, setup, acc);
    FileIsNoOption(handlers);
    assert rest[1..] == program;
  }

  lemma {:induction false} ReadModules(handlers: seq<Handler>, modules: seq<string>, rest: seq<string>, acc: Setup)
    requires HandlersOk(handlers)
    requires forall m <- modules :: m == "--module"
    ensures Read(handlers, modules + rest, acc) ==
            Read(handlers, rest, if modules == [] then acc else Accept(Handler("module", Flag), "", acc))
    decreases |modules|
  {
    if modules == [] {
      assert modules + rest == rest;
    } else {
      var h := Handler("module", Flag);
      LookupFinds(handlers, h);
      assert forall m <- modules[1..] :: m in modules;
      assert modules[0] in modules && Dashed("module") == "--module";
      assert (modules + rest)[1..] == modules[1..] + rest;
      ReadModules(handlers, modules[1..], rest, Accept(h, "", acc));
      assert Accept(h, "", Accept(h, "", acc)) == Accept(h, "", acc);
    }
  }
}
