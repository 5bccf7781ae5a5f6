/** Which command lines process_command_line reads, and what it makes of them. */
module OptionLines {
  import opened Options
  import opened SetupArguments
  import Framing

  /** What may stand before --file. `mode` is what setup['qt-support'] becomes. */
  datatype Item =
    | FlagItem(name: string)
    | TextItem(name: string, value: string)
    | NumberItem(name: string, text: string, number: int)
    | QtItem(arg: string, mode: string)
    | DebugItem

  function Text(item: Item): seq<string> {
    match item
    case FlagItem(name) => ["--" + name]
    case TextItem(name, value) => ["--" + name, value]
    case NumberItem(name, text, _) => ["--" + name, text]
    case QtItem(arg, _) => [arg]
    case DebugItem => ["--DEBUG"]
  }

  function Texts(items: seq<Item>): seq<string> {
    if items == [] then [] else Text(items[0]) + Texts(items[1..])
  }

  /** No accepted option is written like this. */
  predicate NoOption(handlers: seq<Handler>, arg: string) {
    forall h <- handlers :: "--" + h.name != arg
  }

  predicate QtOk(arg: string, mode: string) {
    || (arg == "--qt-support" && mode == "auto")
    || (arg == "--qt-support=none" && mode == "")
    || (arg == "--qt-support=auto" && mode == "auto")
    || (arg == "--qt-support=pyqt5" && mode == "pyqt5")
    || (arg == "--qt-support=pyqt4" && mode == "pyqt4")
    || (arg == "--qt-support=pyside" && mode == "pyside")
  }

  predicate ItemOk(handlers: seq<Handler>, item: Item) {
    match item
    case FlagItem(name) => Handler(name, Flag) in handlers
    case TextItem(name, _) => Handler(name, Kind.Text) in handlers
    case NumberItem(name, text, number) => Handler(name, Number) in handlers && Framing.ParseInt(text) == Some(number)
    case QtItem(arg, mode) => NoOption(handlers, arg) && QtOk(arg, mode)
    case DebugItem => NoOption(handlers, "--DEBUG")
  }

  function NumberAsText(n: int): string {
    if n < 0 then "-" + Framing.Decimal(-n) else Framing.Decimal(n)
  }

  /** What one item makes of the options read before it. A number 0 is the default again. */
  function Applied(item: Item, acc: Setup): Setup {
    match item
    case FlagItem(name) => acc.(flags := acc.flags + {name})
    case TextItem(name, value) => acc.(values := acc.values[name := value])
    case NumberItem(name, _, number) =>
      acc.(values := if number == 0 then acc.values - {name} else acc.values[name := NumberAsText(number)])
    case QtItem(_, mode) => acc.(qtSupport := mode)
    case DebugItem => acc.(flags := acc.flags + {"DEBUG_RECORD_SOCKET_READS"}, tracing := true)
  }

  function AppliedAll(items: seq<Item>, acc: Setup): Setup
    decreases |items|
  {
    if items == [] then acc else AppliedAll(items[1..], Applied(items[0], acc))
  }

  // ----- one item -----

  lemma {:induction false} LookupIff(handlers: seq<Handler>, arg: string, h: Handler)
    requires DistinctNames(handlers)
    ensures Lookup(handlers, arg) == Some(h) <==> h in handlers && "--" + h.name == arg
    ensures Lookup(handlers, arg) == None <==> NoOption(handlers, arg)
    decreases |handlers|
  {
    if h in handlers && "--" + h.name == arg {
      LookupFinds(handlers, h);
    }
    if handlers != [] {
      LookupIff(handlers[1..], arg, h);
      assert forall k :: k in handlers <==> k == handlers[0] || k in handlers[1..];
    }
  }

  lemma DecimalZero(n: nat)
    ensures Framing.Decimal(n) == "0" <==> n == 0
  {
    Framing.DecimalDigits(n);
    if n >= 10 {
      Framing.DecimalDigits(n / 10);
    }
  }

  lemma NumberIs(text: string, n: int)
    requires Framing.ParseInt(text) == Some(n)
    ensures NumberText(text) == Some(NumberAsText(n))
    ensures NumberAsText(n) == "0" <==> n == 0
  {
    if n >= 0 {
      DecimalZero(n);
    }
  }

  lemma QtModeIff(arg: string, mode: string)
    ensures QtMode(arg) == Some(mode) <==> QtOk(arg, mode)
    ensures QtOk(arg, mode) ==> "--qt-support" <= arg
  {
    var p := "--qt-support=";
    assert |p| == 13;
    if p <= arg {
      assert arg == p + arg[13..];
    }
    assert QtOk(arg, mode) && arg != "--qt-support" ==> p <= arg;
    assert "--qt-support=none" == p + "none" && "--qt-support=auto" == p + "auto";
    assert "--qt-support=pyqt5" == p + "pyqt5" && "--qt-support=pyqt4" == p + "pyqt4";
    assert "--qt-support=pyside" == p + "pyside";
  }

  /** An item at the head of a line is read. */
  lemma ReadItem(handlers: seq<Handler>, item: Item, rest: seq<string>, acc: Setup)
    requires HandlersOk(handlers) && ItemOk(handlers, item)
    ensures Read(handlers, Text(item) + rest, acc) == Read(handlers, rest, Applied(item, acc))
  {
    var argv := Text(item) + rest;
    match item
    case FlagItem(name) =>
      LookupIff(handlers, argv[0], Handler(name, Flag));
      assert argv[1..] == rest;
    case TextItem(name, value) =>
      LookupIff(handlers, argv[0], Handler(name, Kind.Text));
      assert argv[2..] == rest;
    case NumberItem(name, text, n) =>
      LookupIff(handlers, argv[0], Handler(name, Number));
      NumberIs(text, n);
      assert argv[2..] == rest;
    case QtItem(arg, mode) =>
      LookupIff(handlers, arg, Handler("", Flag));
      QtModeIff(arg, mode);
      assert argv[1..] == rest;
    case DebugItem =>
      LookupIff(handlers, "--DEBUG", Handler("", Flag));
      assert argv[1..] == rest;
  }

  /** The line is made of items, and then ends or goes on with --file, a program and its
      arguments. */
  predicate MadeOf(handlers: seq<Handler>, argv: seq<string>, items: seq<Item>, tail: seq<string>) {
    && (forall item <- items :: ItemOk(handlers, item))
    && argv == Texts(items) + tail
    && (tail == [] || (|tail| > 1 && tail[0] == "--file"))
  }

  lemma FileTail(handlers: seq<Handler>, tail: seq<string>, acc: Setup)
    requires HandlersOk(handlers)
    ensures tail == [] ==> Read(handlers, tail, acc) == Parsed(acc, "", [])
    ensures |tail| > 1 && tail[0] == "--file" ==> Read(handlers, tail, acc) == Parsed(acc, tail[1], tail[1..])
    ensures tail == ["--file"] ==> Read(handlers, tail, acc) == Failed
  {
    FileIsNoOption(handlers);
  }

  /** A line that is made of items is read: each item has its effect, in order, and what stands
      behind --file is left. */
  lemma {:induction false} ReadIs(handlers: seq<Handler>, argv: seq<string>, items: seq<Item>, tail: seq<string>,
                                  acc: Setup)
    requires HandlersOk(handlers) && MadeOf(handlers, argv, items, tail)
    ensures Read(handlers, argv, acc) ==
            Parsed(AppliedAll(items, acc), if tail == [] then "" else tail[1], if tail == [] then [] else tail[1..])
    decreases |items|
  {
    if items == [] {
      assert argv == tail;
      FileTail(handlers, tail, acc);
    } else {
      var rest := Texts(items[1..]) + tail;
      assert argv == Text(items[0]) + rest;
      ReadItem(handlers, items[0], rest, acc);
      assert forall item <- items[1..] :: item in items;
      ReadIs(handlers, rest, items[1..], tail, Applied(items[0], acc));
    }
  }

  /** The first item of a line that is read. */
  lemma FirstItem(handlers: seq<Handler>, argv: seq<string>, acc: Setup) returns (item: Item)
    requires HandlersOk(handlers) && argv != [] && argv[0] != "--file" && Read(handlers, argv, acc).Parsed?
    ensures ItemOk(handlers, item) && |Text(item)| <= |argv| && argv == Text(item) + argv[|Text(item)|..]
  {
    var h := Lookup(handlers, argv[0]);
    if h.Some? {
      LookupIff(handlers, argv[0], h.value);
      var name := h.value.name;
      match h.value.kind
      case Flag => item := FlagItem(name);
      case Text => item := TextItem(name, argv[1]);
      case Number => item := NumberItem(name, argv[1], Framing.ParseInt(argv[1]).value);
    } else {
      LookupIff(handlers, argv[0], Handler("", Flag));
      if argv[0] == "--DEBUG" {
        item := DebugItem;
      } else {
        item := QtItem(argv[0], QtMode(argv[0]).value);
        QtModeIff(argv[0], item.mode);
      }
    }
  }

  lemma {:induction false} ItemsOf(handlers: seq<Handler>, argv: seq<string>, acc: Setup)
      returns (items: seq<Item>, tail: seq<string>)
    requires HandlersOk(handlers) && Read(handlers, argv, acc).Parsed?
    ensures MadeOf(handlers, argv, items, tail)
    decreases |argv|
  {
    if argv == [] || argv[0] == "--file" {
      items, tail := [], argv;
      FileTail(handlers, argv, acc);
      assert argv == Texts([]) + argv;
    } else {
      var item := FirstItem(handlers, argv, acc);
      var rest := argv[|Text(item)|..];
      ReadItem(handlers, item, rest, acc);
      var others;
      others, tail := ItemsOf(handlers, rest, Applied(item, acc));
      items := [item] + others;
      assert items[1..] == others;
    }
  }

  /** process_command_line reads a line exactly if it is made of items; any other one it refuses. */
  lemma ReadIff(handlers: seq<Handler>, argv: seq<string>, acc: Setup)
    requires HandlersOk(handlers)
    ensures Read(handlers, argv, acc).Parsed? <==>
            exists items: seq<Item>, tail: seq<string> :: MadeOf(handlers, argv, items, tail)
  {
    if Read(handlers, argv, acc).Parsed? {
      var items, tail := ItemsOf(handlers, argv, acc);
    }
    if items: seq<Item>, tail: seq<string> :| MadeOf(handlers, argv, items, tail) {
      ReadIs(handlers, argv, items, tail, acc);
    }
  }
}
