/**
 Quoting of command-line arguments for Windows (quote_arg_win32) and splitting of a command
 line into arguments (str_to_args_windows), and how far the second undoes the first.
 */
module WindowsArguments {
  import opened Options

  // ----- quoting -----

  predicate Special(c: char) {
    c == ' ' || c == '"' || c == '\t' || c == '\n' || c == '\U{0B}'
  }

  /** Arguments that are passed on without quotes. */
  predicate Plain(arg: string) {
    arg != "" && forall c <- arg :: !Special(c)
  }

  function Backslashes(n: nat): (r: string)
    ensures |r| == n
  {
    if n == 0 then "" else "\\" + Backslashes(n - 1)
  }

  /** The number of backslashes that `s` starts with. */
  function Leading(s: string): (n: nat)
    ensures n <= |s| && (n < |s| ==> s[n] != '\\')
  {
    if s != "" && s[0] == '\\' then 1 + Leading(s[1..]) else 0
  }

  /** The number of backslashes that `s` ends with. */
  function Trailing(s: string): (n: nat)
    ensures n <= |s| && (n < |s| ==> s[|s| - n - 1] != '\\')
  {
    if s != "" && s[|s| - 1] == '\\' then 1 + Trailing(s[..|s| - 1]) else 0
  }

  /** `s` without the backslashes it ends with. */
  function Stem(s: string): string {
    s[..|s| - Trailing(s)]
  }

  /** The replacement of the backslashes that `s` starts with and the character behind them. */
  function EscapedHead(s: string): string
    requires Leading(s) < |s|
  {
    var n := Leading(s);
    if s[n] == '"' then s[..n] + s[..n] + "\\\"" else s[..n + 1]
  }

  /** re.sub of (\\*)\" by \1\1\\": doubles the backslashes before each quote and escapes it. */
  function EscapeQuotes(s: string): string
    decreases |s|
  {
    var n := Leading(s);
    if n == |s| then s else EscapedHead(s) + EscapeQuotes(s[n + 1..])
  }

  predicate EndsInNewline(s: string) {
    s != "" && s[|s| - 1] == '\n'
  }

  /** re.sub of (\\*)$ by \1\1: `$` matches at the end and also before a final newline. */
  function DoubleLast(s: string): string {
    if EndsInNewline(s) then var t := s[..|s| - 1]; t + Backslashes(Trailing(t)) + "\n"
    else s + Backslashes(Trailing(s))
  }

  function QuoteArg(arg: string): string {
    if Plain(arg) then arg else "\"" + DoubleLast(EscapeQuotes(arg)) + "\""
  }

  /** ' '.join(map(quote_arg_win32, args)) */
  function CommandLine(args: seq<string>): string {
    if args == [] then ""
    else if |args| == 1 then QuoteArg(args[0])
    else QuoteArg(args[0]) + " " + CommandLine(args[1..])
  }

  // ----- splitting -----

  datatype Mode = Default | Arg | InDoubleQuote

  datatype Scan = Scan(mode: Mode, slashes: nat, buf: string, result: seq<string>)

  const BEGIN := Scan(Default, 0, "", [])

  /** The character is not a backslash, and no backslashes are pending. */
  function Plainly(p: Scan, ch: char, after: Option<char>): Scan {
    if (ch == ' ' || ch == '\t') && p.mode.Default? then p
    else if (ch == ' ' || ch == '\t') && p.mode.Arg? then p.(mode := Default, result := p.result + [p.buf], buf := "")
    else if p.mode.InDoubleQuote? then
      if ch != '"' then p.(buf := p.buf + [ch])
      else if after == Some('"') then p.(buf := p.buf + "\"")
      else p.(mode := Arg)
    else if ch == '"' then p.(mode := InDoubleQuote)
    else p.(mode := Arg, buf := p.buf + [ch])
  }

  /** In an argument, if not before. */
  function Started(mode: Mode): Mode {
    if mode.Default? then Arg else mode
  }

  /** One character; `after` is the one behind it. */
  function Read(p: Scan, ch: char, after: Option<char>): Scan {
    if ch == '\\' then p.(slashes := p.slashes + 1)
    else if p.slashes == 0 then Plainly(p, ch, after)
    else if ch != '"' then
      Plainly(p.(slashes := 0, buf := p.buf + Backslashes(p.slashes), mode := Started(p.mode)), ch, after)
    else if p.slashes % 2 == 0 then
      Plainly(p.(slashes := 0, buf := p.buf + Backslashes(p.slashes / 2)), ch, after)
    else
      p.(slashes := 0, buf := p.buf + Backslashes(p.slashes / 2) + "\"", mode := Started(p.mode))
  }

  function First(s: string, after: Option<char>): Option<char> {
    if s == "" then after else Some(s[0])
  }

  /** Reads all of `s`, behind which comes `after`. */
  function ReadAll(p: Scan, s: string, after: Option<char>): Scan
    decreases |s|
  {
    if s == "" then p else ReadAll(Read(p, s[0], First(s[1..], after)), s[1..], after)
  }

  function Finish(p: Scan): seq<string> {
    if p.buf != "" || !p.mode.Default? then p.result + [p.buf] else p.result
  }

  function Split(s: string): seq<string> {
    Finish(ReadAll(BEGIN, s, None))
  }

  lemma {:induction false} BackslashesAdd(m: nat, n: nat)
    ensures Backslashes(m) + Backslashes(n) == Backslashes(m + n)
  {
    if m > 0 {
      BackslashesAdd(m - 1, n);
      assert Backslashes(m) + Backslashes(n) == "\\" + (Backslashes(m - 1) + Backslashes(n));
    } else {
      assert Backslashes(0) + Backslashes(n) == Backslashes(n);
    }
  }

  /** str_to_args_windows */
  method StrToArgsWindows(args: string) returns (result: seq<string>)
    ensures result == Split(args)
  {
    result := [];
    var state := Default;
    var backslashes := 0;
    var buf := "";
    var i := 0;
    while i < |args|
      invariant 0 <= i <= |args| && 0 <= backslashes
      invariant ReadAll(BEGIN, args, None) == ReadAll(Scan(state, backslashes, buf, result), args[i..], None)
    {
      var ch := args[i];
      ghost var p := Scan(state, backslashes, buf, result);
      ghost var after := First(args[i..][1..], None);
      assert args[i..][1..] == args[i + 1..];
      var done := false;
      if ch == '\\' {
        backslashes := backslashes + 1;
        done := true;
      } else if backslashes != 0 {
        if ch == '"' {
          ghost var flushed := 0;
          while backslashes >= 2
            invariant 0 <= backslashes && backslashes + 2 * flushed == p.slashes
            invariant buf == p.buf + Backslashes(flushed)
          {
            BackslashesAdd(flushed, 1);
            backslashes := backslashes - 2;
            buf := buf + "\\";
            flushed := flushed + 1;
          }
          assert flushed == p.slashes / 2;
          if backslashes == 1 {
            if state == Default {
              state := Arg;
            }
            buf := buf + "\"";
            backslashes := 0;
            done := true;
          }
        } else {
          if state == Default {
            state := Arg;
          }
          ghost var flushed := 0;
          while backslashes > 0
            invariant 0 <= backslashes && backslashes + flushed == p.slashes
            invariant buf == p.buf + Backslashes(flushed)
          {
            BackslashesAdd(flushed, 1);
            backslashes := backslashes - 1;
            buf := buf + "\\";
            flushed := flushed + 1;
          }
        }
      }
      if !done && (ch == ' ' || ch == '\t') {
        if state == Default {
          done := true;
        } else if state == Arg {
          state := Default;
          result := result + [buf];
          buf := "";
          done := true;
        }
      }
      if !done {
        if state == Default || state == Arg {
          if ch == '"' {
            state := InDoubleQuote;
          } else {
            state := Arg;
            buf := buf + [ch];
          }
        } else if ch == '"' {
          if i + 1 < |args| && args[i + 1] == '"' {
            buf := buf + "\"";  // the source also adds 1 to i, which its for loop overwrites
          } else {
            state := Arg;
          }
        } else {
          buf := buf + [ch];
        }
      }
      assert Scan(state, backslashes, buf, result) == Read(p, ch, after);
      i := i + 1;
    }
    if |buf| > 0 || state != Default {
      result := result + [buf];
    }
  }

  // ----- what splitting makes of a quoted argument -----

  lemma {:induction false} ReadAppend(p: Scan, s: string, t: string, after: Option<char>)
    ensures ReadAll(p, s + t, after) == ReadAll(ReadAll(p, s, First(t, after)), t, after)
    decreases |s|
  {
    if s == "" {
      assert s + t == t;
    } else {
      assert (s + t)[1..] == s[1..] + t;
      ReadAppend(Read(p, s[0], First(s[1..], First(t, after))), s[1..], t, after);
    }
  }

  lemma Assoc(s: string, t: string, u: string)
    ensures s + t + u == s + (t + u)
  {
  }

  lemma Compose(p: Scan, s: string, t: string, after: Option<char>, q: Scan, r: Scan)
    requires ReadAll(p, s, First(t, after)) == q && ReadAll(q, t, after) == r
    ensures ReadAll(p, s + t, after) == r
  {
    ReadAppend(p, s, t, after);
  }

  lemma ReadOne(p: Scan, ch: char, after: Option<char>)
    ensures ReadAll(p, [ch], after) == Read(p, ch, after)
  {
  }

  lemma {:induction false} ReadBackslashes(p: Scan, n: nat, after: Option<char>)
    ensures ReadAll(p, Backslashes(n), after) == p.(slashes := p.slashes + n)
    decreases n
  {
    if n > 0 {
      assert Backslashes(n)[1..] == Backslashes(n - 1);
      ReadBackslashes(p.(slashes := p.slashes + 1), n - 1, after);
    }
  }

  lemma {:induction false} StemIs(s: string)
    ensures s == Stem(s) + Backslashes(Trailing(s))
    decreases |s|
  {
    var n := Trailing(s);
    if n > 0 {
      var u := s[..|s| - 1];
      StemIs(u);
      assert s == u + "\\" && Stem(s) == Stem(u);
      LastBackslash(Stem(u), n - 1);
    } else {
      assert s == Stem(s) + "";
    }
  }

  lemma LastBackslash(t: string, n: nat)
    ensures t + Backslashes(n) + "\\" == t + Backslashes(n + 1)
  {
    BackslashesAdd(n, 1);
    assert Backslashes(1) == "\\" + Backslashes(0) == "\\";
    Assoc(t, Backslashes(n), "\\");
  }

  /** A plain argument, read from its start: backslashes at its end stay pending. */
  lemma {:induction false} ReadPlain(r: seq<string>, arg: string, after: Option<char>)
    requires forall c <- arg :: !Special(c)
    ensures ReadAll(Scan(Default, 0, "", r), arg, after)
            == Scan(if Stem(arg) == "" then Default else Arg, Trailing(arg), Stem(arg), r)
    decreases |arg|
  {
    if arg != "" {
      var init, last := arg[..|arg| - 1], arg[|arg| - 1];
      assert arg == init + [last];
      ReadPlain(r, init, Some(last));
      ReadAppend(Scan(Default, 0, "", r), init, [last], after);
      ReadPlainNext(r, init, last, after);
    }
  }

  lemma ReadPlainNext(r: seq<string>, init: string, last: char, after: Option<char>)
    requires !Special(last)
    ensures var arg := init + [last];
            ReadAll(Scan(if Stem(init) == "" then Default else Arg, Trailing(init), Stem(init), r), [last], after)
            == Scan(if Stem(arg) == "" then Default else Arg, Trailing(arg), Stem(arg), r)
  {
    var arg := init + [last];
    var p := Scan(if Stem(init) == "" then Default else Arg, Trailing(init), Stem(init), r);
    assert ReadAll(p, [last], after) == Read(p, last, after);
    assert arg[..|arg| - 1] == init;
    if last == '\\' {
      assert Stem(arg) == Stem(init);
    } else {
      assert Stem(arg) == arg;
      StemIs(init);
      assert arg == Stem(init) + Backslashes(Trailing(init)) + [last];
    }
  }

  lemma {:induction false} LeadingIs(s: string)
    ensures s[..Leading(s)] == Backslashes(Leading(s))
  {
    if Leading(s) > 0 {
      LeadingIs(s[1..]);
      assert s[..Leading(s)] == "\\" + s[1..][..Leading(s) - 1];
    }
  }

  lemma StemStep(b: string, head: string, rest: string)
    requires head != "" && head[|head| - 1] != '\\'
    ensures Trailing(rest) == Trailing(head + rest) && b + head + Stem(rest) == b + Stem(head + rest)
  {
    assert (head + rest)[|head|..] == rest && (head + rest)[..|head|] == head;
    StemAfter(head + rest, |head|);
    Assoc(b, head, Stem(rest));
  }

  /** Reading the escaped form inside quotes gives back the text. */
  lemma {:induction false} ReadEscaped(b: string, r: seq<string>, s: string, after: Option<char>)
    ensures ReadAll(Scan(InDoubleQuote, 0, b, r), EscapeQuotes(s), after)
            == Scan(InDoubleQuote, Trailing(s), b + Stem(s), r)
    decreases |s|
  {
    var p := Scan(InDoubleQuote, 0, b, r);
    var n := Leading(s);
    if n == |s| {
      ReadOnlyBackslashes(p, s, after);
    } else {
      var head, rest := s[..n + 1], s[n + 1..];
      assert s == head + rest;
      ReadHead(p, s, First(EscapeQuotes(rest), after));
      ReadEscaped(b + head, r, rest, after);
      StemStep(b, head, rest);
      assert EscapeQuotes(s) == EscapedHead(s) + EscapeQuotes(rest);
      Compose(p, EscapedHead(s), EscapeQuotes(rest), after,
              Scan(InDoubleQuote, 0, b + head, r), Scan(InDoubleQuote, Trailing(s), b + Stem(s), r));
    }
  }

  lemma ReadOnlyBackslashes(p: Scan, s: string, after: Option<char>)
    requires Leading(s) == |s| && p.slashes == 0
    ensures ReadAll(p, s, after) == p.(slashes := Trailing(s), buf := p.buf + Stem(s))
  {
    LeadingIs(s);
    assert s == Backslashes(|s|);
    ReadBackslashes(p, |s|, after);
    AllBackslashes(|s|);
    assert p.buf + Stem(s) == p.buf;
  }

  lemma {:induction false} AllBackslashes(n: nat)
    ensures Trailing(Backslashes(n)) == n && Stem(Backslashes(n)) == ""
  {
    if n > 0 {
      AllBackslashes(n - 1);
      BackslashesAdd(n - 1, 1);
      assert Backslashes(n) == Backslashes(n - 1) + "\\";
      assert Backslashes(n)[..n - 1] == Backslashes(n - 1);
    }
  }

  /** Behind a character that is not a backslash the backslashes at the end are the same. */
  lemma {:induction false} StemAfter(s: string, k: nat)
    requires 0 < k <= |s| && s[k - 1] != '\\'
    ensures Trailing(s) == Trailing(s[k..]) && Stem(s) == s[..k] + Stem(s[k..])
    decreases |s|
  {
    if k < |s| {
      var u := s[..|s| - 1];
      assert s[k..][..|s| - k - 1] == u[k..] && u[..k] == s[..k];
      StemAfter(u, k);
      assert s[k..][|s| - k - 1] == s[|s| - 1];
    }
  }

  lemma ReadEscapedQuote(p: Scan, n: nat, after: Option<char>)
    requires p.mode.InDoubleQuote? && p.slashes == 0
    ensures ReadAll(p, Backslashes(2 * n + 1) + "\"", after) == p.(buf := p.buf + (Backslashes(n) + "\""))
  {
    ReadBackslashes(p, 2 * n + 1, Some('"'));
    var q := p.(slashes := 2 * n + 1);
    ReadOne(q, '"', after);
    assert p.buf + Backslashes(n) + "\"" == p.buf + (Backslashes(n) + "\"");
    Compose(p, Backslashes(2 * n + 1), "\"", after, q, p.(buf := p.buf + (Backslashes(n) + "\"")));
  }

  lemma ReadOther(p: Scan, n: nat, ch: char, after: Option<char>)
    requires p.mode.InDoubleQuote? && p.slashes == 0 && ch != '"' && ch != '\\'
    ensures ReadAll(p, Backslashes(n) + [ch], after) == p.(buf := p.buf + (Backslashes(n) + [ch]))
  {
    ReadBackslashes(p, n, Some(ch));
    var q := p.(slashes := n);
    ReadOne(q, ch, after);
    assert p.buf + Backslashes(n) + [ch] == p.buf + (Backslashes(n) + [ch]);
    Compose(p, Backslashes(n), [ch], after, q, p.(buf := p.buf + (Backslashes(n) + [ch])));
  }

  /** Backslashes and the character behind them. */
  lemma ReadHead(p: Scan, s: string, after: Option<char>)
    requires p.mode.InDoubleQuote? && p.slashes == 0 && Leading(s) < |s|
    ensures ReadAll(p, EscapedHead(s), after) == p.(buf := p.buf + s[..Leading(s) + 1])
  {
    var n := Leading(s);
    LeadingIs(s);
    assert s[..n + 1] == Backslashes(n) + [s[n]];
    if s[n] == '"' {
      BackslashesAdd(n, n);
      BackslashesAdd(n + n, 1);
      assert "\\\"" == Backslashes(1) + "\"";
      Assoc(Backslashes(n + n), Backslashes(1), "\"");
      ReadEscapedQuote(p, n, after);
    } else {
      ReadOther(p, n, s[n], after);
    }
  }

  // ----- quoting, then splitting -----

  /** A backslash right before a final newline. */
  predicate BackslashBeforeFinalNewline(arg: string) {
    |arg| >= 2 && arg[|arg| - 1] == '\n' && arg[|arg| - 2] == '\\'
  }

  /** What an argument comes back as when another one follows it. */
  function Back(arg: string): string {
    if EndsInNewline(arg) then var t := arg[..|arg| - 1]; t + Backslashes(Trailing(t)) + "\n" else arg
  }

  /** What the last argument comes back as. */
  function BackLast(arg: string): seq<string> {
    if !Plain(arg) then [Back(arg)] else if Stem(arg) == "" then [] else [Stem(arg)]
  }

  function BackAll(args: seq<string>): seq<string> {
    if args == [] then []
    else if |args| == 1 then BackLast(args[0])
    else [Back(args[0])] + BackAll(args[1..])
  }

  lemma {:induction false} EscapeAppendNewline(s: string)
    ensures EscapeQuotes(s + "\n") == EscapeQuotes(s) + "\n"
    decreases |s|
  {
    var n := Leading(s);
    LeadingAppend(s);
    if n < |s| {
      assert (s + "\n")[n + 1..] == s[n + 1..] + "\n";
      EscapeAppendNewline(s[n + 1..]);
      assert (s + "\n")[..n] == s[..n] && (s + "\n")[..n + 1] == s[..n + 1];
      Assoc(EscapedHead(s), EscapeQuotes(s[n + 1..]), "\n");
    } else {
      assert (s + "\n")[..n + 1] == s + "\n" && (s + "\n")[n + 1..] == "";
    }
  }

  lemma {:induction false} LeadingAppend(s: string)
    ensures Leading(s + "\n") == Leading(s)
  {
    if s != "" && s[0] == '\\' {
      assert (s + "\n")[1..] == s[1..] + "\n";
      LeadingAppend(s[1..]);
    }
  }

  /** Escaping keeps the backslashes at the end, and the text ends in a newline as before. */
  lemma {:induction false} EscapeKeepsEnd(s: string)
    ensures Trailing(EscapeQuotes(s)) == Trailing(s)
    ensures EndsInNewline(EscapeQuotes(s)) <==> EndsInNewline(s)
    decreases |s|
  {
    var n := Leading(s);
    if n < |s| {
      var head, tail := EscapedHead(s), EscapeQuotes(s[n + 1..]);
      EscapeKeepsEnd(s[n + 1..]);
      StemAfter(s, n + 1);
      EndOfTail(head, tail);
      assert tail == "" <==> s[n + 1..] == "" by { EscapeEmpty(s[n + 1..]); }
    }
  }

  lemma EndOfTail(head: string, tail: string)
    requires head != "" && head[|head| - 1] != '\\'
    ensures Trailing(head + tail) == Trailing(tail)
    ensures EndsInNewline(head + tail) <==> EndsInNewline(if tail == "" then head else tail)
  {
    assert (head + tail)[|head|..] == tail && (tail == "" ==> head + tail == head);
    StemAfter(head + tail, |head|);
  }

  lemma EscapeEmpty(s: string)
    ensures EscapeQuotes(s) == "" <==> s == ""
  {
  }

  lemma DoubleLastNewline(e: string)
    ensures DoubleLast(e + "\n") == e + (Backslashes(Trailing(e)) + "\n")
  {
    assert (e + "\n")[..|e|] == e;
    Assoc(e, Backslashes(Trailing(e)), "\n");
  }

  lemma ReadDoubledEnd(r: seq<string>, t: string, after: Option<char>)
    ensures var k := Trailing(t);
            ReadAll(Scan(InDoubleQuote, k, Stem(t), r), Backslashes(k) + "\n", after)
            == Scan(InDoubleQuote, 0, t + Backslashes(k) + "\n", r)
  {
    var k := Trailing(t);
    var q := Scan(InDoubleQuote, k, Stem(t), r);
    ReadBackslashes(q, k, Some('\n'));
    ReadOne(q.(slashes := k + k), '\n', after);
    StemDoubled(t);
    Compose(q, Backslashes(k), "\n", after, q.(slashes := k + k), Scan(InDoubleQuote, 0, t + Backslashes(k) + "\n", r));
  }

  lemma StemDoubled(t: string)
    ensures Stem(t) + Backslashes(Trailing(t) + Trailing(t)) == t + Backslashes(Trailing(t))
  {
    var k := Trailing(t);
    StemIs(t);
    BackslashesAdd(k, k);
    Assoc(Stem(t), Backslashes(k), Backslashes(k));
  }

  /** The text between the quotes, when it ends in a newline. */
  lemma ReadDoubledNewline(r: seq<string>, t: string, after: Option<char>)
    ensures ReadAll(Scan(InDoubleQuote, 0, "", r), DoubleLast(EscapeQuotes(t + "\n")), after)
            == Scan(InDoubleQuote, 0, t + Backslashes(Trailing(t)) + "\n", r)
  {
    var e, end := EscapeQuotes(t), Backslashes(Trailing(t)) + "\n";
    EscapeAppendNewline(t);
    EscapeKeepsEnd(t);
    DoubleLastNewline(e);
    ReadEscaped("", r, t, First(end, after));
    assert "" + Stem(t) == Stem(t);
    ReadDoubledEnd(r, t, after);
    Compose(Scan(InDoubleQuote, 0, "", r), e, end, after,
            Scan(InDoubleQuote, Trailing(t), Stem(t), r),
            Scan(InDoubleQuote, 0, t + Backslashes(Trailing(t)) + "\n", r));
  }

  /** The text between the quotes, when it does not: the backslashes at its end are doubled. */
  lemma ReadDoubled(r: seq<string>, arg: string, after: Option<char>)
    requires !EndsInNewline(arg)
    ensures ReadAll(Scan(InDoubleQuote, 0, "", r), DoubleLast(EscapeQuotes(arg)), after)
            == Scan(InDoubleQuote, 2 * Trailing(arg), Stem(arg), r)
  {
    var k := Trailing(arg);
    EscapeKeepsEnd(arg);
    ReadEscaped("", r, arg, First(Backslashes(k), after));
    assert "" + Stem(arg) == Stem(arg);
    var q := Scan(InDoubleQuote, k, Stem(arg), r);
    ReadBackslashes(q, k, after);
    Compose(Scan(InDoubleQuote, 0, "", r), EscapeQuotes(arg), Backslashes(k), after, q, q.(slashes := 2 * k));
  }

  /** The closing quote. */
  lemma ReadClosing(k: nat, b: string, r: seq<string>, after: Option<char>)
    requires after != Some('"')
    ensures ReadAll(Scan(InDoubleQuote, 2 * k, b, r), "\"", after) == Scan(Arg, 0, b + Backslashes(k), r)
  {
    ReadOne(Scan(InDoubleQuote, 2 * k, b, r), '"', after);
    assert b + Backslashes(0) == b;
  }

  /** From behind the opening quote to behind the closing one. */
  lemma ReadInner(r: seq<string>, arg: string, after: Option<char>)
    requires after != Some('"')
    ensures ReadAll(Scan(InDoubleQuote, 0, "", r), DoubleLast(EscapeQuotes(arg)) + "\"", after)
            == Scan(Arg, 0, Back(arg), r)
  {
    var p := Scan(InDoubleQuote, 0, "", r);
    var d := DoubleLast(EscapeQuotes(arg));
    var q := Scan(Arg, 0, Back(arg), r);
    if EndsInNewline(arg) {
      var t := arg[..|arg| - 1];
      assert arg == t + "\n";
      ReadDoubledNewline(r, t, Some('"'));
      ReadClosing(0, Back(arg), r, after);
      assert Back(arg) + Backslashes(0) == Back(arg);
      Compose(p, d, "\"", after, Scan(InDoubleQuote, 0, Back(arg), r), q);
    } else {
      ReadDoubled(r, arg, Some('"'));
      ReadClosing(Trailing(arg), Stem(arg), r, after);
      StemIs(arg);
      Compose(p, d, "\"", after, Scan(InDoubleQuote, 2 * Trailing(arg), Stem(arg), r), q);
    }
  }

  /** A quoted argument, read from its start. */
  lemma ReadQuoted(r: seq<string>, arg: string, after: Option<char>)
    requires !Plain(arg) && after != Some('"')
    ensures ReadAll(Scan(Default, 0, "", r), QuoteArg(arg), after) == Scan(Arg, 0, Back(arg), r)
  {
    var p := Scan(Default, 0, "", r);
    var d := DoubleLast(EscapeQuotes(arg));
    ReadInner(r, arg, after);
    ReadOne(p, '"', First(d + "\"", after));
    Compose(p, "\"", d + "\"", after, Scan(InDoubleQuote, 0, "", r), Scan(Arg, 0, Back(arg), r));
    Assoc("\"", d, "\"");
  }

  lemma PlainEnd(arg: string)
    requires Plain(arg)
    ensures !EndsInNewline(arg) && Back(arg) == arg
  {
    assert arg[|arg| - 1] in arg;
  }

  /** The blank behind an argument. */
  lemma ReadBlank(q: Scan, arg: string, after: Option<char>)
    requires q.mode.Arg? || (q.mode.Default? && q.slashes > 0)
    requires q.buf + Backslashes(q.slashes) == arg
    ensures ReadAll(q, " ", after) == Scan(Default, 0, "", q.result + [arg])
  {
    assert q.buf + Backslashes(0) == q.buf;
    ReadOne(q, ' ', after);
  }

  lemma ReadOneOfMany(r: seq<string>, arg: string, after: Option<char>)
    ensures ReadAll(Scan(Default, 0, "", r), QuoteArg(arg) + " ", after) == Scan(Default, 0, "", r + [Back(arg)])
  {
    var p := Scan(Default, 0, "", r);
    ReadAppend(p, QuoteArg(arg), " ", after);
    if Plain(arg) {
      PlainEnd(arg);
      ReadPlain(r, arg, Some(' '));
      StemIs(arg);
    } else {
      ReadQuoted(r, arg, Some(' '));
      assert Back(arg) + Backslashes(0) == Back(arg);
    }
    ReadBlank(ReadAll(p, QuoteArg(arg), Some(' ')), Back(arg), after);
  }

  lemma ReadLast(r: seq<string>, arg: string)
    ensures Finish(ReadAll(Scan(Default, 0, "", r), QuoteArg(arg), None)) == r + BackLast(arg)
  {
    if Plain(arg) {
      ReadPlain(r, arg, None);
    } else {
      ReadQuoted(r, arg, None);
    }
  }

  lemma {:induction false} ReadCommandLine(r: seq<string>, args: seq<string>)
    ensures Finish(ReadAll(Scan(Default, 0, "", r), CommandLine(args), None)) == r + BackAll(args)
    decreases |args|
  {
    if |args| == 1 {
      ReadLast(r, args[0]);
    } else if |args| > 1 {
      ReadCommandLine(r + [Back(args[0])], args[1..]);
      ReadFirst(r, args[0], CommandLine(args[1..]));
      AssocAll(r, Back(args[0]), BackAll(args[1..]));
    }
  }

  lemma ReadFirst(r: seq<string>, arg: string, rest: string)
    ensures ReadAll(Scan(Default, 0, "", r), QuoteArg(arg) + " " + rest, None)
            == ReadAll(Scan(Default, 0, "", r + [Back(arg)]), rest, None)
  {
    ReadOneOfMany(r, arg, First(rest, None));
    ReadAppend(Scan(Default, 0, "", r), QuoteArg(arg) + " ", rest, None);
  }

  lemma AssocAll(r: seq<string>, s: string, t: seq<string>)
    ensures r + [s] + t == r + ([s] + t)
  {
  }

  /** What quoting and joining, then splitting, makes of any list of arguments. */
  lemma SplitCommandLine(args: seq<string>)
    ensures Split(CommandLine(args)) == BackAll(args)
  {
    ReadCommandLine([], args);
  }

  /** The lists that come back as they were: no argument has a backslash right before a final
      newline, and the last one is not an unquoted one that ends in a backslash. */
  predicate Survives(args: seq<string>) {
    && (forall arg <- args :: !BackslashBeforeFinalNewline(arg))
    && (args != [] ==> var last := args[|args| - 1]; !(Plain(last) && last[|last| - 1] == '\\'))
  }

  lemma BackIsSame(arg: string)
    ensures Back(arg) == arg <==> !BackslashBeforeFinalNewline(arg)
  {
    if EndsInNewline(arg) {
      var t := arg[..|arg| - 1];
      assert |Back(arg)| == |arg| + Trailing(t);
      assert t + "" + "\n" == arg;
      if Trailing(t) == 0 {
        assert Backslashes(0) == "";
      }
    }
  }

  lemma {:induction false} BackAllIsSame(args: seq<string>)
    ensures |BackAll(args)| <= |args|
    ensures BackAll(args) == args <==> Survives(args)
    decreases |args|
  {
    if |args| == 1 {
      BackIsSame(args[0]);
      if Plain(args[0]) {
        PlainEnd(args[0]);
        assert |Stem(args[0])| == |args[0]| - Trailing(args[0]);
        assert Trailing(args[0]) == 0 ==> Stem(args[0]) == args[0];
      }
    } else if |args| > 1 {
      BackIsSame(args[0]);
      BackAllIsSame(args[1..]);
      assert args == [args[0]] + args[1..];
      assert BackAll(args)[0] == Back(args[0]) && BackAll(args)[1..] == BackAll(args[1..]);
    }
  }

  /** Quoting then splitting is the identity exactly for the lists that survive. */
  lemma QuoteThenSplit(args: seq<string>)
    ensures Split(CommandLine(args)) == args <==> Survives(args)
  {
    SplitCommandLine(args);
    BackAllIsSame(args);
  }

  /** A last argument that is only a backslash disappears. */
  lemma LastBackslashIsLost()
    ensures Split(CommandLine(["\\"])) == []
  {
    assert Backslashes(0) == "" && Backslashes(1) == "\\" + Backslashes(0) == "\\";
    AllBackslashes(1);
    SplitCommandLine(["\\"]);
  }

  lemma BackNewline(t: string)
    ensures Back(t + "\n") == t + Backslashes(Trailing(t)) + "\n" && !Plain(t + "\n")
  {
    var arg := t + "\n";
    assert arg[|t|] in arg && arg[..|arg| - 1] == t;
  }

  /** A backslash before a final newline is doubled. */
  lemma BackslashBeforeNewlineIsDoubled(t: string)
    requires t != "" && t[|t| - 1] == '\\'
    ensures Split(CommandLine([t + "\n"])) == [t + Backslashes(Trailing(t)) + "\n"] != [t + "\n"]
  {
    SplitCommandLine([t + "\n"]);
    BackNewline(t);
    assert |t + Backslashes(Trailing(t)) + "\n"| > |t + "\n"|;
  }

  /** Inside quotes two quotes give one literal quote, as the comment in the source says, but
      the second one also ends the quoted part: adding 1 to the loop variable has no effect.
      So the blank that follows separates two arguments. */
  lemma DoubledQuoteEndsQuoting(t: string, u: string)
    requires (forall c <- t :: !Special(c) && c != '\\') && (forall c <- u :: !Special(c) && c != '\\')
    ensures Split("\"" + t + "\"\" " + u + "\"") == [t + "\"", u]
  {
    var after := First(u + "\"", None);
    ReadOpened(t, Some('"'));
    ReadDoubledQuote(t, after);
    Compose(BEGIN, "\"" + t, "\"\" ", after, Scan(InDoubleQuote, 0, t, []), Scan(Default, 0, "", [t + "\""]));
    ReadThenQuote([t + "\""], u);
    ReadAppend(BEGIN, "\"" + t + "\"\" ", u + "\"", None);
    Assoc("\"" + t + "\"\" ", u, "\"");
  }

  lemma ReadOpened(t: string, after: Option<char>)
    requires forall c <- t :: !Special(c) && c != '\\'
    ensures ReadAll(BEGIN, "\"" + t, after) == Scan(InDoubleQuote, 0, t, [])
  {
    var a := Scan(InDoubleQuote, 0, "", []);
    ReadOne(BEGIN, '"', First(t, after));
    assert forall i | 0 <= i < |t| :: t[i] in t;
    ReadOrdinary(a, t, after);
    assert "" + t == t;
    Compose(BEGIN, "\"", t, after, a, Scan(InDoubleQuote, 0, t, []));
  }

  lemma ReadDoubledQuote(t: string, after: Option<char>)
    ensures ReadAll(Scan(InDoubleQuote, 0, t, []), "\"\" ", after) == Scan(Default, 0, "", [t + "\""])
  {
    var b := Scan(InDoubleQuote, 0, t, []);
    assert "\"\" "[1..] == "\" " && "\" "[1..] == " ";
    var c := Read(b, '"', Some('"'));
    var d := Read(c, '"', Some(' '));
    assert Read(d, ' ', after) == Scan(Default, 0, "", [t + "\""]);
  }

  lemma ReadThenQuote(r: seq<string>, u: string)
    requires forall c <- u :: !Special(c) && c != '\\'
    ensures Finish(ReadAll(Scan(Default, 0, "", r), u + "\"", None)) == r + [u]
  {
    ReadAppend(Scan(Default, 0, "", r), u, "\"", None);
    ReadPlain(r, u, Some('"'));
    assert u != "" ==> u[|u| - 1] in u;
    assert Trailing(u) == 0 && Stem(u) == u;
  }

  /** Ordinary characters inside quotes. */
  lemma {:induction false} ReadOrdinary(p: Scan, t: string, after: Option<char>)
    requires p.mode.InDoubleQuote? && p.slashes == 0
    requires forall i | 0 <= i < |t| :: t[i] != '"' && t[i] != '\\'
    ensures ReadAll(p, t, after) == p.(buf := p.buf + t)
    decreases |t|
  {
    if t == "" {
      assert p.buf + t == p.buf;
    } else {
      ReadOrdinary(p.(buf := p.buf + [t[0]]), t[1..], after);
      assert p.buf + [t[0]] + t[1..] == p.buf + t;
    }
  }
}
