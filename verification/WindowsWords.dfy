/** What splitting a Windows command line makes of blanks, and of backslashes before a character. */
module WindowsWords {
  import opened Options
  import opened WindowsArguments

  predicate Blank(s: string) {
    forall c <- s :: c == ' ' || c == '\t'
  }

  lemma {:induction false} ReadBlanks(r: seq<string>, s: string, after: Option<char>)
    requires Blank(s)
    ensures ReadAll(Scan(Default, 0, "", r), s, after) == Scan(Default, 0, "", r)
    decreases |s|
  {
    if s != "" {
      assert s[0] in s && forall c <- s[1..] :: c in s;
      ReadBlanks(r, s[1..], after);
    }
  }

  /** The first blank behind an argument ends it, and the others change nothing. */
  lemma ReadGap(r: seq<string>, arg: string, gap: string, after: Option<char>)
    requires gap != "" && Blank(gap)
    ensures ReadAll(Scan(Default, 0, "", r), QuoteArg(arg) + gap, after) == Scan(Default, 0, "", r + [Back(arg)])
  {
    var p, end := Scan(Default, 0, "", r), Scan(Default, 0, "", r + [Back(arg)]);
    assert gap == [gap[0]] + gap[1..];
    assert gap[0] in gap && forall c <- gap[1..] :: c in gap;
    EndsArgument(r, arg, gap[0], First(gap[1..], after));
    ReadBlanks(r + [Back(arg)], gap[1..], after);
    Compose(p, QuoteArg(arg) + [gap[0]], gap[1..], after, end, end);
    Assoc(QuoteArg(arg), [gap[0]], gap[1..]);
  }

  lemma EndsArgument(r: seq<string>, arg: string, blank: char, after: Option<char>)
    requires blank == ' ' || blank == '\t'
    ensures ReadAll(Scan(Default, 0, "", r), QuoteArg(arg) + [blank], after) == Scan(Default, 0, "", r + [Back(arg)])
  {
    var p := Scan(Default, 0, "", r);
    var q := ReadAll(p, QuoteArg(arg), Some(blank));
    ReadAppend(p, QuoteArg(arg), [blank], after);
    if Plain(arg) {
      PlainEnd(arg);
      ReadPlain(r, arg, Some(blank));
      StemIs(arg);
    } else {
      ReadQuoted(r, arg, Some(blank));
      assert Back(arg) + Backslashes(0) == Back(arg);
    }
    BlankEnds(q, Back(arg), blank, after);
  }

  lemma BlankEnds(q: Scan, arg: string, blank: char, after: Option<char>)
    requires q.mode.Arg? || (q.mode.Default? && q.slashes > 0)
    requires q.buf + Backslashes(q.slashes) == arg && (blank == ' ' || blank == '\t')
    ensures ReadAll(q, [blank], after) == Scan(Default, 0, "", q.result + [arg])
  {
    assert q.buf + Backslashes(0) == q.buf;
    ReadOne(q, blank, after);
  }

  /** Quoted arguments, each with its gap behind it. */
  function Spread(args: seq<string>, gaps: seq<string>): string
    requires |gaps| == |args|
  {
    if args == [] then "" else QuoteArg(args[0]) + gaps[0] + Spread(args[1..], gaps[1..])
  }

  function Backs(args: seq<string>): seq<string> {
    if args == [] then [] else [Back(args[0])] + Backs(args[1..])
  }

  lemma {:induction false} ReadSpread(r: seq<string>, args: seq<string>, gaps: seq<string>, after: Option<char>)
    requires |gaps| == |args| && forall i | 0 <= i < |gaps| :: gaps[i] != "" && Blank(gaps[i])
    ensures ReadAll(Scan(Default, 0, "", r), Spread(args, gaps), after) == Scan(Default, 0, "", r + Backs(args))
    decreases |args|
  {
    var p := Scan(Default, 0, "", r);
    if args == [] {
      assert r + Backs(args) == r;
    } else {
      var rest := Spread(args[1..], gaps[1..]);
      var r' := r + [Back(args[0])];
      ReadGap(r, args[0], gaps[0], First(rest, after));
      ReadSpread(r', args[1..], gaps[1..], after);
      Compose(p, QuoteArg(args[0]) + gaps[0], rest, after,
              Scan(Default, 0, "", r'), Scan(Default, 0, "", r' + Backs(args[1..])));
      AssocAll(r, Back(args[0]), Backs(args[1..]));
    }
  }

  /** However many blanks and tabs stand before, between and behind the arguments, they come back the
      same; the last one too when a blank follows it. */
  lemma BlanksChangeNothing(lead: string, args: seq<string>, gaps: seq<string>)
    requires Blank(lead)
    requires |gaps| == |args| && forall i | 0 <= i < |gaps| :: gaps[i] != "" && Blank(gaps[i])
    ensures Split(lead + Spread(args, gaps)) == Backs(args)
  {
    var line := Spread(args, gaps);
    ReadBlanks([], lead, First(line, None));
    ReadSpread([], args, gaps, None);
    Compose(BEGIN, lead, line, None, BEGIN, Scan(Default, 0, "", [] + Backs(args)));
    assert [] + Backs(args) == Backs(args);
  }

  /** And with nothing behind the last one: then backslashes at its end are lost if it is unquoted. */
  lemma LastWithoutBlank(lead: string, args: seq<string>, gaps: seq<string>, last: string)
    requires Blank(lead)
    requires |gaps| == |args| && forall i | 0 <= i < |gaps| :: gaps[i] != "" && Blank(gaps[i])
    ensures Split(lead + Spread(args, gaps) + QuoteArg(last)) == Backs(args) + BackLast(last)
  {
    var line, end := Spread(args, gaps), QuoteArg(last);
    ReadBlanks([], lead, First(line, First(end, None)));
    ReadSpread([], args, gaps, First(end, None));
    Compose(BEGIN, lead, line, First(end, None), BEGIN, Scan(Default, 0, "", [] + Backs(args)));
    assert [] + Backs(args) == Backs(args);
    ReadLast(Backs(args), last);
    ReadAppend(BEGIN, lead + line, end, None);
  }

  // ----- backslashes before a character -----

  /** What `n` backslashes and then `ch`, which is none, do to the mode, the argument that is being
      read and those that are finished. */
  function Unit(p: Scan, n: nat, ch: char, after: Option<char>): Scan {
    if ch == '"' && n % 2 == 1 then
      Scan(if p.mode == InDoubleQuote then InDoubleQuote else Arg, 0, p.buf + Backslashes(n / 2) + "\"", p.result)
    else if ch == '"' && p.mode != InDoubleQuote then Scan(InDoubleQuote, 0, p.buf + Backslashes(n / 2), p.result)
    else if ch == '"' && after == Some('"') then Scan(InDoubleQuote, 0, p.buf + Backslashes(n / 2) + "\"", p.result)
    else if ch == '"' then Scan(Arg, 0, p.buf + Backslashes(n / 2), p.result)
    else if (ch == ' ' || ch == '\t') && p.mode == Default && n == 0 then p
    else if (ch == ' ' || ch == '\t') && p.mode != InDoubleQuote then
      Scan(Default, 0, "", p.result + [p.buf + Backslashes(n)])
    else Scan(if p.mode == InDoubleQuote then InDoubleQuote else Arg, 0, p.buf + Backslashes(n) + [ch], p.result)
  }

  /** 2n backslashes before a quote are n, and the quote opens or closes; 2n + 1 are n and a quote;
      n before anything else are n. */
  lemma UnitIs(p: Scan, n: nat, ch: char, after: Option<char>)
    requires p.slashes == 0 && ch != '\\'
    ensures ReadAll(p, Backslashes(n) + [ch], after) == Unit(p, n, ch, after)
  {
    ReadBackslashes(p, n, Some(ch));
    var q := p.(slashes := n);
    ReadOne(q, ch, after);
    ReadAppend(p, Backslashes(n), [ch], after);
    UnitRead(p, n, ch, after);
  }

  lemma UnitRead(p: Scan, n: nat, ch: char, after: Option<char>)
    requires p.slashes == 0 && ch != '\\'
    ensures Read(p.(slashes := n), ch, after) == Unit(p, n, ch, after)
  {
    assert p.buf + Backslashes(0) == p.buf;
  }

  // ----- which arguments are quoted -----

  lemma {:induction false} EscapesGrow(s: string)
    ensures |EscapeQuotes(s)| >= |s|
    decreases |s|
  {
    var n := Leading(s);
    if n < |s| {
      EscapesGrow(s[n + 1..]);
    }
  }

  /** An argument is passed on as it is exactly if it is not empty and has no blank, quote, tab,
      newline or vertical tab; any other one is put in quotes. */
  lemma QuotedIff(arg: string)
    ensures QuoteArg(arg) == arg <==>
            arg != "" && forall c <- arg :: c != ' ' && c != '"' && c != '\t' && c != '\n' && c != '\U{0B}'
    ensures QuoteArg(arg) != arg ==> QuoteArg(arg) == "\"" + DoubleLast(EscapeQuotes(arg)) + "\""
  {
    if !Plain(arg) {
      EscapesGrow(arg);
      assert |DoubleLast(EscapeQuotes(arg))| >= |EscapeQuotes(arg)|;
    }
  }

  /** Arguments are joined by one blank each. */
  lemma {:induction false} JoinedByBlanks(args: seq<string>, last: string)
    ensures CommandLine(args + [last]) ==
            if args == [] then QuoteArg(last) else CommandLine(args) + " " + QuoteArg(last)
    decreases |args|
  {
    if args == [] {
      assert args + [last] == [last];
    } else {
      assert (args + [last])[1..] == args[1..] + [last];
      JoinedByBlanks(args[1..], last);
      if |args| > 1 {
        JoinAssoc(QuoteArg(args[0]) + " ", CommandLine(args[1..]), " " + QuoteArg(last));
        JoinAssoc(CommandLine(args[1..]), " ", QuoteArg(last));
        JoinAssoc(CommandLine(args), " ", QuoteArg(last));
      }
    }
  }

  lemma JoinAssoc(s: string, t: string, u: string)
    ensures s + t + u == s + (t + u)
  {
  }
}
