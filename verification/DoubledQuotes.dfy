/**
 Two quotes in a row inside quotes. The comment in str_to_args_windows describes them as one
 literal quote that leaves the quoted part open, and the code adds 1 to its loop variable to skip
 the second one; the loop then overwrites that variable. This compares what the code does with
 what it was meant to do.
 */
module DoubledQuotes {
  import opened Options
  import opened WindowsArguments

  /** A quote that is read inside quotes and directly followed by a quote. */
  predicate Doubles(p: Scan, ch: char, after: Option<char>) {
    p.mode.InDoubleQuote? && p.slashes % 2 == 0 && ch == '"' && after == Some('"')
  }

  /** Reads `s` and skips the second quote of each such pair. */
  function ReadDocumented(p: Scan, s: string): Scan
    decreases |s|
  {
    if s == "" then p
    else
      var after := First(s[1..], None);
      var q := Read(p, s[0], after);
      if Doubles(p, s[0], after) then ReadDocumented(q, s[2..]) else ReadDocumented(q, s[1..])
  }

  function SplitDocumented(s: string): seq<string> {
    Finish(ReadDocumented(BEGIN, s))
  }

  /** No quote of `s` that is read inside quotes is directly followed by a quote; behind `s` comes
      `after`. */
  predicate NeverDoubled(p: Scan, s: string, after: Option<char>)
    decreases |s|
  {
    s == "" ||
    (!Doubles(p, s[0], First(s[1..], after)) && NeverDoubled(Read(p, s[0], First(s[1..], after)), s[1..], after))
  }

  lemma {:induction false} SameUpTo(p: Scan, s: string, rest: string)
    requires NeverDoubled(p, s, First(rest, None))
    ensures ReadDocumented(p, s + rest) == ReadDocumented(ReadAll(p, s, First(rest, None)), rest)
    decreases |s|
  {
    if s == "" {
      assert s + rest == rest;
    } else {
      assert (s + rest)[1..] == s[1..] + rest;
      assert First(s[1..] + rest, None) == First(s[1..], First(rest, None));
      SameUpTo(Read(p, s[0], First(s[1..], First(rest, None))), s[1..], rest);
    }
  }

  /** Where no quote read inside quotes is directly followed by a quote, the code does what it was
      meant to do. */
  lemma AgreesWithoutDoubled(s: string)
    requires NeverDoubled(BEGIN, s, None)
    ensures Split(s) == SplitDocumented(s)
  {
    SameUpTo(BEGIN, s, "");
    assert s + "" == s;
  }

  predicate QuoteAt(s: string, i: nat) {
    i < |s| && s[i] == '"'
  }

  /** No two quotes stand side by side. */
  ghost predicate Separate(s: string) {
    forall i: nat | QuoteAt(s, i) :: !QuoteAt(s, i + 1)
  }

  lemma SeparateTail(s: string)
    requires s != "" && Separate(s)
    ensures Separate(s[1..]) && (s[0] == '"' ==> First(s[1..], None) != Some('"'))
  {
    forall i: nat | QuoteAt(s[1..], i) ensures !QuoteAt(s[1..], i + 1) {
      assert QuoteAt(s, i + 1);
      assert !QuoteAt(s, i + 1 + 1);
    }
    assert QuoteAt(s, 0) ==> !QuoteAt(s, 1);
  }

  lemma {:induction false} SeparateNeverDoubled(p: Scan, s: string)
    requires Separate(s)
    ensures NeverDoubled(p, s, None)
    decreases |s|
  {
    if s != "" {
      SeparateTail(s);
      SeparateNeverDoubled(Read(p, s[0], First(s[1..], None)), s[1..]);
    }
  }

  // ----- one run of quotes -----

  function Quotes(n: nat): (r: string)
    ensures |r| == n && forall i | 0 <= i < n :: r[i] == '"'
  {
    if n == 0 then "" else "\"" + Quotes(n - 1)
  }

  lemma QuotesNext(b: string, n: nat)
    ensures b + "\"" + Quotes(n) == b + Quotes(n + 1)
  {
  }

  /** The code turns a run of n quotes into n - 1 literal ones and ends the quoted part. */
  lemma {:induction false} ReadRun(b: string, r: seq<string>, n: nat, after: Option<char>)
    requires n > 0 && after != Some('"')
    ensures ReadAll(Scan(InDoubleQuote, 0, b, r), Quotes(n), after) == Scan(Arg, 0, b + Quotes(n - 1), r)
    decreases n
  {
    assert Backslashes(0) == "" && b + "" == b;
    assert Quotes(n)[1..] == Quotes(n - 1);
    if n > 1 {
      ReadRun(b + "\"", r, n - 1, after);
      QuotesNext(b, n - 2);
    } else {
      assert b + Quotes(0) == b;
    }
  }

  /** It was meant to turn it into half as many, and to end the quoted part if one is left over. */
  lemma {:induction false} ReadRunDocumented(b: string, r: seq<string>, n: nat, rest: string)
    requires !QuoteAt(rest, 0)
    ensures ReadDocumented(Scan(InDoubleQuote, 0, b, r), Quotes(n) + rest) ==
            ReadDocumented(Scan(if n % 2 == 0 then InDoubleQuote else Arg, 0, b + Quotes(n / 2), r), rest)
    decreases n
  {
    assert Backslashes(0) == "" && b + "" == b;
    var s := Quotes(n) + rest;
    if n == 0 {
      assert s == rest && b + Quotes(0) == b;
    } else if n == 1 {
      assert s[1..] == rest && b + Quotes(0) == b;
    } else {
      assert s[1] == '"' && s[2..] == Quotes(n - 2) + rest;
      ReadRunDocumented(b + "\"", r, n - 2, rest);
      QuotesNext(b, n / 2 - 1);
    }
  }

  // ----- two readings side by side -----

  predicate HasBlank(s: string) {
    ' ' in s || '\t' in s
  }

  lemma {:induction false} ResultGrows(p: Scan, s: string)
    ensures p.result <= Finish(ReadAll(p, s, None))
    decreases |s|
  {
    if s != "" {
      ResultGrows(Read(p, s[0], First(s[1..], None)), s[1..]);
    }
  }

  /** An argument that is being read begins with what has been read of it. */
  lemma {:induction false} ArgumentGrows(p: Scan, s: string)
    requires !p.mode.Default?
    ensures var f := Finish(ReadAll(p, s, None));
            |f| > |p.result| && f[..|p.result|] == p.result && p.buf <= f[|p.result|]
    decreases |s|
  {
    if s != "" {
      var q := Read(p, s[0], First(s[1..], None));
      if q.mode.Default? {
        ResultGrows(q, s[1..]);
      } else {
        ArgumentGrows(q, s[1..]);
      }
    }
  }

  /** Both readings are in an argument; they differ in the number of quotes in the middle of it,
      and perhaps in whether they are inside quotes. */
  predicate Beside(x: Scan, y: Scan, b: string, m: nat, n: nat, w: string) {
    && !x.mode.Default? && !y.mode.Default?
    && x.slashes == y.slashes && x.result == y.result
    && x.buf == b + Quotes(m) + w && y.buf == b + Quotes(n) + w
    && n <= m
  }

  /** The number of quotes that `w` starts with. */
  function QuotesFirst(w: string): (k: nat)
    ensures k <= |w| && (forall i | 0 <= i < k :: w[i] == '"') && (k < |w| ==> w[k] != '"')
  {
    if w != "" && w[0] == '"' then 1 + QuotesFirst(w[1..]) else 0
  }

  lemma NoPrefix(b: string, m: nat, n: nat, w: string, ch: char)
    requires n <= m && ch != '"'
    ensures !(b + Quotes(n) + w + [ch] <= b + Quotes(m) + w)
  {
    var u, v := b + Quotes(m) + w, b + Quotes(n) + w + [ch];
    var k := QuotesFirst(w + [ch]);
    assert (w + [ch])[|w|] == ch && k <= |w|;
    if n < m {
      assert v[|b| + n + k] == (w + [ch])[k] != '"';
      assert u[|b| + n + k] == '"' by {
        if n + k < m {
          assert u[|b| + n + k] == Quotes(m)[n + k];
        } else {
          assert u[|b| + n + k] == w[n + k - m] == (w + [ch])[n + k - m];
        }
      }
    } else {
      assert |v| > |u|;
    }
  }

  predicate SameEnd(x: Scan, y: Scan, s: string) {
    Finish(ReadAll(x, s, None)) == Finish(ReadAll(y, s, None))
  }

  /** At a blank, at least one of the two ends its argument. */
  lemma AtBlank(x: Scan, y: Scan, b: string, m: nat, n: nat, w: string, s: string)
    requires Beside(x, y, b, m, n, w) && x.slashes == 0 && s != "" && (s[0] == ' ' || s[0] == '\t')
    requires x.mode.Arg? || y.mode.Arg?
    ensures SameEnd(x, y, s) <==> m == n && x.mode == y.mode
  {
    var x1, y1 := Read(x, s[0], First(s[1..], None)), Read(y, s[0], First(s[1..], None));
    var f, g := Finish(ReadAll(x, s, None)), Finish(ReadAll(y, s, None));
    var i := |x.result|;
    assert |x.buf| - |y.buf| == m - n;
    if x.mode.Arg? {
      ResultGrows(x1, s[1..]);
      assert f[i] == x.buf;
    } else {
      ArgumentGrows(x1, s[1..]);
      assert x.buf + [s[0]] <= f[i];
    }
    if y.mode.Arg? {
      ResultGrows(y1, s[1..]);
      assert g[i] == y.buf;
    } else {
      ArgumentGrows(y1, s[1..]);
      assert y.buf + [s[0]] <= g[i];
      NoPrefix(b, m, n, w, s[0]);
    }
  }

  /** Everything else is added to both arguments, or moves both out of and into quotes. */
  lemma AtOther(x: Scan, y: Scan, b: string, m: nat, n: nat, w: string, ch: char, after: Option<char>)
    returns (w': string)
    requires Beside(x, y, b, m, n, w) && (ch == '"' ==> after != Some('"'))
    requires (ch == ' ' || ch == '\t') && x.slashes == 0 ==> x.mode.InDoubleQuote? && y.mode.InDoubleQuote?
    requires (ch == ' ' || ch == '\t') ==> x.slashes == 0
    ensures Beside(Read(x, ch, after), Read(y, ch, after), b, m, n, w')
    ensures Read(x, ch, after).mode == Read(y, ch, after).mode <==> x.mode == y.mode
  {
    var k := x.slashes;
    var added := if ch == '\\' then ""
                 else if ch != '"' then Backslashes(k) + [ch]
                 else if k % 2 == 0 then Backslashes(k / 2)
                 else Backslashes(k / 2) + "\"";
    w' := w + added;
    assert Backslashes(0) == "";
    Added(x.buf, b, m, w, added, Read(x, ch, after).buf);
    Added(y.buf, b, n, w, added, Read(y, ch, after).buf);
  }

  lemma Added(buf: string, b: string, n: nat, w: string, added: string, buf': string)
    requires buf == b + Quotes(n) + w && buf' == buf + added
    ensures buf' == b + Quotes(n) + (w + added)
  {
  }

  /** Backslashes before a blank are taken as they are. */
  function Flush(x: Scan): Scan {
    x.(slashes := 0, buf := x.buf + Backslashes(x.slashes))
  }

  lemma FlushFirst(x: Scan, ch: char, after: Option<char>)
    requires !x.mode.Default? && ch != '"' && ch != '\\'
    ensures Read(Flush(x), ch, after) == Read(x, ch, after)
  {
    assert Backslashes(0) == "";
    assert x.slashes == 0 ==> x.buf + Backslashes(x.slashes) == x.buf;
  }

  lemma FlushBeside(x: Scan, y: Scan, b: string, m: nat, n: nat, w: string)
    requires Beside(x, y, b, m, n, w)
    ensures Beside(Flush(x), Flush(y), b, m, n, w + Backslashes(x.slashes))
  {
    Added(x.buf, b, m, w, Backslashes(x.slashes), Flush(x).buf);
    Added(y.buf, b, n, w, Backslashes(x.slashes), Flush(y).buf);
  }

  /** From there on, over text without quotes side by side, they give the same arguments exactly if
      they agree in the number of quotes, and in being inside quotes unless there is no blank. */
  lemma {:induction false} SameExactlyIf(x: Scan, y: Scan, b: string, m: nat, n: nat, w: string, s: string)
    requires Beside(x, y, b, m, n, w) && Separate(s)
    ensures SameEnd(x, y, s) <==> m == n && (x.mode == y.mode || !HasBlank(s))
    decreases |s|, x.slashes
  {
    if s == "" {
      assert |x.buf| - |y.buf| == m - n;
      assert Finish(x)[|x.result|] == x.buf && Finish(y)[|x.result|] == y.buf;
    } else if (s[0] == ' ' || s[0] == '\t') && x.slashes > 0 {
      FlushFirst(x, s[0], First(s[1..], None));
      FlushFirst(y, s[0], First(s[1..], None));
      FlushBeside(x, y, b, m, n, w);
      SameExactlyIf(Flush(x), Flush(y), b, m, n, w + Backslashes(x.slashes), s);
    } else if (s[0] == ' ' || s[0] == '\t') && (x.mode.Arg? || y.mode.Arg?) {
      AtBlank(x, y, b, m, n, w, s);
    } else {
      SeparateTail(s);
      var after := First(s[1..], None);
      var w' := AtOther(x, y, b, m, n, w, s[0], after);
      SameExactlyIf(Read(x, s[0], after), Read(y, s[0], after), b, m, n, w', s[1..]);
      assert HasBlank(s) <==> s[0] == ' ' || s[0] == '\t' || HasBlank(s[1..]);
    }
  }

  // ----- a line with one run of quotes -----

  /** A line that leads up to a quote inside quotes, with none before that is doubled. */
  predicate LeadsIntoQuotes(pre: string) {
    var p := ReadAll(BEGIN, pre, Some('"'));
    NeverDoubled(BEGIN, pre, Some('"')) && p.mode.InDoubleQuote? && p.slashes % 2 == 0
  }

  /** What the run of quotes finds. */
  function AtRun(pre: string): Scan {
    var p := ReadAll(BEGIN, pre, Some('"'));
    p.(slashes := 0, buf := p.buf + Backslashes(p.slashes / 2))
  }

  lemma RunFlushes(pre: string, after: Option<char>)
    requires LeadsIntoQuotes(pre)
    ensures Read(ReadAll(BEGIN, pre, Some('"')), '"', after) == Read(AtRun(pre), '"', after)
  {
    assert Backslashes(0) == "";
    assert AtRun(pre).buf + "" == AtRun(pre).buf;
  }

  lemma CodeReadsRun(pre: string, n: nat, post: string)
    requires LeadsIntoQuotes(pre) && n > 0 && !QuoteAt(post, 0)
    ensures ReadAll(BEGIN, pre + (Quotes(n) + post), None) ==
            ReadAll(Scan(Arg, 0, AtRun(pre).buf + Quotes(n - 1), AtRun(pre).result), post, None)
  {
    var p := ReadAll(BEGIN, pre, Some('"'));
    var after := First(post, None);
    assert Quotes(n)[0] == '"' && First(Quotes(n) + post, None) == Some('"');
    ReadAppend(BEGIN, pre, Quotes(n) + post, None);
    ReadAppend(p, Quotes(n), post, None);
    RunFlushes(pre, First(Quotes(n)[1..], after));
    ReadRun(AtRun(pre).buf, AtRun(pre).result, n, after);
    assert ReadAll(p, Quotes(n), after) == ReadAll(AtRun(pre), Quotes(n), after);
  }

  lemma DocumentedReadsRun(pre: string, n: nat, post: string)
    requires LeadsIntoQuotes(pre) && n > 0 && !QuoteAt(post, 0)
    ensures ReadDocumented(BEGIN, pre + (Quotes(n) + post)) ==
            ReadDocumented(Scan(if n % 2 == 0 then InDoubleQuote else Arg, 0,
                                AtRun(pre).buf + Quotes(n / 2), AtRun(pre).result), post)
  {
    var p := ReadAll(BEGIN, pre, Some('"'));
    var s := Quotes(n) + post;
    assert Quotes(n)[0] == '"' && First(s, None) == Some('"');
    SameUpTo(BEGIN, pre, s);
    RunFlushes(pre, First(s[1..], None));
    assert ReadDocumented(p, s) == ReadDocumented(AtRun(pre), s);
    ReadRunDocumented(AtRun(pre).buf, AtRun(pre).result, n, post);
  }

  /** A line with one run of two or more quotes inside quotes, and no quotes side by side behind it:
      the code does what it was meant to do exactly if there are two, and no blank follows. */
  lemma OneRunAgreesIff(pre: string, n: nat, post: string)
    requires LeadsIntoQuotes(pre) && n >= 2 && !QuoteAt(post, 0) && Separate(post)
    ensures Split(pre + (Quotes(n) + post)) == SplitDocumented(pre + (Quotes(n) + post)) <==>
            n == 2 && !HasBlank(post)
  {
    var b, r := AtRun(pre).buf, AtRun(pre).result;
    var x := Scan(Arg, 0, b + Quotes(n - 1), r);
    var y := Scan(if n % 2 == 0 then InDoubleQuote else Arg, 0, b + Quotes(n / 2), r);
    CodeReadsRun(pre, n, post);
    DocumentedReadsRun(pre, n, post);
    SeparateNeverDoubled(y, post);
    SameUpTo(y, post, "");
    assert post + "" == post;
    assert x.buf == b + Quotes(n - 1) + "" && y.buf == b + Quotes(n / 2) + "";
    SameExactlyIf(x, y, b, n - 1, n / 2, "", post);
  }
}
