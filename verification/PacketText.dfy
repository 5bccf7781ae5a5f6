/** What read_json makes of a packet, and int() of the length in it, in terms of their text. */
module PacketText {
  import opened Options
  import opened Sequences
  import opened Framing

  // ----- header lines -----

  /** The line gives a value for the key: the key, and the value behind a colon, if there is one. */
  predicate HasKey(line: Bytes, key: Bytes) {
    line == key || key + ":" <= line
  }

  function ValueBehind(line: Bytes, key: Bytes): Bytes
    requires HasKey(line, key)
  {
    if line == key then "" else line[|key| + 1..]
  }

  /** The value that the last line with that key gives. */
  function LastValue(lines: seq<Bytes>, key: Bytes): Option<Bytes> {
    if lines == [] then None
    else if HasKey(lines[|lines| - 1], key) then Some(ValueBehind(lines[|lines| - 1], key))
    else LastValue(lines[..|lines| - 1], key)
  }

  /** Lines of a header part: none is empty, and none has a CR LF in it. */
  predicate HeaderLines(lines: seq<Bytes>) {
    forall i | 0 <= i < |lines| :: lines[i] != "" && Clear(lines[i], |lines[i]|)
  }

  lemma KeyIff(line: Bytes, key: Bytes)
    requires ':' !in key
    ensures Key(line) == key <==> HasKey(line, key)
    ensures HasKey(line, key) ==> Value(line) == ValueBehind(line, key)
  {
    FindFirst(line, ':');
    if HasKey(line, key) {
      if line == key {
        assert Find(line, ':') == |line|;
      } else {
        FindAt(line, ':', |key|);
      }
    }
    if Key(line) == key && |key| < |line| {
      assert line[..|key|] == key && line[|key|] == ':';
    }
  }

  lemma PutNext(headers: map<Bytes, Bytes>, lines: seq<Bytes>, line: Bytes)
    ensures Put(headers, lines + [line]) == Put(headers, lines)[Key(line) := Value(line)]
    decreases |lines|
  {
    if lines == [] {
      assert lines + [line] == [line];
    } else {
      assert (lines + [line])[1..] == lines[1..] + [line];
      PutNext(headers[Key(lines[0]) := Value(lines[0])], lines[1..], line);
    }
  }

  lemma {:induction false} PutIs(lines: seq<Bytes>, key: Bytes)
    requires ':' !in key
    ensures var h := Put(map[], lines);
            && (key in h <==> LastValue(lines, key).Some?)
            && (key in h ==> h[key] == LastValue(lines, key).value)
    decreases |lines|
  {
    if lines != [] {
      var before, last := lines[..|lines| - 1], lines[|lines| - 1];
      assert lines == before + [last];
      PutNext(map[], before, last);
      PutIs(before, key);
      KeyIff(last, key);
    }
  }

  lemma {:induction false} ParseLines(lines: seq<Bytes>, rest: Bytes, ending: Ending, headers: map<Bytes, Bytes>)
    requires HeaderLines(lines)
    ensures ParseHeaders(Lines(lines) + rest, ending, headers) == ParseHeaders(rest, ending, Put(headers, lines))
    decreases |lines|
  {
    if lines == [] {
      assert Lines(lines) + rest == rest;
    } else {
      var tail := Lines(lines[1..]) + rest;
      assert Lines(lines) + rest == lines[0] + CRLF + tail;
      ParseOneLine(lines[0], tail, ending);
      ParseLines(lines[1..], rest, ending, headers[Key(lines[0]) := Value(lines[0])]);
    }
  }

  /** What read_json makes of header lines, an empty line and what follows: the last Content-Length
      counts. Without one, or if it is no number from 0 to the limit, reading fails; if less than that
      follows, the messages are over; and so much of what follows is decoded, or reading fails. */
  function Outcome<T>(lines: seq<Bytes>, body: Bytes, decode: Bytes -> Option<T>): Read<T> {
    var v := LastValue(lines, "Content-Length");
    if v.None? || ParseInt(v.value).None? then Invalid
    else
      var n := ParseInt(v.value).value;
      if n < 0 || n > 0xFFFFFF then Invalid
      else if |body| < n then NoMoreMessages
      else if decode(body[..n]).None? then Invalid
      else Got(decode(body[..n]).value, body[n..])
  }

  lemma PacketIs<T>(lines: seq<Bytes>, body: Bytes, ending: Ending, decode: Bytes -> Option<T>)
    requires HeaderLines(lines)
    ensures ParseJson(Lines(lines) + (CRLF + body), ending, decode) == Outcome(lines, body, decode)
  {
    PacketHeaders(lines, body, ending);
    LengthIs(lines);
  }

  lemma PacketHeaders(lines: seq<Bytes>, body: Bytes, ending: Ending)
    requires HeaderLines(lines)
    ensures ParseHeaders(Lines(lines) + (CRLF + body), ending, map[]) == Headers(Put(map[], lines), body)
  {
    ParseLines(lines, CRLF + body, ending, map[]);
    ParseOneLine("", body, ending);
    assert "" + CRLF + body == CRLF + body;
  }

  lemma LengthIs(lines: seq<Bytes>)
    ensures var v := LastValue(lines, "Content-Length");
            ContentLength(Put(map[], lines)) ==
            if v.None? || ParseInt(v.value).None? || !(0 <= ParseInt(v.value).value <= 0xFFFFFF) then None
            else Some(ParseInt(v.value).value)
  {
    assert ':' !in "Content-Length";
    PutIs(lines, "Content-Length");
  }

  lemma FirstLine(d: Bytes) returns (line: Bytes, rest: Bytes)
    requires BlankLine(d)
    ensures Clear(line, |line|) && d == line + CRLF + rest
    ensures line != "" ==> BlankLine(rest)
  {
    FindCrLfIs(d);
    var i := FindCrLf(d);
    assert i.Some?;
    line, rest := d[..i.value], d[i.value + 2..];
    LineIsClear(d, i.value);
    if i.value > 0 {
      BehindLine(d, i.value);
    }
  }

  /** Every input that has an empty line is header lines, the first empty line and what follows. */
  lemma {:induction false} IsPacket(d: Bytes) returns (lines: seq<Bytes>, body: Bytes)
    requires BlankLine(d)
    ensures HeaderLines(lines) && d == Lines(lines) + (CRLF + body)
    decreases |d|
  {
    var line, rest := FirstLine(d);
    if line == "" {
      lines, body := [], rest;
    } else {
      var others;
      others, body := IsPacket(rest);
      lines := [line] + others;
      LinesNext(line, others, CRLF + body);
    }
  }

  lemma LinesNext(line: Bytes, others: seq<Bytes>, rest: Bytes)
    ensures Lines([line] + others) + rest == line + CRLF + (Lines(others) + rest)
  {
    assert ([line] + others)[1..] == others;
  }

  lemma LineIsClear(d: Bytes, i: nat)
    requires i <= |d| && Clear(d, i)
    ensures Clear(d[..i], i)
  {
    forall j: nat | j < i ensures !CrLfAt(d[..i], j) {
      assert !CrLfAt(d, j);
    }
  }

  // ----- numbers -----

  /** Digits with single underscores between them. */
  predicate Numeral(s: Bytes) {
    && s != "" && s[0] != '_' && s[|s| - 1] != '_'
    && (forall i | 0 <= i < |s| :: '0' <= s[i] <= '9' || s[i] == '_')
    && (forall i | 0 <= i < |s| - 1 && s[i] == '_' :: NotUnderscore(s, i + 1))
  }

  predicate NotUnderscore(s: Bytes, i: nat) {
    i < |s| && s[i] != '_'
  }

  /** The number that the digits stand for, in base ten. */
  function NumeralValue(s: Bytes): nat
    requires forall i | 0 <= i < |s| :: '0' <= s[i] <= '9' || s[i] == '_'
  {
    if s == "" then 0
    else
      var before := NumeralValue(s[..|s| - 1]);
      if s[|s| - 1] == '_' then before else 10 * before + (s[|s| - 1] as int - '0' as int)
  }

  lemma {:induction false} DigitsIff(s: Bytes)
    ensures ParseDigits(s).Some? <==> Numeral(s)
    ensures Numeral(s) ==> ParseDigits(s).value == NumeralValue(s)
    decreases |s|
  {
    if s != "" && IsDigit(s[|s| - 1]) && |s| > 1 {
      var init := s[..|s| - 1];
      if init[|init| - 1] == '_' {
        DigitsIff(init[..|init| - 1]);
        UnderscoreBehind(init[..|init| - 1], s);
      } else {
        DigitsIff(init);
        DigitBehind(init, s);
      }
    }
  }

  lemma DigitBehind(t: Bytes, s: Bytes)
    requires |s| > 1 && t == s[..|s| - 1] && t[|t| - 1] != '_' && IsDigit(s[|s| - 1])
    ensures Numeral(s) <==> Numeral(t)
    ensures Numeral(s) ==> NumeralValue(s) == 10 * NumeralValue(t) + DigitValue(s[|s| - 1])
  {
    forall i | 1 <= i < |t| ensures NotUnderscore(s, i) <==> NotUnderscore(t, i) {
    }
    forall i | 0 <= i < |s| - 1 ensures s[i] == t[i] {
    }
  }

  lemma UnderscoreBehind(t: Bytes, s: Bytes)
    requires |s| > 1 && s[|s| - 2] == '_' && t == s[..|s| - 2] && IsDigit(s[|s| - 1])
    ensures Numeral(s) <==> Numeral(t)
    ensures Numeral(s) ==> NumeralValue(s) == 10 * NumeralValue(t) + DigitValue(s[|s| - 1])
  {
    forall i | 0 <= i < |t| ensures s[i] == t[i] {
    }
    assert NotUnderscore(s, |s| - 1);
    forall i | 1 <= i < |t| ensures NotUnderscore(s, i) <==> NotUnderscore(t, i) {
    }
    if Numeral(s) && t != "" {
      assert t[|t| - 1] == '_' ==> NotUnderscore(s, |t| - 1 + 1);
    }
    if Numeral(s) {
      assert s[..|s| - 1][..|s| - 2] == t;
    }
  }

  predicate Spaces(s: Bytes) {
    forall c <- s :: c == ' ' || c == '\t' || c == '\n' || c == '\U{0B}' || c == '\U{0C}' || c == '\r'
  }

  /** The number that a text without spaces around it stands for. */
  function Signed(t: Bytes): Option<int> {
    var signed := t != "" && (t[0] == '-' || t[0] == '+');
    var digits := if signed then t[1..] else t;
    if !Numeral(digits) then None
    else
      var n: int := NumeralValue(digits);
      Some(if signed && t[0] == '-' then 0 - n else n)
  }

  lemma {:induction false} StripIs(a: Bytes, t: Bytes, b: Bytes)
    requires Spaces(a) && Spaces(b) && t != "" && !IsSpace(t[0]) && !IsSpace(t[|t| - 1])
    ensures Strip(a + t + b) == t
    decreases |a| + |b|
  {
    var s := a + t + b;
    if a != "" {
      assert a[0] in a && s[1..] == a[1..] + t + b;
      assert forall c <- a[1..] :: c in a;
      StripIs(a[1..], t, b);
    } else if b != "" {
      var init := b[..|b| - 1];
      assert b[|b| - 1] in b && s[..|s| - 1] == a + t + init;
      assert forall c <- init :: c in b;
      assert Spaces(init);
      assert s[0] == t[0] && s[|s| - 1] == b[|b| - 1];
      StripIs(a, t, init);
    } else {
      assert s == t;
    }
  }

  predicate SpaceAt(s: Bytes, k: nat) {
    k < |s| && IsSpace(s[k])
  }

  /** Where the text without the spaces around it stands. */
  lemma {:induction false} StripAt(s: Bytes) returns (i: nat, j: nat)
    ensures i <= j <= |s| && Strip(s) == s[i..j]
    ensures forall k: nat | k < i || j <= k < |s| :: SpaceAt(s, k)
    decreases |s|
  {
    if s != "" && IsSpace(s[0]) {
      i, j := StripAt(s[1..]);
      i, j := i + 1, j + 1;
      assert forall k: nat | 0 < k < |s| :: SpaceAt(s, k) <==> SpaceAt(s[1..], k - 1);
    } else if s != "" && IsSpace(s[|s| - 1]) {
      i, j := StripAt(s[..|s| - 1]);
      assert forall k: nat | k < |s| - 1 :: SpaceAt(s, k) <==> SpaceAt(s[..|s| - 1], k);
    } else {
      i, j := 0, |s|;
    }
  }

  lemma StripParts(s: Bytes) returns (a: Bytes, b: Bytes)
    ensures s == a + Strip(s) + b && Spaces(a) && Spaces(b)
  {
    var i, j := StripAt(s);
    a, b := s[..i], s[j..];
    forall k | 0 <= k < |a| ensures IsSpace(a[k]) {
      assert SpaceAt(s, k);
    }
    forall k | 0 <= k < |b| ensures IsSpace(b[k]) {
      assert SpaceAt(s, j + k);
    }
  }

  lemma SignedEnds(t: Bytes)
    requires Signed(t).Some?
    ensures t != "" && !IsSpace(t[0]) && !IsSpace(t[|t| - 1])
  {
  }

  lemma ParseStripped(s: Bytes)
    ensures ParseInt(s) == Signed(Strip(s))
  {
    var t := Strip(s);
    DigitsIff(t);
    if t != "" {
      DigitsIff(t[1..]);
      assert t[0] == '+' || t[0] == '-' ==> !Numeral(t);
    }
  }

  /** int() gives a number exactly for spaces, a sign or none, digits with single underscores between
      them, and spaces; and it is the number that the digits stand for. */
  lemma IntIff(s: Bytes, n: int)
    ensures ParseInt(s) == Some(n) <==>
            exists a: Bytes, t: Bytes, b: Bytes :: s == a + t + b && Spaces(a) && Spaces(b) && Signed(t) == Some(n)
  {
    ParseStripped(s);
    if ParseInt(s) == Some(n) {
      var a, b := StripParts(s);
    }
    if a: Bytes, t: Bytes, b: Bytes :| s == a + t + b && Spaces(a) && Spaces(b) && Signed(t) == Some(n) {
      SignedEnds(t);
      StripIs(a, t, b);
    }
  }
}
