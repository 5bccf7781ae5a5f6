/**
 JsonIOStream: values framed as in the base protocol of the Debug Adapter Protocol, a header
 part of lines ended by CR LF, an empty line, and a content part whose length in bytes the
 Content-Length header gives in decimal.
 */
module Framing {
  import opened Options
  import opened Sequences

  /** A byte string, one character for each byte. */
  type Bytes = string

  const CRLF: Bytes := "\r\n"
  const MAX_BODY_SIZE: nat := 0xFFFFFF

  /** What reading does once the bytes have run out. */
  datatype Ending = Eof | Error

  // ----- lines -----

  /** The position of the first CR LF. */
  function FindCrLf(d: Bytes): (r: Option<nat>)
    ensures r.Some? ==> r.value + 2 <= |d| && d[r.value] == '\r' && d[r.value + 1] == '\n'
  {
    if |d| < 2 then None
    else if d[0] == '\r' && d[1] == '\n' then Some(0)
    else
      var r := FindCrLf(d[1..]);
      if r.None? then None else Some(r.value + 1)
  }

  /** `Spins` stands for the loop of _read_line that never ends: at the end of the input it
      keeps reading nothing while it holds part of a line. */
  datatype LineRead = Line(line: Bytes, rest: Bytes) | NoLine | LineSpins

  function ParseLine(d: Bytes, ending: Ending): LineRead {
    var r := FindCrLf(d);
    if r.Some? then Line(d[..r.value], d[r.value + 2..])
    else if d == "" || ending.Error? then NoLine
    else LineSpins
  }

  // ----- the header part -----

  function Key(line: Bytes): Bytes {
    line[..Find(line, ':')]
  }

  function Value(line: Bytes): Bytes {
    var n := Find(line, ':');
    if n == |line| then "" else line[n + 1..]
  }

  datatype HeadersRead = Headers(headers: map<Bytes, Bytes>, rest: Bytes) | NoHeaders | HeadersSpin

  function ParseHeaders(d: Bytes, ending: Ending, headers: map<Bytes, Bytes>): (r: HeadersRead)
    ensures r.Headers? ==> |r.rest| < |d|
    decreases |d|
  {
    match ParseLine(d, ending)
    case NoLine => NoHeaders
    case LineSpins => HeadersSpin
    case Line(line, rest) =>
      if line == "" then Headers(headers, rest) else ParseHeaders(rest, ending, headers[Key(line) := Value(line)])
  }

  // ----- numbers -----

  predicate IsDigit(c: char) {
    '0' <= c <= '9'
  }

  predicate IsSpace(c: char) {
    c == ' ' || '\t' <= c <= '\r'
  }

  function DigitValue(c: char): nat
    requires IsDigit(c)
  {
    c as int - '0' as int
  }

  /** Digits, with single underscores allowed between them. */
  function ParseDigits(s: Bytes): Option<nat>
    decreases |s|
  {
    if s == "" || !IsDigit(s[|s| - 1]) then None
    else if |s| == 1 then Some(DigitValue(s[0]))
    else
      var init := s[..|s| - 1];
      var r := ParseDigits(if init[|init| - 1] == '_' then init[..|init| - 1] else init);
      if r.None? then None else Some(10 * r.value + DigitValue(s[|s| - 1]))
  }

  function Strip(s: Bytes): Bytes
    decreases |s|
  {
    if s != "" && IsSpace(s[0]) then Strip(s[1..])
    else if s != "" && IsSpace(s[|s| - 1]) then Strip(s[..|s| - 1])
    else s
  }

  /** int(s) */
  function ParseInt(s: Bytes): Option<int> {
    var t := Strip(s);
    var signed := t != "" && (t[0] == '+' || t[0] == '-');
    var r := ParseDigits(if signed then t[1..] else t);
    if r.None? then None
    else
      var n: int := r.value;
      Some(if signed && t[0] == '-' then -n else n)
  }

  function Decimal(n: nat): Bytes {
    if n < 10 then [('0' as int + n) as char] else Decimal(n / 10) + [('0' as int + n % 10) as char]
  }

  // ----- values -----

  function ContentLength(headers: map<Bytes, Bytes>): Option<nat> {
    if "Content-Length" !in headers then None
    else
      var r := ParseInt(headers["Content-Length"]);
      if r.None? || r.value < 0 || r.value > MAX_BODY_SIZE then None else Some(r.value)
  }

  datatype Read<T> =
    | Got(value: T, rest: Bytes)
    | NoMoreMessages
    | Invalid          // an error other than NoMoreMessages
    | Spins

  /** read_json on a reader that holds `d`. */
  function ParseJson<T>(d: Bytes, ending: Ending, decode: Bytes -> Option<T>): (r: Read<T>)
    ensures r.Got? ==> |r.rest| < |d|
  {
    match ParseHeaders(d, ending, map[])
    case NoHeaders => NoMoreMessages
    case HeadersSpin => Spins
    case Headers(headers, rest) =>
      var length := ContentLength(headers);
      if length.None? then Invalid
      else if |rest| < length.value then NoMoreMessages
      else
        var v := decode(rest[..length.value]);
        if v.None? then Invalid else Got(v.value, rest[length.value..])
  }

  function HeaderLine(n: nat): Bytes {
    "Content-Length: " + Decimal(n)
  }

  /** The bytes that write_json sends for a body. */
  function Frame(body: Bytes): Bytes {
    HeaderLine(|body|) + CRLF + CRLF + body
  }

  // ----- the source's loops -----

  /** A reader that may hand out its bytes in chunks of any size. */
  class ByteReader {
    var data: Bytes
    const ending: Ending

    constructor (data: Bytes, ending: Ending)
      ensures this.data == data && this.ending == ending
    {
      this.data, this.ending := data, ending;
    }

    /** Bytes up to the next LF, or all that is left at the end of the input. */
    method Readline() returns (raised: bool, line: Bytes)
      modifies this
      ensures raised <==> Find(old(data), '\n') == |old(data)| && ending.Error?
      ensures old(data) == line + data
      ensures line != "" ==> line[|line| - 1] == '\n' || data == ""
      ensures |line| == if raised then 0
                        else if Find(old(data), '\n') < |old(data)| then Find(old(data), '\n') + 1
                        else |old(data)|
    {
      var n := Find(data, '\n');
      if n < |data| {
        raised, line, data := false, data[..n + 1], data[n + 1..];
      } else if ending.Error? {
        raised, line := true, "";
      } else {
        raised, line, data := false, data, "";
      }
    }

    /** At least one and at most `n` bytes, as long as there are any. */
    method ReadSome(n: nat) returns (raised: bool, chunk: Bytes)
      requires n > 0
      modifies this
      ensures |chunk| <= n && old(data) == chunk + data
      ensures chunk == "" <==> old(data) == ""
      ensures raised ==> chunk == ""
    {
      if data == "" {
        return ending.Error?, "";
      }
      var k: nat :| 1 <= k <= n && k <= |data|;
      raised, chunk, data := false, data[..k], data[k..];
    }
  }

  /** A writer that may take any positive number of the bytes it is offered, or raise. */
  class ByteWriter {
    var written: Bytes

    /** `None` is a full write, as Python 2 reports it. */
    method Write(data: Bytes) returns (raised: bool, taken: Option<nat>)
      requires data != ""
      modifies this
      ensures taken.Some? ==> 1 <= taken.value <= |data|
      ensures old(written) <= written <= old(written) + data
      ensures !raised ==> |written| == |old(written)| + if taken.Some? then taken.value else |data|
    {
      var k: nat :| k <= |data|;
      written := written + data[..k];
      if k == 0 {
        return true, None;
      }
      raised :| raised || !raised;
      taken := if k == |data| then None else Some(k);
    }

    method Flush() returns (raised: bool)
    {
      raised :| raised || !raised;
    }
  }

  datatype WriteResult = Sent | Refused | Raised

  /** No CR LF starts before position `n`. */
  predicate Clear(d: Bytes, n: int) {
    forall j: nat | j < n :: !CrLfAt(d, j)
  }

  predicate CrLfAt(d: Bytes, j: nat) {
    j + 1 < |d| && d[j] == '\r' && d[j + 1] == '\n'
  }

  lemma {:induction false} FindCrLfAt(d: Bytes, i: nat)
    requires CrLfAt(d, i) && Clear(d, i)
    ensures FindCrLf(d) == Some(i)
  {
    if i > 0 {
      assert !CrLfAt(d, 0);
      forall j: nat | j < i - 1 ensures !CrLfAt(d[1..], j) {
        assert !CrLfAt(d, j + 1);
      }
      FindCrLfAt(d[1..], i - 1);
    }
  }

  lemma {:induction false} FindNoCrLf(d: Bytes)
    requires Clear(d, |d|)
    ensures FindCrLf(d) == None
  {
    if |d| >= 2 {
      assert !CrLfAt(d, 0);
      forall j: nat | j < |d| - 1 ensures !CrLfAt(d[1..], j) {
        assert !CrLfAt(d, j + 1);
      }
      FindNoCrLf(d[1..]);
    }
  }

  lemma FindFirst(s: Bytes, c: char)
    ensures forall i | 0 <= i < Find(s, c) :: s[i] != c
  {
    assert forall i | 0 <= i < Find(s, c) :: s[i] == s[..Find(s, c)][i];
  }

  class JsonIOStream<T> {
    const reader: ByteReader
    const writer: ByteWriter
    const encode: T -> Bytes
    const decode: Bytes -> Option<T>
    var closed: bool

    constructor (reader: ByteReader, writer: ByteWriter, encode: T -> Bytes, decode: Bytes -> Option<T>)
      ensures this.reader == reader && this.writer == writer && this.encode == encode && this.decode == decode
              && !closed
    {
      this.reader, this.writer, this.encode, this.decode, closed := reader, writer, encode, decode, false;
    }

    /** _read_line */
    method ReadLine() returns (r: LineRead)
      modifies reader
      ensures r == ParseLine(old(reader.data), reader.ending)
      ensures r.Line? ==> reader.data == r.rest
    {
      ghost var d := reader.data;
      var line := "";
      var done := false;
      r := NoLine;
      while !done
        invariant if done then r == ParseLine(d, reader.ending) && (r.Line? ==> reader.data == r.rest)
                  else Partial(d, line, reader.data)
        decreases !done, |reader.data|
      {
        done, r, line := ExtendLine(d, line);
      }
    }

    /** The loop of read_json over the header lines. */
    method ReadHeaders() returns (r: HeadersRead)
      modifies reader
      ensures r == ParseHeaders(old(reader.data), reader.ending, map[])
      ensures r.Headers? ==> reader.data == r.rest
    {
      ghost var d := reader.data;
      var headers: map<Bytes, Bytes> := map[];
      while true
        invariant ParseHeaders(d, reader.ending, map[]) == ParseHeaders(reader.data, reader.ending, headers)
        decreases |reader.data|
      {
        var l := ReadLine();
        match l {
          case NoLine => return NoHeaders;
          case LineSpins => return HeadersSpin;
          case Line(line, rest) =>
            if line == "" {
              return Headers(headers, reader.data);
            }
            headers := headers[Key(line) := Value(line)];
        }
      }
    }

    /** The loop of read_json over the body: `None` is NoMoreMessages. */
    method ReadBody(length: nat) returns (body: Option<Bytes>)
      modifies reader
      ensures if |old(reader.data)| < length then body == None
              else body == Some(old(reader.data)[..length]) && reader.data == old(reader.data)[length..]
    {
      var chunks := "";
      var remaining := length;
      while remaining > 0
        invariant old(reader.data) == chunks + reader.data && remaining >= 0 && |chunks| + remaining == length
      {
        var raised, chunk := reader.ReadSome(remaining);
        if raised || chunk == "" {
          return None;
        }
        assert old(reader.data) == chunks + chunk + reader.data;
        chunks := chunks + chunk;
        remaining := remaining - |chunk|;
      }
      assert old(reader.data)[..length] == chunks && old(reader.data)[length..] == reader.data;
      body := Some(chunks);
    }

    /** read_json, for any way in which the reader hands out its bytes. */
    method ReadJson() returns (r: Read<T>)
      modifies reader
      ensures r == ParseJson(old(reader.data), reader.ending, decode)
      ensures r.Got? ==> reader.data == r.rest
    {
      var h := ReadHeaders();
      match h {
        case NoHeaders => return NoMoreMessages;
        case HeadersSpin => return Spins;
        case Headers(headers, rest) =>
          var length := ContentLength(headers);
          if length.None? {
            return Invalid;
          }
          var body := ReadBody(length.value);
          if body.None? {
            return NoMoreMessages;
          }
          var v := decode(body.value);
          r := if v.None? then Invalid else Got(v.value, reader.data);
      }
    }

    /** write_json, for any way in which the writer takes its bytes; `Raised` stands for the
        JsonIOError that a failing writer causes. */
    method WriteJson(value: T) returns (r: WriteResult)
      modifies writer
      ensures r == Refused <==> closed
      ensures closed ==> writer.written == old(writer.written)
      ensures r == Sent ==> writer.written == old(writer.written) + Frame(encode(value))
      ensures old(writer.written) <= writer.written <= old(writer.written) + Frame(encode(value))
    {
      if closed {
        return Refused;
      }
      var data := Frame(encode(value));
      r := WriteAll(data);
      if r == Sent {
        var raised := writer.Flush();
        r := if raised then WriteResult.Raised else Sent;
      }
    }

    /** The loop of write_json. */
    method WriteAll(data: Bytes) returns (r: WriteResult)
      modifies writer
      ensures r == Sent || r == WriteResult.Raised
      ensures r == Sent ==> writer.written == old(writer.written) + data
      ensures old(writer.written) <= writer.written <= old(writer.written) + data
    {
      var dataWritten := 0;
      while dataWritten < |data|
        invariant dataWritten <= |data| && writer.written == old(writer.written) + data[..dataWritten]
      {
        ghost var before := writer.written;
        var raised, taken := writer.Write(data[dataWritten..]);
        assert before + data[dataWritten..] == old(writer.written) + data;
        if raised {
          return WriteResult.Raised;
        }
        if taken.None? {
          return Sent;
        }
        dataWritten := dataWritten + taken.value;
      }
      r := Sent;
    }

    /** One round of the loop of _read_line. */
    method ExtendLine(ghost d: Bytes, line: Bytes) returns (done: bool, r: LineRead, extended: Bytes)
      requires Partial(d, line, reader.data)
      modifies reader
      ensures done ==> r == ParseLine(d, reader.ending) && (r.Line? ==> reader.data == r.rest)
      ensures !done ==> Partial(d, extended, reader.data) && |reader.data| < |old(reader.data)|
    {
      ghost var before := reader.data;
      var raised, raw := reader.Readline();
      extended := line + raw;
      if raised {
        NoMoreLines(d, line, before);
        return true, NoLine, line;
      }
      ReadlineIsOneLine(before, raw);
      Round(d, line, before, raw, reader.data, reader.ending);
      if extended == "" {
        return true, NoLine, "";
      }
      if EndsInCrLf(extended) {
        return true, Line(extended[..|extended| - 2], reader.data), extended;
      }
      if raw == "" {
        // in the source every further readline() returns nothing as well
        return true, LineSpins, line;
      }
      return false, NoLine, extended;
    }
  }

  predicate EndsInCrLf(line: Bytes) {
    |line| >= 2 && line[|line| - 2] == '\r' && line[|line| - 1] == '\n'
  }

  /** What one round of _read_line finds, after a readline() that did not raise. */
  lemma Round(d: Bytes, line: Bytes, before: Bytes, raw: Bytes, rest: Bytes, ending: Ending)
    requires Partial(d, line, before) && before == raw + rest && OneLine(raw)
    requires raw != "" ==> raw[|raw| - 1] == '\n' || rest == ""
    requires raw == "" ==> before == "" && ending.Eof?
    ensures var e := line + raw;
            if EndsInCrLf(e) then ParseLine(d, ending) == Line(e[..|e| - 2], rest)
            else if raw == "" then ParseLine(d, ending) == if e == "" then NoLine else LineSpins
            else Partial(d, e, rest)
  {
    var e := line + raw;
    Advance(d, line, before, raw, rest);
    assert forall j | |line| <= j < |e| - 1 :: d[j] == raw[j - |line|];
    if EndsInCrLf(e) {
      LineEnds(d, |line|, e, ending);
    } else if raw == "" {
      FindNoCrLf(d);
    } else {
      LineGoesOn(d, |line|, e);
    }
  }

  /** _read_line has put together `line`, without a CR LF yet, and `rest` is still to be read. */
  ghost predicate Partial(d: Bytes, line: Bytes, rest: Bytes) {
    && d == line + rest
    && Clear(d, |line|)
    && (line == "" || line[|line| - 1] == '\n' || rest == "")
  }

  lemma Advance(d: Bytes, line: Bytes, before: Bytes, raw: Bytes, rest: Bytes)
    requires d == line + before && before == raw + rest
    ensures d == line + raw + rest && line + raw <= d && d[|line|..] == before && d[|line + raw|..] == rest
    ensures raw != "" ==> (line + raw)[|line + raw| - 1] == raw[|raw| - 1]
  {
  }

  /** A LF stands at most at the end. */
  predicate OneLine(raw: Bytes) {
    forall j | 0 <= j < |raw| - 1 :: raw[j] != '\n'
  }

  lemma ReadlineIsOneLine(before: Bytes, raw: Bytes)
    requires raw <= before && |raw| <= Find(before, '\n') + 1
    ensures OneLine(raw)
  {
    FindFirst(before, '\n');
  }

  lemma LineEnds(d: Bytes, start: nat, line: Bytes, ending: Ending)
    requires line <= d && start <= |line| && Clear(d, start) && EndsInCrLf(line)
    requires forall j | start <= j < |line| - 1 :: d[j] != '\n'
    ensures ParseLine(d, ending) == Line(line[..|line| - 2], d[|line|..])
  {
    assert d[|line| - 2] == line[|line| - 2] && d[|line| - 1] == line[|line| - 1];
    FindCrLfAt(d, |line| - 2);
    assert d[..|line| - 2] == line[..|line| - 2];
  }

  lemma LineGoesOn(d: Bytes, start: nat, line: Bytes)
    requires line <= d && start < |line| && Clear(d, start) && !EndsInCrLf(line)
    requires forall j | start <= j < |line| - 1 :: d[j] != '\n'
    requires line[|line| - 1] == '\n' || |line| == |d|
    requires start > 0 ==> d[start - 1] == '\n'
    ensures Clear(d, |line|)
  {
    assert forall j | 0 <= j < |line| :: d[j] == line[j];
  }

  lemma NoMoreLines(d: Bytes, line: Bytes, rest: Bytes)
    requires d == line + rest && Clear(d, |line|) && Find(rest, '\n') == |rest|
    ensures FindCrLf(d) == None
  {
    FindFirst(rest, '\n');
    forall k | |line| <= k < |d| ensures d[k] != '\n' {
      assert d[k] == rest[k - |line|];
    }
    FindNoCrLf(d);
  }

  // ----- input that ends inside a header line -----

  /** The first CR LF is found, if there is one. */
  lemma {:induction false} FindCrLfIs(d: Bytes)
    ensures match FindCrLf(d) case None => Clear(d, |d|) case Some(i) => CrLfAt(d, i) && Clear(d, i)
  {
    if |d| >= 2 && !CrLfAt(d, 0) {
      FindCrLfIs(d[1..]);
      forall j: nat | 0 < j && CrLfAt(d, j) ensures CrLfAt(d[1..], j - 1) {
      }
    }
  }

  /** `d` holds an empty line, which ends the header part. */
  predicate BlankLine(d: Bytes) {
    CrLfAt(d, 0) || exists j: nat | j < |d| :: CrLfAt(d, j) && CrLfAt(d, j + 2)
  }

  /** Behind the first line, which is not empty, there is an empty line exactly if `d` has one,
      and the input ends as `d` does. */
  lemma BehindLine(d: Bytes, i: nat)
    requires 0 < i && CrLfAt(d, i) && Clear(d, i)
    ensures BlankLine(d) <==> BlankLine(d[i + 2..])
    ensures d[i + 2..] == "" ==> EndsInCrLf(d)
    ensures d[i + 2..] != "" ==> (EndsInCrLf(d) <==> EndsInCrLf(d[i + 2..]))
  {
    var rest := d[i + 2..];
    forall k: nat ensures CrLfAt(rest, k) <==> CrLfAt(d, k + i + 2) {
    }
    if BlankLine(d) {
      assert !CrLfAt(d, 0);
      var j: nat :| CrLfAt(d, j) && CrLfAt(d, j + 2);
      assert j == i || j >= i + 2;
      if j >= i + 2 {
        assert CrLfAt(rest, j - i - 2) && CrLfAt(rest, j - i - 2 + 2);
      }
    }
    if BlankLine(rest) {
      if CrLfAt(rest, 0) {
        assert CrLfAt(d, i) && CrLfAt(d, i + 2);
      } else {
        var j: nat :| CrLfAt(rest, j) && CrLfAt(rest, j + 2);
        assert CrLfAt(d, j + i + 2) && CrLfAt(d, j + i + 2 + 2);
      }
    }
  }

  /** The header part is read exactly if there is an empty line. Else reading never ends exactly
      if the input ends, without an error, behind a line that was begun. */
  lemma {:induction false} HeadersReadIff(d: Bytes, ending: Ending, headers: map<Bytes, Bytes>)
    ensures var r := ParseHeaders(d, ending, headers);
            && (r.Headers? <==> BlankLine(d))
            && (r.HeadersSpin? <==> !BlankLine(d) && ending.Eof? && d != "" && !EndsInCrLf(d))
    decreases |d|
  {
    FindCrLfIs(d);
    var i := FindCrLf(d);
    if i.Some? && i.value > 0 {
      BehindLine(d, i.value);
      var line := d[..i.value];
      HeadersReadIff(d[i.value + 2..], ending, headers[Key(line) := Value(line)]);
    } else if i.None? && EndsInCrLf(d) {
      assert CrLfAt(d, |d| - 2);
    }
  }

  /** Whatever a peer sends: read_json never returns exactly if the input ends inside a header
      line, that is, there are bytes, none of their lines is empty, and the last is not ended. */
  lemma NeverReturnsIff<T>(d: Bytes, ending: Ending, decode: Bytes -> Option<T>)
    ensures ParseJson(d, ending, decode).Spins? <==>
            ending.Eof? && d != "" && !EndsInCrLf(d) && !BlankLine(d)
  {
    HeadersReadIff(d, ending, map[]);
  }

  // ----- numbers come back -----

  lemma DigitChar(d: nat)
    requires d < 10
    ensures IsDigit(('0' as int + d) as char) && DigitValue(('0' as int + d) as char) == d
  {
  }

  lemma {:induction false} DecimalDigits(n: nat)
    ensures Decimal(n) != "" && forall i | 0 <= i < |Decimal(n)| :: IsDigit(Decimal(n)[i])
  {
    DigitChar(n % 10);
    if n >= 10 {
      DecimalDigits(n / 10);
    }
  }

  lemma {:induction false} ParseDecimal(n: nat)
    ensures ParseDigits(Decimal(n)) == Some(n)
  {
    DigitChar(n % 10);
    if n >= 10 {
      var s, init := Decimal(n), Decimal(n / 10);
      DecimalDigits(n / 10);
      ParseDecimal(n / 10);
      assert s[..|s| - 1] == init && init[|init| - 1] != '_';
    }
  }

  lemma StripDigits(s: Bytes)
    requires s != "" && !IsSpace(s[0]) && !IsSpace(s[|s| - 1])
    ensures Strip(" " + s) == s
  {
    assert (" " + s)[1..] == s;
  }

  /** int() reads back what "{0}".format(n) wrote behind the blank of the header. */
  lemma ParseIntDecimal(n: nat)
    ensures ParseInt(" " + Decimal(n)) == Some(n)
  {
    DecimalDigits(n);
    ParseDecimal(n);
    StripDigits(Decimal(n));
  }

  // ----- lines come back -----

  lemma ParseOneLine(line: Bytes, rest: Bytes, ending: Ending)
    requires Clear(line, |line|)
    ensures ParseLine(line + CRLF + rest, ending) == Line(line, rest)
  {
    var d := line + CRLF + rest;
    forall j: nat | j < |line| ensures !CrLfAt(d, j) {
      assert !CrLfAt(line, j);
    }
    FindCrLfAt(d, |line|);
    assert d[..|line|] == line && d[|line| + 2..] == rest;
  }

  /** A header line that does not disturb the length: not empty, no CR LF, another key. */
  predicate ExtraHeader(line: Bytes) {
    line != "" && Clear(line, |line|) && Key(line) != "Content-Length"
  }

  function Lines(lines: seq<Bytes>): Bytes {
    if lines == [] then "" else lines[0] + CRLF + Lines(lines[1..])
  }

  /** A packet with further headers around Content-Length. */
  function Packet(before: seq<Bytes>, after: seq<Bytes>, body: Bytes): Bytes {
    Lines(before) + (HeaderLine(|body|) + CRLF + (Lines(after) + (CRLF + body)))
  }

  function Put(headers: map<Bytes, Bytes>, lines: seq<Bytes>): map<Bytes, Bytes>
    decreases |lines|
  {
    if lines == [] then headers else Put(headers[Key(lines[0]) := Value(lines[0])], lines[1..])
  }

  lemma {:induction false} PutKeepsLength(headers: map<Bytes, Bytes>, lines: seq<Bytes>)
    requires forall i | 0 <= i < |lines| :: ExtraHeader(lines[i])
    ensures "Content-Length" in headers ==>
              "Content-Length" in Put(headers, lines)
                && Put(headers, lines)["Content-Length"] == headers["Content-Length"]
    decreases |lines|
  {
    if lines != [] {
      PutKeepsLength(headers[Key(lines[0]) := Value(lines[0])], lines[1..]);
    }
  }

  lemma {:induction false} ParseExtra(lines: seq<Bytes>, rest: Bytes, ending: Ending, headers: map<Bytes, Bytes>)
    requires forall i | 0 <= i < |lines| :: ExtraHeader(lines[i])
    ensures ParseHeaders(Lines(lines) + rest, ending, headers) == ParseHeaders(rest, ending, Put(headers, lines))
    decreases |lines|
  {
    if lines == [] {
      assert Lines(lines) + rest == rest;
    } else {
      var tail := Lines(lines[1..]) + rest;
      assert Lines(lines) + rest == lines[0] + CRLF + tail;
      ParseOneLine(lines[0], tail, ending);
      ParseExtra(lines[1..], rest, ending, headers[Key(lines[0]) := Value(lines[0])]);
    }
  }

  lemma HeaderLineParts(n: nat)
    ensures Clear(HeaderLine(n), |HeaderLine(n)|) && HeaderLine(n) != ""
    ensures Key(HeaderLine(n)) == "Content-Length" && Value(HeaderLine(n)) == " " + Decimal(n)
  {
    var key: Bytes, value := "Content-Length", " " + Decimal(n);
    DecimalDigits(n);
    assert forall i | 1 <= i < |value| :: value[i] == Decimal(n)[i - 1];
    assert HeaderLine(n) == key + ":" + value;
    LineParts(key, value);
  }

  lemma LineParts(key: Bytes, value: Bytes)
    requires forall i | 0 <= i < |key| :: key[i] != ':' && key[i] != '\r'
    requires forall i | 0 <= i < |value| :: value[i] != '\r'
    ensures var line := key + ":" + value;
            Key(line) == key && Value(line) == value && Clear(line, |line|)
  {
    var line := key + ":" + value;
    FindAt(line, ':', |key|);
    forall j: nat | j < |line| ensures line[j] != '\r' {
      assert j > |key| ==> line[j] == value[j - |key| - 1];
    }
  }

  lemma {:induction false} FindAt(s: Bytes, c: char, n: nat)
    requires n < |s| && s[n] == c && forall i | 0 <= i < n :: s[i] != c
    ensures Find(s, c) == n
  {
    if n > 0 {
      FindAt(s[1..], c, n - 1);
    }
  }

  /** The header part of a packet gives the length of its body. */
  lemma ParsePacketHeaders(before: seq<Bytes>, after: seq<Bytes>, body: Bytes, rest: Bytes, ending: Ending)
    requires forall i | 0 <= i < |before| :: ExtraHeader(before[i])
    requires forall i | 0 <= i < |after| :: ExtraHeader(after[i])
    requires |body| <= MAX_BODY_SIZE
    ensures var h := ParseHeaders(Packet(before, after, body) + rest, ending, map[]);
            h.Headers? && h.rest == body + rest && ContentLength(h.headers) == Some(|body|)
  {
    var line := HeaderLine(|body|);
    var end := CRLF + (body + rest);
    var middle := Lines(after) + end;
    assert Packet(before, after, body) + rest == Lines(before) + (line + CRLF + middle);
    ParseExtra(before, line + CRLF + middle, ending, map[]);
    HeaderLineParts(|body|);
    ParseOneLine(line, middle, ending);
    var headers := Put(map[], before)["Content-Length" := " " + Decimal(|body|)];
    ParseExtra(after, end, ending, headers);
    PutKeepsLength(headers, after);
    ParseOneLine("", body + rest, ending);
    assert "" + CRLF + (body + rest) == end;
    ParseIntDecimal(|body|);
  }

  /** Further headers change nothing: the value comes back, and the rest is left. */
  lemma ExtraHeadersChangeNothing<T>(before: seq<Bytes>, after: seq<Bytes>, body: Bytes, rest: Bytes, ending: Ending,
                                     decode: Bytes -> Option<T>, value: T)
    requires forall i | 0 <= i < |before| :: ExtraHeader(before[i])
    requires forall i | 0 <= i < |after| :: ExtraHeader(after[i])
    requires |body| <= MAX_BODY_SIZE && decode(body) == Some(value)
    ensures ParseJson(Packet(before, after, body) + rest, ending, decode) == Got(value, rest)
  {
    ParsePacketHeaders(before, after, body, rest, ending);
    assert (body + rest)[..|body|] == body && (body + rest)[|body|..] == rest;
  }

  // ----- streams of values -----

  datatype Stop = AtEnd | OnError | Never

  datatype Transcript<T> = Transcript(values: seq<T>, stop: Stop)

  /** What repeated read_json returns, and how it stops. */
  function ReadMany<T>(d: Bytes, ending: Ending, decode: Bytes -> Option<T>): Transcript<T>
    decreases |d|
  {
    match ParseJson(d, ending, decode)
    case Got(v, rest) =>
      var t := ReadMany(rest, ending, decode);
      Transcript([v] + t.values, t.stop)
    case NoMoreMessages => Transcript([], AtEnd)
    case Invalid => Transcript([], OnError)
    case Spins => Transcript([], Never)
  }

  /** What repeated write_json puts on the stream. */
  function Stream<T>(values: seq<T>, encode: T -> Bytes): Bytes {
    if values == [] then "" else Frame(encode(values[0])) + Stream(values[1..], encode)
  }

  predicate Codec<T(==)>(values: seq<T>, encode: T -> Bytes, decode: Bytes -> Option<T>) {
    forall i | 0 <= i < |values| :: decode(encode(values[i])) == Some(values[i]) && |encode(values[i])| <= MAX_BODY_SIZE
  }

  /** The first `k` bytes of a frame with a body of `n` bytes end inside a header line. */
  predicate CutsHeaderLine(n: nat, k: nat) {
    var h := |HeaderLine(n)|;
    0 < k < h + 2 || k == h + 3
  }

  /** The values whose frames lie wholly within the first `k` bytes. */
  function Readable<T>(values: seq<T>, encode: T -> Bytes, k: nat, ending: Ending): Transcript<T> {
    if values == [] then Transcript([], AtEnd)
    else
      var body := encode(values[0]);
      if k < |Frame(body)| then
        Transcript([], if ending.Eof? && CutsHeaderLine(|body|, k) then Never else AtEnd)
      else
        var t := Readable(values[1..], encode, k - |Frame(body)|, ending);
        Transcript([values[0]] + t.values, t.stop)
  }

  function LengthHeader(n: nat): map<Bytes, Bytes> {
    map["Content-Length" := " " + Decimal(n)]
  }

  /** Behind the first line of a frame. */
  lemma ParseLengthLine(n: nat, rest: Bytes, ending: Ending)
    ensures ParseHeaders(HeaderLine(n) + CRLF + rest, ending, map[]) == ParseHeaders(rest, ending, LengthHeader(n))
  {
    HeaderLineParts(n);
    ParseOneLine(HeaderLine(n), rest, ending);
    assert map[][Key(HeaderLine(n)) := Value(HeaderLine(n))] == LengthHeader(n);
  }

  lemma ParseFrameHeaders(body: Bytes, rest: Bytes, ending: Ending)
    ensures ParseHeaders(Frame(body) + rest, ending, map[]) == Headers(LengthHeader(|body|), body + rest)
    ensures ContentLength(LengthHeader(|body|)) == if |body| <= MAX_BODY_SIZE then Some(|body|) else None
  {
    var tail := "" + CRLF + (body + rest);
    assert Frame(body) + rest == HeaderLine(|body|) + CRLF + tail;
    ParseLengthLine(|body|, tail, ending);
    ParseOneLine("", body + rest, ending);
    ParseIntDecimal(|body|);
  }

  lemma ParseFrame<T>(body: Bytes, rest: Bytes, ending: Ending, decode: Bytes -> Option<T>, value: T)
    requires |body| <= MAX_BODY_SIZE && decode(body) == Some(value)
    ensures ParseJson(Frame(body) + rest, ending, decode) == Got(value, rest)
  {
    ParseFrameHeaders(body, rest, ending);
    assert (body + rest)[..|body|] == body && (body + rest)[|body|..] == rest;
  }

  lemma ClearPrefix(line: Bytes, d: Bytes)
    requires Clear(line, |line|) && (d <= line || d == line + "\r")
    ensures Clear(d, |d|)
  {
    forall j: nat | j < |d| ensures !CrLfAt(d, j) {
      assert !CrLfAt(line, j);
    }
  }

  /** The header part of a frame, cut somewhere. */
  lemma CutPieces(line: Bytes, k: nat, tail: Bytes)
    requires k < |line| + 4
    ensures var d := (line + CRLF + CRLF + tail)[..k];
            if k < |line| + 2 then d <= line || d == line + "\r"
            else exists rest :: (rest == "" || rest == "\r") && d == line + CRLF + rest
  {
    var d := (line + CRLF + CRLF + tail)[..k];
    if k == |line| + 2 {
      assert d == line + CRLF + "";
    } else if k == |line| + 3 {
      assert d == line + CRLF + "\r";
    } else {
      assert d <= line || d == line + "\r";
    }
  }

  lemma ParseCutHeaders(n: nat, k: nat, tail: Bytes, ending: Ending)
    requires k < |HeaderLine(n)| + 4
    ensures var d := (HeaderLine(n) + CRLF + CRLF + tail)[..k];
            ParseHeaders(d, ending, map[]) == if ending.Eof? && CutsHeaderLine(n, k) then HeadersSpin else NoHeaders
  {
    var line := HeaderLine(n);
    var d := (line + CRLF + CRLF + tail)[..k];
    HeaderLineParts(n);
    CutPieces(line, k, tail);
    if k < |line| + 2 {
      ClearPrefix(line, d);
      FindNoCrLf(d);
    } else {
      var rest :| (rest == "" || rest == "\r") && d == line + CRLF + rest;
      ParseLengthLine(n, rest, ending);
      FindNoCrLf(rest);
    }
  }

  /** A frame that is cut off is not read, not even in part. */
  lemma ParseCutFrame<T>(body: Bytes, k: nat, ending: Ending, decode: Bytes -> Option<T>)
    requires |body| <= MAX_BODY_SIZE && k < |Frame(body)|
    ensures ParseJson(Frame(body)[..k], ending, decode)
            == if ending.Eof? && CutsHeaderLine(|body|, k) then Spins else NoMoreMessages
  {
    var h := |HeaderLine(|body|)|;
    if k < h + 4 {
      ParseCutHeaders(|body|, k, body, ending);
    } else {
      var rest := Frame(body)[..k][h + 4..];
      assert Frame(body)[..k] == HeaderLine(|body|) + CRLF + ("" + CRLF + rest);
      ParseLengthLine(|body|, "" + CRLF + rest, ending);
      ParseOneLine("", rest, ending);
      ParseFrameHeaders(body, "", ending);
    }
  }

  /** Reading the first `k` bytes of a stream gives exactly the values whose frames are
      complete, and then NoMoreMessages, unless the bytes end inside a header line: then
      reading never returns. */
  lemma {:induction false} ReadCutStream<T>(values: seq<T>, encode: T -> Bytes, decode: Bytes -> Option<T>, k: nat,
                                            ending: Ending)
    requires Codec(values, encode, decode) && k <= |Stream(values, encode)|
    ensures ReadMany(Stream(values, encode)[..k], ending, decode) == Readable(values, encode, k, ending)
    decreases |values|
  {
    if values != [] {
      var f := Frame(encode(values[0]));
      if k < |f| {
        ReadCutFirst(values, encode, decode, k, ending);
      } else {
        ReadPastFrame(values, encode, decode, k, ending);
        ReadCutStream(values[1..], encode, decode, k - |f|, ending);
      }
    }
  }

  lemma ReadCutFirst<T>(values: seq<T>, encode: T -> Bytes, decode: Bytes -> Option<T>, k: nat, ending: Ending)
    requires values != [] && Codec(values, encode, decode) && k < |Frame(encode(values[0]))|
    ensures k <= |Stream(values, encode)|
    ensures ReadMany(Stream(values, encode)[..k], ending, decode) == Readable(values, encode, k, ending)
  {
    assert Stream(values, encode)[..k] == Frame(encode(values[0]))[..k];
    ParseCutFrame(encode(values[0]), k, ending, decode);
  }

  lemma ReadPastFrame<T>(values: seq<T>, encode: T -> Bytes, decode: Bytes -> Option<T>, k: nat, ending: Ending)
    requires values != [] && Codec(values, encode, decode)
    requires |Frame(encode(values[0]))| <= k <= |Stream(values, encode)|
    ensures var t := ReadMany(Stream(values[1..], encode)[..k - |Frame(encode(values[0]))|], ending, decode);
            ReadMany(Stream(values, encode)[..k], ending, decode) == Transcript([values[0]] + t.values, t.stop)
  {
    var f := Frame(encode(values[0]));
    var rest := Stream(values[1..], encode)[..k - |f|];
    assert Stream(values, encode)[..k] == f + rest;
    ParseFrame(encode(values[0]), rest, ending, decode, values[0]);
  }

  lemma {:induction false} ReadableWhole<T>(values: seq<T>, encode: T -> Bytes, ending: Ending)
    ensures Readable(values, encode, |Stream(values, encode)|, ending) == Transcript(values, AtEnd)
    decreases |values|
  {
    if values != [] {
      ReadableWhole(values[1..], encode, ending);
    }
  }

  /** Framing round trip: what was written comes back, in order, and then NoMoreMessages. */
  lemma RoundTrip<T>(values: seq<T>, encode: T -> Bytes, decode: Bytes -> Option<T>, ending: Ending)
    requires Codec(values, encode, decode)
    ensures ReadMany(Stream(values, encode), ending, decode) == Transcript(values, AtEnd)
  {
    var s := Stream(values, encode);
    assert s[..|s|] == s;
    ReadCutStream(values, encode, decode, |s|, ending);
    ReadableWhole(values, encode, ending);
  }

  /** A body one byte too long is refused by the reader, though the writer sends it. */
  lemma TooLongIsRefused<T>(body: Bytes, rest: Bytes, ending: Ending, decode: Bytes -> Option<T>)
    requires |body| > MAX_BODY_SIZE
    ensures ParseJson(Frame(body) + rest, ending, decode).Invalid?
  {
    ParseFrameHeaders(body, rest, ending);
  }
}
