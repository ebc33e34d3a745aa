/** The worker's blocking frame reader, and what it reads back from an encoded stream. */
module FrameReader {
  import opened Wrappers
  import opened Decimal
  import opened Streaming
  import opened Framing
  import opened FramingProofs

  // ---------- The stream ----------

  function LineLength(data: Bytes): nat {
    var i := IndexFrom(data, "\n", 0);
    if i < 0 then |data| else i + 1
  }

  function Lesser(a: nat, b: nat): nat {
    if a <= b then a else b
  }

  /** How many bytes a bounded readline takes. */
  function ReadLineLength(data: Bytes, limit: nat): (n: nat)
    ensures n <= |data|
  {
    Lesser(LineLength(data), Lesser(limit, |data|))
  }

  class ByteStream {
    var data: Bytes

    constructor (data: Bytes)
      ensures this.data == data
    {
      this.data := data;
    }

    method ReadLine(limit: nat) returns (line: Bytes)
      modifies this
      ensures var n := ReadLineLength(old(data), limit); line == old(data)[..n] && data == old(data)[n..]
    {
      var n := ReadLineLength(data, limit);
      line, data := data[..n], data[n..];
    }

    method Read(count: nat) returns (bytes: Bytes)
      modifies this
      ensures var n := Lesser(count, |old(data)|); bytes == old(data)[..n] && data == old(data)[n..]
    {
      var n := Lesser(count, |data|);
      bytes, data := data[..n], data[n..];
    }
  }

  // ---------- Python's text helpers ----------

  predicate PySpace(c: char) {
    c == ' ' || 9 <= c as int <= 13 || 28 <= c as int <= 31
  }

  function PyStripStart(s: string): string {
    if s != "" && PySpace(s[0]) then PyStripStart(s[1..]) else s
  }

  function PyStripEnd(s: string): string {
    if s != "" && PySpace(s[|s| - 1]) then PyStripEnd(s[..|s| - 1]) else s
  }

  function PyStrip(s: string): string {
    PyStripEnd(PyStripStart(s))
  }

  /** Digits, optionally separated by single underscores. */
  predicate PyDigits(s: string) {
    && s != "" && IsDigit(s[0]) && IsDigit(s[|s| - 1])
    && (forall i :: 0 <= i < |s| ==> IsDigit(s[i]) || s[i] == '_')
    && (forall i :: 0 <= i < |s| - 1 && s[i] == '_' ==> s[i + 1] != '_')
  }

  function WithoutUnderscores(s: string): (r: string)
    requires forall i :: 0 <= i < |s| ==> IsDigit(s[i]) || s[i] == '_'
    ensures AllDigits(r)
  {
    if s == "" then "" else (if s[0] == '_' then "" else [s[0]]) + WithoutUnderscores(s[1..])
  }

  /** `int(text)` for ASCII text. */
  function PyInt(text: string): Option<int> {
    var s := PyStrip(text);
    var signed := s != "" && (s[0] == '+' || s[0] == '-');
    var digits := if signed then s[1..] else s;
    if !PyDigits(digits) then None
    else
      var n: int := Parse(WithoutUnderscores(digits));
      Some(if signed && s[0] == '-' then -n else n)
  }

  predicate IsAscii(s: string) {
    forall i :: 0 <= i < |s| ==> (s[i] as int) < 128
  }

  // ---------- Reading one frame ----------

  datatype Limits = Limits(maxFrame: int, maxHeader: int)

  datatype Outcome = CleanEof | Body(body: Bytes) | FrameFailure

  datatype Headers = HeadersEof | HeadersFailed | HeadersDone(length: nat)

  datatype HeadersRead = HeadersRead(headers: Headers, rest: Bytes)

  /** What one header line does to the length found so far. */
  function ScanHeader(lim: Limits, line: Bytes, length: Option<nat>): Result<Option<nat>, FrameError> {
    var separator := IndexFrom(line, ":", 0);
    if !IsAscii(line) || separator < 0 then Err(FrameProtocolError)
    else if PyStrip(Lower(line[..separator])) != "content-length" then Ok(length)
    else if length.Some? then Err(FrameProtocolError)
    else
      var value := PyInt(line[separator + 1..]);
      if value.None? || value.value < 0 || value.value > lim.maxFrame then Err(FrameProtocolError)
      else Ok(Some(value.value))
  }

  function ReadHeaders(lim: Limits, data: Bytes, length: Option<nat>, sawHeader: bool): HeadersRead
    requires lim.maxHeader > 0
    decreases |data|
  {
    var n := ReadLineLength(data, lim.maxHeader + 1);
    var line, rest := data[..n], data[n..];
    if line == "" then HeadersRead(if sawHeader then HeadersFailed else HeadersEof, rest)
    else if |line| > lim.maxHeader then HeadersRead(HeadersFailed, rest)
    else if line == "\r\n" || line == "\n" then
      HeadersRead(if length.None? then HeadersFailed else HeadersDone(length.value), rest)
    else
      var scan := ScanHeader(lim, line, length);
      if scan.Err? then HeadersRead(HeadersFailed, rest) else ReadHeaders(lim, rest, scan.value, true)
  }

  datatype FrameRead = FrameRead(outcome: Outcome, rest: Bytes)

  function ReadOne(lim: Limits, data: Bytes): FrameRead {
    if lim.maxFrame <= 0 || lim.maxHeader <= 0 then FrameRead(FrameFailure, data)
    else
      var h := ReadHeaders(lim, data, None, false);
      match h.headers
      case HeadersEof => FrameRead(CleanEof, h.rest)
      case HeadersFailed => FrameRead(FrameFailure, h.rest)
      case HeadersDone(length) =>
        var n := Lesser(length, |h.rest|);
        FrameRead(if n == length then Body(h.rest[..n]) else FrameFailure, h.rest[n..])
  }

  method ReadFrame(stream: ByteStream, lim: Limits) returns (r: Outcome)
    modifies stream
    ensures FrameRead(r, stream.data) == ReadOne(lim, old(stream.data))
  {
    if lim.maxFrame <= 0 || lim.maxHeader <= 0 {
      return FrameFailure;
    }
    var contentLength: Option<nat> := None;
    var sawHeader := false;
    while true
      invariant ReadHeaders(lim, stream.data, contentLength, sawHeader)
                == ReadHeaders(lim, old(stream.data), None, false)
      decreases |stream.data|
    {
      var line := stream.ReadLine(lim.maxHeader + 1);
      if line == "" {
        return if sawHeader then FrameFailure else CleanEof;
      }
      sawHeader := true;
      if |line| > lim.maxHeader {
        return FrameFailure;
      }
      if line == "\r\n" || line == "\n" {
        break;
      }
      var scan := ScanHeader(lim, line, contentLength);
      if scan.Err? {
        return FrameFailure;
      }
      contentLength := scan.value;
    }
    if contentLength.None? {
      return FrameFailure;
    }
    var payload := stream.Read(contentLength.value);
    return if |payload| == contentLength.value then Body(payload) else FrameFailure;
  }

  // ---------- Reading back an encoded stream ----------

  /** Reading frame after frame yields exactly these bodies and then a clean end of stream. */
  predicate Yields(lim: Limits, data: Bytes, bodies: seq<Bytes>)
    decreases |bodies|
  {
    if bodies == [] then ReadOne(lim, data) == FrameRead(CleanEof, "")
    else ReadOne(lim, data).outcome == Body(bodies[0]) && Yields(lim, ReadOne(lim, data).rest, bodies[1..])
  }

  predicate Readable(lim: Limits, body: Bytes) {
    |body| <= lim.maxFrame && |Header(|body|)| + 2 <= lim.maxHeader
  }

  lemma FirstNewline(line: Bytes, rest: Bytes)
    requires line != "" && line[|line| - 1] == '\n' && forall i :: 0 <= i < |line| - 1 ==> line[i] != '\n'
    ensures LineLength(line + rest) == |line|
  {
    var s, k := line + rest, |line| - 1;
    assert At(s, k, "\n") by {
      assert s[k..k + 1] == [s[k]];
    }
    forall j | 0 <= j < k ensures !At(s, j, "\n") {
      assert s[j..j + 1][0] == s[j];
    }
  }

  lemma {:induction false} NoUnderscores(s: string)
    requires AllDigits(s)
    ensures WithoutUnderscores(s) == s
  {
    if s != "" {
      assert IsDigit(s[0]);
      NoUnderscores(s[1..]);
    }
  }

  lemma StripValue(digits: string)
    requires Canonical(digits)
    ensures PyInt(" " + digits + "\r\n") == Some(Parse(digits))
  {
    var text := " " + digits + "\r\n";
    assert text[1..] == digits + "\r\n";
    assert IsDigit(digits[0]) && IsDigit(digits[|digits| - 1]);
    assert PyStripStart(text) == digits + "\r\n";
    var a := digits + "\r\n";
    assert a[..|a| - 1] == digits + "\r";
    assert (digits + "\r")[..|digits|] == digits;
    assert PyStripEnd(a) == PyStripEnd(digits + "\r") == digits;
    NoUnderscores(digits);
  }

  lemma LengthLineShape(n: nat)
    ensures var line := Header(n) + "\r\n";
            && |line| > 16 && IsAscii(line) && line[..14] == "Content-Length" && line[14] == ':'
            && (forall i :: 0 <= i < 14 ==> line[i] != ':') && line[15..] == " " + Print(n) + "\r\n"
  {
    HeaderChars(n);
    assert Header(n)[15..] == " " + Print(n);
  }

  lemma LengthLineScans(lim: Limits, n: nat)
    requires lim.maxHeader > 0
    ensures ScanHeader(lim, Header(n) + "\r\n", None) ==
            if n <= lim.maxFrame then Ok(Some(n)) else Err(FrameProtocolError)
  {
    var line := Header(n) + "\r\n";
    LengthLineShape(n);
    PrintThenParse(n);
    ColonAt(line, 14);
    LowerName();
    StripValue(Print(n));
  }

  lemma LowerName()
    ensures PyStrip(Lower("Content-Length")) == "content-length"
  {
    var low := Lower("Content-Length");
    assert low == [low[0], low[1], low[2], low[3], low[4], low[5], low[6], low[7], low[8], low[9], low[10], low[11],
                   low[12], low[13]];
    assert low == "content-length" && !PySpace(low[0]) && !PySpace(low[13]);
  }

  /** One header line that is not blank: refused if it is too long, scanned otherwise. */
  lemma HeaderLineRead(lim: Limits, line: Bytes, tail: Bytes)
    requires lim.maxHeader > 0 && |line| > 2
    requires line[|line| - 1] == '\n' && forall i :: 0 <= i < |line| - 1 ==> line[i] != '\n'
    ensures |line| > lim.maxHeader ==> ReadHeaders(lim, line + tail, None, false).headers == HeadersFailed
    ensures |line| <= lim.maxHeader ==>
              var scan := ScanHeader(lim, line, None);
              if scan.Err? then ReadHeaders(lim, line + tail, None, false).headers == HeadersFailed
              else ReadHeaders(lim, line + tail, None, false) == ReadHeaders(lim, tail, scan.value, true)
  {
    FirstNewline(line, tail);
    if |line| <= lim.maxHeader {
      assert (line + tail)[..|line|] == line && (line + tail)[|line|..] == tail;
    }
  }

  lemma HeadersOfFrame(lim: Limits, body: Bytes, rest: Bytes)
    requires lim.maxHeader > 0
    ensures ReadHeaders(lim, Encode(body) + rest, None, false).headers ==
            if Readable(lim, body) then HeadersDone(|body|) else HeadersFailed
    ensures Readable(lim, body) ==> ReadHeaders(lim, Encode(body) + rest, None, false).rest == body + rest
  {
    var line, tail := Header(|body|) + "\r\n", body + rest;
    HeaderChars(|body|);
    assert Encode(body) + rest == line + ("\r\n" + tail);
    HeaderLineRead(lim, line, "\r\n" + tail);
    LengthLineScans(lim, |body|);
    if |line| <= lim.maxHeader {
      BlankLineRead(lim, tail, |body|);
    }
  }

  lemma BlankLineRead(lim: Limits, tail: Bytes, length: nat)
    requires lim.maxHeader >= 2
    ensures ReadHeaders(lim, "\r\n" + tail, Some(length), true) == HeadersRead(HeadersDone(length), tail)
  {
    FirstNewline("\r\n", tail);
    assert ("\r\n" + tail)[..2] == "\r\n" && ("\r\n" + tail)[2..] == tail;
  }

  /** The worker reads back exactly the bodies, and then a clean end, iff every frame is within its limits. */
  lemma {:induction false} WorkerReadsStreamIff(lim: Limits, bodies: seq<Bytes>)
    requires lim.maxFrame > 0 && lim.maxHeader > 0
    ensures Yields(lim, EncodeAll(bodies), bodies) <==> forall i :: 0 <= i < |bodies| ==> Readable(lim, bodies[i])
  {
    if bodies != [] {
      var rest := EncodeAll(bodies[1..]);
      HeadersOfFrame(lim, bodies[0], rest);
      WorkerReadsStreamIff(lim, bodies[1..]);
      assert forall i :: 1 <= i < |bodies| ==> bodies[i] == bodies[1..][i - 1];
      assert forall i :: 0 <= i < |bodies[1..]| ==> bodies[1..][i] == bodies[i + 1];
      if Readable(lim, bodies[0]) {
        assert (bodies[0] + rest)[..|bodies[0]|] == bodies[0] && (bodies[0] + rest)[|bodies[0]|..] == rest;
      }
    }
  }
}
