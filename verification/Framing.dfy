/**
 Content-Length framing of a byte stream: the encoder both sides share and the
 incremental decoder of the client. The worker's blocking reader is in FrameReader.

 A byte string is a `string` whose characters stand for the byte values.
 */
module Framing {
  import opened Wrappers
  import opened Messages
  import opened Decimal
  import opened Streaming

  const CRLF_CRLF: Bytes := "\r\n\r\n"
  const LF_LF: Bytes := "\n\n"

  /** `accepts` says which bodies decode to a JSON object; it is otherwise unconstrained. */
  datatype Limits = Limits(maxFrame: nat, maxHeader: nat, accepts: Bytes -> bool)

  const MAX_SAFE_INTEGER: nat := 9007199254740991

  // ---------- Encoder ----------

  function Header(length: nat): Bytes {
    "Content-Length: " + Print(length)
  }

  function Encode(body: Bytes): Bytes {
    Header(|body|) + CRLF_CRLF + body
  }

  function EncodeAll(bodies: seq<Bytes>): Bytes {
    if bodies == [] then "" else Encode(bodies[0]) + EncodeAll(bodies[1..])
  }

  datatype FrameError = FrameProtocolError

  function EncodeFrame(body: Bytes, maxFrame: nat): Result<Bytes, FrameError> {
    if |body| > maxFrame then Err(FrameProtocolError) else Ok(Encode(body))
  }

  // ---------- Locating the header ----------

  predicate At(s: Bytes, i: int, pattern: Bytes) {
    0 <= i && i + |pattern| <= |s| && s[i..i + |pattern|] == pattern
  }

  function IndexFrom(s: Bytes, pattern: Bytes, i: nat): (r: int)
    requires i <= |s|
    ensures r >= 0 ==> i <= r && At(s, r, pattern)
    ensures forall j :: i <= j && (r < 0 || j < r) ==> !At(s, j, pattern)
    decreases |s| - i
  {
    if i + |pattern| > |s| then -1
    else if At(s, i, pattern) then i
    else if i == |s| then -1
    else IndexFrom(s, pattern, i + 1)
  }

  function FindHeaderEnd(s: Bytes): int {
    var crlf, lf := IndexFrom(s, CRLF_CRLF, 0), IndexFrom(s, LF_LF, 0);
    if crlf < 0 then lf else if lf < 0 then crlf else if crlf <= lf then crlf else lf
  }

  function TerminatorLength(s: Bytes, h: int): nat {
    if At(s, h, CRLF_CRLF) then 4 else 2
  }

  /** A blank line starts at `i`. */
  predicate EndsAt(s: Bytes, i: int) {
    At(s, i, CRLF_CRLF) || At(s, i, LF_LF)
  }

  lemma FindHeaderEndSpec(s: Bytes)
    ensures var h := FindHeaderEnd(s);
            (h >= 0 ==> EndsAt(s, h)) && forall j :: 0 <= j && (h < 0 || j < h) ==> !EndsAt(s, j)
  {
  }

  lemma FindHeaderEndIs(s: Bytes, h: nat)
    requires EndsAt(s, h) && forall j :: 0 <= j < h ==> !EndsAt(s, j)
    ensures FindHeaderEnd(s) == h
  {
    FindHeaderEndSpec(s);
  }

  // ---------- Parsing the header ----------

  function AsciiDecode(s: Bytes): string {
    seq(|s|, i requires 0 <= i < |s| => (s[i] as int % 128) as char)
  }

  function SplitLines(s: string): seq<string>
    decreases |s|
  {
    var i := IndexFrom(s, "\n", 0);
    if i < 0 then [s]
    else [if i > 0 && s[i - 1] == '\r' then s[..i - 1] else s[..i]] + SplitLines(s[i + 1..])
  }

  predicate IsSpace(c: char) {
    c == ' ' || 9 <= c as int <= 13
  }

  function TrimStart(s: string): string {
    if s != "" && IsSpace(s[0]) then TrimStart(s[1..]) else s
  }

  function TrimEnd(s: string): string {
    if s != "" && IsSpace(s[|s| - 1]) then TrimEnd(s[..|s| - 1]) else s
  }

  function Trim(s: string): string {
    TrimEnd(TrimStart(s))
  }

  function LowerChar(c: char): char {
    if 'A' <= c <= 'Z' then (c as int + 32) as char else c
  }

  function Lower(s: string): string {
    seq(|s|, i requires 0 <= i < |s| => LowerChar(s[i]))
  }

  /** The scan over the header lines; `value` is the Content-Length text found so far. */
  function ScanLines(lines: seq<string>, value: Option<string>): Result<Option<string>, FrameError> {
    if lines == [] then Ok(value)
    else if Trim(lines[0]) == "" then ScanLines(lines[1..], value)
    else
      var separator := IndexFrom(lines[0], ":", 0);
      if separator < 0 then Err(FrameProtocolError)
      else if Lower(Trim(lines[0][..separator])) != "content-length" then ScanLines(lines[1..], value)
      else if value.Some? then Err(FrameProtocolError)
      else ScanLines(lines[1..], Some(Trim(lines[0][separator + 1..])))
  }

  function ParseContentLength(header: string): Result<nat, FrameError> {
    var scan := ScanLines(SplitLines(header), None);
    if scan.Err? || scan.value.None? then Err(FrameProtocolError)
    else
      var value := scan.value.value;
      if value == "" || !AllDigits(value) || Parse(value) > MAX_SAFE_INTEGER then Err(FrameProtocolError)
      else Ok(Parse(value))
  }

  // ---------- Decoder ----------

  datatype Next = NeedMore | Malformed | Frame(body: Bytes, rest: Bytes)

  /** What the decoder sees at the front of its buffer. */
  function NextFrame(lim: Limits, s: Bytes): (n: Next)
    ensures n.Frame? ==> |n.rest| < |s|
  {
    var h := FindHeaderEnd(s);
    FindHeaderEndSpec(s);
    if h < 0 then (if |s| > lim.maxHeader then Malformed else NeedMore)
    else if h > lim.maxHeader then Malformed
    else
      var length := ParseContentLength(AsciiDecode(s[..h]));
      if length.Err? || length.value > lim.maxFrame then Malformed
      else
        var start := h + TerminatorLength(s, h);
        var end := start + length.value;
        if |s| < end then NeedMore else Frame(s[start..end], s[end..])
  }

  function Drain(lim: Limits, s: Bytes): Drained
    decreases |s|
  {
    match NextFrame(lim, s)
    case NeedMore => Drained([], s, false)
    case Malformed => Drained([], s, true)
    case Frame(body, rest) =>
      if lim.accepts(body) then Drain(lim, rest).After([body]) else Drained([], rest, true)
  }

  class Decoder {
    const lim: Limits
    var buffer: Bytes

    constructor (lim: Limits)
      ensures this.lim == lim && buffer == ""
    {
      this.lim := lim;
      buffer := "";
    }

    /** The part of the loop that locates a frame: the header's end, its length, and the frame's end. */
    method Peek() returns (n: Next)
      ensures n == NextFrame(lim, buffer)
    {
      var headerEnd := FindHeaderEnd(buffer);
      FindHeaderEndSpec(buffer);
      if headerEnd < 0 {
        return if |buffer| > lim.maxHeader then Malformed else NeedMore;
      }
      if headerEnd > lim.maxHeader {
        return Malformed;
      }
      var header := AsciiDecode(buffer[..headerEnd]);
      var bodyOffset := TerminatorLength(buffer, headerEnd);
      var contentLength := ParseContentLength(header);
      if contentLength.Err? || contentLength.value > lim.maxFrame {
        return Malformed;
      }
      var frameEnd := headerEnd + bodyOffset + contentLength.value;
      if |buffer| < frameEnd {
        return NeedMore;
      }
      return Frame(buffer[headerEnd + bodyOffset..frameEnd], buffer[frameEnd..]);
    }

    /** A failed push loses the messages it had collected, but not the state of the buffer. */
    method Push(chunk: Bytes) returns (r: Result<seq<Bytes>, FrameError>)
      modifies this
      ensures var d := Drain(lim, old(buffer) + chunk);
              buffer == d.rest && r == if d.failed then Err(FrameProtocolError) else Ok(d.bodies)
    {
      if |chunk| > 0 {
        buffer := buffer + chunk;
      }
      assert old(buffer) + "" == old(buffer);
      var messages: seq<Bytes> := [];
      AfterConcat(Drain(lim, buffer), [], []);
      while true
        invariant Drain(lim, old(buffer) + chunk) == Drain(lim, buffer).After(messages)
        decreases |buffer|
      {
        var next := Peek();
        if next.Malformed? {
          return Err(FrameProtocolError);
        }
        if next.NeedMore? {
          assert messages + [] == messages;
          break;
        }
        AfterConcat(Drain(lim, next.rest), messages, [next.body]);
        buffer := next.rest;
        if !lim.accepts(next.body) {
          return Err(FrameProtocolError);
        }
        messages := messages + [next.body];
      }
      r := Ok(messages);
    }
  }

  // ---------- Any chunking that does not fail is invisible ----------

  lemma BlankLineBytes(s: Bytes, h: int)
    ensures At(s, h, CRLF_CRLF) <==>
            0 <= h && h + 4 <= |s| && s[h] == '\r' && s[h + 1] == '\n' && s[h + 2] == '\r' && s[h + 3] == '\n'
    ensures At(s, h, LF_LF) <==> 0 <= h && h + 2 <= |s| && s[h] == '\n' && s[h + 1] == '\n'
  {
    if 0 <= h && h + 4 <= |s| {
      var t := s[h..h + 4];
      assert t[0] == s[h] && t[1] == s[h + 1] && t[2] == s[h + 2] && t[3] == s[h + 3];
      assert t == [t[0], t[1], t[2], t[3]];
    }
    if 0 <= h && h + 2 <= |s| {
      var t := s[h..h + 2];
      assert t[0] == s[h] && t[1] == s[h + 1];
      assert t == [t[0], t[1]];
    }
  }

  /** Once a blank line is in the buffer, more input does not move it. */
  lemma HeaderEndIsStable(a: Bytes, b: Bytes)
    requires FindHeaderEnd(a) >= 0
    ensures FindHeaderEnd(a + b) == FindHeaderEnd(a)
    ensures TerminatorLength(a + b, FindHeaderEnd(a)) == TerminatorLength(a, FindHeaderEnd(a))
    ensures FindHeaderEnd(a) + TerminatorLength(a, FindHeaderEnd(a)) <= |a|
  {
    var h := FindHeaderEnd(a);
    FindHeaderEndSpec(a);
    BlankLineBytes(a, h);
    BlankLineBytes(a + b, h);
    forall j | 0 <= j < h ensures !EndsAt(a + b, j) {
      assert !EndsAt(a, j);
      BlankLineBytes(a, j);
      BlankLineBytes(a + b, j);
    }
    FindHeaderEndIs(a + b, h);
  }

  /** A complete frame, or a malformed start, looks the same whatever follows it. */
  lemma NextFrameAppend(lim: Limits, a: Bytes, b: Bytes)
    requires NextFrame(lim, a).Frame?
    ensures NextFrame(lim, a + b) == Frame(NextFrame(lim, a).body, NextFrame(lim, a).rest + b)
  {
    HeaderEndIsStable(a, b);
    var h := FindHeaderEnd(a);
    var start := h + TerminatorLength(a, h);
    var length := ParseContentLength(AsciiDecode(a[..h])).value;
    SliceOfConcat(a, b, h, start, start + length);
  }

  lemma SliceOfConcat(a: Bytes, b: Bytes, h: nat, start: nat, end: nat)
    requires h <= start <= end <= |a|
    ensures (a + b)[..h] == a[..h] && (a + b)[start..end] == a[start..end] && (a + b)[end..] == a[end..] + b
  {
  }

  /** Decoding what is left of `a` together with `b` continues where decoding `a` stopped. */
  lemma {:induction false} DrainAppend(lim: Limits, a: Bytes, b: Bytes)
    requires !Drain(lim, a).failed
    ensures Drain(lim, a + b) == Drain(lim, Drain(lim, a).rest + b).After(Drain(lim, a).bodies)
    decreases |a|
  {
    var n := NextFrame(lim, a);
    AfterConcat(Drain(lim, a + b), [], []);
    if n.Frame? {
      NextFrameAppend(lim, a, b);
      DrainAppend(lim, n.rest, b);
      AfterConcat(Drain(lim, Drain(lim, a).rest + b), [n.body], Drain(lim, n.rest).bodies);
    }
  }

  /** The decoder as a function on its buffer. */
  function Drainer(lim: Limits): Bytes -> Drained {
    s => Drain(lim, s)
  }

  lemma DrainContinues(lim: Limits)
    ensures Continues(Drainer(lim))
  {
    forall a, b | !Drainer(lim)(a).failed
      ensures Drainer(lim)(a + b) == Drainer(lim)(Drainer(lim)(a).rest + b).After(Drainer(lim)(a).bodies)
    {
      DrainAppend(lim, a, b);
    }
  }

  /** For any byte stream: pushes that do not fail give exactly what one push of everything gives. */
  lemma ChunkingIsInvisible(lim: Limits, buffer: Bytes, chunks: seq<Bytes>)
    requires chunks != [] && !Feed(Drainer(lim), buffer, chunks).failed
    ensures Feed(Drainer(lim), buffer, chunks) == Drain(lim, buffer + Flatten(chunks))
  {
    DrainContinues(lim);
    FeedIsOnePush(Drainer(lim), buffer, chunks);
  }

  /** After a push that did not fail, pushing nothing changes nothing. */
  lemma {:induction false} DrainIsSettled(lim: Limits, s: Bytes)
    requires !Drain(lim, s).failed
    ensures Drain(lim, Drain(lim, s).rest) == Drained([], Drain(lim, s).rest, false)
    decreases |s|
  {
    var n := NextFrame(lim, s);
    if n.Frame? {
      DrainIsSettled(lim, n.rest);
    }
  }

  /** After a push that did not fail, the buffer is bounded by the limits. */
  lemma BufferIsBounded(lim: Limits, s: Bytes)
    requires !Drain(lim, s).failed
    ensures |Drain(lim, s).rest| <= lim.maxHeader + 4 + lim.maxFrame
  {
    DrainIsSettled(lim, s);
    FindHeaderEndSpec(Drain(lim, s).rest);
  }
}
