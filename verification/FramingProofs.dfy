/** The decoder undoes the encoder, under exactly the header limits that leave room for the blank line. */
module FramingProofs {
  import opened Wrappers
  import opened Messages
  import opened Decimal
  import opened Streaming
  import opened Framing

  // ---------- The decoder reads the encoder's header ----------

  const PREFIX: string := "Content-Length: "

  predicate Plain(c: char) {
    !IsSpace(c) && (c as int) < 128 && c != ':'
  }

  lemma NumeralIsPlain(n: nat)
    ensures Print(n) != "" && AllDigits(Print(n)) && forall i :: 0 <= i < |Print(n)| ==> Plain(Print(n)[i])
  {
    PrintThenParse(n);
    forall i | 0 <= i < |Print(n)| ensures Plain(Print(n)[i]) {
      assert IsDigit(Print(n)[i]);
    }
  }

  lemma HeaderChars(n: nat)
    ensures |Header(n)| == 16 + |Print(n)|
    ensures Header(n)[..14] == "Content-Length" && Header(n)[14] == ':' && Header(n)[15] == ' '
    ensures Header(n)[16..] == Print(n)
    ensures forall i :: 0 <= i < |Header(n)| ==>
              (Header(n)[i] as int) < 128 && Header(n)[i] != '\n' && Header(n)[i] != '\r'
    ensures forall i :: 0 <= i < 14 ==> Header(n)[i] != ':'
  {
    NumeralIsPlain(n);
    var h := Header(n);
    assert |PREFIX| == 16 && h[..16] == PREFIX && h[16..] == Print(n);
    assert PREFIX[..14] == "Content-Length";
    forall i | 0 <= i < |h| ensures (h[i] as int) < 128 && h[i] != '\n' && h[i] != '\r' {
      if i < 16 {
        assert h[i] == PREFIX[i];
      } else {
        assert h[i] == Print(n)[i - 16] && Plain(Print(n)[i - 16]);
      }
    }
  }

  lemma AsciiDecodeIsIdentity(s: string)
    requires forall i :: 0 <= i < |s| ==> (s[i] as int) < 128
    ensures AsciiDecode(s) == s
  {
  }

  lemma TrimIsIdentity(s: string)
    requires s != "" && !IsSpace(s[0]) && !IsSpace(s[|s| - 1])
    ensures Trim(s) == s
  {
  }

  lemma OneLine(s: string)
    requires forall i :: 0 <= i < |s| ==> s[i] != '\n'
    ensures SplitLines(s) == [s]
  {
    forall j | 0 <= j < |s| ensures !At(s, j, "\n") {
      assert s[j..j + 1][0] == s[j];
    }
  }

  lemma ColonAt(s: string, k: nat)
    requires k < |s| && s[k] == ':' && forall i :: 0 <= i < k ==> s[i] != ':'
    ensures IndexFrom(s, ":", 0) == k
  {
    assert At(s, k, ":") by {
      assert s[k..k + 1] == [s[k]];
    }
    forall j | 0 <= j < k ensures !At(s, j, ":") {
      assert s[j..j + 1][0] == s[j];
    }
  }

  lemma NameIsContentLength()
    ensures Lower(Trim("Content-Length")) == "content-length"
  {
    var name := "Content-Length";
    assert |name| == 14;
    TrimIsIdentity(name);
    var low := Lower(name);
    assert low == [low[0], low[1], low[2], low[3], low[4], low[5], low[6], low[7], low[8], low[9], low[10], low[11],
                   low[12], low[13]];
  }

  lemma HeaderParses(n: nat)
    requires n <= MAX_SAFE_INTEGER
    ensures ParseContentLength(AsciiDecode(Header(n))) == Ok(n)
  {
    var h := Header(n);
    HeaderChars(n);
    NumeralIsPlain(n);
    PrintThenParse(n);
    AsciiDecodeIsIdentity(h);
    OneLine(h);
    HeaderScans(h, Print(n));
  }

  lemma HeaderScans(h: string, digits: string)
    requires digits != "" && !IsSpace(digits[0]) && !IsSpace(digits[|digits| - 1])
    requires |h| == 16 + |digits| && h[..14] == "Content-Length" && h[14] == ':' && h[15] == ' ' && h[16..] == digits
    requires forall i :: 0 <= i < 14 ==> h[i] != ':'
    ensures ScanLines([h], None) == Ok(Some(digits))
  {
    assert h[0] == h[..14][0] && h[|h| - 1] == digits[|digits| - 1];
    TrimIsIdentity(h);
    ColonAt(h, 14);
    NameIsContentLength();
    var value := h[15..];
    assert value == " " + digits && value[1..] == digits;
    assert TrimStart(value) == TrimStart(digits);
    TrimIsIdentity(digits);
    assert ScanLines([h][1..], Some(Trim(value))) == Ok(Some(Trim(value)));
  }

  // ---------- Where the encoder's header ends ----------

  /** Neither a frame nor a start of one has a blank line before the header's own. */
  lemma NoEarlyBlankLine(n: nat, s: Bytes, j: nat)
    requires Header(n) + CRLF_CRLF <= s || s <= Header(n) + CRLF_CRLF
    requires j < |Header(n)| || |s| < |Header(n)| + 4
    ensures !EndsAt(s, j)
  {
    var full := Header(n) + CRLF_CRLF;
    HeaderChars(n);
    BlankLineBytes(s, j);
    var h := |Header(n)|;
    assert forall i :: 0 <= i < h ==> full[i] == Header(n)[i];
    assert full[h] == '\r' && full[h + 1] == '\n' && full[h + 2] == '\r' && full[h + 3] == '\n';
    assert forall i :: 0 <= i < |s| && i < |full| ==> s[i] == full[i];
  }

  lemma HeaderEndOfFrame(n: nat, s: Bytes)
    requires Header(n) + CRLF_CRLF <= s
    ensures FindHeaderEnd(s) == |Header(n)| && TerminatorLength(s, |Header(n)|) == 4
    ensures s[..|Header(n)|] == Header(n)
  {
    var h := |Header(n)|;
    assert s[h..h + 4] == CRLF_CRLF;
    forall j | 0 <= j < h ensures !EndsAt(s, j) {
      NoEarlyBlankLine(n, s, j);
    }
    FindHeaderEndIs(s, h);
  }

  lemma NoHeaderEndYet(n: nat, s: Bytes)
    requires s <= Header(n) + CRLF_CRLF && |s| < |Header(n)| + 4
    ensures FindHeaderEnd(s) < 0
  {
    FindHeaderEndSpec(s);
    if FindHeaderEnd(s) >= 0 {
      NoEarlyBlankLine(n, s, FindHeaderEnd(s));
      assert false;
    }
  }

  // ---------- One frame ----------

  /** The body can be sent: the peer accepts it and every size limit admits it. */
  predicate Sendable(lim: Limits, body: Bytes) {
    lim.accepts(body) && |body| <= lim.maxFrame && |body| <= MAX_SAFE_INTEGER
  }

  lemma FrameIsRead(lim: Limits, body: Bytes, rest: Bytes)
    requires Sendable(lim, body) && |Header(|body|)| <= lim.maxHeader
    ensures NextFrame(lim, Encode(body) + rest) == Frame(body, rest)
  {
    var s := Encode(body) + rest;
    HeaderEndOfFrame(|body|, s);
    HeaderParses(|body|);
    assert s[|Header(|body|)| + 4..][..|body|] == body;
    assert s[|Header(|body|)| + 4 + |body|..] == rest;
  }

  /** The encoder's own limit is the decoder's: what one refuses to write, the other refuses to read. */
  lemma EncoderAndDecoderAgree(lim: Limits, body: Bytes, rest: Bytes)
    requires lim.accepts(body) && |body| <= MAX_SAFE_INTEGER && |Header(|body|)| <= lim.maxHeader
    ensures match EncodeFrame(body, lim.maxFrame)
            case Ok(bytes) => NextFrame(lim, bytes + rest) == Frame(body, rest)
            case Err(_) => NextFrame(lim, Encode(body) + rest) == Malformed
  {
    if |body| <= lim.maxFrame {
      FrameIsRead(lim, body, rest);
    } else {
      HeaderEndOfFrame(|body|, Encode(body) + rest);
      HeaderParses(|body|);
    }
  }

  lemma PartialFrameWaits(lim: Limits, body: Bytes, n: nat)
    requires Sendable(lim, body) && |Header(|body|)| + 3 <= lim.maxHeader && n < |Encode(body)|
    ensures NextFrame(lim, Encode(body)[..n]) == NeedMore
  {
    var h, s := |Header(|body|)|, Encode(body)[..n];
    var full := Header(|body|) + CRLF_CRLF;
    assert Encode(body)[..h + 4] == full;
    if n < h + 4 {
      assert s == full[..n];
      NoHeaderEndYet(|body|, s);
    } else {
      assert s[..h + 4] == full;
      HeaderEndOfFrame(|body|, s);
      HeaderParses(|body|);
    }
  }

  // ---------- Streams of frames ----------

  predicate AllSendable(lim: Limits, bodies: seq<Bytes>) {
    forall i :: 0 <= i < |bodies| ==> Sendable(lim, bodies[i])
  }

  /** Every header, with all but the last byte of its blank line, is within the header limit. */
  predicate HeadersFit(lim: Limits, bodies: seq<Bytes>) {
    forall i :: 0 <= i < |bodies| ==> |Header(|bodies[i]|)| + 3 <= lim.maxHeader
  }

  lemma {:induction false} StreamIsRead(lim: Limits, bodies: seq<Bytes>)
    requires AllSendable(lim, bodies) && HeadersFit(lim, bodies)
    ensures Drain(lim, EncodeAll(bodies)) == Drained(bodies, "", false)
  {
    if bodies == [] {
      FindHeaderEndSpec("");
    } else {
      FrameIsRead(lim, bodies[0], EncodeAll(bodies[1..]));
      StreamIsRead(lim, bodies[1..]);
      assert [bodies[0]] + bodies[1..] == bodies;
    }
  }

  lemma {:induction false} PrefixDoesNotFail(lim: Limits, bodies: seq<Bytes>, n: nat)
    requires AllSendable(lim, bodies) && HeadersFit(lim, bodies) && n <= |EncodeAll(bodies)|
    ensures !Drain(lim, EncodeAll(bodies)[..n]).failed
  {
    if bodies == [] {
      StreamIsRead(lim, bodies);
    } else {
      var first, rest := Encode(bodies[0]), EncodeAll(bodies[1..]);
      if n < |first| {
        PartialFrameWaits(lim, bodies[0], n);
        assert EncodeAll(bodies)[..n] == first[..n];
      } else {
        FrameIsRead(lim, bodies[0], rest[..n - |first|]);
        PrefixDoesNotFail(lim, bodies[1..], n - |first|);
        assert EncodeAll(bodies)[..n] == first + rest[..n - |first|];
      }
    }
  }

  /** Every way of cutting the encoded frames into chunks yields the bodies and leaves nothing. */
  lemma EveryChunkingDecodes(lim: Limits, bodies: seq<Bytes>, chunks: seq<Bytes>)
    requires AllSendable(lim, bodies) && HeadersFit(lim, bodies) && Flatten(chunks) == EncodeAll(bodies)
    ensures Feed(Drainer(lim), "", chunks) == Drained(bodies, "", false)
  {
    var all := EncodeAll(bodies);
    StreamIsRead(lim, bodies);
    assert bodies != [] ==> |all| > 0;
    if chunks != [] {
      DrainContinues(lim);
      assert "" + Flatten(chunks) == all;
      StreamIsRead(lim, []);
      forall n | 0 <= n <= |"" + Flatten(chunks)| ensures !Drainer(lim)(("" + Flatten(chunks))[..n]).failed {
        PrefixDoesNotFail(lim, bodies, n);
      }
      FeedDoesNotFail(Drainer(lim), "", chunks);
      ChunkingIsInvisible(lim, "", chunks);
    }
  }

  // ---------- The default limits leave room ----------

  const DEFAULT_MAX_FRAME: nat := 4 * 1024 * 1024
  const DEFAULT_MAX_HEADER: nat := 16 * 1024

  lemma DefaultHeaderFits(n: nat)
    requires n <= DEFAULT_MAX_FRAME
    ensures |Header(n)| + 3 <= DEFAULT_MAX_HEADER
  {
    HeaderChars(n);
    PrintIsShort(n, 7, 10000000);
  }

  /** Between the two programs' default limits the chunking never matters. */
  lemma DefaultLimitsDecode(lim: Limits, bodies: seq<Bytes>, chunks: seq<Bytes>)
    requires lim.maxFrame == DEFAULT_MAX_FRAME && lim.maxHeader == DEFAULT_MAX_HEADER
    requires AllSendable(lim, bodies) && Flatten(chunks) == EncodeAll(bodies)
    ensures Feed(Drainer(lim), "", chunks) == Drained(bodies, "", false)
  {
    forall i | 0 <= i < |bodies| ensures |Header(|bodies[i]|)| + 3 <= lim.maxHeader {
      DefaultHeaderFits(|bodies[i]|);
    }
    EveryChunkingDecodes(lim, bodies, chunks);
  }

  // ---------- Limits that leave no room ----------

  /** A header that does not fit is refused one byte before its blank line is complete. */
  lemma TightTipFails(lim: Limits, n: nat)
    requires |Header(n)| + 3 > lim.maxHeader
    ensures Drain(lim, Header(n) + "\r\n\r").failed
  {
    var tip := Header(n) + "\r\n\r";
    assert tip == (Header(n) + CRLF_CRLF)[..|Header(n)| + 3];
    NoHeaderEndYet(n, tip);
  }

  lemma TightPrefixFails(lim: Limits, bodies: seq<Bytes>, n: nat)
    requires AllSendable(lim, bodies) && HeadersFit(lim, bodies) && |Header(n)| + 3 > lim.maxHeader
    ensures Drain(lim, EncodeAll(bodies) + (Header(n) + "\r\n\r")).failed
  {
    var tip := Header(n) + "\r\n\r";
    StreamIsRead(lim, bodies);
    DrainAppend(lim, EncodeAll(bodies), tip);
    assert "" + tip == tip;
    TightTipFails(lim, n);
  }

  /** If some header does not fit, cutting just before the end of its blank line fails. */
  lemma TightHeaderFails(lim: Limits, bodies: seq<Bytes>, i: nat) returns (chunks: seq<Bytes>)
    requires AllSendable(lim, bodies) && i < |bodies| && |Header(|bodies[i]|)| + 3 > lim.maxHeader
    requires HeadersFit(lim, bodies[..i])
    ensures Flatten(chunks) == EncodeAll(bodies) && Feed(Drainer(lim), "", chunks).failed
  {
    var n := |bodies[i]|;
    var first := EncodeAll(bodies[..i]) + (Header(n) + "\r\n\r");
    TightPrefixFails(lim, bodies[..i], n);
    var rest := TightSplit(bodies, i);
    chunks := [first, rest];
    TwoChunks(first, rest);
    assert "" + first == first;
    assert Drainer(lim)("" + chunks[0]).failed;
  }

  lemma TwoChunks(a: Bytes, b: Bytes)
    ensures Flatten([a, b]) == a + b
  {
    assert [a, b][1..] == [b];
    assert Flatten([b]) == b + Flatten<char>([]);
  }

  lemma TightSplit(bodies: seq<Bytes>, i: nat) returns (rest: Bytes)
    requires i < |bodies|
    ensures EncodeAll(bodies[..i]) + (Header(|bodies[i]|) + "\r\n\r") + rest == EncodeAll(bodies)
  {
    rest := "\n" + bodies[i] + EncodeAll(bodies[i + 1..]);
    EncodeSplit(bodies, i);
    assert "\r\n\r" + "\n" == CRLF_CRLF;
    Regroup(EncodeAll(bodies[..i]), Header(|bodies[i]|), "\r\n\r", "\n", bodies[i], EncodeAll(bodies[i + 1..]));
  }

  lemma Regroup(a: Bytes, b: Bytes, c: Bytes, d: Bytes, e: Bytes, f: Bytes)
    ensures a + (b + c) + (d + e + f) == a + (b + (c + d) + e) + f
  {
    assert b + (c + d) + e == (b + c) + (d + e);
    assert (d + e + f) == (d + e) + f;
    var x, y := b + c, d + e;
    assert a + x + (y + f) == a + (x + y) + f;
  }

  lemma {:induction false} EncodeSplit(bodies: seq<Bytes>, i: nat)
    requires i < |bodies|
    ensures EncodeAll(bodies) == EncodeAll(bodies[..i]) + Encode(bodies[i]) + EncodeAll(bodies[i + 1..])
  {
    if i > 0 {
      EncodeSplit(bodies[1..], i - 1);
      assert bodies[1..][..i - 1] == bodies[..i][1..];
      assert bodies[1..][i..] == bodies[i + 1..];
    }
  }

  /** Chunking is invisible to every receiver of these frames exactly when all headers fit. */
  lemma ChunkingIsSafeIff(lim: Limits, bodies: seq<Bytes>)
    requires AllSendable(lim, bodies)
    ensures HeadersFit(lim, bodies) <==>
            forall chunks :: Flatten(chunks) == EncodeAll(bodies) ==>
              Feed(Drainer(lim), "", chunks) == Drained(bodies, "", false)
  {
    if HeadersFit(lim, bodies) {
      forall chunks | Flatten(chunks) == EncodeAll(bodies)
        ensures Feed(Drainer(lim), "", chunks) == Drained(bodies, "", false)
      {
        EveryChunkingDecodes(lim, bodies, chunks);
      }
    } else {
      var i := FirstTight(lim, bodies);
      var chunks := TightHeaderFails(lim, bodies, i);
    }
  }

  lemma FirstTight(lim: Limits, bodies: seq<Bytes>) returns (i: nat)
    requires !HeadersFit(lim, bodies)
    ensures i < |bodies| && |Header(|bodies[i]|)| + 3 > lim.maxHeader && HeadersFit(lim, bodies[..i])
  {
    i := 0;
    while |Header(|bodies[i]|)| + 3 <= lim.maxHeader
      invariant i < |bodies| && HeadersFit(lim, bodies[..i])
      decreases |bodies| - i
    {
      assert bodies[..|bodies|] == bodies;
      assert bodies[..i + 1] == bodies[..i] + [bodies[i]];
      assert HeadersFit(lim, bodies[..i + 1]);
      i := i + 1;
    }
  }
}
