/** Which header blocks the worker's reader accepts, whoever wrote them. */
module WorkerHeaderSpecs {
  import opened Wrappers
  import opened Messages
  import opened Streaming
  import F = Framing
  import H = HeaderSpecs
  import opened FrameReader

  const BLANKS: set<Bytes> := {"\r\n", "\n"}

  /** A line that ends at its first newline and is within the limit. */
  predicate EndsAtNewline(lim: Limits, line: Bytes) {
    0 < |line| <= lim.maxHeader && line[|line| - 1] == '\n' && forall i :: 0 <= i < |line| - 1 ==> line[i] != '\n'
  }

  /** The line is named Content-Length, up to its first colon. */
  predicate GivesLength(line: Bytes) {
    var k := F.IndexFrom(line, ":", 0);
    k >= 0 && PyStrip(F.Lower(line[..k])) == "content-length"
  }

  /** What follows the colon is an integer from 0 to the frame limit. */
  predicate HasLength(lim: Limits, line: Bytes, n: nat)
    requires GivesLength(line)
  {
    H.ColonIff(line);
    PyInt(line[F.IndexFrom(line, ":", 0) + 1..]) == Some(n) && n <= lim.maxFrame
  }

  predicate HeaderLine(lim: Limits, line: Bytes) {
    EndsAtNewline(lim, line) && line !in BLANKS && IsAscii(line) && H.HasColon(line)
  }

  predicate AllHeaderLines(lim: Limits, lines: seq<Bytes>) {
    forall i :: 0 <= i < |lines| ==> HeaderLine(lim, lines[i])
  }

  predicate NoneGives(lines: seq<Bytes>) {
    forall i :: 0 <= i < |lines| ==> !GivesLength(lines[i])
  }

  predicate OnlyGives(lim: Limits, lines: seq<Bytes>, i: int, n: nat) {
    && 0 <= i < |lines| && GivesLength(lines[i]) && HasLength(lim, lines[i], n)
    && forall j :: 0 <= j < |lines| && j != i ==> !GivesLength(lines[j])
  }

  /** With `known` the length found before these lines: together they give `n` exactly once. */
  ghost predicate Gives(lim: Limits, lines: seq<Bytes>, known: Option<nat>, n: nat) {
    if known.Some? then known.value == n && NoneGives(lines) else exists i :: OnlyGives(lim, lines, i, n)
  }

  lemma GivesCons(lim: Limits, lines: seq<Bytes>, known: Option<nat>, n: nat)
    requires lines != []
    ensures Gives(lim, lines, known, n) <==>
            if GivesLength(lines[0])
            then known == None && HasLength(lim, lines[0], n) && Gives(lim, lines[1..], Some(n), n)
            else Gives(lim, lines[1..], known, n)
  {
    var rest := lines[1..];
    assert forall i :: 1 <= i < |lines| ==> lines[i] == rest[i - 1];
    assert forall i :: 0 <= i < |rest| ==> rest[i] == lines[i + 1];
    assert NoneGives(lines) <==> !GivesLength(lines[0]) && NoneGives(rest);
    if known == None {
      assert GivesLength(lines[0]) && HasLength(lim, lines[0], n) && NoneGives(rest) ==> OnlyGives(lim, lines, 0, n);
      assert !GivesLength(lines[0]) ==> forall i :: OnlyGives(lim, rest, i, n) ==> OnlyGives(lim, lines, i + 1, n);
      assert forall i :: OnlyGives(lim, lines, i, n) && i > 0 ==> OnlyGives(lim, rest, i - 1, n);
    }
  }

  /** What one header line does to the length known so far. */
  lemma ScanMeans(lim: Limits, line: Bytes, known: Option<nat>)
    ensures ScanHeader(lim, line, known).Ok? <==>
            IsAscii(line) && H.HasColon(line) &&
            (GivesLength(line) ==> known == None && exists n :: HasLength(lim, line, n))
    ensures var r := ScanHeader(lim, line, known);
            r.Ok? ==>
              if GivesLength(line) then r.value.Some? && HasLength(lim, line, r.value.value) else r.value == known
  {
    H.ColonIff(line);
    if GivesLength(line) {
      var value := PyInt(line[F.IndexFrom(line, ":", 0) + 1..]);
      if value.Some? && value.value >= 0 && value.value <= lim.maxFrame {
        assert HasLength(lim, line, value.value);
      }
    }
  }

  /** A line that ends at its newline is what the next bounded readline takes. */
  lemma LineIsTaken(lim: Limits, line: Bytes, tail: Bytes)
    requires EndsAtNewline(lim, line)
    ensures ReadLineLength(line + tail, lim.maxHeader + 1) == |line|
    ensures (line + tail)[..|line|] == line && (line + tail)[|line|..] == tail
  {
    FirstNewline(line, tail);
  }

  lemma BlankEndsRead(lim: Limits, blank: Bytes, tail: Bytes, length: nat, sawHeader: bool)
    requires lim.maxHeader > 0 && blank in BLANKS && |blank| <= lim.maxHeader
    ensures ReadHeaders(lim, blank + tail, Some(length), sawHeader) == HeadersRead(HeadersDone(length), tail)
  {
    LineIsTaken(lim, blank, tail);
  }

  lemma LineGoesOn(lim: Limits, line: Bytes, tail: Bytes, known: Option<nat>, sawHeader: bool)
    requires lim.maxHeader > 0 && HeaderLine(lim, line) && ScanHeader(lim, line, known).Ok?
    ensures ReadHeaders(lim, line + tail, known, sawHeader)
         == ReadHeaders(lim, tail, ScanHeader(lim, line, known).value, true)
  {
    LineIsTaken(lim, line, tail);
  }

  lemma FlattenFirst(line: Bytes, lines: seq<Bytes>, end: Bytes)
    ensures Flatten([line] + lines) + end == line + (Flatten(lines) + end)
  {
    assert ([line] + lines)[1..] == lines;
    assert (line + Flatten(lines)) + end == line + (Flatten(lines) + end);
  }

  lemma {:induction false} BlockIsRead(lim: Limits, lines: seq<Bytes>, blank: Bytes, rest: Bytes, known: Option<nat>,
                                       sawHeader: bool, n: nat)
    requires lim.maxHeader > 0 && blank in BLANKS && |blank| <= lim.maxHeader
    requires AllHeaderLines(lim, lines) && Gives(lim, lines, known, n)
    ensures ReadHeaders(lim, Flatten(lines) + (blank + rest), known, sawHeader) == HeadersRead(HeadersDone(n), rest)
    decreases |lines|
  {
    if lines == [] {
      assert Flatten(lines) + (blank + rest) == blank + rest;
      BlankEndsRead(lim, blank, rest, n, sawHeader);
    } else {
      var line, more := lines[0], lines[1..];
      assert lines == [line] + more && HeaderLine(lim, line);
      FlattenFirst(line, more, blank + rest);
      KnownIsGiven(lim, line, more, known, n);
      LineGoesOn(lim, line, Flatten(more) + (blank + rest), known, sawHeader);
      BlockIsRead(lim, more, blank, rest, ScanHeader(lim, line, known).value, true, n);
    }
  }

  lemma KnownIsGiven(lim: Limits, line: Bytes, more: seq<Bytes>, known: Option<nat>, n: nat)
    requires AllHeaderLines(lim, [line] + more) && Gives(lim, [line] + more, known, n)
    ensures ScanHeader(lim, line, known).Ok? && Gives(lim, more, ScanHeader(lim, line, known).value, n)
    ensures AllHeaderLines(lim, more)
  {
    var lines := [line] + more;
    assert lines[1..] == more && lines[0] == line;
    assert HeaderLine(lim, lines[0]);
    assert forall i :: 0 <= i < |more| ==> more[i] == lines[i + 1];
    GivesCons(lim, lines, known, n);
    ScanMeans(lim, line, known);
  }

  /** A readline that stops short of its limit and of the end of the data stops at a newline. */
  lemma TakenEnds(lim: Limits, data: Bytes)
    requires lim.maxHeader > 0
    ensures var k := ReadLineLength(data, lim.maxHeader + 1);
            0 < k <= lim.maxHeader && k < |data| ==> EndsAtNewline(lim, data[..k])
    ensures var k := ReadLineLength(data, lim.maxHeader + 1);
            data != "" ==> k > 0 && (k <= lim.maxHeader && data[k - 1] == '\n' ==> EndsAtNewline(lim, data[..k]))
  {
    var k, i := ReadLineLength(data, lim.maxHeader + 1), F.IndexFrom(data, "\n", 0);
    if i >= 0 {
      assert data[i] == data[i..i + 1][0];
      forall j | 0 <= j < i ensures data[j] != '\n' {
        assert !F.At(data, j, "\n") && data[j..j + 1] == [data[j]];
      }
    } else {
      forall j | 0 <= j < |data| ensures data[j] != '\n' {
        assert !F.At(data, j, "\n") && data[j..j + 1] == [data[j]];
      }
    }
  }

  /** One turn of the header loop, if it ends with success. */
  lemma ReadUnfolds(lim: Limits, data: Bytes, known: Option<nat>, sawHeader: bool)
    requires lim.maxHeader > 0 && ReadHeaders(lim, data, known, sawHeader).headers.HeadersDone?
    ensures var k := ReadLineLength(data, lim.maxHeader + 1);
            && 0 < k <= lim.maxHeader
            && (data[..k] in BLANKS ==>
                  known.Some? &&
                  ReadHeaders(lim, data, known, sawHeader) == HeadersRead(HeadersDone(known.value), data[k..]))
            && (data[..k] !in BLANKS ==>
                  ScanHeader(lim, data[..k], known).Ok? &&
                  ReadHeaders(lim, data, known, sawHeader) ==
                  ReadHeaders(lim, data[k..], ScanHeader(lim, data[..k], known).value, true))
  {
  }

  lemma NothingLeftFails(lim: Limits, known: Option<nat>)
    requires lim.maxHeader > 0
    ensures ReadHeaders(lim, "", known, true).headers == HeadersFailed
  {
  }

  /** The first line of data that is read with success is the blank line or a header line. */
  lemma FirstIsHeaderLine(lim: Limits, data: Bytes, known: Option<nat>, sawHeader: bool)
    requires lim.maxHeader > 0 && ReadHeaders(lim, data, known, sawHeader).headers.HeadersDone?
    ensures var line := data[..ReadLineLength(data, lim.maxHeader + 1)]; line !in BLANKS ==> HeaderLine(lim, line)
  {
    var k := ReadLineLength(data, lim.maxHeader + 1);
    ReadUnfolds(lim, data, known, sawHeader);
    if data[..k] !in BLANKS {
      ScanMeans(lim, data[..k], known);
      if k == |data| {
        NothingLeftFails(lim, ScanHeader(lim, data[..k], known).value);
        assert false;
      }
      TakenEnds(lim, data);
    }
  }

  lemma {:induction false} ReadIsBlock(lim: Limits, data: Bytes, known: Option<nat>, sawHeader: bool, n: nat,
                                       rest: Bytes)
    returns (lines: seq<Bytes>, blank: Bytes)
    requires lim.maxHeader > 0 && ReadHeaders(lim, data, known, sawHeader) == HeadersRead(HeadersDone(n), rest)
    ensures data == Flatten(lines) + (blank + rest) && blank in BLANKS && |blank| <= lim.maxHeader
    ensures AllHeaderLines(lim, lines) && Gives(lim, lines, known, n)
    decreases |data|
  {
    var k := ReadLineLength(data, lim.maxHeader + 1);
    var line, tail := data[..k], data[k..];
    ReadUnfolds(lim, data, known, sawHeader);
    FirstIsHeaderLine(lim, data, known, sawHeader);
    assert data == line + tail;
    if line in BLANKS {
      lines, blank := [], line;
    } else {
      var next := ScanHeader(lim, line, known).value;
      ScanMeans(lim, line, known);
      var more, b := ReadIsBlock(lim, tail, next, true, n, rest);
      lines, blank := [line] + more, b;
      assert lines[1..] == more;
      KnownGives(lim, line, more, known, n);
      FlattenFirst(line, more, blank + rest);
    }
  }

  lemma KnownGives(lim: Limits, line: Bytes, more: seq<Bytes>, known: Option<nat>, n: nat)
    requires ScanHeader(lim, line, known).Ok? && Gives(lim, more, ScanHeader(lim, line, known).value, n)
    ensures Gives(lim, [line] + more, known, n)
  {
    ScanMeans(lim, line, known);
    assert ([line] + more)[1..] == more;
    GivesCons(lim, [line] + more, known, n);
  }

  /** A header block: header lines, one of them and only one giving length `n`, and the blank line before `rest`. */
  ghost predicate IsBlock(lim: Limits, data: Bytes, n: nat, rest: Bytes) {
    exists lines, blank :: BlockAt(lim, data, n, rest, lines, blank)
  }

  ghost predicate BlockAt(lim: Limits, data: Bytes, n: nat, rest: Bytes, lines: seq<Bytes>, blank: Bytes) {
    && data == Flatten(lines) + (blank + rest) && blank in BLANKS && |blank| <= lim.maxHeader
    && AllHeaderLines(lim, lines) && exists i :: OnlyGives(lim, lines, i, n)
  }

  /** The worker takes length `n` and goes on at `rest` exactly when the data starts with such a block. */
  lemma WorkerHeadersIff(lim: Limits, data: Bytes, n: nat, rest: Bytes)
    requires lim.maxHeader > 0
    ensures ReadHeaders(lim, data, None, false) == HeadersRead(HeadersDone(n), rest) <==> IsBlock(lim, data, n, rest)
  {
    if ReadHeaders(lim, data, None, false) == HeadersRead(HeadersDone(n), rest) {
      var lines, blank := ReadIsBlock(lim, data, None, false, n, rest);
      assert BlockAt(lim, data, n, rest, lines, blank);
    }
    if IsBlock(lim, data, n, rest) {
      var lines, blank :| BlockAt(lim, data, n, rest, lines, blank);
      BlockIsRead(lim, lines, blank, rest, None, false, n);
    }
  }

  /** A frame is read exactly when the data is such a block, then as many bytes as it says, then the rest. */
  lemma WorkerFrameIff(lim: Limits, data: Bytes, body: Bytes, rest: Bytes)
    requires lim.maxFrame > 0 && lim.maxHeader > 0
    ensures ReadOne(lim, data) == FrameRead(Body(body), rest) <==> IsBlock(lim, data, |body|, body + rest)
    ensures ReadOne(lim, data).outcome == CleanEof <==> data == ""
  {
    WorkerHeadersIff(lim, data, |body|, body + rest);
    var h := ReadHeaders(lim, data, None, false);
    if h == HeadersRead(HeadersDone(|body|), body + rest) {
      assert (body + rest)[..|body|] == body && (body + rest)[|body|..] == rest;
    }
    if ReadOne(lim, data) == FrameRead(Body(body), rest) {
      assert h.rest == body + rest;
    }
    EofIsEmpty(lim, data, None, false);
  }

  lemma {:induction false} EofIsEmpty(lim: Limits, data: Bytes, known: Option<nat>, sawHeader: bool)
    requires lim.maxHeader > 0
    ensures ReadHeaders(lim, data, known, sawHeader).headers == HeadersEof <==> data == "" && !sawHeader
    decreases |data|
  {
    var k := ReadLineLength(data, lim.maxHeader + 1);
    TakenEnds(lim, data);
    if data != "" && ScanHeader(lim, data[..k], known).Ok? {
      EofIsEmpty(lim, data[k..], ScanHeader(lim, data[..k], known).value, true);
    }
  }
}
