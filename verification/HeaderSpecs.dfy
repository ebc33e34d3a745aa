/** Which header blocks the two readers accept, whoever wrote them. */
module HeaderSpecs {
  import opened Wrappers
  import opened Messages
  import opened Decimal
  import opened Streaming
  import opened Framing

  // ---------- The client: all lines at once ----------

  /** `t` is `s` without the white space around it. */
  ghost predicate Trims(t: string, s: string) {
    exists a: nat, b: nat :: a <= b <= |s| && TrimsAt(t, s, a, b)
  }

  ghost predicate TrimsAt(t: string, s: string, a: nat, b: nat)
    requires a <= b <= |s|
  {
    && t == s[a..b]
    && (forall i :: 0 <= i < a || b <= i < |s| ==> IsSpace(s[i]))
    && (t != "" ==> !IsSpace(t[0]) && !IsSpace(t[|t| - 1]))
  }

  lemma {:induction false} TrimStartSpec(s: string) returns (a: nat)
    ensures a <= |s| && TrimStart(s) == s[a..] && (forall i :: 0 <= i < a ==> IsSpace(s[i]))
    ensures a < |s| ==> !IsSpace(s[a])
  {
    if s != "" && IsSpace(s[0]) {
      var b := TrimStartSpec(s[1..]);
      a := b + 1;
      assert forall i :: 1 <= i < a ==> s[i] == s[1..][i - 1];
    } else {
      a := 0;
    }
  }

  lemma {:induction false} TrimEndSpec(s: string) returns (b: nat)
    ensures b <= |s| && TrimEnd(s) == s[..b] && (forall i :: b <= i < |s| ==> IsSpace(s[i]))
    ensures b > 0 ==> !IsSpace(s[b - 1])
  {
    if s != "" && IsSpace(s[|s| - 1]) {
      b := TrimEndSpec(s[..|s| - 1]);
      assert forall i :: 0 <= i < |s| - 1 ==> s[..|s| - 1][i] == s[i];
    } else {
      b := |s|;
    }
  }

  lemma TrimSpec(s: string)
    ensures Trims(Trim(s), s)
  {
    var a := TrimStartSpec(s);
    var rest := s[a..];
    var b := TrimEndSpec(rest);
    assert forall i :: 0 <= i < |rest| ==> rest[i] == s[a + i];
    assert forall i :: a + b <= i < |s| ==> s[i] == rest[i - a];
    assert TrimsAt(Trim(s), s, a, a + b);
  }

  predicate IsBlank(line: string) {
    forall i :: 0 <= i < |line| ==> IsSpace(line[i])
  }

  predicate HasColon(line: string) {
    exists i :: 0 <= i < |line| && line[i] == ':'
  }

  lemma TrimIsEmptyIff(line: string)
    ensures Trim(line) == "" <==> IsBlank(line)
  {
    TrimSpec(line);
    var a: nat, b: nat :| a <= b <= |line| && TrimsAt(Trim(line), line, a, b);
    if Trim(line) != "" {
      assert line[a] == Trim(line)[0];
    }
  }

  lemma ColonIff(line: string)
    ensures IndexFrom(line, ":", 0) >= 0 <==> HasColon(line)
    ensures var k := IndexFrom(line, ":", 0);
            k >= 0 ==> k < |line| && line[k] == ':' && forall i :: 0 <= i < k ==> line[i] != ':'
  {
    var k := IndexFrom(line, ":", 0);
    if k >= 0 {
      assert At(line, k, ":") && line[k] == line[k..k + 1][0];
    }
    if HasColon(line) {
      var i :| 0 <= i < |line| && line[i] == ':';
      assert line[i..i + 1] == ":";
      assert At(line, i, ":");
      assert k >= 0;
    }
    forall i | 0 <= i < k ensures line[i] != ':' {
      assert !At(line, i, ":") && line[i..i + 1] == [line[i]];
    }
  }

  /** The line's name, up to the first colon, is Content-Length, and what follows the colon is `value`. */
  predicate GivesLength(line: string) {
    var k := IndexFrom(line, ":", 0);
    !IsBlank(line) && k >= 0 && Lower(Trim(line[..k])) == "content-length"
  }

  function LengthText(line: string): string
    requires GivesLength(line)
  {
    ColonIff(line);
    Trim(line[IndexFrom(line, ":", 0) + 1..])
  }

  predicate GivenOnce(lines: seq<string>, i: int) {
    0 <= i < |lines| && GivesLength(lines[i]) && forall j :: 0 <= j < |lines| && j != i ==> !GivesLength(lines[j])
  }

  predicate AllNamed(lines: seq<string>) {
    forall i :: 0 <= i < |lines| ==> IsBlank(lines[i]) || HasColon(lines[i])
  }

  predicate NoneGiven(lines: seq<string>) {
    forall i :: 0 <= i < |lines| ==> !GivesLength(lines[i])
  }

  lemma {:induction false} ScanKnown(lines: seq<string>, text: string)
    ensures ScanLines(lines, Some(text)) ==
            if AllNamed(lines) && NoneGiven(lines) then Ok(Some(text)) else Err(FrameProtocolError)
    decreases |lines|
  {
    if lines != [] {
      TrimIsEmptyIff(lines[0]);
      ColonIff(lines[0]);
      ScanKnown(lines[1..], text);
      assert forall i :: 1 <= i < |lines| ==> lines[i] == lines[1..][i - 1];
      assert forall i :: 0 <= i < |lines[1..]| ==> lines[1..][i] == lines[i + 1];
    }
  }

  /** The scan accepts when every line is blank or named and the length is given at most once. */
  lemma {:induction false} ScanUnknown(lines: seq<string>)
    ensures var r := ScanLines(lines, None);
            && (r == Ok(None) <==> AllNamed(lines) && NoneGiven(lines))
            && (forall text :: r == Ok(Some(text)) <==>
                  AllNamed(lines) && exists i :: GivenOnce(lines, i) && LengthText(lines[i]) == text)
    decreases |lines|
  {
    if lines != [] {
      var rest := lines[1..];
      TrimIsEmptyIff(lines[0]);
      ColonIff(lines[0]);
      assert forall i :: 1 <= i < |lines| ==> lines[i] == rest[i - 1];
      assert forall i :: 0 <= i < |rest| ==> rest[i] == lines[i + 1];
      if GivesLength(lines[0]) {
        ScanKnown(rest, LengthText(lines[0]));
        assert NoneGiven(rest) <==> GivenOnce(lines, 0);
        assert forall i :: GivenOnce(lines, i) ==> i == 0;
      } else {
        ScanUnknown(rest);
        assert forall i :: GivenOnce(rest, i) ==> GivenOnce(lines, i + 1);
        assert forall i :: GivenOnce(lines, i) ==> i > 0 && GivenOnce(rest, i - 1);
      }
    }
  }

  /** A numeral for `n`, which a JavaScript number holds exactly. */
  predicate Denotes(text: string, n: nat) {
    text != "" && AllDigits(text) && Parse(text) == n <= 9007199254740991
  }

  /** One line and only one is named Content-Length, and its value denotes `n`. */
  ghost predicate GivesOnly(lines: seq<string>, n: nat) {
    AllNamed(lines) && exists i :: GivenOnce(lines, i) && Denotes(LengthText(lines[i]), n)
  }

  lemma ScanGives(lines: seq<string>, n: nat)
    ensures GivesOnly(lines, n) <==>
            var r := ScanLines(lines, None); r.Ok? && r.value.Some? && Denotes(r.value.value, n)
  {
    ScanUnknown(lines);
    var r := ScanLines(lines, None);
    if GivesOnly(lines, n) {
      var i :| GivenOnce(lines, i) && Denotes(LengthText(lines[i]), n);
      assert r == Ok(Some(LengthText(lines[i])));
    }
    if r.Ok? && r.value.Some? && Denotes(r.value.value, n) {
      var i :| GivenOnce(lines, i) && LengthText(lines[i]) == r.value.value;
      assert GivesOnly(lines, n);
    }
  }

  /**
   The client takes length `n` from a header exactly when every line is blank or has a colon,
   one line and only one is named Content-Length, and its value denotes `n`.
   */
  lemma ContentLengthIff(header: string, n: nat)
    ensures ParseContentLength(header) == Ok(n) <==> GivesOnly(SplitLines(header), n)
  {
    ScanGives(SplitLines(header), n);
  }

  /**
   The client reads a frame exactly when its header is within the limit and gives the body's
   length, and the body is there.
   */
  lemma ClientFrameIff(lim: Limits, s: Bytes, body: Bytes, rest: Bytes)
    ensures NextFrame(lim, s) == Frame(body, rest) <==>
            var h := FindHeaderEnd(s);
            && 0 <= h <= lim.maxHeader && |body| <= lim.maxFrame
            && GivesOnly(SplitLines(AsciiDecode(s[..h])), |body|)
            && h + TerminatorLength(s, h) <= |s| && s[h + TerminatorLength(s, h)..] == body + rest
  {
    FrameByLength(lim, s, body, rest);
    if FindHeaderEnd(s) >= 0 {
      FindHeaderEndSpec(s);
      ContentLengthIff(AsciiDecode(s[..FindHeaderEnd(s)]), |body|);
    }
  }

  lemma FrameByLength(lim: Limits, s: Bytes, body: Bytes, rest: Bytes)
    ensures NextFrame(lim, s) == Frame(body, rest) <==>
            var h := FindHeaderEnd(s);
            && 0 <= h <= lim.maxHeader && |body| <= lim.maxFrame && h <= |s|
            && ParseContentLength(AsciiDecode(s[..h])) == Ok(|body|)
            && h + TerminatorLength(s, h) <= |s| && s[h + TerminatorLength(s, h)..] == body + rest
  {
    var h := FindHeaderEnd(s);
    FindHeaderEndSpec(s);
    if h >= 0 {
      SplitsAt(s, h + TerminatorLength(s, h), body, rest);
    }
  }

  lemma SplitsAt(s: Bytes, start: nat, body: Bytes, rest: Bytes)
    ensures start <= |s| && s[start..] == body + rest <==>
            start + |body| <= |s| && s[start..start + |body|] == body && s[start + |body|..] == rest
  {
    if start + |body| <= |s| {
      assert s[start..] == s[start..start + |body|] + s[start + |body|..];
      if s[start..] == body + rest {
        assert s[start..][..|body|] == body && s[start..][|body|..] == rest;
      }
    }
  }
}
