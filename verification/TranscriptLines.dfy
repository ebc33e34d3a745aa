/** The entries that are not tool calls: one for each message with text, and one for each run that stopped. */
module TranscriptLines {
  import opened Wrappers
  import opened Decimal
  import opened Transcript
  import opened TranscriptContent

  /** A line as the event gives it; its text may be shortened to `limit`. */
  datatype Line = Line(at: nat, id: string, kind: Kind, runId: Option<string>, text: string, limit: Option<nat>,
                       detail: Option<Long>, isError: Option<bool>)

  /** The texts of all text parts, put together. */
  function JoinTexts(parts: seq<Part>): string
    decreases |parts|
  {
    if parts == [] then ""
    else
      var last := parts[|parts| - 1];
      JoinTexts(parts[..|parts| - 1]) + match last case TextPart(text) => text case _ => ""
  }

  function LinesOf(e: Event, at: nat): seq<Line> {
    match e.payload
    case MessageAdded(id, system, fromUser, parts) =>
      if system || Blank(JoinTexts(parts)) then []
      else
        [Line(at, "message:" + Or(id, "seq_" + Print(at)) + ":text", if fromUser then User else Assistant, e.runId,
              JoinTexts(parts), Some(4000), None, None)]
    case RunStopped(word, why) =>
      [Line(at, "run:" + Or(e.runId, Print(at)) + ":run." + word + ":" + Print(at), StatusLine, e.runId, "Run " + word,
            None, if why.Some? then Some(Long(why.value, 800)) else None, Some(word in {"failed", "interrupted"}))]
    case _ => []
  }

  function LinesSoFar(log: seq<Event>, k: nat): seq<Line>
    requires k <= |log|
  {
    if k == 0 then [] else LinesSoFar(log, k - 1) + LinesOf(log[k - 1], k)
  }

  predicate ShowsLine(e: Entry, line: Line) {
    && e.id == line.id && e.kind == line.kind && e.runId == line.runId && e.seqNo == e.updatedSeq == line.at
    && (if line.limit.Some? then Shortens(e.text, line.text, line.limit.value) else e.text == line.text)
    && ShowsLong(e.detail, line.detail) && e.isError == line.isError
    && e.toolCallId == None && e.toolName == None && e.approvalId == None && e.status == None
  }

  function LineEntries(entries: seq<Entry>): seq<Entry> {
    if entries == [] then []
    else (if entries[0].toolCallId.None? then [entries[0]] else []) + LineEntries(entries[1..])
  }

  ghost predicate ShowsLines(entries: seq<Entry>, lines: seq<Line>) {
    |entries| == |lines| && forall i :: 0 <= i < |lines| ==> ShowsLine(entries[i], lines[i])
  }

  // ---------- Tool calls leave the lines alone ----------

  lemma {:induction false} LineEntriesConcat(a: seq<Entry>, b: seq<Entry>)
    ensures LineEntries(a + b) == LineEntries(a) + LineEntries(b)
  {
    if a == [] {
      assert a + b == b;
    } else {
      LineEntriesConcat(a[1..], b);
      assert (a + b)[1..] == a[1..] + b;
      assert LineEntries(a + b)
          == (if a[0].toolCallId.None? then [a[0]] else []) + (LineEntries(a[1..]) + LineEntries(b));
    }
  }

  lemma LineEntriesPush(a: seq<Entry>, e: Entry)
    ensures LineEntries(a + [e]) == LineEntries(a) + if e.toolCallId.None? then [e] else []
  {
    LineEntriesConcat(a, [e]);
    assert [e][1..] == [];
  }

  lemma ToolUpdateKeepsLines(a: seq<Entry>, i: nat, e: Entry)
    requires i < |a| && a[i].toolCallId.Some? && e.toolCallId.Some?
    ensures LineEntries(a[i := e]) == LineEntries(a)
  {
    assert a[i := e] == a[..i] + ([e] + a[i + 1..]);
    assert a == a[..i] + ([a[i]] + a[i + 1..]);
    LineEntriesConcat(a[..i], [e] + a[i + 1..]);
    LineEntriesConcat(a[..i], [a[i]] + a[i + 1..]);
    assert ([e] + a[i + 1..])[1..] == a[i + 1..] && ([a[i]] + a[i + 1..])[1..] == a[i + 1..];
  }

  lemma UpsertKeepsLines(p: Projection, runId: Option<string>, s: nat, call: string, patch: Patch)
    ensures LineEntries(UpsertTool(p, runId, s, call, patch).entries) == LineEntries(p.entries)
  {
    var i := IndexOfCall(p.entries, call);
    if i < 0 {
      LineEntriesPush(p.entries, NewTool(runId, s, call, patch));
    } else {
      ToolUpdateKeepsLines(p.entries, i, PatchTool(p.entries[i], s, patch));
    }
  }

  lemma {:induction false} CallsKeepLines(p: Projection, runId: Option<string>, s: nat, parts: seq<Part>)
    ensures LineEntries(ProposeCalls(p, runId, s, parts).entries) == LineEntries(p.entries)
    decreases |parts|
  {
    if parts != [] {
      if parts[0].CallPart? {
        var name := if parts[0].name.Some? then parts[0].name.value else "tool";
        UpsertKeepsLines(p, runId, s, parts[0].callId,
                         Patch(Some(parts[0].preview), Some(name), None, Proposed, None, None));
      }
      CallsKeepLines(ProposeCall(p, runId, s, parts[0]), runId, s, parts[1..]);
    }
  }

  lemma {:induction false} ResultsKeepLines(p: Projection, runId: Option<string>, s: nat, results: seq<ResultPart>)
    ensures LineEntries(ApplyResults(p, runId, s, results).entries) == LineEntries(p.entries)
    decreases |results|
  {
    if results != [] {
      var r := results[0];
      var patch := Patch(None, r.toolName, None, if r.isError then Failed else Succeeded, Some(r.isError),
                         Some(Bounded(r.content, 1200)));
      UpsertKeepsLines(p, runId, s, r.callId, patch);
      ResultsKeepLines(UpsertTool(p, runId, s, r.callId, patch), runId, s, results[1..]);
    }
  }

  // ---------- The lines of one event ----------

  lemma {:induction false} RenderedIsJoined(parts: seq<Part>)
    ensures RenderedText(parts) == JoinTexts(parts)
    decreases |parts|
  {
    if |parts| == 1 {
      assert parts[1..] == [] && parts[..0] == [];
    } else if |parts| > 1 {
      var first, front := parts[0], parts[..|parts| - 1];
      RenderedIsJoined(parts[1..]);
      RenderedIsJoined(front);
      RenderedIsJoined(parts[1..|parts| - 1]);
      assert parts[1..][..|parts| - 2] == parts[1..|parts| - 1] == front[1..];
    }
  }

  /** `after` is `before`, and one more entry if there is a line to show. */
  predicate AddsLines(before: seq<Entry>, after: seq<Entry>, lines: seq<Line>) {
    && |lines| <= 1
    && if lines == [] then after == before
       else |after| == |before| + 1 && after[..|after| - 1] == before && ShowsLine(after[|after| - 1], lines[0])
  }

  lemma MessageShowsLine(p: Projection, e: Event, s: nat)
    requires e.payload.MessageAdded?
    ensures AddsLines(LineEntries(p.entries), LineEntries(ApplyMessage(p, e, s).entries), LinesOf(e, s))
  {
    var m := e.payload;
    RenderedIsJoined(m.parts);
    if !m.system {
      BoundedShortens(RenderedText(m.parts), 4000);
      LineEntriesPush(p.entries, MessageEntry(e, s));
      var next := if Blank(RenderedText(m.parts)) then p else AppendEntry(p, MessageEntry(e, s));
      CallsKeepLines(next, e.runId, s, m.parts);
    }
  }

  lemma ResolveKeepsLines(p: Projection, b: Record, s: nat, approvalId: string, denied: bool)
    requires Fits(p, b)
    ensures LineEntries(ResolveApproval(p, s, approvalId, denied).entries) == LineEntries(p.entries)
  {
    WaitingIsIndex(p.entries, b, approvalId);
    var i := IndexOfApproval(p.entries, approvalId);
    if i >= 0 {
      assert EntryFits(p.entries[i], b);
      ToolUpdateKeepsLines(p.entries, i, p.entries[i].(status := Some(if denied then Denied else Approved),
                                                       isError := Some(denied), updatedSeq := s));
    }
  }

  /** One event adds its lines at the end, and changes no other. */
  lemma EventShowsLines(p: Projection, b: Record, e: Event, s: nat)
    requires Fits(p, b)
    ensures AddsLines(LineEntries(p.entries), LineEntries(ApplyEvent(p, e, s).entries), LinesOf(e, s))
  {
    if ChangesTool(e.payload) {
      UpsertKeepsLines(p, e.runId, s, e.payload.callId, ToolPatch(e.payload));
    } else if e.payload.MessageAdded? {
      MessageShowsLine(p, e, s);
    } else if e.payload.ToolResults? {
      ResultsKeepLines(p, e.runId, s, e.payload.results);
    } else if e.payload.ApprovalResolved? {
      ResolveKeepsLines(p, b, s, e.payload.approvalId, e.payload.denied);
    } else if e.payload.RunStopped? {
      StopShowsLine(p, e, s);
    }
  }

  lemma StopShowsLine(p: Projection, e: Event, s: nat)
    requires e.payload.RunStopped?
    ensures AddsLines(LineEntries(p.entries), LineEntries(p.entries + [StatusEntry(e, s)]), LinesOf(e, s))
  {
    LineEntriesPush(p.entries, StatusEntry(e, s));
    StopLine(e, s);
    var before, entry := LineEntries(p.entries), StatusEntry(e, s);
    assert (before + [entry])[..|before|] == before && (before + [entry])[|before|] == entry;
  }

  lemma StopLine(e: Event, s: nat)
    requires e.payload.RunStopped?
    ensures |LinesOf(e, s)| == 1 && ShowsLine(StatusEntry(e, s), LinesOf(e, s)[0])
  {
    var owner := Or(e.runId, Print(s));
    assert owner == if e.runId.Some? then e.runId.value else Print(s);
    if e.payload.why.Some? {
      BoundedShortens(e.payload.why.value, 800);
    }
  }

  // ---------- Whole logs ----------

  lemma LinesGrow(p: Projection, q: Projection, b: Record, e: Event, s: nat, lines: seq<Line>)
    requires Fits(p, b) && ShowsLines(LineEntries(p.entries), lines) && q.entries == ApplyEvent(p, e, s).entries
    ensures ShowsLines(LineEntries(q.entries), lines + LinesOf(e, s))
  {
    EventShowsLines(p, b, e, s);
    LinesPush(LineEntries(p.entries), LineEntries(q.entries), lines, LinesOf(e, s));
  }

  lemma LinesPush(before: seq<Entry>, after: seq<Entry>, lines: seq<Line>, more: seq<Line>)
    requires ShowsLines(before, lines) && AddsLines(before, after, more)
    ensures ShowsLines(after, lines + more)
  {
    if more != [] {
      forall i | 0 <= i < |after| ensures ShowsLine(after[i], (lines + more)[i]) {
        if i < |before| {
          assert after[i] == after[..|after| - 1][i] == before[i] && ShowsLine(before[i], lines[i]);
        }
      }
    } else {
      assert lines + more == lines;
    }
  }

  ghost predicate HasLines(p: Projection, lines: seq<Line>) {
    ShowsLines(LineEntries(p.entries), lines)
  }

  ghost predicate StepShowsLines(of: nat -> Projection, log: seq<Event>, k: nat)
    requires k < |log|
  {
    HasLines(of(k), LinesSoFar(log, k)) ==> HasLines(of(k + 1), LinesSoFar(log, k + 1))
  }

  lemma ProjectedLinesGrow(p: Projection, b: Record, e: Event, s: nat, lines: seq<Line>)
    requires Fits(p, b)
    ensures HasLines(p, lines) ==>
              HasLines(ApplyEvent(p, e, s).(sessionId := Some(e.sessionId), headSeq := s), lines + LinesOf(e, s))
  {
    if HasLines(p, lines) {
      LinesGrow(p, ApplyEvent(p, e, s).(sessionId := Some(e.sessionId), headSeq := s), b, e, s, lines);
    }
  }

  lemma LinesStep(log: seq<Event>, k: nat)
    requires k < |log|
    ensures StepShowsLines(Prefixes(log), log, k)
  {
    CallsShowWhatTheyWereTold(log, k);
    ProjectedLinesGrow(Of(log, k), RecordOf(log, k), log[k], k + 1, LinesSoFar(log, k));
  }

  lemma {:induction false} LinesAccumulate(of: nat -> Projection, log: seq<Event>, k: nat)
    requires k <= |log| && HasLines(of(0), [])
    requires forall i: nat :: i < k ==> StepShowsLines(of, log, i)
    ensures HasLines(of(k), LinesSoFar(log, k))
  {
    if k > 0 {
      LinesAccumulate(of, log, k - 1);
      assert StepShowsLines(of, log, k - 1);
    }
  }

  /**
   The entries besides tool calls are exactly the messages with text and the stopped runs, in
   order, with their texts.
   */
  lemma LinesAreShown(log: seq<Event>, k: nat)
    requires k <= |log|
    ensures HasLines(Of(log, k), LinesSoFar(log, k))
  {
    forall i: nat | i < k ensures StepShowsLines(Prefixes(log), log, i) {
      LinesStep(log, i);
    }
    LinesAccumulate(Prefixes(log), log, k);
  }
}
