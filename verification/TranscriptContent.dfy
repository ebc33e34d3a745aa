/**
 What a transcript says. Every event tells something to the tool calls it names; a call's
 entry shows what it was told last, and every other entry is a message or the end of a run.
 The tellings are read off the events here, independently of the reducer.
 */
module TranscriptContent {
  import opened Wrappers
  import opened Transcript

  // ---------- Shortened texts ----------

  /** `shown` is `full`, or its first `limit` characters and an ellipsis. */
  predicate Shortens(shown: string, full: string, limit: nat) {
    if |full| <= limit then shown == full
    else |shown| == limit + 1 && shown[..limit] == full[..limit] && shown[limit] == '\U{2026}'
  }

  datatype Long = Long(full: string, limit: nat)

  predicate ShowsLong(shown: Option<string>, said: Option<Long>) {
    match said
    case None => shown == None
    case Some(l) => shown.Some? && Shortens(shown.value, l.full, l.limit)
  }

  // ---------- What an event tells the calls it names ----------

  /** A status, and whatever else the event says. `at` is the event's number. */
  datatype Word = Word(at: nat, runId: Option<string>, status: Status, isError: Option<bool>, detail: Option<Long>,
                       approvalId: Option<string>, toolName: Option<string>, text: Option<string>)

  datatype Telling = Telling(call: string, word: Word)

  function Or(a: Option<string>, default: string): string {
    if a.Some? then a.value else default
  }

  function CallTellings(parts: seq<Part>, at: nat, runId: Option<string>): seq<Telling> {
    if parts == [] then []
    else
      (match parts[0]
       case CallPart(call, name, preview) =>
         [Telling(call, Word(at, runId, Proposed, None, None, None, Some(Or(name, "tool")), Some(preview)))]
       case _ => [])
      + CallTellings(parts[1..], at, runId)
  }

  function ResultTellings(results: seq<ResultPart>, at: nat, runId: Option<string>): seq<Telling> {
    if results == [] then []
    else
      var r := results[0];
      [Telling(r.callId, Word(at, runId, if r.isError then Failed else Succeeded, Some(r.isError),
                              Some(Long(r.content, 1200)), None, r.toolName, None))]
      + ResultTellings(results[1..], at, runId)
  }

  /** The answer to an approval is told to the call that waits for it; see `After`. */
  function Tellings(e: Event, at: nat): seq<Telling> {
    match e.payload
    case ToolRequested(call, name, preview) =>
      [Telling(call, Word(at, e.runId, Requested, None, None, None, name, if name.Some? then Some(preview) else None))]
    case ToolStarted(call, name) =>
      [Telling(call, Word(at, e.runId, Running, Some(false), None, None, name, None))]
    case ToolCompleted(call, name, failed) =>
      [Telling(call, Word(at, e.runId, if failed then Failed else Succeeded, Some(failed), None, None, name, None))]
    case ToolRejected(call, name, code) =>
      [Telling(call, Word(at, e.runId, Rejected, Some(true),
                          if code.Some? then Some(Long(code.value, 800)) else None, None, name, None))]
    case ApprovalRequested(approvalId, call, name, reason) =>
      [Telling(call, Word(at, e.runId, WaitingApproval, None, Some(Long(Or(reason, "Approval required"), 800)),
                          Some(approvalId), Some(Or(name, "tool")), None))]
    case MessageAdded(_, system, fromUser, parts) =>
      if system || fromUser then [] else CallTellings(parts, at, e.runId)
    case ToolResults(results) => ResultTellings(results, at, e.runId)
    case _ => []
  }

  // ---------- What every call has been told ----------

  /** The calls in order of first mention, and for each all it was told, oldest first. */
  datatype Record = Record(order: seq<string>, told: map<string, seq<Word>>)

  function Tell(b: Record, call: string, word: Word): Record {
    if call in b.told then b.(told := b.told[call := b.told[call] + [word]])
    else Record(b.order + [call], b.told[call := [word]])
  }

  function TellAll(b: Record, tellings: seq<Telling>): Record
    decreases |tellings|
  {
    if tellings == [] then b else TellAll(Tell(b, tellings[0].call, tellings[0].word), tellings[1..])
  }

  /** The latest thing said about one matter. */
  function Latest<T>(words: seq<Word>, about: Word -> Option<T>): Option<T>
    decreases |words|
  {
    if words == [] then None
    else
      var last := about(words[|words| - 1]);
      if last.Some? then last else Latest(words[..|words| - 1], about)
  }

  function ErrorOf(w: Word): Option<bool> { w.isError }
  function DetailOf(w: Word): Option<Long> { w.detail }
  function ApprovalOf(w: Word): Option<string> { w.approvalId }
  function NameOf(w: Word): Option<string> { w.toolName }
  function TextOf(w: Word): Option<string> { w.text }

  /** The first call that was last asked to wait for this approval. */
  function Waiting(order: seq<string>, told: map<string, seq<Word>>, approvalId: string): Option<string> {
    if order == [] then None
    else if order[0] in told && Latest(told[order[0]], ApprovalOf) == Some(approvalId) then Some(order[0])
    else Waiting(order[1..], told, approvalId)
  }

  function After(b: Record, e: Event, at: nat): Record {
    match e.payload
    case ApprovalResolved(approvalId, denied) =>
      var call := Waiting(b.order, b.told, approvalId);
      if call.None? then b
      else Tell(b, call.value, Word(at, None, if denied then Denied else Approved, Some(denied), None, None, None,
                                    None))
    case _ => TellAll(b, Tellings(e, at))
  }

  function RecordOf(log: seq<Event>, k: nat): Record
    requires k <= |log|
  {
    if k == 0 then Record([], map[]) else After(RecordOf(log, k - 1), log[k - 1], k)
  }

  // ---------- The entry of a call ----------

  /** The last status, except that a failure never replaces a denial or a rejection. */
  function Settled(words: seq<Word>): Status
    requires words != []
    decreases |words|
  {
    var last := words[|words| - 1].status;
    if !last.Failed? || |words| == 1 then last
    else
      var before := Settled(words[..|words| - 1]);
      if before in {Denied, Rejected} then before else Failed
  }

  predicate ShowsCall(e: Entry, call: string, words: seq<Word>) {
    && words != []
    && e.id == "tool:" + call && e.kind == Tool && e.toolCallId == Some(call)
    && e.seqNo == words[0].at && e.updatedSeq == words[|words| - 1].at && e.runId == words[0].runId
    && e.status == Some(Settled(words)) && e.isError == Latest(words, ErrorOf)
    && e.approvalId == Latest(words, ApprovalOf) && ShowsLong(e.detail, Latest(words, DetailOf))
    && e.toolName == Some(Or(Latest(words, NameOf), "tool"))
    && e.text == Or(Latest(words, TextOf), Or(words[0].toolName, "tool"))
  }

  function ToolIds(entries: seq<Entry>): seq<string> {
    if entries == [] then []
    else (if entries[0].toolCallId.Some? then [entries[0].toolCallId.value] else []) + ToolIds(entries[1..])
  }

  predicate OneEach(entries: seq<Entry>) {
    forall i, j :: 0 <= i < j < |entries| && entries[i].toolCallId.Some? ==>
      entries[i].toolCallId != entries[j].toolCallId
  }

  predicate EntryFits(e: Entry, b: Record) {
    if e.toolCallId.None? then e.approvalId == None
    else e.toolCallId.value in b.told && ShowsCall(e, e.toolCallId.value, b.told[e.toolCallId.value])
  }

  /** The tool entries of `p` are the recorded calls, in their order, and show what they were told. */
  ghost predicate Fits(p: Projection, b: Record) {
    && ToolIds(p.entries) == b.order && OneEach(p.entries)
    && (forall c :: c in b.order <==> c in b.told)
    && forall i :: 0 <= i < |p.entries| ==> EntryFits(p.entries[i], b)
  }

  // ---------- Tool ids ----------

  lemma {:induction false} ToolIdsConcat(a: seq<Entry>, b: seq<Entry>)
    ensures ToolIds(a + b) == ToolIds(a) + ToolIds(b)
  {
    if a == [] {
      assert a + b == b;
    } else {
      ToolIdsConcat(a[1..], b);
      assert (a + b)[1..] == a[1..] + b;
      assert ToolIds(a + b)
          == (if a[0].toolCallId.Some? then [a[0].toolCallId.value] else []) + (ToolIds(a[1..]) + ToolIds(b));
    }
  }

  lemma ToolIdsPush(a: seq<Entry>, e: Entry)
    ensures ToolIds(a + [e]) == ToolIds(a) + if e.toolCallId.Some? then [e.toolCallId.value] else []
  {
    ToolIdsConcat(a, [e]);
    assert [e][1..] == [];
  }

  lemma ToolIdsUpdate(a: seq<Entry>, i: nat, e: Entry)
    requires i < |a| && e.toolCallId == a[i].toolCallId
    ensures ToolIds(a[i := e]) == ToolIds(a)
  {
    assert a[i := e] == a[..i] + ([e] + a[i + 1..]);
    assert a == a[..i] + ([a[i]] + a[i + 1..]);
    ToolIdsConcat(a[..i], [e] + a[i + 1..]);
    ToolIdsConcat(a[..i], [a[i]] + a[i + 1..]);
    assert ([e] + a[i + 1..])[1..] == a[i + 1..] && ([a[i]] + a[i + 1..])[1..] == a[i + 1..];
  }

  lemma {:induction false} ToolIdsMembers(a: seq<Entry>, c: string)
    ensures c in ToolIds(a) <==> exists i :: 0 <= i < |a| && a[i].toolCallId == Some(c)
  {
    if a != [] {
      ToolIdsMembers(a[1..], c);
      assert forall i :: 0 <= i < |a[1..]| ==> a[1..][i] == a[i + 1];
      if exists i :: 0 <= i < |a| && a[i].toolCallId == Some(c) {
        var i :| 0 <= i < |a| && a[i].toolCallId == Some(c);
        assert i == 0 || a[1..][i - 1] == a[i];
      }
    }
  }

  // ---------- One telling ----------

  /** A patch carries a word. */
  predicate Carries(patch: Patch, w: Word) {
    && patch.status == w.status && patch.isError == w.isError && ShowsLong(patch.detail, w.detail)
    && patch.approvalId == w.approvalId && patch.toolName == w.toolName && patch.text == w.text
  }

  lemma LatestPush<T>(words: seq<Word>, w: Word, about: Word -> Option<T>)
    ensures Latest(words + [w], about) == if about(w).Some? then about(w) else Latest(words, about)
  {
    assert (words + [w])[..|words|] == words;
  }

  lemma AllLatestPush(words: seq<Word>, w: Word)
    ensures Latest(words + [w], ErrorOf) == if w.isError.Some? then w.isError else Latest(words, ErrorOf)
    ensures Latest(words + [w], DetailOf) == if w.detail.Some? then w.detail else Latest(words, DetailOf)
    ensures Latest(words + [w], ApprovalOf) == if w.approvalId.Some? then w.approvalId else Latest(words, ApprovalOf)
    ensures Latest(words + [w], NameOf) == if w.toolName.Some? then w.toolName else Latest(words, NameOf)
    ensures Latest(words + [w], TextOf) == if w.text.Some? then w.text else Latest(words, TextOf)
  {
    LatestPush(words, w, ErrorOf);
    LatestPush(words, w, DetailOf);
    LatestPush(words, w, ApprovalOf);
    LatestPush(words, w, NameOf);
    LatestPush(words, w, TextOf);
  }

  lemma SettledPush(words: seq<Word>, w: Word)
    ensures Settled(words + [w]) ==
            if w.status.Failed? && words != [] && Settled(words) in {Denied, Rejected} then Settled(words) else w.status
  {
    assert (words + [w])[..|words|] == words;
  }

  lemma NewShowsCall(runId: Option<string>, s: nat, call: string, patch: Patch, w: Word)
    requires Carries(patch, w) && w.at == s && w.runId == runId
    ensures ShowsCall(NewTool(runId, s, call, patch), call, [w])
  {
    assert [w] == [] + [w];
    AllLatestPush([], w);
    SettledPush([], w);
  }

  lemma PatchShowsCall(e: Entry, s: nat, call: string, patch: Patch, words: seq<Word>, w: Word)
    requires ShowsCall(e, call, words) && Carries(patch, w) && w.at == s
    ensures ShowsCall(PatchTool(e, s, patch), call, words + [w])
  {
    AllLatestPush(words, w);
    SettledPush(words, w);
  }

  /** Appending an entry that is not a call's. */
  lemma LineFits(p: Projection, b: Record, e: Entry)
    requires Fits(p, b) && e.toolCallId == None && e.approvalId == None
    ensures Fits(AppendEntry(p, e), b)
  {
    ToolIdsPush(p.entries, e);
  }

  lemma OneEachPush(entries: seq<Entry>, e: Entry)
    requires OneEach(entries) && forall i :: 0 <= i < |entries| ==> entries[i].toolCallId != e.toolCallId
    ensures OneEach(entries + [e])
  {
  }

  lemma OneEachUpdate(entries: seq<Entry>, i: nat, e: Entry)
    requires OneEach(entries) && i < |entries| && e.toolCallId == entries[i].toolCallId
    ensures OneEach(entries[i := e])
  {
    var after := entries[i := e];
    assert forall j :: 0 <= j < |entries| ==> after[j].toolCallId == entries[j].toolCallId;
  }

  lemma NewCallFits(p: Projection, b: Record, e: Entry, call: string, w: Word)
    requires Fits(p, b) && call !in b.told && ShowsCall(e, call, [w])
    ensures Fits(AppendEntry(p, e), Tell(b, call, w))
  {
    var q, c := AppendEntry(p, e), Tell(b, call, w);
    ToolIdsPush(p.entries, e);
    forall i | 0 <= i < |p.entries| ensures EntryFits(q.entries[i], c) && q.entries[i].toolCallId != Some(call) {
      assert EntryFits(p.entries[i], b);
    }
    OneEachPush(p.entries, e);
  }

  lemma OldCallFits(p: Projection, b: Record, i: nat, e: Entry, call: string, w: Word)
    requires Fits(p, b) && i < |p.entries| && p.entries[i].toolCallId == Some(call) && call in b.told
    requires ShowsCall(e, call, b.told[call] + [w])
    ensures Fits(p.(entries := p.entries[i := e]), Tell(b, call, w))
  {
    var q, c := p.(entries := p.entries[i := e]), Tell(b, call, w);
    ToolIdsUpdate(p.entries, i, e);
    OneEachUpdate(p.entries, i, e);
    forall j | 0 <= j < |p.entries| ensures EntryFits(q.entries[j], c) {
      assert EntryFits(p.entries[j], b);
    }
  }

  lemma UpsertFits(p: Projection, b: Record, runId: Option<string>, s: nat, call: string, patch: Patch, w: Word)
    requires Fits(p, b) && Carries(patch, w) && w.at == s && w.runId == runId
    ensures Fits(UpsertTool(p, runId, s, call, patch), Tell(b, call, w))
  {
    var i := IndexOfCall(p.entries, call);
    ToolIdsMembers(p.entries, call);
    if i < 0 {
      NewShowsCall(runId, s, call, patch, w);
      NewCallFits(p, b, NewTool(runId, s, call, patch), call, w);
    } else {
      assert EntryFits(p.entries[i], b);
      PatchShowsCall(p.entries[i], s, call, patch, b.told[call], w);
      OldCallFits(p, b, i, PatchTool(p.entries[i], s, patch), call, w);
    }
  }

  // ---------- One event ----------

  lemma BoundedShortens(value: string, limit: nat)
    ensures Shortens(Bounded(value, limit), value, limit)
  {
  }

  lemma {:induction false} CallsFit(p: Projection, b: Record, runId: Option<string>, s: nat, parts: seq<Part>)
    requires Fits(p, b)
    ensures Fits(ProposeCalls(p, runId, s, parts), TellAll(b, CallTellings(parts, s, runId)))
    decreases |parts|
  {
    if parts != [] {
      var rest := CallTellings(parts[1..], s, runId);
      if parts[0].CallPart? {
        var name := if parts[0].name.Some? then parts[0].name.value else "tool";
        var patch := Patch(Some(parts[0].preview), Some(name), None, Proposed, None, None);
        var w := Word(s, runId, Proposed, None, None, None, Some(name), Some(parts[0].preview));
        UpsertFits(p, b, runId, s, parts[0].callId, patch, w);
        CallsFit(ProposeCall(p, runId, s, parts[0]), Tell(b, parts[0].callId, w), runId, s, parts[1..]);
        assert ([Telling(parts[0].callId, w)] + rest)[1..] == rest;
      } else {
        CallsFit(p, b, runId, s, parts[1..]);
        assert [] + rest == rest;
      }
    }
  }

  lemma {:induction false} ResultsFit(p: Projection, b: Record, runId: Option<string>, s: nat, results: seq<ResultPart>)
    requires Fits(p, b)
    ensures Fits(ApplyResults(p, runId, s, results), TellAll(b, ResultTellings(results, s, runId)))
    decreases |results|
  {
    if results != [] {
      var r, rest := results[0], ResultTellings(results[1..], s, runId);
      var patch := Patch(None, r.toolName, None, if r.isError then Failed else Succeeded, Some(r.isError),
                         Some(Bounded(r.content, 1200)));
      var w := Word(s, runId, if r.isError then Failed else Succeeded, Some(r.isError), Some(Long(r.content, 1200)),
                    None, r.toolName, None);
      BoundedShortens(r.content, 1200);
      UpsertFits(p, b, runId, s, r.callId, patch, w);
      ResultsFit(UpsertTool(p, runId, s, r.callId, patch), Tell(b, r.callId, w), runId, s, results[1..]);
      assert ([Telling(r.callId, w)] + rest)[1..] == rest;
    }
  }

  lemma ToolEventFits(p: Projection, b: Record, e: Event, s: nat)
    requires Fits(p, b) && ChangesTool(e.payload)
    ensures Fits(UpsertTool(p, e.runId, s, e.payload.callId, ToolPatch(e.payload)), TellAll(b, Tellings(e, s)))
  {
    var t := Tellings(e, s);
    assert |t| == 1 && t[0].call == e.payload.callId && t[1..] == [];
    assert Carries(ToolPatch(e.payload), t[0].word);
    UpsertFits(p, b, e.runId, s, e.payload.callId, ToolPatch(e.payload), t[0].word);
    assert TellAll(b, t) == Tell(b, t[0].call, t[0].word);
  }

  lemma MessageFits(p: Projection, b: Record, e: Event, s: nat)
    requires Fits(p, b) && e.payload.MessageAdded?
    ensures Fits(ApplyMessage(p, e, s), TellAll(b, Tellings(e, s)))
  {
    var m := e.payload;
    if !m.system {
      var next := if Blank(RenderedText(m.parts)) then p else AppendEntry(p, MessageEntry(e, s));
      LineFits(p, b, MessageEntry(e, s));
      if !m.fromUser {
        CallsFit(next, b, e.runId, s, m.parts);
      }
    }
  }

  /** The reducer's search for an approval finds the entry of the call that waits for it. */
  lemma {:induction false} WaitingIsIndex(entries: seq<Entry>, b: Record, approvalId: string)
    requires forall i :: 0 <= i < |entries| ==> EntryFits(entries[i], b)
    ensures var i, c := IndexOfApproval(entries, approvalId), Waiting(ToolIds(entries), b.told, approvalId);
            (i < 0 <==> c == None) && (i >= 0 ==> i < |entries| && entries[i].toolCallId == c)
  {
    if entries != [] {
      var rest := ToolIds(entries[1..]);
      assert EntryFits(entries[0], b);
      assert forall i :: 0 <= i < |entries[1..]| ==> entries[1..][i] == entries[i + 1];
      WaitingIsIndex(entries[1..], b, approvalId);
      if entries[0].toolCallId.Some? {
        assert ToolIds(entries) == [entries[0].toolCallId.value] + rest;
        assert ([entries[0].toolCallId.value] + rest)[1..] == rest;
      } else {
        assert ToolIds(entries) == rest;
      }
    }
  }

  lemma ResolveFits(p: Projection, b: Record, e: Event, s: nat)
    requires Fits(p, b) && e.payload.ApprovalResolved?
    ensures Fits(ResolveApproval(p, s, e.payload.approvalId, e.payload.denied), After(b, e, s))
  {
    var denied := e.payload.denied;
    WaitingIsIndex(p.entries, b, e.payload.approvalId);
    var i := IndexOfApproval(p.entries, e.payload.approvalId);
    if i >= 0 {
      var call := p.entries[i].toolCallId.value;
      var w := Word(s, None, if denied then Denied else Approved, Some(denied), None, None, None, None);
      var entry := p.entries[i].(status := Some(if denied then Denied else Approved), isError := Some(denied),
                                 updatedSeq := s);
      assert EntryFits(p.entries[i], b);
      AllLatestPush(b.told[call], w);
      SettledPush(b.told[call], w);
      OldCallFits(p, b, i, entry, call, w);
    }
  }

  lemma EventFits(p: Projection, b: Record, e: Event, s: nat)
    requires Fits(p, b)
    ensures Fits(ApplyEvent(p, e, s), After(b, e, s))
  {
    if ChangesTool(e.payload) {
      ToolEventFits(p, b, e, s);
    } else if e.payload.MessageAdded? {
      MessageFits(p, b, e, s);
    } else if e.payload.ToolResults? {
      ResultsFit(p, b, e.runId, s, e.payload.results);
    } else if e.payload.ApprovalResolved? {
      ResolveFits(p, b, e, s);
    } else if e.payload.RunStopped? {
      LineFits(p, b, StatusEntry(e, s));
    }
  }

  ghost predicate StepFits(of: nat -> Projection, log: seq<Event>, k: nat)
    requires k < |log|
  {
    Fits(of(k), RecordOf(log, k)) ==> Fits(of(k + 1), RecordOf(log, k + 1))
  }

  lemma EventStepFits(log: seq<Event>, k: nat)
    requires k < |log|
    ensures StepFits(Prefixes(log), log, k)
  {
    ProjectedEventFits(Of(log, k), RecordOf(log, k), log[k], k + 1);
  }

  lemma ProjectedEventFits(p: Projection, b: Record, e: Event, s: nat)
    ensures Fits(p, b) ==> Fits(ApplyEvent(p, e, s).(sessionId := Some(e.sessionId), headSeq := s), After(b, e, s))
  {
    if Fits(p, b) {
      EventFits(p, b, e, s);
      SameEntriesFit(ApplyEvent(p, e, s), ApplyEvent(p, e, s).(sessionId := Some(e.sessionId), headSeq := s),
                     After(b, e, s));
    }
  }

  lemma SameEntriesFit(p: Projection, q: Projection, b: Record)
    requires Fits(p, b) && q.entries == p.entries
    ensures Fits(q, b)
  {
  }

  lemma {:induction false} StepsFit(of: nat -> Projection, log: seq<Event>, k: nat)
    requires k <= |log| && Fits(of(0), RecordOf(log, 0))
    requires forall i: nat :: i < k ==> StepFits(of, log, i)
    ensures Fits(of(k), RecordOf(log, k))
  {
    if k > 0 {
      StepsFit(of, log, k - 1);
      assert StepFits(of, log, k - 1);
    }
  }

  /** Every projection of a log has one entry for each recorded call, in order, showing what the call was told. */
  lemma CallsShowWhatTheyWereTold(log: seq<Event>, k: nat)
    requires k <= |log|
    ensures Fits(Of(log, k), RecordOf(log, k))
  {
    forall i: nat | i < k ensures StepFits(Prefixes(log), log, i) {
      EventStepFits(log, i);
    }
    StepsFit(Prefixes(log), log, k);
  }

  // ---------- Read off the events ----------

  function Told(b: Record, call: string): seq<Word> {
    if call in b.told then b.told[call] else []
  }

  function WordsFor(tellings: seq<Telling>, call: string): seq<Word> {
    if tellings == [] then []
    else (if tellings[0].call == call then [tellings[0].word] else []) + WordsFor(tellings[1..], call)
  }

  /** What event number `at` tells `call`, given what was told before. */
  function SaidTo(b: Record, e: Event, at: nat, call: string): seq<Word> {
    match e.payload
    case ApprovalResolved(approvalId, denied) =>
      if Waiting(b.order, b.told, approvalId) != Some(call) then []
      else [Word(at, None, if denied then Denied else Approved, Some(denied), None, None, None, None)]
    case _ => WordsFor(Tellings(e, at), call)
  }

  /** All that the first `k` events told `call`, oldest first. */
  function History(log: seq<Event>, k: nat, call: string): seq<Word>
    requires k <= |log|
  {
    if k == 0 then [] else History(log, k - 1, call) + SaidTo(RecordOf(log, k - 1), log[k - 1], k, call)
  }

  lemma {:induction false} TellAllTold(b: Record, tellings: seq<Telling>, call: string)
    ensures Told(TellAll(b, tellings), call) == Told(b, call) + WordsFor(tellings, call)
    ensures NoneSilent(b) ==> NoneSilent(TellAll(b, tellings))
    decreases |tellings|
  {
    if tellings != [] {
      var next := Tell(b, tellings[0].call, tellings[0].word);
      TellAllTold(next, tellings[1..], call);
      assert Told(next, call) == Told(b, call) + if tellings[0].call == call then [tellings[0].word] else [];
    }
  }

  ghost predicate NoneSilent(b: Record) {
    forall c :: c in b.told ==> b.told[c] != []
  }

  lemma {:induction false} WaitingIsTold(order: seq<string>, told: map<string, seq<Word>>, approvalId: string)
    ensures var c := Waiting(order, told, approvalId); c.Some? ==> c.value in told
  {
    if order != [] {
      WaitingIsTold(order[1..], told, approvalId);
    }
  }

  lemma AfterTold(b: Record, e: Event, at: nat, call: string)
    requires NoneSilent(b)
    ensures Told(After(b, e, at), call) == Told(b, call) + SaidTo(b, e, at, call) && NoneSilent(After(b, e, at))
  {
    if e.payload.ApprovalResolved? {
      WaitingIsTold(b.order, b.told, e.payload.approvalId);
    } else {
      TellAllTold(b, Tellings(e, at), call);
    }
  }

  lemma {:induction false} ToldIsHistory(log: seq<Event>, k: nat, call: string)
    requires k <= |log|
    ensures Told(RecordOf(log, k), call) == History(log, k, call)
    ensures NoneSilent(RecordOf(log, k))
  {
    if k > 0 {
      ToldIsHistory(log, k - 1, call);
      AfterTold(RecordOf(log, k - 1), log[k - 1], k, call);
    }
  }

  /** `call` has an entry exactly when it was told something, and then one entry, which shows all of that. */
  ghost predicate EntryTells(p: Projection, call: string, words: seq<Word>) {
    && ((exists i :: 0 <= i < |p.entries| && p.entries[i].toolCallId == Some(call)) <==> words != [])
    && (forall i :: 0 <= i < |p.entries| && p.entries[i].toolCallId == Some(call) ==>
          ShowsCall(p.entries[i], call, words))
    && OneEach(p.entries)
  }

  /** The entry of every call shows exactly what the events told it. */
  lemma CallEntry(log: seq<Event>, k: nat, call: string)
    requires k <= |log|
    ensures EntryTells(Of(log, k), call, History(log, k, call))
  {
    CallsShowWhatTheyWereTold(log, k);
    ToldIsHistory(log, k, call);
    EntriesOf(Of(log, k), RecordOf(log, k), call);
  }

  lemma EntriesOf(p: Projection, b: Record, call: string)
    requires Fits(p, b) && NoneSilent(b)
    ensures EntryTells(p, call, Told(b, call))
  {
    ToolIdsMembers(p.entries, call);
    forall i | 0 <= i < |p.entries| && p.entries[i].toolCallId == Some(call)
      ensures ShowsCall(p.entries[i], call, Told(b, call))
    {
      assert EntryFits(p.entries[i], b);
    }
  }

  /** The status shown: the last one that is not a failure if it was said last or is final, and a failure otherwise. */
  lemma {:induction false} SettledSpec(words: seq<Word>, j: nat)
    requires j < |words|
    requires forall i :: j < i < |words| ==> words[i].status == Failed
    ensures words[j].status != Failed ==>
              Settled(words) == if j == |words| - 1 || words[j].status in {Denied, Rejected} then words[j].status
                                else Failed
    ensures j == 0 && words[0].status == Failed ==> Settled(words) == Failed
    decreases |words|
  {
    if j < |words| - 1 {
      SettledSpec(words[..|words| - 1], j);
    } else if j > 0 && words[j].status == Failed {
    }
  }

  /** The latest thing said about a matter: word `j` says it, and nothing after it does. */
  lemma {:induction false} LatestSpec<T>(words: seq<Word>, about: Word -> Option<T>, j: nat)
    requires j <= |words| && forall i :: j < i < |words| ==> about(words[i]) == None
    ensures j < |words| && about(words[j]) != None ==> Latest(words, about) == about(words[j])
    ensures j == 0 && (words == [] || about(words[0]) == None) ==> Latest(words, about) == None
    decreases |words|
  {
    if words != [] && j < |words| - 1 {
      LatestSpec(words[..|words| - 1], about, j);
    } else if |words| == 1 {
      assert words[..0] == [];
    }
  }

  /** Right after a tool reports success its entry says so; a failure shows unless the call was denied or rejected. */
  lemma CompletionIsShown(log: seq<Event>, k: nat, call: string, name: Option<string>, failed: bool, i: nat)
    requires 0 < k <= |log| && log[k - 1].payload == ToolCompleted(call, name, failed)
    requires i < |Of(log, k).entries| && Of(log, k).entries[i].toolCallId == Some(call)
    ensures var e, before := Of(log, k).entries[i], History(log, k - 1, call);
            && e.isError == Some(failed) && e.updatedSeq == k
            && (!failed ==> e.status == Some(Succeeded))
            && (failed && before != [] && Settled(before) in {Denied, Rejected} ==> e.status == Some(Settled(before)))
            && (failed && (before == [] || Settled(before) !in {Denied, Rejected}) ==> e.status == Some(Failed))
  {
    CallEntry(log, k, call);
    var before := History(log, k - 1, call);
    var w := Word(k, log[k - 1].runId, if failed then Failed else Succeeded, Some(failed), None, None, name, None);
    assert WordsFor(Tellings(log[k - 1], k), call) == [w];
    assert History(log, k, call) == before + [w];
    AllLatestPush(before, w);
    SettledPush(before, w);
  }
}
