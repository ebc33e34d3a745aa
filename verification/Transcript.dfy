/** The transcript reducer of the terminal client, and the out-of-order merge built on it. */
module Transcript {
  import opened Wrappers
  import opened Sorting
  import opened EventFold
  import opened Decimal

  // ---------- Types ----------

  datatype Status = Proposed | Requested | WaitingApproval | Approved | Running | Succeeded | Failed | Rejected | Denied

  datatype Kind = User | Assistant | Tool | StatusLine

  datatype Entry = Entry(
    id: string, kind: Kind, seqNo: nat, updatedSeq: nat, runId: Option<string>, text: string, detail: Option<string>,
    toolCallId: Option<string>, toolName: Option<string>, approvalId: Option<string>, status: Option<Status>,
    isError: Option<bool>)

  datatype Projection = Projection(sessionId: Option<string>, headSeq: nat, activeRunId: Option<string>,
                                   entries: seq<Entry>)

  const EMPTY := Projection(None, 0, None, [])

  // The JSON payload after its shape checks: an absent or blank call id makes a payload `Ignored`,
  // and `preview` is the redacted one-line rendering of a tool input.
  datatype Part = TextPart(text: string) | CallPart(callId: string, name: Option<string>, preview: string) | OtherPart

  datatype ResultPart = ResultPart(callId: string, toolName: Option<string>, isError: bool, content: string)

  datatype Payload =
    | MessageAdded(messageId: Option<string>, system: bool, fromUser: bool, parts: seq<Part>)
    | RunStarted
    | ToolRequested(callId: string, toolName: Option<string>, preview: string)
    | ToolStarted(callId: string, toolName: Option<string>)
    | ToolCompleted(callId: string, toolName: Option<string>, failed: bool)
    | ToolRejected(callId: string, toolName: Option<string>, code: Option<string>)
    | ToolResults(results: seq<ResultPart>)
    | ApprovalRequested(approvalId: string, callId: string, toolName: Option<string>, reason: Option<string>)
    | ApprovalResolved(approvalId: string, denied: bool)
    | RunCompleted
    | RunStopped(word: string, why: Option<string>) // failed, interrupted or cancelled
    | Ignored

  datatype Event = Event(sessionId: string, runId: Option<string>, seqNo: Option<int>, ephemeral: bool,
                         payload: Payload)

  datatype GapError = TranscriptGap

  const MAX_SAFE_INTEGER: nat := 9007199254740991

  // ---------- The reducer ----------

  function Bounded(value: string, limit: nat): string {
    if |value| > limit then value[..limit] + ['\U{2026}'] else value
  }

  function OrElse<T>(a: Option<T>, b: Option<T>): Option<T> {
    if a.Some? then a else b
  }

  /** The keys a patch leaves out keep the entry's own value. */
  datatype Patch = Patch(text: Option<string>, toolName: Option<string>, approvalId: Option<string>, status: Status,
                         isError: Option<bool>, detail: Option<string>)

  function IndexOfCall(entries: seq<Entry>, callId: string): (i: int)
    ensures i >= 0 ==> i < |entries| && entries[i].toolCallId == Some(callId)
    ensures i < 0 ==> forall j :: 0 <= j < |entries| ==> entries[j].toolCallId != Some(callId)
  {
    if entries == [] then -1
    else if entries[0].toolCallId == Some(callId) then 0
    else var i := IndexOfCall(entries[1..], callId); if i < 0 then -1 else i + 1
  }

  function IndexOfApproval(entries: seq<Entry>, approvalId: string): (i: int)
    ensures i < |entries|
  {
    if entries == [] then -1
    else if entries[0].approvalId == Some(approvalId) then 0
    else var i := IndexOfApproval(entries[1..], approvalId); if i < 0 then -1 else i + 1
  }

  function AppendEntry(p: Projection, e: Entry): Projection {
    p.(entries := p.entries + [e])
  }

  function NewTool(runId: Option<string>, seqNo: nat, callId: string, patch: Patch): Entry {
    var name := if patch.toolName.Some? then patch.toolName.value else "tool";
    Entry("tool:" + callId, Tool, seqNo, seqNo, runId, if patch.text.Some? then patch.text.value else name,
          patch.detail, Some(callId), Some(name), patch.approvalId, Some(patch.status), patch.isError)
  }

  /** A failure never overwrites a denial or a rejection. */
  function PatchTool(entry: Entry, seqNo: nat, patch: Patch): Entry {
    entry.(text := if patch.text.Some? then patch.text.value else entry.text,
           toolName := OrElse(patch.toolName, entry.toolName),
           approvalId := OrElse(patch.approvalId, entry.approvalId),
           isError := OrElse(patch.isError, entry.isError),
           detail := OrElse(patch.detail, entry.detail),
           status := if patch.status.Failed? && (entry.status == Some(Denied) || entry.status == Some(Rejected))
                     then entry.status else Some(patch.status),
           updatedSeq := seqNo)
  }

  function UpsertTool(p: Projection, runId: Option<string>, seqNo: nat, callId: string, patch: Patch): Projection {
    var i := IndexOfCall(p.entries, callId);
    if i < 0 then AppendEntry(p, NewTool(runId, seqNo, callId, patch))
    else p.(entries := p.entries[i := PatchTool(p.entries[i], seqNo, patch)])
  }

  function RenderedText(parts: seq<Part>): string {
    if parts == [] then "" else (if parts[0].TextPart? then parts[0].text else "") + RenderedText(parts[1..])
  }

  /** JavaScript white space and line terminators. */
  predicate IsSpace(c: char) {
    var n := c as int;
    n == 32 || 9 <= n <= 13 || n == 0xA0 || n == 0x1680 || 0x2000 <= n <= 0x200A || n == 0x2028 || n == 0x2029 ||
    n == 0x202F || n == 0x205F || n == 0x3000 || n == 0xFEFF
  }

  predicate Blank(s: string) {
    forall i :: 0 <= i < |s| ==> IsSpace(s[i])
  }

  function ProposeCall(p: Projection, runId: Option<string>, seqNo: nat, part: Part): Projection {
    if !part.CallPart? then p
    else
      var name := if part.name.Some? then part.name.value else "tool";
      UpsertTool(p, runId, seqNo, part.callId, Patch(Some(part.preview), Some(name), None, Proposed, None, None))
  }

  function ProposeCalls(p: Projection, runId: Option<string>, seqNo: nat, parts: seq<Part>): Projection
    decreases |parts|
  {
    if parts == [] then p else ProposeCalls(ProposeCall(p, runId, seqNo, parts[0]), runId, seqNo, parts[1..])
  }

  function MessageEntry(e: Event, seqNo: nat): Entry
    requires e.payload.MessageAdded?
  {
    var id := if e.payload.messageId.Some? then e.payload.messageId.value else "seq_" + Print(seqNo);
    Entry("message:" + id + ":text", if e.payload.fromUser then User else Assistant, seqNo, seqNo, e.runId,
          Bounded(RenderedText(e.payload.parts), 4000), None, None, None, None, None, None)
  }

  function ApplyMessage(p: Projection, e: Event, seqNo: nat): Projection
    requires e.payload.MessageAdded?
  {
    var m := e.payload;
    if m.system then p
    else
      var next := if Blank(RenderedText(m.parts)) then p else AppendEntry(p, MessageEntry(e, seqNo));
      if m.fromUser then next else ProposeCalls(next, e.runId, seqNo, m.parts)
  }

  function ApplyResults(p: Projection, runId: Option<string>, seqNo: nat, results: seq<ResultPart>): Projection
    decreases |results|
  {
    if results == [] then p
    else
      var r := results[0];
      var patch := Patch(None, r.toolName, None, if r.isError then Failed else Succeeded, Some(r.isError),
                         Some(Bounded(r.content, 1200)));
      ApplyResults(UpsertTool(p, runId, seqNo, r.callId, patch), runId, seqNo, results[1..])
  }

  function ResolveApproval(p: Projection, seqNo: nat, approvalId: string, denied: bool): Projection {
    var i := IndexOfApproval(p.entries, approvalId);
    if i < 0 then p
    else p.(entries := p.entries[i := p.entries[i].(status := Some(if denied then Denied else Approved),
                                                    isError := Some(denied), updatedSeq := seqNo)])
  }

  /** The events that change one tool entry, and the change they make. */
  predicate ChangesTool(payload: Payload) {
    || payload.ToolRequested? || payload.ToolStarted? || payload.ToolCompleted? || payload.ToolRejected?
    || payload.ApprovalRequested?
  }

  function ToolPatch(payload: Payload): Patch
    requires ChangesTool(payload)
  {
    match payload
    case ToolRequested(_, toolName, preview) =>
      Patch(if toolName.None? then None else Some(preview), toolName, None, Requested, None, None)
    case ToolStarted(_, toolName) => Patch(None, toolName, None, Running, Some(false), None)
    case ToolCompleted(_, toolName, failed) =>
      Patch(None, toolName, None, if failed then Failed else Succeeded, Some(failed), None)
    case ToolRejected(_, toolName, code) =>
      Patch(None, toolName, None, Rejected, Some(true), if code.None? then None else Some(Bounded(code.value, 800)))
    case ApprovalRequested(approvalId, _, toolName, reason) =>
      Patch(None, Some(if toolName.Some? then toolName.value else "tool"), Some(approvalId), WaitingApproval, None,
            Some(Bounded(if reason.Some? then reason.value else "Approval required", 800)))
  }

  function StatusEntry(e: Event, seqNo: nat): Entry
    requires e.payload.RunStopped?
  {
    var owner := if e.runId.Some? then e.runId.value else Print(seqNo);
    Entry("run:" + owner + ":run." + e.payload.word + ":" + Print(seqNo), StatusLine, seqNo, seqNo, e.runId,
          "Run " + e.payload.word, if e.payload.why.None? then None else Some(Bounded(e.payload.why.value, 800)),
          None, None, None, None, Some(e.payload.word == "failed" || e.payload.word == "interrupted"))
  }

  function ApplyEvent(p: Projection, e: Event, seqNo: nat): Projection {
    if ChangesTool(e.payload) then UpsertTool(p, e.runId, seqNo, e.payload.callId, ToolPatch(e.payload))
    else if e.payload.MessageAdded? then ApplyMessage(p, e, seqNo)
    else if e.payload.ToolResults? then ApplyResults(p, e.runId, seqNo, e.payload.results)
    else if e.payload.ApprovalResolved? then ResolveApproval(p, seqNo, e.payload.approvalId, e.payload.denied)
    else if e.payload.RunStarted? then (if e.runId.None? then p else p.(activeRunId := e.runId))
    else if e.payload.RunCompleted? then (if e.runId == p.activeRunId then p.(activeRunId := None) else p)
    else if e.payload.RunStopped? then
      var next := AppendEntry(p, StatusEntry(e, seqNo));
      if e.runId == p.activeRunId then next.(activeRunId := None) else next
    else p
  }

  function Append(p: Projection, e: Event): Result<Projection, GapError> {
    if e.ephemeral then Ok(p)
    else if e.seqNo.None? || e.seqNo.value < 1 || e.seqNo.value > MAX_SAFE_INTEGER then Err(TranscriptGap)
    else if p.sessionId.Some? && p.sessionId.value != e.sessionId then Err(TranscriptGap)
    else if e.seqNo.value <= p.headSeq then Ok(p)
    else if e.seqNo.value != p.headSeq + 1 then Err(TranscriptGap)
    else Ok(ApplyEvent(p, e, e.seqNo.value).(sessionId := Some(e.sessionId), headSeq := e.seqNo.value))
  }

  /** Any event at all: what is refused, what is ignored, and what is applied. */
  lemma AppendIff(p: Projection, e: Event)
    ensures Append(p, e).Ok? <==>
            e.ephemeral ||
            (e.seqNo.Some? && 1 <= e.seqNo.value <= 9007199254740991 && e.seqNo.value <= p.headSeq + 1
             && (p.sessionId == None || p.sessionId == Some(e.sessionId)))
    ensures Append(p, e).Ok? && (e.ephemeral || e.seqNo.value <= p.headSeq) ==> Append(p, e).value == p
    ensures Append(p, e).Ok? && !e.ephemeral && e.seqNo.value == p.headSeq + 1 ==>
              Append(p, e).value.headSeq == p.headSeq + 1 && Append(p, e).value.sessionId == Some(e.sessionId)
              && Append(p, e).value.entries == ApplyEvent(p, e, p.headSeq + 1).entries
  {
  }

  function AppendAll(p: Projection, events: seq<Event>): Result<Projection, GapError> {
    FoldAll(Append, p, events)
  }

  function ProjectTranscript(events: seq<Event>): Result<Projection, GapError> {
    AppendAll(EMPTY, events)
  }

  function SortKey(e: Event): int {
    if e.seqNo.Some? then e.seqNo.value else 0
  }

  function Merge(p: Projection, events: seq<Event>): Result<Projection, GapError> {
    AppendAll(p, StableSort(events, SortKey))
  }

  // ---------- Projections of a durable log ----------

  /** The event store of one session: durable events numbered from 1. */
  predicate IsLog(log: seq<Event>, session: string) {
    && |log| <= MAX_SAFE_INTEGER
    && forall i :: 0 <= i < |log| ==> !log[i].ephemeral && log[i].seqNo == Some(i + 1) && log[i].sessionId == session
  }

  /** The projection of the first `k` events. */
  function Of(log: seq<Event>, k: nat): Projection
    requires k <= |log|
  {
    if k == 0 then EMPTY
    else ApplyEvent(Of(log, k - 1), log[k - 1], k).(sessionId := Some(log[k - 1].sessionId), headSeq := k)
  }

  lemma OfHead(log: seq<Event>, session: string, k: nat)
    requires IsLog(log, session) && k <= |log|
    ensures Of(log, k).headSeq == k && Of(log, k).sessionId == if k == 0 then None else Some(session)
  {
  }

  /** A stored event: ephemeral, or exactly the log's event with its number. */
  predicate FromLog(log: seq<Event>, e: Event) {
    e.ephemeral || (e.seqNo.Some? && 1 <= e.seqNo.value <= |log| && e == log[e.seqNo.value - 1])
  }

  lemma AppendToPrefix(log: seq<Event>, session: string, k: nat, e: Event)
    requires IsLog(log, session) && k <= |log| && FromLog(log, e)
    ensures Append(Of(log, k), e) ==
            if e.ephemeral || e.seqNo.value <= k then Ok(Of(log, k))
            else if e.seqNo.value == k + 1 then Ok(Of(log, k + 1))
            else Err(TranscriptGap)
  {
    OfHead(log, session, k);
  }

  lemma {:induction false} ReplayIsProjection(log: seq<Event>, session: string, a: nat, b: nat)
    requires IsLog(log, session) && a <= b <= |log|
    ensures AppendAll(Of(log, a), log[a..b]) == Ok(Of(log, b))
    decreases b - a
  {
    if a < b {
      AppendToPrefix(log, session, a, log[a]);
      ReplayIsProjection(log, session, a + 1, b);
      assert log[a..b][1..] == log[a + 1..b];
    }
  }

  // ---------- Merging out of order, with duplicates ----------

  function IsEphemeral(e: Event): bool {
    e.ephemeral
  }

  /** The projection of every prefix, as a function of its length. */
  function Prefixes(log: seq<Event>): nat -> Projection {
    (k: nat) => if k <= |log| then Of(log, k) else EMPTY
  }

  /**
   Merging stored events into the projection of the first `k`, in any order and with
   any duplicates: it succeeds exactly when no number above `k` is missing, and then
   gives the projection up to the highest number seen.
   */
  lemma MergeSpec(log: seq<Event>, session: string, k: nat, events: seq<Event>) returns (m: nat)
    requires IsLog(log, session) && k <= |log|
    requires forall e :: e in events ==> FromLog(log, e)
    ensures m <= |log| && IsTop(k, Numbers(events, SortKey, IsEphemeral), m)
    ensures Merge(Of(log, k), events) ==
            if Contiguous(k, Numbers(events, SortKey, IsEphemeral)) then Ok(Of(log, m)) else Err(TranscriptGap)
  {
    forall j: nat, e | j <= |log| && e in events
      ensures StepsFrom(Append, SortKey, IsEphemeral, Prefixes(log), TranscriptGap, j, e)
    {
      AppendToPrefix(log, session, j, e);
    }
    m := FoldUnsorted(Append, SortKey, IsEphemeral, Prefixes(log), TranscriptGap, |log|, k, events);
  }
}
