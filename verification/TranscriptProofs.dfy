/** What the entries of a transcript keep while events are applied to it. */
module TranscriptProofs {
  import opened Wrappers
  import opened Transcript

  /** Entries are in order of first appearance, dated within the log, and there is one entry per tool call. */
  ghost predicate Tidy(p: Projection, head: nat) {
    && (forall i :: 0 <= i < |p.entries| ==> p.entries[i].seqNo <= p.entries[i].updatedSeq <= head)
    && (forall i, j :: 0 <= i < j < |p.entries| ==> p.entries[i].seqNo <= p.entries[j].seqNo)
    && (forall i, j :: 0 <= i < j < |p.entries| && p.entries[i].toolCallId.Some? ==>
          p.entries[i].toolCallId != p.entries[j].toolCallId)
  }

  /** `b` is a later version of the entry `a`. */
  predicate SameEntry(a: Entry, b: Entry) {
    && a.id == b.id && a.kind == b.kind && a.seqNo == b.seqNo && a.runId == b.runId && a.toolCallId == b.toolCallId
    && a.updatedSeq <= b.updatedSeq
  }

  /** No entry disappears, moves or changes identity. */
  ghost predicate Grows(p: Projection, q: Projection) {
    |p.entries| <= |q.entries| && forall i :: 0 <= i < |p.entries| ==> SameEntry(p.entries[i], q.entries[i])
  }

  /** The two facts together, for a step at sequence number `s`. */
  ghost predicate Keeps(p: Projection, q: Projection, s: nat) {
    Tidy(p, s) ==> Tidy(q, s) && Grows(p, q)
  }

  lemma KeepsTransitive(p: Projection, q: Projection, r: Projection, s: nat)
    requires Keeps(p, q, s) && Keeps(q, r, s)
    ensures Keeps(p, r, s)
  {
    if Tidy(p, s) {
      forall i | 0 <= i < |p.entries| ensures SameEntry(p.entries[i], r.entries[i]) {
        assert SameEntry(p.entries[i], q.entries[i]) && SameEntry(q.entries[i], r.entries[i]);
      }
    }
  }

  lemma AppendKeeps(p: Projection, e: Entry, s: nat)
    requires e.seqNo == e.updatedSeq == s
    requires e.toolCallId.Some? ==> forall i :: 0 <= i < |p.entries| ==> p.entries[i].toolCallId != e.toolCallId
    ensures Keeps(p, AppendEntry(p, e), s)
  {
  }

  lemma UpdateKeeps(p: Projection, i: nat, e: Entry, s: nat)
    requires i < |p.entries| && e.updatedSeq == s
    requires Tidy(p, s) ==> SameEntry(p.entries[i], e)
    ensures Keeps(p, p.(entries := p.entries[i := e]), s)
  {
  }

  lemma UpsertKeeps(p: Projection, runId: Option<string>, s: nat, callId: string, patch: Patch)
    ensures Keeps(p, UpsertTool(p, runId, s, callId, patch), s)
  {
    var i := IndexOfCall(p.entries, callId);
    if i < 0 {
      AppendKeeps(p, NewTool(runId, s, callId, patch), s);
    } else {
      UpdateKeeps(p, i, PatchTool(p.entries[i], s, patch), s);
    }
  }

  lemma {:induction false} ProposeKeeps(p: Projection, runId: Option<string>, s: nat, parts: seq<Part>)
    ensures Keeps(p, ProposeCalls(p, runId, s, parts), s)
    decreases |parts|
  {
    if parts != [] {
      var next := ProposeCall(p, runId, s, parts[0]);
      if parts[0].CallPart? {
        var name := if parts[0].name.Some? then parts[0].name.value else "tool";
        UpsertKeeps(p, runId, s, parts[0].callId,
                    Patch(Some(parts[0].preview), Some(name), None, Proposed, None, None));
      }
      ProposeKeeps(next, runId, s, parts[1..]);
      KeepsTransitive(p, next, ProposeCalls(next, runId, s, parts[1..]), s);
    }
  }

  lemma {:induction false} ResultsKeep(p: Projection, runId: Option<string>, s: nat, results: seq<ResultPart>)
    ensures Keeps(p, ApplyResults(p, runId, s, results), s)
    decreases |results|
  {
    if results != [] {
      var r := results[0];
      var patch := Patch(None, r.toolName, None, if r.isError then Failed else Succeeded, Some(r.isError),
                         Some(Bounded(r.content, 1200)));
      var next := UpsertTool(p, runId, s, r.callId, patch);
      UpsertKeeps(p, runId, s, r.callId, patch);
      ResultsKeep(next, runId, s, results[1..]);
      KeepsTransitive(p, next, ApplyResults(next, runId, s, results[1..]), s);
    }
  }

  lemma MessageKeeps(p: Projection, e: Event, s: nat)
    requires e.payload.MessageAdded?
    ensures Keeps(p, ApplyMessage(p, e, s), s)
  {
    var m := e.payload;
    ProposeKeeps(p, e.runId, s, m.parts);
    forall entry: Entry | entry.seqNo == entry.updatedSeq == s && entry.toolCallId.None?
      ensures Keeps(p, ProposeCalls(AppendEntry(p, entry), e.runId, s, m.parts), s)
              && Keeps(p, AppendEntry(p, entry), s)
    {
      AppendKeeps(p, entry, s);
      ProposeKeeps(AppendEntry(p, entry), e.runId, s, m.parts);
      KeepsTransitive(p, AppendEntry(p, entry), ProposeCalls(AppendEntry(p, entry), e.runId, s, m.parts), s);
    }
  }

  lemma ApprovalKeeps(p: Projection, s: nat, approvalId: string, denied: bool)
    ensures Keeps(p, ResolveApproval(p, s, approvalId, denied), s)
  {
    var i := IndexOfApproval(p.entries, approvalId);
    if i >= 0 {
      var e := p.entries[i].(status := Some(if denied then Denied else Approved), isError := Some(denied),
                             updatedSeq := s);
      UpdateKeeps(p, i, e, s);
    }
  }

  lemma ApplyKeeps(p: Projection, e: Event, s: nat)
    ensures Keeps(p, ApplyEvent(p, e, s), s)
  {
    if ChangesTool(e.payload) {
      UpsertKeeps(p, e.runId, s, e.payload.callId, ToolPatch(e.payload));
    } else if e.payload.MessageAdded? {
      MessageKeeps(p, e, s);
    } else if e.payload.ToolResults? {
      ResultsKeep(p, e.runId, s, e.payload.results);
    } else if e.payload.ApprovalResolved? {
      ApprovalKeeps(p, s, e.payload.approvalId, e.payload.denied);
    } else if e.payload.RunStopped? {
      AppendKeeps(p, StatusEntry(e, s), s);
    }
  }

  ghost predicate StepKeeps(of: nat -> Projection, k: nat) {
    Keeps(of(k), of(k + 1), k + 1)
  }

  lemma StepIsStable(log: seq<Event>, k: nat)
    requires k < |log|
    ensures StepKeeps(Prefixes(log), k)
  {
    ApplyKeeps(Of(log, k), log[k], k + 1);
  }

  lemma TidyStep(p: Projection, q: Projection, k: nat)
    requires Tidy(p, k) && Keeps(p, q, k + 1)
    ensures Tidy(q, k + 1) && Grows(p, q)
  {
    assert Tidy(p, k + 1);
  }

  /** From one step to any number of steps, for any family of projections. */
  lemma {:induction false} StepsAreStable(of: nat -> Projection, a: nat, b: nat)
    requires a <= b && Tidy(of(a), a)
    requires forall k: nat :: a <= k < b ==> StepKeeps(of, k)
    ensures Tidy(of(b), b) && Grows(of(a), of(b))
    decreases b - a
  {
    if a == b {
      GrowsReflexive(of(a));
    } else {
      StepsAreStable(of, a, b - 1);
      assert StepKeeps(of, b - 1);
      TidyStep(of(b - 1), of(b), b - 1);
      GrowsTransitive(of(a), of(b - 1), of(b));
    }
  }

  lemma StepsOfLog(log: seq<Event>, a: nat, b: nat)
    requires a <= b <= |log| && Tidy(Prefixes(log)(a), a)
    ensures Tidy(Prefixes(log)(b), b) && Grows(Prefixes(log)(a), Prefixes(log)(b))
  {
    forall i: nat | a <= i < b ensures StepKeeps(Prefixes(log), i) {
      StepIsStable(log, i);
    }
    StepsAreStable(Prefixes(log), a, b);
  }

  /** Every projection of a log is tidy. */
  lemma ProjectionsAreTidy(log: seq<Event>, k: nat)
    requires k <= |log|
    ensures Tidy(Of(log, k), k)
  {
    StepsOfLog(log, 0, k);
  }

  /** Replaying more of the log never removes, reorders or re-identifies an entry. */
  lemma EntriesAreStable(log: seq<Event>, a: nat, b: nat)
    requires a <= b <= |log|
    ensures Grows(Of(log, a), Of(log, b))
  {
    ProjectionsAreTidy(log, a);
    StepsOfLog(log, a, b);
  }

  lemma GrowsReflexive(p: Projection)
    ensures Grows(p, p)
  {
  }

  lemma GrowsTransitive(p: Projection, q: Projection, r: Projection)
    requires Grows(p, q) && Grows(q, r)
    ensures Grows(p, r)
  {
    forall i | 0 <= i < |p.entries| ensures SameEntry(p.entries[i], r.entries[i]) {
      assert SameEntry(p.entries[i], q.entries[i]) && SameEntry(q.entries[i], r.entries[i]);
    }
  }

  // ---------- Which run is active ----------

  predicate StartsRun(e: Event, r: string) {
    e.payload.RunStarted? && e.runId == Some(r)
  }

  predicate EndsRun(e: Event, r: string) {
    (e.payload.RunCompleted? || e.payload.RunStopped?) && e.runId == Some(r)
  }

  /** `r` was the last run to start or resume before event `k`, and has not ended since. */
  ghost predicate ActiveAt(log: seq<Event>, k: nat, r: string)
    requires k <= |log|
  {
    exists j :: 0 <= j < k && StartsRun(log[j], r) && QuietBetween(log, j + 1, k, r)
  }

  ghost predicate QuietBetween(log: seq<Event>, a: int, b: int, r: string) {
    forall i :: 0 <= a <= i < b <= |log| ==> !EndsRun(log[i], r) && !(log[i].payload.RunStarted? && log[i].runId.Some?)
  }

  lemma ActiveStep(log: seq<Event>, k: nat, r: string)
    requires k < |log|
    ensures ActiveAt(log, k + 1, r) <==>
            StartsRun(log[k], r) ||
            (ActiveAt(log, k, r) && !EndsRun(log[k], r) && !(log[k].payload.RunStarted? && log[k].runId.Some?))
  {
    if ActiveAt(log, k + 1, r) && !StartsRun(log[k], r) {
      var j :| 0 <= j < k + 1 && StartsRun(log[j], r) && QuietBetween(log, j + 1, k + 1, r);
      assert j < k && QuietBetween(log, j + 1, k, r);
    }
    if StartsRun(log[k], r) {
      assert QuietBetween(log, k + 1, k + 1, r);
    }
    if ActiveAt(log, k, r) && !EndsRun(log[k], r) && !(log[k].payload.RunStarted? && log[k].runId.Some?) {
      var j :| 0 <= j < k && StartsRun(log[j], r) && QuietBetween(log, j + 1, k, r);
      assert QuietBetween(log, j + 1, k + 1, r);
    }
  }

  lemma {:induction false} CallsKeepActive(p: Projection, runId: Option<string>, s: nat, parts: seq<Part>)
    ensures ProposeCalls(p, runId, s, parts).activeRunId == p.activeRunId
    decreases |parts|
  {
    if parts != [] {
      CallsKeepActive(ProposeCall(p, runId, s, parts[0]), runId, s, parts[1..]);
    }
  }

  lemma {:induction false} ResultsKeepActive(p: Projection, runId: Option<string>, s: nat, results: seq<ResultPart>)
    ensures ApplyResults(p, runId, s, results).activeRunId == p.activeRunId
    decreases |results|
  {
    if results != [] {
      var r := results[0];
      var patch := Patch(None, r.toolName, None, if r.isError then Failed else Succeeded, Some(r.isError),
                         Some(Bounded(r.content, 1200)));
      ResultsKeepActive(UpsertTool(p, runId, s, r.callId, patch), runId, s, results[1..]);
    }
  }

  lemma ApplyActive(p: Projection, e: Event, s: nat)
    ensures ApplyEvent(p, e, s).activeRunId ==
            if e.payload.RunStarted? && e.runId.Some? then e.runId
            else if (e.payload.RunCompleted? || e.payload.RunStopped?) && e.runId == p.activeRunId then None
            else p.activeRunId
  {
    if e.payload.MessageAdded? {
      forall q: Projection ensures ProposeCalls(q, e.runId, s, e.payload.parts).activeRunId == q.activeRunId {
        CallsKeepActive(q, e.runId, s, e.payload.parts);
      }
    } else if e.payload.ToolResults? {
      ResultsKeepActive(p, e.runId, s, e.payload.results);
    }
  }

  /** The active run of a projection is the run that started last, unless it has ended since. */
  lemma {:induction false} ActiveRunSpec(log: seq<Event>, k: nat, r: string)
    requires k <= |log|
    ensures Of(log, k).activeRunId == Some(r) <==> ActiveAt(log, k, r)
  {
    if k > 0 {
      ActiveRunSpec(log, k - 1, r);
      ActiveStep(log, k - 1, r);
      ApplyActive(Of(log, k - 1), log[k - 1], k);
    }
  }

  // ---------- Which tool calls are shown ----------

  function CallsOf(parts: seq<Part>): set<string> {
    set i | 0 <= i < |parts| && parts[i].CallPart? :: parts[i].callId
  }

  function ResultCalls(results: seq<ResultPart>): set<string> {
    set i | 0 <= i < |results| :: results[i].callId
  }

  /** The tool calls an event talks about. */
  function Mentioned(e: Event): set<string> {
    if ChangesTool(e.payload) then {e.payload.callId}
    else if e.payload.MessageAdded? && !e.payload.system && !e.payload.fromUser then CallsOf(e.payload.parts)
    else if e.payload.ToolResults? then ResultCalls(e.payload.results)
    else {}
  }

  function Shown(p: Projection): set<string> {
    set i | 0 <= i < |p.entries| && p.entries[i].toolCallId.Some? :: p.entries[i].toolCallId.value
  }

  lemma ShownAppend(p: Projection, e: Entry)
    ensures Shown(AppendEntry(p, e)) == Shown(p) + if e.toolCallId.Some? then {e.toolCallId.value} else {}
  {
    var q := AppendEntry(p, e);
    assert q.entries[|p.entries|] == e;
    forall c | c in Shown(p) ensures c in Shown(q) {
      var i :| 0 <= i < |p.entries| && p.entries[i].toolCallId == Some(c);
      assert q.entries[i] == p.entries[i];
    }
  }

  lemma ShownUpdate(p: Projection, i: nat, e: Entry)
    requires i < |p.entries| && e.toolCallId == p.entries[i].toolCallId
    ensures Shown(p.(entries := p.entries[i := e])) == Shown(p)
  {
    var q := p.(entries := p.entries[i := e]);
    assert forall j :: 0 <= j < |p.entries| ==> q.entries[j].toolCallId == p.entries[j].toolCallId;
    forall c ensures c in Shown(q) <==> c in Shown(p) {
      if c in Shown(q) {
        var j :| 0 <= j < |q.entries| && q.entries[j].toolCallId == Some(c);
        assert p.entries[j].toolCallId == Some(c);
      }
      if c in Shown(p) {
        var j :| 0 <= j < |p.entries| && p.entries[j].toolCallId == Some(c);
        assert q.entries[j].toolCallId == Some(c);
      }
    }
  }

  lemma ShownUpsert(p: Projection, runId: Option<string>, s: nat, callId: string, patch: Patch)
    ensures Shown(UpsertTool(p, runId, s, callId, patch)) == Shown(p) + {callId}
  {
    var i := IndexOfCall(p.entries, callId);
    if i < 0 {
      ShownAppend(p, NewTool(runId, s, callId, patch));
    } else {
      ShownUpdate(p, i, PatchTool(p.entries[i], s, patch));
      assert p.entries[i].toolCallId == Some(callId);
    }
  }

  lemma {:induction false} ShownCalls(p: Projection, runId: Option<string>, s: nat, parts: seq<Part>)
    ensures Shown(ProposeCalls(p, runId, s, parts)) == Shown(p) + CallsOf(parts)
    decreases |parts|
  {
    if parts != [] {
      var next := ProposeCall(p, runId, s, parts[0]);
      if parts[0].CallPart? {
        var name := if parts[0].name.Some? then parts[0].name.value else "tool";
        ShownUpsert(p, runId, s, parts[0].callId,
                    Patch(Some(parts[0].preview), Some(name), None, Proposed, None, None));
      }
      ShownCalls(next, runId, s, parts[1..]);
      assert CallsOf(parts) == (if parts[0].CallPart? then {parts[0].callId} else {}) + CallsOf(parts[1..]) by {
        assert forall i :: 1 <= i < |parts| ==> parts[i] == parts[1..][i - 1];
        assert forall i :: 0 <= i < |parts[1..]| ==> parts[1..][i] == parts[i + 1];
      }
    }
  }

  lemma {:induction false} ShownResults(p: Projection, runId: Option<string>, s: nat, results: seq<ResultPart>)
    ensures Shown(ApplyResults(p, runId, s, results)) == Shown(p) + ResultCalls(results)
    decreases |results|
  {
    if results != [] {
      var r := results[0];
      var patch := Patch(None, r.toolName, None, if r.isError then Failed else Succeeded, Some(r.isError),
                         Some(Bounded(r.content, 1200)));
      ShownUpsert(p, runId, s, r.callId, patch);
      ShownResults(UpsertTool(p, runId, s, r.callId, patch), runId, s, results[1..]);
      assert ResultCalls(results) == {r.callId} + ResultCalls(results[1..]) by {
        assert forall i :: 1 <= i < |results| ==> results[i] == results[1..][i - 1];
        assert forall i :: 0 <= i < |results[1..]| ==> results[1..][i] == results[i + 1];
      }
    }
  }

  lemma ShownApply(p: Projection, e: Event, s: nat)
    ensures Shown(ApplyEvent(p, e, s)) == Shown(p) + Mentioned(e)
  {
    if ChangesTool(e.payload) {
      ShownUpsert(p, e.runId, s, e.payload.callId, ToolPatch(e.payload));
    } else if e.payload.MessageAdded? {
      forall q: Projection
        ensures Shown(ProposeCalls(q, e.runId, s, e.payload.parts)) == Shown(q) + CallsOf(e.payload.parts)
      {
        ShownCalls(q, e.runId, s, e.payload.parts);
      }
      forall entry: Entry | entry.toolCallId.None? ensures Shown(AppendEntry(p, entry)) == Shown(p) {
        ShownAppend(p, entry);
      }
    } else if e.payload.ToolResults? {
      ShownResults(p, e.runId, s, e.payload.results);
    } else if e.payload.ApprovalResolved? {
      var i := IndexOfApproval(p.entries, e.payload.approvalId);
      if i >= 0 {
        ShownUpdate(p, i, ResolveApproval(p, s, e.payload.approvalId, e.payload.denied).entries[i]);
      }
    } else if e.payload.RunStopped? {
      ShownAppend(p, StatusEntry(e, s));
    }
  }

  ghost predicate StepShows(of: nat -> Projection, log: seq<Event>, i: nat)
    requires i < |log|
  {
    Shown(of(i + 1)) == Shown(of(i)) + Mentioned(log[i])
  }

  lemma ShownStep(log: seq<Event>, k: nat)
    requires k < |log|
    ensures StepShows(Prefixes(log), log, k)
  {
    ShownApply(Of(log, k), log[k], k + 1);
    assert Of(log, k + 1).entries == ApplyEvent(Of(log, k), log[k], k + 1).entries;
  }

  lemma {:induction false} ShownAccumulates(of: nat -> Projection, log: seq<Event>, k: nat, call: string)
    requires k <= |log| && Shown(of(0)) == {}
    requires forall i: nat :: i < k ==> StepShows(of, log, i)
    ensures call in Shown(of(k)) <==> exists j: nat :: j < k && call in Mentioned(log[j])
  {
    if k > 0 {
      ShownAccumulates(of, log, k - 1, call);
      assert StepShows(of, log, k - 1);
    }
  }

  /** A tool call has an entry exactly when some event so far mentioned it. */
  lemma ShownSpec(log: seq<Event>, k: nat, call: string)
    requires k <= |log|
    ensures call in Shown(Of(log, k)) <==> exists j: nat :: j < k && call in Mentioned(log[j])
  {
    forall i: nat | i < k ensures StepShows(Prefixes(log), log, i) {
      ShownStep(log, i);
    }
    ShownAccumulates(Prefixes(log), log, k, call);
  }
}
