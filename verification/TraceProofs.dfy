/** The acceptor accepts a trace exactly when a condition on the whole trace holds. */
module TraceProofs {
  import opened Wrappers
  import opened TraceReplay

  // ---------- The whole-trace condition ----------

  predicate Starts(e: Event, r: string) {
    e.runId == Some(r) && e.kind.RunStarted?
  }

  predicate Ends(e: Event, r: string) {
    e.runId == Some(r) && e.kind.RunEnded?
  }

  predicate StartsTool(e: Event, call: string) {
    e.kind.ToolStarted? && e.kind.call == Some(call)
  }

  predicate CompletesTool(e: Event, call: string) {
    e.kind.ToolCompleted? && e.kind.call == Some(call)
  }

  ghost predicate StartedBefore(t: seq<Event>, n: nat, r: string)
    requires n <= |t|
  {
    exists j :: 0 <= j < n && Starts(t[j], r)
  }

  ghost predicate EndedBefore(t: seq<Event>, n: nat, r: string)
    requires n <= |t|
  {
    exists j :: 0 <= j < n && Ends(t[j], r)
  }

  ghost predicate ToolStartedBefore(t: seq<Event>, n: nat, call: string)
    requires n <= |t|
  {
    exists j :: 0 <= j < n && StartsTool(t[j], call)
  }

  ghost predicate ToolCompletedBefore(t: seq<Event>, n: nat, call: string)
    requires n <= |t|
  {
    exists j :: 0 <= j < n && CompletesTool(t[j], call)
  }

  /** `e` sets the state of run `r`. */
  predicate SetsState(e: Event, r: string) {
    e.runId == Some(r) &&
    (e.kind.RunStarted? || e.kind.RunResumed? || e.kind.RunEnded?
     || (e.kind.RunStateChanged? && StateNamed(e.kind.raw).Some?))
  }

  function StateSetBy(e: Event): RunState {
    if e.kind.RunEnded? then e.kind.target
    else if e.kind.RunStateChanged? && StateNamed(e.kind.raw).Some? then StateNamed(e.kind.raw).value
    else Created
  }

  /** The state of `r` before event `n`: what the last event that sets it said. */
  function StateAt(t: seq<Event>, n: nat, r: string): RunState
    requires n <= |t|
  {
    if n == 0 then Created
    else if SetsState(t[n - 1], r) then StateSetBy(t[n - 1])
    else StateAt(t, n - 1, r)
  }

  /** Which states a run can enter each state from. */
  predicate CanEnter(from: RunState, to: RunState) {
    match to
    case Created => false
    case Running => from in {Created, WaitingTool, WaitingApproval}
    case WaitingTool => from in {Running, WaitingApproval}
    case WaitingApproval => from == WaitingTool
    case Completed => from in {Running, WaitingTool, WaitingApproval}
    case _ => from !in {Completed, Failed, Interrupted, Cancelled}
  }

  /** Runs start once, follow the transition table since their last start or resume, and end once. */
  ghost predicate RunOk(t: seq<Event>, n: nat)
    requires n < |t|
  {
    var e := t[n];
    if e.runId.None? then !e.kind.RunStateChanged?
    else
      var r := e.runId.value;
      && (EndedBefore(t, n, r) ==> e.kind.Referential?)
      && match e.kind
         case RunStarted => !StartedBefore(t, n, r)
         case RunResumed => StartedBefore(t, n, r)
         case RunSuspended => StartedBefore(t, n, r) && StateAt(t, n, r) == WaitingApproval
         case RunStateChanged(raw) =>
           StartedBefore(t, n, r) && StateNamed(raw).Some? && CanEnter(StateAt(t, n, r), StateNamed(raw).value)
         case RunEnded(target, declared) =>
           && StartedBefore(t, n, r) && (declared.None? || declared.value == Name(target))
           && (StateAt(t, n, r) == target || CanEnter(StateAt(t, n, r), target))
         case _ => true
  }

  /** All starts of `call` before `n` belong to the run of event `n`. */
  ghost predicate OwnedBy(t: seq<Event>, n: nat, call: string, runId: Option<string>)
    requires n <= |t|
  {
    forall j :: 0 <= j < n && StartsTool(t[j], call) ==> t[j].runId == runId
  }

  /** A tool call starts once, completes at most once in the run that started it, and no result crosses runs. */
  ghost predicate ToolOk(t: seq<Event>, n: nat)
    requires n < |t|
  {
    var e := t[n];
    match e.kind
    case ToolStarted(call) => e.runId.Some? && call.Some? && !ToolStartedBefore(t, n, call.value)
    case ToolCompleted(call) =>
      && e.runId.Some? && call.Some?
      && ToolStartedBefore(t, n, call.value) && OwnedBy(t, n, call.value, e.runId)
      && !ToolCompletedBefore(t, n, call.value)
    case ToolResult(calls) =>
      forall i :: 0 <= i < |calls| ==> calls[i].Some? && OwnedBy(t, n, calls[i].value, e.runId)
    case _ => true
  }

  ghost predicate EventOk(t: seq<Event>, session: string, n: nat)
    requires n < |t|
  {
    && t[n].sessionId == session && t[n].seqNo == Some(n + 1) && !t[n].ephemeral
    && (forall j :: 0 <= j < n ==> t[j].id != t[n].id)
    && RunOk(t, n) && ToolOk(t, n)
  }

  ghost predicate ValidTrace(text: string -> Option<string>, t: seq<Event>) {
    && t != [] && text(t[0].sessionId) == Some(t[0].sessionId)
    && forall n :: 0 <= n < |t| ==> EventOk(t, t[0].sessionId, n)
  }

  // ---------- The state summarizes the prefix ----------

  ghost predicate IdsMatch(t: seq<Event>, n: nat, p: Progress)
    requires n <= |t|
  {
    p.lastSeq == n && forall id :: id in p.eventIds <==> exists j :: 0 <= j < n && t[j].id == id
  }

  ghost predicate RunsMatch(t: seq<Event>, n: nat, p: Progress)
    requires n <= |t|
  {
    && (forall r :: r in p.runs <==> StartedBefore(t, n, r))
    && (forall r :: r in p.runs ==> p.runs[r] == StateAt(t, n, r))
    && (forall r :: r in p.terminalRuns <==> EndedBefore(t, n, r))
  }

  ghost predicate ToolsMatch(t: seq<Event>, n: nat, p: Progress)
    requires n <= |t|
  {
    && (forall c :: c in p.toolStarted <==> ToolStartedBefore(t, n, c))
    && (forall c :: c in p.toolRuns <==> ToolStartedBefore(t, n, c))
    && (forall c :: c in p.toolRuns ==> OwnedBy(t, n, c, Some(p.toolRuns[c])))
    && (forall c :: c in p.toolCompleted <==> ToolCompletedBefore(t, n, c))
  }

  ghost predicate Summarizes(t: seq<Event>, n: nat, session: string, p: Progress)
    requires n <= |t|
  {
    p.session == session && IdsMatch(t, n, p) && RunsMatch(t, n, p) && ToolsMatch(t, n, p)
  }

  lemma BeforeStep(t: seq<Event>, n: nat)
    requires n < |t|
    ensures forall r :: StartedBefore(t, n + 1, r) <==> StartedBefore(t, n, r) || Starts(t[n], r)
    ensures forall r :: EndedBefore(t, n + 1, r) <==> EndedBefore(t, n, r) || Ends(t[n], r)
    ensures forall c :: ToolStartedBefore(t, n + 1, c) <==> ToolStartedBefore(t, n, c) || StartsTool(t[n], c)
    ensures forall c :: ToolCompletedBefore(t, n + 1, c) <==> ToolCompletedBefore(t, n, c) || CompletesTool(t[n], c)
  {
  }

  lemma RunStep(t: seq<Event>, n: nat, p: Progress)
    requires n < |t| && RunsMatch(t, n, p)
    ensures ApplyRun(p, t[n]).Some? <==> RunOk(t, n)
  {
  }

  lemma RunStepMatches(t: seq<Event>, n: nat, p: Progress)
    requires n < |t| && RunsMatch(t, n, p) && ApplyRun(p, t[n]).Some?
    ensures RunsMatch(t, n + 1, ApplyRun(p, t[n]).value)
    ensures var q := ApplyRun(p, t[n]).value; q == p.(runs := q.runs, terminalRuns := q.terminalRuns)
  {
    BeforeStep(t, n);
  }

  lemma OwnerIsRecorded(t: seq<Event>, n: nat, p: Progress, c: string, runId: Option<string>)
    requires n <= |t| && ToolsMatch(t, n, p)
    ensures OwnedBy(t, n, c, runId) <==> (c in p.toolRuns ==> Some(p.toolRuns[c]) == runId)
  {
    if c in p.toolRuns {
      assert OwnedBy(t, n, c, Some(p.toolRuns[c]));
      var j :| 0 <= j < n && StartsTool(t[j], c);
      assert t[j].runId == Some(p.toolRuns[c]);
    }
  }

  lemma ToolStep(t: seq<Event>, n: nat, p: Progress)
    requires n < |t| && ToolsMatch(t, n, p)
    ensures ApplyTool(p, t[n]).Some? <==> ToolOk(t, n)
  {
    var e := t[n];
    match e.kind
    case ToolCompleted(call) =>
      if call.Some? {
        OwnerIsRecorded(t, n, p, call.value, e.runId);
      }
    case ToolResult(calls) =>
      forall i | 0 <= i < |calls| && calls[i].Some?
        ensures OwnedBy(t, n, calls[i].value, e.runId) <==>
                (calls[i].value in p.toolRuns ==> Some(p.toolRuns[calls[i].value]) == e.runId)
      {
        OwnerIsRecorded(t, n, p, calls[i].value, e.runId);
      }
    case _ =>
  }

  lemma ToolStepMatches(t: seq<Event>, n: nat, p: Progress)
    requires n < |t| && ToolsMatch(t, n, p) && ApplyTool(p, t[n]).Some?
    ensures ToolsMatch(t, n + 1, ApplyTool(p, t[n]).value)
    ensures var q := ApplyTool(p, t[n]).value;
            q == p.(toolStarted := q.toolStarted, toolCompleted := q.toolCompleted, toolRuns := q.toolRuns)
  {
    BeforeStep(t, n);
    var q := ApplyTool(p, t[n]).value;
    forall c | c in q.toolRuns ensures OwnedBy(t, n + 1, c, Some(q.toolRuns[c])) {
      if !StartsTool(t[n], c) {
        assert OwnedBy(t, n, c, Some(p.toolRuns[c]));
      }
    }
  }

  /** One event is accepted exactly when the condition holds at it, and the summary stays right. */
  lemma ApplyStep(t: seq<Event>, session: string, n: nat, p: Progress)
    requires n < |t| && Summarizes(t, n, session, p)
    ensures Apply(p, t[n]).Some? <==> EventOk(t, session, n)
    ensures Apply(p, t[n]).Some? ==> Summarizes(t, n + 1, session, Apply(p, t[n]).value)
  {
    RunStep(t, n, p);
    if ApplyRun(p, t[n]).Some? {
      var q := ApplyRun(p, t[n]).value;
      RunStepMatches(t, n, p);
      assert ToolsMatch(t, n, q);
      ToolStep(t, n, q);
      if ApplyTool(q, t[n]).Some? {
        ToolStepMatches(t, n, q);
      }
    }
  }

  lemma ApplyAllLast(p: Progress, t: seq<Event>, n: nat)
    requires 0 < n <= |t|
    ensures var before := ApplyAll(p, t[..n - 1]);
            ApplyAll(p, t[..n]) == if before.None? then None else Apply(before.value, t[n - 1])
  {
    assert t[..n][..n - 1] == t[..n - 1];
  }

  /** The first `n` events are accepted, and then summarized, exactly when the condition holds at each of them. */
  ghost predicate Decides(t: seq<Event>, session: string, n: nat, p: Option<Progress>)
    requires n <= |t|
  {
    && (p.Some? <==> forall i :: 0 <= i < n ==> EventOk(t, session, i))
    && (p.Some? ==> Summarizes(t, n, session, p.value))
  }

  lemma DecidesOneMore(t: seq<Event>, session: string, n: nat, p: Option<Progress>)
    requires n < |t| && Decides(t, session, n, p)
    ensures Decides(t, session, n + 1, if p.None? then None else Apply(p.value, t[n]))
  {
    if p.Some? {
      ApplyStep(t, session, n, p.value);
    }
  }

  lemma {:induction false} PrefixAccepted(t: seq<Event>, session: string, n: nat)
    requires n <= |t|
    ensures Decides(t, session, n, ApplyAll(StartOf(session), t[..n]))
  {
    if n > 0 {
      PrefixAccepted(t, session, n - 1);
      ApplyAllLast(StartOf(session), t, n);
      DecidesOneMore(t, session, n - 1, ApplyAll(StartOf(session), t[..n - 1]));
    }
  }

  /** The acceptor and the whole-trace condition agree on every trace. */
  lemma AcceptsIffValid(text: string -> Option<string>, t: seq<Event>)
    ensures Accepts(text, t) <==> ValidTrace(text, t)
  {
    if t != [] && text(t[0].sessionId).Some? {
      PrefixAccepted(t, text(t[0].sessionId).value, |t|);
      assert t[..|t|] == t;
      if ApplyAll(StartOf(text(t[0].sessionId).value), t).Some? {
        assert EventOk(t, text(t[0].sessionId).value, 0);
      }
    }
  }

  /** After an accepted trace, the recorded run states are those of the last event that set them. */
  lemma FinalRunStates(session: string, t: seq<Event>, r: string)
    requires ApplyAll(StartOf(session), t).Some?
    ensures var p := ApplyAll(StartOf(session), t).value;
            (r in p.runs <==> StartedBefore(t, |t|, r)) && (r in p.runs ==> p.runs[r] == StateAt(t, |t|, r))
  {
    assert t[..|t|] == t;
    PrefixAccepted(t, session, |t|);
  }
}
