/**
 The incremental acceptor for recorded traces, and the whole-trace condition it
 decides. Payload texts that must be non-blank strings arrive as options: `None`
 is a text the loader refuses.
 */
module TraceReplay {
  import opened Wrappers

  // ---------- Run states ----------

  datatype RunState = Created | Running | WaitingTool | WaitingApproval | Completed | Failed | Interrupted | Cancelled

  function Allowed(s: RunState): set<RunState> {
    match s
    case Created => {Running, Interrupted, Cancelled, Failed}
    case Running => {WaitingTool, Completed, Interrupted, Cancelled, Failed}
    case WaitingTool => {Running, WaitingApproval, Completed, Interrupted, Cancelled, Failed}
    case WaitingApproval => {Running, WaitingTool, Completed, Interrupted, Cancelled, Failed}
    case _ => {}
  }

  function Name(s: RunState): string {
    match s
    case Created => "created"
    case Running => "running"
    case WaitingTool => "waiting_tool"
    case WaitingApproval => "waiting_approval"
    case Completed => "completed"
    case Failed => "failed"
    case Interrupted => "interrupted"
    case Cancelled => "cancelled"
  }

  function StateNamed(raw: string): Option<RunState> {
    if raw == "created" then Some(Created)
    else if raw == "running" then Some(Running)
    else if raw == "waiting_tool" then Some(WaitingTool)
    else if raw == "waiting_approval" then Some(WaitingApproval)
    else if raw == "completed" then Some(Completed)
    else if raw == "failed" then Some(Failed)
    else if raw == "interrupted" then Some(Interrupted)
    else if raw == "cancelled" then Some(Cancelled)
    else None
  }

  /** Every state has one name, and every name one state. */
  lemma NamesAreExact(raw: string, s: RunState)
    ensures StateNamed(raw) == Some(s) <==> raw == Name(s)
  {
  }

  // ---------- Events ----------

  datatype Kind =
    | RunStarted
    | RunResumed
    | RunSuspended
    | RunStateChanged(raw: string)
    | RunEnded(target: RunState, declared: Option<string>)
    | ToolStarted(call: Option<string>)
    | ToolCompleted(call: Option<string>)
    | ToolResult(calls: seq<Option<string>>)
    | Referential // bookkeeping that may follow the end of the run it mentions
    | Plain

  datatype Event = Event(id: string, sessionId: string, runId: Option<string>, seqNo: Option<int>, ephemeral: bool,
                         kind: Kind)

  // ---------- The incremental state ----------

  datatype Progress = Progress(
    session: string, eventIds: set<string>, lastSeq: nat, runs: map<string, RunState>,
    toolStarted: set<string>, toolCompleted: set<string>, toolRuns: map<string, string>, terminalRuns: set<string>)

  function StartOf(session: string): Progress {
    Progress(session, {}, 0, map[], {}, {}, map[], {})
  }

  function ApplyRun(p: Progress, e: Event): Option<Progress> {
    if e.runId.None? then (if e.kind.RunStateChanged? then None else Some(p))
    else
      var r := e.runId.value;
      if r in p.terminalRuns && !e.kind.Referential? then None
      else
        match e.kind
        case RunStarted => if r in p.runs then None else Some(p.(runs := p.runs[r := Created]))
        case RunResumed => if r !in p.runs then None else Some(p.(runs := p.runs[r := Created]))
        case RunSuspended => if r in p.runs && p.runs[r] == WaitingApproval then Some(p) else None
        case RunStateChanged(raw) =>
          if r in p.runs && StateNamed(raw).Some? && StateNamed(raw).value in Allowed(p.runs[r])
          then Some(p.(runs := p.runs[r := StateNamed(raw).value])) else None
        case RunEnded(target, declared) =>
          if r in p.runs && (declared.None? || declared.value == Name(target)) &&
             (p.runs[r] == target || target in Allowed(p.runs[r]))
          then Some(p.(runs := p.runs[r := target], terminalRuns := p.terminalRuns + {r})) else None
        case _ => Some(p)
  }

  predicate ResultsStayInRun(p: Progress, calls: seq<Option<string>>, runId: Option<string>) {
    forall i :: 0 <= i < |calls| ==>
      calls[i].Some? && (calls[i].value in p.toolRuns ==> Some(p.toolRuns[calls[i].value]) == runId)
  }

  function ApplyTool(p: Progress, e: Event): Option<Progress> {
    match e.kind
    case ToolStarted(call) =>
      if e.runId.None? || call.None? || call.value in p.toolStarted then None
      else Some(p.(toolStarted := p.toolStarted + {call.value}, toolRuns := p.toolRuns[call.value := e.runId.value]))
    case ToolCompleted(call) =>
      if e.runId.None? || call.None? || call.value !in p.toolStarted || call.value in p.toolCompleted ||
         !(call.value in p.toolRuns && p.toolRuns[call.value] == e.runId.value) then None
      else Some(p.(toolCompleted := p.toolCompleted + {call.value}))
    case ToolResult(calls) => if ResultsStayInRun(p, calls, e.runId) then Some(p) else None
    case _ => Some(p)
  }

  /** `None` is a raised invariant violation. */
  function Apply(p: Progress, e: Event): Option<Progress> {
    if e.sessionId != p.session || e.id in p.eventIds || e.seqNo != Some(p.lastSeq + 1) || e.ephemeral then None
    else
      var run := ApplyRun(p, e);
      if run.None? then None
      else
        var tool := ApplyTool(run.value, e);
        if tool.None? then None
        else Some(tool.value.(eventIds := tool.value.eventIds + {e.id}, lastSeq := tool.value.lastSeq + 1))
  }

  function ApplyAll(p: Progress, events: seq<Event>): Option<Progress> {
    if events == [] then Some(p)
    else
      var front := ApplyAll(p, events[..|events| - 1]);
      if front.None? then None else Apply(front.value, events[|events| - 1])
  }

  /** `text` is the loader's normalizer for required texts, whatever it does. */
  predicate Accepts(text: string -> Option<string>, events: seq<Event>) {
    events != [] && text(events[0].sessionId).Some? && ApplyAll(StartOf(text(events[0].sessionId).value), events).Some?
  }

  // ---------- The acceptor as an object ----------

  class ReplayState {
    const session: string
    var eventIds: set<string>
    var lastSeq: nat
    var runs: map<string, RunState>
    var toolStarted: set<string>
    var toolCompleted: set<string>
    var toolRuns: map<string, string>
    var terminalRuns: set<string>

    ghost function Value(): Progress
      reads this
    {
      Progress(session, eventIds, lastSeq, runs, toolStarted, toolCompleted, toolRuns, terminalRuns)
    }

    constructor (session: string)
      ensures this.session == session && Value() == StartOf(session)
    {
      this.session := session;
      eventIds, lastSeq, runs, toolStarted := {}, 0, map[], {};
      toolCompleted, toolRuns, terminalRuns := {}, map[], {};
    }

    method ApplyRunEvent(e: Event) returns (ok: bool)
      modifies this`runs, this`terminalRuns
      ensures ok == ApplyRun(old(Value()), e).Some? && (ok ==> Value() == ApplyRun(old(Value()), e).value)
    {
      if e.runId.None? {
        return !e.kind.RunStateChanged?;
      }
      var r := e.runId.value;
      if r in terminalRuns && !e.kind.Referential? {
        return false;
      }
      match e.kind {
      case RunStarted =>
        if r in runs {
          return false;
        }
        runs := runs[r := Created];
      case RunResumed =>
        if r !in runs {
          return false;
        }
        runs := runs[r := Created];
      case RunSuspended =>
        return r in runs && runs[r] == WaitingApproval;
      case RunStateChanged(raw) =>
        if r !in runs || StateNamed(raw).None? || StateNamed(raw).value !in Allowed(runs[r]) {
          return false;
        }
        runs := runs[r := StateNamed(raw).value];
      case RunEnded(target, declared) =>
        if r !in runs || (declared.Some? && declared.value != Name(target)) {
          return false;
        }
        if runs[r] != target {
          if target !in Allowed(runs[r]) {
            return false;
          }
          runs := runs[r := target];
        }
        terminalRuns := terminalRuns + {r};
      case _ =>
      }
      return true;
    }

    method ApplyToolEvent(e: Event) returns (ok: bool)
      modifies this`toolStarted, this`toolCompleted, this`toolRuns
      ensures ok == ApplyTool(old(Value()), e).Some? && (ok ==> Value() == ApplyTool(old(Value()), e).value)
    {
      match e.kind {
      case ToolStarted(call) =>
        if e.runId.None? || call.None? || call.value in toolStarted {
          return false;
        }
        toolStarted := toolStarted + {call.value};
        toolRuns := toolRuns[call.value := e.runId.value];
      case ToolCompleted(call) =>
        if e.runId.None? || call.None? || call.value !in toolStarted || call.value in toolCompleted {
          return false;
        }
        if call.value !in toolRuns || toolRuns[call.value] != e.runId.value {
          return false;
        }
        toolCompleted := toolCompleted + {call.value};
      case ToolResult(calls) =>
        for i := 0 to |calls|
          invariant ResultsStayInRun(old(Value()), calls[..i], e.runId)
          invariant Value() == old(Value())
        {
          if calls[i].None? || (calls[i].value in toolRuns && Some(toolRuns[calls[i].value]) != e.runId) {
            return false;
          }
          assert calls[..i + 1] == calls[..i] + [calls[i]];
        }
        assert calls[..|calls|] == calls;
      case _ =>
      }
      return true;
    }

    method ApplyEvent(e: Event) returns (ok: bool)
      modifies this
      ensures ok == Apply(old(Value()), e).Some? && (ok ==> Value() == Apply(old(Value()), e).value)
    {
      if e.sessionId != session || e.id in eventIds || e.seqNo != Some(lastSeq + 1) || e.ephemeral {
        return false;
      }
      ok := ApplyRunEvent(e);
      if !ok {
        return;
      }
      ok := ApplyToolEvent(e);
      if !ok {
        return;
      }
      eventIds := eventIds + {e.id};
      lastSeq := lastSeq + 1;
    }
  }

  method Replay(text: string -> Option<string>, events: seq<Event>) returns (accepted: bool)
    ensures accepted == Accepts(text, events)
  {
    if events == [] || text(events[0].sessionId).None? {
      return false;
    }
    var state := new ReplayState(text(events[0].sessionId).value);
    ghost var start := StartOf(state.session);
    for i := 0 to |events|
      invariant ApplyAll(start, events[..i]) == Some(state.Value())
    {
      assert events[..i + 1][..i] == events[..i];
      var ok := state.ApplyEvent(events[i]);
      if !ok {
        Rejected(start, events, i + 1);
        return false;
      }
    }
    assert events[..|events|] == events;
    return true;
  }

  lemma {:induction false} Rejected(p: Progress, events: seq<Event>, n: nat)
    requires n <= |events| && ApplyAll(p, events[..n]).None?
    ensures ApplyAll(p, events).None?
    decreases |events|
  {
    if n == |events| {
      assert events[..n] == events;
    } else {
      assert events[..|events| - 1][..n] == events[..n];
      Rejected(p, events[..|events| - 1], n);
    }
  }
}
