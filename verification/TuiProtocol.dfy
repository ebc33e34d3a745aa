/**
 The terminal client's load, notify and buffer protocol. Between two `await`s the
 client runs without interruption, so each step below is one such stretch, or one
 event of the environment: the store growing, a notification, a request answered.
 */
module TuiProtocol {
  import opened Wrappers
  import opened EventFold
  import opened Transcript

  type Session = string

  /** What a load in flight is waiting for. `floor` is the log's length when the history was requested. */
  datatype Phase = Fetching(floor: nat) | Repairing(floor: nat) | Listing(next: Projection)

  /**
   `heard` only observes: the highest number that the store held when the load began, or
   that was notified for the session while this load owned its marker.
   */
  datatype Load = Load(session: Session, phase: Phase, heard: nat)

  datatype State = State(
    logs: map<Session, seq<Event>>,
    transcript: Projection,
    selected: Option<Session>,
    generation: nat,
    loading: map<Session, nat>,
    buffers: map<Session, seq<Event>>,
    loads: map<nat, Load>)

  datatype Step =
    | Store(event: Event)                        // the store commits an event
    | Notify(event: Event)                       // a notification arrives, in any order, any number of times
    | Begin(session: Session)                    // something calls loadSession
    | Select(session': Option<Session>)          // an effect assigns the selected-session ref
    | Resume(load: nat, length: nat)             // a load's request is answered; `length` events of history
    | Reject(load: nat)                          // a load's request fails

  function Log(s: State, x: Session): seq<Event> {
    if x in s.logs then s.logs[x] else []
  }

  function Buffered(s: State, x: Session): seq<Event> {
    if x in s.buffers then s.buffers[x] else []
  }

  // ---------- The steps ----------

  function BeginLoad(s: State, x: Session): State {
    var g := s.generation + 1;
    s.(generation := g, loading := s.loading[x := g],
       loads := s.loads[g := Load(x, Fetching(|Log(s, x)|), |Log(s, x)|)])
  }

  /** The `finally` block: only the newest load of a session owns its marker. */
  function Finish(s: State, g: nat): State
    requires g in s.loads
  {
    var x := s.loads[g].session;
    var t := s.(loads := s.loads - {g});
    if x !in s.loading || s.loading[x] != g then t
    else t.(loading := s.loading - {x}, buffers := if g != s.generation then s.buffers - {x} else s.buffers)
  }

  function HearAt(s: State, x: Session, n: int): State
    requires x in s.loading
  {
    var g := s.loading[x];
    if g in s.loads && n > s.loads[g].heard then s.(loads := s.loads[g := s.loads[g].(heard := n)]) else s
  }

  function OnNotify(s: State, e: Event): State {
    var x := e.sessionId;
    if x in s.loading then
      if e.ephemeral then s
      else HearAt(s.(buffers := s.buffers[x := Buffered(s, x) + [e]]), x, SortKey(e))
    else if s.selected != Some(x) || e.ephemeral then s
    else
      var next := Append(s.transcript, e);
      if next.Ok? then s.(transcript := next.value) else BeginLoad(s, x)
  }

  predicate TouchesApprovals(batch: seq<Event>) {
    exists i :: 0 <= i < |batch| && (batch[i].payload.ApprovalRequested? || batch[i].payload.ApprovalResolved?)
  }

  /** Publishing never replaces a longer transcript of the same session. */
  function Publish(s: State, g: nat, next: Projection): State
    requires g in s.loads
  {
    var x := s.loads[g].session;
    var chosen :=
      if s.transcript.sessionId == Some(x) && s.transcript.headSeq > next.headSeq then s.transcript else next;
    Finish(s.(transcript := chosen, selected := Some(x)), g)
  }

  /** How draining ends: with a gap to repair, with approvals to list again, or ready to publish. */
  datatype Drained = Gap | Ask(next: Projection) | Ready(next: Projection)

  /** One batch is merged; the buffer is empty afterwards because nothing else runs in between. */
  function DrainOutcome(batch: seq<Event>, next: Projection, dirty: bool): Drained {
    if batch == [] then (if dirty then Ask(next) else Ready(next))
    else
      var merged := Merge(next, batch);
      if merged.Err? then Gap
      else if dirty || TouchesApprovals(batch) then Ask(merged.value)
      else Ready(merged.value)
  }

  /** The draining loop: merge what was buffered, and replay the history if that leaves a gap. */
  function Drain(s: State, g: nat, next: Projection, dirty: bool): State
    requires g in s.loads
  {
    var x := s.loads[g].session;
    var t := s.(buffers := s.buffers - {x});
    match DrainOutcome(Buffered(s, x), next, dirty)
    case Gap => t.(loads := t.loads[g := t.loads[g].(phase := Repairing(|Log(s, x)|))])
    case Ask(p) => t.(loads := t.loads[g := t.loads[g].(phase := Listing(p))])
    case Ready(p) => Publish(t, g, p)
  }

  function OnResume(s: State, g: nat, length: nat): State
    requires g in s.loads
  {
    var x := s.loads[g].session;
    if g != s.generation then Finish(s, g)
    else
      match s.loads[g].phase
      case Listing(next) => Drain(s, g, next, false)
      case _ =>
        if length > |Log(s, x)| then s
        else
          var replayed := ProjectTranscript(Log(s, x)[..length]);
          if replayed.Err? then Finish(s, g) else Drain(s, g, replayed.value, s.loads[g].phase.Repairing?)
  }

  /** A stored event, and a history that was complete when it was requested. */
  predicate Enabled(s: State, step: Step) {
    match step
    case Store(e) => IsLog(Log(s, e.sessionId) + [e], e.sessionId)
    case Notify(e) => FromLog(Log(s, e.sessionId), e)
    case Begin(_) => true
    case Select(_) => true
    case Resume(g, length) =>
      g in s.loads &&
      (s.loads[g].phase.Listing? || s.loads[g].phase.floor <= length <= |Log(s, s.loads[g].session)|)
    case Reject(g) => g in s.loads
  }

  function Next(s: State, step: Step): State
    requires Enabled(s, step)
  {
    match step
    case Store(e) => s.(logs := s.logs[e.sessionId := Log(s, e.sessionId) + [e]])
    case Notify(e) => OnNotify(s, e)
    case Begin(x) => BeginLoad(s, x)
    case Select(x) => s.(selected := x)
    case Resume(g, length) => OnResume(s, g, length)
    case Reject(g) => Finish(s, g)
  }

  // ---------- The invariant ----------

  /** `p` is the projection of an exact prefix of the log. */
  predicate IsView(log: seq<Event>, p: Projection) {
    p.headSeq <= |log| && p == Of(log, p.headSeq)
  }

  ghost predicate ShowsOneLog(s: State) {
    exists x :: IsView(Log(s, x), s.transcript)
  }

  ghost predicate LogsOk(s: State) {
    forall x :: IsLog(Log(s, x), x)
  }

  predicate IsStored(log: seq<Event>, e: Event) {
    !e.ephemeral && FromLog(log, e)
  }

  ghost predicate BuffersOk(s: State) {
    forall x, i :: 0 <= i < |Buffered(s, x)| ==> IsStored(Log(s, x), Buffered(s, x)[i])
  }

  predicate PhaseOk(log: seq<Event>, phase: Phase) {
    if phase.Listing? then IsView(log, phase.next) else phase.floor <= |log|
  }

  ghost predicate LoadsOk(s: State) {
    forall g :: g in s.loads ==> g <= s.generation && PhaseOk(Log(s, s.loads[g].session), s.loads[g].phase)
                                 && s.loads[g].heard <= |Log(s, s.loads[g].session)|
  }

  /** Every marker belongs to a load in flight, and the newest load owns the marker of its session. */
  ghost predicate MarkersOk(s: State) {
    && (forall x :: x in s.loading ==> s.loading[x] in s.loads && s.loads[s.loading[x]].session == x)
    && (s.generation in s.loads ==>
          var x := s.loads[s.generation].session; x in s.loading && s.loading[x] == s.generation)
  }

  /** The highest number a phase already accounts for. */
  function Level(phase: Phase): nat {
    match phase
    case Fetching(floor) => floor
    case Repairing(floor) => floor
    case Listing(next) => next.headSeq
  }

  predicate Reaches(batch: seq<Event>, n: int) {
    exists i :: 0 <= i < |batch| && SortKey(batch[i]) >= n
  }

  /** Nothing the newest load has heard is lost: it is accounted for, or still buffered. */
  ghost predicate NothingLost(s: State) {
    s.generation in s.loads ==>
      var load := s.loads[s.generation];
      load.heard <= Level(load.phase) || Reaches(Buffered(s, load.session), load.heard)
  }

  ghost predicate Core(s: State) {
    LogsOk(s) && ShowsOneLog(s) && BuffersOk(s) && LoadsOk(s) && MarkersOk(s)
  }

  ghost predicate Inv(s: State) {
    Core(s) && NothingLost(s)
  }

  function Initial(selected: Option<Session>): State {
    State(map[], EMPTY, selected, 0, map[], map[], map[])
  }
}
