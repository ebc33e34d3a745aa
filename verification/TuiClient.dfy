/** The client's refs as the handlers update them, tied to the protocol's steps. */
module TuiClient {
  import opened Wrappers
  import opened Transcript
  import opened TuiProtocol

  /** What a load was waiting for: the session's history, or its approvals once a projection is ready. */
  datatype Answer = History(events: seq<Event>, repairing: bool) | Approvals(next: Projection)

  class Refs {
    var transcript: Projection
    var selected: Option<Session>
    var generation: nat
    var loading: map<Session, nat>
    var buffers: map<Session, seq<Event>>

    constructor (selected: Option<Session>)
      ensures Value(map[], map[]) == Initial(selected)
    {
      transcript, this.selected, generation, loading, buffers := EMPTY, selected, 0, map[], map[];
    }

    /** The protocol state these refs belong to; the logs and the loads in flight live elsewhere. */
    ghost function Value(logs: map<Session, seq<Event>>, loads: map<nat, Load>): State
      reads this
    {
      State(logs, transcript, selected, generation, loading, buffers, loads)
    }

    ghost predicate Matches(s: State)
      reads this
    {
      && transcript == s.transcript && selected == s.selected && generation == s.generation
      && loading == s.loading && buffers == s.buffers
    }

    method BeginLoadSession(x: Session, ghost s: State) returns (g: nat)
      requires Matches(s)
      modifies this
      ensures Matches(BeginLoad(s, x)) && g == generation
    {
      g := generation + 1;
      generation := g;
      loading := loading[x := g];
    }

    /** The subscription handler. */
    method OnEvent(e: Event, ghost s: State) returns (reload: Option<nat>)
      requires Matches(s)
      modifies this
      ensures Matches(OnNotify(s, e))
    {
      reload := None;
      if e.sessionId in loading {
        if !e.ephemeral {
          var buffered := if e.sessionId in buffers then buffers[e.sessionId] else [];
          buffers := buffers[e.sessionId := buffered + [e]];
        }
        return;
      }
      if selected != Some(e.sessionId) {
        return;
      }
      if !e.ephemeral {
        var next := Append(transcript, e);
        if next.Ok? {
          transcript := next.value;
        } else {
          var g := BeginLoadSession(e.sessionId, s);
          reload := Some(g);
        }
      }
    }

    /** The loop that drains the buffer before publishing. */
    method DrainBuffer(x: Session, replayed: Projection, wasDirty: bool) returns (outcome: Drained)
      modifies this`buffers
      ensures buffers == old(buffers) - {x}
      ensures outcome == DrainOutcome(if x in old(buffers) then old(buffers)[x] else [], replayed, wasDirty)
    {
      var next, dirty := replayed, wasDirty;
      while true
        invariant buffers == old(buffers) || buffers == old(buffers) - {x}
        invariant DrainOutcome(if x in buffers then buffers[x] else [], next, dirty)
               == DrainOutcome(if x in old(buffers) then old(buffers)[x] else [], replayed, wasDirty)
        decreases if x in buffers then 1 else 0
      {
        var batch := if x in buffers then buffers[x] else [];
        buffers := buffers - {x};
        if |batch| > 0 {
          dirty := dirty || TouchesApprovals(batch);
          var merged := Merge(next, batch);
          if merged.Err? {
            return Gap;
          }
          next := merged.value;
          continue;
        }
        if dirty {
          return Ask(next);
        }
        break;
      }
      return Ready(next);
    }

    /** Publishing, followed by the `finally` block. */
    method PublishAndFinish(x: Session, g: nat, next: Projection, ghost s: State)
      requires Matches(s) && g in s.loads && s.loads[g].session == x
      modifies this
      ensures Matches(Publish(s, g, next))
    {
      if !(transcript.sessionId == Some(x) && transcript.headSeq > next.headSeq) {
        transcript := next;
      }
      selected := Some(x);
      ReleaseMarker(x, g, s.(transcript := transcript, selected := selected));
    }

    /** From a projection to publish: drain, then publish unless another request is needed first. */
    method Settle(x: Session, g: nat, next: Projection, dirty: bool, ghost s: State) returns (outcome: Drained)
      requires Matches(s) && g in s.loads && s.loads[g].session == x
      modifies this
      ensures outcome == DrainOutcome(Buffered(s, x), next, dirty)
      ensures Matches(Drain(s, g, next, dirty))
    {
      outcome := DrainBuffer(x, next, dirty);
      if outcome.Ready? {
        PublishAndFinish(x, g, outcome.next, s.(buffers := s.buffers - {x}));
      }
    }

    /**
     What loadSession does each time one of its requests is answered: an outdated load
     only cleans up, a history is projected, and then the buffer is drained.
     */
    method ResumeLoad(x: Session, g: nat, answer: Answer, ghost s: State, ghost length: nat)
      requires Matches(s) && g in s.loads && s.loads[g].session == x
      requires match answer
               case Approvals(next) => s.loads[g].phase == Listing(next)
               case History(events, repairing) =>
                 && !s.loads[g].phase.Listing? && repairing == s.loads[g].phase.Repairing?
                 && length <= |Log(s, x)| && events == Log(s, x)[..length]
      modifies this
      ensures Matches(OnResume(s, g, length))
    {
      if g != generation {
        ReleaseMarker(x, g, s);
        return;
      }
      match answer
      case Approvals(next) =>
        var outcome := Settle(x, g, next, false, s);
      case History(events, repairing) =>
        var replayed := ProjectTranscript(events);
        if replayed.Err? {
          ReleaseMarker(x, g, s);
        } else {
          var outcome := Settle(x, g, replayed.value, repairing, s);
        }
    }

    method ReleaseMarker(x: Session, g: nat, ghost s: State)
      requires Matches(s) && g in s.loads && s.loads[g].session == x
      modifies this
      ensures Matches(Finish(s, g))
    {
      if x in loading && loading[x] == g {
        loading := loading - {x};
        if g != generation {
          buffers := buffers - {x};
        }
      }
    }
  }
}
