/**
 What each step of the protocol shows, spelled out with the log and its numbers: a live
 notification, an answered request, and the end of a load.
 */
module TuiSteps {
  import opened Wrappers
  import opened EventFold
  import opened Transcript
  import opened TuiProtocol
  import opened TuiProofs

  // ---------- Live notifications ----------

  /** A new load of `x` is the newest and owns its marker; nothing is shown differently yet. */
  predicate StartsLoad(s: State, t: State, x: Session) {
    && t.generation == s.generation + 1
    && t.loading.Keys == s.loading.Keys + {x} && t.loading[x] == t.generation
    && (forall y :: y in s.loading && y != x ==> t.loading[y] == s.loading[y])
    && t.loads.Keys == s.loads.Keys + {t.generation}
    && t.loads[t.generation].session == x && t.loads[t.generation].phase == Fetching(|Log(s, x)|)
    && (forall g :: g in s.loads && g != t.generation ==> t.loads[g] == s.loads[g])
    && t.logs == s.logs && t.transcript == s.transcript && t.selected == s.selected && t.buffers == s.buffers
  }

  lemma BeginStarts(s: State, x: Session)
    ensures StartsLoad(s, BeginLoad(s, x), x)
  {
  }

  /** The transcript is empty or shows `x`. */
  predicate CanShow(p: Projection, x: Session) {
    p.sessionId == None || p.sessionId == Some(x)
  }

  function Larger(a: int, b: int): int {
    if a >= b then a else b
  }

  /** Appending a stored event of `x` to a transcript that shows a prefix of some log. */
  lemma AppendShows(log: seq<Event>, x: Session, shown: seq<Event>, y: Session, p: Projection, e: Event)
    requires IsLog(log, x) && IsLog(shown, y) && IsView(shown, p) && (x == y ==> log == shown)
    requires IsStored(log, e) && e.sessionId == x
    ensures var number := e.seqNo.value;
            if CanShow(p, x) && number <= p.headSeq + 1
            then Larger(p.headSeq, number) <= |log| && Append(p, e) == Ok(Of(log, Larger(p.headSeq, number)))
            else Append(p, e).Err?
  {
    ViewSession(shown, y, p);
    OfHead(shown, y, p.headSeq);
    if CanShow(p, x) {
      assert p.headSeq <= |log| && p == Of(log, p.headSeq);
      AppendToPrefix(log, x, p.headSeq, e);
    }
  }

  /**
   A stored event of the selected session, while that session is not being loaded: with a
   number up to the next one the transcript then shows the log up to it, and otherwise the
   session is loaded again.
   */
  lemma LiveEventIsShown(s: State, e: Event)
    requires Inv(s) && Enabled(s, Notify(e)) && !e.ephemeral
    requires s.selected == Some(e.sessionId) && e.sessionId !in s.loading
    ensures var x, head, number, t := e.sessionId, s.transcript.headSeq, e.seqNo.value, Next(s, Notify(e));
            if CanShow(s.transcript, x) && number <= head + 1 then
              0 <= Larger(head, number) <= |Log(s, x)| && t == s.(transcript := Of(Log(s, x), Larger(head, number)))
            else StartsLoad(s, t, x)
  {
    var x := e.sessionId;
    var y :| IsView(Log(s, y), s.transcript);
    assert IsLog(Log(s, x), x) && IsLog(Log(s, y), y);
    AppendShows(Log(s, x), x, Log(s, y), y, s.transcript, e);
    BeginStarts(s, x);
  }

  /** Any other notification: kept for the load if its session is being loaded, and ignored otherwise. */
  lemma OtherNotificationsWait(s: State, e: Event)
    requires Inv(s) && Enabled(s, Notify(e))
    requires e.ephemeral || s.selected != Some(e.sessionId) || e.sessionId in s.loading
    ensures var x, t := e.sessionId, Next(s, Notify(e));
            if e.ephemeral || x !in s.loading then t == s
            else
              && Buffered(t, x) == Buffered(s, x) + [e] && (forall y :: y != x ==> Buffered(t, y) == Buffered(s, y))
              && t == s.(buffers := t.buffers, loads := t.loads)
              && t.loads.Keys == s.loads.Keys
              && (forall g :: g in s.loads ==> t.loads[g] == s.loads[g].(heard := t.loads[g].heard))
              && s.loading[x] in t.loads && t.loads[s.loading[x]].heard >= e.seqNo.value
  {
  }

  // ---------- Answered requests ----------

  predicate ApprovalsChange(batch: seq<Event>) {
    exists e :: e in batch && (e.payload.ApprovalRequested? || e.payload.ApprovalResolved?)
  }

  /** The transcript a load publishes: the longer of what it has and what is already shown of its session. */
  predicate Publishes(s: State, t: State, g: nat, next: Projection)
    requires g in s.loads
  {
    var x := s.loads[g].session;
    && t.transcript == (if s.transcript.sessionId == Some(x) && s.transcript.headSeq > next.headSeq
                        then s.transcript else next)
    && t.selected == Some(x) && t.loads == s.loads - {g} && t.loading == s.loading - {x}
    && t.buffers == s.buffers - {x} && t.logs == s.logs && t.generation == s.generation
  }

  /** The load goes on in another phase; its session's buffer has been emptied. */
  predicate GoesOn(s: State, t: State, g: nat, phase: Phase)
    requires g in s.loads
  {
    t == s.(buffers := s.buffers - {s.loads[g].session}, loads := s.loads[g := s.loads[g].(phase := phase)])
  }

  lemma BatchShows(log: seq<Event>, x: Session, batch: seq<Event>, base: nat, dirty: bool) returns (top: nat)
    requires IsLog(log, x) && base <= |log| && forall e :: e in batch ==> FromLog(log, e)
    ensures var numbers := Numbers(batch, SortKey, IsEphemeral);
            && IsTop(base, numbers, top) && top <= |log|
            && DrainOutcome(batch, Of(log, base), dirty) ==
               if !Contiguous(base, numbers) then Gap
               else if dirty || ApprovalsChange(batch) then Ask(Of(log, top)) else Ready(Of(log, top))
  {
    top := MergeSpec(log, x, base, batch);
    assert TouchesApprovals(batch) <==> ApprovalsChange(batch);
    if batch == [] {
      assert Numbers(batch, SortKey, IsEphemeral) == {};
    }
  }

  /** What was buffered is merged onto the first `base` events. */
  lemma DrainShows(s: State, g: nat, base: nat, dirty: bool) returns (top: nat)
    requires Inv(s) && g == s.generation && g in s.loads && base <= |Log(s, s.loads[g].session)|
    ensures var log, batch := Log(s, s.loads[g].session), Buffered(s, s.loads[g].session);
            var numbers, t := Numbers(batch, SortKey, IsEphemeral), Drain(s, g, Of(log, base), dirty);
            && IsTop(base, numbers, top) && top <= |log|
            && if !Contiguous(base, numbers) then GoesOn(s, t, g, Repairing(|log|))
               else if dirty || ApprovalsChange(batch) then GoesOn(s, t, g, Listing(Of(log, top)))
               else Publishes(s, t, g, Of(log, top))
  {
    var x := s.loads[g].session;
    var log, batch := Log(s, x), Buffered(s, x);
    assert IsLog(log, x);
    forall e | e in batch ensures FromLog(log, e) {
      var i :| 0 <= i < |batch| && batch[i] == e;
      assert IsStored(Log(s, x), Buffered(s, x)[i]);
    }
    top := BatchShows(log, x, batch, base, dirty);
    assert MarkersOk(s);
  }

  /** The number of events a load starts from: its own projection's, or the length of the history it was sent. */
  function Base(load: Load, length: nat): nat {
    if load.phase.Listing? then load.phase.next.headSeq else length
  }

  /**
   Whatever request is answered. An outdated load ends without showing anything. The newest
   one repairs a gap in what was buffered, lists the approvals again when they may have
   changed, and otherwise publishes the log up to the highest number it has.
   */
  lemma AnswerIsShown(s: State, g: nat, length: nat) returns (top: nat)
    requires Inv(s) && Enabled(s, Resume(g, length))
    ensures var load, t := s.loads[g], Next(s, Resume(g, length));
            var log, batch := Log(s, load.session), Buffered(s, load.session);
            var base, numbers := Base(load, length), Numbers(batch, SortKey, IsEphemeral);
            if g != s.generation then
              t.transcript == s.transcript && t.selected == s.selected && t.loads == s.loads - {g}
            else
              && IsTop(base, numbers, top) && top <= |log|
              && if !Contiguous(base, numbers) then GoesOn(s, t, g, Repairing(|log|))
                 else if load.phase.Repairing? || ApprovalsChange(batch) then GoesOn(s, t, g, Listing(Of(log, top)))
                 else Publishes(s, t, g, Of(log, top))
  {
    var load := s.loads[g];
    var log := Log(s, load.session);
    top := 0;
    if g == s.generation {
      assert PhaseOk(log, load.phase) && IsLog(log, load.session);
      if !load.phase.Listing? {
        ReplayIsView(log, load.session, length);
      }
      top := DrainShows(s, g, Base(load, length), load.phase.Repairing?);
    }
  }

  // ---------- The end of a load ----------

  /** A rejected request shows nothing; only the load that owns its session's marker removes it. */
  lemma RejectedLoadEnds(s: State, g: nat)
    requires Enabled(s, Reject(g))
    ensures var x, t := s.loads[g].session, Next(s, Reject(g));
            var owner := x in s.loading && s.loading[x] == g;
            t == s.(loads := s.loads - {g},
                    loading := if owner then s.loading - {x} else s.loading,
                    buffers := if owner && g != s.generation then s.buffers - {x} else s.buffers)
  {
  }
}
