/** Every interleaving of the protocol shows an exact prefix of one durable log. */
module TuiProofs {
  import opened Wrappers
  import opened EventFold
  import opened Transcript
  import opened TuiProtocol

  // ---------- Views of a log ----------

  lemma {:induction false} OfPrefix(log: seq<Event>, more: seq<Event>, k: nat)
    requires k <= |log|
    ensures Of(log + more, k) == Of(log, k)
  {
    if k > 0 {
      OfPrefix(log, more, k - 1);
    }
  }

  lemma ViewGrows(log: seq<Event>, e: Event, p: Projection)
    requires IsView(log, p)
    ensures IsView(log + [e], p)
  {
    OfPrefix(log, [e], p.headSeq);
  }

  lemma EmptyIsView(log: seq<Event>)
    ensures IsView(log, EMPTY)
  {
  }

  lemma ViewAppend(log: seq<Event>, x: Session, p: Projection, e: Event)
    requires IsLog(log, x) && IsView(log, p) && IsStored(log, e)
    ensures var r := Append(p, e);
            r.Ok? ==> IsView(log, r.value) && p.headSeq <= r.value.headSeq
  {
    AppendToPrefix(log, x, p.headSeq, e);
    OfHead(log, x, p.headSeq);
    if p.headSeq < |log| {
      OfHead(log, x, p.headSeq + 1);
    }
  }

  lemma ViewMerge(log: seq<Event>, x: Session, p: Projection, batch: seq<Event>)
    requires IsLog(log, x) && IsView(log, p)
    requires forall i :: 0 <= i < |batch| ==> IsStored(log, batch[i])
    ensures var r := Merge(p, batch);
            r.Ok? ==> IsView(log, r.value) && p.headSeq <= r.value.headSeq
                      && forall i :: 0 <= i < |batch| ==> SortKey(batch[i]) <= r.value.headSeq
  {
    var m := MergeSpec(log, x, p.headSeq, batch);
    OfHead(log, x, m);
    forall i | 0 <= i < |batch| ensures SortKey(batch[i]) <= m {
      assert SortKey(batch[i]) in Numbers(batch, SortKey, IsEphemeral);
    }
  }

  lemma ReplayIsView(log: seq<Event>, x: Session, n: nat)
    requires IsLog(log, x) && n <= |log|
    ensures var r := ProjectTranscript(log[..n]); r.Ok? && IsView(log, r.value) && r.value.headSeq == n
  {
    ReplayIsProjection(log, x, 0, n);
    assert log[0..n] == log[..n];
    OfHead(log, x, n);
  }

  lemma ViewSession(log: seq<Event>, x: Session, p: Projection)
    requires IsLog(log, x) && IsView(log, p)
    ensures p.headSeq > 0 ==> p.sessionId == Some(x)
    ensures p.headSeq == 0 ==> p == EMPTY
  {
    OfHead(log, x, p.headSeq);
  }

  // ---------- Each step keeps the invariant ----------

  /** While the session stays the same, the head does not move backwards. */
  ghost predicate HeadKept(s: State, t: State) {
    s.transcript.sessionId.Some? && t.transcript.sessionId == s.transcript.sessionId ==>
      s.transcript.headSeq <= t.transcript.headSeq
  }

  lemma InitialInv(selected: Option<Session>)
    ensures Inv(Initial(selected))
  {
    assert IsView(Log(Initial(selected), ""), EMPTY);
  }

  /** Steps that leave the logs, the transcript and the buffers alone keep everything about them. */
  lemma Carry(s: State, t: State)
    requires t.logs == s.logs && t.transcript == s.transcript && t.buffers == s.buffers
    ensures forall x :: Log(t, x) == Log(s, x) && Buffered(t, x) == Buffered(s, x)
    ensures LogsOk(s) ==> LogsOk(t)
    ensures ShowsOneLog(s) ==> ShowsOneLog(t)
    ensures BuffersOk(s) ==> BuffersOk(t)
  {
    if ShowsOneLog(s) {
      var x :| IsView(Log(s, x), s.transcript);
      assert Log(t, x) == Log(s, x);
    }
  }

  lemma StoreGrowsLogs(s: State, e: Event, x: Session)
    requires Enabled(s, Store(e))
    ensures var t := Next(s, Store(e));
            && |Log(s, x)| <= |Log(t, x)| && Buffered(t, x) == Buffered(s, x)
            && (IsLog(Log(s, x), x) ==> IsLog(Log(t, x), x))
            && (forall p :: IsView(Log(s, x), p) ==> IsView(Log(t, x), p))
            && (forall a :: IsStored(Log(s, x), a) ==> IsStored(Log(t, x), a))
  {
    var t := Next(s, Store(e));
    if x == e.sessionId {
      forall p | IsView(Log(s, x), p) ensures IsView(Log(t, x), p) {
        ViewGrows(Log(s, x), e, p);
      }
    } else {
      assert Log(t, x) == Log(s, x);
    }
  }

  lemma StoreKeepsLoads(s: State, e: Event)
    requires LoadsOk(s) && Enabled(s, Store(e))
    ensures LoadsOk(Next(s, Store(e)))
  {
    var t := Next(s, Store(e));
    forall g | g in t.loads
      ensures PhaseOk(Log(t, t.loads[g].session), t.loads[g].phase) && t.loads[g].heard <= |Log(t, t.loads[g].session)|
    {
      StoreGrowsLogs(s, e, s.loads[g].session);
    }
  }

  lemma StoreKeeps(s: State, e: Event)
    requires Inv(s) && Enabled(s, Store(e))
    ensures Inv(Next(s, Store(e)))
  {
    var t := Next(s, Store(e));
    StoreKeepsLoads(s, e);
    forall x ensures IsLog(Log(t, x), x) && Buffered(t, x) == Buffered(s, x) {
      StoreGrowsLogs(s, e, x);
    }
    var x :| IsView(Log(s, x), s.transcript);
    StoreGrowsLogs(s, e, x);
    forall x, i | 0 <= i < |Buffered(t, x)| ensures IsStored(Log(t, x), Buffered(t, x)[i]) {
      StoreGrowsLogs(s, e, x);
    }
  }

  lemma BeginKeeps(s: State, x: Session)
    requires Inv(s)
    ensures Inv(BeginLoad(s, x))
  {
    Carry(s, BeginLoad(s, x));
  }

  /** Forgetting some buffers and some loads keeps what is said about the rest. */
  lemma ForgetKeeps(s: State, t: State)
    requires t.logs == s.logs && t.transcript == s.transcript && t.generation == s.generation
    requires forall y :: y in t.buffers ==> y in s.buffers && t.buffers[y] == s.buffers[y]
    requires forall g :: g in t.loads ==> g in s.loads && t.loads[g] == s.loads[g]
    ensures LogsOk(s) && ShowsOneLog(s) && BuffersOk(s) && LoadsOk(s) ==>
              LogsOk(t) && ShowsOneLog(t) && BuffersOk(t) && LoadsOk(t)
  {
    Carry(s, s.(loads := t.loads, loading := t.loading, selected := t.selected));
    assert forall y :: Log(t, y) == Log(s, y);
    assert forall y :: Buffered(t, y) == Buffered(s, y) || Buffered(t, y) == [];
    if ShowsOneLog(s) {
      var y :| IsView(Log(s, y), s.transcript);
      assert IsView(Log(t, y), t.transcript);
    }
  }

  lemma FinishKeeps(s: State, g: nat)
    requires Inv(s) && g in s.loads
    ensures Inv(Finish(s, g))
  {
    var t := Finish(s, g);
    ForgetKeeps(s, t);
    if s.generation in s.loads && s.generation != g {
      assert Buffered(t, s.loads[s.generation].session) == Buffered(s, s.loads[s.generation].session);
    }
  }

  /** Adding one stored event to a buffer. */
  lemma PushKeeps(s: State, e: Event)
    requires Core(s) && IsStored(Log(s, e.sessionId), e)
    ensures var t := s.(buffers := s.buffers[e.sessionId := Buffered(s, e.sessionId) + [e]]);
            && Core(t) && Buffered(t, e.sessionId) == Buffered(s, e.sessionId) + [e]
            && forall y :: y != e.sessionId ==> Buffered(t, y) == Buffered(s, y)
  {
    var x := e.sessionId;
    var t := s.(buffers := s.buffers[x := Buffered(s, x) + [e]]);
    Carry(s, t.(buffers := s.buffers));
    assert forall y :: Log(t, y) == Log(t.(buffers := s.buffers), y);
    var y :| IsView(Log(s, y), s.transcript);
    assert IsView(Log(t, y), t.transcript);
    forall y, i | 0 <= i < |Buffered(t, y)| ensures IsStored(Log(t, y), Buffered(t, y)[i]) {
      assert Buffered(t, y)[i] == e || Buffered(t, y)[i] == Buffered(s, y)[i];
    }
  }

  lemma ReachesMore(batch: seq<Event>, e: Event, n: int)
    ensures Reaches(batch + [e], SortKey(e))
    ensures Reaches(batch, n) ==> Reaches(batch + [e], n)
  {
    assert (batch + [e])[|batch|] == e;
    if Reaches(batch, n) {
      var i :| 0 <= i < |batch| && SortKey(batch[i]) >= n;
      assert (batch + [e])[i] == batch[i];
    }
  }

  /** Remembering a number that the log holds. */
  lemma HearKeeps(s: State, x: Session, n: nat)
    requires Core(s) && x in s.loading && n <= |Log(s, x)|
    ensures Core(HearAt(s, x, n))
  {
    Carry(s, HearAt(s, x, n));
  }

  lemma BufferKeepsCore(s: State, e: Event)
    requires Core(s) && e.sessionId in s.loading && IsStored(Log(s, e.sessionId), e)
    ensures Core(OnNotify(s, e))
  {
    var x := e.sessionId;
    var pushed := s.(buffers := s.buffers[x := Buffered(s, x) + [e]]);
    PushKeeps(s, e);
    assert Log(pushed, x) == Log(s, x);
    HearKeeps(pushed, x, SortKey(e));
  }

  lemma BufferLosesNothing(s: State, e: Event)
    requires MarkersOk(s) && NothingLost(s) && e.sessionId in s.loading && !e.ephemeral
    ensures NothingLost(OnNotify(s, e))
  {
    var x := e.sessionId;
    var t := OnNotify(s, e);
    if s.generation in s.loads {
      var load := s.loads[s.generation];
      ReachesMore(Buffered(s, x), e, load.heard);
      if load.session == x {
        assert Buffered(t, x) == Buffered(s, x) + [e];
      } else {
        assert t.loads[s.generation] == load && Buffered(t, load.session) == Buffered(s, load.session);
      }
    }
  }

  /** A notification for a session that is being loaded is buffered, and remembered. */
  lemma BufferKeeps(s: State, e: Event)
    requires Inv(s) && e.sessionId in s.loading && IsStored(Log(s, e.sessionId), e)
    ensures Inv(OnNotify(s, e))
  {
    BufferKeepsCore(s, e);
    BufferLosesNothing(s, e);
  }

  /** A live notification extends the view, is ignored, or starts a reload. */
  lemma LiveKeeps(s: State, e: Event)
    requires Inv(s) && e.sessionId !in s.loading && s.selected == Some(e.sessionId) && IsStored(Log(s, e.sessionId), e)
    ensures Inv(OnNotify(s, e)) && HeadKept(s, OnNotify(s, e))
  {
    var x := e.sessionId;
    var t := OnNotify(s, e);
    if Append(s.transcript, e).Err? {
      BeginKeeps(s, x);
    } else {
      var y :| IsView(Log(s, y), s.transcript);
      assert IsLog(Log(s, y), y) && IsLog(Log(s, x), x);
      ViewSession(Log(s, y), y, s.transcript);
      EmptyIsView(Log(s, x));
      ViewAppend(Log(s, x), x, s.transcript, e);
      assert IsView(Log(t, x), t.transcript);
      assert forall z :: Log(t, z) == Log(s, z) && Buffered(t, z) == Buffered(s, z);
    }
  }

  lemma NotifyKeeps(s: State, e: Event)
    requires Inv(s) && Enabled(s, Notify(e))
    ensures Inv(Next(s, Notify(e))) && HeadKept(s, Next(s, Notify(e)))
  {
    if !e.ephemeral {
      if e.sessionId in s.loading {
        BufferKeeps(s, e);
      } else if s.selected == Some(e.sessionId) {
        LiveKeeps(s, e);
      }
    }
  }

  /** The transcript shows `x`, up to at least number `n`, and nothing of `x` is left waiting. */
  ghost predicate Shows(s: State, x: Session, n: nat) {
    && IsView(Log(s, x), s.transcript) && n <= s.transcript.headSeq
    && s.selected == Some(x) && x !in s.loading && Buffered(s, x) == []
  }

  lemma PublishKeeps(s: State, g: nat, next: Projection)
    requires Core(s) && g == s.generation && g in s.loads && IsView(Log(s, s.loads[g].session), next)
    requires Buffered(s, s.loads[g].session) == [] && s.loads[g].heard <= next.headSeq
    ensures var t := Publish(s, g, next);
            Inv(t) && HeadKept(s, t) && Shows(t, s.loads[g].session, s.loads[g].heard)
  {
    var x := s.loads[g].session;
    var t := Publish(s, g, next);
    var y :| IsView(Log(s, y), s.transcript);
    assert IsLog(Log(s, x), x) && IsLog(Log(s, y), y);
    ViewSession(Log(s, y), y, s.transcript);
    assert IsView(Log(s, x), t.transcript);
    assert forall z :: Log(t, z) == Log(s, z);
    assert forall z :: Buffered(t, z) == Buffered(s, z);
    assert IsView(Log(t, x), t.transcript);
  }

  lemma ListKeeps(s: State, g: nat, next: Projection)
    requires Core(s) && g == s.generation && g in s.loads && IsView(Log(s, s.loads[g].session), next)
    requires s.loads[g].heard <= next.headSeq
    ensures Inv(s.(loads := s.loads[g := s.loads[g].(phase := Listing(next))]))
  {
    Carry(s, s.(loads := s.loads[g := s.loads[g].(phase := Listing(next))]));
  }

  lemma DropBuffer(s: State, x: Session)
    requires Core(s)
    ensures var t := s.(buffers := s.buffers - {x}); Core(t) && Buffered(t, x) == [] && Log(t, x) == Log(s, x)
  {
    ForgetKeeps(s, s.(buffers := s.buffers - {x}));
  }

  lemma RepairKeeps(s: State, g: nat)
    requires Core(s) && g == s.generation && g in s.loads
    ensures var x := s.loads[g].session;
            Inv(s.(loads := s.loads[g := s.loads[g].(phase := Repairing(|Log(s, x)|))]))
  {
    var x := s.loads[g].session;
    Carry(s, s.(loads := s.loads[g := s.loads[g].(phase := Repairing(|Log(s, x)|))]));
  }

  /** Whatever draining ends with is a view that covers everything heard. */
  lemma DrainCovers(log: seq<Event>, x: Session, batch: seq<Event>, next: Projection, dirty: bool, heard: nat)
    requires IsLog(log, x) && IsView(log, next) && forall i :: 0 <= i < |batch| ==> IsStored(log, batch[i])
    requires heard <= next.headSeq || Reaches(batch, heard)
    ensures var d := DrainOutcome(batch, next, dirty);
            !d.Gap? ==> IsView(log, d.next) && heard <= d.next.headSeq
  {
    ViewMerge(log, x, next, batch);
  }

  lemma DrainKeeps(s: State, g: nat, next: Projection, dirty: bool)
    requires Core(s) && g == s.generation && g in s.loads && IsView(Log(s, s.loads[g].session), next)
    requires s.loads[g].heard <= next.headSeq || Reaches(Buffered(s, s.loads[g].session), s.loads[g].heard)
    ensures var t := Drain(s, g, next, dirty);
            && Inv(t) && HeadKept(s, t)
            && (g !in t.loads ==> Shows(t, s.loads[g].session, s.loads[g].heard))
  {
    var x := s.loads[g].session;
    var t := s.(buffers := s.buffers - {x});
    DropBuffer(s, x);
    assert IsLog(Log(s, x), x) && forall i :: 0 <= i < |Buffered(s, x)| ==> IsStored(Log(s, x), Buffered(s, x)[i]);
    DrainCovers(Log(s, x), x, Buffered(s, x), next, dirty, s.loads[g].heard);
    match DrainOutcome(Buffered(s, x), next, dirty)
    case Gap => RepairKeeps(t, g);
    case Ask(p) => ListKeeps(t, g, p);
    case Ready(p) => PublishKeeps(t, g, p);
  }

  lemma ResumeKeeps(s: State, g: nat, length: nat)
    requires Inv(s) && Enabled(s, Resume(g, length))
    ensures var t := Next(s, Resume(g, length));
            && Inv(t) && HeadKept(s, t)
            && (g == s.generation && g !in t.loads ==> Shows(t, s.loads[g].session, s.loads[g].heard))
  {
    var load := s.loads[g];
    assert PhaseOk(Log(s, load.session), load.phase);
    if g != s.generation {
      FinishKeeps(s, g);
    } else if load.phase.Listing? {
      DrainKeeps(s, g, load.phase.next, false);
    } else {
      assert IsLog(Log(s, load.session), load.session);
      ReplayIsView(Log(s, load.session), load.session, length);
      DrainKeeps(s, g, ProjectTranscript(Log(s, load.session)[..length]).value, load.phase.Repairing?);
    }
  }

  /** Every enabled step keeps the invariant and never moves the head of an unchanged session backwards. */
  lemma StepKeeps(s: State, step: Step)
    requires Inv(s) && Enabled(s, step)
    ensures Inv(Next(s, step)) && HeadKept(s, Next(s, step))
  {
    match step
    case Store(e) => StoreKeeps(s, e);
    case Notify(e) => NotifyKeeps(s, e);
    case Begin(x) => BeginKeeps(s, x);
    case Select(x) => Carry(s, Next(s, step));
    case Resume(g, length) => ResumeKeeps(s, g, length);
    case Reject(g) => FinishKeeps(s, g);
  }

  // ---------- Whole runs ----------

  ghost predicate EnabledRun(s: State, steps: seq<Step>)
    decreases |steps|
  {
    steps == [] || (Enabled(s, steps[0]) && EnabledRun(Next(s, steps[0]), steps[1..]))
  }

  ghost function Run(s: State, steps: seq<Step>): State
    requires EnabledRun(s, steps)
    decreases |steps|
  {
    if steps == [] then s else Run(Next(s, steps[0]), steps[1..])
  }

  /** Every state on the way shows session `x`. */
  ghost predicate StaysOn(s: State, steps: seq<Step>, x: Session)
    requires EnabledRun(s, steps)
    decreases |steps|
  {
    s.transcript.sessionId == Some(x) && (steps == [] || StaysOn(Next(s, steps[0]), steps[1..], x))
  }

  lemma {:induction false} RunKeeps(s: State, steps: seq<Step>)
    requires Inv(s) && EnabledRun(s, steps)
    ensures Inv(Run(s, steps))
    decreases |steps|
  {
    if steps != [] {
      StepKeeps(s, steps[0]);
      RunKeeps(Next(s, steps[0]), steps[1..]);
    }
  }

  /** In every interleaving the transcript is the projection of an exact prefix of one session's log. */
  lemma TranscriptIsAlwaysExact(selected: Option<Session>, steps: seq<Step>) returns (x: Session)
    requires EnabledRun(Initial(selected), steps)
    ensures var s := Run(Initial(selected), steps);
            && s.transcript.headSeq <= |Log(s, x)| && s.transcript == Of(Log(s, x), s.transcript.headSeq)
            && (s.transcript.headSeq > 0 ==> s.transcript.sessionId == Some(x))
  {
    InitialInv(selected);
    RunKeeps(Initial(selected), steps);
    var s := Run(Initial(selected), steps);
    x :| IsView(Log(s, x), s.transcript);
    assert IsLog(Log(s, x), x);
    ViewSession(Log(s, x), x, s.transcript);
  }

  /** While the shown session does not change, its head never moves backwards. */
  lemma {:induction false} HeadIsMonotone(s: State, steps: seq<Step>, x: Session)
    requires Inv(s) && EnabledRun(s, steps) && StaysOn(s, steps, x)
    ensures s.transcript.headSeq <= Run(s, steps).transcript.headSeq
    decreases |steps|
  {
    if steps != [] {
      StepKeeps(s, steps[0]);
      HeadIsMonotone(Next(s, steps[0]), steps[1..], x);
    }
  }

  /**
   When the newest load publishes, after any run: the transcript shows its session up
   to every notification received since the load began, the marker is released, and no
   notification of that session is left in the buffer.
   */
  lemma PublishedIsComplete(selected: Option<Session>, steps: seq<Step>, g: nat, length: nat)
    requires EnabledRun(Initial(selected), steps)
    requires var s := Run(Initial(selected), steps);
             g == s.generation && Enabled(s, Resume(g, length)) && g !in Next(s, Resume(g, length)).loads
    ensures var s := Run(Initial(selected), steps);
            Shows(Next(s, Resume(g, length)), s.loads[g].session, s.loads[g].heard)
  {
    InitialInv(selected);
    RunKeeps(Initial(selected), steps);
    ResumeKeeps(Run(Initial(selected), steps), g, length);
  }

  /**
   Not every end of a load empties the buffer: events stay behind, to be merged by the
   next load of the session, exactly when the newest load ends without draining.
   */
  lemma FinishLeavesBufferIff(s: State, g: nat)
    requires Inv(s) && g in s.loads
    requires var x := s.loads[g].session; x in s.loading && s.loading[x] == g && Buffered(s, x) != []
    ensures var x := s.loads[g].session;
            x !in Finish(s, g).loading && (Buffered(Finish(s, g), x) != [] <==> g == s.generation)
  {
  }

  /** A load that fails after a notification: the session is no longer loading, and the event is still buffered. */
  lemma FailedLoadKeepsEvent(e: Event)
    requires !e.ephemeral && e.seqNo == Some(1)
    ensures var steps := [Begin(e.sessionId), Store(e), Notify(e), Reject(1)];
            EnabledRun(Initial(None), steps) &&
            var s := Run(Initial(None), steps);
            e.sessionId !in s.loading && Buffered(s, e.sessionId) == [e]
  {
    var s0 := Initial(None);
    var s1 := Next(s0, Begin(e.sessionId));
    var s2 := Next(s1, Store(e));
    assert Log(s2, e.sessionId) == [e];
    var s3 := Next(s2, Notify(e));
    var s4 := Next(s3, Reject(1));
    assert EnabledRun(s4, []);
    assert EnabledRun(s3, [Reject(1)]) && Run(s3, [Reject(1)]) == s4 by {
      assert [Reject(1)][1..] == [];
    }
    assert EnabledRun(s2, [Notify(e), Reject(1)]) && Run(s2, [Notify(e), Reject(1)]) == s4 by {
      assert [Notify(e), Reject(1)][1..] == [Reject(1)];
    }
    assert EnabledRun(s1, [Store(e), Notify(e), Reject(1)]) && Run(s1, [Store(e), Notify(e), Reject(1)]) == s4 by {
      assert [Store(e), Notify(e), Reject(1)][1..] == [Notify(e), Reject(1)];
    }
    assert [Begin(e.sessionId), Store(e), Notify(e), Reject(1)][1..] == [Store(e), Notify(e), Reject(1)];
  }
}
