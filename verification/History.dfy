/** Paginated replay of a session's durable events. */
module History {
  import opened Wrappers
  import opened Transcript

  const PAGE_SIZE: nat := 500

  datatype Page = Page(sessionId: string, events: seq<Event>, headSeq: int, nextAfterSeq: int, hasMore: bool)

  /** The loop's variables between two requests. */
  datatype Cursor = Cursor(events: seq<Event>, afterSeq: int, headSeq: int, stalledTailReads: nat)

  const START := Cursor([], 0, 0, 0)

  datatype Outcome = Waiting(cursor: Cursor) | Done(events: seq<Event>, headSeq: int) | Thrown

  /** The last sequence number of a page that continues after `previous`, if the page is valid. */
  function LastOfPage(session: string, events: seq<Event>, previous: int): Option<int>
    decreases |events|
  {
    if events == [] then Some(previous)
    else if events[0].sessionId != session || events[0].seqNo != Some(previous + 1) then None
    else LastOfPage(session, events[1..], previous + 1)
  }

  function Max(a: int, b: int): int {
    if a >= b then a else b
  }

  /** What the client does with one reply. */
  function Handle(session: string, c: Cursor, page: Page): Outcome {
    if page.sessionId != session || page.headSeq < c.headSeq then Thrown
    else
      var last := LastOfPage(session, page.events, c.afterSeq);
      if last.None? || page.nextAfterSeq != last.value || page.headSeq < last.value then Thrown
      else
        var next := Cursor(c.events + page.events, last.value, Max(c.headSeq, page.headSeq), 0);
        var tailMoved := last.value < page.headSeq;
        if !page.hasMore && !tailMoved then Done(next.events, next.headSeq)
        else if page.events != [] then Waiting(next)
        else if !page.hasMore && tailMoved && c.stalledTailReads == 0 then Waiting(next.(stalledTailReads := 1))
        else Thrown
  }

  /** The replies are whatever the peer sent, in order. */
  function Replay(session: string, c: Cursor, replies: seq<Page>): Outcome
    decreases |replies|
  {
    if replies == [] then Waiting(c)
    else
      var r := Handle(session, c, replies[0]);
      if r.Waiting? then Replay(session, r.cursor, replies[1..]) else r
  }

  method CheckPage(session: string, events: seq<Event>, afterSeq: int) returns (last: Option<int>)
    ensures last == LastOfPage(session, events, afterSeq)
    ensures last == if Continues(session, events, afterSeq) then Some(afterSeq + |events|) else None
  {
    PageAcceptedIff(session, events, afterSeq);
    var previous := afterSeq;
    for i := 0 to |events|
      invariant LastOfPage(session, events, afterSeq) == LastOfPage(session, events[i..], previous)
    {
      if events[i].sessionId != session || events[i].seqNo != Some(previous + 1) {
        return None;
      }
      previous := previous + 1;
    }
    return Some(previous);
  }

  /** The request loop against a script of replies; `Waiting` means the script ended first. */
  method ReadSessionHistory(session: string, replies: seq<Page>) returns (r: Outcome)
    ensures r == Replay(session, START, replies)
  {
    var c := START;
    for i := 0 to |replies|
      invariant Replay(session, START, replies) == Replay(session, c, replies[i..])
    {
      var page := replies[i];
      if page.sessionId != session || page.headSeq < c.headSeq {
        return Thrown;
      }
      var last := CheckPage(session, page.events, c.afterSeq);
      if last.None? || page.nextAfterSeq != last.value || page.headSeq < last.value {
        return Thrown;
      }
      var stalled := c.stalledTailReads;
      c := Cursor(c.events + page.events, last.value, Max(c.headSeq, page.headSeq), 0);
      var tailMoved := c.afterSeq < page.headSeq;
      if !page.hasMore && !tailMoved {
        return Done(c.events, c.headSeq);
      }
      if page.events == [] {
        if !page.hasMore && tailMoved && stalled == 0 {
          c := c.(stalledTailReads := 1);
        } else {
          return Thrown;
        }
      }
    }
    return Waiting(c);
  }

  // ---------- Against any peer ----------

  ghost predicate Numbered(session: string, events: seq<Event>) {
    forall i :: 0 <= i < |events| ==> events[i].sessionId == session && events[i].seqNo == Some(i + 1)
  }

  ghost predicate CursorOk(session: string, c: Cursor) {
    Numbered(session, c.events) && c.afterSeq == |c.events| && c.afterSeq <= c.headSeq && c.stalledTailReads <= 1
  }

  /** The events are the session's numbers `previous + 1` and on. */
  ghost predicate Continues(session: string, events: seq<Event>, previous: int) {
    forall i :: 0 <= i < |events| ==> events[i].sessionId == session && events[i].seqNo == Some(previous + 1 + i)
  }

  lemma {:induction false} PageContinues(session: string, events: seq<Event>, previous: int)
    requires LastOfPage(session, events, previous).Some?
    ensures LastOfPage(session, events, previous) == Some(previous + |events|)
    ensures Continues(session, events, previous)
    decreases |events|
  {
    if events != [] {
      PageContinues(session, events[1..], previous + 1);
      assert forall i :: 1 <= i < |events| ==> events[i] == events[1..][i - 1];
    }
  }

  lemma {:induction false} ContinuationIsAccepted(session: string, events: seq<Event>, previous: int)
    requires Continues(session, events, previous)
    ensures LastOfPage(session, events, previous) == Some(previous + |events|)
    decreases |events|
  {
    if events != [] {
      assert forall i :: 0 <= i < |events[1..]| ==> events[1..][i] == events[i + 1];
      ContinuationIsAccepted(session, events[1..], previous + 1);
    }
  }

  /** A page is accepted exactly when it continues the session without a gap, and then its last number is known. */
  lemma PageAcceptedIff(session: string, events: seq<Event>, previous: int)
    ensures LastOfPage(session, events, previous) ==
            if Continues(session, events, previous) then Some(previous + |events|) else None
  {
    if LastOfPage(session, events, previous).Some? {
      PageContinues(session, events, previous);
    } else if Continues(session, events, previous) {
      ContinuationIsAccepted(session, events, previous);
      assert false;
    }
  }

  lemma HandleKeeps(session: string, c: Cursor, page: Page)
    requires CursorOk(session, c)
    ensures var r := Handle(session, c, page);
            && (r.Waiting? ==> CursorOk(session, r.cursor) && r.cursor.headSeq == page.headSeq)
            && (r.Done? ==> Numbered(session, r.events) && r.headSeq == |r.events|)
  {
    if LastOfPage(session, page.events, c.afterSeq).Some? {
      PageContinues(session, page.events, c.afterSeq);
    }
  }

  /** What one reply leads to: a page out of place throws, a stall may be waited out once, and the end is the head. */
  lemma ReplyOutcome(session: string, c: Cursor, page: Page)
    ensures var r, last := Handle(session, c, page), c.afterSeq + |page.events|;
            var fits := page.sessionId == session && page.headSeq >= c.headSeq && page.headSeq >= last
                        && Continues(session, page.events, c.afterSeq) && page.nextAfterSeq == last;
            var ended, stalled := !page.hasMore && page.headSeq == last, page.events == [];
            && (r.Done? <==> fits && ended)
            && (r.Done? ==> r.events == c.events + page.events && r.headSeq == page.headSeq)
            && (r.Waiting? <==> fits && !ended && (stalled ==> !page.hasMore && c.stalledTailReads == 0))
            && (r.Waiting? ==> r.cursor == Cursor(c.events + page.events, last, page.headSeq, if stalled then 1 else 0))
  {
    PageAcceptedIff(session, page.events, c.afterSeq);
  }

  /** Whatever the peer sends, a finished read is the session's events 1..n with head n. */
  lemma {:induction false} FinishedReadIsNumbered(session: string, c: Cursor, replies: seq<Page>)
    requires CursorOk(session, c)
    ensures var r := Replay(session, c, replies);
            r.Done? ==> Numbered(session, r.events) && r.headSeq == |r.events|
    decreases |replies|
  {
    if replies != [] {
      HandleKeeps(session, c, replies[0]);
      var r := Handle(session, c, replies[0]);
      if r.Waiting? {
        FinishedReadIsNumbered(session, r.cursor, replies[1..]);
      }
    }
  }

  /** A read that is still waiting has made few requests: each either advances the cursor or is its one retry there. */
  lemma {:induction false} WaitingIsBounded(session: string, c: Cursor, replies: seq<Page>, bound: nat)
    requires CursorOk(session, c) && c.headSeq <= bound
    requires forall i :: 0 <= i < |replies| ==> replies[i].headSeq <= bound
    requires Replay(session, c, replies).Waiting?
    ensures |replies| + 2 * c.afterSeq + c.stalledTailReads <= 2 * bound + 1
    decreases |replies|
  {
    if replies != [] {
      HandleKeeps(session, c, replies[0]);
      if replies[0].events != [] {
        PageContinues(session, replies[0].events, c.afterSeq);
      }
      WaitingIsBounded(session, Handle(session, c, replies[0]).cursor, replies[1..], bound);
    }
  }

  /** If no reply claims a head above `bound`, the read ends within 2 * (bound + 1) requests. */
  lemma ReadEnds(session: string, replies: seq<Page>, bound: nat)
    requires |replies| >= 2 * (bound + 1) && forall i :: 0 <= i < |replies| ==> replies[i].headSeq <= bound
    ensures !Replay(session, START, replies).Waiting?
  {
    if Replay(session, START, replies).Waiting? {
      WaitingIsBounded(session, START, replies, bound);
      assert false;
    }
  }

  // ---------- Against the worker's event store ----------

  /** A request sees the first `read` events and then, separately, a head of `head`. */
  datatype View = View(read: nat, head: nat)

  /** The store only grows: events are read before the head, and later requests see no less. */
  predicate Growing(log: seq<Event>, views: seq<View>) {
    && (forall i :: 0 <= i < |views| ==> views[i].read <= views[i].head <= |log|)
    && (forall i, j :: 0 <= i < j < |views| ==> views[i].head <= views[j].read)
  }

  function WorkerPage(session: string, log: seq<Event>, after: int, view: View): Page {
    if !(0 <= after <= view.read <= |log|) then Page(session, [], view.head, after, false)
    else
      var end := if view.read - after > PAGE_SIZE then after + PAGE_SIZE else view.read;
      Page(session, log[after..end], view.head, end, view.read > end)
  }

  /** A read whose requests see the given views. */
  function WorkerReplay(session: string, log: seq<Event>, c: Cursor, views: seq<View>): Outcome
    decreases |views|
  {
    if views == [] then Waiting(c)
    else
      var r := Handle(session, c, WorkerPage(session, log, c.afterSeq, views[0]));
      if r.Waiting? then WorkerReplay(session, log, r.cursor, views[1..]) else r
  }

  ghost predicate AtPrefix(log: seq<Event>, c: Cursor) {
    0 <= c.afterSeq <= |log| && c.events == log[..c.afterSeq]
  }

  lemma {:induction false} SliceIsValidPage(session: string, log: seq<Event>, a: nat, b: nat)
    requires IsLog(log, session) && a <= b <= |log|
    ensures LastOfPage(session, log[a..b], a) == Some(b)
    decreases b - a
  {
    if a < b {
      SliceIsValidPage(session, log, a + 1, b);
      assert log[a..b][1..] == log[a + 1..b];
    }
  }

  lemma WorkerStep(session: string, log: seq<Event>, c: Cursor, view: View)
    requires IsLog(log, session) && AtPrefix(log, c)
    requires c.afterSeq <= view.read <= view.head <= |log| && c.headSeq <= view.head
    requires c.stalledTailReads > 0 ==> c.afterSeq < view.read
    ensures var r := Handle(session, c, WorkerPage(session, log, c.afterSeq, view));
            && !r.Thrown?
            && (r.Waiting? ==>
                  AtPrefix(log, r.cursor) && r.cursor.afterSeq <= view.read && r.cursor.headSeq == view.head)
            && (r.Waiting? && r.cursor.stalledTailReads > 0 ==> r.cursor.afterSeq < view.head)
            && (r.Done? ==> r.events == log[..view.head] && r.headSeq == view.head)
  {
    var page := WorkerPage(session, log, c.afterSeq, view);
    SliceIsValidPage(session, log, c.afterSeq, page.nextAfterSeq);
    assert log[..c.afterSeq] + log[c.afterSeq..page.nextAfterSeq] == log[..page.nextAfterSeq];
  }

  /**
   Reading from the growing store never throws, and a finished read is a prefix of
   the log that holds everything stored before the first request.
   */
  lemma {:induction false} WorkerReadIsPrefix(session: string, log: seq<Event>, c: Cursor, views: seq<View>)
    requires IsLog(log, session) && AtPrefix(log, c) && Growing(log, views)
    requires forall i :: 0 <= i < |views| ==> c.afterSeq <= views[i].read && c.headSeq <= views[i].head
    requires views != [] && c.stalledTailReads > 0 ==> c.afterSeq < views[0].read
    ensures var r := WorkerReplay(session, log, c, views);
            && !r.Thrown?
            && (r.Done? ==>
                  |r.events| <= |log| && r.events == log[..|r.events|] && views != [] && views[0].read <= |r.events|)
            && (r.Done? ==> ProjectTranscript(r.events) == Ok(Of(log, |r.events|)))
    decreases |views|
  {
    if views != [] {
      WorkerStep(session, log, c, views[0]);
      var r := Handle(session, c, WorkerPage(session, log, c.afterSeq, views[0]));
      if r.Waiting? {
        assert forall i :: 0 <= i < |views[1..]| ==> views[1..][i] == views[i + 1];
        WorkerReadIsPrefix(session, log, r.cursor, views[1..]);
      } else {
        ReplayIsProjection(log, session, 0, views[0].head);
        assert log[0..views[0].head] == log[..views[0].head];
      }
    }
  }
}
