/**
 Repeated compactions of one growing event log: how the event cursor and the
 pending-approval facts follow the log, whatever else each compaction adds.
 */
module ContextRun {
  import opened Wrappers
  import opened Sorting
  import opened Eviction

  // An id is the trimmed text of the field; the blank id means that it is absent.
  datatype Body =
    | ApprovalRequested(approvalId: string, text: string)
    | ApprovalClosed(approvalId: string) // resolved or consumed
    | Unrelated

  datatype Event = Event(sequence: nat, body: Body)

  /** The stable fact id of an approval; the digest in it is taken to be injective. */
  function PendingId(approvalId: string): string {
    "pending_approvals-" + approvalId
  }

  lemma PendingIdIsInjective(a: string, b: string)
    requires PendingId(a) == PendingId(b)
    ensures a == b
  {
    assert a == PendingId(a)[18..];
    assert b == PendingId(b)[18..];
  }

  // ---------- The fact dictionary: distinct ids, insertion order ----------

  predicate HasId(values: seq<Fact>, id: string) {
    exists i :: 0 <= i < |values| && values[i].id == id
  }

  function Put(values: seq<Fact>, fact: Fact): seq<Fact> {
    if values == [] then [fact]
    else if values[0].id == fact.id then [fact] + values[1..]
    else [values[0]] + Put(values[1..], fact)
  }

  function Pop(values: seq<Fact>, id: string): seq<Fact> {
    if values == [] then []
    else (if values[0].id == id then [] else [values[0]]) + Pop(values[1..], id)
  }

  function ToDictionary(facts: seq<Fact>): seq<Fact> {
    if facts == [] then [] else Put(ToDictionary(facts[..|facts| - 1]), facts[|facts| - 1])
  }

  lemma HasIdConcat(a: seq<Fact>, b: seq<Fact>, id: string)
    ensures HasId(a + b, id) <==> HasId(a, id) || HasId(b, id)
  {
    if HasId(a, id) {
      var i :| 0 <= i < |a| && a[i].id == id;
      assert (a + b)[i].id == id;
    }
    if HasId(b, id) {
      var i :| 0 <= i < |b| && b[i].id == id;
      assert (a + b)[|a| + i].id == id;
    }
  }

  lemma {:induction false} PutIds(values: seq<Fact>, fact: Fact, id: string)
    ensures HasId(Put(values, fact), id) <==> id == fact.id || HasId(values, id)
  {
    assert HasId([fact], id) <==> [fact][0].id == id;
    if values != [] {
      PutIds(values[1..], fact, id);
      HasIdConcat([values[0]], values[1..], id);
      HasIdConcat([fact], values[1..], id);
      HasIdConcat([values[0]], Put(values[1..], fact), id);
      assert values == [values[0]] + values[1..];
      assert HasId([values[0]], id) <==> [values[0]][0].id == id;
    }
  }

  lemma {:induction false} PopIds(values: seq<Fact>, gone: string, id: string)
    ensures HasId(Pop(values, gone), id) <==> id != gone && HasId(values, id)
  {
    if values != [] {
      PopIds(values[1..], gone, id);
      HasIdConcat([values[0]], values[1..], id);
      HasIdConcat([values[0]], Pop(values[1..], gone), id);
      assert values == [values[0]] + values[1..];
      assert HasId([values[0]], id) <==> [values[0]][0].id == id;
      assert [] + Pop(values[1..], gone) == Pop(values[1..], gone);
    }
  }

  lemma {:induction false} ToDictionaryIds(facts: seq<Fact>, id: string)
    ensures HasId(ToDictionary(facts), id) <==> HasId(facts, id)
  {
    if facts != [] {
      var front, last := facts[..|facts| - 1], facts[|facts| - 1];
      ToDictionaryIds(front, id);
      PutIds(ToDictionary(front), last, id);
      HasIdConcat(front, [last], id);
      assert facts == front + [last];
      assert HasId([last], id) <==> [last][0].id == id;
    }
  }

  lemma SortIds(values: seq<Fact>, id: string)
    ensures HasId(StableSort(values, Recency), id) <==> HasId(values, id)
  {
    var sorted := StableSort(values, Recency);
    if HasId(sorted, id) {
      var i :| 0 <= i < |sorted| && sorted[i].id == id;
      SameMembers(values, Recency, sorted[i]);
    }
    if HasId(values, id) {
      var i :| 0 <= i < |values| && values[i].id == id;
      SameMembers(values, Recency, values[i]);
    }
  }

  // ---------- Projection of the approval events ----------

  function ApprovalFact(e: Event): Fact
    requires e.body.ApprovalRequested?
  {
    Fact(PendingId(e.body.approvalId), e.body.text, Some("approval_event"), [], [e.sequence], Some(e.sequence))
  }

  function ProjectOne(values: seq<Fact>, e: Event): seq<Fact> {
    match e.body
    case ApprovalRequested(id, _) => if id == "" then values else Put(values, ApprovalFact(e))
    case ApprovalClosed(id) => if id == "" then values else Pop(values, PendingId(id))
    case Unrelated => values
  }

  function ProjectAll(values: seq<Fact>, events: seq<Event>): seq<Fact> {
    if events == [] then values else ProjectOne(ProjectAll(values, events[..|events| - 1]), events[|events| - 1])
  }

  method ProjectApprovals(initial: seq<Fact>, events: seq<Event>) returns (values: seq<Fact>)
    ensures values == ProjectAll(initial, events)
  {
    values := initial;
    for i := 0 to |events|
      invariant values == ProjectAll(initial, events[..i])
    {
      var event := events[i];
      if event.body.ApprovalRequested? {
        if event.body.approvalId != "" {
          values := Put(values, ApprovalFact(event));
        }
      } else if event.body.ApprovalClosed? && event.body.approvalId != "" {
        values := Pop(values, PendingId(event.body.approvalId));
      }
      assert events[..i + 1][..i] == events[..i];
    }
    assert events[..|events|] == events;
  }

  function LatestSequence(events: seq<Event>, default: nat): nat {
    if events == [] then default
    else
      var rest := LatestSequence(events[..|events| - 1], 0);
      if |events| > 1 && rest > events[|events| - 1].sequence then rest else events[|events| - 1].sequence
  }

  /** Everything but the cursor and the pending approvals comes from `rest`, which is arbitrary. */
  function Project(previous: ContextState, events: seq<Event>, rest: ContextState): ContextState {
    var pending := ProjectAll(ToDictionary(previous.facts[PENDING_APPROVALS]), events);
    rest.(eventCursor := LatestSequence(events, previous.eventCursor),
          facts := rest.facts[PENDING_APPROVALS := StableSort(pending, Recency)])
  }

  // ---------- Runs of compactions ----------

  /** Durable events are numbered 1, 2, 3, ... */
  predicate Numbered(log: seq<Event>) {
    forall i :: 0 <= i < |log| ==> log[i].sequence == i + 1
  }

  function ReadDelta(events: seq<Event>, cursor: nat): seq<Event> {
    if events == [] then []
    else ReadDelta(events[..|events| - 1], cursor) +
         (if events[|events| - 1].sequence > cursor then [events[|events| - 1]] else [])
  }

  /** One compaction: how long the log was then, and what tools, artifacts and the generator contributed. */
  datatype Compaction = Compaction(logLength: nat, policy: Policy, rest: ContextState)

  const INITIAL := ContextState("rolling_summary", "", [], [], [], None, 0, 0, [[], [], [], [], [], [], [], [], [], []])

  predicate Growing(log: seq<Event>, run: seq<Compaction>) {
    && (forall i :: 0 <= i < |run| ==> run[i].logLength <= |log|)
    && (forall i, j :: 0 <= i <= j < |run| ==> run[i].logLength <= run[j].logLength)
  }

  function Delta(log: seq<Event>, previous: ContextState, c: Compaction): seq<Event>
    requires c.logLength <= |log|
  {
    ReadDelta(log[..c.logLength], previous.eventCursor)
  }

  /** The state before bounding. */
  function Unbounded(log: seq<Event>, previous: ContextState, c: Compaction): ContextState
    requires c.logLength <= |log|
  {
    Project(previous, Delta(log, previous, c), c.rest)
  }

  ghost function CompactOnce(log: seq<Event>, previous: ContextState, c: Compaction): ContextState
    requires c.logLength <= |log|
  {
    Bounded(c.policy, Unbounded(log, previous, c))
  }

  ghost function StateAfter(log: seq<Event>, run: seq<Compaction>): ContextState
    requires Growing(log, run)
  {
    if run == [] then INITIAL else CompactOnce(log, StateAfter(log, run[..|run| - 1]), run[|run| - 1])
  }

  /** All deltas of the run, in order. */
  ghost function AllDeltas(log: seq<Event>, run: seq<Compaction>): seq<Event>
    requires Growing(log, run)
  {
    if run == [] then []
    else
      var front := run[..|run| - 1];
      AllDeltas(log, front) + Delta(log, StateAfter(log, front), run[|run| - 1])
  }

  function Covered(run: seq<Compaction>): nat {
    if run == [] then 0 else run[|run| - 1].logLength
  }

  lemma {:induction false} DeltaIsSlice(log: seq<Event>, n: nat, cursor: nat)
    requires Numbered(log) && cursor <= n <= |log|
    ensures ReadDelta(log[..n], cursor) == log[cursor..n]
    decreases n
  {
    if n > 0 {
      assert log[..n][..n - 1] == log[..n - 1];
      if cursor < n {
        DeltaIsSlice(log, n - 1, cursor);
      } else {
        NothingNew(log, n, cursor);
      }
    }
  }

  lemma {:induction false} NothingNew(log: seq<Event>, n: nat, cursor: nat)
    requires Numbered(log) && n <= |log| && n <= cursor
    ensures ReadDelta(log[..n], cursor) == []
  {
    if n > 0 {
      assert log[..n][..n - 1] == log[..n - 1];
      NothingNew(log, n - 1, cursor);
    }
  }

  lemma {:induction false} LatestOfSlice(log: seq<Event>, a: nat, b: nat)
    requires Numbered(log) && a <= b <= |log|
    ensures LatestSequence(log[a..b], a) == b
    decreases b
  {
    if a < b {
      LatestBelow(log, a, b - 1);
      assert log[a..b][..b - a - 1] == log[a..b - 1];
    }
  }

  lemma {:induction false} LatestBelow(log: seq<Event>, a: nat, b: nat)
    requires Numbered(log) && a <= b <= |log|
    ensures LatestSequence(log[a..b], 0) <= b
    decreases b
  {
    if a < b {
      LatestBelow(log, a, b - 1);
      assert log[a..b][..b - a - 1] == log[a..b - 1];
    }
  }

  lemma BoundedKeepsCursor(p: Policy, s: ContextState)
    ensures Bounded(p, s).eventCursor == s.eventCursor
  {
  }

  lemma CursorStep(log: seq<Event>, previous: ContextState, c: Compaction)
    requires Numbered(log) && previous.eventCursor <= c.logLength <= |log|
    ensures Delta(log, previous, c) == log[previous.eventCursor..c.logLength]
    ensures CompactOnce(log, previous, c).eventCursor == c.logLength
  {
    DeltaIsSlice(log, c.logLength, previous.eventCursor);
    LatestOfSlice(log, previous.eventCursor, c.logLength);
    BoundedKeepsCursor(c.policy, Unbounded(log, previous, c));
  }

  /** The cursor is always the log length of the last compaction, and the deltas partition the log. */
  lemma {:induction false} CursorFollowsLog(log: seq<Event>, run: seq<Compaction>)
    requires Numbered(log) && Growing(log, run)
    ensures Covered(run) <= |log|
    ensures StateAfter(log, run).eventCursor == Covered(run)
    ensures AllDeltas(log, run) == log[..Covered(run)]
  {
    if run != [] {
      var front, c := run[..|run| - 1], run[|run| - 1];
      CursorFollowsLog(log, front);
      assert Covered(front) <= c.logLength;
      CursorStep(log, StateAfter(log, front), c);
      SlicesJoin(log, Covered(front), c.logLength);
    }
  }

  lemma SlicesJoin(log: seq<Event>, a: nat, b: nat)
    requires a <= b <= |log|
    ensures log[..b] == log[..a] + log[a..b]
  {
  }

  // ---------- Pending approvals ----------

  /** Requested in the first `n` events and neither resolved nor consumed since. */
  ghost predicate Open(log: seq<Event>, n: nat, id: string)
    requires n <= |log|
  {
    id != "" && exists i :: 0 <= i < n && RequestedAt(log, i, id) && NotClosedIn(log, i + 1, n, id)
  }

  predicate NotClosedIn(log: seq<Event>, a: int, b: int, id: string) {
    forall j :: a <= j < b ==> !ClosedAt(log, j, id)
  }

  predicate RequestedAt(log: seq<Event>, i: int, id: string) {
    0 <= i < |log| && log[i].body.ApprovalRequested? && log[i].body.approvalId == id
  }

  predicate ClosedAt(log: seq<Event>, i: int, id: string) {
    0 <= i < |log| && log[i].body.ApprovalClosed? && log[i].body.approvalId == id
  }

  lemma OpenStep(log: seq<Event>, n: nat, id: string)
    requires n < |log|
    ensures Open(log, n + 1, id) <==>
            id != "" && (RequestedAt(log, n, id) || (Open(log, n, id) && !ClosedAt(log, n, id)))
  {
    if Open(log, n + 1, id) && !RequestedAt(log, n, id) {
      var i :| 0 <= i < n + 1 && RequestedAt(log, i, id) && NotClosedIn(log, i + 1, n + 1, id);
      assert i < n && NotClosedIn(log, i + 1, n, id) && !ClosedAt(log, n, id);
    }
    if Open(log, n, id) && !ClosedAt(log, n, id) {
      var i :| 0 <= i < n && RequestedAt(log, i, id) && NotClosedIn(log, i + 1, n, id);
      assert NotClosedIn(log, i + 1, n + 1, id);
    }
  }

  ghost predicate OnlyOpen(values: seq<Fact>, log: seq<Event>, n: nat)
    requires n <= |log|
  {
    forall id :: HasId(values, id) ==> exists a :: id == PendingId(a) && Open(log, n, a)
  }

  ghost predicate AllOpen(values: seq<Fact>, log: seq<Event>, n: nat)
    requires n <= |log|
  {
    forall a :: Open(log, n, a) ==> HasId(values, PendingId(a))
  }

  lemma ProjectOneFollowsLog(values: seq<Fact>, log: seq<Event>, n: nat)
    requires n < |log|
    ensures OnlyOpen(values, log, n) ==> OnlyOpen(ProjectOne(values, log[n]), log, n + 1)
    ensures AllOpen(values, log, n) ==> AllOpen(ProjectOne(values, log[n]), log, n + 1)
  {
    var e := log[n];
    var after := ProjectOne(values, e);
    forall id | OnlyOpen(values, log, n) && HasId(after, id)
      ensures exists a :: id == PendingId(a) && Open(log, n + 1, a)
    {
      var a := OriginOf(values, log, n, id);
      OpenStep(log, n, a);
    }
    forall a | AllOpen(values, log, n) && Open(log, n + 1, a)
      ensures HasId(after, PendingId(a))
    {
      OpenStep(log, n, a);
      if e.body.ApprovalRequested? && e.body.approvalId != "" {
        PutIds(values, ApprovalFact(e), PendingId(a));
      } else if e.body.ApprovalClosed? && e.body.approvalId != "" {
        PopIds(values, PendingId(e.body.approvalId), PendingId(a));
        if PendingId(e.body.approvalId) == PendingId(a) {
          PendingIdIsInjective(e.body.approvalId, a);
        }
      }
    }
  }

  /** The approval behind a fact that is pending after one more event. */
  lemma OriginOf(values: seq<Fact>, log: seq<Event>, n: nat, id: string) returns (a: string)
    requires n < |log| && OnlyOpen(values, log, n) && HasId(ProjectOne(values, log[n]), id)
    ensures id == PendingId(a) && a != "" && (RequestedAt(log, n, a) || (Open(log, n, a) && !ClosedAt(log, n, a)))
  {
    var e := log[n];
    if e.body.ApprovalRequested? && e.body.approvalId != "" {
      PutIds(values, ApprovalFact(e), id);
      if id == PendingId(e.body.approvalId) {
        a := e.body.approvalId;
      } else {
        a :| id == PendingId(a) && Open(log, n, a);
      }
    } else if e.body.ApprovalClosed? && e.body.approvalId != "" {
      PopIds(values, PendingId(e.body.approvalId), id);
      a :| id == PendingId(a) && Open(log, n, a);
    } else {
      a :| id == PendingId(a) && Open(log, n, a);
    }
  }

  /** Projecting events `a` to `b - 1` of the log one by one. */
  function ProjectUpTo(values: seq<Fact>, log: seq<Event>, a: nat, b: nat): seq<Fact>
    requires a <= b <= |log|
    decreases b
  {
    if a == b then values else ProjectOne(ProjectUpTo(values, log, a, b - 1), log[b - 1])
  }

  lemma {:induction false} ProjectSlice(values: seq<Fact>, log: seq<Event>, a: nat, b: nat)
    requires a <= b <= |log|
    ensures ProjectAll(values, log[a..b]) == ProjectUpTo(values, log, a, b)
    decreases b
  {
    if a < b {
      ProjectSlice(values, log, a, b - 1);
      assert log[a..b][..b - a - 1] == log[a..b - 1];
    }
  }

  lemma {:induction false} UpToFollowsLog(values: seq<Fact>, log: seq<Event>, a: nat, b: nat)
    requires a <= b <= |log|
    ensures OnlyOpen(values, log, a) ==> OnlyOpen(ProjectUpTo(values, log, a, b), log, b)
    ensures AllOpen(values, log, a) ==> AllOpen(ProjectUpTo(values, log, a, b), log, b)
    decreases b
  {
    if a < b {
      UpToFollowsLog(values, log, a, b - 1);
      ProjectOneFollowsLog(ProjectUpTo(values, log, a, b - 1), log, b - 1);
    }
  }

  lemma ProjectFollowsLog(values: seq<Fact>, log: seq<Event>, a: nat, b: nat)
    requires a <= b <= |log|
    ensures OnlyOpen(values, log, a) ==> OnlyOpen(ProjectAll(values, log[a..b]), log, b)
    ensures AllOpen(values, log, a) ==> AllOpen(ProjectAll(values, log[a..b]), log, b)
  {
    ProjectSlice(values, log, a, b);
    UpToFollowsLog(values, log, a, b);
  }

  /** Bounding dropped no pending approval. */
  ghost predicate NoneDropped(p: Policy, s: ContextState) {
    forall id :: HasId(s.facts[PENDING_APPROVALS], id) ==> HasId(Bounded(p, s).facts[PENDING_APPROVALS], id)
  }

  ghost predicate NoneEverDropped(log: seq<Event>, run: seq<Compaction>)
    requires Growing(log, run)
  {
    run == [] ||
    (NoneEverDropped(log, run[..|run| - 1]) &&
     NoneDropped(run[|run| - 1].policy, Unbounded(log, StateAfter(log, run[..|run| - 1]), run[|run| - 1])))
  }

  lemma BoundedOnlyDrops(p: Policy, s: ContextState, id: string)
    requires HasId(Bounded(p, s).facts[PENDING_APPROVALS], id)
    ensures HasId(s.facts[PENDING_APPROVALS], id)
  {
    var n := BoundedSpec(p, s);
    var kept := Bounded(p, s).facts[PENDING_APPROVALS];
    var i :| 0 <= i < |kept| && kept[i].id == id;
    assert kept[i] in kept;
    var g :| g in s.facts[PENDING_APPROVALS] && kept[i] == Cut(g, p.summaryFactMaxChars);
  }

  /**
   Over any run of compactions the pending-approval facts are approvals that are open
   in the whole log so far, whatever the generator returned; and they are all of
   them as long as bounding never had to drop one.
   */
  lemma {:induction false} PendingFollowsLog(log: seq<Event>, run: seq<Compaction>)
    requires Numbered(log) && Growing(log, run)
    ensures Covered(run) <= |log|
    ensures OnlyOpen(StateAfter(log, run).facts[PENDING_APPROVALS], log, Covered(run))
    ensures NoneEverDropped(log, run) ==> AllOpen(StateAfter(log, run).facts[PENDING_APPROVALS], log, Covered(run))
  {
    if run != [] {
      var front, c := run[..|run| - 1], run[|run| - 1];
      PendingFollowsLog(log, front);
      CursorFollowsLog(log, front);
      var previous := StateAfter(log, front);
      CursorStep(log, previous, c);
      StepFollowsLog(log, previous, c, Covered(front));
    }
  }

  lemma StepFollowsLog(log: seq<Event>, previous: ContextState, c: Compaction, n: nat)
    requires n <= c.logLength <= |log| && Delta(log, previous, c) == log[n..c.logLength]
    requires OnlyOpen(previous.facts[PENDING_APPROVALS], log, n)
    ensures var s := Unbounded(log, previous, c);
            && OnlyOpen(Bounded(c.policy, s).facts[PENDING_APPROVALS], log, c.logLength)
            && (AllOpen(previous.facts[PENDING_APPROVALS], log, n) && NoneDropped(c.policy, s) ==>
                AllOpen(Bounded(c.policy, s).facts[PENDING_APPROVALS], log, c.logLength))
  {
    var prior, dict := previous.facts[PENDING_APPROVALS], ToDictionary(previous.facts[PENDING_APPROVALS]);
    var s := Unbounded(log, previous, c);
    var pending := ProjectAll(dict, log[n..c.logLength]);
    forall id ensures HasId(dict, id) <==> HasId(prior, id) {
      ToDictionaryIds(prior, id);
    }
    ProjectFollowsLog(dict, log, n, c.logLength);
    forall id
      ensures HasId(s.facts[PENDING_APPROVALS], id) <==> HasId(pending, id)
      ensures HasId(Bounded(c.policy, s).facts[PENDING_APPROVALS], id) ==> HasId(s.facts[PENDING_APPROVALS], id)
    {
      SortIds(pending, id);
      if HasId(Bounded(c.policy, s).facts[PENDING_APPROVALS], id) {
        BoundedOnlyDrops(c.policy, s, id);
      }
    }
  }
}
