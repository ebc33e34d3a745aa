/** What the pending-approval facts say, over any run of compactions. */
module ContextFacts {
  import opened Wrappers
  import opened Sorting
  import opened Eviction
  import opened ContextRun

  /** Event `j` is the last of the first `n` about its approval, and requests it. */
  predicate IsLastRequest(log: seq<Event>, n: nat, j: nat)
    requires n <= |log|
  {
    && j < n && log[j].body.ApprovalRequested? && log[j].body.approvalId != ""
    && forall i :: j < i < n ==>
         !RequestedAt(log, i, log[j].body.approvalId) && !ClosedAt(log, i, log[j].body.approvalId)
  }

  /** A fact about the request in event `j`: its words, possibly cut at the end, and where they come from. */
  predicate Reports(f: Fact, e: Event) {
    && e.body.ApprovalRequested? && f.id == PendingId(e.body.approvalId) && f.text <= e.body.text
    && f.reason == Some("approval_event") && f.sourceMessageIds == [] && f.sourceEventSeqs == [e.sequence]
    && f.observedSeq == Some(e.sequence)
  }

  ghost predicate Current(f: Fact, log: seq<Event>, n: nat)
    requires n <= |log|
  {
    exists j :: 0 <= j < n && IsLastRequest(log, n, j) && Reports(f, log[j])
  }

  /** Every fact reports the last request of an approval that is still open. */
  ghost predicate AllCurrent(values: seq<Fact>, log: seq<Event>, n: nat)
    requires n <= |log|
  {
    forall i :: 0 <= i < |values| ==> Current(values[i], log, n)
  }

  // ---------- The dictionary ----------

  predicate DistinctIds(values: seq<Fact>) {
    forall i, j :: 0 <= i < j < |values| ==> values[i].id != values[j].id
  }

  lemma {:induction false} PutMembers(values: seq<Fact>, fact: Fact)
    requires DistinctIds(values)
    ensures DistinctIds(Put(values, fact))
    ensures forall f :: f in Put(values, fact) ==> f == fact || (f in values && f.id != fact.id)
  {
    if values != [] {
      assert values == [values[0]] + values[1..];
      if values[0].id != fact.id {
        var rest := Put(values[1..], fact);
        PutMembers(values[1..], fact);
        forall i | 0 <= i < |rest| ensures rest[i].id != values[0].id {
          assert rest[i] in rest;
        }
      }
    }
  }

  lemma {:induction false} PopMembers(values: seq<Fact>, id: string)
    requires DistinctIds(values)
    ensures DistinctIds(Pop(values, id)) && forall f :: f in Pop(values, id) ==> f in values && f.id != id
  {
    if values != [] {
      assert values == [values[0]] + values[1..];
      var rest := Pop(values[1..], id);
      PopMembers(values[1..], id);
      forall i | 0 <= i < |rest| ensures rest[i].id != values[0].id {
        assert rest[i] in rest;
      }
    }
  }

  lemma {:induction false} DictionaryMembers(facts: seq<Fact>)
    ensures DistinctIds(ToDictionary(facts)) && forall f :: f in ToDictionary(facts) ==> f in facts
  {
    if facts != [] {
      DictionaryMembers(facts[..|facts| - 1]);
      PutMembers(ToDictionary(facts[..|facts| - 1]), facts[|facts| - 1]);
    }
  }

  // ---------- One event ----------

  /** A fact whose approval the next event leaves alone is still current. */
  lemma StaysCurrent(f: Fact, log: seq<Event>, n: nat)
    requires n < |log| && Current(f, log, n)
    requires !log[n].body.Unrelated? && log[n].body.approvalId != "" ==> f.id != PendingId(log[n].body.approvalId)
    ensures Current(f, log, n + 1)
  {
    var j :| 0 <= j < n && IsLastRequest(log, n, j) && Reports(f, log[j]);
    assert IsLastRequest(log, n + 1, j);
  }

  lemma ProjectOneKeepsCurrent(values: seq<Fact>, log: seq<Event>, n: nat)
    requires n < |log| && DistinctIds(values) && AllCurrent(values, log, n)
    ensures DistinctIds(ProjectOne(values, log[n])) && AllCurrent(ProjectOne(values, log[n]), log, n + 1)
  {
    var e, after := log[n], ProjectOne(values, log[n]);
    if e.body.ApprovalRequested? && e.body.approvalId != "" {
      PutMembers(values, ApprovalFact(e));
      assert IsLastRequest(log, n + 1, n) && Reports(ApprovalFact(e), log[n]);
    } else if e.body.ApprovalClosed? && e.body.approvalId != "" {
      PopMembers(values, PendingId(e.body.approvalId));
    }
    forall i | 0 <= i < |after| ensures Current(after[i], log, n + 1) {
      assert after[i] in after;
      if !(e.body.ApprovalRequested? && after[i] == ApprovalFact(e) && e.body.approvalId != "") {
        StaysCurrent(after[i], log, n);
      }
    }
  }

  lemma {:induction false} UpToKeepsCurrent(values: seq<Fact>, log: seq<Event>, a: nat, b: nat)
    requires a <= b <= |log| && DistinctIds(values) && AllCurrent(values, log, a)
    ensures DistinctIds(ProjectUpTo(values, log, a, b)) && AllCurrent(ProjectUpTo(values, log, a, b), log, b)
    decreases b
  {
    if a < b {
      UpToKeepsCurrent(values, log, a, b - 1);
      ProjectOneKeepsCurrent(ProjectUpTo(values, log, a, b - 1), log, b - 1);
    }
  }

  // ---------- One compaction ----------

  lemma MembersAreCurrent(some: seq<Fact>, all: seq<Fact>, log: seq<Event>, n: nat)
    requires n <= |log| && AllCurrent(all, log, n) && forall f :: f in some ==> f in all
    ensures AllCurrent(some, log, n)
  {
    forall i | 0 <= i < |some| ensures Current(some[i], log, n) {
      assert some[i] in all;
    }
  }

  lemma CutIsCurrent(f: Fact, maxChars: nat, log: seq<Event>, n: nat)
    requires n <= |log| && Current(f, log, n)
    ensures Current(Cut(f, maxChars), log, n)
  {
    var j :| 0 <= j < n && IsLastRequest(log, n, j) && Reports(f, log[j]);
    assert Reports(Cut(f, maxChars), log[j]);
  }

  lemma BoundedIsCurrent(p: Policy, s: ContextState, log: seq<Event>, n: nat)
    requires n <= |log| && AllCurrent(s.facts[PENDING_APPROVALS], log, n)
    ensures AllCurrent(Bounded(p, s).facts[PENDING_APPROVALS], log, n)
  {
    var m := BoundedSpec(p, s);
    var kept := Bounded(p, s).facts[PENDING_APPROVALS];
    forall i | 0 <= i < |kept| ensures Current(kept[i], log, n) {
      assert kept[i] in kept;
      var g :| g in s.facts[PENDING_APPROVALS] && kept[i] == Cut(g, p.summaryFactMaxChars);
      CutIsCurrent(g, p.summaryFactMaxChars, log, n);
    }
  }

  lemma StepKeepsCurrent(log: seq<Event>, previous: ContextState, c: Compaction, n: nat)
    requires n <= c.logLength <= |log| && Delta(log, previous, c) == log[n..c.logLength]
    requires AllCurrent(previous.facts[PENDING_APPROVALS], log, n)
    ensures AllCurrent(CompactOnce(log, previous, c).facts[PENDING_APPROVALS], log, c.logLength)
  {
    var prior, dict := previous.facts[PENDING_APPROVALS], ToDictionary(previous.facts[PENDING_APPROVALS]);
    var pending := ProjectAll(dict, log[n..c.logLength]);
    DictionaryMembers(prior);
    MembersAreCurrent(dict, prior, log, n);
    UpToKeepsCurrent(dict, log, n, c.logLength);
    ProjectSlice(dict, log, n, c.logLength);
    forall f | f in StableSort(pending, Recency) ensures f in pending {
      SameMembers(pending, Recency, f);
    }
    MembersAreCurrent(StableSort(pending, Recency), pending, log, c.logLength);
    BoundedIsCurrent(c.policy, Unbounded(log, previous, c), log, c.logLength);
  }

  /** After any run of compactions every pending approval is reported as it was last requested, and is still open. */
  lemma {:induction false} PendingFactsAreCurrent(log: seq<Event>, run: seq<Compaction>)
    requires Numbered(log) && Growing(log, run)
    ensures Covered(run) <= |log| && AllCurrent(StateAfter(log, run).facts[PENDING_APPROVALS], log, Covered(run))
  {
    if run != [] {
      var front, c := run[..|run| - 1], run[|run| - 1];
      PendingFactsAreCurrent(log, front);
      CursorFollowsLog(log, front);
      CursorStep(log, StateAfter(log, front), c);
      StepKeepsCurrent(log, StateAfter(log, front), c, Covered(front));
    }
  }
}
