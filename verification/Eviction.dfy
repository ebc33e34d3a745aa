/**
 Bounding a cumulative context state: clip every field, then evict facts one by
 one, cheapest tier first, until the serialized state fits. The loop is proved
 equal to "sort all facts once and drop the shortest prefix that makes it fit".
 */
module Eviction {
  import opened Wrappers
  import opened Sorting

  datatype Fact = Fact(
    id: string, text: string, reason: Option<string>, sourceMessageIds: seq<string>,
    sourceEventSeqs: seq<int>, observedSeq: Option<int>)

  function MaxOf(seqs: seq<int>, default: int): int {
    if seqs == [] then default
    else if |seqs| == 1 then seqs[0]
    else var rest := MaxOf(seqs[1..], default); if seqs[0] >= rest then seqs[0] else rest
  }

  function Recency(fact: Fact): int {
    if fact.observedSeq.Some? then fact.observedSeq.value else MaxOf(fact.sourceEventSeqs, -1)
  }

  /** When a fact was observed, else the newest event it cites, else never. */
  lemma RecencySpec(fact: Fact)
    ensures fact.observedSeq.Some? ==> Recency(fact) == fact.observedSeq.value
    ensures fact.observedSeq.None? && fact.sourceEventSeqs == [] ==> Recency(fact) == -1
    ensures fact.observedSeq.None? && fact.sourceEventSeqs != [] ==>
              Recency(fact) in fact.sourceEventSeqs && forall n :: n in fact.sourceEventSeqs ==> n <= Recency(fact)
  {
    if fact.sourceEventSeqs != [] {
      MaxOfSpec(fact.sourceEventSeqs, -1);
    }
  }

  lemma {:induction false} MaxOfSpec(seqs: seq<int>, default: int)
    requires seqs != []
    ensures MaxOf(seqs, default) in seqs && forall n :: n in seqs ==> n <= MaxOf(seqs, default)
  {
    if |seqs| > 1 {
      MaxOfSpec(seqs[1..], default);
      assert seqs == [seqs[0]] + seqs[1..];
    }
  }

  // The ten fact fields in eviction order: failures, verified, files, subagents,
  // skills | constraints, decisions, open_questions, next_steps | pending_approvals.
  const FIELDS: nat := 10
  const SUBAGENTS: nat := 3
  const PENDING_APPROVALS: nat := 9

  function Tier(field: nat): nat {
    if field < 5 then 0 else if field < 9 then 1 else 2
  }

  type Facts = f: seq<seq<Fact>> | |f| == FIELDS witness seq(FIELDS, i => [])

  datatype ContextState = ContextState(
    strategy: string, objective: string, artifacts: seq<string>, sourceMessageIds: seq<string>,
    sourceEventSeqs: seq<int>, previousCompactionId: Option<string>, eventCursor: nat,
    omittedMessageCount: nat, facts: Facts)

  /** `size` stands for the token estimate of the JSON text; nothing is assumed about it. */
  datatype Policy = Policy(summaryMaxTokens: nat, summaryFactMaxChars: nat, size: ContextState -> nat) {
    predicate Fits(s: ContextState) {
      size(s) <= summaryMaxTokens
    }
  }

  const MAX_FACTS_PER_FIELD: nat := 64
  const MAX_SOURCES: nat := 128

  function First<T>(s: seq<T>, n: nat): seq<T> {
    if |s| <= n then s else s[..n]
  }

  function Last<T>(s: seq<T>, n: nat): seq<T> {
    if |s| <= n then s else s[|s| - n..]
  }

  // ---------- Clipping ----------

  function Cut(fact: Fact, maxChars: nat): Fact {
    fact.(text := First(fact.text, maxChars))
  }

  function CutAll(facts: seq<Fact>, maxChars: nat): seq<Fact> {
    seq(|facts|, i requires 0 <= i < |facts| => Cut(facts[i], maxChars))
  }

  function ClipField(facts: seq<Fact>, maxChars: nat): seq<Fact> {
    Last(StableSort(CutAll(facts, maxChars), Recency), MAX_FACTS_PER_FIELD)
  }

  function Clip(s: ContextState, maxChars: nat): ContextState {
    s.(objective := First(s.objective, maxChars),
       sourceMessageIds := Last(s.sourceMessageIds, MAX_SOURCES),
       sourceEventSeqs := Last(s.sourceEventSeqs, MAX_SOURCES),
       facts := seq(FIELDS, i requires 0 <= i < FIELDS => ClipField(s.facts[i], maxChars)))
  }

  // ---------- The simple specification ----------

  /** One fact of a state: its field and its position there. */
  datatype Slot = Slot(field: nat, pos: nat)

  predicate Holds(s: ContextState, x: Slot) {
    x.field < FIELDS && x.pos < |s.facts[x.field]|
  }

  /** Eviction priority: tier, then recency, then field, then position. */
  predicate Before(s: ContextState, x: Slot, y: Slot)
    requires Holds(s, x) && Holds(s, y)
  {
    var rx, ry := Recency(s.facts[x.field][x.pos]), Recency(s.facts[y.field][y.pos]);
    if Tier(x.field) != Tier(y.field) then Tier(x.field) < Tier(y.field)
    else if rx != ry then rx < ry
    else if x.field != y.field then x.field < y.field
    else x.pos < y.pos
  }

  ghost predicate IsEvictionOrder(s: ContextState, order: seq<Slot>) {
    && (forall x :: x in order <==> Holds(s, x))
    && (forall i, j :: 0 <= i < j < |order| ==> Before(s, order[i], order[j]))
  }

  function KeepFrom(facts: seq<Fact>, field: nat, pos: nat, dropped: set<Slot>): seq<Fact>
    requires pos <= |facts|
    decreases |facts| - pos
  {
    if pos == |facts| then []
    else (if Slot(field, pos) in dropped then [] else [facts[pos]]) + KeepFrom(facts, field, pos + 1, dropped)
  }

  function Without(s: ContextState, dropped: set<Slot>): ContextState {
    s.(facts := seq(FIELDS, i requires 0 <= i < FIELDS => KeepFrom(s.facts[i], i, 0, dropped)))
  }

  function ToSet(order: seq<Slot>): set<Slot> {
    set x | x in order
  }

  /** The least `k >= n` for which dropping the first `k` slots fits, or all of them. */
  function FitIndex(p: Policy, s: ContextState, order: seq<Slot>, n: nat): (k: nat)
    requires n <= |order|
    ensures n <= k <= |order|
    ensures forall m :: n <= m < k ==> !p.Fits(Without(s, ToSet(order[..m])))
    ensures k < |order| ==> p.Fits(Without(s, ToSet(order[..k])))
    decreases |order| - n
  {
    if n == |order| || p.Fits(Without(s, ToSet(order[..n]))) then n else FitIndex(p, s, order, n + 1)
  }

  ghost function EvictionOrder(s: ContextState): (order: seq<Slot>)
    ensures IsEvictionOrder(s, order)
  {
    EvictionOrderExists(s);
    var order :| IsEvictionOrder(s, order);
    order
  }

  /** Clip, sort all facts by eviction priority, drop the shortest prefix that fits. */
  ghost function Bounded(p: Policy, s: ContextState): ContextState {
    var c := Clip(s, p.summaryFactMaxChars);
    var order := EvictionOrder(c);
    Without(c, ToSet(order[..FitIndex(p, c, order, 0)]))
  }

  // ---------- An eviction order always exists ----------

  lemma {:induction false} LeastSlot(s: ContextState, xs: set<Slot>) returns (least: Slot)
    requires xs != {} && forall x :: x in xs ==> Holds(s, x)
    ensures least in xs && forall x :: x in xs && x != least ==> Before(s, least, x)
    decreases |xs|
  {
    var x :| x in xs;
    if xs == {x} {
      least := x;
    } else {
      var rest := xs - {x};
      assert xs == rest + {x};
      var y := LeastSlot(s, rest);
      least := if Before(s, x, y) then x else y;
      forall z | z in xs && z != least ensures Before(s, least, z) {
        if z != x && z != y {
          assert z in rest && Before(s, y, z);
        }
      }
    }
  }

  lemma {:induction false} SortSlots(s: ContextState, xs: set<Slot>) returns (order: seq<Slot>)
    requires forall x :: x in xs ==> Holds(s, x)
    ensures forall x :: x in order <==> x in xs
    ensures forall i, j :: 0 <= i < j < |order| ==> order[i] in xs && order[j] in xs && Before(s, order[i], order[j])
    decreases |xs|
  {
    if xs == {} {
      order := [];
    } else {
      var x := LeastSlot(s, xs);
      var rest := SortSlots(s, xs - {x});
      order := [x] + rest;
      forall i, j | 0 <= i < j < |order|
        ensures order[i] in xs && order[j] in xs && Before(s, order[i], order[j])
      {
        assert order[j] == rest[j - 1] && rest[j - 1] in rest;
        if i > 0 {
          assert order[i] == rest[i - 1] && rest[i - 1] in rest;
        }
      }
    }
  }

  lemma EvictionOrderExists(s: ContextState)
    ensures exists order :: IsEvictionOrder(s, order)
  {
    var slots := set i, j | 0 <= i < FIELDS && 0 <= j < |s.facts[i]| :: Slot(i, j);
    var order := SortSlots(s, slots);
    forall x ensures x in order <==> Holds(s, x) {
      assert Holds(s, x) <==> x in slots;
    }
    assert IsEvictionOrder(s, order);
  }

  // ---------- The loop ----------

  /** Position counts: the first `n[i]` facts of every field `i` have been evicted. */
  ghost predicate IsDrop(c: ContextState, b: ContextState, n: seq<nat>) {
    && |n| == FIELDS
    && (forall i :: 0 <= i < FIELDS ==> n[i] <= |c.facts[i]| && b.facts[i] == c.facts[i][n[i]..])
    && b == c.(facts := b.facts)
  }

  /** The evicted slots are exactly the first `k` of the order. */
  ghost predicate IsPrefix(c: ContextState, n: seq<nat>, order: seq<Slot>, k: nat)
    requires |n| == FIELDS
  {
    k <= |order| && forall x :: x in order[..k] <==> Holds(c, x) && x.pos < n[x.field]
  }

  ghost predicate FieldsSorted(c: ContextState) {
    forall i :: 0 <= i < FIELDS ==> SortedBy(c.facts[i], Recency)
  }

  /** Dropping a prefix of a field one slot at a time is dropping a slice. */
  lemma {:induction false} KeepSuffix(facts: seq<Fact>, field: nat, pos: nat, n: nat, dropped: set<Slot>)
    requires pos <= |facts| && n <= |facts|
    requires forall q :: 0 <= q < |facts| ==> (Slot(field, q) in dropped <==> q < n)
    ensures KeepFrom(facts, field, pos, dropped) == facts[if pos < n then n else pos..]
    decreases |facts| - pos
  {
    if pos < |facts| {
      KeepSuffix(facts, field, pos + 1, n, dropped);
    }
  }

  lemma DropIsWithout(c: ContextState, b: ContextState, n: seq<nat>, order: seq<Slot>, k: nat)
    requires IsDrop(c, b, n) && IsPrefix(c, n, order, k)
    ensures b == Without(c, ToSet(order[..k]))
  {
    forall i | 0 <= i < FIELDS ensures KeepFrom(c.facts[i], i, 0, ToSet(order[..k])) == b.facts[i] {
      forall q | 0 <= q < |c.facts[i]| ensures Slot(i, q) in ToSet(order[..k]) <==> q < n[i] {
        assert Holds(c, Slot(i, q));
      }
      KeepSuffix(c.facts[i], i, 0, n[i], ToSet(order[..k]));
    }
    assert Without(c, ToSet(order[..k])).facts == b.facts;
  }

  lemma OrderHasNoRepeats(c: ContextState, order: seq<Slot>, k: nat)
    requires IsEvictionOrder(c, order) && k < |order|
    ensures order[k] !in order[..k]
  {
    forall i | 0 <= i < k ensures order[i] != order[k] {
      assert Before(c, order[i], order[k]);
    }
  }

  /** The head of the chosen field is the next slot of the order. */
  lemma NextSlot(c: ContextState, b: ContextState, n: seq<nat>, order: seq<Slot>, k: nat, f: nat)
    requires FieldsSorted(c) && IsEvictionOrder(c, order) && IsDrop(c, b, n) && IsPrefix(c, n, order, k)
    requires f < FIELDS && n[f] < |c.facts[f]|
    requires forall i :: 0 <= i < FIELDS && i != f && n[i] < |c.facts[i]| ==> Before(c, Slot(f, n[f]), Slot(i, n[i]))
    ensures k < |order| && order[k] == Slot(f, n[f])
  {
    var e := Slot(f, n[f]);
    assert Holds(c, e) && e in order && e !in order[..k];
    assert order == order[..k] + order[k..];
    assert e in order[k..];
    var j :| 0 <= j < |order[k..]| && order[k..][j] == e;
    OrderHasNoRepeats(c, order, k);
    var x := order[k];
    assert x in order;
    var h := Slot(x.field, n[x.field]);
    assert h == x || Before(c, h, x);
    assert h == e || Before(c, e, h);
    assert order[k..][0] == x && order[k + j] == e;
  }

  /** If any slot of the order is left, some field still holds a fact. */
  lemma NotExhausted(c: ContextState, b: ContextState, n: seq<nat>, order: seq<Slot>, k: nat)
    requires IsEvictionOrder(c, order) && IsDrop(c, b, n) && IsPrefix(c, n, order, k)
    ensures k < |order| ==> exists i :: 0 <= i < FIELDS && b.facts[i] != []
  {
    if k < |order| {
      OrderHasNoRepeats(c, order, k);
      assert order[k] in order;
      assert b.facts[order[k].field] != [];
    }
  }

  /** One eviction advances the prefix by one. */
  lemma EvictStep(c: ContextState, b: ContextState, n: seq<nat>, order: seq<Slot>, k: nat, f: nat)
    requires FieldsSorted(c) && IsEvictionOrder(c, order) && IsDrop(c, b, n) && IsPrefix(c, n, order, k)
    requires f < FIELDS && b.facts[f] != []
    requires forall i :: 0 <= i < FIELDS && i != f && b.facts[i] != [] ==> Before(b, Slot(f, 0), Slot(i, 0))
    ensures var b' := b.(facts := b.facts[f := b.facts[f][1..]]); var n' := n[f := n[f] + 1];
            k < |order| && IsDrop(c, b', n') && IsPrefix(c, n', order, k + 1) && b' == Without(c, ToSet(order[..k + 1]))
  {
    forall i | 0 <= i < FIELDS && i != f && n[i] < |c.facts[i]| ensures Before(c, Slot(f, n[f]), Slot(i, n[i])) {
      assert Before(b, Slot(f, 0), Slot(i, 0));
    }
    NextSlot(c, b, n, order, k, f);
    var b' := b.(facts := b.facts[f := b.facts[f][1..]]);
    var n' := n[f := n[f] + 1];
    assert IsDrop(c, b', n');
    assert order[..k + 1] == order[..k] + [order[k]];
    assert order[k] in order;
    DropIsWithout(c, b', n', order, k + 1);
  }

  /** The candidate with the least (tier, recency, field), if any field still has a fact. */
  method Cheapest(b: ContextState) returns (best: Option<nat>)
    ensures best.None? <==> forall i :: 0 <= i < FIELDS ==> b.facts[i] == []
    ensures best.Some? ==> best.value < FIELDS && b.facts[best.value] != []
    ensures best.Some? ==> forall i :: 0 <= i < FIELDS && i != best.value && b.facts[i] != [] ==>
              Before(b, Slot(best.value, 0), Slot(i, 0))
  {
    best := None;
    for i := 0 to FIELDS
      invariant best.None? <==> forall j :: 0 <= j < i ==> b.facts[j] == []
      invariant best.Some? ==> best.value < i && b.facts[best.value] != []
      invariant best.Some? ==> forall j :: 0 <= j < i && j != best.value && b.facts[j] != [] ==>
                  Before(b, Slot(best.value, 0), Slot(j, 0))
    {
      if b.facts[i] != [] && (best.None? || !Before(b, Slot(best.value, 0), Slot(i, 0))) {
        best := Some(i);
      }
    }
  }

  lemma ClipSorts(s: ContextState, maxChars: nat)
    ensures FieldsSorted(Clip(s, maxChars))
  {
    forall i | 0 <= i < FIELDS ensures SortedBy(ClipField(s.facts[i], maxChars), Recency) {
      StableSortSpec(CutAll(s.facts[i], maxChars), Recency);
    }
  }

  method BoundState(p: Policy, s: ContextState) returns (b: ContextState)
    ensures b == Bounded(p, s)
  {
    b := Clip(s, p.summaryFactMaxChars);
    ghost var c := b;
    ghost var order := EvictionOrder(c);
    ghost var n: seq<nat> := seq(FIELDS, i => 0);
    ghost var k := 0;
    ClipSorts(s, p.summaryFactMaxChars);
    DropIsWithout(c, b, n, order, k);
    while !p.Fits(b)
      invariant IsDrop(c, b, n) && IsPrefix(c, n, order, k)
      invariant b == Without(c, ToSet(order[..k]))
      invariant FitIndex(p, c, order, 0) == FitIndex(p, c, order, k)
      decreases |order| - k
    {
      NotExhausted(c, b, n, order, k);
      var best := Cheapest(b);
      if best.None? {
        break;
      }
      var f := best.value;
      EvictStep(c, b, n, order, k, f);
      b := b.(facts := b.facts[f := b.facts[f][1..]]);
      n, k := n[f := n[f] + 1], k + 1;
    }
  }

  // ---------- What the result guarantees ----------

  lemma PrefixFollowsOrder(c: ContextState, order: seq<Slot>, k: nat, x: Slot, y: Slot)
    requires IsEvictionOrder(c, order) && k <= |order| && Holds(c, x) && Holds(c, y) && Before(c, x, y)
    ensures y in ToSet(order[..k]) ==> x in ToSet(order[..k])
  {
    if y in order[..k] {
      var j :| 0 <= j < k && order[j] == y;
      assert x in order;
      var i :| 0 <= i < |order| && order[i] == x;
      assert i < j;
      assert order[..k][i] == x;
    }
  }

  /** A fact is never lost while one that ranks before it (a cheaper tier, or an older fact of its tier) is kept. */
  lemma EvictionFollowsPriority(p: Policy, s: ContextState, x: Slot, y: Slot)
    requires var c := Clip(s, p.summaryFactMaxChars); Holds(c, x) && Holds(c, y) && Before(c, x, y)
    ensures var c := Clip(s, p.summaryFactMaxChars);
            var order := EvictionOrder(c);
            var dropped := ToSet(order[..FitIndex(p, c, order, 0)]);
            Bounded(p, s) == Without(c, dropped) && (y in dropped ==> x in dropped)
  {
    var c := Clip(s, p.summaryFactMaxChars);
    var order := EvictionOrder(c);
    PrefixFollowsOrder(c, order, FitIndex(p, c, order, 0), x, y);
  }

  ghost predicate NoFacts(s: ContextState) {
    forall i :: 0 <= i < FIELDS ==> s.facts[i] == []
  }

  /** Everything the clip establishes. */
  ghost predicate Clipped(s: ContextState, maxChars: nat) {
    && |s.objective| <= maxChars && |s.sourceMessageIds| <= MAX_SOURCES && |s.sourceEventSeqs| <= MAX_SOURCES
    && forall i :: 0 <= i < FIELDS ==> FieldClipped(s.facts[i], maxChars)
  }

  ghost predicate FieldClipped(facts: seq<Fact>, maxChars: nat) {
    && |facts| <= MAX_FACTS_PER_FIELD && SortedBy(facts, Recency)
    && forall j :: 0 <= j < |facts| ==> |facts[j].text| <= maxChars
  }

  lemma ClipFieldClips(facts: seq<Fact>, maxChars: nat)
    ensures FieldClipped(ClipField(facts, maxChars), maxChars)
    ensures forall f :: f in ClipField(facts, maxChars) ==> exists g :: g in facts && f == Cut(g, maxChars)
  {
    var all := CutAll(facts, maxChars);
    var sorted := StableSort(all, Recency);
    StableSortSpec(all, Recency);
    forall f | f in ClipField(facts, maxChars) ensures exists g :: g in facts && f == Cut(g, maxChars) {
      assert f in sorted;
      SameMembers(all, Recency, f);
      var i :| 0 <= i < |all| && all[i] == f;
      assert facts[i] in facts;
    }
    forall j | 0 <= j < |ClipField(facts, maxChars)| ensures |ClipField(facts, maxChars)[j].text| <= maxChars {
      assert ClipField(facts, maxChars)[j] in ClipField(facts, maxChars);
    }
  }

  lemma ClipIsIdentity(s: ContextState, maxChars: nat)
    requires Clipped(s, maxChars)
    ensures Clip(s, maxChars) == s
  {
    forall i | 0 <= i < FIELDS ensures ClipField(s.facts[i], maxChars) == s.facts[i] {
      assert CutAll(s.facts[i], maxChars) == s.facts[i];
      SortingSortedIsIdentity(s.facts[i], Recency);
    }
    assert Clip(s, maxChars).facts == s.facts;
  }

  lemma SameField(c: ContextState, x: Slot, y: Slot)
    requires FieldsSorted(c) && Holds(c, x) && Holds(c, y) && x.field == y.field && x.pos <= y.pos
    ensures x == y || Before(c, x, y)
  {
  }

  lemma NextOfField(c: ContextState, m: seq<nat>, order: seq<Slot>, k: nat)
    requires FieldsSorted(c) && IsEvictionOrder(c, order) && k < |order|
    requires |m| == FIELDS && IsPrefix(c, m, order, k)
    ensures Holds(c, order[k]) && order[k].pos == m[order[k].field]
  {
    var e := order[k];
    assert e in order;
    OrderHasNoRepeats(c, order, k);
    var h := Slot(e.field, m[e.field]);
    SameField(c, h, e);
    assert h in order && h !in order[..k];
    assert order == order[..k] + order[k..];
    var j :| 0 <= j < |order[k..]| && order[k..][j] == h;
    assert order[k + j] == h;
  }

  lemma NextPrefix(c: ContextState, m: seq<nat>, order: seq<Slot>, k: nat)
    requires FieldsSorted(c) && IsEvictionOrder(c, order) && k < |order|
    requires |m| == FIELDS && (forall i :: 0 <= i < FIELDS ==> m[i] <= |c.facts[i]|) && IsPrefix(c, m, order, k)
    ensures var e := order[k]; Holds(c, e) && IsPrefix(c, m[e.field := e.pos + 1], order, k + 1)
  {
    NextOfField(c, m, order, k);
    assert order[..k + 1] == order[..k] + [order[k]];
  }

  /** Dropping any prefix of the order leaves a suffix of every field. */
  lemma {:induction false} PrefixLeavesSuffixes(c: ContextState, order: seq<Slot>, k: nat) returns (n: seq<nat>)
    requires FieldsSorted(c) && IsEvictionOrder(c, order) && k <= |order|
    ensures IsDrop(c, Without(c, ToSet(order[..k])), n) && IsPrefix(c, n, order, k)
  {
    if k == 0 {
      n := seq(FIELDS, i => 0);
      DropIsWithout(c, c, n, order, 0);
    } else {
      var m := PrefixLeavesSuffixes(c, order, k - 1);
      NextPrefix(c, m, order, k - 1);
      n := m[order[k - 1].field := order[k - 1].pos + 1];
      var b := c.(facts := seq(FIELDS, i requires 0 <= i < FIELDS => c.facts[i][n[i]..]));
      DropIsWithout(c, b, n, order, k);
    }
  }

  /** The bounded state is clipped, and it fits or holds no fact at all. */
  lemma BoundedSpec(p: Policy, s: ContextState) returns (n: seq<nat>)
    ensures IsDrop(Clip(s, p.summaryFactMaxChars), Bounded(p, s), n)
    ensures Clipped(Bounded(p, s), p.summaryFactMaxChars)
    ensures p.size(Bounded(p, s)) <= p.summaryMaxTokens || NoFacts(Bounded(p, s))
    ensures forall i, f :: 0 <= i < FIELDS && f in Bounded(p, s).facts[i] ==>
              exists g :: g in s.facts[i] && f == Cut(g, p.summaryFactMaxChars)
  {
    var c := Clip(s, p.summaryFactMaxChars);
    var order := EvictionOrder(c);
    var k := FitIndex(p, c, order, 0);
    ClipSorts(s, p.summaryFactMaxChars);
    n := PrefixLeavesSuffixes(c, order, k);
    var b := Bounded(p, s);
    assert order[..|order|] == order;
    forall i | 0 <= i < FIELDS
      ensures FieldClipped(b.facts[i], p.summaryFactMaxChars)
      ensures k == |order| ==> b.facts[i] == []
      ensures forall f :: f in b.facts[i] ==> exists g :: g in s.facts[i] && f == Cut(g, p.summaryFactMaxChars)
    {
      ClipFieldClips(s.facts[i], p.summaryFactMaxChars);
      assert b.facts[i] == c.facts[i][n[i]..];
      assert forall f :: f in b.facts[i] ==> f in c.facts[i];
      assert Holds(c, Slot(i, n[i])) <==> n[i] < |c.facts[i]|;
    }
  }

  /** Nothing is evicted needlessly: with any shorter prefix of the order gone the state is still too large. */
  lemma EvictionIsNeeded(p: Policy, s: ContextState) returns (order: seq<Slot>, k: nat)
    ensures var c := Clip(s, p.summaryFactMaxChars);
            && IsEvictionOrder(c, order) && k <= |order| && Bounded(p, s) == Without(c, ToSet(order[..k]))
            && forall m :: 0 <= m < k ==> p.size(Without(c, ToSet(order[..m]))) > p.summaryMaxTokens
  {
    var c := Clip(s, p.summaryFactMaxChars);
    order := EvictionOrder(c);
    k := FitIndex(p, c, order, 0);
    forall m | 0 <= m < k ensures p.size(Without(c, ToSet(order[..m]))) > p.summaryMaxTokens {
      assert !p.Fits(Without(c, ToSet(order[..m])));
    }
  }

  /** Besides the facts, only a few scalars are touched: the oldest sources go, and the objective is cut at its end. */
  lemma BoundedScalars(p: Policy, s: ContextState)
    ensures var b := Bounded(p, s);
            && b.objective <= s.objective && (|s.objective| <= p.summaryFactMaxChars ==> b.objective == s.objective)
            && (|s.objective| > p.summaryFactMaxChars ==> |b.objective| == p.summaryFactMaxChars)
            && IsTail(b.sourceMessageIds, s.sourceMessageIds, 128) && IsTail(b.sourceEventSeqs, s.sourceEventSeqs, 128)
            && b == s.(objective := b.objective, sourceMessageIds := b.sourceMessageIds,
                       sourceEventSeqs := b.sourceEventSeqs, facts := b.facts)
  {
  }

  /** `t` is the last `n` elements of `s`, or all of them. */
  predicate IsTail<T(==)>(t: seq<T>, s: seq<T>, n: nat) {
    |t| == (if |s| <= n then |s| else n) && t == s[|s| - |t|..]
  }

  /** Bounding a bounded state changes nothing. */
  lemma BoundingIsIdempotent(p: Policy, s: ContextState)
    ensures Bounded(p, Bounded(p, s)) == Bounded(p, s)
  {
    var b := Bounded(p, s);
    var n := BoundedSpec(p, s);
    ClipIsIdentity(b, p.summaryFactMaxChars);
    var order := EvictionOrder(b);
    DropIsWithout(b, b, seq(FIELDS, i => 0), order, 0);
    assert |order| > 0 ==> order[0] in order && Holds(b, order[0]);
  }
}
