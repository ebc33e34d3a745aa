/**
 The tier order over the facts that go in. The eviction loop respects it, but the limit
 of 64 facts per field, applied before the loop, does not look at tiers. This module says
 exactly for which states the order holds all the same.
 */
module EvictionTiers {
  import opened Wrappers
  import opened Sorting
  import opened Eviction

  /** The facts of field `i` with their texts cut, oldest first. */
  function Aged(s: ContextState, maxChars: nat, i: nat): seq<Fact>
    requires i < FIELDS
  {
    StableSort(CutAll(s.facts[i], maxChars), Recency)
  }

  /** A fact `f` of field `i` is to be given up before a fact `g` of field `j`. */
  predicate Ranks(i: nat, f: Fact, j: nat, g: Fact) {
    Tier(i) < Tier(j) || (Tier(i) == Tier(j) && Recency(f) < Recency(g))
  }

  /** Some copy of `g` that went into field `j` is missing from the result `b`. */
  predicate Lost(s: ContextState, maxChars: nat, b: ContextState, j: nat, g: Fact)
    requires j < FIELDS
  {
    multiset(b.facts[j])[g] < multiset(Aged(s, maxChars, j))[g]
  }

  /**
   Fields `i` and `j` agree with the order: nothing is lost from `j` while a fact of `i` that
   ranks before it stays.
   */
  ghost predicate Agree(s: ContextState, maxChars: nat, b: ContextState, i: nat, j: nat)
    requires i < FIELDS && j < FIELDS
  {
    forall f, g :: f in b.facts[i] && Lost(s, maxChars, b, j, g) ==> !Ranks(i, f, j, g)
  }

  /** No fact is lost while a fact that ranks before it is kept. */
  ghost predicate FollowsTiers(s: ContextState, maxChars: nat, b: ContextState) {
    forall i, j :: 0 <= i < FIELDS && 0 <= j < FIELDS ==> Agree(s, maxChars, b, i, j)
  }

  // ---------- What can be checked before the call ----------

  /** How many of the oldest facts of field `i` the limit removes. */
  function Excess(s: ContextState, i: nat): nat
    requires i < FIELDS
  {
    if |s.facts[i]| <= MAX_FACTS_PER_FIELD then 0 else |s.facts[i]| - MAX_FACTS_PER_FIELD
  }

  /** The clip of a field: its newest 64 facts, oldest first. */
  lemma AgedLength(s: ContextState, maxChars: nat, i: nat)
    requires i < FIELDS
    ensures |ClipField(s.facts[i], maxChars)| == if |s.facts[i]| <= 64 then |s.facts[i]| else 64
    ensures |Aged(s, maxChars, i)| == |s.facts[i]|
    ensures ClipField(s.facts[i], maxChars) == Aged(s, maxChars, i)[Excess(s, i)..]
    ensures SortedBy(Aged(s, maxChars, i), Recency)
  {
    SameLength(CutAll(s.facts[i], maxChars), Recency);
    StableSortSpec(CutAll(s.facts[i], maxChars), Recency);
  }

  /**
   If field `j` is over the limit and field `i` is not empty, then `i` has a later tier,
   or the same tier and its oldest kept fact is not older than the newest one `j` loses.
   */
  predicate LimitAgrees(s: ContextState, maxChars: nat, i: nat, j: nat)
    requires i < FIELDS && j < FIELDS
  {
    AgedLength(s, maxChars, i);
    AgedLength(s, maxChars, j);
    |s.facts[j]| <= MAX_FACTS_PER_FIELD || s.facts[i] == [] || Tier(i) > Tier(j)
    || (Tier(i) == Tier(j)
        && Recency(Aged(s, maxChars, i)[Excess(s, i)]) >= Recency(Aged(s, maxChars, j)[Excess(s, j) - 1]))
  }

  predicate LimitFollowsTiers(s: ContextState, maxChars: nat) {
    forall i, j :: 0 <= i < FIELDS && 0 <= j < FIELDS ==> LimitAgrees(s, maxChars, i, j)
  }

  // ---------- Where a lost fact was lost ----------

  lemma CountSplit(s: seq<Fact>, k: nat, g: Fact)
    requires k <= |s|
    ensures multiset(s)[g] == multiset(s[..k])[g] + multiset(s[k..])[g]
    ensures multiset(s[k..])[g] < multiset(s)[g] <==> g in s[..k]
  {
    assert s == s[..k] + s[k..];
    assert g in multiset(s[..k]) <==> g in s[..k];
  }

  /** What stays of a field is a suffix of its aged facts, so what is lost is in the prefix before it. */
  lemma LostIsOld(s: ContextState, maxChars: nat, b: ContextState, j: nat, n: nat, g: Fact)
    requires j < FIELDS && n <= |ClipField(s.facts[j], maxChars)|
    requires b.facts[j] == ClipField(s.facts[j], maxChars)[n..]
    ensures Excess(s, j) + n <= |Aged(s, maxChars, j)|
    ensures Lost(s, maxChars, b, j, g) <==> g in Aged(s, maxChars, j)[..Excess(s, j) + n]
  {
    AgedLength(s, maxChars, j);
    var k := Excess(s, j) + n;
    assert b.facts[j] == Aged(s, maxChars, j)[k..];
    CountSplit(Aged(s, maxChars, j), k, g);
  }

  // ---------- The limit keeps the order: then so does the result ----------

  /** Lost to the limit. */
  lemma LimitLossAgrees(s: ContextState, maxChars: nat, i: nat, f: Fact, j: nat, q: nat)
    requires i < FIELDS && j < FIELDS && LimitAgrees(s, maxChars, i, j)
    requires f in ClipField(s.facts[i], maxChars) && q < Excess(s, j) && q < |Aged(s, maxChars, j)|
    ensures !Ranks(i, f, j, Aged(s, maxChars, j)[q])
  {
    AgedLength(s, maxChars, i);
    AgedLength(s, maxChars, j);
    var a, d := Aged(s, maxChars, i), Aged(s, maxChars, j);
    var r :| 0 <= r < |a[Excess(s, i)..]| && a[Excess(s, i)..][r] == f;
    assert f == a[Excess(s, i) + r];
    assert Recency(a[Excess(s, i)]) <= Recency(f);
    assert Recency(d[q]) <= Recency(d[Excess(s, j) - 1]);
  }

  /** Lost to eviction. */
  lemma EvictionLossAgrees(c: ContextState, order: seq<Slot>, k: nat, n: seq<nat>, x: Slot, y: Slot)
    requires IsEvictionOrder(c, order) && |n| == FIELDS && IsPrefix(c, n, order, k)
    requires Holds(c, x) && Holds(c, y) && n[x.field] <= x.pos && y.pos < n[y.field]
    ensures !Ranks(x.field, c.facts[x.field][x.pos], y.field, c.facts[y.field][y.pos])
  {
    assert y in order[..k] && x !in order[..k];
    if Before(c, x, y) {
      PrefixFollowsOrder(c, order, k, x, y);
      assert false;
    }
  }

  /** A lost fact is among those the limit removed, or among those evicted from its field. */
  lemma LostWhere(s: ContextState, maxChars: nat, b: ContextState, n: seq<nat>, j: nat, g: Fact) returns (q: nat)
    requires j < FIELDS && IsDrop(Clip(s, maxChars), b, n) && Lost(s, maxChars, b, j, g)
    ensures q < |Aged(s, maxChars, j)| && Aged(s, maxChars, j)[q] == g && q < Excess(s, j) + n[j]
    ensures q < Excess(s, j) ||
            (q - Excess(s, j) < |Clip(s, maxChars).facts[j]| && Clip(s, maxChars).facts[j][q - Excess(s, j)] == g)
  {
    LostIsOld(s, maxChars, b, j, n[j], g);
    AgedLength(s, maxChars, j);
    q :| 0 <= q < Excess(s, j) + n[j] && Aged(s, maxChars, j)[q] == g;
  }

  lemma KeptWhere(c: ContextState, b: ContextState, n: seq<nat>, i: nat, f: Fact) returns (r: nat)
    requires i < FIELDS && IsDrop(c, b, n) && f in b.facts[i]
    ensures n[i] <= r < |c.facts[i]| && c.facts[i][r] == f
  {
    var m :| 0 <= m < |b.facts[i]| && b.facts[i][m] == f;
    r := n[i] + m;
  }

  lemma PairAgrees(s: ContextState, maxChars: nat, b: ContextState, order: seq<Slot>, k: nat, n: seq<nat>, i: nat,
                   j: nat)
    requires i < FIELDS && j < FIELDS && LimitAgrees(s, maxChars, i, j)
    requires IsEvictionOrder(Clip(s, maxChars), order)
    requires IsDrop(Clip(s, maxChars), b, n) && IsPrefix(Clip(s, maxChars), n, order, k)
    ensures Agree(s, maxChars, b, i, j)
  {
    forall f, g | f in b.facts[i] && Lost(s, maxChars, b, j, g) ensures !Ranks(i, f, j, g) {
      var q := LostWhere(s, maxChars, b, n, j, g);
      var r := KeptWhere(Clip(s, maxChars), b, n, i, f);
      if q < Excess(s, j) {
        LimitLossAgrees(s, maxChars, i, f, j, q);
      } else {
        EvictionLossAgrees(Clip(s, maxChars), order, k, n, Slot(i, r), Slot(j, q - Excess(s, j)));
      }
    }
  }

  lemma BoundedFollowsTiers(p: Policy, s: ContextState)
    requires LimitFollowsTiers(s, p.summaryFactMaxChars)
    ensures FollowsTiers(s, p.summaryFactMaxChars, Bounded(p, s))
  {
    var c := Clip(s, p.summaryFactMaxChars);
    var order := EvictionOrder(c);
    var k := FitIndex(p, c, order, 0);
    ClipSorts(s, p.summaryFactMaxChars);
    var n := PrefixLeavesSuffixes(c, order, k);
    forall i, j | 0 <= i < FIELDS && 0 <= j < FIELDS ensures Agree(s, p.summaryFactMaxChars, Bounded(p, s), i, j) {
      PairAgrees(s, p.summaryFactMaxChars, Bounded(p, s), order, k, n, i, j);
    }
  }

  // ---------- The limit breaks the order: then so does some result ----------

  /** When the clipped state already fits, nothing is evicted. */
  lemma FittingIsOnlyClipped(p: Policy, s: ContextState)
    requires p.Fits(Clip(s, p.summaryFactMaxChars))
    ensures Bounded(p, s) == Clip(s, p.summaryFactMaxChars)
  {
    var c := Clip(s, p.summaryFactMaxChars);
    DropIsWithout(c, c, seq(FIELDS, i => 0), EvictionOrder(c), 0);
  }

  lemma ClippedPairAgrees(s: ContextState, maxChars: nat, i: nat, j: nat)
    requires i < FIELDS && j < FIELDS && Agree(s, maxChars, Clip(s, maxChars), i, j)
    ensures LimitAgrees(s, maxChars, i, j)
  {
    AgedLength(s, maxChars, i);
    AgedLength(s, maxChars, j);
    if |s.facts[j]| > MAX_FACTS_PER_FIELD && s.facts[i] != [] {
      var a, d := Aged(s, maxChars, i), Aged(s, maxChars, j);
      var f, g := a[Excess(s, i)], d[Excess(s, j) - 1];
      assert f == ClipField(s.facts[i], maxChars)[0];
      assert g == d[..Excess(s, j)][Excess(s, j) - 1];
      LostIsOld(s, maxChars, Clip(s, maxChars), j, 0, g);
      assert !Ranks(i, f, j, g);
    }
  }

  /**
   For a given state the order holds under every size function and limit exactly when
   the limit of 64 facts per field agrees with it.
   */
  lemma TiersHoldIff(s: ContextState, maxChars: nat)
    ensures LimitFollowsTiers(s, maxChars) <==>
            forall p: Policy :: p.summaryFactMaxChars == maxChars ==> FollowsTiers(s, maxChars, Bounded(p, s))
  {
    if LimitFollowsTiers(s, maxChars) {
      forall p: Policy | p.summaryFactMaxChars == maxChars ensures FollowsTiers(s, maxChars, Bounded(p, s)) {
        BoundedFollowsTiers(p, s);
      }
    } else {
      var i, j :| 0 <= i < FIELDS && 0 <= j < FIELDS && !LimitAgrees(s, maxChars, i, j);
      var roomy := Policy(0, maxChars, _ => 0);
      FittingIsOnlyClipped(roomy, s);
      if FollowsTiers(s, maxChars, Bounded(roomy, s)) {
        ClippedPairAgrees(s, maxChars, i, j);
        assert false;
      }
    }
  }

  /** Field `i` of `b` holds every fact that went in, in some order. */
  predicate OnlyCut(s: ContextState, maxChars: nat, b: ContextState, i: nat)
    requires i < FIELDS
  {
    multiset(b.facts[i]) == multiset(CutAll(s.facts[i], maxChars))
  }

  /** With at most 64 facts in every field the clip only sorts and cuts, and the order always holds. */
  lemma SmallFieldsFollowTiers(p: Policy, s: ContextState)
    requires forall i :: 0 <= i < FIELDS ==> |s.facts[i]| <= MAX_FACTS_PER_FIELD
    ensures forall i :: 0 <= i < FIELDS ==> OnlyCut(s, p.summaryFactMaxChars, Clip(s, p.summaryFactMaxChars), i)
    ensures FollowsTiers(s, p.summaryFactMaxChars, Bounded(p, s))
  {
    forall i | 0 <= i < FIELDS
      ensures OnlyCut(s, p.summaryFactMaxChars, Clip(s, p.summaryFactMaxChars), i)
    {
      AgedLength(s, p.summaryFactMaxChars, i);
      StableSortSpec(CutAll(s.facts[i], p.summaryFactMaxChars), Recency);
    }
    BoundedFollowsTiers(p, s);
  }

  // ---------- The tiers field by field ----------

  /** Eviction took at least one fact of field `j`. */
  predicate Evicts(c: ContextState, b: ContextState, j: nat)
    requires j < FIELDS
  {
    |b.facts[j]| < |c.facts[j]|
  }

  /** What is left of each field `i` in the range is not older than what eviction took from any field `j` in it. */
  ghost predicate OldestFirst(c: ContextState, b: ContextState, low: nat, high: nat)
    requires low <= high <= FIELDS
  {
    forall i, j, r, q | low <= i < high && low <= j < high && 0 <= r < |b.facts[i]| &&
                        0 <= q < |c.facts[j]| - |b.facts[j]|
      :: Recency(b.facts[i][r]) >= Recency(c.facts[j][q])
  }

  lemma KeptAfterEvicted(c: ContextState, b: ContextState, order: seq<Slot>, k: nat, n: seq<nat>,
                         i: nat, r: nat, j: nat, q: nat)
    requires IsEvictionOrder(c, order) && IsDrop(c, b, n) && IsPrefix(c, n, order, k)
    requires i < FIELDS && j < FIELDS && r < |b.facts[i]| && q < |c.facts[j]| - |b.facts[j]|
    ensures n[i] + r < |c.facts[i]| && !Before(c, Slot(i, n[i] + r), Slot(j, q))
    ensures b.facts[i][r] == c.facts[i][n[i] + r]
  {
    var x, y := Slot(i, n[i] + r), Slot(j, q);
    assert Holds(c, x) && Holds(c, y);
    if Before(c, x, y) {
      PrefixFollowsOrder(c, order, k, x, y);
      assert false;
    }
  }

  /**
   Fields 0 to 4 hold what can be derived again, 5 to 8 what cannot, and 9 the pending
   approvals. A tier is touched only once everything before it is gone, and inside a tier
   the oldest facts go first, whatever their field.
   */
  lemma TiersFieldByField(p: Policy, s: ContextState)
    ensures var c, b := Clip(s, p.summaryFactMaxChars), Bounded(p, s);
            && (Evicts(c, b, 9) ==> forall i :: 0 <= i < 9 ==> b.facts[i] == [])
            && ((exists j :: 5 <= j < 9 && Evicts(c, b, j)) ==> forall i :: 0 <= i < 5 ==> b.facts[i] == [])
            && OldestFirst(c, b, 0, 5) && OldestFirst(c, b, 5, 9) && OldestFirst(c, b, 9, 10)
  {
    var c, b := Clip(s, p.summaryFactMaxChars), Bounded(p, s);
    var order := EvictionOrder(c);
    var k := FitIndex(p, c, order, 0);
    ClipSorts(s, p.summaryFactMaxChars);
    var n := PrefixLeavesSuffixes(c, order, k);
    TiersOfPrefix(c, b, order, k, n);
  }

  lemma TiersOfPrefix(c: ContextState, b: ContextState, order: seq<Slot>, k: nat, n: seq<nat>)
    requires IsEvictionOrder(c, order) && IsDrop(c, b, n) && IsPrefix(c, n, order, k)
    ensures Evicts(c, b, 9) ==> forall i :: 0 <= i < 9 ==> b.facts[i] == []
    ensures (exists j :: 5 <= j < 9 && Evicts(c, b, j)) ==> forall i :: 0 <= i < 5 ==> b.facts[i] == []
    ensures OldestFirst(c, b, 0, 5) && OldestFirst(c, b, 5, 9) && OldestFirst(c, b, 9, 10)
  {
    forall i, j, r, q | 0 <= i < FIELDS && 0 <= j < FIELDS && 0 <= r < |b.facts[i]| &&
                        0 <= q < |c.facts[j]| - |b.facts[j]|
      ensures (i < 5) == (j < 5) && (i < 9) == (j < 9) ==> Recency(b.facts[i][r]) >= Recency(c.facts[j][q])
    {
      KeptAfterEvicted(c, b, order, k, n, i, r, j, q);
    }
    forall i, j | 0 <= i < FIELDS && 0 <= j < FIELDS && Evicts(c, b, j) && (i < 5 <= j || i < 9 <= j)
      ensures b.facts[i] == []
    {
      EarlierTierIsGone(c, b, order, k, n, i, j);
    }
  }

  lemma EarlierTierIsGone(c: ContextState, b: ContextState, order: seq<Slot>, k: nat, n: seq<nat>, i: nat, j: nat)
    requires IsEvictionOrder(c, order) && IsDrop(c, b, n) && IsPrefix(c, n, order, k)
    requires i < FIELDS && j < FIELDS && Evicts(c, b, j) && (i < 5 <= j || i < 9 <= j)
    ensures b.facts[i] == []
  {
    if b.facts[i] != [] {
      KeptAfterEvicted(c, b, order, k, n, i, 0, j, 0);
      assert false;
    }
  }

  // ---------- A state on which the order fails ----------

  const FAILURES: nat := 0
  const CONSTRAINTS: nat := 5

  function Observed(seqNo: int): Fact {
    Fact("fact", "text", None, [], [], Some(seqNo))
  }

  /** One failure, and 65 later constraints. */
  function Crowded(empty: ContextState): ContextState {
    empty.(facts := [[Observed(0)], [], [], [], [], seq(65, i => Observed(1 + i)), [], [], [], []])
  }

  lemma AgedAlready(s: ContextState, maxChars: nat, i: nat)
    requires i < FIELDS && SortedBy(s.facts[i], Recency) && forall f :: f in s.facts[i] ==> |f.text| <= maxChars
    ensures Aged(s, maxChars, i) == s.facts[i]
    ensures ClipField(s.facts[i], maxChars) == s.facts[i][Excess(s, i)..]
  {
    assert CutAll(s.facts[i], maxChars) == s.facts[i];
    SortingSortedIsIdentity(s.facts[i], Recency);
  }

  lemma CrowdedClip(empty: ContextState, maxChars: nat)
    requires maxChars >= 4
    ensures var s := Crowded(empty);
            && ClipField(s.facts[FAILURES], maxChars) == s.facts[FAILURES]
            && ClipField(s.facts[CONSTRAINTS], maxChars) == s.facts[CONSTRAINTS][1..]
            && Lost(s, maxChars, Clip(s, maxChars), CONSTRAINTS, s.facts[CONSTRAINTS][0])
  {
    var s := Crowded(empty);
    AgedAlready(s, maxChars, FAILURES);
    AgedAlready(s, maxChars, CONSTRAINTS);
    LostIsOld(s, maxChars, Clip(s, maxChars), CONSTRAINTS, 0, s.facts[CONSTRAINTS][0]);
    assert s.facts[CONSTRAINTS][..1][0] == s.facts[CONSTRAINTS][0];
  }

  /** Nothing has to be evicted, yet a constraint is gone while the failure, of a cheaper tier, stays. */
  lemma LimitCanBreakTiers(p: Policy, empty: ContextState)
    requires p.summaryFactMaxChars >= 4 && p.Fits(Clip(Crowded(empty), p.summaryFactMaxChars))
    ensures var s := Crowded(empty);
            && Bounded(p, s).facts[FAILURES] == s.facts[FAILURES]
            && Bounded(p, s).facts[CONSTRAINTS] == s.facts[CONSTRAINTS][1..]
            && Ranks(FAILURES, s.facts[FAILURES][0], CONSTRAINTS, s.facts[CONSTRAINTS][0])
            && !FollowsTiers(s, p.summaryFactMaxChars, Bounded(p, s))
  {
    var s := Crowded(empty);
    FittingIsOnlyClipped(p, s);
    CrowdedClip(empty, p.summaryFactMaxChars);
    assert !Agree(s, p.summaryFactMaxChars, Bounded(p, s), FAILURES, CONSTRAINTS) by {
      assert s.facts[FAILURES][0] in Bounded(p, s).facts[FAILURES];
    }
  }
}
