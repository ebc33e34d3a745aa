/** Folding numbered events with a reducer that ignores old numbers and refuses gaps. */
module EventFold {
  import opened Wrappers
  import opened Sorting

  function FoldAll<P, E, X>(append: (P, E) -> Result<P, X>, p: P, events: seq<E>): Result<P, X>
    decreases |events|
  {
    if events == [] then Ok(p)
    else var next := append(p, events[0]); if next.Err? then next else FoldAll(append, next.value, events[1..])
  }

  /** The numbers of the events that are not skipped. */
  function Numbers<E>(events: seq<E>, key: E -> int, skip: E -> bool): set<int> {
    set i | 0 <= i < |events| && !skip(events[i]) :: key(events[i])
  }

  /** No number between `k` and a given one is missing. */
  ghost predicate Contiguous(k: int, numbers: set<int>) {
    forall i, j :: j in numbers && k < i <= j ==> i in numbers
  }

  ghost predicate IsTop(k: int, numbers: set<int>, m: int) {
    (m == k || m in numbers) && k <= m && forall j :: j in numbers ==> j <= m
  }

  /** What the reducer does with `e` when it stands at `of(j)`: keep, advance by one, or refuse. */
  ghost predicate StepsFrom<P, E, X>(append: (P, E) -> Result<P, X>, key: E -> int, skip: E -> bool, of: nat -> P,
                                     gap: X, j: nat, e: E) {
    append(of(j), e) ==
      if skip(e) || key(e) <= j then Ok(of(j)) else if key(e) == j + 1 then Ok(of(j + 1)) else Err(gap)
  }

  lemma NumbersOfCons<E>(events: seq<E>, key: E -> int, skip: E -> bool)
    requires events != []
    ensures Numbers(events, key, skip)
            == (if skip(events[0]) then {} else {key(events[0])}) + Numbers(events[1..], key, skip)
  {
    var all, rest := Numbers(events, key, skip), Numbers(events[1..], key, skip);
    forall x | x in all ensures x in (if skip(events[0]) then {} else {key(events[0])}) + rest {
      var i :| 0 <= i < |events| && !skip(events[i]) && key(events[i]) == x;
      assert i == 0 || events[i] == events[1..][i - 1];
    }
    forall x | x in rest ensures x in all {
      var i :| 0 <= i < |events[1..]| && !skip(events[1..][i]) && key(events[1..][i]) == x;
      assert events[1..][i] == events[i + 1];
    }
  }

  lemma SkipStep(k: int, numbers: set<int>, rest: set<int>, m: int)
    requires rest <= numbers && (forall j :: j in numbers ==> j in rest || j <= k) && IsTop(k, rest, m)
    ensures (Contiguous(k, numbers) <==> Contiguous(k, rest)) && IsTop(k, numbers, m)
  {
    if Contiguous(k, numbers) {
      forall i, j | j in rest && k < i <= j ensures i in rest {
        assert j in numbers && i in numbers;
      }
    }
  }

  lemma AdvanceStep(k: int, numbers: set<int>, rest: set<int>, m: int)
    requires numbers == {k + 1} + rest && IsTop(k + 1, rest, m)
    ensures (Contiguous(k, numbers) <==> Contiguous(k + 1, rest)) && IsTop(k, numbers, m)
  {
    if Contiguous(k, numbers) {
      forall i, j | j in rest && k + 1 < i <= j ensures i in rest {
        assert j in numbers && k < i <= j && i in numbers;
      }
    }
    if Contiguous(k + 1, rest) {
      forall i, j | j in numbers && k < i <= j ensures i in numbers {
        assert i == k + 1 || (j in rest && i in rest);
      }
    }
  }

  /** The first of the sorted events jumps ahead. */
  lemma GapStep<E>(k: int, events: seq<E>, key: E -> int, skip: E -> bool)
    requires events != [] && SortedBy(events, key) && !skip(events[0]) && key(events[0]) > k + 1
    ensures !Contiguous(k, Numbers(events, key, skip))
  {
    var numbers := Numbers(events, key, skip);
    forall j | j in numbers ensures key(events[0]) <= j {
      var i :| 0 <= i < |events| && !skip(events[i]) && key(events[i]) == j;
    }
    assert key(events[0]) in numbers && k + 1 !in numbers;
  }

  lemma {:induction false} TopExists<E>(n: nat, k: nat, events: seq<E>, key: E -> int, skip: E -> bool) returns (m: nat)
    requires k <= n && forall i :: 0 <= i < |events| ==> skip(events[i]) || key(events[i]) <= n
    ensures m <= n && IsTop(k, Numbers(events, key, skip), m)
    decreases |events|
  {
    if events == [] {
      m := k;
    } else {
      var top := TopExists(n, k, events[1..], key, skip);
      NumbersOfCons(events, key, skip);
      m := if !skip(events[0]) && key(events[0]) > top then key(events[0]) else top;
    }
  }

  lemma {:induction false} FoldSorted<P, E, X>(
    append: (P, E) -> Result<P, X>, key: E -> int, skip: E -> bool, of: nat -> P, gap: X,
    n: nat, k: nat, events: seq<E>) returns (m: nat)
    requires k <= n && SortedBy(events, key)
    requires forall i :: 0 <= i < |events| ==> skip(events[i]) || key(events[i]) <= n
    requires forall j: nat, e :: j <= n && e in events ==> StepsFrom(append, key, skip, of, gap, j, e)
    ensures m <= n && IsTop(k, Numbers(events, key, skip), m)
    ensures FoldAll(append, of(k), events) == if Contiguous(k, Numbers(events, key, skip)) then Ok(of(m)) else Err(gap)
    decreases |events|
  {
    if events == [] {
      m := k;
    } else {
      var e, rest := events[0], events[1..];
      assert StepsFrom(append, key, skip, of, gap, k, e);
      NumbersOfCons(events, key, skip);
      if skip(e) || key(e) <= k {
        m := FoldSorted(append, key, skip, of, gap, n, k, rest);
        SkipStep(k, Numbers(events, key, skip), Numbers(rest, key, skip), m);
      } else if key(e) == k + 1 {
        m := FoldSorted(append, key, skip, of, gap, n, k + 1, rest);
        AdvanceStep(k, Numbers(events, key, skip), Numbers(rest, key, skip), m);
      } else {
        m := TopExists(n, k, events, key, skip);
        GapStep(k, events, key, skip);
      }
    }
  }

  lemma SortKeepsNumbers<E>(events: seq<E>, key: E -> int, skip: E -> bool)
    ensures Numbers(StableSort(events, key), key, skip) == Numbers(events, key, skip)
  {
    var sorted := StableSort(events, key);
    forall x ensures x in Numbers(sorted, key, skip) <==> x in Numbers(events, key, skip) {
      if x in Numbers(sorted, key, skip) {
        var i :| 0 <= i < |sorted| && !skip(sorted[i]) && key(sorted[i]) == x;
        SameMembers(events, key, sorted[i]);
        var j :| 0 <= j < |events| && events[j] == sorted[i];
      }
      if x in Numbers(events, key, skip) {
        var i :| 0 <= i < |events| && !skip(events[i]) && key(events[i]) == x;
        SameMembers(events, key, events[i]);
        var j :| 0 <= j < |sorted| && sorted[j] == events[i];
      }
    }
  }

  /** Sorting first makes the arrival order and duplicates irrelevant. */
  lemma FoldUnsorted<P, E, X>(append: (P, E) -> Result<P, X>, key: E -> int, skip: E -> bool, of: nat -> P, gap: X,
                              n: nat, k: nat, events: seq<E>) returns (m: nat)
    requires k <= n
    requires forall e :: e in events ==> skip(e) || key(e) <= n
    requires forall j: nat, e :: j <= n && e in events ==> StepsFrom(append, key, skip, of, gap, j, e)
    ensures m <= n && IsTop(k, Numbers(events, key, skip), m)
    ensures FoldAll(append, of(k), StableSort(events, key)) ==
            if Contiguous(k, Numbers(events, key, skip)) then Ok(of(m)) else Err(gap)
  {
    var sorted := StableSort(events, key);
    StableSortSpec(events, key);
    forall i | 0 <= i < |sorted| ensures skip(sorted[i]) || key(sorted[i]) <= n {
      SameMembers(events, key, sorted[i]);
    }
    forall j: nat, e | j <= n && e in sorted ensures StepsFrom(append, key, skip, of, gap, j, e) {
      SameMembers(events, key, e);
    }
    SortKeepsNumbers(events, key, skip);
    m := FoldSorted(append, key, skip, of, gap, n, k, sorted);
  }
}
