/** Choosing what a compaction keeps: the initial tail, the shrinking loop and the summary chunks. */
module Compaction {
  import opened Wrappers
  import opened Messages
  import opened Grouping

  // Ratios are exact reals; the truncations to whole tokens are the source's.
  datatype Policy = Policy(targetRatio: real, tailRatio: real, recentTailMaxTokens: nat, summaryMaxTokens: nat)

  datatype Budget = Budget(inputCapacity: nat, toolSchemaTokens: nat)

  datatype Context = Context(messages: seq<Message>, systemPrompt: string, budget: Budget)

  function TargetTokens(ctx: Context, policy: Policy): int {
    (ctx.budget.inputCapacity as real * policy.targetRatio).Floor
  }

  function FixedTokens(ctx: Context): int {
    EstimateText(ctx.systemPrompt) + ctx.budget.toolSchemaTokens
  }

  function Min(a: int, b: int): int {
    if a <= b then a else b
  }

  function TailBudget(ctx: Context, policy: Policy): int {
    var reserve := policy.summaryMaxTokens * 4 / 3 + 8;
    var room := TargetTokens(ctx, policy) - FixedTokens(ctx) - reserve;
    Min(Min(TailShare(ctx, policy), policy.recentTailMaxTokens), if room < 0 then 0 else room)
  }

  function TailShare(ctx: Context, policy: Policy): int {
    (ctx.budget.inputCapacity as real * policy.tailRatio).Floor
  }

  /** The target is the largest whole number within its share of the capacity; likewise the tail's share. */
  lemma TargetSpec(ctx: Context, policy: Policy)
    ensures var target := TargetTokens(ctx, policy);
            target as real <= ctx.budget.inputCapacity as real * policy.targetRatio < (target + 1) as real
    ensures var share := TailShare(ctx, policy);
            share as real <= ctx.budget.inputCapacity as real * policy.tailRatio < (share + 1) as real
    ensures FixedTokens(ctx) == EstimateText(ctx.systemPrompt) + ctx.budget.toolSchemaTokens
  {
    FloorSpec(ctx.budget.inputCapacity as real * policy.targetRatio);
    FloorSpec(ctx.budget.inputCapacity as real * policy.tailRatio);
  }

  lemma FloorSpec(x: real)
    ensures x.Floor as real <= x < (x.Floor + 1) as real
  {
  }

  /**
   The largest tail that keeps within its own limits and, together with the prompt and the
   summary's allowance (inflated by a third, and one message frame), within the target; or
   no tail at all.
   */
  lemma TailBudgetSpec(ctx: Context, policy: Policy)
    requires TailShare(ctx, policy) >= 0
    ensures var budget := TailBudget(ctx, policy);
            var used := FixedTokens(ctx) + policy.summaryMaxTokens + policy.summaryMaxTokens / 3 + 8;
            && 0 <= budget <= policy.recentTailMaxTokens && budget <= TailShare(ctx, policy)
            && (budget > 0 ==> used + budget <= TargetTokens(ctx, policy))
            && (budget == policy.recentTailMaxTokens || budget == TailShare(ctx, policy)
                || used + budget + 1 > TargetTokens(ctx, policy))
  {
    ThirdMore(policy.summaryMaxTokens);
    var room := TargetTokens(ctx, policy) - FixedTokens(ctx) - (policy.summaryMaxTokens * 4 / 3 + 8);
    SmallestOf(TailShare(ctx, policy), policy.recentTailMaxTokens, room);
  }

  lemma ThirdMore(n: nat)
    ensures n * 4 / 3 == n + n / 3
  {
  }

  lemma SmallestOf(share: nat, most: nat, room: int)
    ensures var b := Min(Min(share, most), if room < 0 then 0 else room);
            && 0 <= b <= most && b <= share && (b > 0 ==> b <= room)
            && (b == most || b == share || b + 1 > room)
  {
  }

  // ---------- The initial tail ----------

  ghost predicate Interval(s: set<nat>, lo: nat, hi: nat) {
    forall i :: i in s <==> lo <= i < hi
  }

  /** `start` begins the longest suffix of groups within the budget, or the last group alone. */
  ghost predicate IsTailStart(groups: seq<Group>, budget: int, start: nat) {
    && start < |groups|
    && (start == |groups| - 1 || EstimateSum(groups[start..]) <= budget)
    && forall k :: 0 <= k < start ==> EstimateSum(groups[k..]) > budget
  }

  lemma {:induction false} SuffixSums(groups: seq<Group>, k: nat, m: nat)
    requires k <= m <= |groups|
    ensures EstimateSum(groups[m..]) <= EstimateSum(groups[k..])
    decreases m - k
  {
    if k < m {
      SuffixSums(groups, k + 1, m);
      assert groups[k..][1..] == groups[k + 1..];
      CostNonNegative(groups[k]);
    }
  }

  method InitialTail(groups: seq<Group>, budget: int) returns (selected: set<nat>, ghost start: nat)
    ensures groups == [] ==> selected == {}
    ensures groups != [] ==> IsTailStart(groups, budget, start) && Interval(selected, start, |groups|)
  {
    selected := {};
    start := |groups|;
    var tokens := 0;
    var index := |groups|;
    while index > 0
      invariant 0 <= index == start <= |groups|
      invariant Interval(selected, start, |groups|)
      invariant tokens == EstimateSum(groups[start..])
      invariant start < |groups| - 1 ==> tokens <= budget
    {
      var groupTokens := EstimateMessagesTokens(groups[index - 1]);
      assert groups[index - 1..][1..] == groups[index..];
      assert start < |groups| ==> start in selected;
      if selected == {} || tokens + groupTokens <= budget {
        selected := selected + {index - 1};
        tokens := tokens + groupTokens;
        index, start := index - 1, start - 1;
      } else {
        break;
      }
    }
    if 0 < start < |groups| {
      forall k | 0 <= k < start ensures EstimateSum(groups[k..]) > budget {
        assert groups[start - 1..][1..] == groups[start..];
        SuffixSums(groups, k, start - 1);
      }
    }
  }

  // ---------- Previous summaries ----------

  function StateIds(messages: seq<Message>, isState: Message -> bool): seq<string> {
    if messages == [] then []
    else (if isState(messages[0]) then [messages[0].id] else []) + StateIds(messages[1..], isState)
  }

  /** The messages that are not earlier summaries (matched by id). */
  function Raw(messages: seq<Message>, stateIds: seq<string>): seq<Message> {
    if messages == [] then []
    else (if messages[0].id in stateIds then [] else [messages[0]]) + Raw(messages[1..], stateIds)
  }

  predicate DistinctIds(messages: seq<Message>) {
    forall i, j :: 0 <= i < j < |messages| ==> messages[i].id != messages[j].id
  }

  // ---------- The shrinking loop ----------

  /** Any generator: the summary of the n-th attempt may depend on everything, or fail over to a fallback. */
  type Summarizer = (nat, seq<Message>, seq<Message>) -> Message

  datatype Record = Record(summary: Message, omitted: seq<Message>, retained: seq<Message>,
                           replacedIds: seq<string>, retainedIds: seq<string>, afterTokens: int)

  datatype Error = ContextWindowExceeded

  function AfterTokens(ctx: Context, summary: Message, retained: seq<Message>): int {
    FixedTokens(ctx) + Estimate([summary] + retained)
  }

  /** The estimate when the groups before `k` are summarized, `first` being the first cut tried. */
  function CutTokens(ctx: Context, gen: Summarizer, groups: seq<Group>, first: nat, k: nat): int
    requires first <= k <= |groups|
  {
    var omitted, retained := Flatten(groups[..k]), Flatten(groups[k..]);
    AfterTokens(ctx, gen(k - first, omitted, retained), retained)
  }

  /** Cut `k` is acceptable: within the target, or the last group alone and within the capacity. */
  predicate Acceptable(ctx: Context, policy: Policy, gen: Summarizer, groups: seq<Group>, first: nat, k: nat)
    requires first <= k < |groups|
  {
    || CutTokens(ctx, gen, groups, first, k) <= TargetTokens(ctx, policy)
    || (k == |groups| - 1 && CutTokens(ctx, gen, groups, first, k) <= ctx.budget.inputCapacity)
  }

  /** The first cut tried: the initial tail, but something must always be summarized. */
  ghost predicate IsFirstCut(ctx: Context, policy: Policy, groups: seq<Group>, first: nat) {
    exists start: nat :: IsTailStart(groups, TailBudget(ctx, policy), start) && first == if start == 0 then 1 else start
  }

  ghost predicate RecordOf(ctx: Context, stateIds: seq<string>, gen: Summarizer, groups: seq<Group>, first: nat,
                           k: nat, r: Record)
    requires first <= k <= |groups|
  {
    && r.omitted == Flatten(groups[..k]) && r.retained == Flatten(groups[k..])
    && r.summary == gen(k - first, r.omitted, r.retained)
    && r.replacedIds == stateIds + Ids(r.omitted) && r.retainedIds == Ids(r.retained)
    && r.afterTokens == CutTokens(ctx, gen, groups, first, k)
  }

  /** The result is the first acceptable cut; it is an error exactly when there is none. */
  ghost predicate IsOutcome(ctx: Context, policy: Policy, stateIds: seq<string>, gen: Summarizer,
                            groups: seq<Group>, first: nat, r: Result<Record, Error>)
    requires first < |groups|
  {
    match r
    case Ok(rec) =>
      exists k :: first <= k < |groups| && Acceptable(ctx, policy, gen, groups, first, k)
        && RecordOf(ctx, stateIds, gen, groups, first, k, rec)
        && forall m :: first <= m < k ==> !Acceptable(ctx, policy, gen, groups, first, m)
    case Err(_) =>
      forall m :: first <= m < |groups| ==> !Acceptable(ctx, policy, gen, groups, first, m)
  }

  /** The messages of the groups whose index is in `wanted` (or not, if `keep` is false), in order. */
  function Gather(groups: seq<Group>, wanted: set<nat>, keep: bool, n: nat): seq<Message>
    requires n <= |groups|
  {
    if n == 0 then []
    else Gather(groups, wanted, keep, n - 1) + (if (n - 1 in wanted) == keep then groups[n - 1] else [])
  }

  lemma {:induction false} GatherKept(groups: seq<Group>, wanted: set<nat>, lo: nat, n: nat)
    requires lo <= n <= |groups| && Interval(wanted, lo, |groups|)
    ensures Gather(groups, wanted, true, n) == Flatten(groups[lo..n])
    decreases n
  {
    if n > lo {
      GatherKept(groups, wanted, lo, n - 1);
      FlattenPush(groups[lo..n - 1], groups[n - 1]);
      assert groups[lo..n] == groups[lo..n - 1] + [groups[n - 1]];
    } else if n > 0 {
      GatherNone(groups, wanted, lo, n);
    }
  }

  lemma {:induction false} GatherNone(groups: seq<Group>, wanted: set<nat>, lo: nat, n: nat)
    requires n <= lo <= |groups| && Interval(wanted, lo, |groups|)
    ensures Gather(groups, wanted, true, n) == [] && Gather(groups, wanted, false, n) == Flatten(groups[..n])
  {
    if n > 0 {
      GatherNone(groups, wanted, lo, n - 1);
      FlattenPush(groups[..n - 1], groups[n - 1]);
      assert groups[..n] == groups[..n - 1] + [groups[n - 1]];
    }
  }

  lemma {:induction false} GatherOmitted(groups: seq<Group>, wanted: set<nat>, lo: nat, n: nat)
    requires lo <= n <= |groups| && Interval(wanted, lo, |groups|)
    ensures Gather(groups, wanted, false, n) == Flatten(groups[..lo])
    decreases n
  {
    if n == lo {
      GatherNone(groups, wanted, lo, n);
    } else {
      GatherOmitted(groups, wanted, lo, n - 1);
    }
  }

  /** Gathering by an index interval is cutting the groups in two. */
  lemma GatherInterval(groups: seq<Group>, wanted: set<nat>, lo: nat)
    requires lo <= |groups| && Interval(wanted, lo, |groups|)
    ensures Gather(groups, wanted, true, |groups|) == Flatten(groups[lo..])
    ensures Gather(groups, wanted, false, |groups|) == Flatten(groups[..lo])
  {
    GatherKept(groups, wanted, lo, |groups|);
    GatherOmitted(groups, wanted, lo, |groups|);
    assert groups[lo..|groups|] == groups[lo..];
  }

  method RemoveLeast(s: set<nat>, ghost lo: nat, ghost hi: nat) returns (t: set<nat>)
    requires lo < hi && Interval(s, lo, hi)
    ensures Interval(t, lo + 1, hi)
  {
    var i := 0;
    while i !in s
      invariant i <= lo
      decreases lo - i
    {
      i := i + 1;
    }
    t := s - {i};
  }

  /**
   The outcome for given groups: refused with fewer than two, otherwise the first acceptable cut
   from the initial one on.
   */
  ghost predicate IsCompaction(ctx: Context, policy: Policy, stateIds: seq<string>, gen: Summarizer,
                               groups: seq<Group>, r: Result<Record, Error>)
  {
    if |groups| < 2 then r.Err?
    else exists first: nat :: 0 < first < |groups| && IsFirstCut(ctx, policy, groups, first)
           && IsOutcome(ctx, policy, stateIds, gen, groups, first, r)
  }

  method Compact(ctx: Context, policy: Policy, isState: Message -> bool, gen: Summarizer)
    returns (r: Result<Record, Error>)
    ensures exists groups :: IsGrouping(Raw(ctx.messages, StateIds(ctx.messages, isState)), groups)
              && IsCompaction(ctx, policy, StateIds(ctx.messages, isState), gen, groups, r)
  {
    var stateIds := StateIds(ctx.messages, isState);
    var groups := GroupToolExchanges(Raw(ctx.messages, stateIds));
    if |groups| < 2 {
      return Err(ContextWindowExceeded);
    }
    var kept, start := InitialTail(groups, TailBudget(ctx, policy));
    ghost var first := if start == 0 then 1 else start;
    IntervalSize(kept, start, |groups|);
    if |kept| == |groups| {
      kept := RemoveLeast(kept, start, |groups|);
    }
    r := Shrink(ctx, policy, stateIds, gen, groups, kept, first);
    assert IsFirstCut(ctx, policy, groups, first);
  }

  lemma {:induction false} IntervalSize(s: set<nat>, lo: nat, hi: nat)
    requires lo <= hi && Interval(s, lo, hi)
    ensures |s| == hi - lo
    decreases hi - lo
  {
    if lo == hi {
      assert s == {};
    } else {
      IntervalSize(s - {lo}, lo + 1, hi);
    }
  }

  /** One turn of the loop: the summary and the record for the kept groups. */
  method Attempt(ctx: Context, stateIds: seq<string>, gen: Summarizer, groups: seq<Group>, kept: set<nat>, attempt: nat,
                 ghost first: nat) returns (rec: Record)
    requires first + attempt < |groups| && Interval(kept, first + attempt, |groups|)
    ensures RecordOf(ctx, stateIds, gen, groups, first, first + attempt, rec)
  {
    var retained := Gather(groups, kept, true, |groups|);
    var omitted := Gather(groups, kept, false, |groups|);
    GatherInterval(groups, kept, first + attempt);
    var summary := gen(attempt, omitted, retained);
    rec := Record(summary, omitted, retained, stateIds + Ids(omitted), Ids(retained),
                  AfterTokens(ctx, summary, retained));
  }

  /** The loop itself: summarize, estimate, and give up the oldest kept group until the cut is acceptable. */
  method Shrink(ctx: Context, policy: Policy, stateIds: seq<string>, gen: Summarizer, groups: seq<Group>,
                initial: set<nat>, ghost first: nat) returns (r: Result<Record, Error>)
    requires first < |groups| && Interval(initial, first, |groups|)
    ensures IsOutcome(ctx, policy, stateIds, gen, groups, first, r)
  {
    var kept, attempt := initial, 0;
    ghost var k := first;
    var target := TargetTokens(ctx, policy);
    while true
      invariant first <= k < |groups| && Interval(kept, k, |groups|) && attempt == k - first
      invariant forall m :: first <= m < k ==> !Acceptable(ctx, policy, gen, groups, first, m)
      decreases |groups| - k
    {
      var rec := Attempt(ctx, stateIds, gen, groups, kept, attempt, first);
      IntervalSize(kept, k, |groups|);
      if rec.afterTokens <= target {
        return Ok(rec);
      }
      if |kept| == 1 {
        if rec.afterTokens <= ctx.budget.inputCapacity {
          return Ok(rec);
        }
        return Err(ContextWindowExceeded);
      }
      kept := RemoveLeast(kept, k, |groups|);
      attempt, k := attempt + 1, k + 1;
    }
  }

  // ---------- What every successful compaction guarantees ----------

  lemma {:induction false} StateIdsMembers(messages: seq<Message>, isState: Message -> bool, id: string)
    ensures id in StateIds(messages, isState) <==>
            exists i :: 0 <= i < |messages| && isState(messages[i]) && messages[i].id == id
  {
    if messages != [] {
      StateIdsMembers(messages[1..], isState, id);
      assert forall i :: 1 <= i < |messages| ==> messages[i] == messages[1..][i - 1];
      if id in StateIds(messages[1..], isState) {
        var i :| 0 <= i < |messages[1..]| && isState(messages[1..][i]) && messages[1..][i].id == id;
        assert messages[i + 1].id == id;
      }
    }
  }

  lemma {:induction false} RawSplitsIds(messages: seq<Message>, isState: Message -> bool, stateIds: seq<string>)
    requires forall i :: 0 <= i < |messages| ==> (messages[i].id in stateIds <==> isState(messages[i]))
    ensures multiset(StateIds(messages, isState)) + multiset(Ids(Raw(messages, stateIds))) == multiset(Ids(messages))
  {
    if messages != [] {
      RawSplitsIds(messages[1..], isState, stateIds);
      var id, raw := messages[0].id, Raw(messages[1..], stateIds);
      var states := StateIds(messages[1..], isState);
      if isState(messages[0]) {
        assert StateIds(messages, isState) == [id] + states && Raw(messages, stateIds) == [] + raw;
        assert [] + raw == raw;
      } else {
        assert StateIds(messages, isState) == [] + states && Raw(messages, stateIds) == [messages[0]] + raw;
        IdsCons(messages[0], raw);
      }
      assert Ids(messages) == [id] + Ids(messages[1..]);
      OneMoreId(id, states, Ids(raw));
    }
  }

  /** Putting an id in front of either part puts it into the whole. */
  lemma OneMoreId(id: string, a: seq<string>, b: seq<string>)
    ensures multiset([id] + a) + multiset(b) == multiset{id} + (multiset(a) + multiset(b))
    ensures multiset([] + a) + multiset([id] + b) == multiset{id} + (multiset(a) + multiset(b))
  {
    assert [] + a == a;
  }

  lemma IdsCons(first: Message, rest: seq<Message>)
    ensures Ids([first] + rest) == [first.id] + Ids(rest)
  {
    assert ([first] + rest)[1..] == rest;
  }

  lemma {:induction false} IdsConcat(a: seq<Message>, b: seq<Message>)
    ensures Ids(a + b) == Ids(a) + Ids(b)
  {
    if a == [] {
      assert a + b == b;
    } else {
      IdsConcat(a[1..], b);
      assert a + b == [a[0]] + (a[1..] + b);
      IdsCons(a[0], a[1..] + b);
    }
  }

  /** With distinct message ids, the replaced and the retained ids together are exactly the input's ids. */
  lemma IdsArePartitioned(messages: seq<Message>, isState: Message -> bool, omitted: seq<Message>,
                          retained: seq<Message>)
    requires DistinctIds(messages)
    requires omitted + retained == Raw(messages, StateIds(messages, isState))
    ensures multiset(StateIds(messages, isState) + Ids(omitted)) + multiset(Ids(retained)) == multiset(Ids(messages))
  {
    var stateIds := StateIds(messages, isState);
    forall i | 0 <= i < |messages| ensures messages[i].id in stateIds <==> isState(messages[i]) {
      StateIdsMembers(messages, isState, messages[i].id);
    }
    RawSplitsIds(messages, isState, stateIds);
    IdsConcat(omitted, retained);
  }

  lemma CutSplits(groups: seq<Group>, messages: seq<Message>, k: nat)
    requires IsGrouping(messages, groups) && 0 < k < |groups|
    ensures Flatten(groups[..k]) + Flatten(groups[k..]) == messages
    ensures Flatten(groups[..k]) != [] && Flatten(groups[k..]) != []
    ensures k == |groups| - 1 ==> Flatten(groups[k..]) == groups[k]
  {
    FlattenSplit(groups, k);
    assert IsGroup(groups[0], 0 == |groups| - 1) && groups[..k][0] == groups[0];
    assert IsGroup(groups[k], k == |groups| - 1) && groups[k..][0] == groups[k];
    if k == |groups| - 1 {
      assert groups[k..] == [groups[k]];
      assert Flatten(groups[k..]) == groups[k] + Flatten<Message>([]);
    }
  }

  /**
   Nothing is lost or reordered, whole groups are cut, something is always summarized
   and something always kept, and the estimate is within the limits.
   */
  lemma CompactionGuarantee(ctx: Context, policy: Policy, isState: Message -> bool, gen: Summarizer,
                            groups: seq<Group>, rec: Record)
    requires IsGrouping(Raw(ctx.messages, StateIds(ctx.messages, isState)), groups)
    requires IsCompaction(ctx, policy, StateIds(ctx.messages, isState), gen, groups, Ok(rec))
    ensures rec.omitted + rec.retained == Raw(ctx.messages, StateIds(ctx.messages, isState))
    ensures rec.omitted != [] && rec.retained != []
    ensures exists k :: 0 < k < |groups| && rec.omitted == Flatten(groups[..k]) && rec.retained == Flatten(groups[k..])
    ensures rec.afterTokens == EstimateText(ctx.systemPrompt) + ctx.budget.toolSchemaTokens
                               + Estimate([rec.summary] + rec.retained)
    ensures || rec.afterTokens <= TargetTokens(ctx, policy)
            || (rec.retained == groups[|groups| - 1] && rec.afterTokens <= ctx.budget.inputCapacity)
    ensures DistinctIds(ctx.messages) ==>
              multiset(rec.replacedIds) + multiset(rec.retainedIds) == multiset(Ids(ctx.messages))
  {
    var first: nat :| 0 < first < |groups| && IsFirstCut(ctx, policy, groups, first)
        && IsOutcome(ctx, policy, StateIds(ctx.messages, isState), gen, groups, first, Ok(rec));
    var k :| first <= k < |groups| && Acceptable(ctx, policy, gen, groups, first, k)
        && RecordOf(ctx, StateIds(ctx.messages, isState), gen, groups, first, k, rec);
    CutSplits(groups, Raw(ctx.messages, StateIds(ctx.messages, isState)), k);
    if DistinctIds(ctx.messages) {
      IdsArePartitioned(ctx.messages, isState, rec.omitted, rec.retained);
    }
  }

  /** No compaction keeps a call and summarizes away its first answer, or the other way round. */
  lemma CompactionKeepsExchanges(ctx: Context, policy: Policy, isState: Message -> bool, gen: Summarizer,
                                 groups: seq<Group>, rec: Record, i: nat, j: nat, call: string)
    requires var raw := Raw(ctx.messages, StateIds(ctx.messages, isState));
             && IsGrouping(raw, groups) && i < j < |raw|
             && call in Calls(raw[i]) && call in Results(raw[j])
             && forall k :: i <= k < j ==> call !in Results(raw[k])
    requires IsCompaction(ctx, policy, StateIds(ctx.messages, isState), gen, groups, Ok(rec))
    ensures i < |rec.omitted| <==> j < |rec.omitted|
  {
    CompactionGuarantee(ctx, policy, isState, gen, groups, rec);
    var k :| 0 < k < |groups| && rec.omitted == Flatten(groups[..k]) && rec.retained == Flatten(groups[k..]);
    BoundaryKeepsExchange(Raw(ctx.messages, StateIds(ctx.messages, isState)), groups, i, j, call, k);
  }

  /** The estimate of the `n`-th attempt from the first cut on: everything before group `first + n` is summarized. */
  function AttemptTokens(ctx: Context, gen: Summarizer, groups: seq<Group>, first: nat, n: nat): int
    requires first + n <= |groups|
  {
    var omitted, retained := Flatten(groups[..first + n]), Flatten(groups[first + n..]);
    EstimateText(ctx.systemPrompt) + ctx.budget.toolSchemaTokens + Estimate([gen(n, omitted, retained)] + retained)
  }

  /** Attempt `n` and all before it leave more than the target. */
  ghost predicate AllTooLarge(ctx: Context, policy: Policy, gen: Summarizer, groups: seq<Group>, first: nat, n: nat)
    requires first + n <= |groups|
  {
    forall m :: 0 <= m < n ==> AttemptTokens(ctx, gen, groups, first, m) > TargetTokens(ctx, policy)
  }

  /**
   No older group is given up too early: every attempt before the successful one left more
   than the target. And a refusal is justified: every attempt did, and the newest group
   alone does not even fit the capacity.
   */
  lemma CompactionIsEarliest(ctx: Context, policy: Policy, isState: Message -> bool, gen: Summarizer,
                             groups: seq<Group>, r: Result<Record, Error>) returns (first: nat, n: nat)
    requires IsCompaction(ctx, policy, StateIds(ctx.messages, isState), gen, groups, r) && |groups| >= 2
    ensures IsFirstCut(ctx, policy, groups, first) && first + n < |groups|
    ensures AllTooLarge(ctx, policy, gen, groups, first, n)
    ensures r.Ok? ==> r.value.omitted == Flatten(groups[..first + n])
    ensures r.Err? ==> first + n == |groups| - 1
    ensures r.Err? ==> AttemptTokens(ctx, gen, groups, first, n) > TargetTokens(ctx, policy)
    ensures r.Err? ==> AttemptTokens(ctx, gen, groups, first, n) > ctx.budget.inputCapacity
  {
    first :| 0 < first < |groups| && IsFirstCut(ctx, policy, groups, first)
      && IsOutcome(ctx, policy, StateIds(ctx.messages, isState), gen, groups, first, r);
    n := EarliestFrom(ctx, policy, StateIds(ctx.messages, isState), gen, groups, first, r);
  }

  lemma EarliestFrom(ctx: Context, policy: Policy, stateIds: seq<string>, gen: Summarizer, groups: seq<Group>,
                     first: nat, r: Result<Record, Error>) returns (n: nat)
    requires first < |groups| && IsOutcome(ctx, policy, stateIds, gen, groups, first, r)
    ensures first + n < |groups| && AllTooLarge(ctx, policy, gen, groups, first, n)
    ensures r.Ok? ==> r.value.omitted == Flatten(groups[..first + n])
    ensures r.Err? ==> first + n == |groups| - 1
    ensures r.Err? ==> AttemptTokens(ctx, gen, groups, first, n) > TargetTokens(ctx, policy)
    ensures r.Err? ==> AttemptTokens(ctx, gen, groups, first, n) > ctx.budget.inputCapacity
  {
    n := |groups| - 1 - first;
    if r.Ok? {
      var k :| first <= k < |groups| && Acceptable(ctx, policy, gen, groups, first, k)
          && RecordOf(ctx, stateIds, gen, groups, first, k, r.value)
          && forall m :: first <= m < k ==> !Acceptable(ctx, policy, gen, groups, first, m);
      n := k - first;
    }
    forall m: nat | m <= n && (r.Err? || m < n)
      ensures AttemptTokens(ctx, gen, groups, first, m) > TargetTokens(ctx, policy)
      ensures first + m == |groups| - 1 ==> AttemptTokens(ctx, gen, groups, first, m) > ctx.budget.inputCapacity
    {
      RefusedAttempt(ctx, policy, gen, groups, first, m);
    }
  }

  lemma RefusedAttempt(ctx: Context, policy: Policy, gen: Summarizer, groups: seq<Group>, first: nat, n: nat)
    requires first + n < |groups|
    ensures Acceptable(ctx, policy, gen, groups, first, first + n) <==>
            || AttemptTokens(ctx, gen, groups, first, n) <= TargetTokens(ctx, policy)
            || (first + n == |groups| - 1 && AttemptTokens(ctx, gen, groups, first, n) <= ctx.budget.inputCapacity)
  {
    assert CutTokens(ctx, gen, groups, first, first + n) == AttemptTokens(ctx, gen, groups, first, n);
  }

  // ---------- Chunks handed to the summary model ----------

  /**
   Greedy packing: each pack holds whole groups, is within the limit if it holds several, and
   could not take one more.
   */
  ghost predicate IsPacking(packs: seq<seq<Group>>, render: seq<Message> -> nat, maxChars: nat) {
    && (forall i :: 0 <= i < |packs| ==> packs[i] != [])
    && (forall i :: 0 <= i < |packs| && |packs[i]| >= 2 ==> render(Flatten(packs[i])) <= maxChars)
    && (forall i :: 0 <= i < |packs| - 1 ==> render(Flatten(packs[i]) + packs[i + 1][0]) > maxChars)
  }

  /** Chunk `i` is the text of pack `i`; an empty request stays one empty chunk. */
  ghost predicate IsChunking(messages: seq<Message>, chunks: seq<seq<Message>>, packs: seq<seq<Group>>) {
    && IsGrouping(messages, Flatten(packs))
    && if messages == [] then chunks == [[]] && packs == []
       else |chunks| == |packs| && forall i :: 0 <= i < |packs| ==> chunks[i] == Flatten(packs[i])
  }

  /** The chunks are the texts of such packs of the groups, in order. */
  ghost predicate PacksInto(groups: seq<Group>, chunks: seq<seq<Message>>, packs: seq<seq<Group>>) {
    Flatten(packs) == groups && |chunks| == |packs| && forall i :: 0 <= i < |packs| ==> chunks[i] == Flatten(packs[i])
  }

  lemma PackClose(packs: seq<seq<Group>>, pack: seq<Group>, group: Group, render: seq<Message> -> nat, maxChars: nat)
    requires IsPacking(packs + [pack], render, maxChars) && render(Flatten(pack) + group) > maxChars
    ensures IsPacking(packs + [pack] + [[group]], render, maxChars)
  {
    var before, after := packs + [pack], packs + [pack] + [[group]];
    assert forall i :: 0 <= i < |before| ==> after[i] == before[i];
    assert after[|packs|] == pack && after[|packs| + 1] == [group];
  }

  lemma PackGrow(packs: seq<seq<Group>>, pack: seq<Group>, group: Group, render: seq<Message> -> nat, maxChars: nat)
    requires pack == [] ==> packs == []
    requires pack != [] ==> IsPacking(packs + [pack], render, maxChars) && render(Flatten(pack + [group])) <= maxChars
    ensures IsPacking(packs + [pack + [group]], render, maxChars)
  {
    var before, after := packs + [pack], packs + [pack + [group]];
    assert forall i :: 0 <= i < |packs| ==> after[i] == before[i];
    if pack != [] {
      forall i | 0 <= i < |after| - 1 ensures render(Flatten(after[i]) + after[i + 1][0]) > maxChars {
        assert after[i + 1][0] == before[i + 1][0];
      }
    }
  }

  /** The groups in `done` are in the closed packs, except for those still in the open `pack`. */
  ghost predicate Packed(done: seq<Group>, chunks: seq<seq<Message>>, current: seq<Message>,
                         packs: seq<seq<Group>>, pack: seq<Group>)
  {
    PacksInto(Flatten(packs), chunks, packs) && Flatten(packs) + pack == done && current == Flatten(pack)
  }

  lemma PackedClose(done: seq<Group>, chunks: seq<seq<Message>>, current: seq<Message>,
                    packs: seq<seq<Group>>, pack: seq<Group>, group: Group)
    requires Packed(done, chunks, current, packs, pack)
    ensures Packed(done + [group], chunks + [current], group, packs + [pack], [group])
  {
    FlattenPush(packs, pack);
    assert Flatten([group]) == group + Flatten<Message>([]);
  }

  lemma PackedGrow(done: seq<Group>, chunks: seq<seq<Message>>, current: seq<Message>,
                   packs: seq<seq<Group>>, pack: seq<Group>, group: Group)
    requires Packed(done, chunks, current, packs, pack)
    ensures Packed(done + [group], chunks, current + group, packs, pack + [group])
  {
    FlattenPush(pack, group);
    assert Flatten(packs) + (pack + [group]) == done + [group];
  }

  /** The packing loop, on the groups. */
  method Pack(groups: seq<Group>, render: seq<Message> -> nat, maxChars: nat)
    returns (chunks: seq<seq<Message>>)
    requires groups != [] && forall i :: 0 <= i < |groups| ==> groups[i] != []
    ensures exists packs :: PacksInto(groups, chunks, packs) && IsPacking(packs, render, maxChars)
  {
    chunks := [];
    var current: seq<Message> := [];
    ghost var packs: seq<seq<Group>>, pack: seq<Group> := [], [];
    for i := 0 to |groups|
      invariant Packed(groups[..i], chunks, current, packs, pack)
      invariant if i == 0 then packs == [] && pack == []
                else pack != [] && current != [] && IsPacking(packs + [pack], render, maxChars)
    {
      var group := groups[i];
      assert groups[..i + 1] == groups[..i] + [group];
      if current != [] && render(current + group) > maxChars {
        PackClose(packs, pack, group, render, maxChars);
        PackedClose(groups[..i], chunks, current, packs, pack, group);
        chunks, current := chunks + [current], group;
        packs, pack := packs + [pack], [group];
      } else {
        PackedGrow(groups[..i], chunks, current, packs, pack, group);
        PackGrow(packs, pack, group, render, maxChars);
        current, pack := current + group, pack + [group];
      }
    }
    assert groups[..|groups|] == groups;
    if current != [] {
      FlattenPush(packs, pack);
      chunks, packs := chunks + [current], packs + [pack];
    }
    assert PacksInto(groups, chunks, packs) && IsPacking(packs, render, maxChars);
  }

  method Chunks(messages: seq<Message>, render: seq<Message> -> nat, maxChars: nat)
    returns (chunks: seq<seq<Message>>)
    ensures exists packs :: IsChunking(messages, chunks, packs) && IsPacking(packs, render, maxChars)
    ensures Flatten(chunks) == messages
  {
    var groups := GroupToolExchanges(messages);
    OnlyEmptyHasNoGroups(messages, groups);
    if groups == [] {
      assert Flatten<Message>([[]]) == [] + Flatten<Message>([]);
      assert IsChunking(messages, [[]], []) && IsPacking([], render, maxChars);
      return [[]];
    }
    assert forall i :: 0 <= i < |groups| ==> IsGroup(groups[i], i == |groups| - 1);
    chunks := Pack(groups, render, maxChars);
    ghost var packs :| PacksInto(groups, chunks, packs) && IsPacking(packs, render, maxChars);
    assert IsChunking(messages, chunks, packs);
    FlattenTwice(packs, chunks);
  }

  lemma {:induction false} FlattenTwice<T>(parts: seq<seq<seq<T>>>, flat: seq<seq<T>>)
    requires |flat| == |parts| && forall i :: 0 <= i < |parts| ==> flat[i] == Flatten(parts[i])
    ensures Flatten(flat) == Flatten(Flatten(parts))
  {
    if parts != [] {
      FlattenTwice(parts[1..], flat[1..]);
      FlattenConcat(parts[0], Flatten(parts[1..]));
    }
  }

  /** No chunk boundary separates a call from its first answer. */
  lemma ChunksKeepExchanges(messages: seq<Message>, chunks: seq<seq<Message>>, packs: seq<seq<Group>>,
                            i: nat, j: nat, call: string, q: nat)
    requires IsChunking(messages, chunks, packs) && q <= |chunks|
    requires i < j < |messages| && call in Calls(messages[i]) && call in Results(messages[j])
    requires forall k :: i <= k < j ==> call !in Results(messages[k])
    ensures i < |Flatten(chunks[..q])| <==> j < |Flatten(chunks[..q])|
  {
    var groups := Flatten(packs);
    FlattenTwice(packs[..q], chunks[..q]);
    FlattenSplit(packs, q);
    var n := |Flatten(packs[..q])|;
    assert groups[..n] == Flatten(packs[..q]);
    BoundaryKeepsExchange(messages, groups, i, j, call, n);
  }
}
