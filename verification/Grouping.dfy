/** Splitting a conversation into the smallest groups that keep tool calls with their results. */
module Grouping {
  import opened Messages

  type Group = seq<Message>

  /** The calls still unanswered after `g`. The first message's own results answer its own calls. */
  function Pending(g: Group): set<string>
    requires g != []
  {
    var m := g[|g| - 1];
    if |g| == 1 then Calls(m) - Results(m) else (Pending(g[..|g| - 1]) - Results(m)) + Calls(m)
  }

  /** The call made in message `i` has a result: later in `g`, or in message `i` itself if that starts the group. */
  ghost predicate Answered(g: Group, i: int, call: string) {
    exists k :: (0 <= i < k < |g| || (0 == i == k < |g|)) && call in Results(g[k])
  }

  ghost predicate AllAnswered(g: Group, i: nat)
    requires i < |g|
  {
    forall call :: call in Calls(g[i]) ==> Answered(g, i, call)
  }

  /** Every call made in `g` is answered in it. */
  ghost predicate Closed(g: Group) {
    g != [] && forall i :: 0 <= i < |g| ==> AllAnswered(g, i)
  }

  /** Non-empty, closed unless nothing follows, and no shorter start of it is closed. */
  ghost predicate IsGroup(g: Group, last: bool) {
    && g != []
    && (last || Closed(g))
    && forall k :: 1 <= k < |g| ==> !Closed(g[..k])
  }

  ghost predicate IsGrouping(messages: seq<Message>, groups: seq<Group>) {
    && Flatten(groups) == messages
    && forall i :: 0 <= i < |groups| ==> IsGroup(groups[i], i == |groups| - 1)
  }

  // ---------- The loop's set, and what it means ----------

  lemma AnsweredByOneMore(g: Group, i: nat, call: string)
    requires 1 < |g| && i < |g| - 1
    ensures Answered(g, i, call) <==> Answered(g[..|g| - 1], i, call) || call in Results(g[|g| - 1])
  {
    var front := g[..|g| - 1];
    if Answered(g, i, call) && call !in Results(g[|g| - 1]) {
      var k :| (0 <= i < k < |g| || (0 == i == k < |g|)) && call in Results(g[k]);
      assert front[k] == g[k];
    }
    if Answered(front, i, call) {
      var k :| (0 <= i < k < |front| || (0 == i == k < |front|)) && call in Results(front[k]);
      assert g[k] == front[k];
    }
  }

  /** A call is pending exactly when some message makes it and nothing in the group answers it. */
  lemma {:induction false} PendingSpec(g: Group, call: string)
    requires g != []
    ensures call in Pending(g) <==> exists i :: 0 <= i < |g| && call in Calls(g[i]) && !Answered(g, i, call)
    decreases |g|
  {
    var n := |g| - 1;
    if n == 0 {
      assert Answered(g, 0, call) <==> call in Results(g[0]);
    } else {
      var front := g[..n];
      PendingSpec(front, call);
      assert !Answered(g, n, call);
      forall i | 0 <= i < n ensures Answered(g, i, call) <==> Answered(front, i, call) || call in Results(g[n]) {
        AnsweredByOneMore(g, i, call);
      }
      assert forall i :: 0 <= i < n ==> front[i] == g[i];
    }
  }

  lemma NothingPendingIsClosed(g: Group)
    requires g != []
    ensures Pending(g) == {} <==> Closed(g)
  {
    forall call
      ensures call in Pending(g) <==> exists i :: 0 <= i < |g| && call in Calls(g[i]) && !Answered(g, i, call)
    {
      PendingSpec(g, call);
    }
    if Pending(g) == {} {
      forall i | 0 <= i < |g| ensures AllAnswered(g, i) {
        forall call | call in Calls(g[i]) ensures Answered(g, i, call) {
          assert call !in Pending(g);
        }
      }
    }
    if Closed(g) {
      forall i, call | 0 <= i < |g| && call in Calls(g[i]) ensures Answered(g, i, call) {
        assert AllAnswered(g, i);
      }
    }
  }

  /** The inner loop: the end of the group that starts at `start`. */
  method GroupEnd(messages: seq<Message>, start: nat) returns (index: nat)
    requires start < |messages|
    ensures start < index <= |messages|
    ensures IsGroup(messages[start..index], index == |messages|)
  {
    ghost var tail := messages[start..];
    var pending := Calls(messages[start]) - Results(messages[start]);
    index := start + 1;
    assert tail[..1] == [messages[start]];
    while pending != {} && index < |messages|
      invariant start < index <= |messages|
      invariant pending == Pending(tail[..index - start])
      invariant forall k :: 1 <= k < index - start ==> !Closed(tail[..k])
      decreases |messages| - index
    {
      NothingPendingIsClosed(tail[..index - start]);
      var message := messages[index];
      assert tail[..index - start + 1][..index - start] == tail[..index - start];
      pending := (pending - Results(message)) + Calls(message);
      index := index + 1;
    }
    NothingPendingIsClosed(tail[..index - start]);
    assert messages[start..index] == tail[..index - start];
    assert forall k :: 1 <= k < index - start ==> messages[start..index][..k] == tail[..k];
  }

  method GroupToolExchanges(messages: seq<Message>) returns (groups: seq<Group>)
    ensures IsGrouping(messages, groups)
  {
    groups := [];
    var index := 0;
    while index < |messages|
      invariant 0 <= index <= |messages|
      invariant Flatten(groups) == messages[..index]
      invariant forall i :: 0 <= i < |groups| ==> IsGroup(groups[i], index == |messages| && i == |groups| - 1)
    {
      var start := index;
      index := GroupEnd(messages, start);
      var group := messages[start..index];
      FlattenPush(groups, group);
      assert messages[..index] == messages[..start] + group;
      groups := groups + [group];
    }
    assert messages[..index] == messages;
  }

  lemma RestIsGrouping(messages: seq<Message>, groups: seq<Group>)
    requires IsGrouping(messages, groups) && groups != []
    ensures IsGroup(groups[0], |groups| == 1) && IsGrouping(messages[|groups[0]|..], groups[1..])
    ensures messages == groups[0] + messages[|groups[0]|..]
  {
    assert IsGroup(groups[0], 0 == |groups| - 1);
    assert Flatten(groups[1..]) == messages[|groups[0]|..];
    forall i | 0 <= i < |groups[1..]| ensures IsGroup(groups[1..][i], i == |groups[1..]| - 1) {
      assert IsGroup(groups[i + 1], i + 1 == |groups| - 1);
    }
  }

  /** Nothing else satisfies the specification. */
  lemma {:induction false} GroupingIsUnique(messages: seq<Message>, a: seq<Group>, b: seq<Group>)
    requires IsGrouping(messages, a) && IsGrouping(messages, b)
    ensures a == b
  {
    if a != [] && b != [] {
      FirstGroupIsUnique(messages, a, b);
      RestIsGrouping(messages, a);
      RestIsGrouping(messages, b);
      GroupingIsUnique(messages[|a[0]|..], a[1..], b[1..]);
    } else {
      OnlyEmptyHasNoGroups(messages, a);
      OnlyEmptyHasNoGroups(messages, b);
    }
  }

  lemma OnlyEmptyHasNoGroups(messages: seq<Message>, groups: seq<Group>)
    requires IsGrouping(messages, groups)
    ensures groups == [] <==> messages == []
  {
    if groups != [] {
      assert IsGroup(groups[0], 0 == |groups| - 1);
    }
  }

  lemma FirstGroupIsUnique(messages: seq<Message>, a: seq<Group>, b: seq<Group>)
    requires IsGrouping(messages, a) && IsGrouping(messages, b) && a != [] && b != []
    ensures a[0] == b[0]
  {
    FirstGroupNotLonger(messages, a, b);
    FirstGroupNotLonger(messages, b, a);
    assert a[0] == messages[..|a[0]|] && b[0] == messages[..|b[0]|];
  }

  lemma FirstGroupNotLonger(messages: seq<Message>, a: seq<Group>, b: seq<Group>)
    requires IsGrouping(messages, a) && IsGrouping(messages, b) && a != [] && b != []
    ensures |a[0]| <= |b[0]|
  {
    assert IsGroup(a[0], 0 == |a| - 1);
    assert IsGroup(b[0], 0 == |b| - 1);
    assert a[0] == messages[..|a[0]|] && b[0] == messages[..|b[0]|];
    assert |b| == 1 ==> Flatten(b[1..]) == [];
    assert forall k :: 1 <= k < |a[0]| ==> a[0][..k] == messages[..k];
  }

  /** A call and its answer are one group, and what follows them is another. */
  lemma AnswerClosesGroup(ask: Message, answer: Message, rest: Message, call: string, groups: seq<Group>)
    requires IsGrouping([ask, answer, rest], groups)
    requires Calls(ask) == {call} && Results(ask) == {} && Results(answer) == {call} && Calls(answer) == {}
    ensures groups == [[ask, answer], [rest]]
  {
    var messages := [ask, answer, rest];
    var first := [ask, answer];
    assert first[..1] == [ask];
    assert !Closed([ask]) by {
      assert call in Calls([ask][0]) && !Answered([ask], 0, call);
      assert !AllAnswered([ask], 0);
    }
    assert Answered(first, 0, call) by {
      assert call in Results(first[1]);
    }
    assert Closed(first);
    assert IsGroup(first, false);
    assert IsGroup([rest], true);
    FlattenPush([first], [rest]);
    FlattenPush<Message>([], first);
    assert [] + [first] == [first] && [first] + [[rest]] == [first, [rest]];
    assert Flatten([first, [rest]]) == messages;
    GroupingIsUnique(messages, groups, [first, [rest]]);
  }

  // ---------- No cut at a group boundary separates a call from its answer ----------

  /**
   A call made in message `i` and first answered in a later message `j` lies on the
   same side as its answer of every boundary between groups.
   */
  lemma {:induction false} BoundaryKeepsExchange(messages: seq<Message>, groups: seq<Group>, i: nat, j: nat,
                                                 call: string, q: nat)
    requires IsGrouping(messages, groups)
    requires i < j < |messages| && call in Calls(messages[i]) && call in Results(messages[j])
    requires forall k :: i <= k < j ==> call !in Results(messages[k])
    requires q <= |groups|
    ensures i < |Flatten(groups[..q])| <==> j < |Flatten(groups[..q])|
    decreases q
  {
    if q > 0 {
      var g, rest := groups[0], messages[|groups[0]|..];
      RestIsGrouping(messages, groups);
      assert groups[..q][1..] == groups[1..][..q - 1];
      if i < |g| {
        AnswerInSameGroup(messages, groups, i, j, call);
      } else {
        assert forall k :: 0 <= k < |rest| ==> rest[k] == messages[k + |g|];
        BoundaryKeepsExchange(rest, groups[1..], i - |g|, j - |g|, call, q - 1);
      }
    }
  }

  lemma AnswerIsInside(g: Group, i: nat, call: string) returns (k: nat)
    requires Closed(g) && i < |g| && call in Calls(g[i]) && call !in Results(g[i])
    ensures i < k < |g| && call in Results(g[k])
  {
    assert AllAnswered(g, i) && Answered(g, i, call);
    k :| (0 <= i < k < |g| || (0 == i == k < |g|)) && call in Results(g[k]);
  }

  lemma AnswerInSameGroup(messages: seq<Message>, groups: seq<Group>, i: nat, j: nat, call: string)
    requires IsGrouping(messages, groups) && groups != []
    requires i < j < |messages| && i < |groups[0]| && call in Calls(messages[i])
    requires forall k :: i <= k < j ==> call !in Results(messages[k])
    ensures j < |groups[0]|
  {
    var g := groups[0];
    RestIsGrouping(messages, groups);
    assert forall k :: 0 <= k < |g| ==> messages[k] == g[k];
    OnlyEmptyHasNoGroups(messages[|g|..], groups[1..]);
    if Closed(g) {
      var k := AnswerIsInside(g, i, call);
      assert j <= k;
    }
  }
}
