/** Conversation messages and the provider-independent token estimate. */
module Messages {

  datatype Block =
    | Text(text: string)
    | ToolCall(callId: string, name: string, input: string)
    | ToolResult(answers: string, content: string)
    | Other

  datatype Message = Message(id: string, blocks: seq<Block>)

  function Calls(m: Message): set<string> {
    set b | b in m.blocks && b.ToolCall? :: b.callId
  }

  function Results(m: Message): set<string> {
    set b | b in m.blocks && b.ToolResult? :: b.answers
  }

  function Ids(messages: seq<Message>): seq<string> {
    if messages == [] then [] else [messages[0].id] + Ids(messages[1..])
  }

  function Flatten<T>(parts: seq<seq<T>>): seq<T> {
    if parts == [] then [] else parts[0] + Flatten(parts[1..])
  }

  lemma {:induction false} FlattenConcat<T>(a: seq<seq<T>>, b: seq<seq<T>>)
    ensures Flatten(a + b) == Flatten(a) + Flatten(b)
  {
    if a == [] {
      assert a + b == b;
    } else {
      FlattenConcat(a[1..], b);
      assert (a + b)[1..] == a[1..] + b;
      assert Flatten(a + b) == a[0] + (Flatten(a[1..]) + Flatten(b));
    }
  }

  lemma FlattenSplit<T>(parts: seq<seq<T>>, k: nat)
    requires k <= |parts|
    ensures Flatten(parts) == Flatten(parts[..k]) + Flatten(parts[k..])
  {
    assert parts[..k] + parts[k..] == parts;
    FlattenConcat(parts[..k], parts[k..]);
  }

  lemma FlattenPush<T>(parts: seq<seq<T>>, last: seq<T>)
    ensures Flatten(parts + [last]) == Flatten(parts) + last
  {
    FlattenConcat(parts, [last]);
    assert Flatten([last]) == last + Flatten<T>([]);
  }

  // ---------- Token estimate ----------

  function AsciiCount(text: string): nat {
    if text == "" then 0 else (if (text[0] as int) < 128 then 1 else 0) + AsciiCount(text[1..])
  }

  function EstimateText(text: string): int {
    if text == "" then 0
    else
      var ascii := AsciiCount(text);
      var raw := (ascii + 3) / 4 + (|text| - ascii + 1) / 2;
      if raw < 1 then 1 else raw
  }

  const OTHER_BLOCK_TOKENS := 3072

  function BlockTokens(b: Block): int {
    match b
    case Text(text) => EstimateText(text)
    case ToolCall(_, name, input) => EstimateText(name) + EstimateText(input)
    case ToolResult(_, content) => EstimateText(content)
    case Other => OTHER_BLOCK_TOKENS
  }

  function BlocksTokens(blocks: seq<Block>): int {
    if blocks == [] then 0 else BlockTokens(blocks[0]) + BlocksTokens(blocks[1..])
  }

  /** The sum before scaling by four thirds. */
  function Cost(messages: seq<Message>): int {
    if messages == [] then 0 else 4 + BlocksTokens(messages[0].blocks) + Cost(messages[1..])
  }

  function Estimate(messages: seq<Message>): int {
    Cost(messages) * 4 / 3
  }

  function EstimateSum(groups: seq<seq<Message>>): int {
    if groups == [] then 0 else Estimate(groups[0]) + EstimateSum(groups[1..])
  }

  lemma {:induction false} AsciiCountBound(text: string)
    ensures AsciiCount(text) <= |text|
  {
    if text != "" {
      AsciiCountBound(text[1..]);
    }
  }

  lemma {:induction false} CostNonNegative(messages: seq<Message>)
    ensures Cost(messages) >= 0
  {
    if messages != [] {
      BlocksNonNegative(messages[0].blocks);
      CostNonNegative(messages[1..]);
    }
  }

  lemma {:induction false} BlocksNonNegative(blocks: seq<Block>)
    ensures BlocksTokens(blocks) >= 0
  {
    if blocks != [] {
      BlocksNonNegative(blocks[1..]);
    }
  }

  lemma {:induction false} CostConcat(a: seq<Message>, b: seq<Message>)
    ensures Cost(a + b) == Cost(a) + Cost(b)
  {
    if a == [] {
      assert a + b == b;
    } else {
      CostConcat(a[1..], b);
      assert (a + b)[1..] == a[1..] + b;
    }
  }

  lemma {:induction false} BlocksConcat(a: seq<Block>, b: seq<Block>)
    ensures BlocksTokens(a + b) == BlocksTokens(a) + BlocksTokens(b)
  {
    if a == [] {
      assert a + b == b;
    } else {
      BlocksConcat(a[1..], b);
      assert (a + b)[1..] == a[1..] + b;
    }
  }

  /**
   Estimating a concatenation instead of its groups one by one rounds less often:
   it never gives less, and at most two thirds of a token per group more.
   */
  lemma ConcatenationEstimate(groups: seq<seq<Message>>)
    ensures 0 <= EstimateSum(groups) <= Estimate(Flatten(groups))
    ensures 3 * (Estimate(Flatten(groups)) - EstimateSum(groups)) <= 2 * |groups|
  {
    ScaledCosts(groups);
  }

  lemma {:induction false} ScaledCosts(groups: seq<seq<Message>>)
    ensures 0 <= EstimateSum(groups)
    ensures 3 * EstimateSum(groups) <= 4 * Cost(Flatten(groups)) <= 3 * EstimateSum(groups) + 2 * |groups|
  {
    if groups != [] {
      ScaledCosts(groups[1..]);
      CostConcat(groups[0], Flatten(groups[1..]));
      CostNonNegative(groups[0]);
    }
  }

  // ---------- What the numbers mean ----------

  predicate IsAsciiChar(c: char) {
    c as int < 128
  }

  /** The positions of the ASCII characters, or of the others. */
  function Positions(text: string, ascii: bool): set<int> {
    set i | 0 <= i < |text| && IsAsciiChar(text[i]) == ascii
  }

  lemma PositionsPush(text: string, c: char, ascii: bool)
    ensures |Positions(text + [c], ascii)| == |Positions(text, ascii)| + if IsAsciiChar(c) == ascii then 1 else 0
  {
    var more, fewer := Positions(text + [c], ascii), Positions(text, ascii);
    assert more == fewer + if IsAsciiChar(c) == ascii then {|text|} else {};
  }

  lemma {:induction false} AsciiCountSpec(text: string)
    ensures AsciiCount(text) == |Positions(text, true)| && |text| - AsciiCount(text) == |Positions(text, false)|
  {
    if text != "" {
      var front, last := text[..|text| - 1], text[|text| - 1];
      assert text == front + [last];
      AsciiCountSpec(front);
      AsciiCountPush(front, last);
      PositionsPush(front, last, true);
      PositionsPush(front, last, false);
    }
  }

  lemma {:induction false} AsciiCountPush(text: string, c: char)
    ensures AsciiCount(text + [c]) == AsciiCount(text) + if IsAsciiChar(c) then 1 else 0
  {
    if text != "" {
      assert (text + [c])[1..] == text[1..] + [c];
      AsciiCountPush(text[1..], c);
    } else {
      assert text + [c] == [c];
    }
  }

  /** A token for every four ASCII characters begun and for every two others begun, and none only for the empty text. */
  lemma EstimateTextSpec(text: string)
    ensures var ascii, others := |Positions(text, true)|, |Positions(text, false)|;
            exists a, b :: EstimateText(text) == a + b && 4 * a - 4 < ascii <= 4 * a && 2 * b - 2 < others <= 2 * b
    ensures EstimateText(text) == 0 <==> text == ""
  {
    AsciiCountSpec(text);
    AsciiCountBound(text);
    var ascii := AsciiCount(text);
    var a, b := (ascii + 3) / 4, (|text| - ascii + 1) / 2;
    assert EstimateText(text) == a + b;
    assert 4 * a - 4 < ascii <= 4 * a && 2 * b - 2 < |text| - ascii <= 2 * b;
  }

  /**
   Each message costs 4 and each block its texts, or 3072 if it has none; the total is then
   scaled by 4/3, rounded down.
   */
  lemma CostSpec(messages: seq<Message>, id: string, blocks: seq<Block>, b: Block)
    ensures Cost([]) == 0 && Cost(messages + [Message(id, [])]) == Cost(messages) + 4
    ensures Cost(messages + [Message(id, blocks + [b])]) - Cost(messages + [Message(id, blocks)]) ==
            match b
            case Text(text) => EstimateText(text)
            case ToolCall(_, name, input) => EstimateText(name) + EstimateText(input)
            case ToolResult(_, content) => EstimateText(content)
            case Other => 3072
    ensures 3 * Estimate(messages) <= 4 * Cost(messages) < 3 * Estimate(messages) + 3
  {
    CostConcat(messages, [Message(id, [])]);
    CostConcat(messages, [Message(id, blocks + [b])]);
    CostConcat(messages, [Message(id, blocks)]);
    BlocksConcat(blocks, [b]);
    assert [Message(id, blocks)][1..] == [] && [Message(id, blocks + [b])][1..] == [] && [Message(id, [])][1..] == [];
    assert [b][1..] == [];
  }

  method EstimateMessagesTokens(messages: seq<Message>) returns (tokens: int)
    ensures tokens == Estimate(messages)
  {
    var total := 0;
    for i := 0 to |messages|
      invariant total == Cost(messages[..i])
    {
      var blocks := messages[i].blocks;
      var sum := 4;
      for j := 0 to |blocks|
        invariant sum == 4 + BlocksTokens(blocks[..j])
      {
        sum := sum + BlockTokens(blocks[j]);
        BlocksConcat(blocks[..j], [blocks[j]]);
        assert blocks[..j + 1] == blocks[..j] + [blocks[j]];
      }
      assert blocks[..|blocks|] == blocks;
      total := total + sum;
      CostConcat(messages[..i], [messages[i]]);
      assert messages[..i + 1] == messages[..i] + [messages[i]];
    }
    assert messages[..|messages|] == messages;
    tokens := total * 4 / 3;
  }
}
