/** Chat messages and the repair of a stored history (src/wahabot/ai/history/messages.py). */
module Messages {
  import opened Optional
  import opened Text

  datatype Role = System | User | Assistant | Tool

  /** The numerals that JSON writes for the number zero. */
  const ZEROS := {"0", "0.0", "-0.0"}

  /** A decoded JSON value; a number is kept as the numeral that stands for it. */
  datatype Json =
    | Null
    | Bool(b: bool)
    | Number(numeral: string)
    | Str(s: string)
    | Array(items: seq<Json>)
    | Object(fields: map<string, Json>)
  {
    /** Python's truth value of the decoded JSON value. */
    predicate Truthy() {
      match this
      case Null => false
      case Bool(b) => b
      case Number(numeral) => numeral !in ZEROS
      case Str(s) => s != ""
      case Array(items) => items != []
      case Object(fields) => fields != map[]
    }
  }

  /** The arguments of a tool-call block: JSON text, or an already decoded value. */
  datatype RawArguments = ArgumentText(text: string) | ArgumentValue(value: Json)

  datatype Block =
    | TextBlock(text: string)
    | ThinkingBlock(thought: string)
    | ToolCallBlock(id: string, name: string, arguments: RawArguments)
    | MediaBlock(data: string)

  /** The names of `additional_kwargs` the history code looks at, and all others. */
  datatype Key = ToolCalls | ReactionTarget | TurnHandled | MergedTurns | WrapUpNote | OperatorFold | Other(name: string)

  datatype Message = Message(role: Role, blocks: seq<Block>, extra: map<Key, Json>)

  // ----- one message -----

  function CallBlocks(blocks: seq<Block>): (r: seq<Block>)
    ensures forall b | b in r :: b.ToolCallBlock?
  {
    if blocks == [] then []
    else if blocks[0].ToolCallBlock? then [blocks[0]] + CallBlocks(blocks[1..])
    else CallBlocks(blocks[1..])
  }

  /** Whether a wire-shaped entry is a tool call: an object naming a function. */
  predicate IsWireCall(call: Json) {
    && call.Object? && "function" in call.fields && call.fields["function"].Object?
    && var function_ := call.fields["function"].fields;
    && "name" in function_ && (function_["name"].Str? ==> function_["name"].s != "")
  }

  function WireCallCount(items: seq<Json>): nat {
    if items == [] then 0 else (if IsWireCall(items[0]) then 1 else 0) + WireCallCount(items[1..])
  }

  function WireCalls(extra: map<Key, Json>): nat {
    if ToolCalls in extra && extra[ToolCalls].Array? then WireCallCount(extra[ToolCalls].items) else 0
  }

  /** The number of tool calls a message advertises; blocks take precedence over the wire list. */
  function CallCount(m: Message): nat {
    if CallBlocks(m.blocks) != [] then |CallBlocks(m.blocks)| else WireCalls(m.extra)
  }

  function BlockTexts(blocks: seq<Block>): seq<string> {
    if blocks == [] then []
    else if blocks[0].TextBlock? then [blocks[0].text] + BlockTexts(blocks[1..])
    else BlockTexts(blocks[1..])
  }

  /** `message.content or ""`. */
  function Content(m: Message): string {
    Join(BlockTexts(m.blocks), "\n")
  }

  predicate IsWrapUpNote(m: Message) {
    WrapUpNote in m.extra && m.extra[WrapUpNote].Truthy()
  }

  predicate CrossesWrapUpBoundary(first: Message, second: Message) {
    IsWrapUpNote(first) != IsWrapUpNote(second)
  }

  predicate IsInboundChatTurn(m: Message) {
    m.role == User && ReactionTarget !in m.extra && OperatorFold !in m.extra && WrapUpNote !in m.extra
  }

  predicate IsHandled(m: Message) {
    TurnHandled in m.extra || ReactionTarget in m.extra || OperatorFold in m.extra
  }

  /** A message neither part of a tool exchange nor answering one. */
  predicate IsPlain(m: Message) {
    m.role != Tool && CallCount(m) == 0
  }

  // ----- step 1: merge neighbours -----

  predicate CanMerge(prev: Message, m: Message) {
    && prev.role == m.role
    && m.role != Tool
    && CallCount(prev) == 0
    && CallCount(m) == 0
    && !CrossesWrapUpBoundary(prev, m)
  }

  function Fused(first: Message, second: Message): Message {
    var extra := first.extra + second.extra;
    var labelled :=
      if IsInboundChatTurn(first) && IsInboundChatTurn(second) then extra[MergedTurns := Bool(true)] else extra;
    Message(first.role, [TextBlock(Content(first) + "\n" + Content(second))], labelled)
  }

  /** Two messages as one, or the refusal to fold a private note into a chat turn. */
  function MergePair(first: Message, second: Message): (r: Result<Message, string>)
    ensures r.Failure? <==> CrossesWrapUpBoundary(first, second)
    ensures r.Success? ==> Words(Content(r.value)) == Words(Content(first)) + Words(Content(second))
    ensures r.Success? ==> first.extra.Keys + second.extra.Keys <= r.value.extra.Keys
  {
    FusedFacts(first, second);
    if CrossesWrapUpBoundary(first, second)
    then Failure("refusing to merge a wrap-up note with a chat turn")
    else Success(Fused(first, second))
  }

  lemma FusedFacts(first: Message, second: Message)
    ensures Content(Fused(first, second)) == Content(first) + "\n" + Content(second)
    ensures Words(Content(Fused(first, second))) == Words(Content(first)) + Words(Content(second))
  {
    var text := Content(first) + "\n" + Content(second);
    assert BlockTexts([TextBlock(text)]) == [text] by {
      assert [TextBlock(text)][1..] == [];
    }
    WordsConcat(Content(first), "\n" + Content(second));
    assert text == Content(first) + ("\n" + Content(second));
    assert ("\n" + Content(second))[1..] == Content(second);
  }

  /** A fused message is again plain, keeps its role and its side of the private boundary,
      so it can merge with exactly the messages its two parts could merge with. */
  lemma FusedKeepsKind(first: Message, second: Message)
    requires CanMerge(first, second)
    ensures var f := Fused(first, second);
            f.role == first.role && CallCount(f) == 0 && IsWrapUpNote(f) == IsWrapUpNote(first)
    ensures IsHandled(second) ==> IsHandled(Fused(first, second))
  {
    var f := Fused(first, second);
    assert CallBlocks(f.blocks) == [] by {
      assert f.blocks[1..] == [];
    }
  }

  /** A merged message has the words of both in order, and every tag of both, the second's value winning;
      only two plain inbound turns are labelled as merged. */
  lemma FusedKeepsTags(first: Message, second: Message)
    ensures var f := Fused(first, second);
            var plain := forall m | m in [first, second] ::
                           m.role == User && ReactionTarget !in m.extra && OperatorFold !in m.extra && WrapUpNote !in m.extra;
            && f.role == first.role
            && Content(f) == Content(first) + "\n" + Content(second)
            && (plain ==> MergedTurns in f.extra && f.extra[MergedTurns] == Bool(true))
            && forall k | k != MergedTurns || !plain ::
                 && (k in f.extra <==> k in first.extra || k in second.extra)
                 && (k in f.extra ==> f.extra[k] == if k in second.extra then second.extra[k] else first.extra[k])
  {
    hide Content, Words;
    FusedFacts(first, second);
    assert forall m | m in [first, second] :: m == first || m == second;
    assert first in [first, second] && second in [first, second];
  }

  function Absorb(merged: seq<Message>, m: Message): seq<Message> {
    var n := |merged|;
    if n > 0 && CanMerge(merged[n - 1], m)
    then merged[..n - 1] + [Fused(merged[n - 1], m)]
    else merged + [m]
  }

  function Deduplicate(ms: seq<Message>): seq<Message> {
    if ms == [] then [] else Absorb(Deduplicate(ms[..|ms| - 1]), ms[|ms| - 1])
  }

  method DeduplicateMessages(messages: seq<Message>) returns (merged: seq<Message>)
    ensures merged == Deduplicate(messages)
  {
    hide CallCount, IsWrapUpNote, Words, Fused, IsInboundChatTurn;
    merged := [];
    for i := 0 to |messages|
      invariant merged == Deduplicate(messages[..i])
    {
      assert messages[..i + 1][..i] == messages[..i];
      var m := messages[i];
      if merged != [] && CanMerge(merged[|merged| - 1], m) {
        var fused := MergePair(merged[|merged| - 1], m);
        merged := merged[|merged| - 1 := fused.value];
      } else {
        merged := merged + [m];
      }
    }
    assert messages[..|messages|] == messages;
  }

  /** No two neighbours can be merged. */
  predicate Settled(ms: seq<Message>) {
    |ms| > 1 ==> Settled(ms[..|ms| - 1]) && !CanMerge(ms[|ms| - 2], ms[|ms| - 1])
  }

  lemma {:induction false} SettledAt(ms: seq<Message>, i: nat)
    requires Settled(ms) && 0 < i < |ms|
    ensures !CanMerge(ms[i - 1], ms[i])
  {
    if i < |ms| - 1 {
      SettledAt(ms[..|ms| - 1], i);
    }
  }

  lemma SettledSnoc(ms: seq<Message>, m: Message)
    requires Settled(ms) && (ms != [] ==> !CanMerge(ms[|ms| - 1], m))
    ensures Settled(ms + [m])
  {
    assert (ms + [m])[..|ms|] == ms;
  }

  lemma AbsorbSettles(merged: seq<Message>, m: Message)
    requires Settled(merged)
    ensures Settled(Absorb(merged, m))
  {
    var n := |merged|;
    if n > 0 && CanMerge(merged[n - 1], m) {
      FusedKeepsKind(merged[n - 1], m);
      assert Absorb(merged, m)[..n - 1] == merged[..n - 1];
    } else {
      assert (merged + [m])[..n] == merged;
    }
  }

  /** The merge leaves no pair to merge, and changes nothing exactly when there was none. */
  lemma {:induction false} DeduplicateSettles(ms: seq<Message>)
    ensures Settled(Deduplicate(ms))
    ensures Settled(ms) <==> Deduplicate(ms) == ms
  {
    if ms != [] {
      var init, m := ms[..|ms| - 1], ms[|ms| - 1];
      assert ms == init + [m];
      DeduplicateSettles(init);
      AbsorbSettles(Deduplicate(init), m);
    }
  }

  lemma DeduplicateIdempotent(ms: seq<Message>)
    ensures Deduplicate(Deduplicate(ms)) == Deduplicate(ms)
  {
    DeduplicateSettles(ms);
    DeduplicateSettles(Deduplicate(ms));
  }

  function Contents(ms: seq<Message>): (r: seq<string>)
    ensures |r| == |ms| && forall i | 0 <= i < |ms| :: r[i] == Content(ms[i])
  {
    seq(|ms|, i requires 0 <= i < |ms| => Content(ms[i]))
  }

  /** Every word of a history, in order. */
  function HistoryWords(ms: seq<Message>): seq<string> {
    FlattenWords(Contents(ms))
  }

  lemma HistoryWordsAppend(a: seq<Message>, b: seq<Message>)
    ensures HistoryWords(a + b) == HistoryWords(a) + HistoryWords(b)
  {
    assert Contents(a + b) == Contents(a) + Contents(b);
    FlattenWordsAppend(Contents(a), Contents(b));
  }

  lemma HistoryWordsOne(m: Message)
    ensures HistoryWords([m]) == Words(Content(m))
  {
    assert Contents([m]) == [Content(m)];
    assert FlattenWords([Content(m)]) == Words(Content(m)) + FlattenWords([Content(m)][1..]);
  }

  lemma {:induction false} DeduplicateKeepsWords(ms: seq<Message>)
    ensures HistoryWords(Deduplicate(ms)) == HistoryWords(ms)
  {
    hide CallCount, CanMerge, HistoryWords, Absorb;
    if ms != [] {
      var init, m := ms[..|ms| - 1], ms[|ms| - 1];
      assert ms == init + [m];
      DeduplicateKeepsWords(init);
      HistoryWordsAppend(init, [m]);
      AbsorbKeepsWords(Deduplicate(init), m);
    }
  }

  lemma AbsorbKeepsWords(d: seq<Message>, m: Message)
    ensures HistoryWords(Absorb(d, m)) == HistoryWords(d) + HistoryWords([m])
  {
    hide CallCount, CanMerge, HistoryWords, Fused;
    HistoryWordsOne(m);
    if d != [] && CanMerge(d[|d| - 1], m) {
      var rest, last := d[..|d| - 1], d[|d| - 1];
      assert d == rest + [last];
      HistoryWordsAppend(rest, [last]);
      HistoryWordsOne(last);
      HistoryWordsAppend(rest, [Fused(last, m)]);
      HistoryWordsOne(Fused(last, m));
      FusedFacts(last, m);
    } else {
      HistoryWordsAppend(d, [m]);
    }
  }

  /** Only plain messages are ever fused: the tool exchanges pass through untouched, in order. */
  function Working(ms: seq<Message>): seq<Message> {
    if ms == [] then []
    else
      var m := ms[|ms| - 1];
      Working(ms[..|ms| - 1]) + (if IsPlain(m) then [] else [m])
  }

  lemma WorkingSnoc(ms: seq<Message>, m: Message)
    ensures Working(ms + [m]) == Working(ms) + (if IsPlain(m) then [] else [m])
  {
    assert (ms + [m])[..|ms|] == ms;
  }

  lemma {:induction false} DeduplicateKeepsToolWork(ms: seq<Message>)
    ensures Working(Deduplicate(ms)) == Working(ms)
  {
    if ms != [] {
      var init, m := ms[..|ms| - 1], ms[|ms| - 1];
      DeduplicateKeepsToolWork(init);
      var d := Deduplicate(init);
      if d != [] && CanMerge(d[|d| - 1], m) {
        FusedKeepsKind(d[|d| - 1], m);
        WorkingSnoc(d[..|d| - 1], Fused(d[|d| - 1], m));
      } else {
        WorkingSnoc(d, m);
      }
    }
  }

  // ----- balanced tool groups -----

  /** How many tool replies are still owed after a history; -1 once it broke the rule that an
      advertising message is followed by exactly its number of tool replies. */
  function Owed(ms: seq<Message>): (r: int)
    ensures r >= -1
  {
    if ms == [] then 0
    else
      var before, m := Owed(ms[..|ms| - 1]), ms[|ms| - 1];
      if before == 0 && m.role != Tool then CallCount(m)
      else if before > 0 && m.role == Tool then before - 1
      else -1
  }

  predicate Balanced(ms: seq<Message>) {
    Owed(ms) == 0
  }

  lemma OwedSnoc(ms: seq<Message>, m: Message)
    ensures Owed(ms + [m]) ==
            if Owed(ms) == 0 && m.role != Tool then CallCount(m)
            else if Owed(ms) > 0 && m.role == Tool then Owed(ms) - 1
            else -1
  {
    assert (ms + [m])[..|ms|] == ms;
  }

  lemma {:induction false} OwedPrefix(ms: seq<Message>, i: nat)
    requires i <= |ms| && Owed(ms) >= 0
    ensures Owed(ms[..i]) >= 0
    decreases |ms|
  {
    if i < |ms| {
      OwedPrefix(ms[..|ms| - 1], i);
      assert ms[..|ms| - 1][..i] == ms[..i];
    } else {
      assert ms[..i] == ms;
    }
  }

  lemma {:induction false} OwedConcat(a: seq<Message>, b: seq<Message>)
    requires Owed(a) == 0
    ensures Owed(a + b) == Owed(b)
  {
    if b == [] {
      assert a + b == a;
    } else {
      OwedConcat(a, b[..|b| - 1]);
      assert a + b == (a + b[..|b| - 1]) + [b[|b| - 1]];
      OwedSnoc(a + b[..|b| - 1], b[|b| - 1]);
    }
  }

  /** A balanced history can be cut exactly in front of a message that is no tool reply. */
  lemma BalancedCut(ms: seq<Message>, i: nat)
    requires i <= |ms| && Balanced(ms)
    ensures Balanced(ms[..i]) <==> i == |ms| || ms[i].role != Tool
    ensures Balanced(ms[..i]) ==> Balanced(ms[i..])
  {
    OwedPrefix(ms, i);
    if i == |ms| {
      assert ms[..i] == ms && ms[i..] == [];
    } else {
      OwedPrefix(ms, i + 1);
      assert ms[..i + 1] == ms[..i] + [ms[i]];
      OwedSnoc(ms[..i], ms[i]);
      if Owed(ms[..i]) == 0 {
        assert ms == ms[..i] + ms[i..];
        OwedConcat(ms[..i], ms[i..]);
      }
    }
  }

  /** The group at the head of a history: its opener and the tool replies it is owed. */
  lemma {:induction false} GroupOwed(ms: seq<Message>, i: nat)
    requires ms != [] && ms[0].role != Tool && 0 < i <= |ms| && i <= 1 + CallCount(ms[0])
    requires forall j | 0 < j < i :: ms[j].role == Tool
    ensures Owed(ms[..i]) == CallCount(ms[0]) - (i - 1)
  {
    if i == 1 {
      assert ms[..1] == [] + [ms[0]];
      OwedSnoc([], ms[0]);
    } else {
      GroupOwed(ms, i - 1);
      assert ms[..i] == ms[..i - 1] + [ms[i - 1]];
      OwedSnoc(ms[..i - 1], ms[i - 1]);
    }
  }

  lemma {:induction false} BalancedReplies(ms: seq<Message>, i: nat)
    requires Balanced(ms) && ms != [] && 0 < i <= 1 + CallCount(ms[0])
    ensures ms[0].role != Tool && i <= |ms|
    ensures forall j | 0 < j < i :: ms[j].role == Tool
  {
    hide CallCount;
    if i == 1 {
      OwedPrefix(ms, 1);
      assert ms[..1] == [] + [ms[0]];
      OwedSnoc([], ms[0]);
    } else {
      BalancedReplies(ms, i - 1);
      GroupOwed(ms, i - 1);
      OwedMeansReply(ms, i - 1);
    }
  }

  /** Where a balanced history still owes replies, the next message is one. */
  lemma OwedMeansReply(ms: seq<Message>, n: nat)
    requires Balanced(ms) && n <= |ms| && Owed(ms[..n]) > 0
    ensures n < |ms| && ms[n].role == Tool
  {
    hide CallCount;
    assert ms[..|ms|] == ms;
    OwedPrefix(ms, n + 1);
    assert ms[..n + 1] == ms[..n] + [ms[n]];
    OwedSnoc(ms[..n], ms[n]);
  }

  /** A non-empty balanced history opens with a whole group, and the rest is balanced again. */
  lemma BalancedHead(ms: seq<Message>)
    requires Balanced(ms) && ms != []
    ensures var k := 1 + CallCount(ms[0]);
            && ms[0].role != Tool && k <= |ms|
            && (forall j | 0 < j < k :: ms[j].role == Tool)
            && Balanced(ms[..k]) && Balanced(ms[k..])
  {
    var k := 1 + CallCount(ms[0]);
    BalancedReplies(ms, k);
    GroupOwed(ms, k);
    BalancedCut(ms, k);
  }

  // ----- step 2: validate tool groups -----

  function ToolRun(ms: seq<Message>): (n: nat)
    ensures n <= |ms| && (forall i | 0 <= i < n :: ms[i].role == Tool) && (n < |ms| ==> ms[n].role != Tool)
  {
    if ms == [] || ms[0].role != Tool then 0 else 1 + ToolRun(ms[1..])
  }

  /** What validation keeps of an advertising message and the tool replies right behind it. */
  function KeptGroup(ms: seq<Message>): seq<Message>
    requires ms != []
  {
    if ToolRun(ms[1..]) >= CallCount(ms[0]) then ms[..1 + CallCount(ms[0])] else []
  }

  function Validate(ms: seq<Message>): seq<Message>
    decreases |ms|
  {
    if ms == [] then []
    else if ms[0].role == Tool then Validate(ms[1..])
    else if CallCount(ms[0]) > 0 then KeptGroup(ms) + Validate(ms[1 + ToolRun(ms[1..])..])
    else [ms[0]] + Validate(ms[1..])
  }

  lemma ValidateFrom(ms: seq<Message>, i: nat)
    requires i < |ms|
    ensures Validate(ms[i..]) ==
            if ms[i].role == Tool then Validate(ms[i + 1..])
            else if CallCount(ms[i]) > 0 then
              KeptGroup(ms[i..]) + Validate(ms[i + 1 + ToolRun(ms[i + 1..])..])
            else [ms[i]] + Validate(ms[i + 1..])
  {
    hide CallCount, ToolRun, KeptGroup;
    assert ms[i..][1..] == ms[i + 1..];
    assert ms[i..][1 + ToolRun(ms[i + 1..])..] == ms[i + 1 + ToolRun(ms[i + 1..])..];
  }

  method CollectReplies(messages: seq<Message>, start: nat) returns (tools: seq<Message>, j: nat)
    requires start <= |messages|
    ensures j == start + ToolRun(messages[start..]) <= |messages|
    ensures tools == messages[start..j]
  {
    j, tools := start, [];
    while j < |messages| && messages[j].role == Tool
      invariant start <= j <= |messages|
      invariant tools == messages[start..j]
      invariant ToolRun(messages[start..]) == j - start + ToolRun(messages[j..])
    {
      assert messages[j..][1..] == messages[j + 1..];
      tools := tools + [messages[j]];
      j := j + 1;
    }
  }

  /** The part before index i is validated into `validated`; the rest is still to do. */
  ghost predicate ValidatedUpTo(messages: seq<Message>, i: nat, validated: seq<Message>) {
    i <= |messages| && Validate(messages) == validated + Validate(messages[i..])
  }

  lemma ValidatedStep(messages: seq<Message>, i: nat, validated: seq<Message>, kept: seq<Message>, j: nat)
    requires ValidatedUpTo(messages, i, validated) && j <= |messages|
    requires Validate(messages[i..]) == kept + Validate(messages[j..])
    ensures ValidatedUpTo(messages, j, validated + kept)
  {
    assert validated + (kept + Validate(messages[j..])) == (validated + kept) + Validate(messages[j..]);
  }

  lemma ValidatedAll(messages: seq<Message>, validated: seq<Message>)
    requires ValidatedUpTo(messages, |messages|, validated)
    ensures validated == Validate(messages)
  {
    assert messages[|messages|..] == [];
  }

  /** What one round of the validation loop keeps, and where it goes on. */
  function RoundKept(messages: seq<Message>, i: nat): seq<Message>
    requires i < |messages|
  {
    if messages[i].role == Tool then []
    else if CallCount(messages[i]) > 0 then
      var tools := messages[i + 1..i + 1 + ToolRun(messages[i + 1..])];
      if |tools| >= CallCount(messages[i]) then [messages[i]] + tools[..CallCount(messages[i])] else []
    else [messages[i]]
  }

  function RoundNext(messages: seq<Message>, i: nat): (j: nat)
    requires i < |messages|
    ensures i < j <= |messages|
  {
    if messages[i].role != Tool && CallCount(messages[i]) > 0 then i + 1 + ToolRun(messages[i + 1..]) else i + 1
  }

  lemma SliceGroup(ms: seq<Message>, i: nat, c: nat, t: nat)
    requires i < |ms| && c <= t && i + 1 + t <= |ms|
    ensures ms[i..][..1 + c] == [ms[i]] + ms[i + 1..i + 1 + t][..c]
  {
  }

  lemma RoundOfCall(messages: seq<Message>, i: nat, c: nat, n: nat)
    requires i < |messages| && messages[i].role != Tool && CallCount(messages[i]) == c > 0 && ToolRun(messages[i + 1..]) == n
    ensures RoundNext(messages, i) == i + 1 + n <= |messages|
    ensures RoundKept(messages, i) == if n >= c then [messages[i]] + messages[i + 1..i + 1 + n][..c] else []
  {
    hide CallCount, ToolRun;
  }

  lemma RoundGroup(messages: seq<Message>, i: nat)
    requires i < |messages| && messages[i].role != Tool && CallCount(messages[i]) > 0
    ensures KeptGroup(messages[i..]) == RoundKept(messages, i)
  {
    hide CallCount, ToolRun, RoundKept, RoundNext;
    var t := ToolRun(messages[i + 1..]);
    RoundOfCall(messages, i, CallCount(messages[i]), t);
    assert messages[i..][0] == messages[i] && messages[i..][1..] == messages[i + 1..];
    if t >= CallCount(messages[i]) {
      SliceGroup(messages, i, CallCount(messages[i]), t);
    }
  }

  lemma RoundValidates(messages: seq<Message>, i: nat)
    requires i < |messages|
    ensures Validate(messages[i..]) == RoundKept(messages, i) + Validate(messages[RoundNext(messages, i)..])
  {
    hide CallCount, ToolRun, KeptGroup, Validate;
    ValidateFrom(messages, i);
    if messages[i].role == Tool {
      assert [] + Validate(messages[i + 1..]) == Validate(messages[i + 1..]);
    } else if CallCount(messages[i]) > 0 {
      RoundGroup(messages, i);
    }
  }

  method ValidateToolGroups(messages: seq<Message>) returns (validated: seq<Message>)
    ensures validated == Validate(messages)
  {
    hide CallCount, ToolRun, Validate;
    validated := [];
    var i := 0;
    assert messages[0..] == messages;
    while i < |messages|
      invariant i <= |messages| && ValidatedUpTo(messages, i, validated)
    {
      var m := messages[i];
      var kept, next := [m], i + 1;
      if m.role == Tool {
        kept := [];
      } else if CallCount(m) > 0 {
        var tools, j := CollectReplies(messages, i + 1);
        kept, next := if |tools| >= CallCount(m) then [m] + tools[..CallCount(m)] else [], j;
      }
      assert kept == RoundKept(messages, i) && next == RoundNext(messages, i);
      RoundValidates(messages, i);
      ValidatedStep(messages, i, validated, kept, next);
      validated, i := validated + kept, next;
    }
    ValidatedAll(messages, validated);
  }

  lemma {:induction false} ToolRunPrefix(ms: seq<Message>, n: nat)
    requires n <= |ms| && (forall i | 0 <= i < n :: ms[i].role == Tool)
    requires n < |ms| ==> ms[n].role != Tool
    ensures ToolRun(ms) == n
  {
    assert ToolRun(ms) < |ms| ==> ms[ToolRun(ms)].role != Tool;
  }

  lemma KeptGroupBalanced(ms: seq<Message>)
    requires ms != [] && ms[0].role != Tool && CallCount(ms[0]) > 0
    ensures Balanced(KeptGroup(ms))
  {
    assert forall j | 0 < j < |ms| :: ms[j] == ms[1..][j - 1];
    if ToolRun(ms[1..]) >= CallCount(ms[0]) {
      GroupOwed(ms, 1 + CallCount(ms[0]));
    }
  }

  /** Validation always leaves balanced tool groups. */
  lemma {:induction false} ValidateBalances(ms: seq<Message>)
    ensures Balanced(Validate(ms))
    decreases |ms|
  {
    if ms != [] {
      if ms[0].role == Tool {
        ValidateBalances(ms[1..]);
      } else if CallCount(ms[0]) > 0 {
        ValidateBalances(ms[1 + ToolRun(ms[1..])..]);
        KeptGroupBalanced(ms);
        OwedConcat(KeptGroup(ms), Validate(ms[1 + ToolRun(ms[1..])..]));
      } else {
        ValidateBalances(ms[1..]);
        GroupOwed(ms, 1);
        assert ms[..1] == [ms[0]];
        OwedConcat([ms[0]], Validate(ms[1..]));
      }
    }
  }

  lemma KeptWhole(ms: seq<Message>, k: nat)
    requires ms != [] && k == 1 + CallCount(ms[0]) <= |ms| && ToolRun(ms[1..]) == k - 1
    ensures KeptGroup(ms) == ms[..k]
  {
    hide CallCount, ToolRun;
  }

  lemma ValidateGroup(ms: seq<Message>, t: nat)
    requires ms != [] && ms[0].role != Tool && CallCount(ms[0]) > 0 && ToolRun(ms[1..]) == t
    ensures 1 + t <= |ms| && Validate(ms) == KeptGroup(ms) + Validate(ms[1 + t..])
  {
    hide CallCount, ToolRun, KeptGroup;
  }

  lemma ValidatePlain(ms: seq<Message>)
    requires ms != [] && ms[0].role != Tool && CallCount(ms[0]) == 0
    ensures Validate(ms) == ms[..1] + Validate(ms[1..])
  {
    hide CallCount, ToolRun, KeptGroup;
  }

  /** A whole group at the front is kept whole. */
  lemma ValidateHeadGroup(ms: seq<Message>, k: nat)
    requires ms != [] && ms[0].role != Tool && k == 1 + CallCount(ms[0]) <= |ms|
    requires ToolRun(ms[1..]) == k - 1
    ensures Validate(ms) == ms[..k] + Validate(ms[k..])
  {
    hide *;
    if k == 1 {
      ValidatePlain(ms);
    } else {
      KeptWhole(ms, k);
      ValidateGroup(ms, k - 1);
    }
  }

  lemma HeadReplies(ms: seq<Message>)
    requires Balanced(ms) && ms != []
    ensures 1 + CallCount(ms[0]) <= |ms| && ms[0].role != Tool && ToolRun(ms[1..]) == CallCount(ms[0])
  {
    hide CallCount, Balanced;
    BalancedHead(ms);
    var k := 1 + CallCount(ms[0]);
    if k < |ms| {
      BalancedHead(ms[k..]);
      assert ms[k..][0] == ms[k];
    }
    ToolRunPrefix(ms[1..], k - 1);
  }

  lemma ValidateNone()
    ensures Validate([]) == []
  {
  }

  lemma {:induction false} ValidateFixesBalanced(ms: seq<Message>)
    requires Balanced(ms)
    ensures Validate(ms) == ms
    decreases |ms|
  {
    hide *;
    if ms == [] {
      ValidateNone();
    } else {
      BalancedHead(ms);
      HeadReplies(ms);
      var k := 1 + CallCount(ms[0]);
      ValidateFixesBalanced(ms[k..]);
      ValidateHeadGroup(ms, k);
      assert ms == ms[..k] + ms[k..];
    }
  }

  /** Validation changes a history exactly when its tool groups are not balanced. */
  lemma ValidateFixedIffBalanced(ms: seq<Message>)
    ensures Validate(ms) == ms <==> Balanced(ms)
  {
    ValidateBalances(ms);
    if Balanced(ms) {
      ValidateFixesBalanced(ms);
    }
  }

  function Plain(ms: seq<Message>): seq<Message> {
    if ms == [] then [] else (if IsPlain(ms[0]) then [ms[0]] else []) + Plain(ms[1..])
  }

  lemma {:induction false} PlainConcat(a: seq<Message>, b: seq<Message>)
    ensures Plain(a + b) == Plain(a) + Plain(b)
  {
    if a == [] {
      assert a + b == b;
    } else {
      assert (a + b)[1..] == a[1..] + b;
      PlainConcat(a[1..], b);
    }
  }

  lemma {:induction false} NoPlainIn(ms: seq<Message>)
    requires forall m | m in ms :: !IsPlain(m)
    ensures Plain(ms) == []
  {
    if ms != [] {
      NoPlainIn(ms[1..]);
    }
  }

  /** Validation removes tool work only: every plain message stays, in order. */
  lemma GroupHasNoPlain(ms: seq<Message>, k: nat)
    requires ms != [] && ms[0].role != Tool && CallCount(ms[0]) > 0 && 0 < k <= 1 + ToolRun(ms[1..])
    ensures k <= |ms| && Plain(ms[..k]) == []
  {
    hide CallCount, ToolRun, Plain;
    assert forall j | 0 < j < k :: ms[j] == ms[1..][j - 1];
    NoPlainIn(ms[..k]);
  }

  lemma KeptGroupHasNoPlain(ms: seq<Message>)
    requires ms != [] && ms[0].role != Tool && CallCount(ms[0]) > 0
    ensures Plain(KeptGroup(ms)) == []
  {
    hide CallCount, ToolRun;
    if ToolRun(ms[1..]) >= CallCount(ms[0]) {
      GroupHasNoPlain(ms, 1 + CallCount(ms[0]));
    }
  }

  lemma PlainHead(ms: seq<Message>)
    requires ms != []
    ensures Plain(ms) == Plain([ms[0]]) + Plain(ms[1..])
    ensures ms[0].role == Tool ==> Plain([ms[0]]) == []
  {
    hide CallCount;
    assert [ms[0]][1..] == [];
  }

  /** Tool work is all that validation drops. */
  lemma {:induction false} ValidateKeepsPlain(ms: seq<Message>)
    ensures Plain(Validate(ms)) == Plain(ms)
    decreases |ms|
  {
    hide CallCount, ToolRun, Plain, KeptGroup;
    if ms != [] {
      PlainHead(ms);
      if ms[0].role == Tool {
        ValidateKeepsPlain(ms[1..]);
      } else if CallCount(ms[0]) > 0 {
        var k := 1 + ToolRun(ms[1..]);
        ValidateKeepsPlain(ms[k..]);
        GroupHasNoPlain(ms, k);
        KeptGroupHasNoPlain(ms);
        ValidateGroup(ms, k - 1);
        PlainConcat(KeptGroup(ms), Validate(ms[k..]));
        PlainConcat(ms[..k], ms[k..]);
        assert ms == ms[..k] + ms[k..];
      } else {
        ValidateKeepsPlain(ms[1..]);
        PlainConcat([ms[0]], Validate(ms[1..]));
      }
    }
  }

  // ----- steps 3 and 4: trim both ends -----

  /** Index of the first user message, or the length when there is none. */
  function FirstUser(ms: seq<Message>): (n: nat)
    ensures n <= |ms| && (forall i | 0 <= i < n :: ms[i].role != User) && (n < |ms| ==> ms[n].role == User)
  {
    if ms == [] || ms[0].role == User then 0 else 1 + FirstUser(ms[1..])
  }

  predicate DropsLast(m: Message, dropTrailingUser: bool) {
    CallCount(m) > 0 || (dropTrailingUser && m.role == User && !IsHandled(m))
  }

  /** How much of a history is left once its droppable tail is popped. */
  function BackCut(ms: seq<Message>, dropTrailingUser: bool): (n: nat)
    ensures n <= |ms|
    ensures forall i | n <= i < |ms| :: DropsLast(ms[i], dropTrailingUser)
    ensures n > 0 ==> !DropsLast(ms[n - 1], dropTrailingUser)
  {
    if ms == [] || !DropsLast(ms[|ms| - 1], dropTrailingUser) then |ms| else BackCut(ms[..|ms| - 1], dropTrailingUser)
  }

  function Trim(ms: seq<Message>, dropTrailingUser: bool): seq<Message> {
    var front := ms[FirstUser(ms)..];
    front[..BackCut(front, dropTrailingUser)]
  }

  method TrimHistory(messages: seq<Message>, dropTrailingUser: bool) returns (trimmed: seq<Message>)
    ensures trimmed == Trim(messages, dropTrailingUser)
  {
    trimmed := messages;
    while trimmed != [] && trimmed[0].role != User
      invariant messages[FirstUser(messages)..] == trimmed[FirstUser(trimmed)..]
    {
      assert trimmed[FirstUser(trimmed)..] == trimmed[1..][FirstUser(trimmed[1..])..];
      trimmed := trimmed[1..];
    }
    ghost var front := trimmed;
    while trimmed != []
      invariant front[..BackCut(front, dropTrailingUser)] == trimmed[..BackCut(trimmed, dropTrailingUser)]
      decreases |trimmed|
    {
      var last := trimmed[|trimmed| - 1];
      if DropsLast(last, dropTrailingUser) {
        var cut := BackCut(trimmed[..|trimmed| - 1], dropTrailingUser);
        assert trimmed[..|trimmed| - 1][..cut] == trimmed[..cut];
        trimmed := trimmed[..|trimmed| - 1];
      } else {
        break;
      }
    }
    assert front == messages[FirstUser(messages)..];
    assert trimmed[..|trimmed|] == trimmed;
  }

  // ----- the repair -----

  function Sanitize(history: seq<Message>, dropTrailingUser: bool): seq<Message> {
    Trim(Validate(Deduplicate(history)), dropTrailingUser)
  }

  method SanitizeChatHistory(history: seq<Message>, dropTrailingUser: bool) returns (sanitized: seq<Message>)
    ensures sanitized == Sanitize(history, dropTrailingUser)
    ensures sanitized != [] ==> sanitized[0].role == User
  {
    SanitizeStartsWithUser(history, dropTrailingUser);
    if history == [] {
      return history;
    }
    var deduplicated := DeduplicateMessages(history);
    var validated := ValidateToolGroups(deduplicated);
    sanitized := TrimHistory(validated, dropTrailingUser);
  }

  lemma SanitizeStartsWithUser(history: seq<Message>, dropTrailingUser: bool)
    ensures var s := Sanitize(history, dropTrailingUser); s != [] ==> s[0].role == User
  {
    var v := Validate(Deduplicate(history));
    var front := v[FirstUser(v)..];
    assert front != [] ==> front[0] == v[FirstUser(v)];
  }

  /** What is left of the history when only the popping of its tail is still to come. */
  function BeforeTailTrim(history: seq<Message>): seq<Message> {
    var v := Validate(Deduplicate(history));
    v[FirstUser(v)..]
  }

  lemma BeforeTailTrimBalanced(history: seq<Message>)
    ensures Balanced(BeforeTailTrim(history))
  {
    var v := Validate(Deduplicate(history));
    ValidateBalances(Deduplicate(history));
    BalancedCut(v, FirstUser(v));
  }

  /** The tail is popped message by message, so the repair keeps tool groups balanced exactly when
      the oldest message it pops is not a tool reply. */
  lemma SanitizeBalancedIff(history: seq<Message>, dropTrailingUser: bool)
    ensures var w := BeforeTailTrim(history);
            var cut := BackCut(w, dropTrailingUser);
            Balanced(Sanitize(history, dropTrailingUser)) <==> cut == |w| || w[cut].role != Tool
  {
    BeforeTailTrimBalanced(history);
    BalancedCut(BeforeTailTrim(history), BackCut(BeforeTailTrim(history), dropTrailingUser));
  }

  /** What a run leaves at the end when it never finished: a message that advertises calls and, when asked,
      a user turn with none of the three tags of a handled one. */
  predicate Scaffolding(m: Message, dropTrailingUser: bool) {
    || CallCount(m) > 0
    || (dropTrailingUser && m.role == User && TurnHandled !in m.extra && ReactionTarget !in m.extra && OperatorFold !in m.extra)
  }

  /** Of the validated messages the repair leaves those from the first user message to the last one that
      is no scaffolding. */
  lemma SanitizeKeepsMiddle(history: seq<Message>, dropTrailingUser: bool) returns (i: nat, j: nat)
    ensures var v := Validate(Deduplicate(history));
            && i <= j <= |v| && Sanitize(history, dropTrailingUser) == v[i..j]
            && (forall k | 0 <= k < i :: v[k].role != User)
            && (i < |v| ==> v[i].role == User)
            && (forall k | j <= k < |v| :: Scaffolding(v[k], dropTrailingUser))
            && (i < j ==> !Scaffolding(v[j - 1], dropTrailingUser))
  {
    hide Validate, Deduplicate, DropsLast, Scaffolding;
    var v := Validate(Deduplicate(history));
    i := FirstUser(v);
    var front := v[i..];
    j := i + BackCut(front, dropTrailingUser);
    forall k | j <= k < |v|
      ensures Scaffolding(v[k], dropTrailingUser)
    {
      assert v[k] == front[k - i];
      DropsScaffolding(v[k], dropTrailingUser);
    }
    if i < j {
      assert v[j - 1] == front[j - i - 1];
      DropsScaffolding(v[j - 1], dropTrailingUser);
    }
    assert front[..j - i] == v[i..j];
  }

  lemma DropsScaffolding(m: Message, dropTrailingUser: bool)
    ensures DropsLast(m, dropTrailingUser) <==> Scaffolding(m, dropTrailingUser)
  {
    hide CallCount;
  }

  predicate BareToolReplies(ms: seq<Message>) {
    forall i | 0 <= i < |ms| :: ms[i].role == Tool ==> CallCount(ms[i]) == 0
  }

  lemma BareSnoc(ms: seq<Message>, m: Message)
    requires BareToolReplies(ms) && (m.role == Tool ==> CallCount(m) == 0)
    ensures BareToolReplies(ms + [m])
  {
    hide CallCount;
  }

  lemma {:induction false} DeduplicateKeepsBare(ms: seq<Message>)
    requires BareToolReplies(ms)
    ensures BareToolReplies(Deduplicate(ms))
  {
    hide CanMerge, CallCount, Fused;
    if ms != [] {
      var init, m := ms[..|ms| - 1], ms[|ms| - 1];
      assert forall i | 0 <= i < |init| :: init[i] == ms[i];
      DeduplicateKeepsBare(init);
      var d := Deduplicate(init);
      if d != [] && CanMerge(d[|d| - 1], m) {
        FusedKeepsKind(d[|d| - 1], m);
        BareSnoc(d[..|d| - 1], Fused(d[|d| - 1], m));
      } else {
        BareSnoc(d, m);
      }
    }
  }

  lemma {:induction false} ValidateSubset(ms: seq<Message>)
    ensures forall m | m in Validate(ms) :: m in ms
    decreases |ms|
  {
    if ms != [] {
      if ms[0].role == Tool || CallCount(ms[0]) == 0 {
        ValidateSubset(ms[1..]);
      } else {
        ValidateSubset(ms[1 + ToolRun(ms[1..])..]);
      }
    }
  }

  /** When no tool reply itself advertises calls, the repaired history is always balanced. */
  lemma SanitizeBalanced(history: seq<Message>, dropTrailingUser: bool)
    requires BareToolReplies(history)
    ensures Balanced(Sanitize(history, dropTrailingUser))
  {
    var w := BeforeTailTrim(history);
    var cut := BackCut(w, dropTrailingUser);
    DeduplicateKeepsBare(history);
    var d := Deduplicate(history);
    ValidateSubset(d);
    if cut < |w| {
      assert w[cut] in Validate(d);
      assert w[cut] in d;
    }
    SanitizeBalancedIff(history, dropTrailingUser);
  }

  /** Of a settled, balanced history that opens with a user turn only the droppable tail goes. */
  lemma SanitizeCleanHistory(history: seq<Message>, dropTrailingUser: bool)
    requires Settled(history) && Balanced(history)
    requires history != [] ==> history[0].role == User
    ensures BeforeTailTrim(history) == history
    ensures Sanitize(history, dropTrailingUser) == history[..BackCut(history, dropTrailingUser)]
  {
    DeduplicateSettles(history);
    ValidateFixesBalanced(history);
    assert FirstUser(history) == 0 && history[0..] == history;
  }

  lemma ExchangeIsClean(question: Message, work: Message, done: Message, odd: Message)
    requires question.role == User && CallCount(question) == 0
    requires work.role == Assistant && CallCount(work) == 2
    requires done.role == Tool && odd.role == Tool
    ensures Settled([question, work, done, odd]) && Balanced([question, work, done, odd])
  {
    SettledSnoc([question], work);
    SettledSnoc([question] + [work], done);
    SettledSnoc([question] + [work] + [done], odd);
    OwedSnoc([], question);
    OwedSnoc([question], work);
    OwedSnoc([question] + [work], done);
    OwedSnoc([question] + [work] + [done], odd);
    assert [question] == [] + [question];
    assert [question, work, done, odd] == [question] + [work] + [done] + [odd];
  }

  /** A reply that itself advertises a call is popped from behind its sibling. */
  lemma SanitizeSplitsGroup(question: Message, work: Message, done: Message, odd: Message)
    requires question.role == User && CallCount(question) == 0
    requires work.role == Assistant && CallCount(work) == 2
    requires done.role == Tool && CallCount(done) == 0
    requires odd.role == Tool && CallCount(odd) > 0
    ensures !Balanced(Sanitize([question, work, done, odd], true))
  {
    var history := [question, work, done, odd];
    ExchangeIsClean(question, work, done, odd);
    SanitizeCleanHistory(history, true);
    assert BackCut(history, true) == BackCut(history[..3], true);
    assert history[..3][2] == done;
    SanitizeBalancedIff(history, true);
  }

  /** So there are histories whose repair leaves a call without all of its replies. */
  lemma SanitizeCanUnbalance()
    ensures exists history: seq<Message> :: !Balanced(Sanitize(history, true))
  {
    hide Sanitize, Balanced, Owed;
    var call := Object(map["function" := Object(map["name" := Str("send")])]);
    assert WireCallCount([call]) == 1 + WireCallCount([]) by {
      assert [call][1..] == [];
    }
    assert WireCallCount([call, call]) == 1 + WireCallCount([call]) by {
      assert [call, call][1..] == [call];
    }
    var question := Message(User, [], map[]);
    var work := Message(Assistant, [], map[ToolCalls := Array([call, call])]);
    var done := Message(Tool, [], map[]);
    var odd := Message(Tool, [], map[ToolCalls := Array([call])]);
    SanitizeSplitsGroup(question, work, done, odd);
  }

  // ----- how many passes -----

  /** Merging neighbours never changes what is owed, so it neither mends nor breaks a tool group. */
  lemma {:induction false} DeduplicateKeepsOwed(ms: seq<Message>)
    ensures Owed(Deduplicate(ms)) == Owed(ms)
  {
    if ms != [] {
      var init, m := ms[..|ms| - 1], ms[|ms| - 1];
      DeduplicateKeepsOwed(init);
      var d := Deduplicate(init);
      if d != [] && CanMerge(d[|d| - 1], m) {
        var last := d[|d| - 1];
        FusedKeepsKind(last, m);
        assert d == d[..|d| - 1] + [last];
        OwedSnoc(d[..|d| - 1], last);
        OwedSnoc(d[..|d| - 1], Fused(last, m));
      } else {
        OwedSnoc(d, m);
      }
    }
  }

  lemma DeduplicateEnds(ms: seq<Message>)
    requires ms != []
    ensures Deduplicate(ms) != []
    ensures Deduplicate(ms)[0].role == ms[0].role
    ensures var last := Deduplicate(ms)[|Deduplicate(ms)| - 1];
            forall flag :: DropsLast(last, flag) ==> DropsLast(ms[|ms| - 1], flag)
  {
    var init, m := ms[..|ms| - 1], ms[|ms| - 1];
    var d := Deduplicate(init);
    if d != [] && CanMerge(d[|d| - 1], m) {
      FusedKeepsKind(d[|d| - 1], m);
    }
    if init != [] {
      DeduplicateEnds(init);
    }
  }

  ghost predicate Repaired(ms: seq<Message>, dropTrailingUser: bool) {
    && Balanced(ms)
    && (ms != [] ==> ms[0].role == User && !DropsLast(ms[|ms| - 1], dropTrailingUser))
  }

  lemma SanitizeRepairs(history: seq<Message>, dropTrailingUser: bool)
    requires Balanced(Sanitize(history, dropTrailingUser))
    ensures Repaired(Sanitize(history, dropTrailingUser), dropTrailingUser)
  {
    SanitizeStartsWithUser(history, dropTrailingUser);
    var w := BeforeTailTrim(history);
    var cut := BackCut(w, dropTrailingUser);
    assert cut > 0 ==> w[..cut][cut - 1] == w[cut - 1];
  }

  /** On a repaired history a further pass does nothing but merge neighbours. */
  lemma RepairedPassMergesOnly(ms: seq<Message>, dropTrailingUser: bool)
    requires Repaired(ms, dropTrailingUser)
    ensures Sanitize(ms, dropTrailingUser) == Deduplicate(ms)
    ensures Repaired(Deduplicate(ms), dropTrailingUser)
  {
    var d := Deduplicate(ms);
    DeduplicateKeepsOwed(ms);
    ValidateFixesBalanced(d);
    if ms != [] {
      DeduplicateEnds(ms);
      assert FirstUser(d) == 0;
      assert d[0..] == d;
      assert BackCut(d, dropTrailingUser) == |d|;
      assert d[..|d|] == d;
    }
  }

  lemma KeptGroupSize(ms: seq<Message>)
    requires ms != []
    ensures |KeptGroup(ms)| <= 1 + ToolRun(ms[1..])
    ensures |KeptGroup(ms)| == 1 + ToolRun(ms[1..]) ==> KeptGroup(ms) == ms[..1 + ToolRun(ms[1..])]
  {
  }

  /** Validation shortens every history that it changes. */
  lemma {:induction false} ValidateShortens(ms: seq<Message>)
    ensures |Validate(ms)| <= |ms|
    ensures |Validate(ms)| == |ms| ==> Validate(ms) == ms
    decreases |ms|
  {
    hide CallCount, ToolRun, KeptGroup;
    if ms != [] {
      if ms[0].role != Tool && CallCount(ms[0]) > 0 {
        var k := 1 + ToolRun(ms[1..]);
        ValidateShortens(ms[k..]);
        KeptGroupSize(ms);
        assert ms == ms[..k] + ms[k..];
      } else {
        ValidateShortens(ms[1..]);
        assert ms == [ms[0]] + ms[1..];
      }
    }
  }

  /** When the first pass leaves a group broken, the second pass cannot be a mere merge. */
  lemma BrokenPassDrops(ms: seq<Message>, dropTrailingUser: bool)
    requires !Balanced(ms)
    ensures |Sanitize(ms, dropTrailingUser)| < |Deduplicate(ms)|
  {
    var d := Deduplicate(ms);
    DeduplicateKeepsOwed(ms);
    ValidateShortens(d);
    ValidateFixedIffBalanced(d);
  }

  /** For every history: the second pass does nothing but merge neighbours exactly when the first one
      left balanced groups (SanitizeBalancedIff says when it does). Then it loses no word and reaches
      a fixed point, and it changes something exactly when the first pass left a pair to merge. */
  lemma SanitizeTwoPasses(history: seq<Message>, dropTrailingUser: bool)
    ensures var once := Sanitize(history, dropTrailingUser);
            var twice := Sanitize(once, dropTrailingUser);
            && (twice == Deduplicate(once) <==> Balanced(once))
            && (Balanced(once) ==>
                  && HistoryWords(twice) == HistoryWords(once)
                  && Sanitize(twice, dropTrailingUser) == twice
                  && Settled(twice)
                  && (twice == once <==> Settled(once)))
  {
    hide Sanitize, Balanced, Settled, Repaired;
    var once := Sanitize(history, dropTrailingUser);
    if Balanced(once) {
      SanitizeRepairs(history, dropTrailingUser);
      RepairedPassMergesOnly(once, dropTrailingUser);
      RepairedPassMergesOnly(Deduplicate(once), dropTrailingUser);
      DeduplicateIdempotent(once);
      DeduplicateKeepsWords(once);
      DeduplicateSettles(once);
    } else {
      BrokenPassDrops(once, dropTrailingUser);
    }
  }

  lemma ValidateDropsUnanswered(turn: Message, work: Message)
    requires turn.role == User && CallCount(turn) == 0
    requires work.role == Assistant && CallCount(work) > 0
    ensures Validate([turn, work, turn]) == [turn, turn]
  {
    hide CallCount;
    var history := [turn, work, turn];
    ValidateFrom(history, 0);
    ValidateFrom(history, 1);
    ValidateFrom(history, 2);
    assert history[0..] == history && history[2..] == [turn] && history[3..] == [];
    assert history[1..][1..] == [turn] && KeptGroup(history[1..]) == [];
    assert Validate(history) == [turn] + ([] + ([turn] + []));
  }

  /** Dropping an unanswered tool call leaves the two turns around it side by side. */
  lemma SanitizeDropsUnanswered(turn: Message, work: Message)
    requires turn.role == User && CallCount(turn) == 0
    requires work.role == Assistant && CallCount(work) > 0
    ensures Sanitize([turn, work, turn], false) == [turn, turn]
  {
    var history := [turn, work, turn];
    SettledSnoc([turn], work);
    SettledSnoc([turn] + [work], turn);
    assert history == [turn] + [work] + [turn];
    DeduplicateSettles(history);
    ValidateDropsUnanswered(turn, work);
    var v := [turn, turn];
    assert v[0..] == v && v[..2] == v;
  }

  /** One pass is not enough in general, against the alternation the documentation promises. */
  lemma SanitizeOnceMayNotSettle()
    ensures exists history: seq<Message> ::
              BareToolReplies(history) && !Settled(Sanitize(history, false))
  {
    hide Sanitize;
    var call := Object(map["function" := Object(map["name" := Str("send")])]);
    var turn := Message(User, [], map[]);
    var work := Message(Assistant, [], map[ToolCalls := Array([call])]);
    assert WireCallCount([call]) == 1 + WireCallCount([]) by {
      assert [call][1..] == [];
    }
    SanitizeDropsUnanswered(turn, work);
    assert CanMerge(turn, turn);
    assert BareToolReplies([turn, work, turn]);
  }

  /** After two passes neighbours share a role only inside tool work or across the private boundary. */
  lemma SanitizeTwiceAlternates(history: seq<Message>, dropTrailingUser: bool, i: nat)
    requires Balanced(Sanitize(history, dropTrailingUser))
    requires 0 < i < |Sanitize(Sanitize(history, dropTrailingUser), dropTrailingUser)|
    ensures var s := Sanitize(Sanitize(history, dropTrailingUser), dropTrailingUser);
            s[i - 1].role == s[i].role && IsPlain(s[i - 1]) && IsPlain(s[i]) ==> CrossesWrapUpBoundary(s[i - 1], s[i])
  {
    hide Sanitize;
    SanitizeTwoPasses(history, dropTrailingUser);
    SettledAt(Sanitize(Sanitize(history, dropTrailingUser), dropTrailingUser), i);
  }
}
