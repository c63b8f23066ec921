/** Squeezing old history (src/wahabot/ai/history/degrade.py). */
module Degrade {
  // The work is dropped, the conversation kept. JSON text is an abstract codec.

  import opened Text
  import opened Messages
  import Budget
  import opened Optional

  const FRESH_TURNS := 2
  const CALL_ARG_PREVIEW := 80
  const MIN_SQUEEZE_GAIN := 32
  const VERDICT_KEYS := {"ok", "error", "outcome", "chat", "tool", "exit_code", "capture_errors"}

  /** `json.dumps` and `json.loads`; an undecodable text loads as None. */
  datatype Codec = Codec(dumps: Json -> string, loads: string -> Option<Json>) {
    ghost predicate RoundTrips(v: Json) {
      loads(dumps(v)) == Some(v) && Strip(dumps(v)) == dumps(v)
    }

    /** The verdict of whatever was loaded is loaded back as it was dumped, and its text has no white
        space at its ends. */
    ghost predicate Lawful() {
      forall text | loads(text).Some? && loads(text).value.Object? ::
        RoundTrips(Object(Verdict(loads(text).value.fields)))
    }
  }

  type Arguments = map<string, Json>

  function TrimCallValue(v: Json): Json {
    if v.Str? && |v.s| > CALL_ARG_PREVIEW then Str(v.s[..CALL_ARG_PREVIEW] + "…") else v
  }

  function TrimmedArguments(args: Arguments): Arguments {
    map k | k in args :: TrimCallValue(args[k])
  }

  /** The trimmed arguments, or None when trimming would not gain enough. */
  function SqueezeArguments(args: Arguments, codec: Codec): Option<Arguments> {
    if args == map[] then None
    else
      var squeezed := TrimmedArguments(args);
      if |codec.dumps(Object(squeezed))| + MIN_SQUEEZE_GAIN > |codec.dumps(Object(args))| then None
      else Some(squeezed)
  }

  function ParsedArguments(raw: RawArguments, codec: Codec): Option<Arguments> {
    var parsed :=
      match raw
      case ArgumentText(text) => codec.loads(text)
      case ArgumentValue(v) => Some(v);
    if parsed.Some? && parsed.value.Object? then Some(parsed.value.fields) else None
  }

  function WireArguments(call: Json): RawArguments {
    if call.Object? && "function" in call.fields && call.fields["function"].Object?
       && "arguments" in call.fields["function"].fields
    then
      var a := call.fields["function"].fields["arguments"];
      if a.Str? then ArgumentText(a.s) else ArgumentValue(a)
    else ArgumentValue(Null)
  }

  function FindWireCall(calls: seq<Json>, id: string, codec: Codec): Option<Arguments> {
    if calls == [] then None
    else if calls[0].Object? && "id" in calls[0].fields && calls[0].fields["id"] == Str(id)
    then ParsedArguments(WireArguments(calls[0]), codec)
    else FindWireCall(calls[1..], id, codec)
  }

  /** The full arguments a call was issued with, from the provider's own record of it. */
  function OriginalArguments(extra: map<Key, Json>, id: string, codec: Codec): Option<Arguments> {
    if ToolCalls in extra && extra[ToolCalls].Array? then FindWireCall(extra[ToolCalls].items, id, codec) else None
  }

  predicate OnlyReason(args: Arguments) {
    args.Keys <= {"reason"}
  }

  /** The original arguments of a call that an older squeeze cut down to its reason. */
  function RepairedArguments(id: string, args: Arguments, extra: map<Key, Json>, codec: Codec): Option<Arguments> {
    if id == "" || !OnlyReason(args) then None
    else
      var original := OriginalArguments(extra, id, codec);
      if original.Some? && !OnlyReason(original.value) then original else None
  }

  function DegradedBlock(b: Block, extra: map<Key, Json>, codec: Codec): Block
    requires b.ToolCallBlock?
  {
    var args := ParsedArguments(b.arguments, codec);
    if args.None? then b
    else
      var repaired := RepairedArguments(b.id, args.value, extra, codec);
      var source := if repaired.Some? then repaired.value else args.value;
      var squeezed := SqueezeArguments(source, codec);
      var verdict := if squeezed.Some? then squeezed else repaired;
      if verdict.None? then b else b.(arguments := ArgumentValue(Object(verdict.value)))
  }

  function DegradedBlocks(blocks: seq<Block>, extra: map<Key, Json>, codec: Codec): seq<Block> {
    if blocks == [] then []
    else
      var b := blocks[0];
      (if b.ThinkingBlock? then [] else if b.ToolCallBlock? then [DegradedBlock(b, extra, codec)] else [b])
      + DegradedBlocks(blocks[1..], extra, codec)
  }

  function Verdict(payload: map<string, Json>): map<string, Json> {
    map k | k in payload && k in VERDICT_KEYS :: payload[k]
  }

  function SqueezeToolResult(m: Message, codec: Codec): Message {
    var text := Strip(Content(m));
    var payload := codec.loads(text);
    if payload.None? || !payload.value.Object? then m
    else
      var verdict := Verdict(payload.value.fields);
      if verdict == map[] || |codec.dumps(Object(verdict))| >= |text| then m
      else Message(m.role, [TextBlock(codec.dumps(Object(verdict)))], m.extra)
  }

  function DegradeMessage(m: Message, codec: Codec): Message {
    if m.role == Tool then SqueezeToolResult(m, codec)
    else m.(blocks := DegradedBlocks(m.blocks, m.extra, codec))
  }

  /** Index of the second-newest user turn among the first n messages; 0 when there are fewer than
      two, so that nothing counts as old. */
  function UserBefore(ms: seq<Message>, n: nat, skip: nat): (i: nat)
    requires n <= |ms|
    ensures i <= n
  {
    if n == 0 then 0
    else if ms[n - 1].role == User then (if skip == 0 then n - 1 else UserBefore(ms, n - 1, skip - 1))
    else UserBefore(ms, n - 1, skip)
  }

  function UserTurns(ms: seq<Message>): nat {
    if ms == [] then 0 else UserTurns(ms[..|ms| - 1]) + (if ms[|ms| - 1].role == User then 1 else 0)
  }

  /** Everything from here on is fresh and stays verbatim. */
  function Cutoff(ms: seq<Message>): (i: nat)
    ensures i <= |ms|
  {
    if UserTurns(ms) <= FRESH_TURNS then 0 else UserBefore(ms, |ms|, FRESH_TURNS - 1)
  }

  function DegradeAll(ms: seq<Message>, codec: Codec): (r: seq<Message>)
    ensures |r| == |ms| && forall i | 0 <= i < |ms| :: r[i] == DegradeMessage(ms[i], codec)
  {
    seq(|ms|, i requires 0 <= i < |ms| => DegradeMessage(ms[i], codec))
  }

  function DegradeOldHistory(ms: seq<Message>, codec: Codec): seq<Message> {
    if UserTurns(ms) <= FRESH_TURNS then ms
    else DegradeAll(ms[..Cutoff(ms)], codec) + ms[Cutoff(ms)..]
  }

  // ----- one call -----

  lemma TrimCallValueIdempotent(v: Json)
    ensures TrimCallValue(TrimCallValue(v)) == TrimCallValue(v)
  {
    if v.Str? && |v.s| > CALL_ARG_PREVIEW {
      assert (v.s[..CALL_ARG_PREVIEW] + "…")[..CALL_ARG_PREVIEW] == v.s[..CALL_ARG_PREVIEW];
    }
  }

  /** A squeeze is final: every key stays, and the squeezed arguments are never squeezed again. */
  lemma SqueezeIsFinal(args: Arguments, codec: Codec)
    requires SqueezeArguments(args, codec).Some?
    ensures var squeezed := SqueezeArguments(args, codec).value;
            squeezed.Keys == args.Keys && SqueezeArguments(squeezed, codec).None?
  {
    var squeezed := TrimmedArguments(args);
    forall k | k in args
      ensures TrimCallValue(TrimCallValue(args[k])) == TrimCallValue(args[k])
    {
      TrimCallValueIdempotent(args[k]);
    }
    assert TrimmedArguments(squeezed) == squeezed;
  }

  /** Squeezing a call twice is squeezing it once, a repaired call included. */
  lemma DegradedBlockIdempotent(b: Block, extra: map<Key, Json>, codec: Codec)
    requires b.ToolCallBlock?
    ensures DegradedBlock(DegradedBlock(b, extra, codec), extra, codec) == DegradedBlock(b, extra, codec)
  {
    var args := ParsedArguments(b.arguments, codec);
    if args.Some? {
      var repaired := RepairedArguments(b.id, args.value, extra, codec);
      var source := if repaired.Some? then repaired.value else args.value;
      if SqueezeArguments(source, codec).Some? {
        SqueezeIsFinal(source, codec);
      }
    }
  }

  /** The call keeps its id, its name and every argument name; a call cut down to its reason gets the
      argument names of the original call back when that is on record. */
  lemma DegradedBlockKeepsCall(b: Block, extra: map<Key, Json>, codec: Codec)
    requires b.ToolCallBlock?
    ensures var d := DegradedBlock(b, extra, codec);
            && d.ToolCallBlock? && d.id == b.id && d.name == b.name
            && var before, after := ParsedArguments(b.arguments, codec), ParsedArguments(d.arguments, codec);
            && (before.None? ==> d == b)
            && (before.Some? ==> after.Some?)
            && (before.Some? ==>
                  var repaired := RepairedArguments(b.id, before.value, extra, codec);
                  after.value.Keys == if repaired.Some? then repaired.value.Keys else before.value.Keys)
  {
    var args := ParsedArguments(b.arguments, codec);
    if args.Some? {
      var repaired := RepairedArguments(b.id, args.value, extra, codec);
      var source := if repaired.Some? then repaired.value else args.value;
      if SqueezeArguments(source, codec).Some? {
        SqueezeIsFinal(source, codec);
      }
    }
  }

  // ----- one message -----

  lemma {:induction false} DegradedBlocksFacts(blocks: seq<Block>, extra: map<Key, Json>, codec: Codec)
    ensures var d := DegradedBlocks(blocks, extra, codec);
            && DegradedBlocks(d, extra, codec) == d
            && |CallBlocks(d)| == |CallBlocks(blocks)|
            && BlockTexts(d) == BlockTexts(blocks)
            && forall b | b in d :: !b.ThinkingBlock?
  {
    if blocks != [] {
      var b := blocks[0];
      var rest := DegradedBlocks(blocks[1..], extra, codec);
      DegradedBlocksFacts(blocks[1..], extra, codec);
      if b.ThinkingBlock? {
        assert [] + rest == rest;
      } else {
        var first := if b.ToolCallBlock? then DegradedBlock(b, extra, codec) else b;
        if b.ToolCallBlock? {
          DegradedBlockIdempotent(b, extra, codec);
        }
        assert ([first] + rest)[1..] == rest;
      }
    }
  }

  lemma SqueezeToolResultIdempotent(m: Message, codec: Codec)
    requires codec.Lawful()
    ensures SqueezeToolResult(SqueezeToolResult(m, codec), codec) == SqueezeToolResult(m, codec)
  {
    var payload := codec.loads(Strip(Content(m)));
    if payload.Some? && payload.value.Object? {
      var verdict := Verdict(payload.value.fields);
      var text := codec.dumps(Object(verdict));
      if verdict != map[] && |text| < |Strip(Content(m))| {
        ContentOfText(text);
        assert codec.RoundTrips(Object(verdict));
        assert Verdict(verdict) == verdict;
      }
    }
  }

  lemma ContentOfText(text: string)
    ensures forall role, extra :: Content(Message(role, [TextBlock(text)], extra)) == text
  {
    assert [TextBlock(text)][1..] == [];
    assert BlockTexts([TextBlock(text)]) == [text];
  }

  lemma DegradeMessageIdempotent(m: Message, codec: Codec)
    requires codec.Lawful()
    ensures DegradeMessage(DegradeMessage(m, codec), codec) == DegradeMessage(m, codec)
  {
    if m.role == Tool {
      SqueezeToolResultIdempotent(m, codec);
    } else {
      DegradedBlocksFacts(m.blocks, m.extra, codec);
    }
  }

  /** Outside tool results nothing the chat saw is lost: role, tags, text and calls stay. */
  lemma DegradeMessageKeepsConversation(m: Message, codec: Codec)
    ensures var d := DegradeMessage(m, codec);
            && d.role == m.role && d.extra == m.extra
            && (m.role != Tool ==> Content(d) == Content(m) && CallCount(d) == CallCount(m))
  {
    if m.role != Tool {
      DegradedBlocksFacts(m.blocks, m.extra, codec);
    }
  }

  function WithoutThinking(blocks: seq<Block>): seq<Block> {
    if blocks == [] then []
    else (if blocks[0].ThinkingBlock? then [] else [blocks[0]]) + WithoutThinking(blocks[1..])
  }

  /** What is left of a message that is no tool result: everything but the thinking, in order, with its
      calls squeezed. */
  lemma {:induction false} ThinkingIsDropped(blocks: seq<Block>, extra: map<Key, Json>, codec: Codec)
    ensures var d, kept := DegradedBlocks(blocks, extra, codec), WithoutThinking(blocks);
            && |d| == |kept|
            && forall i | 0 <= i < |d| :: d[i] == if kept[i].ToolCallBlock? then DegradedBlock(kept[i], extra, codec) else kept[i]
  {
    hide DegradedBlock;
    if blocks != [] {
      var d, kept := DegradedBlocks(blocks[1..], extra, codec), WithoutThinking(blocks[1..]);
      ThinkingIsDropped(blocks[1..], extra, codec);
      assert [] + d == d && [] + kept == kept;
      if !blocks[0].ThinkingBlock? {
        var first := if blocks[0].ToolCallBlock? then DegradedBlock(blocks[0], extra, codec) else blocks[0];
        assert DegradedBlocks(blocks, extra, codec) == [first] + d && WithoutThinking(blocks) == [blocks[0]] + kept;
        EachInFront(blocks[0], first, d, kept, extra, codec);
      } else {
        assert DegradedBlocks(blocks, extra, codec) == d && WithoutThinking(blocks) == kept;
      }
    }
  }

  lemma EachInFront(b: Block, first: Block, d: seq<Block>, kept: seq<Block>, extra: map<Key, Json>, codec: Codec)
    requires |d| == |kept| && first == if b.ToolCallBlock? then DegradedBlock(b, extra, codec) else b
    requires forall i | 0 <= i < |d| :: d[i] == if kept[i].ToolCallBlock? then DegradedBlock(kept[i], extra, codec) else kept[i]
    ensures var x, y := [first] + d, [b] + kept;
            forall i | 0 <= i < |x| :: x[i] == if y[i].ToolCallBlock? then DegradedBlock(y[i], extra, codec) else y[i]
  {
    hide DegradedBlock;
    var x, y := [first] + d, [b] + kept;
    forall i | 0 <= i < |x|
      ensures x[i] == if y[i].ToolCallBlock? then DegradedBlock(y[i], extra, codec) else y[i]
    {
      assert i > 0 ==> x[i] == d[i - 1] && y[i] == kept[i - 1];
    }
  }

  /** What a call's arguments become: strings of more than 80 characters keep the first 80 and an ellipsis
      and all else stays, when that makes their JSON at least 32 characters shorter; otherwise nothing
      changes. The arguments are the call's own, or the original ones of a call once cut to its reason. */
  lemma CallIsSqueezed(b: Block, extra: map<Key, Json>, codec: Codec)
    requires b.ToolCallBlock? && ParsedArguments(b.arguments, codec).Some?
    ensures var own := ParsedArguments(b.arguments, codec).value;
            var repaired := RepairedArguments(b.id, own, extra, codec);
            var args := if repaired.Some? then repaired.value else own;
            var short := map k | k in args :: if args[k].Str? && |args[k].s| > 80 then Str(args[k].s[..80] + "…") else args[k];
            ParsedArguments(DegradedBlock(b, extra, codec).arguments, codec)
            == Some(if args != map[] && |codec.dumps(Object(short))| + 32 <= |codec.dumps(Object(args))| then short else args)
  {
    var own := ParsedArguments(b.arguments, codec).value;
    var repaired := RepairedArguments(b.id, own, extra, codec);
    var args := if repaired.Some? then repaired.value else own;
    var short := map k | k in args :: if args[k].Str? && |args[k].s| > 80 then Str(args[k].s[..80] + "…") else args[k];
    assert TrimmedArguments(args) == short;
  }

  /** A tool result that is a JSON object keeps its verdict keys and nothing else, when that is shorter
      than the result and not empty; any other result stays. */
  lemma ToolResultIsCut(m: Message, codec: Codec)
    requires m.role == Tool
    ensures var text := Strip(Content(m));
            var loaded := codec.loads(text);
            if loaded.None? || !loaded.value.Object? then DegradeMessage(m, codec) == m
            else
              var fields := loaded.value.fields;
              var verdict := map k | k in fields && k in {"ok", "error", "outcome", "chat", "tool", "exit_code", "capture_errors"} :: fields[k];
              if verdict != map[] && |codec.dumps(Object(verdict))| < |text| then Content(DegradeMessage(m, codec)) == codec.dumps(Object(verdict))
              else DegradeMessage(m, codec) == m
  {
    var loaded := codec.loads(Strip(Content(m)));
    if loaded.Some? && loaded.value.Object? {
      var fields := loaded.value.fields;
      var verdict := map k | k in fields && k in {"ok", "error", "outcome", "chat", "tool", "exit_code", "capture_errors"} :: fields[k];
      assert Verdict(fields) == verdict;
      ContentOfText(codec.dumps(Object(verdict)));
    }
  }

  /** A tool result that was a JSON object still answers the same for every verdict key. */
  lemma VerdictSurvives(m: Message, codec: Codec)
    requires codec.Lawful() && m.role == Tool
    requires var p := codec.loads(Strip(Content(m))); p.Some? && p.value.Object?
    ensures var before := codec.loads(Strip(Content(m))).value.fields;
            var after := codec.loads(Strip(Content(DegradeMessage(m, codec))));
            after.Some? && after.value.Object? && Verdict(after.value.fields) == Verdict(before)
  {
    var verdict := Verdict(codec.loads(Strip(Content(m))).value.fields);
    var text := codec.dumps(Object(verdict));
    ContentOfText(text);
    assert codec.RoundTrips(Object(verdict));
    assert Verdict(verdict) == verdict;
  }

  // ----- the whole history -----

  /** Where the fresh part starts depends on the roles alone. */
  lemma {:induction false} CutoffByRoles(a: seq<Message>, b: seq<Message>)
    requires |a| == |b| && forall i | 0 <= i < |a| :: a[i].role == b[i].role
    ensures Cutoff(a) == Cutoff(b) && UserTurns(a) == UserTurns(b)
  {
    UserTurnsByRoles(a, b);
    UserBeforeByRoles(a, b, |a|, FRESH_TURNS - 1);
  }

  lemma {:induction false} UserTurnsByRoles(a: seq<Message>, b: seq<Message>)
    requires |a| == |b| && forall i | 0 <= i < |a| :: a[i].role == b[i].role
    ensures UserTurns(a) == UserTurns(b)
  {
    if a != [] {
      UserTurnsByRoles(a[..|a| - 1], b[..|b| - 1]);
    }
  }

  lemma {:induction false} UserBeforeByRoles(a: seq<Message>, b: seq<Message>, n: nat, skip: nat)
    requires n <= |a| && n <= |b| && forall i | 0 <= i < n :: a[i].role == b[i].role
    ensures UserBefore(a, n, skip) == UserBefore(b, n, skip)
  {
    if n > 0 {
      UserBeforeByRoles(a, b, n - 1, skip);
      if skip > 0 {
        UserBeforeByRoles(a, b, n - 1, skip - 1);
      }
    }
  }

  lemma {:induction false} UserBeforeGrows(ms: seq<Message>, n: nat, m: nat, skip: nat)
    requires n <= m <= |ms|
    ensures UserBefore(ms, n, skip) <= UserBefore(ms, m, skip)
    decreases m
  {
    if n < m {
      UserBeforeGrows(ms, n, m - 1, skip);
      if skip > 0 && ms[m - 1].role == User {
        UserBeforeDeeper(ms, m - 1, skip - 1);
      }
    }
  }

  lemma {:induction false} UserBeforeDeeper(ms: seq<Message>, n: nat, skip: nat)
    requires n <= |ms|
    ensures UserBefore(ms, n, skip + 1) <= UserBefore(ms, n, skip)
  {
    if n > 0 {
      UserBeforeDeeper(ms, n - 1, skip);
      if skip > 0 {
        UserBeforeDeeper(ms, n - 1, skip - 1);
      }
    }
  }

  lemma {:induction false} UserTurnsConcat(a: seq<Message>, b: seq<Message>)
    ensures UserTurns(a + b) == UserTurns(a) + UserTurns(b)
  {
    if b == [] {
      assert a + b == a;
    } else {
      UserTurnsConcat(a, b[..|b| - 1]);
      assert (a + b)[..|a + b| - 1] == a + b[..|b| - 1];
    }
  }

  lemma CutoffGrows(h: seq<Message>, t: seq<Message>)
    ensures Cutoff(h) <= Cutoff(h + t)
  {
    UserTurnsConcat(h, t);
    if UserTurns(h) > FRESH_TURNS {
      UserBeforeByRoles(h, h + t, |h|, FRESH_TURNS - 1);
      UserBeforeGrows(h + t, |h|, |h + t|, FRESH_TURNS - 1);
    }
  }

  /** Message by message: old ones are degraded, fresh ones are as they were. */
  lemma DegradeAt(ms: seq<Message>, codec: Codec)
    ensures var d := DegradeOldHistory(ms, codec);
            && |d| == |ms|
            && (forall i | 0 <= i < |ms| :: d[i] == if i < Cutoff(ms) then DegradeMessage(ms[i], codec) else ms[i])
            && (forall i | 0 <= i < |ms| :: d[i].role == ms[i].role)
            && d[Cutoff(ms)..] == ms[Cutoff(ms)..]
  {
    forall i | 0 <= i < |ms|
      ensures DegradeMessage(ms[i], codec).role == ms[i].role
    {
      DegradeMessageKeepsConversation(ms[i], codec);
    }
  }

  /** User messages from index i on. */
  function UsersFrom(ms: seq<Message>, i: nat): nat
    decreases |ms| - i
  {
    if i >= |ms| then 0 else (if ms[i].role == User then 1 else 0) + UsersFrom(ms, i + 1)
  }

  /** Counting forwards and backwards. */
  lemma {:induction false} UsersSplit(ms: seq<Message>, i: nat)
    requires i <= |ms|
    ensures UserTurns(ms) == UserTurns(ms[..i]) + UsersFrom(ms, i)
    decreases |ms| - i
  {
    if i == |ms| {
      assert ms[..i] == ms;
    } else {
      UsersSplit(ms, i + 1);
      assert ms[..i + 1][..i] == ms[..i];
    }
  }

  lemma {:induction false} CutoffIs(ms: seq<Message>, n: nat, u: nat, skip: nat)
    requires u < n <= |ms| && ms[u].role == User && UserTurns(ms[u + 1..n]) == skip
    ensures UserBefore(ms, n, skip) == u
    decreases n
  {
    if u + 1 < n {
      var behind := ms[u + 1..n];
      assert behind[..|behind| - 1] == ms[u + 1..n - 1] && behind[|behind| - 1] == ms[n - 1];
      if ms[n - 1].role == User {
        CutoffIs(ms, n - 1, u, skip - 1);
      } else {
        CutoffIs(ms, n - 1, u, skip);
      }
    }
  }

  lemma {:induction false} UsersBehind(ms: seq<Message>, i: nat)
    requires i <= |ms|
    ensures UserTurns(ms[i..]) == UsersFrom(ms, i)
  {
    assert ms == ms[..i] + ms[i..];
    UserTurnsConcat(ms[..i], ms[i..]);
    UsersSplit(ms, i);
  }

  /** The two newest user turns stay verbatim, and only with a third does anything change: then exactly
      the messages before the second-newest user message are degraded, one by one. */
  lemma FreshTurnsStay(ms: seq<Message>, codec: Codec)
    ensures UsersFrom(ms, 0) <= 2 ==> DegradeOldHistory(ms, codec) == ms
    ensures forall u | 0 <= u < |ms| && UsersFrom(ms, 0) > 2 && ms[u].role == User && UsersFrom(ms, u + 1) == 1 ::
              DegradeOldHistory(ms, codec) == DegradeAll(ms[..u], codec) + ms[u..]
  {
    UsersSplit(ms, 0);
    assert UserTurns(ms[..0]) == 0;
    forall u | 0 <= u < |ms| && UsersFrom(ms, 0) > 2 && ms[u].role == User && UsersFrom(ms, u + 1) == 1
      ensures DegradeOldHistory(ms, codec) == DegradeAll(ms[..u], codec) + ms[u..]
    {
      UsersBehind(ms, u + 1);
      assert ms[u + 1..|ms|] == ms[u + 1..];
      CutoffIs(ms, |ms|, u, 1);
    }
  }

  /** Degrading what was degraded and then grew equals degrading the grown history at once. */
  lemma DegradeCompounds(h: seq<Message>, t: seq<Message>, codec: Codec)
    requires codec.Lawful()
    ensures DegradeOldHistory(DegradeOldHistory(h, codec) + t, codec) == DegradeOldHistory(h + t, codec)
  {
    var d := DegradeOldHistory(h, codec);
    DegradeAt(h, codec);
    CutoffByRoles(d + t, h + t);
    CutoffGrows(h, t);
    DegradeAt(d + t, codec);
    DegradeAt(h + t, codec);
    var x, y := DegradeOldHistory(d + t, codec), DegradeOldHistory(h + t, codec);
    forall i | 0 <= i < |x|
      ensures x[i] == y[i]
    {
      if i < |h| {
        DegradeMessageIdempotent(h[i], codec);
      }
    }
  }

  lemma DegradeIdempotent(h: seq<Message>, codec: Codec)
    requires codec.Lawful()
    ensures DegradeOldHistory(DegradeOldHistory(h, codec), codec) == DegradeOldHistory(h, codec)
  {
    DegradeCompounds(h, [], codec);
    assert DegradeOldHistory(h, codec) + [] == DegradeOldHistory(h, codec) && h + [] == h;
  }

  /** Tool groups are as balanced as before, at every prefix. */
  lemma {:induction false} DegradeKeepsOwed(ms: seq<Message>, codec: Codec, n: nat)
    requires n <= |ms|
    ensures Owed(DegradeOldHistory(ms, codec)[..n]) == Owed(ms[..n])
  {
    hide *;
    DegradeAt(ms, codec);
    if n > 0 {
      var d := DegradeOldHistory(ms, codec);
      DegradeKeepsOwed(ms, codec, n - 1);
      DegradeMessageKeepsConversation(ms[n - 1], codec);
      assert d[..n] == d[..n - 1] + [d[n - 1]] && ms[..n] == ms[..n - 1] + [ms[n - 1]];
      OwedSnoc(d[..n - 1], d[n - 1]);
      OwedSnoc(ms[..n - 1], ms[n - 1]);
    }
  }

  ghost predicate SameShape(a: seq<Message>, b: seq<Message>) {
    && |a| == |b|
    && (forall i | 0 <= i < |a| :: a[i].role == b[i].role && (a[i].role != Tool ==> CallCount(a[i]) == CallCount(b[i])))
  }

  lemma SameGroup(a: seq<Message>, b: seq<Message>, i: nat)
    requires SameShape(a, b) && i < |a| && Balanced(a[i..])
    ensures CallCount(b[i]) == CallCount(a[i]) && i + 1 + CallCount(a[i]) <= |a|
    ensures Balanced(a[i + 1 + CallCount(a[i])..])
  {
    hide CallCount, Balanced;
    BalancedHead(a[i..]);
    assert a[i..][0] == a[i];
    assert a[i..][1 + CallCount(a[i])..] == a[i + 1 + CallCount(a[i])..];
  }

  lemma {:induction false} StartsByShape(a: seq<Message>, b: seq<Message>, i: nat)
    requires SameShape(a, b) && |a| == |b| && i <= |a| && Balanced(a[i..])
    ensures Budget.StartsFrom(a, i) == Budget.StartsFrom(b, i)
    decreases |a| - i
  {
    hide *;
    StartsStep(a, i);
    StartsStep(b, i);
    SameLength(a, b);
    if i < |a| {
      SameGroup(a, b, i);
      StartsByShape(a, b, i + 1 + CallCount(a[i]));
    }
  }

  lemma StartsStep(ms: seq<Message>, i: nat)
    ensures Budget.StartsFrom(ms, i) == if i >= |ms| then [] else [i] + Budget.StartsFrom(ms, i + 1 + CallCount(ms[i]))
  {
    hide CallCount;
  }

  lemma SameLength(a: seq<Message>, b: seq<Message>)
    requires SameShape(a, b)
    ensures |a| == |b|
  {
    hide CallCount;
  }

  /** In a balanced history the atomic groups start where they started. */
  lemma DegradeKeepsBoundaries(ms: seq<Message>, codec: Codec)
    requires Balanced(ms)
    ensures Budget.StartsFrom(DegradeOldHistory(ms, codec), 0) == Budget.StartsFrom(ms, 0)
  {
    var d := DegradeOldHistory(ms, codec);
    DegradeAt(ms, codec);
    forall i | 0 <= i < |ms|
      ensures ms[i].role != Tool ==> CallCount(d[i]) == CallCount(ms[i])
    {
      DegradeMessageKeepsConversation(ms[i], codec);
    }
    assert ms[0..] == ms;
    StartsByShape(ms, d, 0);
  }
}
