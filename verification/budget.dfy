/** Trimming to a token budget (src/wahabot/ai/history/budget.py). */
module Budget {
  // A history is cut without splitting a tool group. The token counter is any function of one message.

  import opened Messages
  import opened Optional
  import opened Sequences

  type Counter = Message -> nat
  type Group = seq<Message>

  datatype BudgetError = ContextBudgetError

  function Total(ms: seq<Message>, c: Counter): nat {
    if ms == [] then 0 else c(ms[0]) + Total(ms[1..], c)
  }

  lemma {:induction false} TotalConcat(a: seq<Message>, b: seq<Message>, c: Counter)
    ensures Total(a + b, c) == Total(a, c) + Total(b, c)
  {
    if a == [] {
      assert a + b == b;
    } else {
      assert (a + b)[1..] == a[1..] + b;
      TotalConcat(a[1..], b, c);
    }
  }

  // ----- groups -----

  /** Length of the atomic group at the head: a message plus the replies it owns. */
  function HeadLength(ms: seq<Message>): (k: nat)
    requires ms != []
    ensures 0 < k <= |ms|
  {
    if 1 + CallCount(ms[0]) <= |ms| then 1 + CallCount(ms[0]) else |ms|
  }

  function Groups(ms: seq<Message>): (gs: seq<Group>)
    ensures forall i | 0 <= i < |gs| :: gs[i] != []
    ensures Flatten(gs) == ms
    ensures gs == [] <==> ms == []
    decreases |ms|
  {
    if ms == [] then []
    else
      var k := HeadLength(ms);
      assert ms[..k] + ms[k..] == ms;
      assert ([ms[..k]] + Groups(ms[k..]))[1..] == Groups(ms[k..]);
      [ms[..k]] + Groups(ms[k..])
  }

  function StartsFrom(ms: seq<Message>, i: nat): seq<nat>
    decreases |ms| - i
  {
    if i >= |ms| then [] else [i] + StartsFrom(ms, i + 1 + CallCount(ms[i]))
  }

  lemma {:induction false} StartsAreIndices(ms: seq<Message>, i: nat)
    ensures forall a | 0 <= a < |StartsFrom(ms, i)| :: i <= StartsFrom(ms, i)[a] < |ms|
    decreases |ms| - i
  {
    if i < |ms| {
      StartsAreIndices(ms, i + 1 + CallCount(ms[i]));
    }
  }

  method GroupBoundaries(messages: seq<Message>) returns (starts: seq<nat>)
    ensures starts == StartsFrom(messages, 0)
  {
    starts := [];
    var i := 0;
    while i < |messages|
      invariant StartsFrom(messages, 0) == starts + StartsFrom(messages, i)
      decreases |messages| - i
    {
      starts := starts + [i];
      i := i + 1 + CallCount(messages[i]);
    }
  }

  lemma {:induction false} StartsIncrease(ms: seq<Message>, i: nat)
    ensures forall a | 0 <= a < |StartsFrom(ms, i)| - 1 :: StartsFrom(ms, i)[a] < StartsFrom(ms, i)[a + 1]
    ensures forall a | 0 <= a < |StartsFrom(ms, i)| :: StartsFrom(ms, i)[a] <= |ms|
    decreases |ms| - i
  {
    StartsAreIndices(ms, i);
    if i < |ms| {
      StartsIncrease(ms, i + 1 + CallCount(ms[i]));
      var rest := StartsFrom(ms, i + 1 + CallCount(ms[i]));
      StartsAreIndices(ms, i + 1 + CallCount(ms[i]));
      assert forall a | 0 < a < |StartsFrom(ms, i)| :: StartsFrom(ms, i)[a] == rest[a - 1];
    }
  }

  /** The slices between the given starts, the last one running to the end. */
  function Slices(ms: seq<Message>, starts: seq<nat>): (gs: seq<Group>)
    requires forall a | 0 <= a < |starts| - 1 :: starts[a] < starts[a + 1]
    requires forall a | 0 <= a < |starts| :: starts[a] <= |ms|
    ensures |gs| == |starts|
  {
    var ends := if starts == [] then [] else starts[1..] + [|ms|];
    seq(|starts|, a requires 0 <= a < |starts| => ms[starts[a]..ends[a]])
  }

  lemma SlicesCons(ms: seq<Message>, start: nat, rest: seq<nat>)
    requires forall a | 0 <= a < |rest| - 1 :: rest[a] < rest[a + 1]
    requires forall a | 0 <= a < |rest| :: rest[a] <= |ms|
    requires start <= |ms| && (rest != [] ==> start < rest[0])
    ensures Slices(ms, [start] + rest) == [ms[start..if rest == [] then |ms| else rest[0]]] + Slices(ms, rest)
  {
  }

  lemma {:induction false} SlicesAreGroups(ms: seq<Message>, i: nat)
    requires i <= |ms|
    ensures forall a | 0 <= a < |StartsFrom(ms, i)| - 1 :: StartsFrom(ms, i)[a] < StartsFrom(ms, i)[a + 1]
    ensures forall a | 0 <= a < |StartsFrom(ms, i)| :: StartsFrom(ms, i)[a] <= |ms|
    ensures Slices(ms, StartsFrom(ms, i)) == Groups(ms[i..])
    decreases |ms| - i
  {
    hide CallCount, Groups, Slices;
    StartsIncrease(ms, i);
    if i < |ms| {
      var next := i + 1 + CallCount(ms[i]);
      var rest := StartsFrom(ms, next);
      StartsIncrease(ms, next);
      StartsAreIndices(ms, next);
      SlicesCons(ms, i, rest);
      GroupsStep(ms, i);
      if next < |ms| {
        SlicesAreGroups(ms, next);
      }
    }
  }

  lemma GroupsStep(ms: seq<Message>, i: nat)
    requires i < |ms|
    ensures var next := i + 1 + CallCount(ms[i]);
            var end := if next < |ms| then next else |ms|;
            Groups(ms[i..]) == [ms[i..end]] + Groups(ms[end..])
  {
    var k := HeadLength(ms[i..]);
    assert ms[i..][..k] == ms[i..i + k] && ms[i..][k..] == ms[i + k..];
  }

  method SplitGroups(messages: seq<Message>) returns (groups: seq<Group>)
    ensures groups == Groups(messages)
  {
    if messages == [] {
      return [];
    }
    var starts := GroupBoundaries(messages);
    SlicesAreGroups(messages, 0);
    assert messages[0..] == messages;
    groups := Slices(messages, starts);
  }

  /** The tokens of the groups from index i on. */
  function TokensFrom(gs: seq<Group>, i: nat, c: Counter): nat
    decreases |gs| - i
  {
    if i >= |gs| then 0 else Total(gs[i], c) + TokensFrom(gs, i + 1, c)
  }

  lemma {:induction false} TokensOfFlatten(gs: seq<Group>, i: nat, c: Counter)
    requires i <= |gs|
    ensures Total(Flatten(gs[i..]), c) == TokensFrom(gs, i, c)
    decreases |gs| - i
  {
    if i < |gs| {
      TokensOfFlatten(gs, i + 1, c);
      assert gs[i..][1..] == gs[i + 1..];
      TotalConcat(gs[i], Flatten(gs[i + 1..]), c);
    }
  }

  lemma {:induction false} TokensShift(gs: seq<Group>, u: nat, i: nat, c: Counter)
    requires u + i <= |gs|
    ensures TokensFrom(gs[u..], i, c) == TokensFrom(gs, u + i, c)
    decreases |gs| - i
  {
    if u + i < |gs| {
      TokensShift(gs, u, i + 1, c);
    }
  }

  lemma {:induction false} TokensShrink(gs: seq<Group>, i: nat, j: nat, c: Counter)
    requires i <= j
    ensures TokensFrom(gs, j, c) <= TokensFrom(gs, i, c)
    decreases j - i
  {
    if i < j {
      TokensShrink(gs, i + 1, j, c);
    }
  }

  // ----- the newest groups that fit -----

  /** Where, at or after lo, the newest groups that fit start: the first suffix within the budget,
      or the newest group alone when not even that fits. */
  function FitFrom(gs: seq<Group>, lo: nat, budget: int, c: Counter): (k: nat)
    requires lo <= |gs|
    ensures if lo == |gs| then k == lo else lo <= k < |gs|
    ensures k + 1 < |gs| ==> TokensFrom(gs, k, c) <= budget
    ensures lo < k ==> TokensFrom(gs, k - 1, c) > budget
    decreases |gs| - lo
  {
    if lo + 1 >= |gs| || TokensFrom(gs, lo, c) <= budget then lo else FitFrom(gs, lo + 1, budget, c)
  }

  /** The index found is the only one with its three properties. */
  lemma FitFromUnique(gs: seq<Group>, lo: nat, budget: int, c: Counter, k: nat)
    requires if lo == |gs| then k == lo else lo <= k < |gs|
    requires k + 1 < |gs| ==> TokensFrom(gs, k, c) <= budget
    requires lo < k ==> TokensFrom(gs, k - 1, c) > budget
    ensures lo <= |gs| && k == FitFrom(gs, lo, budget, c)
  {
    var f := FitFrom(gs, lo, budget, c);
    if f < k {
      TokensShrink(gs, f, k - 1, c);
    } else if k < f {
      TokensShrink(gs, k, f - 1, c);
    }
  }

  lemma FitFromShift(gs: seq<Group>, lo: nat, budget: int, c: Counter)
    requires lo <= |gs|
    ensures FitFrom(gs, lo, budget, c) == lo + FitFrom(gs[lo..], 0, budget, c)
  {
    var k := FitFrom(gs[lo..], 0, budget, c);
    TokensShift(gs, lo, k, c);
    if k > 0 {
      TokensShift(gs, lo, k - 1, c);
    }
    FitFromUnique(gs, lo, budget, c, lo + k);
  }

  method NewestWithinBudget(groups: seq<Group>, budget: int, c: Counter) returns (kept: seq<Group>)
    ensures kept == Reversed(groups[FitFrom(groups, 0, budget, c)..])
  {
    kept := [];
    var running := 0;
    var i := |groups|;
    while i > 0
      invariant 0 <= i <= |groups|
      invariant kept == Reversed(groups[i..])
      invariant running == TokensFrom(groups, i, c)
      invariant i + 1 < |groups| ==> running <= budget
    {
      var group := groups[i - 1];
      var groupTokens := Total(group, c);
      if running + groupTokens > budget && kept != [] {
        break;
      }
      running := running + groupTokens;
      kept := kept + [group];
      i := i - 1;
    }
    FitFromUnique(groups, 0, budget, c, i);
  }

  // ----- the current query -----

  predicate UserLed(g: Group) {
    g != [] && g[0].role == User
  }

  function LastUserBelow(gs: seq<Group>, n: nat): (u: int)
    requires n <= |gs|
    ensures -1 <= u < n
    ensures u >= 0 ==> UserLed(gs[u])
    ensures forall i | u < i < n :: !UserLed(gs[i])
  {
    if n == 0 then -1 else if UserLed(gs[n - 1]) then n - 1 else LastUserBelow(gs, n - 1)
  }

  /** Index of the newest group led by a user message, or -1. */
  function LastUser(gs: seq<Group>): (u: int)
    ensures -1 <= u < |gs|
    ensures u >= 0 ==> UserLed(gs[u])
    ensures forall i | u < i < |gs| :: !UserLed(gs[i])
  {
    LastUserBelow(gs, |gs|)
  }

  /** Index of the first group at or after k led by a user message, or the length. */
  function UserFrom(gs: seq<Group>, k: nat): (f: nat)
    requires k <= |gs|
    ensures k <= f <= |gs|
    ensures f < |gs| ==> UserLed(gs[f])
    ensures forall i | k <= i < f :: !UserLed(gs[i])
    decreases |gs| - k
  {
    if k == |gs| || UserLed(gs[k]) then k else UserFrom(gs, k + 1)
  }

  function MinimumTurn(gs: seq<Group>): seq<Message> {
    var u := LastUser(gs);
    if u < 0 then [] else if u == |gs| - 1 then gs[u] else gs[u] + gs[|gs| - 1]
  }

  /** Where the groups kept behind the current query u start when everything in between is skipped. */
  function AfterFrom(gs: seq<Group>, u: nat, budget: int, c: Counter): (k: nat)
    requires u < |gs|
    ensures u < k <= |gs| && (u < |gs| - 1 ==> k < |gs|)
  {
    FitFrom(gs, u + 1, budget - Total(gs[u], c), c)
  }

  /** The groups that survive a trim which does not raise. */
  function TrimGroups(gs: seq<Group>, budget: int, c: Counter): seq<Group> {
    var f, u := UserFrom(gs, FitFrom(gs, 0, budget, c)), LastUser(gs);
    if f < |gs| then gs[f..]
    else if u < 0 then []
    else [gs[u]] + gs[AfterFrom(gs, u, budget, c)..]
  }

  function TrimToBudget(ms: seq<Message>, budget: int, c: Counter): Result<seq<Message>, BudgetError> {
    if Total(MinimumTurn(Groups(ms)), c) > budget
    then Failure(ContextBudgetError)
    else Success(Flatten(TrimGroups(Groups(ms), budget, c)))
  }

  method LastUserTurn(groups: seq<Group>, budget: int, c: Counter) returns (turn: seq<Message>)
    requires forall i | 0 <= i < |groups| :: groups[i] != []
    ensures var u := LastUser(groups);
            turn == if u < 0 then [] else groups[u] + Flatten(groups[AfterFrom(groups, u, budget, c)..])
  {
    hide Flatten, CallCount, FitFrom, Total;
    var index := |groups| - 1;
    while index >= 0
      invariant -1 <= index < |groups|
      invariant forall i | index < i < |groups| :: !UserLed(groups[i])
    {
      var user := groups[index];
      if user[0].role == User {
        var remaining := budget - Total(user, c);
        var kept := NewestWithinBudget(groups[index + 1..], remaining, c);
        var rest := FlattenReversed(kept);
        assert LastUser(groups) == index;
        FitFromShift(groups, index + 1, remaining, c);
        assert Reversed(kept) == groups[AfterFrom(groups, index, budget, c)..];
        return user + rest;
      }
      index := index - 1;
    }
    return [];
  }

  method FlattenReversed(kept: seq<Group>) returns (ms: seq<Message>)
    ensures ms == Flatten(Reversed(kept))
  {
    ms := [];
    var i := |kept|;
    while i > 0
      invariant 0 <= i <= |kept|
      invariant ms == Flatten(Reversed(kept[i..]))
    {
      i := i - 1;
      assert Reversed(kept[i..]) == Reversed(kept[i + 1..]) + [kept[i]];
      FlattenConcat(Reversed(kept[i + 1..]), [kept[i]]);
      assert [kept[i]][1..] == [];
      ms := ms + kept[i];
    }
    assert kept[0..] == kept;
  }

  /** The popping loop of Trim: oldest groups go until one is led by a user message. */
  method PopToUser(newest: seq<Group>, ghost groups: seq<Group>, ghost k: nat) returns (kept: seq<Group>)
    requires k <= |groups| && newest == Reversed(groups[k..])
    ensures kept == Reversed(groups[UserFrom(groups, k)..])
  {
    kept := newest;
    ghost var from := k;
    while kept != [] && !UserLed(kept[|kept| - 1])
      invariant k <= from <= |groups|
      invariant kept == Reversed(groups[from..])
      invariant UserFrom(groups, k) == UserFrom(groups, from)
    {
      kept := kept[..|kept| - 1];
      from := from + 1;
    }
  }

  lemma NothingFlattens()
    ensures Flatten<Message>([]) == []
  {
  }

  method Trim(messages: seq<Message>, budget: int, c: Counter) returns (r: Result<seq<Message>, BudgetError>)
    ensures r == TrimToBudget(messages, budget, c)
  {
    hide Flatten, CallCount, FitFrom, UserFrom, Groups, MinimumTurn;
    var groups := SplitGroups(messages);
    if Total(MinimumTurn(groups), c) > budget {
      return Failure(ContextBudgetError);
    }
    var kept := NewestWithinBudget(groups, budget, c);
    ghost var f := UserFrom(groups, FitFrom(groups, 0, budget, c));
    kept := PopToUser(kept, groups, FitFrom(groups, 0, budget, c));
    if kept == [] {
      assert f == |groups|;
      var turn := LastUserTurn(groups, budget, c);
      var u := LastUser(groups);
      NothingFlattens();
      if u >= 0 {
        FlattenCons(groups[u], groups[AfterFrom(groups, u, budget, c)..]);
      }
      return Success(turn);
    }
    assert Reversed(kept) == groups[f..];
    var ms := FlattenReversed(kept);
    return Success(ms);
  }

  // ----- what the trim promises -----

  /** A suffix led by a user message exists exactly up to the newest user group. */
  lemma UserFromLast(gs: seq<Group>, k: nat)
    requires k <= |gs|
    ensures UserFrom(gs, k) < |gs| <==> k <= LastUser(gs)
    ensures UserFrom(gs, k) < |gs| ==> UserFrom(gs, k) <= LastUser(gs)
  {
    var f, u := UserFrom(gs, k), LastUser(gs);
    if f < |gs| {
      assert UserLed(gs[f]);
    }
  }

  /** When the newest group alone fits, everything chosen fits. */
  lemma FitFromFits(gs: seq<Group>, lo: nat, budget: int, c: Counter)
    requires lo < |gs| && Total(gs[|gs| - 1], c) <= budget
    ensures TokensFrom(gs, FitFrom(gs, lo, budget, c), c) <= budget
  {
    assert TokensFrom(gs, |gs| - 1, c) == Total(gs[|gs| - 1], c) + TokensFrom(gs, |gs|, c);
  }

  lemma MinimumTurnParts(gs: seq<Group>, c: Counter)
    requires LastUser(gs) >= 0
    ensures var u, n := LastUser(gs), |gs|;
            Total(MinimumTurn(gs), c) == Total(gs[u], c) + if u == n - 1 then 0 else Total(gs[n - 1], c)
  {
    TotalConcat(gs[LastUser(gs)], gs[|gs| - 1], c);
  }

  /** What survives when nothing is raised: a suffix of the groups that opens with a user group and
      holds the newest one, or that newest user group followed by a suffix of what comes after it. */
  ghost predicate KeptSuffix(gs: seq<Group>, t: seq<Group>, f: nat) {
    f <= LastUser(gs) && UserLed(gs[f]) && t == gs[f..]
  }

  ghost predicate KeptQuery(gs: seq<Group>, t: seq<Group>, k: nat) {
    LastUser(gs) >= 0 && LastUser(gs) < k < |gs| && t == [gs[LastUser(gs)]] + gs[k..]
  }

  lemma TrimShape(gs: seq<Group>, budget: int, c: Counter)
    requires Total(MinimumTurn(gs), c) <= budget
    requires LastUser(gs) >= 0
    ensures var u, f, t := LastUser(gs), UserFrom(gs, FitFrom(gs, 0, budget, c)), TrimGroups(gs, budget, c);
            if f < |gs| then KeptSuffix(gs, t, f) else KeptQuery(gs, t, AfterFrom(gs, u, budget, c))
  {
    UserFromLast(gs, FitFrom(gs, 0, budget, c));
  }

  lemma TrimFits(gs: seq<Group>, budget: int, c: Counter)
    requires Total(MinimumTurn(gs), c) <= budget
    requires LastUser(gs) >= 0
    ensures Total(Flatten(TrimGroups(gs, budget, c)), c) <= budget
  {
    var u, k := LastUser(gs), FitFrom(gs, 0, budget, c);
    var f := UserFrom(gs, k);
    TrimShape(gs, budget, c);
    MinimumTurnParts(gs, c);
    if f < |gs| {
      FitFromFits(gs, 0, budget, c);
      TokensShrink(gs, k, f, c);
      TokensOfFlatten(gs, f, c);
    } else {
      var j := AfterFrom(gs, u, budget, c);
      FitFromFits(gs, u + 1, budget - Total(gs[u], c), c);
      TokensOfFlatten(gs, j, c);
      FlattenCons(gs[u], gs[j..]);
      TotalConcat(gs[u], Flatten(gs[j..]), c);
    }
  }

  lemma FlattenCons(g: Group, gs: seq<Group>)
    ensures Flatten([g] + gs) == g + Flatten(gs)
  {
    assert ([g] + gs)[1..] == gs;
  }

  lemma NoUserNothingKept(gs: seq<Group>, budget: int, c: Counter)
    requires LastUser(gs) < 0
    ensures TrimGroups(gs, budget, c) == []
  {
    UserFromLast(gs, FitFrom(gs, 0, budget, c));
  }

  predicate Full(g: Group) {
    g != [] && |g| == 1 + CallCount(g[0])
  }

  lemma FullGroupInFront(g: Group, rest: seq<Message>)
    requires Full(g)
    ensures Groups(g + rest) == [g] + Groups(rest)
  {
    var joined := g + rest;
    assert HeadLength(joined) == |g|;
    assert joined[..|g|] == g && joined[|g|..] == rest;
  }

  /** Every group but the newest has all the replies it owns. */
  lemma {:induction false} OlderGroupsFull(ms: seq<Message>, i: nat)
    requires i < |Groups(ms)|
    ensures i < |Groups(ms)| - 1 ==> Full(Groups(ms)[i])
    ensures |Groups(ms)[i]| <= 1 + CallCount(Groups(ms)[i][0])
    decreases |ms|
  {
    if i > 0 {
      OlderGroupsFull(ms[HeadLength(ms)..], i - 1);
    }
  }

  /** Cut out of their history, the groups from i on are the same groups. */
  lemma {:induction false} GroupsOfSuffix(ms: seq<Message>, i: nat)
    requires i <= |Groups(ms)|
    ensures Groups(Flatten(Groups(ms)[i..])) == Groups(ms)[i..]
    decreases |Groups(ms)| - i
  {
    var gs := Groups(ms);
    if i < |gs| {
      OlderGroupsFull(ms, i);
      GroupsOfSuffix(ms, i + 1);
      assert gs[i..][1..] == gs[i + 1..];
      assert gs[i..] == [gs[i]] + gs[i + 1..];
      if i < |gs| - 1 {
        FullGroupInFront(gs[i], Flatten(gs[i + 1..]));
      } else {
        var g := gs[i];
        assert g != [] && Flatten(gs[i..]) == g + Flatten(gs[i + 1..]) == g;
        assert HeadLength(g) == |g|;
        assert g[..|g|] == g && g[|g|..] == [];
      }
    }
  }

  lemma LastUserUnique(gs: seq<Group>, u: nat)
    requires u < |gs| && UserLed(gs[u]) && forall i | u < i < |gs| :: !UserLed(gs[i])
    ensures LastUser(gs) == u
  {
    var l := LastUser(gs);
    assert l >= u;
  }

  /** The groups of a trimmed history are exactly the groups that were kept, whole and in order. */
  lemma TrimKeepsWholeGroups(ms: seq<Message>, budget: int, c: Counter)
    requires TrimToBudget(ms, budget, c).Success?
    ensures Groups(TrimToBudget(ms, budget, c).value) == TrimGroups(Groups(ms), budget, c)
    ensures Subsequence(TrimGroups(Groups(ms), budget, c), Groups(ms))
  {
    var gs := Groups(ms);
    var u, t := LastUser(gs), TrimGroups(gs, budget, c);
    if u >= 0 {
      TrimShape(gs, budget, c);
      var f := UserFrom(gs, FitFrom(gs, 0, budget, c));
      if f < |gs| {
        GroupsOfSuffix(ms, f);
        SuffixIsSubsequence(gs, f);
      } else {
        var k := AfterFrom(gs, u, budget, c);
        GroupsOfSuffix(ms, k);
        OlderGroupsFull(ms, u);
        FullGroupInFront(gs[u], Flatten(gs[k..]));
        assert t[1..] == gs[k..];
        PairIsSubsequence(gs, u, k);
      }
    } else {
      NoUserNothingKept(gs, budget, c);
    }
  }

  lemma PairIsSubsequence(gs: seq<Group>, u: nat, k: nat)
    requires u < k <= |gs|
    ensures Subsequence([gs[u]] + gs[k..], gs[u..])
    ensures Subsequence([gs[u]] + gs[k..], gs)
  {
    SuffixIsSubsequence(gs[u + 1..], k - u - 1);
    assert gs[u + 1..][k - u - 1..] == gs[k..];
    SubsequenceRefl([gs[u]]);
    SubsequenceConcat([gs[u]], [gs[u]], gs[k..], gs[u + 1..]);
    assert gs[u..] == [gs[u]] + gs[u + 1..];
    SuffixIsSubsequence(gs, u);
    SubsequenceTrans([gs[u]] + gs[k..], gs[u..], gs);
  }

  lemma TrimGroupsEnds(gs: seq<Group>, budget: int, c: Counter)
    requires Total(MinimumTurn(gs), c) <= budget && LastUser(gs) >= 0
    ensures var t := TrimGroups(gs, budget, c);
            t != [] && UserLed(t[0]) && gs[LastUser(gs)] in t && t[|t| - 1] == gs[|gs| - 1]
  {
    var u, t := LastUser(gs), TrimGroups(gs, budget, c);
    TrimShape(gs, budget, c);
    var f := UserFrom(gs, FitFrom(gs, 0, budget, c));
    if f < |gs| {
      assert t[u - f] == gs[u];
    } else {
      assert t[0] == gs[u];
    }
  }

  /** The trim raises exactly when the current query and the newest group exceed the budget.
      Otherwise the result fits, opens with a user message, still holds the current query and the
      newest group whenever there is a query, and is empty when there is none. */
  lemma TrimPromise(ms: seq<Message>, budget: int, c: Counter)
    ensures var gs := Groups(ms);
            TrimToBudget(ms, budget, c).Failure? <==> Total(MinimumTurn(gs), c) > budget
    ensures var gs, r := Groups(ms), TrimToBudget(ms, budget, c);
            r.Success? ==>
              && Total(r.value, c) <= budget
              && (r.value == [] <==> LastUser(gs) < 0)
              && (r.value != [] ==> r.value[0].role == User)
              && (LastUser(gs) >= 0 ==>
                    gs[LastUser(gs)] in Groups(r.value) && Groups(r.value)[|Groups(r.value)| - 1] == gs[|gs| - 1])
  {
    if TrimToBudget(ms, budget, c).Success? {
      var gs := Groups(ms);
      var t := TrimGroups(gs, budget, c);
      TrimKeepsWholeGroups(ms, budget, c);
      if LastUser(gs) >= 0 {
        TrimFits(gs, budget, c);
        TrimGroupsEnds(gs, budget, c);
        assert Flatten(t) == t[0] + Flatten(t[1..]);
      } else {
        NoUserNothingKept(gs, budget, c);
      }
    }
  }

  /** Nothing that fits is lost: a user-led suffix of the groups within the budget is kept whole. */
  lemma TrimKeepsWhatFits(ms: seq<Message>, budget: int, c: Counter, j: nat)
    requires TrimToBudget(ms, budget, c).Success?
    requires j < |Groups(ms)| && UserLed(Groups(ms)[j]) && TokensFrom(Groups(ms), j, c) <= budget
    ensures exists f :: 0 <= f <= j && TrimToBudget(ms, budget, c).value == Flatten(Groups(ms)[f..])
  {
    hide Groups, Flatten, MinimumTurn, Total, CallCount;
    var gs := Groups(ms);
    var k := FitFrom(gs, 0, budget, c);
    if j < k {
      TokensShrink(gs, j, k - 1, c);
    }
    assert UserFrom(gs, k) <= j;
  }

  /** Group u is the current query: the newest group that a user message leads. */
  predicate IsQuery(gs: seq<Group>, u: nat) {
    u < |gs| && UserLed(gs[u]) && forall i | u < i < |gs| :: !UserLed(gs[i])
  }

  /** The trim raises exactly when the current query together with the newest group is over the budget. */
  lemma TrimFailsIff(ms: seq<Message>, budget: int, c: Counter)
    ensures var gs := Groups(ms);
            TrimToBudget(ms, budget, c).Failure? <==>
            (exists u: nat :: IsQuery(gs, u) && Total(gs[u], c) + (if u == |gs| - 1 then 0 else Total(gs[|gs| - 1], c)) > budget)
            || (budget < 0 && forall u: nat :: !IsQuery(gs, u))
  {
    hide Groups, Flatten, TrimGroups, CallCount, Total, UserLed;
    var gs := Groups(ms);
    NoTokens(c);
    if LastUser(gs) >= 0 {
      MinimumTurnParts(gs, c);
      assert IsQuery(gs, LastUser(gs));
      forall u: nat | IsQuery(gs, u)
        ensures u == LastUser(gs)
      {
        LastUserUnique(gs, u);
      }
    } else {
      assert MinimumTurn(gs) == [];
      forall u: nat
        ensures !IsQuery(gs, u)
      {
        assert u < |gs| ==> !UserLed(gs[u]);
      }
    }
  }

  lemma NoTokens(c: Counter)
    ensures Total([], c) == 0
  {
  }

  /** The suffix from f on opens with a user message and fits; no longer such suffix does. */
  ghost predicate LongestTurns(gs: seq<Group>, f: nat, budget: int, c: Counter) {
    && f < |gs| && UserLed(gs[f]) && Total(Flatten(gs[f..]), c) <= budget
    && forall j | 0 <= j < f && UserLed(gs[j]) :: Total(Flatten(gs[j..]), c) > budget
  }

  /** The groups from k on fit behind the query u; one group more would not. */
  ghost predicate LongestRest(gs: seq<Group>, u: nat, k: nat, budget: int, c: Counter) {
    && u < k <= |gs| && u < |gs| && Total(gs[u], c) + Total(Flatten(gs[k..]), c) <= budget
    && (u + 1 < k ==> Total(gs[u], c) + Total(Flatten(gs[k - 1..]), c) > budget)
  }

  /** Nothing that fits is lost. When some user-led suffix of the groups fits, the longest one is kept;
      otherwise the current query is kept with the longest part of what follows it that fits; without a
      query nothing is. */
  lemma TrimIsLongest(ms: seq<Message>, budget: int, c: Counter)
    requires TrimToBudget(ms, budget, c).Success?
    ensures var gs, t := Groups(ms), TrimToBudget(ms, budget, c).value;
            || (exists f: nat :: LongestTurns(gs, f, budget, c) && t == Flatten(gs[f..]))
            || ((forall f: nat :: !LongestTurns(gs, f, budget, c))
                && exists u: nat, k: nat :: IsQuery(gs, u) && LongestRest(gs, u, k, budget, c) && t == gs[u] + Flatten(gs[k..]))
            || ((forall u: nat :: !IsQuery(gs, u)) && t == [])
  {
    hide Groups, Flatten, CallCount, Total, MinimumTurn, LongestTurns, LongestRest;
    var gs, u := Groups(ms), LastUser(Groups(ms));
    var f := UserFrom(gs, FitFrom(gs, 0, budget, c));
    if u < 0 {
      NoUserNothingKept(gs, budget, c);
      NothingFlattens();
    } else {
      MinimumTurnParts(gs, c);
      assert IsQuery(gs, u);
      if f < |gs| {
        KeptIsLongest(gs, budget, c);
      } else {
        forall j: nat
          ensures !LongestTurns(gs, j, budget, c)
        {
          NoTurnsFit(gs, budget, c, j);
        }
        RestIsLongest(gs, budget, c);
        FlattenCons(gs[u], gs[AfterFrom(gs, u, budget, c)..]);
      }
    }
  }

  lemma KeptIsLongest(gs: seq<Group>, budget: int, c: Counter)
    requires LastUser(gs) >= 0 && Total(MinimumTurn(gs), c) <= budget
    requires UserFrom(gs, FitFrom(gs, 0, budget, c)) < |gs|
    ensures LongestTurns(gs, UserFrom(gs, FitFrom(gs, 0, budget, c)), budget, c)
  {
    hide Flatten, CallCount, Total, MinimumTurn;
    var k := FitFrom(gs, 0, budget, c);
    var f := UserFrom(gs, k);
    MinimumTurnParts(gs, c);
    FitFromFits(gs, 0, budget, c);
    TokensShrink(gs, k, f, c);
    TokensOfFlatten(gs, f, c);
    forall j | 0 <= j < f && UserLed(gs[j])
      ensures Total(Flatten(gs[j..]), c) > budget
    {
      TokensShrink(gs, j, k - 1, c);
      TokensOfFlatten(gs, j, c);
    }
  }

  lemma NoTurnsFit(gs: seq<Group>, budget: int, c: Counter, j: nat)
    requires UserFrom(gs, FitFrom(gs, 0, budget, c)) == |gs|
    ensures !LongestTurns(gs, j, budget, c)
  {
    hide Flatten, CallCount, Total;
    var k := FitFrom(gs, 0, budget, c);
    if j < |gs| && UserLed(gs[j]) {
      assert j < k;
      TokensShrink(gs, j, k - 1, c);
      TokensOfFlatten(gs, j, c);
    }
  }

  lemma RestIsLongest(gs: seq<Group>, budget: int, c: Counter)
    requires LastUser(gs) >= 0 && Total(MinimumTurn(gs), c) <= budget
    ensures LongestRest(gs, LastUser(gs), AfterFrom(gs, LastUser(gs), budget, c), budget, c)
  {
    hide Flatten, CallCount, Total, MinimumTurn;
    var u := LastUser(gs);
    var room := budget - Total(gs[u], c);
    var k := FitFrom(gs, u + 1, room, c);
    MinimumTurnParts(gs, c);
    if u + 1 < |gs| {
      FitFromFits(gs, u + 1, room, c);
    }
    TokensOfFlatten(gs, k, c);
    if u + 1 < k {
      TokensOfFlatten(gs, k - 1, c);
    }
  }

  lemma SuffixMinimumTurn(gs: seq<Group>, f: nat)
    requires f <= LastUser(gs)
    ensures MinimumTurn(gs[f..]) == MinimumTurn(gs)
  {
    LastUserOfSuffix(gs, f);
  }

  lemma LastUserOfSuffix(gs: seq<Group>, f: nat)
    requires f <= LastUser(gs)
    ensures LastUser(gs[f..]) == LastUser(gs) - f
  {
    var u, t := LastUser(gs), gs[f..];
    forall i | u - f < i < |t|
      ensures !UserLed(t[i])
    {
      assert t[i] == gs[f + i];
    }
    LastUserUnique(t, u - f);
  }

  lemma QueryMinimumTurn(gs: seq<Group>, k: nat)
    requires 0 <= LastUser(gs) < k < |gs|
    ensures MinimumTurn([gs[LastUser(gs)]] + gs[k..]) == MinimumTurn(gs)
  {
    var t := [gs[LastUser(gs)]] + gs[k..];
    assert forall i | 0 < i < |t| :: t[i] == gs[k + i - 1];
    LastUserUnique(t, 0);
  }

  /** The kept groups have the same current query and newest group, so the same minimum turn. */
  lemma KeptMinimumTurn(gs: seq<Group>, budget: int, c: Counter)
    requires Total(MinimumTurn(gs), c) <= budget && LastUser(gs) >= 0
    ensures MinimumTurn(TrimGroups(gs, budget, c)) == MinimumTurn(gs)
  {
    TrimShape(gs, budget, c);
    var f := UserFrom(gs, FitFrom(gs, 0, budget, c));
    if f < |gs| {
      SuffixMinimumTurn(gs, f);
    } else {
      QueryMinimumTurn(gs, AfterFrom(gs, LastUser(gs), budget, c));
    }
  }

  lemma FittingUserLedStays(t: seq<Group>, budget: int, c: Counter)
    requires t != [] && UserLed(t[0]) && Total(Flatten(t), c) <= budget
    ensures TrimGroups(t, budget, c) == t
  {
    assert t[0..] == t;
    TokensOfFlatten(t, 0, c);
    FitFromUnique(t, 0, budget, c, 0);
  }

  /** Trimming twice with one budget is trimming once. */
  lemma TrimIdempotent(ms: seq<Message>, budget: int, c: Counter)
    requires TrimToBudget(ms, budget, c).Success?
    ensures var once := TrimToBudget(ms, budget, c).value;
            TrimToBudget(once, budget, c) == Success(once)
  {
    var gs := Groups(ms);
    var t := TrimGroups(gs, budget, c);
    TrimKeepsWholeGroups(ms, budget, c);
    if LastUser(gs) >= 0 {
      TrimFits(gs, budget, c);
      TrimGroupsEnds(gs, budget, c);
      KeptMinimumTurn(gs, budget, c);
      FittingUserLedStays(t, budget, c);
    } else {
      NoUserNothingKept(gs, budget, c);
    }
  }

  /** A larger budget only ever adds: the smaller result is a subsequence of the larger one. */
  lemma TrimMonotone(ms: seq<Message>, small: int, large: int, c: Counter)
    requires small <= large
    requires TrimToBudget(ms, small, c).Success?
    ensures TrimToBudget(ms, large, c).Success?
    ensures Subsequence(TrimToBudget(ms, small, c).value, TrimToBudget(ms, large, c).value)
  {
    var gs := Groups(ms);
    if LastUser(gs) >= 0 {
      TrimGroupsMonotone(gs, small, large, c);
      SubsequenceFlatten(TrimGroups(gs, small, c), TrimGroups(gs, large, c));
    } else {
      NoUserNothingKept(gs, small, c);
    }
  }

  lemma FitFromMonotone(gs: seq<Group>, lo: nat, small: int, large: int, c: Counter)
    requires lo <= |gs| && small <= large
    ensures FitFrom(gs, lo, large, c) <= FitFrom(gs, lo, small, c)
  {
    var s, l := FitFrom(gs, lo, small, c), FitFrom(gs, lo, large, c);
    if s < l {
      TokensShrink(gs, s, l - 1, c);
    }
  }

  lemma UserFromMonotone(gs: seq<Group>, i: nat, j: nat)
    requires i <= j <= |gs|
    ensures UserFrom(gs, i) <= UserFrom(gs, j)
  {
    var b := UserFrom(gs, j);
    assert b < |gs| ==> UserLed(gs[b]) && i <= b;
  }

  lemma AfterFromMonotone(gs: seq<Group>, u: nat, small: int, large: int, c: Counter)
    requires u < |gs| && small <= large
    ensures AfterFrom(gs, u, large, c) <= AfterFrom(gs, u, small, c)
  {
    FitFromMonotone(gs, u + 1, small - Total(gs[u], c), large - Total(gs[u], c), c);
  }

  /** One group more in front, or the same group in front of a longer suffix, only adds. */
  lemma LongerSuffix(gs: seq<Group>, i: nat, j: nat)
    requires i <= j <= |gs|
    ensures Subsequence(gs[j..], gs[i..])
  {
    SuffixIsSubsequence(gs[i..], j - i);
    assert gs[i..][j - i..] == gs[j..];
  }

  lemma TrimGroupsMonotone(gs: seq<Group>, small: int, large: int, c: Counter)
    requires small <= large && LastUser(gs) >= 0
    requires Total(MinimumTurn(gs), c) <= small
    ensures Subsequence(TrimGroups(gs, small, c), TrimGroups(gs, large, c))
  {
    var u := LastUser(gs);
    var ks, kl := FitFrom(gs, 0, small, c), FitFrom(gs, 0, large, c);
    var fs, fl := UserFrom(gs, ks), UserFrom(gs, kl);
    FitFromMonotone(gs, 0, small, large, c);
    UserFromMonotone(gs, kl, ks);
    TrimShape(gs, small, c);
    TrimShape(gs, large, c);
    if fs < |gs| {
      LongerSuffix(gs, fl, fs);
    } else {
      var js, jl := AfterFrom(gs, u, small, c), AfterFrom(gs, u, large, c);
      if fl < |gs| {
        PairIsSubsequence(gs, u, js);
        LongerSuffix(gs, fl, u);
        SubsequenceTrans([gs[u]] + gs[js..], gs[u..], gs[fl..]);
      } else {
        AfterFromMonotone(gs, u, small, large, c);
        LongerSuffix(gs, jl, js);
        SubsequenceRefl([gs[u]]);
        SubsequenceConcat([gs[u]], [gs[u]], gs[js..], gs[jl..]);
      }
    }
  }

  // ----- tool groups stay intact -----

  lemma {:induction false} BalancedGroups(ms: seq<Message>, i: nat)
    requires Balanced(ms) && i < |Groups(ms)|
    ensures Full(Groups(ms)[i]) && Balanced(Groups(ms)[i])
    decreases |ms|
  {
    BalancedHead(ms);
    if i > 0 {
      BalancedGroups(ms[HeadLength(ms)..], i - 1);
    }
  }

  lemma {:induction false} BalancedFlatten(gs: seq<Group>)
    requires forall g | g in gs :: Balanced(g)
    ensures Balanced(Flatten(gs))
  {
    if gs != [] {
      assert gs[0] in gs;
      BalancedFlatten(gs[1..]);
      OwedConcat(gs[0], Flatten(gs[1..]));
    }
  }

  /** A trim never leaves a dangling call or an orphan reply in a balanced history. */
  lemma TrimKeepsBalance(ms: seq<Message>, budget: int, c: Counter)
    requires Balanced(ms) && TrimToBudget(ms, budget, c).Success?
    ensures Balanced(TrimToBudget(ms, budget, c).value)
  {
    var gs, t := Groups(ms), TrimGroups(Groups(ms), budget, c);
    TrimKeepsWholeGroups(ms, budget, c);
    SubsequenceMembers(t, gs);
    forall g | g in t
      ensures Balanced(g)
    {
      var i :| 0 <= i < |gs| && gs[i] == g;
      BalancedGroups(ms, i);
    }
    BalancedFlatten(t);
  }
}
