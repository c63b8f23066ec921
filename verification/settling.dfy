/** When one pass of the history repair is enough (src/wahabot/ai/history/messages.py). */
module Settling {
  import opened Messages

  // ----- which messages validation keeps -----

  /** Index of the last message before i that is no tool reply, or -1. */
  function Opener(ms: seq<Message>, i: nat): (o: int)
    requires i <= |ms|
    ensures -1 <= o < i && (o >= 0 ==> ms[o].role != Tool) && forall j | o < j < i :: ms[j].role == Tool
  {
    if i == 0 then -1 else if ms[i - 1].role != Tool then i - 1 else Opener(ms, i - 1)
  }

  predicate Answered(ms: seq<Message>, o: nat)
    requires o < |ms|
  {
    ToolRun(ms[o + 1..]) >= CallCount(ms[o])
  }

  /** Message i survives validation: a plain message, a call with enough replies behind it, or one of
      the replies such a call is owed. */
  predicate Stays(ms: seq<Message>, i: nat)
    requires i < |ms|
  {
    if ms[i].role != Tool then Answered(ms, i)
    else
      var o := Opener(ms, i);
      o >= 0 && i - o <= CallCount(ms[o]) && Answered(ms, o)
  }

  /** The messages from i on that survive, in order. */
  function Survivors(ms: seq<Message>, i: nat): seq<Message>
    requires i <= |ms|
    decreases |ms| - i
  {
    if i == |ms| then [] else (if Stays(ms, i) then [ms[i]] else []) + Survivors(ms, i + 1)
  }

  /** A round of the validation loop never starts inside a group. */
  predicate RoundStart(ms: seq<Message>, i: nat) {
    i <= |ms| && (i < |ms| && ms[i].role == Tool ==> Opener(ms, i) < 0 || CallCount(ms[Opener(ms, i)]) == 0)
  }

  lemma SurvivorStep(ms: seq<Message>, i: nat)
    requires i < |ms|
    ensures Survivors(ms, i) == if Stays(ms, i) then [ms[i]] + Survivors(ms, i + 1) else Survivors(ms, i + 1)
  {
    hide Stays;
  }

  /** From i to j nothing stays. */
  lemma {:induction false} SurvivorsSkip(ms: seq<Message>, i: nat, j: nat)
    requires i <= j <= |ms| && forall k | i <= k < j :: !Stays(ms, k)
    ensures Survivors(ms, i) == Survivors(ms, j)
    decreases j - i
  {
    hide Stays, Survivors;
    if i < j {
      SurvivorsSkip(ms, i + 1, j);
      SurvivorStep(ms, i);
    }
  }

  lemma SliceHead(ms: seq<Message>, i: nat, j: nat)
    requires i < j <= |ms|
    ensures ms[i..j] == [ms[i]] + ms[i + 1..j]
  {
  }

  /** From i to j everything stays. */
  lemma {:induction false} SurvivorsKeep(ms: seq<Message>, i: nat, j: nat)
    requires i <= j <= |ms| && forall k | i <= k < j :: Stays(ms, k)
    ensures Survivors(ms, i) == ms[i..j] + Survivors(ms, j)
    decreases j - i
  {
    hide Stays, Survivors;
    if i < j {
      SurvivorsKeep(ms, i + 1, j);
      SurvivorStep(ms, i);
      SliceHead(ms, i, j);
    }
  }

  lemma OpenerOfRun(ms: seq<Message>, o: nat, i: nat)
    requires o < i <= |ms| && ms[o].role != Tool && forall j | o < j < i :: ms[j].role == Tool
    ensures Opener(ms, i) == o
  {
    hide Opener;
    assert Opener(ms, i) >= 0 ==> ms[Opener(ms, i)].role != Tool;
  }

  lemma ToolRunBehind(ms: seq<Message>, o: nat)
    requires o < |ms|
    ensures var n := ToolRun(ms[o + 1..]);
            && o + 1 + n <= |ms| && (forall j | o < j < o + 1 + n :: ms[j].role == Tool)
            && (o + 1 + n < |ms| ==> ms[o + 1 + n].role != Tool)
  {
    hide ToolRun;
    var rest := ms[o + 1..];
    assert forall j | o < j < |ms| :: ms[j] == rest[j - o - 1];
  }

  /** What stays of a call and the replies behind it. */
  lemma GroupStays(ms: seq<Message>, o: nat, i: nat)
    requires o < |ms| && ms[o].role != Tool && o <= i < o + 1 + ToolRun(ms[o + 1..])
    ensures i < |ms| && (Stays(ms, i) <==> Answered(ms, o) && i - o <= CallCount(ms[o]))
  {
    hide CallCount, ToolRun, Answered;
    ToolRunBehind(ms, o);
    if o < i {
      OpenerOfRun(ms, o, i);
    }
  }

  lemma OrphanRound(ms: seq<Message>, i: nat)
    requires i < |ms| && RoundStart(ms, i) && ms[i].role == Tool
    ensures RoundStart(ms, RoundNext(ms, i))
    ensures Survivors(ms, i) == RoundKept(ms, i) + Survivors(ms, RoundNext(ms, i))
  {
    hide CallCount, ToolRun;
    SurvivorStep(ms, i);
  }

  lemma PlainRound(ms: seq<Message>, i: nat)
    requires i < |ms| && ms[i].role != Tool && CallCount(ms[i]) == 0
    ensures RoundStart(ms, RoundNext(ms, i))
    ensures Survivors(ms, i) == RoundKept(ms, i) + Survivors(ms, RoundNext(ms, i))
  {
    hide CallCount, ToolRun, Opener;
    OpenerOfRun(ms, i, i + 1);
    SurvivorStep(ms, i);
  }

  lemma CallStart(ms: seq<Message>, i: nat)
    requires i < |ms| && ms[i].role != Tool && CallCount(ms[i]) > 0
    ensures RoundStart(ms, RoundNext(ms, i))
  {
    hide CallCount, ToolRun, Opener;
    ToolRunBehind(ms, i);
  }

  lemma AnsweredRound(ms: seq<Message>, i: nat, c: nat, n: nat)
    requires i < |ms| && ms[i].role != Tool && CallCount(ms[i]) == c > 0 && ToolRun(ms[i + 1..]) == n >= c
    ensures i + 1 + n <= |ms|
    ensures Survivors(ms, i) == [ms[i]] + ms[i + 1..i + 1 + n][..c] + Survivors(ms, i + 1 + n)
  {
    hide CallCount, ToolRun, Survivors, Stays, Opener;
    ToolRunBehind(ms, i);
    forall k | i <= k < i + 1 + n
      ensures Stays(ms, k) <==> k - i <= c
    {
      GroupStays(ms, i, k);
    }
    SurvivorsKeep(ms, i, i + 1 + c);
    SurvivorsSkip(ms, i + 1 + c, i + 1 + n);
    KeptSlice(ms, i, c, n);
  }

  lemma UnansweredRound(ms: seq<Message>, i: nat, c: nat, n: nat)
    requires i < |ms| && ms[i].role != Tool && CallCount(ms[i]) == c > ToolRun(ms[i + 1..]) == n
    ensures i + 1 + n <= |ms|
    ensures Survivors(ms, i) == Survivors(ms, i + 1 + n)
  {
    hide CallCount, ToolRun, Survivors, Stays, Opener;
    ToolRunBehind(ms, i);
    forall k | i <= k < i + 1 + n
      ensures !Stays(ms, k)
    {
      GroupStays(ms, i, k);
    }
    SurvivorsSkip(ms, i, i + 1 + n);
  }

  lemma CallRound(ms: seq<Message>, i: nat)
    requires i < |ms| && ms[i].role != Tool && CallCount(ms[i]) > 0
    ensures Survivors(ms, i) == RoundKept(ms, i) + Survivors(ms, RoundNext(ms, i))
  {
    hide CallCount, ToolRun, Survivors, RoundKept, RoundNext;
    var c, n := CallCount(ms[i]), ToolRun(ms[i + 1..]);
    RoundOfCall(ms, i, c, n);
    if n >= c {
      AnsweredRound(ms, i, c, n);
    } else {
      UnansweredRound(ms, i, c, n);
      assert [] + Survivors(ms, i + 1 + n) == Survivors(ms, i + 1 + n);
    }
  }

  lemma KeptSlice(ms: seq<Message>, i: nat, c: nat, n: nat)
    requires c <= n && i + 1 + n <= |ms|
    ensures ms[i..i + 1 + c] == [ms[i]] + ms[i + 1..i + 1 + n][..c]
  {
  }

  /** Validation keeps exactly the messages that stay. */
  lemma {:induction false} ValidateKeepsSurvivors(ms: seq<Message>, i: nat)
    requires RoundStart(ms, i)
    ensures Validate(ms[i..]) == Survivors(ms, i)
    decreases |ms| - i
  {
    hide CallCount, ToolRun, Validate, RoundKept, Stays, RoundStart;
    assert i <= |ms| by { StartInRange(ms, i); }
    if i == |ms| {
      assert ms[i..] == [];
      ValidateNone();
    } else {
      if ms[i].role == Tool {
        OrphanRound(ms, i);
      } else if CallCount(ms[i]) > 0 {
        CallStart(ms, i);
        CallRound(ms, i);
      } else {
        PlainRound(ms, i);
      }
      ValidateKeepsSurvivors(ms, RoundNext(ms, i));
      RoundValidates(ms, i);
    }
  }

  lemma StartInRange(ms: seq<Message>, i: nat)
    requires RoundStart(ms, i)
    ensures i <= |ms|
  {
  }

  // ----- where a survivor comes from -----

  /** The survivors are messages that stay, at ascending places, with none left out. */
  ghost predicate Places(ms: seq<Message>, i: nat, v: seq<Message>, ks: seq<nat>) {
    && |ks| == |v|
    && (forall n | 0 <= n < |ks| :: i <= ks[n] < |ms| && Stays(ms, ks[n]) && v[n] == ms[ks[n]])
    && (forall m, n | 0 <= m < n < |ks| :: ks[m] < ks[n])
    && (forall k | i <= k < |ms| && Stays(ms, k) :: k in ks)
  }

  lemma PlacesSkip(ms: seq<Message>, i: nat, v: seq<Message>, ks: seq<nat>)
    requires i < |ms| && !Stays(ms, i) && Places(ms, i + 1, v, ks)
    ensures Places(ms, i, v, ks)
  {
    hide Stays;
  }

  lemma PlacesCons(ms: seq<Message>, i: nat, v: seq<Message>, ks: seq<nat>)
    requires i < |ms| && Stays(ms, i) && Places(ms, i + 1, v, ks)
    ensures Places(ms, i, [ms[i]] + v, [i] + ks)
  {
    hide Stays;
    var w, ls := [ms[i]] + v, [i] + ks;
    forall n | 0 <= n < |ls|
      ensures i <= ls[n] < |ms| && Stays(ms, ls[n]) && w[n] == ms[ls[n]]
    {
      assert n > 0 ==> ls[n] == ks[n - 1] && w[n] == v[n - 1];
    }
    forall m, n | 0 <= m < n < |ls|
      ensures ls[m] < ls[n]
    {
      assert ls[n] == ks[n - 1] && (m > 0 ==> ls[m] == ks[m - 1]);
    }
    forall k | i <= k < |ms| && Stays(ms, k)
      ensures k in ls
    {
      assert k == i || k in ks;
    }
  }

  lemma {:induction false} SurvivorPlaces(ms: seq<Message>, i: nat) returns (ks: seq<nat>)
    requires i <= |ms|
    ensures Places(ms, i, Survivors(ms, i), ks)
    decreases |ms| - i
  {
    hide Stays, Survivors, Places;
    if i == |ms| {
      NoPlaces(ms);
      ks := [];
    } else {
      ks := SurvivorPlaces(ms, i + 1);
      SurvivorStep(ms, i);
      if Stays(ms, i) {
        PlacesCons(ms, i, Survivors(ms, i + 1), ks);
        ks := [i] + ks;
      } else {
        PlacesSkip(ms, i, Survivors(ms, i + 1), ks);
      }
    }
  }

  lemma NoPlaces(ms: seq<Message>)
    ensures Places(ms, |ms|, Survivors(ms, |ms|), [])
  {
    hide Stays;
  }

  lemma PlaceAt(ms: seq<Message>, v: seq<Message>, ks: seq<nat>, k: nat) returns (n: nat)
    requires Places(ms, 0, v, ks) && k < |ms| && Stays(ms, k)
    ensures n < |ks| && ks[n] == k
  {
    hide Stays;
    assert k in ks;
    n :| n < |ks| && ks[n] == k;
  }

  lemma PlaceOf(ms: seq<Message>, v: seq<Message>, ks: seq<nat>, n: nat)
    requires Places(ms, 0, v, ks) && n < |v|
    ensures |ks| == |v| && ks[n] < |ms| && Stays(ms, ks[n]) && v[n] == ms[ks[n]]
  {
    hide Stays;
  }

  lemma PlaceOrder(ms: seq<Message>, v: seq<Message>, ks: seq<nat>, m: nat, n: nat)
    requires Places(ms, 0, v, ks) && m < |v| && n < |v|
    ensures |ks| == |v| && (m < n <==> ks[m] < ks[n])
  {
    hide Stays;
    assert m < n ==> ks[m] < ks[n];
    assert n < m ==> ks[n] < ks[m];
  }

  // ----- meeting pairs -----

  ghost predicate UserUpTo(ms: seq<Message>, i: nat) {
    exists u: nat :: u <= i && u < |ms| && ms[u].role == User && Stays(ms, u)
  }

  ghost predicate StopFrom(ms: seq<Message>, j: nat, dropTrailingUser: bool) {
    exists e: nat :: j <= e < |ms| && Stays(ms, e) && !DropsLast(ms[e], dropTrailingUser)
  }

  /** Two mergeable messages with nothing between them but what validation drops, a surviving user
      turn at or before the first, and at or behind the second a survivor that stops the popping. */
  ghost predicate MeetingPair(ms: seq<Message>, i: nat, j: nat, dropTrailingUser: bool) {
    && i < j < |ms| && CanMerge(ms[i], ms[j])
    && (forall k | i < k < j :: !Stays(ms, k))
    && UserUpTo(ms, i) && StopFrom(ms, j, dropTrailingUser)
  }

  lemma MergeableStays(ms: seq<Message>, i: nat, j: nat)
    requires i < |ms| && j < |ms| && CanMerge(ms[i], ms[j])
    ensures Stays(ms, i) && Stays(ms, j)
  {
  }

  lemma UserPlaces(ms: seq<Message>, v: seq<Message>, ks: seq<nat>, n: nat)
    requires Places(ms, 0, v, ks) && n < |v|
    ensures |ks| == |v| && (UserUpTo(ms, ks[n]) <==> exists u | 0 <= u <= n :: v[u].role == User)
  {
    hide Stays, Places;
    PlaceOf(ms, v, ks, n);
    if UserUpTo(ms, ks[n]) {
      var u: nat :| u <= ks[n] && u < |ms| && ms[u].role == User && Stays(ms, u);
      var m := PlaceAt(ms, v, ks, u);
      PlaceOf(ms, v, ks, m);
      PlaceOrder(ms, v, ks, n, m);
    }
    if u :| 0 <= u <= n && v[u].role == User {
      PlaceOf(ms, v, ks, u);
      PlaceOrder(ms, v, ks, n, u);
    }
  }

  lemma StopPlaces(ms: seq<Message>, v: seq<Message>, ks: seq<nat>, n: nat, dropTrailingUser: bool)
    requires Places(ms, 0, v, ks) && n < |v|
    ensures |ks| == |v|
    ensures StopFrom(ms, ks[n], dropTrailingUser) <==> exists e | n <= e < |v| :: !DropsLast(v[e], dropTrailingUser)
  {
    hide Stays, Places, DropsLast;
    PlaceOf(ms, v, ks, n);
    if StopFrom(ms, ks[n], dropTrailingUser) {
      var e: nat :| ks[n] <= e < |ms| && Stays(ms, e) && !DropsLast(ms[e], dropTrailingUser);
      var m := PlaceAt(ms, v, ks, e);
      PlaceOf(ms, v, ks, m);
      PlaceOrder(ms, v, ks, m, n);
    }
    if e :| n <= e < |v| && !DropsLast(v[e], dropTrailingUser) {
      PlaceOf(ms, v, ks, e);
      PlaceOrder(ms, v, ks, e, n);
    }
  }

  lemma NothingBetween(ms: seq<Message>, v: seq<Message>, ks: seq<nat>, n: nat)
    requires Places(ms, 0, v, ks) && 0 < n < |v|
    ensures |ks| == |v| && ks[n - 1] < ks[n] < |ms| && forall k | ks[n - 1] < k < ks[n] :: !Stays(ms, k)
  {
    hide Stays, Places;
    PlaceOf(ms, v, ks, n);
    PlaceOrder(ms, v, ks, n - 1, n);
    forall k | ks[n - 1] < k < ks[n]
      ensures !Stays(ms, k)
    {
      if Stays(ms, k) {
        var m := PlaceAt(ms, v, ks, k);
        PlaceOf(ms, v, ks, n);
        PlaceOrder(ms, v, ks, n - 1, m);
        PlaceOrder(ms, v, ks, m, n);
        assert false;
      }
    }
  }

  /** The two ends of a trimmed history. */
  lemma TrimEnds(v: seq<Message>, dropTrailingUser: bool, n: nat)
    requires n < |v|
    ensures FirstUser(v) <= n <==> exists u | 0 <= u <= n :: v[u].role == User
    ensures var f := FirstUser(v);
            f <= n ==> (n < f + BackCut(v[f..], dropTrailingUser) <==> exists k | n <= k < |v| :: !DropsLast(v[k], dropTrailingUser))
  {
    hide DropsLast, FirstUser, BackCut;
    var f := FirstUser(v);
    var front := v[f..];
    var cut := BackCut(front, dropTrailingUser);
    assert f <= n ==> v[f].role == User;
    if f <= n {
      if n < f + cut {
        assert front[cut - 1] == v[f + cut - 1];
      }
      if k :| n <= k < |v| && !DropsLast(v[k], dropTrailingUser) {
        assert front[k - f] == v[k];
      }
    }
  }

  /** Two kept neighbours that can merge are a meeting pair. */
  lemma NeighboursMeet(ms: seq<Message>, v: seq<Message>, ks: seq<nat>, n: nat, dropTrailingUser: bool)
    requires Places(ms, 0, v, ks) && 0 < n < |v|
    ensures |ks| == |v|
    ensures MeetingPair(ms, ks[n - 1], ks[n], dropTrailingUser) <==>
            CanMerge(v[n - 1], v[n]) && FirstUser(v) < n < FirstUser(v) + BackCut(v[FirstUser(v)..], dropTrailingUser)
  {
    hide CanMerge, Stays, DropsLast, BackCut, FirstUser, Places, UserUpTo, StopFrom;
    NothingBetween(ms, v, ks, n);
    PlaceOf(ms, v, ks, n - 1);
    PlaceOf(ms, v, ks, n);
    UserPlaces(ms, v, ks, n - 1);
    StopPlaces(ms, v, ks, n, dropTrailingUser);
    TrimEnds(v, dropTrailingUser, n - 1);
    TrimEnds(v, dropTrailingUser, n);
  }

  lemma PairIsNeighbours(ms: seq<Message>, v: seq<Message>, ks: seq<nat>, i: nat, j: nat, dropTrailingUser: bool) returns (n: nat)
    requires Places(ms, 0, v, ks) && MeetingPair(ms, i, j, dropTrailingUser)
    ensures 0 < n < |v| && |ks| == |v| && ks[n - 1] == i && ks[n] == j
  {
    hide Stays, Places, CanMerge, UserUpTo, StopFrom;
    MergeableStays(ms, i, j);
    var m := PlaceAt(ms, v, ks, i);
    n := PlaceAt(ms, v, ks, j);
    SizeOfPlaces(ms, v, ks);
    PlaceOrder(ms, v, ks, m, n);
    PlaceOf(ms, v, ks, n - 1);
    PlaceOrder(ms, v, ks, n - 1, n);
    PlaceOrder(ms, v, ks, m, n - 1);
  }

  lemma SizeOfPlaces(ms: seq<Message>, v: seq<Message>, ks: seq<nat>)
    requires Places(ms, 0, v, ks)
    ensures |ks| == |v|
  {
    hide Stays;
  }

  lemma {:induction false} SettledIff(ms: seq<Message>)
    ensures Settled(ms) <==> forall i | 0 < i < |ms| :: !CanMerge(ms[i - 1], ms[i])
  {
    hide CanMerge;
    if |ms| > 1 {
      var init, n := ms[..|ms| - 1], |ms| - 1;
      SettledIff(init);
      assert forall i | 0 <= i < n :: init[i] == ms[i];
      assert Settled(ms) <==> Settled(init) && !CanMerge(ms[n - 1], ms[n]);
      assert (forall i | 0 < i < |ms| :: !CanMerge(ms[i - 1], ms[i])) <==>
             (forall i | 0 < i < |init| :: !CanMerge(ms[i - 1], ms[i])) && !CanMerge(ms[n - 1], ms[n]);
    }
  }

  lemma TrimSettlesIff(v: seq<Message>, dropTrailingUser: bool)
    ensures Settled(Trim(v, dropTrailingUser)) <==>
            forall n | FirstUser(v) < n < FirstUser(v) + BackCut(v[FirstUser(v)..], dropTrailingUser) :: !CanMerge(v[n - 1], v[n])
  {
    hide CanMerge, FirstUser, BackCut, Settled;
    var f, s := FirstUser(v), Trim(v, dropTrailingUser);
    SettledIff(s);
    assert forall i | 0 <= i < |s| :: s[i] == v[f + i];
    forall n | f < n < f + |s|
      ensures CanMerge(v[n - 1], v[n]) <==> CanMerge(s[n - f - 1], s[n - f])
    {
    }
    forall i | 0 < i < |s|
      ensures CanMerge(s[i - 1], s[i]) <==> CanMerge(v[f + i - 1], v[f + i])
    {
    }
  }

  lemma SurvivorsSettleIff(ms: seq<Message>, v: seq<Message>, ks: seq<nat>, dropTrailingUser: bool)
    requires Places(ms, 0, v, ks)
    ensures Settled(Trim(v, dropTrailingUser)) <==> !exists i: nat, j: nat :: MeetingPair(ms, i, j, dropTrailingUser)
  {
    hide Places, MeetingPair, CanMerge, FirstUser, BackCut, Settled, Trim;
    TrimSettlesIff(v, dropTrailingUser);
    if i: nat, j: nat :| MeetingPair(ms, i, j, dropTrailingUser) {
      var n := PairIsNeighbours(ms, v, ks, i, j, dropTrailingUser);
      NeighboursMeet(ms, v, ks, n, dropTrailingUser);
    }
    var f := FirstUser(v);
    if n :| f < n < f + BackCut(v[f..], dropTrailingUser) && CanMerge(v[n - 1], v[n]) {
      NeighboursMeet(ms, v, ks, n, dropTrailingUser);
    }
  }

  // ----- the repair -----

  lemma ValidatedSettlesIff(ms: seq<Message>, dropTrailingUser: bool)
    ensures Settled(Trim(Validate(ms), dropTrailingUser)) <==> !exists i: nat, j: nat :: MeetingPair(ms, i, j, dropTrailingUser)
  {
    hide Places, MeetingPair, Trim;
    ValidateKeepsSurvivors(ms, 0);
    assert ms[0..] == ms;
    var ks := SurvivorPlaces(ms, 0);
    SurvivorsSettleIff(ms, Survivors(ms, 0), ks, dropTrailingUser);
  }

  /** For every history: one pass leaves no two neighbours to merge if and only if no two mergeable
      messages of the merged history meet when validation drops what is between them. */
  lemma SanitizeSettlesIff(history: seq<Message>, merged: seq<Message>, dropTrailingUser: bool)
    requires merged == Deduplicate(history)
    ensures Settled(Sanitize(history, dropTrailingUser)) <==>
            !exists i: nat, j: nat :: MeetingPair(merged, i, j, dropTrailingUser)
  {
    ValidatedSettlesIff(merged, dropTrailingUser);
  }

  /** In particular one pass is enough for a history whose tool groups are balanced. */
  lemma BalancedSettlesAtOnce(history: seq<Message>, dropTrailingUser: bool)
    requires Balanced(history)
    ensures Settled(Sanitize(history, dropTrailingUser))
  {
    hide Validate, Deduplicate, CanMerge, Settled, FirstUser, BackCut;
    var d := Deduplicate(history);
    DeduplicateKeepsOwed(history);
    ValidateFixesBalanced(d);
    DeduplicateSettles(history);
    SettledIff(d);
    TrimSettlesIff(d, dropTrailingUser);
  }

  // ----- when a group is split -----

  /** From here on every survivor is popped. */
  ghost predicate AllPopped(ms: seq<Message>, j: nat, dropTrailingUser: bool) {
    forall k | j <= k < |ms| && Stays(ms, k) :: DropsLast(ms[k], dropTrailingUser)
  }

  /** A tool reply is the oldest message to be popped: the survivor right before it stays. */
  ghost predicate SplitPair(ms: seq<Message>, i: nat, j: nat, dropTrailingUser: bool) {
    && i < j < |ms| && Stays(ms, i) && Stays(ms, j) && ms[j].role == Tool
    && (forall k | i < k < j :: !Stays(ms, k))
    && !DropsLast(ms[i], dropTrailingUser) && AllPopped(ms, j, dropTrailingUser)
    && UserUpTo(ms, i)
  }

  lemma PoppedPlaces(ms: seq<Message>, v: seq<Message>, ks: seq<nat>, n: nat, dropTrailingUser: bool)
    requires Places(ms, 0, v, ks) && n < |v|
    ensures |ks| == |v|
    ensures AllPopped(ms, ks[n], dropTrailingUser) <==> forall e | n <= e < |v| :: DropsLast(v[e], dropTrailingUser)
  {
    hide Stays, Places, DropsLast;
    StopPlaces(ms, v, ks, n, dropTrailingUser);
    PlaceOf(ms, v, ks, n);
    if !AllPopped(ms, ks[n], dropTrailingUser) {
      assert StopFrom(ms, ks[n], dropTrailingUser);
    }
    if e :| n <= e < |v| && !DropsLast(v[e], dropTrailingUser) {
      assert StopFrom(ms, ks[n], dropTrailingUser);
    }
  }

  /** The popping stops in front of place n. */
  ghost predicate StopsBefore(v: seq<Message>, n: nat, dropTrailingUser: bool) {
    && 0 < n < |v| && FirstUser(v) < n && v[n].role == Tool && !DropsLast(v[n - 1], dropTrailingUser)
    && forall e | n <= e < |v| :: DropsLast(v[e], dropTrailingUser)
  }

  lemma StopIsBackCut(v: seq<Message>, dropTrailingUser: bool)
    ensures var w := v[FirstUser(v)..];
            var cut := BackCut(w, dropTrailingUser);
            (cut < |w| && w[cut].role == Tool) <==> exists n: nat :: StopsBefore(v, n, dropTrailingUser)
  {
    hide DropsLast, FirstUser, BackCut;
    var f := FirstUser(v);
    var w := v[f..];
    var cut := BackCut(w, dropTrailingUser);
    assert forall i | 0 <= i < |w| :: w[i] == v[f + i];
    if cut < |w| && w[cut].role == Tool {
      assert w[0].role == User;
      forall e | f + cut <= e < |v|
        ensures DropsLast(v[e], dropTrailingUser)
      {
        assert v[e] == w[e - f];
      }
      assert v[f + cut - 1] == w[cut - 1];
      assert StopsBefore(v, f + cut, dropTrailingUser);
    }
    if n: nat :| StopsBefore(v, n, dropTrailingUser) {
      assert w[n - 1 - f] == v[n - 1] && w[n - f] == v[n];
      forall i | n - f <= i < |w|
        ensures DropsLast(w[i], dropTrailingUser)
      {
        assert w[i] == v[f + i];
      }
      assert cut == n - f;
    }
  }

  lemma SplitMeans(ms: seq<Message>, v: seq<Message>, ks: seq<nat>, n: nat, dropTrailingUser: bool)
    requires Places(ms, 0, v, ks) && 0 < n < |v|
    ensures |ks| == |v|
    ensures SplitPair(ms, ks[n - 1], ks[n], dropTrailingUser) <==> StopsBefore(v, n, dropTrailingUser)
  {
    hide Stays, DropsLast, FirstUser, Places, UserUpTo, AllPopped;
    NothingBetween(ms, v, ks, n);
    PlaceOf(ms, v, ks, n - 1);
    PlaceOf(ms, v, ks, n);
    UserPlaces(ms, v, ks, n - 1);
    PoppedPlaces(ms, v, ks, n, dropTrailingUser);
    TrimEnds(v, dropTrailingUser, n - 1);
  }

  lemma SplitIsNeighbours(ms: seq<Message>, v: seq<Message>, ks: seq<nat>, i: nat, j: nat, dropTrailingUser: bool) returns (n: nat)
    requires Places(ms, 0, v, ks) && SplitPair(ms, i, j, dropTrailingUser)
    ensures 0 < n < |v| && |ks| == |v| && ks[n - 1] == i && ks[n] == j
  {
    hide Stays, Places, UserUpTo, AllPopped;
    var m := PlaceAt(ms, v, ks, i);
    n := PlaceAt(ms, v, ks, j);
    SizeOfPlaces(ms, v, ks);
    PlaceOrder(ms, v, ks, m, n);
    PlaceOf(ms, v, ks, n - 1);
    PlaceOrder(ms, v, ks, n - 1, n);
    PlaceOrder(ms, v, ks, m, n - 1);
  }

  lemma SurvivorsSplitIff(ms: seq<Message>, v: seq<Message>, ks: seq<nat>, dropTrailingUser: bool)
    requires Places(ms, 0, v, ks)
    ensures (exists n: nat :: StopsBefore(v, n, dropTrailingUser)) <==>
            exists i: nat, j: nat :: SplitPair(ms, i, j, dropTrailingUser)
  {
    hide Places, SplitPair, StopsBefore;
    if n: nat :| StopsBefore(v, n, dropTrailingUser) {
      StopInside(v, n, dropTrailingUser);
      SplitMeans(ms, v, ks, n, dropTrailingUser);
    }
    if i: nat, j: nat :| SplitPair(ms, i, j, dropTrailingUser) {
      var n := SplitIsNeighbours(ms, v, ks, i, j, dropTrailingUser);
      SplitMeans(ms, v, ks, n, dropTrailingUser);
    }
  }

  lemma StopInside(v: seq<Message>, n: nat, dropTrailingUser: bool)
    requires StopsBefore(v, n, dropTrailingUser)
    ensures 0 < n < |v|
  {
    hide DropsLast;
  }

  /** For every history: the repair leaves balanced groups if and only if the merged history has no tool
      reply that is the oldest survivor to be popped. */
  lemma SanitizeSplitsIff(history: seq<Message>, merged: seq<Message>, dropTrailingUser: bool)
    requires merged == Deduplicate(history)
    ensures Balanced(Sanitize(history, dropTrailingUser)) <==>
            !exists i: nat, j: nat :: SplitPair(merged, i, j, dropTrailingUser)
  {
    hide Sanitize, SplitPair, StopsBefore, Places, BackCut, FirstUser;
    SanitizeBalancedIff(history, dropTrailingUser);
    ValidateKeepsSurvivors(merged, 0);
    assert merged[0..] == merged;
    StopIsBackCut(Validate(merged), dropTrailingUser);
    var ks := SurvivorPlaces(merged, 0);
    SurvivorsSplitIff(merged, Survivors(merged, 0), ks, dropTrailingUser);
  }
}
