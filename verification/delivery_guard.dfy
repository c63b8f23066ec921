/** Refusing stale sends (src/wahabot/ai/tools/runcontext.py). */
module DeliveryGuard {
  // The guard refuses a send that would answer an older turn. The intake store is a parameter: the
  // rows it lists, in order of arrival and with distinct ids, and the ids its claim call grants.

  import opened Optional
  import opened Text
  import opened Sequences

  const GUARD_CHARS := 1200

  /** An intake row as the guard sees it. */
  datatype Row = Row(id: string, record: string, at: real, pending: bool, addressed: bool)

  // ----- selecting the records a refusal shows -----

  function Records(rows: seq<Row>): (rs: seq<string>)
    ensures |rs| == |rows| && forall i | 0 <= i < |rows| :: rs[i] == rows[i].record
  {
    seq(|rows|, i requires 0 <= i < |rows| => rows[i].record)
  }

  function Shown(rows: seq<Row>): string {
    Join(Records(rows), "\n")
  }

  /** Length of the records joined, counted from the newest. */
  function Cost(rows: seq<Row>): nat {
    if rows == [] then 0 else |rows[0].record| + (if |rows| > 1 then 1 else 0) + Cost(rows[1..])
  }

  lemma {:induction false} CostIsLength(rows: seq<Row>)
    ensures |Shown(rows)| == Cost(rows)
  {
    if |rows| > 1 {
      CostIsLength(rows[1..]);
      assert Records(rows)[1..] == Records(rows[1..]);
    }
  }

  /** The last k rows. */
  function Last(rows: seq<Row>, k: nat): seq<Row>
    requires k <= |rows|
  {
    rows[|rows| - k..]
  }

  lemma CostOfNone()
    ensures Cost([]) == 0
  {
  }

  lemma CostOfOneMore(rows: seq<Row>, k: nat)
    requires k < |rows|
    ensures Cost(Last(rows, k + 1)) == |rows[|rows| - k - 1].record| + (if k > 0 then 1 else 0) + Cost(Last(rows, k))
  {
    assert Last(rows, k + 1)[1..] == Last(rows, k);
  }

  /** k is the longest newest part whose records, joined, fit the budget, or the newest alone. */
  predicate IsSelection(newer: seq<Row>, k: nat) {
    && k <= |newer|
    && (newer != [] ==> k >= 1)
    && (k >= 2 ==> |Shown(Last(newer, k))| <= GUARD_CHARS)
    && (1 <= k < |newer| ==> |Shown(Last(newer, k + 1))| > GUARD_CHARS)
  }

  function SelectionSize(newer: seq<Row>): (k: nat)
    ensures IsSelection(newer, k)
  {
    SelectionFrom(newer, if newer == [] then 0 else 1)
  }

  function Selection(newer: seq<Row>): seq<Row> {
    Last(newer, SelectionSize(newer))
  }

  /** Takes one more row as long as the records fit. */
  function SelectionFrom(newer: seq<Row>, k: nat): (n: nat)
    requires k <= |newer| && (newer != [] ==> k >= 1) && (k >= 2 ==> |Shown(Last(newer, k))| <= GUARD_CHARS)
    ensures IsSelection(newer, n)
    decreases |newer| - k
  {
    if k < |newer| && |Shown(Last(newer, k + 1))| <= GUARD_CHARS then SelectionFrom(newer, k + 1) else k
  }

  /** Only one selection meets the description. */
  lemma SelectionIsUnique(newer: seq<Row>, j: nat, k: nat)
    requires IsSelection(newer, j) && IsSelection(newer, k)
    ensures j == k
  {
    if j < k {
      LongerCostsMore(newer, j + 1, k);
    } else if k < j {
      LongerCostsMore(newer, k + 1, j);
    }
  }

  lemma {:induction false} LongerCostsMore(rows: seq<Row>, j: nat, k: nat)
    requires j <= k <= |rows|
    ensures |Shown(Last(rows, j))| <= |Shown(Last(rows, k))|
    decreases k
  {
    if j < k {
      LongerCostsMore(rows, j, k - 1);
      CostOfOneMore(rows, k - 1);
      CostIsLength(Last(rows, k - 1));
      CostIsLength(Last(rows, k));
    }
  }

  method GuardSelection(newer: seq<Row>) returns (selected: seq<Row>)
    ensures selected == Selection(newer)
  {
    hide Cost, Shown;
    var taken: seq<Row> := [];
    var budget: int := GUARD_CHARS;
    ghost var k := 0;
    CostOfNone();
    var i := |newer|;
    while i > 0
      invariant 0 <= i <= |newer| && k == |newer| - i
      invariant taken == Reversed(Last(newer, k))
      invariant budget == GUARD_CHARS - Cost(Last(newer, k))
      invariant k >= 2 ==> budget >= 0
      decreases i
    {
      var entry := newer[i - 1];
      var cost := |entry.record| + if taken != [] then 1 else 0;
      CostOfOneMore(newer, k);
      if taken != [] && cost > budget {
        CostIsLength(Last(newer, k + 1));
        break;
      }
      assert Reversed(Last(newer, k + 1)) == Reversed(Last(newer, k)) + [entry];
      taken := taken + [entry];
      budget := budget - cost;
      i, k := i - 1, k + 1;
    }
    CostIsLength(Last(newer, k));
    selected := Reversed(taken);
    assert selected == Last(newer, k);
    SelectionIsUnique(newer, k, SelectionSize(newer));
  }

  // ----- claiming and rendering -----

  /** The selected rows whose claim was granted. */
  function Granted(selected: seq<Row>, owned: set<string>): seq<Row> {
    if selected == [] then []
    else (if selected[0].id in owned then [selected[0]] else []) + Granted(selected[1..], owned)
  }

  lemma {:induction false} GrantedIsPart(selected: seq<Row>, owned: set<string>)
    ensures Subsequence(Granted(selected, owned), selected)
    ensures forall r | r in Granted(selected, owned) :: r in selected && r.id in owned
    ensures Cost(Granted(selected, owned)) <= Cost(selected)
    ensures Granted(selected, owned) != [] ==> selected != []
  {
    if selected != [] {
      GrantedIsPart(selected[1..], owned);
      var rest := Granted(selected[1..], owned);
      if selected[0].id in owned {
        assert Granted(selected, owned)[1..] == rest;
        assert rest != [] ==> selected[1..] != [];
      } else {
        assert [] + rest == rest;
      }
    }
  }

  function CutRecords(shown: seq<Row>): string {
    var records := Shown(shown);
    if |records| > GUARD_CHARS then records[..GUARD_CHARS] else records
  }

  /** A refusal shows the records it claims in full, except that a lone record over the budget is cut:
      no part of a refusal with several records is ever hidden. */
  lemma NothingHiddenIff(newer: seq<Row>, owned: set<string>)
    ensures var shown := Granted(Selection(newer), owned);
            CutRecords(shown) == Shown(shown) <==> !(|shown| == 1 && |shown[0].record| > 1200)
  {
    var selected := Selection(newer);
    var shown := Granted(selected, owned);
    GrantedIsPart(selected, owned);
    CostIsLength(selected);
    CostIsLength(shown);
    SubsequenceMembers(shown, selected);
    if |shown| == 1 {
      assert Records(shown) == [shown[0].record];
    }
  }

  // ----- one run's latches -----

  datatype Outcome = Allowed | StillRefused | Refused(shown: seq<Row>, left: int)

  /** The fields of a RunTarget that the guard reads and writes. */
  datatype Target = Target(
    hasIntake: bool,
    armed: bool,
    turnIds: seq<string>,
    startedAt: real,
    claimedIds: seq<string>,
    refused: bool,
    anchorId: string,
    anchorAt: real)

  function Ids(rows: seq<Row>): (ids: seq<string>)
    ensures |ids| == |rows| && forall i | 0 <= i < |rows| :: ids[i] == rows[i].id
  {
    seq(|rows|, i requires 0 <= i < |rows| => rows[i].id)
  }

  /** The pending addressed rows after the turn's start that the run does not have already. */
  function Newer(rows: seq<Row>, t: Target): seq<Row> {
    if rows == [] then []
    else
      var r := rows[0];
      (if r.pending && r.id !in t.turnIds + t.claimedIds && r.at > t.startedAt && r.addressed then [r] else []) + Newer(rows[1..], t)
  }

  function Refuse(t: Target, newer: seq<Row>, owned: set<string>): (Target, Outcome) {
    var shown := Granted(Selection(newer), owned);
    if shown == [] then (t, Allowed)
    else
      var newest := shown[|shown| - 1];
      var moved := t.(claimedIds := t.claimedIds + Ids(shown), refused := true);
      (if newest.at >= t.anchorAt then moved.(anchorId := newest.id, anchorAt := newest.at) else moved,
       Refused(shown, |newer| - |shown|))
  }

  function Guard(t: Target, rows: seq<Row>, owned: set<string>): (Target, Outcome) {
    if !t.hasIntake || t.armed || t.turnIds == [] then (t, Allowed)
    else if t.refused then (t, StillRefused)
    else
      var newer := Newer(rows, t);
      if newer == [] then (t, Allowed) else Refuse(t, newer, owned)
  }

  /** Claimed ids are distinct, and none is one of the turn's own. */
  predicate ClaimsInv(t: Target) {
    Distinct(t.claimedIds) && forall id | id in t.claimedIds :: id !in t.turnIds
  }

  predicate DistinctRows(rows: seq<Row>) {
    forall i, j | 0 <= i < j < |rows| :: rows[i].id != rows[j].id
  }

  /** A row the run does not have yet, arrived after its turn began. */
  predicate Fresh(r: Row, t: Target) {
    r.id !in t.turnIds && r.id !in t.claimedIds && r.at > t.startedAt
  }

  lemma {:induction false} NewerRows(rows: seq<Row>, t: Target)
    ensures Subsequence(Newer(rows, t), rows)
    ensures forall r | r in Newer(rows, t) :: Fresh(r, t)
  {
    if rows != [] {
      NewerRows(rows[1..], t);
      assert [] + Newer(rows[1..], t) == Newer(rows[1..], t);
      assert rows[0].id !in t.turnIds + t.claimedIds ==> rows[0].id !in t.turnIds && rows[0].id !in t.claimedIds;
    }
  }

  lemma {:induction false} DistinctSubsequence(a: seq<Row>, b: seq<Row>)
    requires Subsequence(a, b) && DistinctRows(b)
    ensures DistinctRows(a)
    decreases |a| + |b|
  {
    if a != [] {
      assert forall i, j | 0 <= i < j < |b| - 1 :: b[1..][i].id != b[1..][j].id;
      if a[0] == b[0] && Subsequence(a[1..], b[1..]) {
        DistinctSubsequence(a[1..], b[1..]);
        SubsequenceMembers(a[1..], b[1..]);
        forall j | 0 < j < |a|
          ensures a[0].id != a[j].id
        {
          assert a[j] == a[1..][j - 1] && a[j] in b[1..];
        }
        forall i, j | 0 < i < j < |a|
          ensures a[i].id != a[j].id
        {
          assert a[i] == a[1..][i - 1] && a[j] == a[1..][j - 1];
        }
      } else {
        DistinctSubsequence(a, b[1..]);
      }
    }
  }

  lemma ShownIsPart(newer: seq<Row>, owned: set<string>)
    ensures Subsequence(Granted(Selection(newer), owned), newer)
  {
    hide SelectionSize, Granted, Subsequence;
    GrantedIsPart(Selection(newer), owned);
    SuffixIsSubsequence(newer, |newer| - SelectionSize(newer));
    SubsequenceTrans(Granted(Selection(newer), owned), Selection(newer), newer);
  }

  lemma ShownRows(t: Target, rows: seq<Row>, owned: set<string>)
    requires DistinctRows(rows)
    ensures var shown := Granted(Selection(Newer(rows, t)), owned);
            && DistinctRows(shown)
            && (forall r | r in shown :: r.id in owned && Fresh(r, t))
            && |shown| <= |Newer(rows, t)|
  {
    hide Newer, Selection, Granted, Subsequence, DistinctRows, Fresh;
    var newer := Newer(rows, t);
    var shown := Granted(Selection(newer), owned);
    NewerRows(rows, t);
    ShownIsPart(newer, owned);
    SubsequenceTrans(shown, newer, rows);
    DistinctSubsequence(shown, rows);
    SubsequenceMembers(shown, newer);
    GrantedIsPart(Selection(newer), owned);
  }

  lemma DistinctConcat(a: seq<string>, b: seq<string>)
    requires Distinct(a) && Distinct(b) && forall i, j | 0 <= i < |a| && 0 <= j < |b| :: a[i] != b[j]
    ensures Distinct(a + b)
  {
  }

  lemma ClaimMore(t: Target, shown: seq<Row>)
    requires ClaimsInv(t) && DistinctRows(shown)
    requires forall r | r in shown :: Fresh(r, t)
    ensures Distinct(t.claimedIds + Ids(shown)) && forall id | id in t.claimedIds + Ids(shown) :: id !in t.turnIds
  {
    forall i | 0 <= i < |shown|
      ensures Ids(shown)[i] !in t.turnIds && Ids(shown)[i] !in t.claimedIds
    {
      assert shown[i] in shown;
    }
    DistinctConcat(t.claimedIds, Ids(shown));
  }

  /** One check claims only fresh ids, all of them granted and shown, and nothing while a refusal stands. */
  lemma GuardKeepsClaims(t: Target, rows: seq<Row>, owned: set<string>)
    requires ClaimsInv(t) && DistinctRows(rows)
    ensures var (n, outcome) := Guard(t, rows, owned);
            && ClaimsInv(n)
            && n.turnIds == t.turnIds
            && (outcome.Refused? ==> outcome.shown != [] && outcome.left >= 0 && n.refused && n.claimedIds == t.claimedIds + Ids(outcome.shown)
                                     && forall r | r in outcome.shown :: r.id in owned && r.at > t.startedAt)
            && (!outcome.Refused? ==> n == t)
            && n.anchorAt >= t.anchorAt
  {
    hide Newer, Selection, Granted;
    ShownRows(t, rows, owned);
    ClaimMore(t, Granted(Selection(Newer(rows, t)), owned));
  }

  // ----- what a check answers -----

  /** Exactly the pending, addressed rows that are fresh to the run, in their order. */
  ghost predicate IsNewer(newer: seq<Row>, rows: seq<Row>, t: Target) {
    && Subsequence(newer, rows)
    && forall r :: r in newer <==> r in rows && r.pending && r.addressed && Fresh(r, t)
  }

  lemma {:induction false} NewerIsNewer(rows: seq<Row>, t: Target)
    ensures IsNewer(Newer(rows, t), rows, t)
  {
    if rows != [] {
      var r, rest := rows[0], Newer(rows[1..], t);
      NewerIsNewer(rows[1..], t);
      NewerRows(rows, t);
      assert r.id !in t.turnIds + t.claimedIds <==> r.id !in t.turnIds && r.id !in t.claimedIds;
      assert forall x :: x in rows <==> x == r || x in rows[1..];
      assert forall x :: x in [r] + rest <==> x == r || x in rest;
      assert [] + rest == rest;
    }
  }

  lemma {:induction false} SameRows(a: seq<Row>, b: seq<Row>, rows: seq<Row>)
    requires DistinctRows(rows) && Subsequence(a, rows) && Subsequence(b, rows)
    requires forall r :: r in a <==> r in b
    ensures a == b
  {
    hide Subsequence, DistinctRows;
    if rows == [] {
      NothingInNothing(a, rows);
      NothingInNothing(b, rows);
    } else {
      RestDistinct(rows);
      FirstOrLater(a, rows);
      FirstOrLater(b, rows);
      if rows[0] in a {
        RestWithoutFirst(a, rows);
        RestWithoutFirst(b, rows);
        forall r
          ensures r in a[1..] <==> r in b[1..]
        {
          assert r in a <==> r == a[0] || r in a[1..];
          assert r in b <==> r == b[0] || r in b[1..];
        }
        SameRows(a[1..], b[1..], rows[1..]);
        assert a == [a[0]] + a[1..] && b == [b[0]] + b[1..];
      } else {
        SameRows(a, b, rows[1..]);
      }
    }
  }

  lemma NothingInNothing(a: seq<Row>, rows: seq<Row>)
    requires rows == [] && Subsequence(a, rows)
    ensures a == []
  {
  }

  lemma RestDistinct(rows: seq<Row>)
    requires rows != [] && DistinctRows(rows)
    ensures DistinctRows(rows[1..]) && rows[0] !in rows[1..]
  {
    forall i, j | 0 <= i < j < |rows| - 1
      ensures rows[1..][i].id != rows[1..][j].id
    {
      assert rows[1..][i] == rows[i + 1] && rows[1..][j] == rows[j + 1];
    }
  }

  /** A subsequence opens with the first row or does not hold it. */
  lemma FirstOrLater(a: seq<Row>, rows: seq<Row>)
    requires rows != [] && rows[0] !in rows[1..] && Subsequence(a, rows)
    ensures if rows[0] in a then a[0] == rows[0] && Subsequence(a[1..], rows[1..]) else Subsequence(a, rows[1..])
  {
    if a != [] {
      if Subsequence(a, rows[1..]) {
        SubsequenceMembers(a, rows[1..]);
      } else {
        assert a[0] == rows[0];
      }
    }
  }

  lemma RestWithoutFirst(a: seq<Row>, rows: seq<Row>)
    requires rows != [] && rows[0] !in rows[1..] && a != [] && a[0] == rows[0] && Subsequence(a[1..], rows[1..])
    ensures rows[0] !in a[1..]
  {
    SubsequenceMembers(a[1..], rows[1..]);
  }

  /** The rows of a selection whose claim was granted, in order. */
  lemma {:induction false} GrantedAre(selected: seq<Row>, owned: set<string>)
    ensures forall r :: r in Granted(selected, owned) <==> r in selected && r.id in owned
    ensures (forall r | r in selected :: r.id in owned) ==> Granted(selected, owned) == selected
  {
    if selected != [] {
      GrantedAre(selected[1..], owned);
      var rest := Granted(selected[1..], owned);
      assert forall x :: x in selected <==> x == selected[0] || x in selected[1..];
      assert [] + rest == rest;
      if selected[0].id in owned {
        assert forall x :: x in [selected[0]] + rest <==> x == selected[0] || x in rest;
      }
    }
  }

  /** Exactly the selected rows whose claim was granted, in order. */
  ghost predicate IsGranted(shown: seq<Row>, selected: seq<Row>, owned: set<string>) {
    Subsequence(shown, selected) && forall r :: r in shown <==> r in selected && r.id in owned
  }

  /** What a refusal shows is the granted part of the longest newest part that fits 1200 characters; it
      leaves the other newer rows, and moves the anchor to the newest row shown unless that is older. */
  ghost predicate Refuses(t: Target, newer: seq<Row>, k: nat, owned: set<string>, n: Target, outcome: Outcome)
    requires k <= |newer|
  {
    && outcome.Refused? && outcome.shown != [] && IsGranted(outcome.shown, Last(newer, k), owned)
    && outcome.left == |newer| - |outcome.shown|
    && n.claimedIds == t.claimedIds + Ids(outcome.shown) && n.refused
    && var newest := outcome.shown[|outcome.shown| - 1];
    && (newest.at >= t.anchorAt ==> n.anchorId == newest.id && n.anchorAt == newest.at)
    && (newest.at < t.anchorAt ==> n.anchorId == t.anchorId && n.anchorAt == t.anchorAt)
  }

  lemma ChecksNewer(t: Target, rows: seq<Row>, newer: seq<Row>, k: nat)
    requires DistinctRows(rows) && IsNewer(newer, rows, t) && IsSelection(newer, k)
    ensures newer == Newer(rows, t) && k == SelectionSize(newer) && k <= |newer| && (newer == [] <==> k == 0)
  {
    hide Newer, Subsequence, SelectionSize, DistinctRows, Fresh;
    NewerIsNewer(rows, t);
    SameRows(newer, Newer(rows, t), rows);
    SelectionIsUnique(newer, k, SelectionSize(newer));
  }

  lemma SelectionInRange(newer: seq<Row>)
    ensures SelectionSize(newer) <= |newer|
  {
    hide SelectionFrom;
  }

  lemma GrantedIsGranted(selected: seq<Row>, owned: set<string>)
    ensures IsGranted(Granted(selected, owned), selected, owned)
  {
    hide Granted, Subsequence;
    GrantedIsPart(selected, owned);
    GrantedAre(selected, owned);
  }

  lemma GrantedIff(selected: seq<Row>, owned: set<string>)
    ensures Granted(selected, owned) != [] <==> exists r :: r in selected && r.id in owned
  {
    hide Granted;
    GrantedAre(selected, owned);
    var shown := Granted(selected, owned);
    if shown != [] {
      assert shown[0] in shown;
    }
  }

  lemma RefuseShows(t: Target, newer: seq<Row>, k: nat, owned: set<string>)
    requires k == SelectionSize(newer)
    ensures k <= |newer|
    ensures var (n, outcome) := Refuse(t, newer, owned);
            if exists r :: r in Last(newer, k) && r.id in owned then Refuses(t, newer, k, owned, n, outcome)
            else outcome == Allowed && n == t
  {
    hide Granted, SelectionSize, IsSelection, IsGranted;
    SelectionInRange(newer);
    GrantedIff(Last(newer, k), owned);
    GrantedIsGranted(Last(newer, k), owned);
  }

  /** A live target without a standing refusal is refused exactly when a claim was granted among the
      newest rows that fit; otherwise the send goes through and nothing changes. */
  lemma GuardRefusesIff(t: Target, rows: seq<Row>, owned: set<string>, newer: seq<Row>, k: nat)
    requires t.hasIntake && !t.armed && t.turnIds != [] && !t.refused
    requires DistinctRows(rows) && IsNewer(newer, rows, t) && IsSelection(newer, k)
    ensures var (n, outcome) := Guard(t, rows, owned);
            if exists r :: r in Last(newer, k) && r.id in owned then Refuses(t, newer, k, owned, n, outcome)
            else outcome == Allowed && n == t
  {
    hide Newer, Refuse, SelectionSize, IsSelection, IsNewer, Refuses, DistinctRows;
    ChecksNewer(t, rows, newer, k);
    if newer != [] {
      RefuseShows(t, newer, k, owned);
    }
  }

  /** With every claim granted the newest rows are all shown, the very newest last. */
  lemma AllGrantedShowsNewest(t: Target, rows: seq<Row>, owned: set<string>, newer: seq<Row>, k: nat)
    requires t.hasIntake && !t.armed && t.turnIds != [] && !t.refused
    requires DistinctRows(rows) && IsNewer(newer, rows, t) && IsSelection(newer, k)
    requires newer != [] && forall r | r in newer :: r.id in owned
    ensures var outcome := Guard(t, rows, owned).1;
            && outcome.Refused? && outcome.shown == Last(newer, k) && outcome.left == |newer| - k
            && outcome.shown[|outcome.shown| - 1] == newer[|newer| - 1]
  {
    hide Newer, Granted, SelectionSize, IsSelection, IsNewer, DistinctRows, Ids;
    ChecksNewer(t, rows, newer, k);
    GrantedAre(Last(newer, k), owned);
  }

  /** Operator runs, armed runs and turns without intake ids are never refused, and behind a refusal
      every further send of the round is. */
  lemma GuardPasses(t: Target, rows: seq<Row>, owned: set<string>)
    ensures !t.hasIntake || t.armed || t.turnIds == [] ==> Guard(t, rows, owned) == (t, Allowed)
    ensures t.hasIntake && !t.armed && t.turnIds != [] && t.refused ==> Guard(t, rows, owned) == (t, StillRefused)
  {
    hide Newer;
  }

  // ----- a whole run -----

  /** Model rounds and delivery attempts, each with the rows and the grants the store gives then. */
  datatype Step = NewRound | Attempt(rows: seq<Row>, owned: set<string>)

  function Apply(t: Target, step: Step): Target {
    match step
    case NewRound => t.(refused := false)
    case Attempt(rows, owned) => Guard(t, rows, owned).0
  }

  function After(t: Target, steps: seq<Step>): Target {
    if steps == [] then t else Apply(After(t, steps[..|steps| - 1]), steps[|steps| - 1])
  }

  /** Over any run, with any number of refusals, the claimed ids stay distinct and apart from the turn's
      own, and earlier claims are never given up. */
  lemma {:induction false} ClaimsStayApart(t: Target, steps: seq<Step>)
    requires ClaimsInv(t) && forall s | s in steps :: s.Attempt? ==> DistinctRows(s.rows)
    ensures ClaimsInv(After(t, steps)) && After(t, steps).turnIds == t.turnIds
    ensures t.claimedIds <= After(t, steps).claimedIds
  {
    if steps != [] {
      var init, last := steps[..|steps| - 1], steps[|steps| - 1];
      ClaimsStayApart(t, init);
      if last.Attempt? {
        GuardKeepsClaims(After(t, init), last.rows, last.owned);
      }
    }
  }

  // ----- the run's object -----

  class RunTarget {
    const hasIntake: bool
    const armed: bool
    const turnIds: seq<string>
    const startedAt: real
    var claimedIds: seq<string>
    var refused: bool
    var anchorId: string
    var anchorAt: real

    constructor (hasIntake: bool, armed: bool, turnIds: seq<string>, startedAt: real)
      ensures View() == Target(hasIntake, armed, turnIds, startedAt, [], false, "", 0.0)
      ensures ClaimsInv(View())
    {
      this.hasIntake, this.armed, this.turnIds, this.startedAt := hasIntake, armed, turnIds, startedAt;
      claimedIds, refused, anchorId, anchorAt := [], false, "", 0.0;
    }

    function View(): Target
      reads this
    {
      Target(hasIntake, armed, turnIds, startedAt, claimedIds, refused, anchorId, anchorAt)
    }

    /** A new model round has read the refusal. */
    method ClearRefusal()
      modifies this`refused
      ensures View() == Apply(old(View()), NewRound)
    {
      refused := false;
    }

    method RefuseNewer(newer: seq<Row>, owned: set<string>) returns (outcome: Outcome)
      modifies this`claimedIds, this`refused, this`anchorId, this`anchorAt
      ensures (View(), outcome) == Refuse(old(View()), newer, owned)
    {
      var selected := GuardSelection(newer);
      var shown := Granted(selected, owned);
      if shown == [] {
        return Allowed;
      }
      claimedIds := claimedIds + Ids(shown);
      refused := true;
      var newest := shown[|shown| - 1];
      if newest.at >= anchorAt {
        anchorId := newest.id;
        anchorAt := newest.at;
      }
      outcome := Refused(shown, |newer| - |shown|);
    }

    method CheckDelivery(rows: seq<Row>, owned: set<string>) returns (outcome: Outcome)
      modifies this`claimedIds, this`refused, this`anchorId, this`anchorAt
      ensures (View(), outcome) == Guard(old(View()), rows, owned)
    {
      if !hasIntake || armed || turnIds == [] {
        return Allowed;
      }
      if refused {
        return StillRefused;
      }
      var newer := Newer(rows, View());
      if newer == [] {
        return Allowed;
      }
      outcome := RefuseNewer(newer, owned);
    }
  }
}
