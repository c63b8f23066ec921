/** The history part of one prompt: repair, squeeze, trim
    (src/wahabot/ai/workflow/memory_mixin.py). */
module ChatHistory {
  import opened Messages
  import opened Optional
  import Budget
  import Degrade

  /** cap_records_turn: when a user turn comes last, its text is capped (RecordCap.CapTurn). */
  function CapLast(ms: seq<Message>, cap: Message -> string): seq<Message> {
    if ms == [] then ms
    else
      var last := ms[|ms| - 1];
      if last.role != User || cap(last) == Content(last) then ms
      else ms[..|ms| - 1] + [Message(last.role, [TextBlock(cap(last))], last.extra)]
  }

  /** The history of a prompt with this much of the budget left for it. */
  function Prepared(stored: seq<Message>, budget: int, c: Budget.Counter, codec: Degrade.Codec, cap: Message -> string)
    : Result<seq<Message>, Budget.BudgetError>
  {
    Budget.TrimToBudget(CapLast(Degrade.DegradeOldHistory(Sanitize(stored, false), codec), cap), budget, c)
  }

  lemma CapLastKeepsBalance(ms: seq<Message>, cap: Message -> string)
    requires Balanced(ms)
    ensures var r := CapLast(ms, cap);
            Balanced(r) && |r| == |ms| && forall i | 0 <= i < |ms| :: r[i].role == ms[i].role
  {
    var r := CapLast(ms, cap);
    if r != ms {
      var init, last := ms[..|ms| - 1], ms[|ms| - 1];
      var capped := r[|ms| - 1];
      assert ms == init + [last] && r == init + [capped];
      OwedSnoc(init, last);
      OwedSnoc(init, capped);
      assert CallBlocks(capped.blocks) == [] by {
        assert capped.blocks[1..] == [];
      }
    }
  }

  /** Only the text of a user message at the end is replaced, by its capped form; its tags stay. */
  lemma CapLastCaps(ms: seq<Message>, cap: Message -> string)
    requires ms != []
    ensures var r, last := CapLast(ms, cap), ms[|ms| - 1];
            && |r| == |ms| && r[..|ms| - 1] == ms[..|ms| - 1]
            && (last.role != User ==> r == ms)
            && (last.role == User ==> Content(r[|ms| - 1]) == cap(last) && r[|ms| - 1].role == User && r[|ms| - 1].extra == last.extra)
  {
    var last := ms[|ms| - 1];
    assert BlockTexts([TextBlock(cap(last))]) == [cap(last)] by {
      assert [TextBlock(cap(last))][1..] == [];
    }
  }

  /** For every stored history: it fails exactly when the current query with the newest group is over the
      budget; otherwise what reaches the chat API opens with a user message and fits, and has balanced tool
      groups when the repair left such (Settling.SanitizeSplitsIff says when). */
  lemma PreparedIsValid(stored: seq<Message>, budget: int, c: Budget.Counter, codec: Degrade.Codec, cap: Message -> string)
    ensures var r := Prepared(stored, budget, c, codec, cap);
            var repaired := Sanitize(stored, false);
            && (r.Failure? <==>
                  Budget.Total(Budget.MinimumTurn(Budget.Groups(CapLast(Degrade.DegradeOldHistory(repaired, codec), cap))), c) > budget)
            && (r.Success? ==>
                  && (r.value != [] ==> r.value[0].role == User)
                  && Budget.Total(r.value, c) <= budget
                  && (r.value == [] <==> repaired == [])
                  && (Balanced(repaired) ==> Balanced(r.value)))
  {
    hide Sanitize, Balanced, Budget.Groups, Budget.MinimumTurn, Budget.Total, Budget.TrimToBudget;
    var repaired := Sanitize(stored, false);
    SanitizeStartsWithUser(stored, false);
    var squeezed := Degrade.DegradeOldHistory(repaired, codec);
    Degrade.DegradeAt(repaired, codec);
    var capped := CapLast(squeezed, cap);
    Budget.TrimPromise(capped, budget, c);
    if Prepared(stored, budget, c, codec, cap).Success? && Balanced(repaired) {
      SqueezedBalance(repaired, codec);
      CapLastKeepsBalance(squeezed, cap);
      Budget.TrimKeepsBalance(capped, budget, c);
    }
    if repaired == [] {
      NoGroups();
    } else {
      CapLastOpens(squeezed, cap);
      UserOpensGroups(capped);
    }
  }

  lemma SqueezedBalance(ms: seq<Message>, codec: Degrade.Codec)
    requires Balanced(ms)
    ensures Balanced(Degrade.DegradeOldHistory(ms, codec))
  {
    var squeezed := Degrade.DegradeOldHistory(ms, codec);
    Degrade.DegradeAt(ms, codec);
    Degrade.DegradeKeepsOwed(ms, codec, |ms|);
    assert ms[..|ms|] == ms && squeezed[..|squeezed|] == squeezed;
  }

  /** The cap changes no role. */
  lemma CapLastOpens(ms: seq<Message>, cap: Message -> string)
    requires ms != []
    ensures CapLast(ms, cap) != [] && CapLast(ms, cap)[0].role == ms[0].role
  {
  }

  lemma NoGroups()
    ensures Budget.LastUser(Budget.Groups([])) < 0
  {
  }

  lemma UserOpensGroups(ms: seq<Message>)
    requires ms != [] && ms[0].role == User
    ensures var gs := Budget.Groups(ms); Budget.LastUser(gs) >= 0
  {
    var gs := Budget.Groups(ms);
    assert ms == gs[0] + Budget.Sequences.Flatten(gs[1..]);
    assert gs[0][0] == ms[0];
  }
}
