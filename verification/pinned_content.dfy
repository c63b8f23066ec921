/** What a rendered pinned block shows (src/wahabot/ai/pinned_state.py): all it was asked to, save what
    the budget takes away. */
module PinnedContent {
  import opened Optional
  import opened Text
  import opened Sequences
  import opened PinnedState

  // ----- notes that fit are kept -----

  /** Seen from any note: those kept before it, then the note exactly when it fits behind them, then those
      kept after it. */
  lemma {:induction false} EveryNoteIsTried(notes: seq<Note>, i: nat, budget: int, count: TextCounter, prefix: string)
    returns (before: seq<Note>, after: seq<Note>)
    requires i < |notes|
    ensures Subsequence(before, notes[..i]) && Subsequence(after, notes[i + 1..])
    ensures FitNotes(notes, budget, count, prefix)
            == before + (if count(prefix + NotesText(before + [notes[i]])) <= budget then [notes[i]] else []) + after
    decreases |notes|
  {
    hide NotesText;
    var init, last := notes[..|notes| - 1], notes[|notes| - 1];
    if i == |notes| - 1 {
      before, after := FitNotes(init, budget, count, prefix), [];
      FitNotesFits(init, budget, count, prefix);
      assert notes[..i] == init && notes[i + 1..] == [];
      assert before + [notes[i]] + [] == before + [notes[i]] && before + [] + [] == before;
    } else {
      before, after := EveryNoteIsTried(init, i, budget, count, prefix);
      assert init[..i] == notes[..i] && init[i] == notes[i] && notes[i + 1..] == init[i + 1..] + [last];
      var kept := FitNotes(init, budget, count, prefix);
      if count(prefix + NotesText(kept + [last])) <= budget {
        SubsequenceRefl([last]);
        SubsequenceConcat(after, init[i + 1..], [last], [last]);
        after := after + [last];
      } else {
        SubsequenceConcat(after, init[i + 1..], [], [last]);
        assert after + [] == after;
      }
    }
  }

  lemma NotesTextGrows(notes: seq<Note>, n: Note)
    requires notes != []
    ensures NotesText(notes + [n]) == NotesText(notes) + ("\n" + NoteLine(n))
  {
    hide NoteLine;
    assert NoteLines(notes + [n]) == NoteLines(notes) + [NoteLine(n)];
    JoinAppend(NoteLines(notes), [NoteLine(n)], "\n");
  }

  /** For a monotone tokenizer notes that fit together are all kept. */
  lemma {:induction false} FittingNotesStay(notes: seq<Note>, budget: int, count: TextCounter, prefix: string)
    requires Monotone(count) && (notes != [] ==> count(prefix + NotesText(notes)) <= budget)
    ensures FitNotes(notes, budget, count, prefix) == notes
  {
    hide Monotone, NotesText;
    if notes != [] {
      var init, last := notes[..|notes| - 1], notes[|notes| - 1];
      assert notes == init + [last];
      if init != [] {
        NotesTextGrows(init, last);
        ExtendedCountsMore(count, prefix + NotesText(init), "\n" + NoteLine(last));
        assert prefix + (NotesText(init) + ("\n" + NoteLine(last))) == prefix + NotesText(init) + ("\n" + NoteLine(last));
      }
      FittingNotesStay(init, budget, count, prefix);
    }
  }

  // ----- what is dropped, and only when it must -----

  function Capped(r: Request, count: TextCounter): seq<Note> {
    if r.tokenBudget > 0 then FitNotes(FirstPerKey(r.required + r.notes), r.tokenBudget, count, NOTES_HEADING) else []
  }

  function WithSections(sections: seq<string>, notes: seq<Note>, lead: string, w: Wording): string {
    Joined(sections, w) + (if notes == [] then "" else "\n\n" + NotesText(notes)) + (if lead == "" then "" else "\n\n" + lead)
  }

  ghost predicate Over(r: Request, count: TextCounter, text: string) {
    r.promptBudget.Some? && count(r.prefix + text) > r.promptBudget.value
  }

  /** A rendered block is the sections, the notes that fit behind them, and the leads. The recap is missing
      only when the block with it is over the budget, the leads only when the block with them is. */
  lemma RenderedIs(r: Request, count: TextCounter, w: Wording) returns (sections: seq<string>, notes: seq<Note>, lead: string)
    requires Render(r, count, w).Success? && Render(r, count, w).value != ""
    ensures Render(r, count, w).value == WithSections(sections, notes, lead, w)
    ensures sections == Authoritative(r, r.recap)
            || (sections == Authoritative(r, "") && Over(r, count, Joined(Authoritative(r, r.recap), w)))
    ensures notes == if r.promptBudget.None? then Capped(r, count)
                     else FitNotes(Capped(r, count), r.promptBudget.value, count, r.prefix + Joined(sections, w) + "\n\n")
    ensures lead == RecallSection(r.recall, w)
            || (lead == "" && (Over(r, count, WithSections(Authoritative(r, r.recap), [], RecallSection(r.recall, w), w))
                               || Over(r, count, WithSections(sections, notes, RecallSection(r.recall, w), w))))
  {
    hide Authoritative, Joined, FitNotes, FirstPerKey, RecallSection, RecapSection, NotesText;
    var (kept, recall) := FitDroppable(r, count, w);
    sections := kept;
    notes := SelectNotes(r, FirstPerKey(r.required + r.notes), Joined(sections, w), count);
    var body := Assemble(Joined(sections, w), notes, recall);
    lead := if r.promptBudget.None? || count(r.prefix + body) <= r.promptBudget.value then recall else "";
    var full, leads := Joined(Authoritative(r, r.recap), w), RecallSection(r.recall, w);
    assert WithSections(Authoritative(r, r.recap), [], leads, w) == full + Tail(leads);
  }

  /** Nothing is rendered only when there is neither a note nor an authoritative section. */
  lemma EmptyMeansNothing(r: Request, count: TextCounter, w: Wording)
    requires Render(r, count, w) == Success("")
    ensures r.required + r.notes == [] && Authoritative(r, "") == []
  {
    hide Authoritative, FitNotes, FirstPerKey, RecallSection, RecapSection, NotesText;
    SomeNote(r.required + r.notes);
    SectionsKept(r);
    HeadingStands(r, count, w);
  }

  lemma SomeNote(notes: seq<Note>)
    ensures FirstPerKey(notes) == [] ==> notes == []
  {
    hide FirstPerKey;
    MergedNotes(notes);
    if notes != [] {
      assert notes[0].key in KeysOf(notes);
    }
  }

  lemma HeadingStands(r: Request, count: TextCounter, w: Wording)
    ensures forall sections, notes, recall :: Assemble(Joined(sections, w), notes, recall) != ""
  {
    forall sections, notes, recall
      ensures Assemble(Joined(sections, w), notes, recall) != ""
    {
      assert |Joined(sections, w)| >= |PINNED_STATE_HEADING| > 0;
    }
  }

  // ----- the sections -----

  /** The part stands somewhere in the text. */
  ghost predicate Shows(text: string, part: string) {
    exists before, after :: text == before + part + after
  }

  lemma {:induction false} JoinShows(parts: seq<string>, i: nat, sep: string)
    requires i < |parts|
    ensures Shows(Join(parts, sep), parts[i])
  {
    hide Join;
    var before, after := parts[..i], parts[i + 1..];
    assert parts == before + [parts[i]] + after;
    JoinOfOne(parts[i], sep);
    var front := if before == [] then "" else Join(before, sep) + sep;
    var back := if after == [] then "" else sep + Join(after, sep);
    if before == [] {
      assert before + [parts[i]] == [parts[i]];
    } else {
      JoinAppend(before, [parts[i]], sep);
    }
    if after == [] {
      assert before + [parts[i]] + after == before + [parts[i]];
    } else {
      JoinAppend(before + [parts[i]], after, sep);
    }
    assert Join(parts, sep) == front + parts[i] + back;
  }

  /** The sections that no budget takes away, in full. */
  predicate Undroppable(r: Request, section: string) {
    || (r.policies != [] && section == "## Operator policies\n\n" + Join(NoteLines(r.policies), "\n"))
    || (r.chatRules != [] && section == "## Chat rules\n\n" + Join(NoteLines(r.chatRules), "\n"))
    || (Strip(r.ticket) != "" && section == "## Ticket\n\n" + Strip(r.ticket))
    || (Strip(r.rules) != "" && section == "## Session rules\n\n" + Strip(r.rules))
  }

  lemma SectionIsListed(r: Request, recap: string, section: string)
    requires Undroppable(r, section)
    ensures section in Authoritative(r, recap)
  {
    hide Join, NoteLines, Strip, RecapSection;
  }

  lemma ShowsLonger(text: string, part: string, before: string, after: string)
    requires Shows(text, part)
    ensures Shows(before + text + after, part)
  {
    var a, b :| text == a + part + b;
    assert before + (a + part + b) + after == (before + a) + part + (b + after);
  }

  /** Policies, chat rules, the ticket and the session rules are in every rendered block, whole. */
  lemma UndroppableIsShown(r: Request, count: TextCounter, w: Wording, section: string)
    requires Render(r, count, w).Success? && Undroppable(r, section)
    ensures Shows(Render(r, count, w).value, section)
  {
    hide Authoritative, FitNotes, FirstPerKey, RecallSection, NotesText, Undroppable, Shows, Render;
    SectionIsListed(r, "", section);
    SectionIsListed(r, r.recap, section);
    if Render(r, count, w).value == "" {
      EmptyMeansNothing(r, count, w);
    }
    var sections, notes, lead := RenderedIs(r, count, w);
    var parts := [PINNED_STATE_HEADING, w.preamble] + sections;
    var i :| 0 <= i < |sections| && sections[i] == section;
    assert parts[i + 2] == section;
    JoinShows(parts, i + 2, "\n\n");
    var rest := (if notes == [] then "" else "\n\n" + NotesText(notes)) + (if lead == "" then "" else "\n\n" + lead);
    ShowsLonger(Joined(sections, w), section, "", rest);
    assert "" + Joined(sections, w) + rest == WithSections(sections, notes, lead, w);
  }

  // ----- recap and recall as bullets -----

  /** Every line that is not blank is a bullet, and nothing else is. */
  lemma {:induction false} BulletsAreLines(items: seq<string>)
    ensures forall b :: b in Bullets(items) <==> exists i :: 0 <= i < |items| && Strip(items[i]) != "" && b == "- " + OneLine(items[i])
  {
    hide Strip, OneLine;
    if items != [] {
      var init, last := items[..|items| - 1], items[|items| - 1];
      BulletsAreLines(init);
      assert forall i | 0 <= i < |init| :: items[i] == init[i];
      forall b
        ensures b in Bullets(items) <==> exists i :: 0 <= i < |items| && Strip(items[i]) != "" && b == "- " + OneLine(items[i])
      {
        if i :| 0 <= i < |items| && Strip(items[i]) != "" && b == "- " + OneLine(items[i]) {
          assert i < |init| ==> Strip(init[i]) != "" && b == "- " + OneLine(init[i]);
        }
        if i :| 0 <= i < |init| && Strip(init[i]) != "" && b == "- " + OneLine(init[i]) {
          assert Strip(items[i]) != "" && b == "- " + OneLine(items[i]);
        }
      }
    }
  }

  /** A recap with any line that is not blank has its section, with a bullet for each such line; so have the
      leads. */
  lemma RecapIsBulleted(recap: string, recall: seq<string>, w: Wording)
    ensures RecapSection(recap) != "" <==> exists l :: l in Lines(recap) && Strip(l) != ""
    ensures RecapSection(recap) != "" ==> RecapSection(recap) == "## Conversation recap\n\n" + Join(Bullets(Lines(recap)), "\n")
    ensures RecallSection(recall, w) != "" <==> exists l :: l in recall && Strip(l) != ""
    ensures RecallSection(recall, w) != "" ==>
              RecallSection(recall, w) == "## Recalled from earlier in this thread\n\n" + w.recallPreamble + Join(Bullets(recall), "\n")
  {
    hide Bullets, Lines, Strip, OneLine, Join;
    BulletsIff(Lines(recap));
    BulletsIff(recall);
  }

  lemma BulletsIff(items: seq<string>)
    ensures Bullets(items) != [] <==> exists l :: l in items && Strip(l) != ""
  {
    hide Bullets, Strip, OneLine;
    BulletsAreLines(items);
    if Bullets(items) != [] {
      assert Bullets(items)[0] in Bullets(items);
    }
    if l :| l in items && Strip(l) != "" {
      var i :| 0 <= i < |items| && items[i] == l;
      assert "- " + OneLine(items[i]) in Bullets(items);
    }
  }
}
