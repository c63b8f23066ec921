/** The pinned state block (src/wahabot/ai/pinned_state.py). */
module PinnedState {
  // What every prompt must carry, within a token budget. The tokenizer is any function from a text to
  // a count.

  import opened Optional
  import opened Text
  import opened Sequences

  const PINNED_STATE_HEADING := "# Pinned State"
  const POLICIES_HEADING := "## Operator policies\n\n"
  const CHAT_RULES_HEADING := "## Chat rules\n\n"
  const RECAP_HEADING := "## Conversation recap\n\n"
  const NOTES_HEADING := "## Notebook facts\n\n"
  const RULES_HEADING := "## Session rules\n\n"
  const TICKET_HEADING := "## Ticket\n\n"
  const RECALL_HEADING := "## Recalled from earlier in this thread\n\n"

  /** The two fixed introductions; nothing depends on their text. */
  datatype Wording = Wording(preamble: string, recallPreamble: string)

  datatype Note = Note(key: string, text: string)

  /** What one render is asked for; without a prompt budget nothing is dropped for room. */
  datatype Request = Request(
    policies: seq<Note>,
    chatRules: seq<Note>,
    notes: seq<Note>,
    required: seq<Note>,
    rules: string,
    recap: string,
    recall: seq<string>,
    ticket: string,
    tokenBudget: int,
    prefix: string,
    promptBudget: Option<int>)

  datatype BudgetError = PinnedStateExceedsBudget

  // ----- notes as lines -----

  function NoteLine(n: Note): string {
    "- " + OneLine(n.key) + ": " + OneLine(n.text)
  }

  function NoteLines(notes: seq<Note>): (ls: seq<string>)
    ensures |ls| == |notes| && forall i | 0 <= i < |notes| :: ls[i] == NoteLine(notes[i])
  {
    seq(|notes|, i requires 0 <= i < |notes| => NoteLine(notes[i]))
  }

  function NotesText(notes: seq<Note>): string {
    NOTES_HEADING + Join(NoteLines(notes), "\n")
  }

  /** Whatever a note's key and text are, its line is one line and opens as a bullet. */
  lemma NoteLineIsOneBullet(n: Note)
    ensures "- " <= NoteLine(n) && BreakFree(NoteLine(n))
  {
    OneLineFacts(n.key);
    OneLineFacts(n.text);
  }

  predicate Bulleted(lines: seq<string>) {
    forall i | 0 <= i < |lines| :: "- " <= lines[i] && BreakFree(lines[i])
  }

  lemma NoteLinesBulleted(notes: seq<Note>)
    ensures Bulleted(NoteLines(notes))
  {
    hide NoteLine, BreakFree;
    forall i | 0 <= i < |notes|
      ensures "- " <= NoteLines(notes)[i] && BreakFree(NoteLines(notes)[i])
    {
      NoteLineIsOneBullet(notes[i]);
    }
  }

  const NOTES_TITLE := "## Notebook facts"

  lemma HeadingLines(bullets: seq<string>)
    requires bullets != []
    ensures Join([NOTES_TITLE, ""] + bullets, "\n") == NOTES_HEADING + Join(bullets, "\n")
  {
    JoinAppend([NOTES_TITLE, ""], bullets, "\n");
    assert [NOTES_TITLE, ""][1..] == [""];
  }

  lemma HeadedBreakFree(bullets: seq<string>)
    requires Bulleted(bullets)
    ensures forall l | l in [NOTES_TITLE, ""] + bullets :: BreakFree(l)
  {
    assert BreakFree(NOTES_TITLE) && BreakFree("");
  }

  /** A stored note cannot forge structure: the section's lines are its heading, an empty line and one
      bullet for each note, in order. */
  lemma NotesCannotForge(notes: seq<Note>)
    requires notes != []
    ensures Lines(NotesText(notes)) == [NOTES_TITLE, ""] + NoteLines(notes)
    ensures Bulleted(NoteLines(notes))
  {
    hide Lines, Join, NoteLine, BreakFree;
    var bullets := NoteLines(notes);
    NoteLinesBulleted(notes);
    HeadingLines(bullets);
    HeadedBreakFree(bullets);
    var all := [NOTES_TITLE, ""] + bullets;
    assert "- " <= bullets[|bullets| - 1];
    assert all[|all| - 1] == bullets[|bullets| - 1];
    LinesOfJoin(all);
  }

  // ----- merging and selecting notes -----

  predicate HasKey(notes: seq<Note>, key: string) {
    exists i :: 0 <= i < |notes| && notes[i].key == key
  }

  /** The first note of every key, in order. */
  function FirstPerKey(notes: seq<Note>): seq<Note> {
    if notes == [] then []
    else
      var merged, last := FirstPerKey(notes[..|notes| - 1]), notes[|notes| - 1];
      if HasKey(notes[..|notes| - 1], last.key) then merged else merged + [last]
  }

  function KeysOf(notes: seq<Note>): set<string> {
    set i | 0 <= i < |notes| :: notes[i].key
  }

  lemma KeysSnoc(notes: seq<Note>, n: Note)
    ensures KeysOf(notes + [n]) == KeysOf(notes) + {n.key}
  {
    var all := notes + [n];
    assert all[|notes|] == n;
    assert forall i | 0 <= i < |notes| :: all[i] == notes[i];
  }

  /** Required notes first, then the others, one per key. */
  method MergeNotes(required: seq<Note>, notes: seq<Note>) returns (merged: seq<Note>)
    ensures merged == FirstPerKey(required + notes)
  {
    var all := required + notes;
    var seen: set<string> := {};
    merged := [];
    for i := 0 to |all|
      invariant seen == KeysOf(all[..i]) && merged == FirstPerKey(all[..i])
    {
      assert all[..i + 1][..i] == all[..i] && all[..i + 1] == all[..i] + [all[i]];
      KeysSnoc(all[..i], all[i]);
      assert all[i].key in seen <==> HasKey(all[..i], all[i].key);
      if all[i].key !in seen {
        seen := seen + {all[i].key};
        merged := merged + [all[i]];
      }
    }
    assert all[..|all|] == all;
  }

  predicate DistinctKeys(notes: seq<Note>) {
    forall i, j | 0 <= i < j < |notes| :: notes[i].key != notes[j].key
  }

  /** The merged notes are some of the notes in order, one for every key, with no key twice. */
  lemma {:induction false} MergedNotes(notes: seq<Note>)
    ensures var m := FirstPerKey(notes);
            Subsequence(m, notes) && DistinctKeys(m) && KeysOf(m) == KeysOf(notes)
  {
    if notes != [] {
      var init, last := notes[..|notes| - 1], notes[|notes| - 1];
      MergedNotes(init);
      assert notes == init + [last];
      KeysSnoc(init, last);
      var m := FirstPerKey(init);
      assert HasKey(init, last.key) <==> last.key in KeysOf(init);
      if HasKey(init, last.key) {
        SubsequenceConcat(m, init, [], [last]);
        assert m + [] == m;
      } else {
        KeysSnoc(m, last);
        SubsequenceRefl([last]);
        SubsequenceConcat(m, init, [last], [last]);
        assert forall i | 0 <= i < |m| :: m[i].key in KeysOf(m);
      }
    }
  }

  /** A required note is never displaced by a stored one with its key. */
  lemma {:induction false} RequiredFirst(required: seq<Note>, notes: seq<Note>, n: Note)
    requires n in FirstPerKey(required)
    ensures n in FirstPerKey(required + notes)
    decreases |notes|
  {
    if notes == [] {
      assert required + notes == required;
    } else {
      var all := required + notes;
      assert all[..|all| - 1] == required + notes[..|notes| - 1];
      RequiredFirst(required, notes[..|notes| - 1], n);
    }
  }

  /** The notes that fit, one after the other: a note that would not fit with those before it is skipped. */
  function FitNotes(notes: seq<Note>, budget: int, count: TextCounter, prefix: string): seq<Note> {
    if notes == [] then []
    else
      var kept := FitNotes(notes[..|notes| - 1], budget, count, prefix);
      var more := kept + [notes[|notes| - 1]];
      if count(prefix + NotesText(more)) <= budget then more else kept
  }

  method SelectFitting(notes: seq<Note>, budget: int, count: TextCounter, prefix: string) returns (selected: seq<Note>)
    ensures selected == FitNotes(notes, budget, count, prefix)
  {
    selected := [];
    for i := 0 to |notes|
      invariant selected == FitNotes(notes[..i], budget, count, prefix)
    {
      assert notes[..i + 1][..i] == notes[..i];
      var candidate := prefix + NotesText(selected + [notes[i]]);
      if count(candidate) <= budget {
        selected := selected + [notes[i]];
      }
    }
    assert notes[..|notes|] == notes;
  }

  lemma {:induction false} FitNotesFits(notes: seq<Note>, budget: int, count: TextCounter, prefix: string)
    ensures var kept := FitNotes(notes, budget, count, prefix);
            Subsequence(kept, notes) && (kept != [] ==> count(prefix + NotesText(kept)) <= budget)
  {
    if notes != [] {
      var init, last := notes[..|notes| - 1], notes[|notes| - 1];
      FitNotesFits(init, budget, count, prefix);
      var kept := FitNotes(init, budget, count, prefix);
      assert notes == init + [last];
      SubsequenceRefl([last]);
      SubsequenceConcat(kept, init, [last], [last]);
      SubsequenceConcat(kept, init, [], [last]);
      assert kept + [] == kept;
    }
  }

  // ----- sections -----

  function Bullets(items: seq<string>): seq<string> {
    if items == [] then []
    else
      var last := items[|items| - 1];
      Bullets(items[..|items| - 1]) + if Strip(last) == "" then [] else ["- " + OneLine(last)]
  }

  function RecapSection(recap: string): string {
    var lines := Bullets(Lines(recap));
    if lines == [] then "" else RECAP_HEADING + Join(lines, "\n")
  }

  function RecallSection(recall: seq<string>, w: Wording): string {
    var lines := Bullets(recall);
    if lines == [] then "" else RECALL_HEADING + w.recallPreamble + Join(lines, "\n")
  }

  function NoteSection(heading: string, notes: seq<Note>): seq<string> {
    if notes == [] then [] else [heading + Join(NoteLines(notes), "\n")]
  }

  function TextSection(heading: string, text: string): seq<string> {
    if Strip(text) == "" then [] else [heading + Strip(text)]
  }

  /** Operator policies, chat rules, the ticket, the recap and the session rules; empty ones omitted. */
  function Authoritative(r: Request, recap: string): seq<string> {
    NoteSection(POLICIES_HEADING, r.policies)
    + NoteSection(CHAT_RULES_HEADING, r.chatRules)
    + TextSection(TICKET_HEADING, r.ticket)
    + (if RecapSection(recap) == "" then [] else [RecapSection(recap)])
    + TextSection(RULES_HEADING, r.rules)
  }

  function Joined(sections: seq<string>, w: Wording): string {
    Join([PINNED_STATE_HEADING, w.preamble] + sections, "\n\n")
  }

  function Tail(section: string): string {
    if section == "" then "" else "\n\n" + section
  }

  /** The block from its parts; the authoritative part always has its heading. */
  function Assemble(authoritative: string, notes: seq<Note>, recall: string): string {
    authoritative + (if notes == [] then "" else "\n\n" + NotesText(notes)) + Tail(recall)
  }

  // ----- rendering -----

  predicate NothingLeft(sections: seq<string>, notes: seq<Note>, recall: string) {
    sections == [] && notes == [] && recall == ""
  }

  /** Over budget, the recall goes first and then the recap. */
  function FitDroppable(r: Request, count: TextCounter, w: Wording): (seq<string>, string) {
    var sections, recall := Authoritative(r, r.recap), RecallSection(r.recall, w);
    if r.promptBudget.None? then (sections, recall)
    else
      var budget := r.promptBudget.value;
      var kept := if count(r.prefix + (Joined(sections, w) + Tail(recall))) > budget then "" else recall;
      if count(r.prefix + Joined(sections, w)) > budget && RecapSection(r.recap) != "" then (Authoritative(r, ""), kept)
      else (sections, kept)
  }

  /** The notes within their own cap, and then within what the prompt leaves. */
  function SelectNotes(r: Request, notes: seq<Note>, authoritative: string, count: TextCounter): seq<Note> {
    var capped := if r.tokenBudget > 0 then FitNotes(notes, r.tokenBudget, count, NOTES_HEADING) else [];
    if r.promptBudget.None? then capped
    else FitNotes(capped, r.promptBudget.value, count, r.prefix + authoritative + "\n\n")
  }

  /** The recall is dropped if the notes crowded it; what still does not fit is an error. */
  function FitFinal(r: Request, authoritative: string, notes: seq<Note>, recall: string, count: TextCounter): Result<string, BudgetError> {
    var body := Assemble(authoritative, notes, recall);
    if r.promptBudget.None? || count(r.prefix + body) <= r.promptBudget.value then Success(body)
    else
      var bare := Assemble(authoritative, notes, "");
      if count(r.prefix + bare) > r.promptBudget.value then Failure(PinnedStateExceedsBudget) else Success(bare)
  }

  function Render(r: Request, count: TextCounter, w: Wording): Result<string, BudgetError> {
    var notes := FirstPerKey(r.required + r.notes);
    if NothingLeft(Authoritative(r, r.recap), notes, RecallSection(r.recall, w)) then Success("")
    else
      var (sections, recall) := FitDroppable(r, count, w);
      if NothingLeft(sections, notes, recall) then Success("")
      else
        var authoritative := Joined(sections, w);
        FitFinal(r, authoritative, SelectNotes(r, notes, authoritative, count), recall, count)
  }

  // ----- what every render promises, for any tokenizer -----

  /** The notes a render keeps. */
  function KeptNotes(r: Request, count: TextCounter, w: Wording): seq<Note> {
    SelectNotes(r, FirstPerKey(r.required + r.notes), Joined(FitDroppable(r, count, w).0, w), count)
  }

  /** A block that is rendered leaves the prompt within its budget. */
  lemma RenderFits(r: Request, count: TextCounter, w: Wording)
    requires r.promptBudget.Some? && Render(r, count, w).Success? && Render(r, count, w).value != ""
    ensures count(r.prefix + Render(r, count, w).value) <= r.promptBudget.value
  {
    hide Authoritative, Joined, FitNotes, FirstPerKey, RecallSection, RecapSection, Tail, SelectNotes;
  }

  /** The kept notes are whole notes of the request in their order, each key once. */
  lemma KeptNotesAreNotes(r: Request, count: TextCounter, w: Wording)
    ensures Subsequence(KeptNotes(r, count, w), r.required + r.notes)
    ensures r.tokenBudget <= 0 ==> KeptNotes(r, count, w) == []
  {
    var merged := FirstPerKey(r.required + r.notes);
    var prefix := r.prefix + Joined(FitDroppable(r, count, w).0, w) + "\n\n";
    var capped := if r.tokenBudget > 0 then FitNotes(merged, r.tokenBudget, count, NOTES_HEADING) else [];
    MergedNotes(r.required + r.notes);
    FitNotesFits(merged, r.tokenBudget, count, NOTES_HEADING);
    SubsequenceTrans(capped, merged, r.required + r.notes);
    if r.promptBudget.Some? {
      FitNotesFits(capped, r.promptBudget.value, count, prefix);
      SubsequenceTrans(FitNotes(capped, r.promptBudget.value, count, prefix), capped, r.required + r.notes);
    }
  }

  lemma BodyWithNotes(prefix: string, authoritative: string, notes: seq<Note>)
    requires notes != []
    ensures prefix + Assemble(authoritative, notes, "") == prefix + authoritative + "\n\n" + NotesText(notes)
  {
  }

  /** Notes never cause the error: with notes selected the bare block fits. */
  lemma SelectedNotesFit(r: Request, notes: seq<Note>, authoritative: string, count: TextCounter)
    requires r.promptBudget.Some? && SelectNotes(r, notes, authoritative, count) != []
    ensures count(r.prefix + Assemble(authoritative, SelectNotes(r, notes, authoritative, count), "")) <= r.promptBudget.value
  {
    var capped := if r.tokenBudget > 0 then FitNotes(notes, r.tokenBudget, count, NOTES_HEADING) else [];
    FitNotesFits(capped, r.promptBudget.value, count, r.prefix + authoritative + "\n\n");
    BodyWithNotes(r.prefix, authoritative, SelectNotes(r, notes, authoritative, count));
  }

  lemma WithoutRecap(r: Request)
    requires RecapSection(r.recap) == ""
    ensures Authoritative(r, r.recap) == Authoritative(r, "")
  {
    assert Lines("") == [];
  }

  /** The error means that the prefix with the sections that may not be dropped is over budget: notes,
      recap and recall never cause it. */
  lemma ErrorIsAuthoritative(r: Request, count: TextCounter, w: Wording)
    requires Render(r, count, w).Failure?
    ensures r.promptBudget.Some? && count(r.prefix + Joined(Authoritative(r, ""), w)) > r.promptBudget.value
  {
    hide Authoritative, Joined, FitNotes, FirstPerKey, RecallSection, RecapSection;
    var (sections, recall) := FitDroppable(r, count, w);
    var authoritative := Joined(sections, w);
    var notes := FirstPerKey(r.required + r.notes);
    var selected := SelectNotes(r, notes, authoritative, count);
    if selected != [] {
      SelectedNotesFit(r, notes, authoritative, count);
    }
    assert Assemble(authoritative, [], "") == authoritative;
    if RecapSection(r.recap) == "" {
      WithoutRecap(r);
    }
  }

  // ----- when exactly it fails, for a tokenizer that counts no less when text is added -----

  ghost predicate Monotone(count: TextCounter) {
    forall s, t :: Subsequence(s, t) ==> count(s) <= count(t)
  }

  lemma {:induction false} InsertKeepsOrder(a: string, b: string, c: string)
    ensures Subsequence(a + c, a + b + c)
  {
    SubsequenceRefl(a);
    SubsequenceRefl(c);
    NothingIsPart(b);
    SubsequenceConcat(a, a, [], b);
    SubsequenceConcat(a + [], a + b, c, c);
    assert a + [] == a;
  }

  lemma NothingIsPart(b: string)
    ensures Subsequence([], b)
  {
  }

  /** Leaving one part out of a joined list leaves a subsequence of the text. */
  lemma JoinWithout(xs: seq<string>, z: string, ys: seq<string>, sep: string)
    requires xs != []
    ensures Subsequence(Join(xs + ys, sep), Join(xs + [z] + ys, sep))
  {
    hide Subsequence, Join;
    JoinAppend(xs, [z], sep);
    JoinOfOne(z, sep);
    if ys == [] {
      assert xs + ys == xs && xs + [z] + ys == xs + [z];
      InsertKeepsOrder(Join(xs, sep), sep + z, "");
      assert Join(xs, sep) + "" == Join(xs, sep);
      assert Join(xs, sep) + (sep + z) + "" == Join(xs, sep) + sep + z;
    } else {
      JoinAppend(xs, ys, sep);
      JoinAppend(xs + [z], ys, sep);
      InsertKeepsOrder(Join(xs, sep), sep + z, sep + Join(ys, sep));
      assert Join(xs, sep) + (sep + z) + (sep + Join(ys, sep)) == Join(xs, sep) + sep + z + sep + Join(ys, sep);
      assert Join(xs, sep) + (sep + Join(ys, sep)) == Join(xs, sep) + sep + Join(ys, sep);
    }
  }

  /** The sections without the recap are part of the sections with it. */
  lemma BaseIsPart(r: Request, w: Wording)
    ensures Subsequence(Joined(Authoritative(r, ""), w), Joined(Authoritative(r, r.recap), w))
  {
    hide Subsequence, Join, NoteSection, TextSection;
    var front := [PINNED_STATE_HEADING, w.preamble]
                 + (NoteSection(POLICIES_HEADING, r.policies) + NoteSection(CHAT_RULES_HEADING, r.chatRules) + TextSection(TICKET_HEADING, r.ticket));
    var back := TextSection(RULES_HEADING, r.rules);
    NoRecap();
    assert [PINNED_STATE_HEADING, w.preamble] + Authoritative(r, "") == front + back;
    if RecapSection(r.recap) == "" {
      WithoutRecap(r);
      SubsequenceRefl(Joined(Authoritative(r, ""), w));
    } else {
      assert [PINNED_STATE_HEADING, w.preamble] + Authoritative(r, r.recap) == front + [RecapSection(r.recap)] + back;
      JoinWithout(front, RecapSection(r.recap), back, "\n\n");
    }
  }

  lemma NoRecap()
    ensures RecapSection("") == ""
  {
    assert Lines("") == [];
  }

  lemma LongerCountsMore(count: TextCounter, prefix: string, s: string, t: string)
    requires Monotone(count) && Subsequence(s, t)
    ensures count(prefix + s) <= count(prefix + t)
  {
    SubsequenceRefl(prefix);
    SubsequenceConcat(prefix, prefix, s, t);
  }

  lemma ExtendedCountsMore(count: TextCounter, s: string, t: string)
    requires Monotone(count)
    ensures count(s) <= count(s + t)
  {
    InsertKeepsOrder(s, t, "");
    assert s + "" == s && s + t + "" == s + t;
  }

  /** No note fits behind a prefix that is over budget by itself. */
  lemma {:induction false} NoNoteFits(notes: seq<Note>, budget: int, count: TextCounter, prefix: string)
    requires Monotone(count) && count(prefix) > budget
    ensures FitNotes(notes, budget, count, prefix) == []
  {
    hide Monotone, NotesText;
    if notes != [] {
      NoNoteFits(notes[..|notes| - 1], budget, count, prefix);
      ExtendedCountsMore(count, prefix, NotesText([notes[|notes| - 1]]));
      assert [] + [notes[|notes| - 1]] == [notes[|notes| - 1]];
    }
  }

  /** With the undroppable sections over budget everything droppable is dropped. */
  lemma OverBudgetDropsAll(r: Request, count: TextCounter, w: Wording)
    requires r.promptBudget.Some? && Monotone(count)
    requires count(r.prefix + Joined(Authoritative(r, ""), w)) > r.promptBudget.value
    ensures FitDroppable(r, count, w) == (Authoritative(r, ""), "")
  {
    hide Monotone, Subsequence, Authoritative, Joined, RecallSection, RecapSection;
    var full, recall := Joined(Authoritative(r, r.recap), w), RecallSection(r.recall, w);
    BaseIsPart(r, w);
    LongerCountsMore(count, r.prefix, Joined(Authoritative(r, ""), w), full);
    ExtendedCountsMore(count, r.prefix + full, Tail(recall));
    assert r.prefix + (full + Tail(recall)) == r.prefix + full + Tail(recall);
    if RecapSection(r.recap) == "" {
      WithoutRecap(r);
    }
  }

  lemma OverBudgetSelectsNone(r: Request, notes: seq<Note>, authoritative: string, count: TextCounter)
    requires r.promptBudget.Some? && Monotone(count) && count(r.prefix + authoritative) > r.promptBudget.value
    ensures SelectNotes(r, notes, authoritative, count) == []
  {
    hide Monotone, FitNotes;
    var capped := if r.tokenBudget > 0 then FitNotes(notes, r.tokenBudget, count, NOTES_HEADING) else [];
    ExtendedCountsMore(count, r.prefix + authoritative, "\n\n");
    NoNoteFits(capped, r.promptBudget.value, count, r.prefix + authoritative + "\n\n");
  }

  /** For a monotone tokenizer the render fails exactly when the prefix with the undroppable sections is
      over budget, unless there is neither such a section nor a note to render. */
  lemma FailsIff(r: Request, count: TextCounter, w: Wording)
    requires Monotone(count)
    ensures Render(r, count, w).Failure? <==>
              && r.promptBudget.Some?
              && (Authoritative(r, "") != [] || FirstPerKey(r.required + r.notes) != [])
              && count(r.prefix + Joined(Authoritative(r, ""), w)) > r.promptBudget.value
  {
    hide Monotone, Authoritative, Joined, FirstPerKey, RecallSection, SelectNotes;
    var base, notes := Authoritative(r, ""), FirstPerKey(r.required + r.notes);
    if Render(r, count, w).Failure? {
      ErrorIsAuthoritative(r, count, w);
    }
    if r.promptBudget.Some? && count(r.prefix + Joined(base, w)) > r.promptBudget.value {
      OverBudgetDropsAll(r, count, w);
      OverBudgetSelectsNone(r, notes, Joined(base, w), count);
      assert Assemble(Joined(base, w), [], "") == Joined(base, w);
      SectionsKept(r);
    }
  }

  /** Where there is an undroppable section there is one with the recap as well. */
  lemma SectionsKept(r: Request)
    ensures Authoritative(r, "") != [] ==> Authoritative(r, r.recap) != []
  {
    hide NoteSection, TextSection;
    NoRecap();
  }

  /** The recap is never dropped while the recall stays, for a monotone tokenizer. */
  lemma RecallGoesFirst(r: Request, count: TextCounter, w: Wording)
    requires Monotone(count) && FitDroppable(r, count, w).0 != Authoritative(r, r.recap)
    ensures FitDroppable(r, count, w).1 == ""
  {
    hide Monotone, Authoritative, Joined, RecallSection, RecapSection;
    var full, recall := Joined(Authoritative(r, r.recap), w), RecallSection(r.recall, w);
    ExtendedCountsMore(count, r.prefix + full, Tail(recall));
    assert r.prefix + (full + Tail(recall)) == r.prefix + full + Tail(recall);
  }
}
