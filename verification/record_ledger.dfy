/** Rewriting a quiet turn as ledger lines (src/wahabot/ai/records.py, ledger_turn). Each live record is
    cut down to one line that names the same serial; everything else that is not blank stays. A label
    that opens with a time makes that line a ledger line whatever the speaker, the body and the gist
    say, and so the rewritten turn is read back serial by serial and rewriting it again changes
    nothing. */
module RecordLedger {
  import opened Optional
  import opened Text
  import opened Sequences
  import opened Records
  import opened BlockLaws
  import opened RecordBlockLaws

  // ----- the rewrite -----

  /** A live record has at least its head line to read. */
  predicate Readable(b: Block) {
    b.serial > 0 ==> Lines(b.text) != []
  }

  function LedgerItem(b: Block, gist: string, newestSerial: int): seq<string>
    requires Readable(b)
  {
    if b.serial > 0 then
      var line := RecordToLedger(b.text, if b.serial == newestSerial then gist else "");
      if line.Some? then [line.value] else []
    else if IsBlank(b.text) then []
    else [b.text]
  }

  function LedgerItems(blocks: seq<Block>, gist: string, newestSerial: int): seq<string>
    requires forall b | b in blocks :: Readable(b)
  {
    if blocks == [] then []
    else LedgerItems(blocks[..|blocks| - 1], gist, newestSerial) + LedgerItem(blocks[|blocks| - 1], gist, newestSerial)
  }

  /** Every block the parser builds is readable. */
  lemma ParsedBlocksReadable(text: string)
    ensures forall b | b in RecordBlocks(text) :: Readable(b)
  {
    RecordBlocksLossless(text);
    forall b | b in RecordBlocks(text) && b.serial > 0
      ensures Lines(b.text) != []
    {
      var i :| 0 <= i < |RecordBlocks(text)| && RecordBlocks(text)[i] == b;
      LiveBlockLines(b);
    }
  }

  /** A live block's own lines are what `splitlines` reads from it. */
  lemma LiveBlockLines(b: Block)
    requires WellFormed(b, GRAMMAR) && b.serial > 0
    ensures Lines(b.text) == BlockLines(b)
    ensures ParseHead(BlockLines(b)[0]).Some? && Value(ParseHead(BlockLines(b)[0]).value.digits) == b.serial
  {
    var ls := BlockLines(b);
    JoinOfSplit(b.text);
    var last := ls[|ls| - 1];
    assert GRAMMAR.serialOf(ls[0]) == LineSerial(ls[0]);
    if |ls| > 1 {
      assert GRAMMAR.isTail(last) == IsTailLine(last);
    }
    LinesOfJoin(ls);
  }

  function LedgerText(text: string, gist: string, newestSerial: int): string {
    ParsedBlocksReadable(text);
    Join(LedgerItems(RecordBlocks(text), gist, newestSerial), "\n")
  }

  lemma LedgerItemsUpTo(blocks: seq<Block>, gist: string, newestSerial: int, i: nat)
    requires i < |blocks| && forall b | b in blocks :: Readable(b)
    ensures forall b | b in blocks[..i] || b in blocks[..i + 1] :: Readable(b)
    ensures LedgerItems(blocks[..i + 1], gist, newestSerial)
            == LedgerItems(blocks[..i], gist, newestSerial) + LedgerItem(blocks[i], gist, newestSerial)
  {
    assert blocks[..i + 1][..i] == blocks[..i];
  }

  method LedgerTurn(text: string, gist: string, newestSerial: int) returns (ledger: string)
    ensures ledger == LedgerText(text, gist, newestSerial)
  {
    ParsedBlocksReadable(text);
    var blocks := SplitBlocks(text);
    var out: seq<string> := [];
    for i := 0 to |blocks|
      invariant forall b | b in blocks[..i] :: Readable(b)
      invariant out == LedgerItems(blocks[..i], gist, newestSerial)
    {
      LedgerItemsUpTo(blocks, gist, newestSerial, i);
      var b := blocks[i];
      assert Readable(b);
      var item: seq<string> := [];
      if b.serial > 0 {
        var line := RecordToLedger(b.text, if b.serial == newestSerial then gist else "");
        if line.Some? {
          item := [line.value];
        }
      } else if !IsBlank(b.text) {
        item := [b.text];
      }
      assert item == LedgerItem(b, gist, newestSerial);
      out := out + item;
    }
    assert blocks[..|blocks|] == blocks;
    ledger := Join(out, "\n");
  }

  // ----- one ledger line -----

  lemma {:induction false} DigitTailAt(a: string, digits: string)
    requires a != "" && !IsDigit(a[|a| - 1])
    requires forall i | 0 <= i < |digits| :: IsDigit(digits[i])
    ensures DigitTail(a + digits) == |digits|
  {
    var s, n := a + digits, DigitTail(a + digits);
    assert forall i | 0 <= i < |digits| :: s[|a| + i] == digits[i];
    assert s[|a| - 1] == a[|a| - 1];
  }

  /** A leading time is found again whatever is added behind it. */
  lemma TimeLengthPrefix(s: string, t: string)
    requires TimeLength(s) > 0
    ensures TimeLength(s + t) == TimeLength(s)
  {
    assert forall i | 0 <= i < |s| :: (s + t)[i] == s[i];
  }

  lemma IsLedger(a: string, digits: string, n: nat)
    requires digits != "" && forall i | 0 <= i < |digits| :: IsDigit(digits[i])
    requires EndsWith(a, LEDGER_TOKEN) && TimeLength(a + digits) == n > 0
    requires n + 1 < |a| - |LEDGER_TOKEN|
    ensures IsLedgerLine(a + digits) && LedgerSerial(a + digits) == Value(digits)
  {
    var line := a + digits;
    assert a[|a| - |LEDGER_TOKEN|..][|LEDGER_TOKEN| - 1] == 'm';
    assert a[|a| - 1] == 'm';
    DigitTailAt(a, digits);
    assert line[..|line| - |digits|] == a && line[|line| - |digits|..] == digits;
  }

  lemma Reassociate(left: string, rest: string, token: string, digits: string)
    ensures left + " " + rest + token + digits == (left + " ") + (rest + token + digits)
    ensures left + " " + rest + token + digits == (left + " " + rest + token) + digits
    ensures EndsWith(left + " " + rest + token, token)
  {
  }

  /** A time, a space, something, the separator and a serial make a ledger line for that serial. */
  lemma LedgerLineReads(left: string, rest: string, digits: string)
    requires TimeLength(left + " ") > 0 && rest != ""
    requires digits != "" && forall i | 0 <= i < |digits| :: IsDigit(digits[i])
    ensures var line := left + " " + rest + LEDGER_TOKEN + digits;
            IsLedgerLine(line) && LedgerSerial(line) == Value(digits) && IsDigit(line[0])
  {
    Reassociate(left, rest, LEDGER_TOKEN, digits);
    TimeLengthPrefix(left + " ", rest + LEDGER_TOKEN + digits);
    IsLedger(left + " " + rest + LEDGER_TOKEN, digits, TimeLength(left + " "));
  }

  lemma DigitLedOpensNoRecord(line: string)
    requires line != "" && IsDigit(line[0])
    ensures ParseHead(line).None? && !IsTailLine(line)
  {
  }

  lemma {:induction false} StripBreakFree(s: string)
    requires BreakFree(s)
    ensures BreakFree(Strip(s))
    decreases |s|
  {
    if s != "" {
      if IsSpace(s[0]) {
        StripBreakFree(s[1..]);
      } else if IsSpace(s[|s| - 1]) {
        StripBreakFree(s[..|s| - 1]);
      }
    }
  }

  lemma {:induction false} ReactionTargetBreakFree(lines: seq<string>)
    requires forall l | l in lines :: BreakFree(l)
    ensures BreakFree(ReactionTarget(lines))
  {
    if lines != [] {
      assert BreakFree(lines[0]);
      ReactionTargetBreakFree(lines[1..]);
    }
  }

  lemma ReactionGist(text: string, target: string)
    requires BreakFree(text) && BreakFree(target)
    ensures var g := Clipped(Strip("reacted " + text + " " + target)); g != "" && BreakFree(g)
  {
    var s := "reacted " + text + " " + target;
    assert !IsSpace(s[0]);
    StripBreakFree(s);
  }

  lemma WordsGist(text: string)
    requires Words(text) != []
    ensures var words := Words(text);
            var g := Clipped(if |words| > GIST_WORDS then Join(words[..GIST_WORDS], " ") + "…" else Join(words, " "));
            g != "" && BreakFree(g)
  {
    var words := Words(text);
    WordsAreWords(text);
    var chosen := if |words| > GIST_WORDS then words[..GIST_WORDS] else words;
    assert forall w | w in chosen :: w in words;
    JoinWordsShape(chosen);
  }

  lemma LetterIsFree(c: char)
    requires ' ' <= c <= 'z'
    ensures !IsBreak(c)
  {
  }

  /** Plain letters and spaces break no line. */
  lemma PlainWordsFree(s: string)
    requires forall i | 0 <= i < |s| :: ' ' <= s[i] <= 'z'
    ensures BreakFree(s)
  {
    hide IsBreak;
    forall i | 0 <= i < |s|
      ensures !IsBreak(s[i])
    {
      LetterIsFree(s[i]);
    }
  }

  lemma FixedGists(kind: string)
    ensures BreakFree("shared a link") && BreakFree("to a message") && KindGist(kind) != "" && BreakFree(KindGist(kind))
  {
    hide BreakFree;
    PlainWordsFree("shared a link");
    PlainWordsFree("to a message");
    PlainWordsFree(KindGist(kind));
  }

  lemma MechanicalGistShape(body: string, kind: string, block: string)
    ensures var g := MechanicalGist(body, kind, block); g != "" && BreakFree(g)
  {
    hide Words, OneLine, ReactionTarget, Lines, Strip, BreakFree, KindGist, Clipped, Join;
    var text := OneLine(body);
    FixedGists(kind);
    OneLineFacts(body);
    LinesAreBreakFree(block);
    ReactionTargetBreakFree(Lines(block));
    if kind == "reaction" {
      ReactionGist(if text == "" then "to a message" else text, ReactionTarget(Lines(block)));
    } else if "http://" <= text || "https://" <= text {
    } else if text != "" {
      OneLineFacts(text);
      WordsGist(text);
    }
  }

  /** The gist is one non-empty piece of a line, whoever wrote it. */
  lemma LedgerWordsShape(block: string, head: Head, gist: string)
    ensures LedgerWords(block, head, gist) != "" && BreakFree(LedgerWords(block, head, gist))
  {
    hide OneLine, MechanicalGist;
    OneLineFacts(gist);
    MechanicalGistShape(RecordBodyText(block, head.rest), head.kind, block);
  }

  /** The label opens with a well-formed time, as every label the renderer writes does. */
  predicate WellLabelled(heading: string)
    requires |heading| >= 4
  {
    TimeLength(LabelText(heading) + " ") > 0
  }

  lemma LabelTextBreakFree(heading: string)
    requires |heading| >= 4 && BreakFree(heading)
    ensures BreakFree(LabelText(heading))
  {
  }

  /** What follows the label text and one space on the ledger line. */
  function LedgerRest(left: string, words: string): string {
    if Find(left, " ") >= 0 then words else " " + words
  }

  lemma RejoinPartition(left: string, words: string)
    ensures var (time, speaker) := Partition(left);
            time + " " + speaker + " " + words == left + " " + LedgerRest(left, words)
  {
    var i := Find(left, " ");
    if i >= 0 {
      assert left[i] == left[i..][0] == ' ';
      assert left == left[..i] + " " + left[i + 1..];
    } else {
      assert left + " " + "" + " " + words == left + " " + (" " + words);
    }
  }

  lemma ConcatBreakFree(a: string, b: string, c: string, d: string)
    requires BreakFree(a) && BreakFree(b) && BreakFree(c) && BreakFree(d)
    ensures BreakFree(a + " " + b + c + d)
  {
  }

  predicate LedgerLineFor(line: string, n: int) {
    line != "" && BreakFree(line) && !IsTailLine(line) && ParseHead(line).None? && LedgerSerial(line) == n
  }

  lemma LedgerLineHolds(line: string, left: string, rest: string, digits: string)
    requires line == left + " " + rest + LEDGER_TOKEN + digits
    requires TimeLength(left + " ") > 0 && rest != "" && BreakFree(left) && BreakFree(rest)
    requires digits != "" && forall i | 0 <= i < |digits| :: IsDigit(digits[i])
    ensures LedgerLineFor(line, Value(digits))
  {
    hide TimeLength, LedgerSerial, IsLedgerLine, IsTailLine, ParseHead, Value;
    assert BreakFree(line) by {
      assert BreakFree(LEDGER_TOKEN) && BreakFree(digits);
      ConcatBreakFree(left, rest, LEDGER_TOKEN, digits);
    }
    LedgerLineReads(left, rest, digits);
    DigitLedOpensNoRecord(line);
  }

  lemma LedgerLineOf(line: string, left: string, words: string, digits: string)
    requires line == Partition(left).0 + " " + Partition(left).1 + " " + words + LEDGER_TOKEN + digits
    requires TimeLength(left + " ") > 0 && words != "" && BreakFree(left) && BreakFree(words)
    requires digits != "" && forall i | 0 <= i < |digits| :: IsDigit(digits[i])
    ensures LedgerLineFor(line, Value(digits))
  {
    hide TimeLength, LedgerLineFor, Find;
    RejoinPartition(left, words);
    LedgerLineHolds(line, left, LedgerRest(left, words), digits);
  }

  /** Every live record of the blocks carries a well-formed time label. */
  predicate Labelled(b: Block) {
    b.serial > 0 ==>
      var head := ParseHead(BlockLines(b)[0]);
      head.Some? ==> WellLabelled(head.value.heading)
  }

  /** One record becomes one line that names the same serial as a ledger line. */
  lemma RecordBecomesLedgerLine(b: Block, gist: string)
    requires WellFormed(b, GRAMMAR) && b.serial > 0
    requires Labelled(b)
    ensures Readable(b)
    ensures var l := RecordToLedger(b.text, gist);
            && l.Some? && BreakFree(l.value) && !IsTailLine(l.value) && l.value != ""
            && LineSerial(l.value) == -b.serial
  {
    LiveBlockLines(b);
    var head := ParseHead(BlockLines(b)[0]).value;
    LedgerWordsShape(b.text, head, gist);
    HeadingBreakFree(BlockLines(b)[0]);
    LabelTextBreakFree(head.heading);
    LedgerLineOf(RecordToLedger(b.text, gist).value, LabelText(head.heading), LedgerWords(b.text, head, gist), head.digits);
  }

  lemma HeadingBreakFree(line: string)
    requires BreakFree(line) && ParseHead(line).Some?
    ensures BreakFree(ParseHead(line).value.heading)
  {
  }

  // ----- the whole turn -----

  function Remade(b: Block, item: seq<string>): seq<Block> {
    if item == [] then [] else [Block(if b.serial > 0 then -b.serial else b.serial, item[0])]
  }

  /** The block a ledger rewrite leaves of a block, if any. */
  function LedgerBlock(b: Block, gist: string, newestSerial: int): seq<Block>
    requires Readable(b)
  {
    Remade(b, LedgerItem(b, gist, newestSerial))
  }

  function LedgerBlocks(blocks: seq<Block>, gist: string, newestSerial: int): seq<Block>
    requires forall b | b in blocks :: Readable(b)
  {
    if blocks == [] then []
    else LedgerBlocks(blocks[..|blocks| - 1], gist, newestSerial) + LedgerBlock(blocks[|blocks| - 1], gist, newestSerial)
  }

  lemma NonBlankLastLine(b: Block)
    requires WellFormed(b, GRAMMAR) && !IsBlank(b.text)
    ensures LastLine(b) != ""
  {
    var ls := BlockLines(b);
    JoinOfSplit(b.text);
    if |ls| > 1 {
      assert GRAMMAR.isTail(ls[|ls| - 1]) == IsTailLine(ls[|ls| - 1]);
    } else {
      assert ls == [ls[0]];
    }
  }

  /** A block fit to stand in a rewritten turn: no live record, not blank, not ending in an empty line. */
  predicate Quiet(b: Block) {
    WellFormed(b, GRAMMAR) && b.serial <= 0 && !IsBlank(b.text) && LastLine(b) != ""
  }

  predicate OpensWithTail(b: Block) {
    GRAMMAR.isTail(BlockLines(b)[0])
  }

  lemma LedgerLineBlock(line: string, n: int)
    requires BreakFree(line) && !IsTailLine(line) && line != "" && LineSerial(line) == -n && n > 0
    ensures Quiet(Block(-n, line)) && !OpensWithTail(Block(-n, line))
  {
    SplitOfLine(line);
    LedgerLineNotBlank(line, n);
    assert GRAMMAR.serialOf(line) == LineSerial(line) && GRAMMAR.isTail(line) == IsTailLine(line);
  }

  lemma LiveBlockRewritten(b: Block, gist: string, newestSerial: int)
    requires WellFormed(b, GRAMMAR) && Labelled(b) && b.serial > 0
    ensures Readable(b)
    ensures LedgerItem(b, gist, newestSerial) != []
    ensures var line := LedgerItem(b, gist, newestSerial)[0];
            LedgerItem(b, gist, newestSerial) == [line] && Quiet(Block(-b.serial, line)) && !OpensWithTail(Block(-b.serial, line))
  {
    hide RecordToLedger, WellFormed, Quiet, OpensWithTail, Labelled, LineSerial;
    var own := if b.serial == newestSerial then gist else "";
    RecordBecomesLedgerLine(b, own);
    var line := RecordToLedger(b.text, own).value;
    LedgerLineBlock(line, b.serial);
    assert LedgerItem(b, gist, newestSerial) == [line];
  }

  /** What a rewrite may leave of one block: a ledger line for a live one, otherwise the block itself unless blank. */
  predicate LeftOf(b: Block, left: seq<Block>) {
    && |left| <= 1
    && (b.serial > 0 ==> left != [] && left[0].serial == -b.serial)
    && (b.serial <= 0 ==> left == if IsBlank(b.text) then [] else [b])
    && (left != [] ==> Quiet(left[0]) && (OpensWithTail(left[0]) ==> OpensWithTail(b)))
  }

  lemma LedgerBlockForm(b: Block, gist: string, newestSerial: int)
    requires WellFormed(b, GRAMMAR) && Labelled(b)
    ensures Readable(b)
    ensures LeftOf(b, LedgerBlock(b, gist, newestSerial))
    ensures Texts(LedgerBlock(b, gist, newestSerial)) == LedgerItem(b, gist, newestSerial)
  {
    hide RecordToLedger, WellFormed, LastLine, OpensWithTail, Labelled;
    if b.serial > 0 {
      LiveBlockRewritten(b, gist, newestSerial);
    } else if !IsBlank(b.text) {
      NonBlankLastLine(b);
    }
  }

  lemma LedgerLineNotBlank(line: string, n: int)
    requires line != "" && n > 0 && LineSerial(line) == -n
    ensures !IsBlank(line)
  {
    assert IsLedgerLine(line);
    assert IsDigit(line[0]);
    assert !IsSpace(line[0]);
  }

  function Serials(blocks: seq<Block>): (s: seq<int>)
    ensures |s| == |blocks| && forall i | 0 <= i < |s| :: s[i] == blocks[i].serial
  {
    seq(|blocks|, i requires 0 <= i < |blocks| => blocks[i].serial)
  }

  function NegatedOne(b: Block): seq<int> {
    if b.serial > 0 then [-b.serial] else if IsBlank(b.text) then [] else [b.serial]
  }

  /** The serials of a turn as a rewrite leaves them. */
  function Negated(blocks: seq<Block>): seq<int> {
    if blocks == [] then []
    else
      Negated(blocks[..|blocks| - 1]) + NegatedOne(blocks[|blocks| - 1])
  }

  predicate QuietBlocks(blocks: seq<Block>) {
    && (forall i | 0 <= i < |blocks| :: Quiet(blocks[i]))
    && (forall i | 1 <= i < |blocks| :: !OpensWithTail(blocks[i]))
  }

  lemma QuietSnoc(left: seq<Block>, more: seq<Block>)
    requires QuietBlocks(left) && |more| <= 1 && forall b | b in more :: Quiet(b)
    requires left != [] && more != [] ==> !OpensWithTail(more[0])
    ensures QuietBlocks(left + more)
    ensures Texts(left + more) == Texts(left) + Texts(more)
    ensures Serials(left + more) == Serials(left) + Serials(more)
  {
    hide Quiet, OpensWithTail;
    var all := left + more;
    assert more != [] ==> more[0] in more;
    assert forall i | 0 <= i < |left| :: all[i] == left[i] && Quiet(left[i]);
  }

  lemma LeftSerials(b: Block, left: seq<Block>)
    requires LeftOf(b, left)
    ensures Serials(left) == NegatedOne(b)
  {
  }

  lemma WellFormedSnoc(init: seq<Block>, last: Block)
    requires WellFormedBlocks(init + [last], GRAMMAR)
    ensures WellFormedBlocks(init, GRAMMAR) && WellFormed(last, GRAMMAR)
    ensures init != [] ==> !OpensWithTail(last)
  {
    var all := init + [last];
    assert forall i | 0 <= i < |init| :: all[i] == init[i];
    assert all[|init|] == last;
  }

  lemma LedgerSnoc(init: seq<Block>, last: Block, gist: string, newestSerial: int)
    requires (forall b | b in init :: Readable(b)) && Readable(last)
    ensures forall b | b in init + [last] :: Readable(b)
    ensures LedgerBlocks(init + [last], gist, newestSerial) == LedgerBlocks(init, gist, newestSerial) + LedgerBlock(last, gist, newestSerial)
    ensures LedgerItems(init + [last], gist, newestSerial) == LedgerItems(init, gist, newestSerial) + LedgerItem(last, gist, newestSerial)
    ensures Negated(init + [last]) == Negated(init) + NegatedOne(last)
  {
    assert (init + [last])[..|init|] == init;
  }

  /** What is left of a turn is quiet, only a first block that opened with a tail line still does. */
  predicate LeftOfTurn(blocks: seq<Block>, left: seq<Block>) {
    && QuietBlocks(left)
    && (blocks == [] ==> left == [])
    && Serials(left) == Negated(blocks)
  }

  lemma LeftSnoc(init: seq<Block>, last: Block, left: seq<Block>, more: seq<Block>)
    requires LeftOfTurn(init, left) && LeftOf(last, more)
    requires init != [] ==> !OpensWithTail(last)
    ensures QuietBlocks(left + more)
    ensures Texts(left + more) == Texts(left) + Texts(more)
    ensures Serials(left + more) == Negated(init) + NegatedOne(last)
  {
    LeftSerials(last, more);
    QuietSnoc(left, more);
  }

  lemma {:induction false} LedgerBlocksForm(blocks: seq<Block>, gist: string, newestSerial: int)
    requires WellFormedBlocks(blocks, GRAMMAR) && forall b | b in blocks :: Labelled(b)
    ensures forall b | b in blocks :: Readable(b)
    ensures LeftOfTurn(blocks, LedgerBlocks(blocks, gist, newestSerial))
    ensures Texts(LedgerBlocks(blocks, gist, newestSerial)) == LedgerItems(blocks, gist, newestSerial)
  {
    if blocks != [] {
      var init, last := blocks[..|blocks| - 1], blocks[|blocks| - 1];
      assert blocks == init + [last];
      WellFormedSnoc(init, last);
      LedgerBlocksForm(init, gist, newestSerial);
      LedgerBlockForm(last, gist, newestSerial);
      LedgerSnoc(init, last, gist, newestSerial);
      LeftSnoc(init, last, LedgerBlocks(init, gist, newestSerial), LedgerBlock(last, gist, newestSerial));
    }
  }

  lemma QuietBlocksReparse(blocks: seq<Block>)
    requires QuietBlocks(blocks)
    ensures RecordBlocks(Join(Texts(blocks), "\n")) == blocks
  {
    forall i | 0 <= i < |blocks|
      ensures WellFormed(blocks[i], GRAMMAR) && LastLine(blocks[i]) != "" && (i > 0 ==> !GRAMMAR.isTail(BlockLines(blocks[i])[0]))
    {
      assert Quiet(blocks[i]);
      assert i > 0 ==> !OpensWithTail(blocks[i]);
    }
    ReparseJoined(blocks);
  }

  /** The rewritten turn parses to exactly one ledger line -n for every live serial n, with every
      other block that is not blank as it was, in order. */
  lemma LedgerTurnReparses(text: string, gist: string, newestSerial: int)
    requires forall b | b in RecordBlocks(text) :: Labelled(b)
    ensures forall b | b in RecordBlocks(text) :: Readable(b)
    ensures RecordBlocks(LedgerText(text, gist, newestSerial)) == LedgerBlocks(RecordBlocks(text), gist, newestSerial)
  {
    RecordBlocksLossless(text);
    LedgerBlocksForm(RecordBlocks(text), gist, newestSerial);
    QuietBlocksReparse(LedgerBlocks(RecordBlocks(text), gist, newestSerial));
  }

  /** In order, each live serial becomes its negative and every kept block keeps its own. */
  lemma LedgerTurnSerials(text: string, gist: string, newestSerial: int)
    requires forall b | b in RecordBlocks(text) :: Labelled(b)
    ensures Serials(RecordBlocks(LedgerText(text, gist, newestSerial))) == Negated(RecordBlocks(text))
  {
    RecordBlocksLossless(text);
    LedgerTurnReparses(text, gist, newestSerial);
    LedgerBlocksForm(RecordBlocks(text), gist, newestSerial);
  }

  lemma {:induction false} LedgerOfQuiet(blocks: seq<Block>, gist: string, newestSerial: int)
    requires forall i | 0 <= i < |blocks| :: blocks[i].serial <= 0 && !IsBlank(blocks[i].text)
    ensures forall b | b in blocks :: Readable(b)
    ensures LedgerItems(blocks, gist, newestSerial) == Texts(blocks)
  {
    if blocks != [] {
      LedgerOfQuiet(blocks[..|blocks| - 1], gist, newestSerial);
    }
  }

  /** Rewriting a rewritten turn changes nothing, whatever gist the second rewrite is given. */
  lemma LedgerTurnIdempotent(text: string, gist: string, newestSerial: int, gist2: string, newestSerial2: int)
    requires forall b | b in RecordBlocks(text) :: Labelled(b)
    ensures var ledger := LedgerText(text, gist, newestSerial);
            LedgerText(ledger, gist2, newestSerial2) == ledger
  {
    RecordBlocksLossless(text);
    LedgerBlocksForm(RecordBlocks(text), gist, newestSerial);
    LedgerTurnReparses(text, gist, newestSerial);
    var left := LedgerBlocks(RecordBlocks(text), gist, newestSerial);
    assert forall i | 0 <= i < |left| :: Quiet(left[i]);
    LedgerOfQuiet(left, gist2, newestSerial2);
  }
}
