/** Signed blocks of lines, for any line grammar. */
module BlockLaws {
  // Splitting a text into signed blocks loses nothing, and joining blocks is undone by splitting. The
  // laws hold for any way of giving lines a serial and telling tail lines, so they are stated for a
  // classifier; the record grammar is one.

  import opened Text
  import opened Records

  datatype Classifier = Classifier(serialOf: string -> int, isTail: string -> bool)

  function Grow(blocks: seq<Block>, line: string, k: Classifier): seq<Block> {
    if blocks != [] && k.isTail(line) then
      var last := blocks[|blocks| - 1];
      blocks[..|blocks| - 1] + [Block(last.serial, last.text + "\n" + line)]
    else blocks + [Block(k.serialOf(line), line)]
  }

  function Split(lines: seq<string>, k: Classifier): seq<Block> {
    if lines == [] then [] else Grow(Split(lines[..|lines| - 1], k), lines[|lines| - 1], k)
  }

  lemma SplitSnoc(lines: seq<string>, line: string, k: Classifier)
    ensures Split(lines + [line], k) == Grow(Split(lines, k), line, k)
  {
    assert (lines + [line])[..|lines|] == lines;
  }

  function BlockLines(b: Block): (ls: seq<string>)
    ensures ls != []
  {
    SplitNewline(b.text)
  }

  /** A block as the parser builds it: an opening line that gives the serial, then tail lines. */
  predicate WellFormed(b: Block, k: Classifier) {
    var ls := BlockLines(b);
    && (forall i | 0 <= i < |ls| :: BreakFree(ls[i]))
    && k.serialOf(ls[0]) == b.serial
    && (forall i | 1 <= i < |ls| :: k.isTail(ls[i]))
  }

  /** Only the first block of a text may open with a tail line. */
  predicate WellFormedBlocks(blocks: seq<Block>, k: Classifier) {
    && (forall i | 0 <= i < |blocks| :: WellFormed(blocks[i], k))
    && (forall i | 1 <= i < |blocks| :: !k.isTail(BlockLines(blocks[i])[0]))
  }

  function AllLines(blocks: seq<Block>): seq<string> {
    if blocks == [] then [] else AllLines(blocks[..|blocks| - 1]) + BlockLines(blocks[|blocks| - 1])
  }

  lemma AllLinesSnoc(blocks: seq<Block>, b: Block)
    ensures AllLines(blocks + [b]) == AllLines(blocks) + BlockLines(b)
  {
    assert (blocks + [b])[..|blocks|] == blocks;
  }

  lemma NoNewlineIn(line: string)
    requires BreakFree(line)
    ensures NewlineFree(line)
  {
    assert IsBreak('\n');
  }

  lemma SplitGrownText(text: string, line: string)
    requires BreakFree(line)
    ensures SplitNewline(text + "\n" + line) == SplitNewline(text) + [line]
  {
    NoNewlineIn(line);
    var ls := SplitNewline(text);
    JoinOfSplit(text);
    JoinAppend(ls, [line], "\n");
    SplitOfJoin(ls + [line]);
  }

  lemma SplitOfLine(line: string)
    requires BreakFree(line)
    ensures SplitNewline(line) == [line]
  {
    NoNewlineIn(line);
    SplitOfFirst(line, "");
    assert line + "" == line;
  }

  lemma GrowKeepsLines(blocks: seq<Block>, line: string, k: Classifier)
    requires BreakFree(line)
    ensures AllLines(Grow(blocks, line, k)) == AllLines(blocks) + [line]
  {
    if blocks != [] && k.isTail(line) {
      var init, last := blocks[..|blocks| - 1], blocks[|blocks| - 1];
      SplitGrownText(last.text, line);
      AllLinesSnoc(init, Block(last.serial, last.text + "\n" + line));
      assert AllLines(blocks) == AllLines(init) + BlockLines(last);
    } else {
      SplitOfLine(line);
      AllLinesSnoc(blocks, Block(k.serialOf(line), line));
    }
  }

  lemma GrowKeepsForm(blocks: seq<Block>, line: string, k: Classifier)
    requires BreakFree(line) && WellFormedBlocks(blocks, k)
    ensures WellFormedBlocks(Grow(blocks, line, k), k)
  {
    var grown := Grow(blocks, line, k);
    if blocks != [] && k.isTail(line) {
      var last := blocks[|blocks| - 1];
      SplitGrownText(last.text, line);
      assert WellFormed(last, k);
      assert forall i | 0 <= i < |grown| - 1 :: grown[i] == blocks[i];
    } else {
      SplitOfLine(line);
    }
  }

  /** The blocks are well formed and hold exactly the lines that were read, in order. */
  lemma {:induction false} SplitPartitions(lines: seq<string>, k: Classifier)
    requires forall i | 0 <= i < |lines| :: BreakFree(lines[i])
    ensures WellFormedBlocks(Split(lines, k), k)
    ensures AllLines(Split(lines, k)) == lines
  {
    if lines != [] {
      var init, line := lines[..|lines| - 1], lines[|lines| - 1];
      SplitPartitions(init, k);
      GrowKeepsLines(Split(init, k), line, k);
      GrowKeepsForm(Split(init, k), line, k);
    }
  }

  /** Joining the blocks' texts is joining all of their lines. */
  lemma {:induction false} JoinedTexts(blocks: seq<Block>)
    ensures Join(Texts(blocks), "\n") == Join(AllLines(blocks), "\n")
  {
    if blocks != [] {
      var init, last := blocks[..|blocks| - 1], blocks[|blocks| - 1];
      JoinedTexts(init);
      JoinOfSplit(last.text);
      assert Texts(blocks) == Texts(init) + [last.text];
      if init != [] {
        JoinAppend(Texts(init), [last.text], "\n");
        JoinAppend(AllLines(init), BlockLines(last), "\n");
      } else {
        assert AllLines(blocks) == BlockLines(last);
      }
    }
  }

  /** A tail line joins the last block's text. */
  lemma GrowTail(before: seq<Block>, text: string, serial: int, line: string, k: Classifier)
    requires k.isTail(line)
    ensures Grow(before + [Block(serial, text)], line, k) == before + [Block(serial, text + "\n" + line)]
  {
    assert (before + [Block(serial, text)])[..|before|] == before;
  }

  lemma {:induction false} SplitTail(lines: seq<string>, tail: seq<string>, k: Classifier)
    requires forall i | 0 <= i < |tail| :: k.isTail(tail[i])
    requires Split(lines, k) != []
    ensures var before := Split(lines, k);
            var last := before[|before| - 1];
            Split(lines + tail, k) == before[..|before| - 1] + [Block(last.serial, Join([last.text] + tail, "\n"))]
    decreases |tail|
  {
    hide Join, Split, Grow;
    var before := Split(lines, k);
    var last := before[|before| - 1];
    if tail == [] {
      assert lines + tail == lines;
      assert [last.text] + tail == [last.text];
      JoinOfOne(last.text, "\n");
    } else {
      var init, line := tail[..|tail| - 1], tail[|tail| - 1];
      SplitTail(lines, init, k);
      assert lines + tail == (lines + init) + [line];
      SplitSnoc(lines + init, line, k);
      JoinAppend([last.text] + init, [line], "\n");
      JoinOfOne(line, "\n");
      assert [last.text] + tail == ([last.text] + init) + [line];
      GrowTail(before[..|before| - 1], Join([last.text] + init, "\n"), last.serial, line, k);
    }
  }

  lemma SplitOneMore(lines: seq<string>, b: Block, k: Classifier)
    requires WellFormed(b, k)
    requires Split(lines, k) == [] || !k.isTail(BlockLines(b)[0])
    ensures Split(lines + BlockLines(b), k) == Split(lines, k) + [b]
  {
    hide Join, SplitNewline, Split;
    var ls, before := BlockLines(b), Split(lines, k);
    SplitSnoc(lines, ls[0], k);
    assert Split(lines + [ls[0]], k) == before + [Block(b.serial, ls[0])];
    assert (before + [Block(b.serial, ls[0])])[..|before|] == before;
    SplitTail(lines + [ls[0]], ls[1..], k);
    assert lines + ls == lines + [ls[0]] + ls[1..];
    assert [ls[0]] + ls[1..] == ls;
    JoinOfSplit(b.text);
  }

  /** Well-formed blocks are read back from their lines. */
  lemma {:induction false} SplitAllLines(blocks: seq<Block>, k: Classifier)
    requires WellFormedBlocks(blocks, k)
    ensures Split(AllLines(blocks), k) == blocks
  {
    hide WellFormed, Grow;
    if blocks != [] {
      var init, last := blocks[..|blocks| - 1], blocks[|blocks| - 1];
      assert WellFormedBlocks(init, k);
      SplitAllLines(init, k);
      SplitOneMore(AllLines(init), last, k);
    }
  }

  lemma {:induction false} AllLinesBreakFree(blocks: seq<Block>, k: Classifier)
    requires forall i | 0 <= i < |blocks| :: WellFormed(blocks[i], k)
    ensures forall l | l in AllLines(blocks) :: BreakFree(l)
  {
    if blocks != [] {
      AllLinesBreakFree(blocks[..|blocks| - 1], k);
      assert WellFormed(blocks[|blocks| - 1], k);
    }
  }

  function LastLine(b: Block): string {
    BlockLines(b)[|BlockLines(b)| - 1]
  }

  /** Joining well-formed blocks is undone by splitting, unless the text would end in an empty line. */
  lemma SplitJoined(blocks: seq<Block>, k: Classifier)
    requires WellFormedBlocks(blocks, k)
    requires blocks != [] ==> LastLine(blocks[|blocks| - 1]) != ""
    ensures Lines(Join(Texts(blocks), "\n")) == AllLines(blocks)
    ensures Split(Lines(Join(Texts(blocks), "\n")), k) == blocks
  {
    JoinedTexts(blocks);
    AllLinesBreakFree(blocks, k);
    LinesOfJoin(AllLines(blocks));
    SplitAllLines(blocks, k);
  }
}
