/** The block laws for the record grammar itself. */
module RecordBlockLaws {
  import opened Optional
  import opened Text
  import opened Sequences
  import opened Records
  import opened BlockLaws

  /** The serial a line gives the block it opens. */
  function LineSerial(line: string): int {
    var head := ParseHead(line);
    var ledger: int := LedgerSerial(line);
    if head.Some? then Value(head.value.digits) else -ledger
  }

  const GRAMMAR := Classifier(line => LineSerial(line), line => IsTailLine(line))

  /** A continuation or payload line is never a record head or a ledger line. */
  lemma TailLineOpensNothing(line: string)
    requires IsTailLine(line)
    ensures ParseHead(line).None? && LedgerSerial(line) == 0
  {
    assert line[0] == '>' || line[0] == ' ';
    assert !("[[" <= line);
  }

  lemma AddLineGrows(blocks: seq<Block>, line: string)
    ensures AddLine(blocks, line) == Grow(blocks, line, GRAMMAR)
  {
    if IsTailLine(line) {
      TailLineOpensNothing(line);
    }
  }

  /** One round of the parser's loop: the line is added behind all lines before; every block but the
      last is left alone, and the last one grows only by a continuation or payload line. */
  lemma OneRound(blocks: seq<Block>, line: string)
    requires BreakFree(line) && WellFormedBlocks(blocks, GRAMMAR)
    ensures var grown := AddLine(blocks, line);
            && WellFormedBlocks(grown, GRAMMAR)
            && AllLines(grown) == AllLines(blocks) + [line]
            && |grown| == |blocks| + (if blocks != [] && IsTailLine(line) then 0 else 1)
            && (forall i | 0 <= i < |grown| - 1 :: grown[i] == blocks[i])
  {
    AddLineGrows(blocks, line);
    GrowKeepsLines(blocks, line, GRAMMAR);
    GrowKeepsForm(blocks, line, GRAMMAR);
  }

  lemma {:induction false} BlocksOfIsSplit(lines: seq<string>)
    ensures BlocksOf(lines) == Split(lines, GRAMMAR)
  {
    if lines != [] {
      BlocksOfIsSplit(lines[..|lines| - 1]);
      AddLineGrows(BlocksOf(lines[..|lines| - 1]), lines[|lines| - 1]);
    }
  }

  /** For every text: its blocks are well formed and a lossless partition of its lines. */
  lemma RecordBlocksLossless(text: string)
    ensures WellFormedBlocks(RecordBlocks(text), GRAMMAR)
    ensures AllLines(RecordBlocks(text)) == Lines(text)
    ensures Join(Texts(RecordBlocks(text)), "\n") == Join(Lines(text), "\n")
  {
    LinesAreBreakFree(text);
    BlocksOfIsSplit(Lines(text));
    SplitPartitions(Lines(text), GRAMMAR);
    JoinedTexts(RecordBlocks(text));
  }

  /** Joining well-formed blocks and parsing the text gives the same blocks again. */
  lemma ReparseJoined(blocks: seq<Block>)
    requires WellFormedBlocks(blocks, GRAMMAR)
    requires blocks != [] ==> LastLine(blocks[|blocks| - 1]) != ""
    ensures RecordBlocks(Join(Texts(blocks), "\n")) == blocks
    ensures Lines(Join(Texts(blocks), "\n")) == AllLines(blocks)
  {
    SplitJoined(blocks, GRAMMAR);
    BlocksOfIsSplit(Lines(Join(Texts(blocks), "\n")));
  }
}
