/** What a reader finds in a printed record (src/wahabot/ai/records.py): all that was put into it. */
module RecordReading {
  import opened Optional
  import opened Text
  import opened Sequences
  import opened Records
  import opened BlockLaws
  import opened RecordBlockLaws
  import opened RecordRoundTrip

  // ----- the parts of a record's text -----

  /** What stands on the head line between the kind and the body. */
  function FlagPart(rest: string): string {
    var i := Find(rest, " :: ");
    if i < 0 then rest else rest[..i]
  }

  /** The payload lines, without their prefix. */
  function PayloadText(lines: seq<string>): seq<string> {
    if lines == [] then []
    else (if PAYLOAD_PREFIX <= lines[0] then [lines[0][|PAYLOAD_PREFIX|..]] else []) + PayloadText(lines[1..])
  }

  lemma {:induction false} FlattenedWords(items: seq<string>)
    ensures FlattenWords(Flattened(items)) == FlattenWords(items)
  {
    hide Words, OneLine;
    if items != [] {
      assert Flattened(items)[1..] == Flattened(items[1..]);
      OneLineFacts(items[0]);
      FlattenedWords(items[1..]);
    }
  }

  lemma FlagWords(r: Fields)
    ensures Words(FlagText(r)) == FlattenWords(r.flags)
  {
    hide Words, Join;
    WordsOfNothing();
    if r.flags != [] {
      assert IsSpace(' ');
      WordsBehindSpace(" ", Join(Flattened(r.flags), " "));
      WordsOfJoin(Flattened(r.flags), " ");
      FlattenedWords(r.flags);
    }
  }

  lemma FlagsOfRest(r: Fields)
    requires PlainFlags(r)
    ensures FlagPart(HeadRest(r)) == FlagText(r)
  {
    hide FlagText, Find;
    var rest := if r.body == "" then "" else " :: " + SplitNewline(r.body)[0];
    SeparatorAt(FlagText(r), rest);
    DropFront(FlagText(r), rest);
    assert FlagText(r) + "" == FlagText(r);
  }

  lemma PayloadOpens(x: string)
    ensures PAYLOAD_PREFIX <= PAYLOAD_PREFIX + x && (PAYLOAD_PREFIX + x)[|PAYLOAD_PREFIX|..] == x
    ensures !(PAYLOAD_PREFIX <= CONTINUATION_PREFIX + x)
  {
    assert (CONTINUATION_PREFIX + x)[0] == '>';
  }

  lemma PayloadStep(line: string, rest: seq<string>)
    ensures PayloadText([line] + rest) == (if PAYLOAD_PREFIX <= line then [line[|PAYLOAD_PREFIX|..]] else []) + PayloadText(rest)
  {
    assert ([line] + rest)[1..] == rest;
  }

  lemma PrefixedStep(prefix: string, items: seq<string>)
    requires items != []
    ensures Prefixed(prefix, items) == [prefix + items[0]] + Prefixed(prefix, items[1..])
  {
  }

  lemma {:induction false} PayloadsOfLines(body: seq<string>, payloads: seq<string>)
    ensures PayloadText(Prefixed(CONTINUATION_PREFIX, body) + Prefixed(PAYLOAD_PREFIX, payloads)) == payloads
    decreases |body| + |payloads|
  {
    hide PayloadText, Prefixed;
    var bs, ps := Prefixed(CONTINUATION_PREFIX, body), Prefixed(PAYLOAD_PREFIX, payloads);
    if body != [] {
      PayloadsOfLines(body[1..], payloads);
      PrefixedStep(CONTINUATION_PREFIX, body);
      PayloadOpens(body[0]);
      PayloadStep(bs[0], Prefixed(CONTINUATION_PREFIX, body[1..]) + ps);
      assert bs + ps == [bs[0]] + (Prefixed(CONTINUATION_PREFIX, body[1..]) + ps);
    } else if payloads != [] {
      PayloadsOfLines([], payloads[1..]);
      PrefixedStep(PAYLOAD_PREFIX, payloads);
      PayloadOpens(payloads[0]);
      var rest := Prefixed(PAYLOAD_PREFIX, payloads[1..]);
      NothingPrefixed();
      PayloadStep(ps[0], rest);
      assert bs + ps == [ps[0]] + rest && Prefixed(CONTINUATION_PREFIX, []) + rest == rest;
    } else {
      NothingPrefixed();
      NoPayload();
      assert bs + ps == [];
    }
  }

  lemma NoPayload()
    ensures PayloadText([]) == [] && Prefixed(PAYLOAD_PREFIX, []) == []
  {
  }

  lemma LabelSlices(front: string, digits: string)
    ensures var own := "[[" + front + (" #m" + digits) + "]]";
            |own| >= 4 && own[2..|own| - 2] == front + (" #m" + digits)
  {
  }

  /** The time and the speaker are what precedes the serial. */
  lemma LabelIsRead(r: Fields)
    requires Renderable(r)
    ensures |Label(r)| >= 4 && LabelText(Label(r)) == r.timeLabel + " " + OneLine(r.speaker)
  {
    hide Numeral, OneLine, LastMatch;
    var front, digits := r.timeLabel + " " + OneLine(r.speaker), Numeral(r.serial);
    assert Label(r) == "[[" + front + (" #m" + digits) + "]]";
    LabelSlices(front, digits);
    LastMark(front, digits);
    DropFront(front, " #m" + digits);
  }

  lemma MarkOpens(t: string)
    ensures t == "" || t[0] != ' ' ==> !SERIAL_MARK(t)
    ensures SERIAL_MARK(" #m" + t)
  {
  }

  lemma OneSpace(digits: string)
    requires forall i | 0 <= i < |digits| :: IsDigit(digits[i])
    ensures forall i | 0 < i < |" #m" + digits| :: (" #m" + digits)[i] != ' '
  {
  }

  lemma LastMark(front: string, digits: string)
    requires forall i | 0 <= i < |digits| :: IsDigit(digits[i])
    ensures LastMatch(front + (" #m" + digits), SERIAL_MARK) == |front|
  {
    hide IsDigit, LastMatch;
    var mark := " #m" + digits;
    OneSpace(digits);
    forall i | 0 < i < |mark|
      ensures !SERIAL_MARK(mark[i..] + "")
    {
      assert mark[i..] + "" == mark[i..];
      MarkOpens(mark[i..]);
    }
    MarkOpens(digits);
    assert mark + "" == mark;
    LastMatchAt(front, mark, "", SERIAL_MARK);
    NoMark();
  }

  lemma NoMark()
    ensures LastMatch("", SERIAL_MARK) < 0
  {
  }

  // ----- the printed lines -----

  /** Every flag on one line, a space in front of each. */
  function Flagged(flags: seq<string>): string {
    if flags == [] then "" else " " + OneLine(flags[0]) + Flagged(flags[1..])
  }

  lemma {:induction false} FlagTextIs(r: Fields)
    ensures FlagText(r) == Flagged(r.flags)
  {
    FlaggedJoin(r.flags);
  }

  lemma {:induction false} FlaggedJoin(flags: seq<string>)
    ensures Flagged(flags) == if flags == [] then "" else " " + Join(Flattened(flags), " ")
  {
    hide OneLine, Join;
    if |flags| == 1 {
      assert Flattened(flags) == [OneLine(flags[0])];
      JoinOfOne(OneLine(flags[0]), " ");
      assert Flagged(flags[1..]) == "";
    } else if flags != [] {
      FlaggedJoin(flags[1..]);
      assert Flattened(flags)[1..] == Flattened(flags[1..]);
      JoinStep(Flattened(flags), " ");
      assert " " + OneLine(flags[0]) + (" " + Join(Flattened(flags[1..]), " ")) == " " + (OneLine(flags[0]) + (" " + Join(Flattened(flags[1..]), " ")));
    }
  }

  lemma Regrouped(front: string, digits: string, kind: string, flags: string, body: string)
    ensures "[[" + front + (" #m" + digits) + "]]" + " " + kind + (flags + body) == "[[" + front + " #m" + digits + "]] " + kind + flags + body
  {
  }

  lemma HeadLineIs(r: Fields)
    requires Renderable(r)
    ensures HeadLine(r) == "[[" + (r.timeLabel + " " + OneLine(r.speaker)) + " #m" + Numeral(r.serial) + "]] " + r.kind + Flagged(r.flags)
                           + FirstBodyLine(r)
  {
    hide OneLine, Numeral, FlagText, Flagged, FirstBodyLine;
    FlagTextIs(r);
    Regrouped(r.timeLabel + " " + OneLine(r.speaker), Numeral(r.serial), r.kind, Flagged(r.flags), FirstBodyLine(r));
    assert LabelFront(r) == "[[" + (r.timeLabel + " " + OneLine(r.speaker));
  }

  lemma TailIs(r: Fields)
    ensures BodyTail(r) == Prefixed("> ", SplitNewline(r.body)[1..])
  {
    hide SplitNewline, Prefixed;
    NothingSplit();
    NothingPrefixed();
  }

  /** What stands on the lines of a printed record: the head, which the body's first line ends; the body's
      other lines behind `> `; the payloads, each on one line, behind their mark. */
  lemma PrintedLines(r: Fields)
    requires Renderable(r) && OnlyNewlines(r.body)
    ensures var body := SplitNewline(r.body);
            var head := "[[" + (r.timeLabel + " " + OneLine(r.speaker)) + " #m" + Numeral(r.serial) + "]] " + r.kind + Flagged(r.flags);
            Lines(FormatRecord(r))
            == [head + if r.body == "" then "" else " :: " + body[0]] + Prefixed("> ", body[1..]) + Prefixed("  · ", Flattened(r.payloads))
  {
    hide FormatRecord, Lines, OneLine, Numeral, Flagged, OnlyNewlines, SplitNewline, HeadLine, BodyTail, Prefixed, Flattened;
    FormatRecordReadsLines(r);
    HeadLineIs(r);
    TailIs(r);
  }

  lemma NothingSplit()
    ensures SplitNewline("") == [""]
  {
  }

  // ----- one record -----

  /** A record whose flags hold no pair of colons and whose head end nothing behind it repeats. */
  predicate Plain(r: Fields) {
    Renderable(r) && OnlyNewlines(r.body) && ForgedHeadEnd(r) < 0 && PlainFlags(r)
  }

  /** The text reads as this record: its serial, time and speaker, kind, the words of its flags and of its
      body, and its payloads. */
  ghost predicate ReadsAs(text: string, r: Fields) {
    var lines := Lines(text);
    && lines != []
    && var head := ParseHead(lines[0]);
    && head.Some?
    && Value(head.value.digits) == r.serial
    && LabelText(head.value.heading) == r.timeLabel + " " + OneLine(r.speaker)
    && head.value.kind == r.kind
    && Words(FlagPart(head.value.rest)) == FlattenWords(r.flags)
    && RecordBodyText(text, head.value.rest) == OneLine(r.body)
    && var payloads := PayloadText(lines[1..]);
    && |payloads| == |r.payloads| && forall i | 0 <= i < |payloads| :: payloads[i] == OneLine(r.payloads[i])
  }

  lemma RecordIsReadBack(r: Fields)
    requires Plain(r)
    ensures ReadsAs(FormatRecord(r), r)
  {
    hide FormatRecord, Label, FlagText, ParseHead, Lines, Find, Value, OnlyNewlines, ForgedHeadEnd, PlainFlags,
         RecordBodyText, LabelText, FlagPart, Words, HeadRest, HeadLine;
    FormatRecordReadsLines(r);
    HeadLineParses(r);
    ValueOfNumeral(r.serial);
    LabelIsRead(r);
    FlagsOfRest(r);
    FlagWords(r);
    BodyRoundTrip(r);
    var parts := if r.body == "" then [] else SplitNewline(r.body)[1..];
    NothingPrefixed();
    assert RecordLines(r)[1..] == Prefixed(CONTINUATION_PREFIX, parts) + Prefixed(PAYLOAD_PREFIX, Flattened(r.payloads));
    PayloadsOfLines(parts, Flattened(r.payloads));
  }

  lemma NothingPrefixed()
    ensures Prefixed(CONTINUATION_PREFIX, []) == []
  {
  }

  // ----- a turn -----

  /** Every block of a turn of plain records reads as its record, in order. */
  lemma TurnIsReadBack(rs: seq<Fields>)
    requires forall i | 0 <= i < |rs| :: Plain(rs[i])
    ensures var blocks := RecordBlocks(RenderTurn(rs));
            |blocks| == |rs| && forall i | 0 <= i < |rs| :: ReadsAs(blocks[i].text, rs[i])
  {
    hide ReadsAs, FormatRecord, RecordBlocks, RenderTurn, OnlyNewlines, PlainFlags, LastHeadEnd, HeadRest;
    TurnRoundTripIff(rs);
    forall i | 0 <= i < |rs|
      ensures Faithful(rs[i]) && ReadsAs(FormatRecord(rs[i]), rs[i])
    {
      RecordIsReadBack(rs[i]);
    }
  }

  /** The words a reader finds between the kind and the body of a block, if it is a record. */
  function BlockFlags(text: string): seq<string> {
    var lines := Lines(text);
    if lines == [] || ParseHead(lines[0]).None? then [] else Words(FlagPart(ParseHead(lines[0]).value.rest))
  }

  function FlagsIn(blocks: seq<Block>): seq<string> {
    if blocks == [] then [] else FlagsIn(blocks[..|blocks| - 1]) + BlockFlags(blocks[|blocks| - 1].text)
  }

  function FlagWordsOf(rs: seq<Fields>): seq<string> {
    if rs == [] then [] else FlagWordsOf(rs[..|rs| - 1]) + FlattenWords(rs[|rs| - 1].flags)
  }

  lemma {:induction false} FlagsInBlocks(blocks: seq<Block>, rs: seq<Fields>)
    requires |blocks| == |rs| && forall i | 0 <= i < |rs| :: ReadsAs(blocks[i].text, rs[i])
    ensures FlagsIn(blocks) == FlagWordsOf(rs)
  {
    hide RecordBodyText, FlagPart, Words, PayloadText, LabelText, ParseHead, Lines;
    if rs != [] {
      FlagsInBlocks(blocks[..|rs| - 1], rs[..|rs| - 1]);
      assert ReadsAs(blocks[|rs| - 1].text, rs[|rs| - 1]);
    }
  }

  /** The flags a reader finds in a turn's text are, word by word, those of its records in order. */
  lemma FlagsAreShown(rs: seq<Fields>)
    requires forall i | 0 <= i < |rs| :: Plain(rs[i])
    ensures FlagsIn(RecordBlocks(RenderTurn(rs))) == FlagWordsOf(rs)
  {
    hide ReadsAs, Plain, RecordBlocks, RenderTurn, FlagsIn, FlagWordsOf;
    TurnIsReadBack(rs);
    FlagsInBlocks(RecordBlocks(RenderTurn(rs)), rs);
  }
}
