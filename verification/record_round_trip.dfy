/** Printing records and parsing the text back (src/wahabot/ai/records.py). The parser finds the last
    head end of a line, so the question is always what may stand behind the printer's own; the body's
    line breaks decide which lines the parser sees at all. The result is an exact condition for a
    record, and for a whole turn, to be read back as it was printed. */
module RecordRoundTrip {
  import opened Optional
  import opened Text
  import opened Sequences
  import opened Records
  import opened BlockLaws
  import opened RecordBlockLaws

  // ----- the last head end of a line -----

  lemma TokenIsHeadEnd(digits: string, tail: string)
    requires digits != "" && forall i | 0 <= i < |digits| :: IsDigit(digits[i])
    requires tail != "" && !IsSpace(tail[0])
    ensures var t := "#m" + digits + "]] " + tail;
            IsHeadEnd(t) && HeadEndDigits(t) == digits && AfterHeadEnd(t) == tail
  {
    hide DigitRun, SpaceRun;
    DigitRunAt(digits, "]] " + tail);
    TokenSlices(digits, tail);
    SpaceBeforeWord(tail);
  }

  lemma TokenSlices(digits: string, tail: string)
    ensures var t := "#m" + digits + "]] " + tail;
            && "#m" <= t && t[2..] == digits + ("]] " + tail) && t[2..2 + |digits|] == digits
            && "]]" <= t[2 + |digits|..] && t[4 + |digits|..] == " " + tail && (" " + tail)[1..] == tail
  {
    var t := "#m" + digits + "]] " + tail;
    assert t[2 + |digits|..] == "]] " + tail;
  }

  lemma SpaceBeforeWord(tail: string)
    requires tail != "" && !IsSpace(tail[0])
    ensures SpaceRun(" " + tail) == 1
  {
    assert (" " + tail)[1] == tail[0];
    assert IsSpace((" " + tail)[0]);
  }

  /** The token the printer wrote is the one the greedy pattern finds exactly when the rest of the
      line holds no head end of its own. */
  lemma LastHeadEndAt(front: string, digits: string, tail: string)
    requires digits != "" && forall i | 0 <= i < |digits| :: IsDigit(digits[i])
    requires tail != "" && !IsSpace(tail[0])
    ensures LastHeadEnd(front + ("#m" + digits + "]] " + tail)) ==
            |front| + if LastHeadEnd(tail) < 0 then 0 else |digits| + 5 + LastHeadEnd(tail)
  {
    var inner := "#m" + digits + "]] ";
    TokenIsHeadEnd(digits, tail);
    forall i | 0 < i < |inner|
      ensures !IsHeadEnd(inner[i..] + tail)
    {
      assert (inner[i..] + tail)[0] == inner[i] != '#';
    }
    LastMatchAt(front, inner, tail, HEAD_END);
  }

  // ----- one printed record -----

  /** What the program's own callers guarantee about a record that carries a serial. */
  predicate Renderable(r: Fields) {
    r.serial > 0 && BreakFree(r.timeLabel) && IsWord(r.kind)
  }

  function FirstBodyLine(r: Fields): string {
    if r.body == "" then "" else " :: " + SplitNewline(r.body)[0]
  }

  /** Everything on the head line behind the kind. */
  function HeadRest(r: Fields): string {
    FlagText(r) + FirstBodyLine(r)
  }

  function HeadLine(r: Fields): string {
    Label(r) + " " + r.kind + HeadRest(r)
  }

  function BodyTail(r: Fields): seq<string> {
    if r.body == "" then [] else Prefixed(CONTINUATION_PREFIX, SplitNewline(r.body)[1..])
  }

  function RecordLines(r: Fields): seq<string> {
    [HeadLine(r)] + BodyTail(r) + Prefixed(PAYLOAD_PREFIX, Flattened(r.payloads))
  }

  lemma JoinPrefixed(prefix: string, first: string, rest: seq<string>, sep: string)
    ensures prefix + Join([first] + rest, sep) == Join([prefix + first] + rest, sep)
  {
    assert ([first] + rest)[1..] == rest && ([prefix + first] + rest)[1..] == rest;
    if rest != [] {
      assert prefix + (first + sep + Join(rest, sep)) == (prefix + first) + sep + Join(rest, sep);
    }
  }

  lemma BodyLine(r: Fields)
    ensures var head := Label(r) + " " + r.kind + FlagText(r);
            (if r.body == "" then head else head + " :: " + EscapeBody(r.body)) == Join([HeadLine(r)] + BodyTail(r), "\n")
  {
    var front := Label(r) + " " + r.kind;
    var head := front + FlagText(r);
    if r.body == "" {
      assert HeadLine(r) == front + (FlagText(r) + "") == head;
      assert [HeadLine(r)] + BodyTail(r) == [head];
    } else {
      var ls := SplitNewline(r.body);
      JoinPrefixed(head + " :: ", ls[0], BodyTail(r), "\n");
      Assoc(front, FlagText(r), " :: ", ls[0]);
    }
  }

  lemma Assoc(a: string, b: string, c: string, d: string)
    ensures a + b + c + d == a + (b + (c + d))
  {
  }

  lemma FormatRecordLines(r: Fields)
    ensures FormatRecord(r) == Join(RecordLines(r), "\n")
  {
    BodyLine(r);
    var line := Join([HeadLine(r)] + BodyTail(r), "\n");
    var payloads := Prefixed(PAYLOAD_PREFIX, Flattened(r.payloads));
    if r.payloads == [] {
      assert RecordLines(r) == [HeadLine(r)] + BodyTail(r);
    } else {
      JoinAppend([HeadLine(r)] + BodyTail(r), payloads, "\n");
      JoinAppend([line], payloads, "\n");
    }
  }

  lemma Regroup(front: string, digits: string, kind: string, rest: string)
    ensures front + (" #m" + digits) + "]]" + " " + kind + rest == (front + " ") + ("#m" + digits + "]] " + (kind + rest))
    ensures |front + (" #m" + digits) + "]]"| == |front| + |digits| + 5
    ensures ((front + " ") + ("#m" + digits + "]] " + (kind + rest)))[..|front| + |digits| + 5] == front + (" #m" + digits) + "]]"
  {
  }

  lemma HeadLineParts(r: Fields)
    requires Renderable(r)
    ensures HeadLine(r) == (LabelFront(r) + " ") + ("#m" + Numeral(r.serial) + "]] " + (r.kind + HeadRest(r)))
  {
    Regroup(LabelFront(r), Numeral(r.serial), r.kind, HeadRest(r));
  }

  /** The head end that the kind, flags or first body line forge, if any. */
  function ForgedHeadEnd(r: Fields): int {
    LastHeadEnd(r.kind + HeadRest(r))
  }

  lemma HeadLineEnd(r: Fields)
    requires Renderable(r)
    ensures LastHeadEnd(HeadLine(r)) ==
            |LabelFront(r)| + 1 + if ForgedHeadEnd(r) < 0 then 0 else |Numeral(r.serial)| + 5 + ForgedHeadEnd(r)
    ensures "[[" <= HeadLine(r)
  {
    HeadLineParts(r);
    LastHeadEndAt(LabelFront(r) + " ", Numeral(r.serial), r.kind + HeadRest(r));
  }

  lemma DropFront(a: string, b: string)
    ensures (a + b)[|a|..] == b && (a + b)[..|a|] == a
  {
  }

  lemma SuffixOfConcat(a: string, b: string, i: nat)
    requires i <= |b|
    ensures (a + b)[|a| + i..] == b[i..]
  {
  }

  lemma ParseHeadIs(line: string, p: nat)
    requires "[[" <= line && LastHeadEnd(line) == p
    ensures ParseHead(line) == Some(HeadAt(line, p))
  {
  }

  lemma ParseInTail(line: string, front: string, tail: string)
    requires line == front + tail && "[[" <= line
    requires LastHeadEnd(tail) >= 0 && LastHeadEnd(line) == |front| + LastHeadEnd(tail)
    ensures ParseHead(line).Some?
    ensures ParseHead(line).value.digits == HeadEndDigits(tail[LastHeadEnd(tail)..])
  {
    assert line[LastHeadEnd(line)..] == tail[LastHeadEnd(tail)..];
  }

  lemma HeadAtParts(line: string, p: nat, own: string, digits: string, tail: string, kind: string, rest: string)
    requires p <= |line| && IsHeadEnd(line[p..])
    requires HeadEndDigits(line[p..]) == digits && AfterHeadEnd(line[p..]) == tail
    requires WordRun(tail) == |kind| && tail[..|kind|] == kind && tail[|kind|..] == rest
    requires p + 4 + |digits| <= |line| && line[..p + 4 + |digits|] == own
    ensures HeadAt(line, p) == Head(own, digits, kind, rest)
  {
  }

  lemma ParseOwnToken(line: string, front: string, digits: string, kind: string, rest: string)
    requires digits != "" && forall i | 0 <= i < |digits| :: IsDigit(digits[i])
    requires "[[" <= front && IsWord(kind) && LastHeadEnd(kind + rest) < 0
    requires rest == "" || IsSpace(rest[0])
    requires line == front + (" #m" + digits) + "]]" + " " + kind + rest
    ensures ParseHead(line) == Some(Head(front + (" #m" + digits) + "]]", digits, kind, rest))
  {
    hide LastHeadEnd, IsHeadEnd, DigitRun, WordRun, SpaceRun, HeadEndDigits, AfterHeadEnd, HeadAt, ParseHead, LastMatch;
    Regroup(front, digits, kind, rest);
    var own, tail := front + (" #m" + digits) + "]]", kind + rest;
    LastHeadEndAt(front + " ", digits, tail);
    DropFront(front + " ", "#m" + digits + "]] " + tail);
    TokenIsHeadEnd(digits, tail);
    WordRunConcat(kind, rest);
    DropFront(kind, rest);
    assert "[[" <= line;
    HeadAtParts(line, |front| + 1, own, digits, tail, kind, rest);
    ParseHeadIs(line, |front| + 1);
  }

  /** Without a forged head end the parser sees the printer's own label, serial, kind and rest. */
  lemma HeadLineParses(r: Fields)
    requires Renderable(r) && ForgedHeadEnd(r) < 0
    ensures ParseHead(HeadLine(r)) == Some(Head(Label(r), Numeral(r.serial), r.kind, HeadRest(r)))
  {
    ParseOwnToken(HeadLine(r), LabelFront(r), Numeral(r.serial), r.kind, HeadRest(r));
  }

  /** A head end in the tail takes the serial over. */
  lemma ForgedHeadParses(r: Fields)
    requires Renderable(r) && ForgedHeadEnd(r) >= 0
    ensures var p := ParseHead(HeadLine(r));
            p.Some? && p.value.digits == HeadEndDigits((r.kind + HeadRest(r))[ForgedHeadEnd(r)..])
  {
    HeadLineEnd(r);
    HeadLineParts(r);
    var inner, tail := "#m" + Numeral(r.serial) + "]] ", r.kind + HeadRest(r);
    AssocRight(LabelFront(r) + " ", inner, tail);
    ParseInTail(HeadLine(r), (LabelFront(r) + " ") + inner, tail);
  }

  lemma AssocRight(a: string, b: string, c: string)
    ensures a + (b + c) == (a + b) + c
  {
  }

  /** The record parses with its own serial: nothing behind the label passes for a later head end,
      unless it names the same serial. */
  predicate KeepsSerial(r: Fields) {
    var tail := r.kind + HeadRest(r);
    LastHeadEnd(tail) < 0 || Value(HeadEndDigits(tail[LastHeadEnd(tail)..])) == r.serial
  }

  lemma KeepsSerialIff(r: Fields)
    requires Renderable(r)
    ensures ParseHead(HeadLine(r)).Some?
    ensures LineSerial(HeadLine(r)) == r.serial <==> KeepsSerial(r)
  {
    ValueOfNumeral(r.serial);
    if ForgedHeadEnd(r) < 0 {
      HeadLineParses(r);
    } else {
      ForgedHeadParses(r);
    }
  }

  function RecordBlock(r: Fields): Block {
    Block(r.serial, FormatRecord(r))
  }

  lemma LabelBreakFree(r: Fields)
    requires BreakFree(r.timeLabel)
    ensures BreakFree(Label(r))
  {
    OneLineFacts(r.speaker);
    NumeralBreakFree(r.serial);
  }

  lemma FlagTextBreakFree(r: Fields)
    ensures BreakFree(FlagText(r))
  {
    if r.flags != [] {
      JoinFlattenedBreakFree(r.flags);
    }
  }

  lemma {:induction false} JoinFlattenedBreakFree(items: seq<string>)
    ensures BreakFree(Join(Flattened(items), " "))
  {
    if items != [] {
      OneLineFacts(items[0]);
      JoinFlattenedBreakFree(items[1..]);
      assert Flattened(items)[1..] == Flattened(items[1..]);
    }
  }

  predicate AllBreakFree(lines: seq<string>) {
    forall i | 0 <= i < |lines| :: BreakFree(lines[i])
  }

  lemma AllBreakFreeCons(line: string, lines: seq<string>)
    ensures AllBreakFree([line] + lines) <==> BreakFree(line) && AllBreakFree(lines)
  {
    var all := [line] + lines;
    assert all[0] == line;
    assert forall i | 0 <= i < |lines| :: lines[i] == all[i + 1];
  }

  lemma OnlyNewlinesCons(s: string)
    requires s != ""
    ensures OnlyNewlines(s) <==> (IsBreak(s[0]) ==> s[0] == '\n') && OnlyNewlines(s[1..])
  {
    assert forall i | 0 <= i < |s| - 1 :: s[1..][i] == s[i + 1];
  }

  /** Splitting at line feeds leaves break-free parts exactly when there is no other break. */
  lemma {:induction false} SplitBreakFreeIff(s: string)
    ensures OnlyNewlines(s) <==> AllBreakFree(SplitNewline(s))
    decreases |s|
  {
    if s != "" {
      var rest := SplitNewline(s[1..]);
      SplitBreakFreeIff(s[1..]);
      OnlyNewlinesCons(s);
      assert rest == [rest[0]] + rest[1..];
      AllBreakFreeCons(rest[0], rest[1..]);
      if s[0] == '\n' {
        AllBreakFreeCons("", rest);
      } else {
        AllBreakFreeCons([s[0]] + rest[0], rest[1..]);
        BreakFreeConcat([s[0]], rest[0]);
        assert BreakFree([s[0]]) <==> !IsBreak([s[0]][0]);
      }
    }
  }

  lemma PrefixedBreakFreeIff(prefix: string, lines: seq<string>)
    requires BreakFree(prefix)
    ensures AllBreakFree(Prefixed(prefix, lines)) <==> AllBreakFree(lines)
  {
    forall i | 0 <= i < |lines|
      ensures BreakFree(Prefixed(prefix, lines)[i]) <==> BreakFree(lines[i])
    {
      BreakFreeConcat(prefix, lines[i]);
    }
  }

  lemma KindBreakFree(r: Fields)
    requires Renderable(r)
    ensures BreakFree(r.kind)
  {
    assert forall c | IsBreak(c) :: IsSpace(c);
  }

  lemma LiteralsBreakFree()
    ensures BreakFree("") && BreakFree(" ") && BreakFree(" :: ") && BreakFree(CONTINUATION_PREFIX) && OnlyNewlines("")
  {
  }

  /** The head line and the body's further lines are break-free exactly when the body only uses
      line feeds. */
  lemma BodyLinesBreakFreeIff(r: Fields)
    requires Renderable(r)
    ensures BreakFree(HeadLine(r)) && AllBreakFree(BodyTail(r)) <==> OnlyNewlines(r.body)
  {
    hide BreakFree, OnlyNewlines, SplitNewline, Label, FlagText, Prefixed;
    LabelBreakFree(r);
    FlagTextBreakFree(r);
    KindBreakFree(r);
    LiteralsBreakFree();
    BreakFreeConcat(Label(r) + " " + r.kind, HeadRest(r));
    BreakFreeConcat(Label(r) + " ", r.kind);
    BreakFreeConcat(Label(r), " ");
    BreakFreeConcat(FlagText(r), FirstBodyLine(r));
    if r.body != "" {
      var ls := SplitNewline(r.body);
      SplitBreakFreeIff(r.body);
      BreakFreeConcat(" :: ", ls[0]);
      PrefixedBreakFreeIff(CONTINUATION_PREFIX, ls[1..]);
      AllBreakFreeCons(ls[0], ls[1..]);
      assert ls == [ls[0]] + ls[1..];
    }
  }

  lemma PayloadLinesBreakFree(r: Fields)
    ensures AllBreakFree(Prefixed(PAYLOAD_PREFIX, Flattened(r.payloads)))
  {
    forall i | 0 <= i < |r.payloads|
      ensures BreakFree(Flattened(r.payloads)[i])
    {
      OneLineFacts(r.payloads[i]);
    }
    PrefixedBreakFreeIff(PAYLOAD_PREFIX, Flattened(r.payloads));
  }

  lemma RecordTailLines(r: Fields)
    ensures forall i | 1 <= i < |RecordLines(r)| :: IsTailLine(RecordLines(r)[i])
  {
  }

  lemma RecordLinesBreakFreeIff(r: Fields)
    requires Renderable(r)
    ensures AllBreakFree(RecordLines(r)) <==> OnlyNewlines(r.body)
  {
    BodyLinesBreakFreeIff(r);
    PayloadLinesBreakFree(r);
    var payloads := Prefixed(PAYLOAD_PREFIX, Flattened(r.payloads));
    AllBreakFreeCons(HeadLine(r), BodyTail(r) + payloads);
    AllBreakFreeConcat(BodyTail(r), payloads);
    assert RecordLines(r) == [HeadLine(r)] + (BodyTail(r) + payloads);
  }

  lemma AllBreakFreeConcat(a: seq<string>, b: seq<string>)
    ensures AllBreakFree(a + b) <==> AllBreakFree(a) && AllBreakFree(b)
  {
    assert forall i | 0 <= i < |a| :: a[i] == (a + b)[i];
    assert forall i | 0 <= i < |b| :: b[i] == (a + b)[|a| + i];
  }

  predicate AllNewlineFree(lines: seq<string>) {
    forall i | 0 <= i < |lines| :: NewlineFree(lines[i])
  }

  lemma BreakFreeIsNewlineFree(lines: seq<string>)
    requires AllBreakFree(lines)
    ensures AllNewlineFree(lines)
  {
    forall i | 0 <= i < |lines|
      ensures NewlineFree(lines[i])
    {
      NoNewlineIn(lines[i]);
    }
  }

  lemma HeadLineNewlineFree(r: Fields)
    requires Renderable(r)
    ensures NewlineFree(HeadLine(r))
  {
    hide Label, FlagText, FirstBodyLine, BreakFree, NewlineFree, IsWord;
    LabelBreakFree(r);
    FlagTextBreakFree(r);
    NoNewlineIn(Label(r));
    NoNewlineIn(FlagText(r));
    WordIsNewlineFree(r.kind);
    FirstBodyLineNewlineFree(r);
    NewlineFreeConcat(Label(r) + " ", r.kind);
    NewlineFreeConcat(Label(r), " ");
    NewlineFreeConcat(Label(r) + " " + r.kind, HeadRest(r));
    NewlineFreeConcat(FlagText(r), FirstBodyLine(r));
    SpaceIsNewlineFree();
  }

  lemma SpaceIsNewlineFree()
    ensures NewlineFree(" ")
  {
  }

  lemma WordIsNewlineFree(w: string)
    requires IsWord(w)
    ensures NewlineFree(w)
  {
    assert IsSpace('\n');
  }

  lemma NewlineFreeConcat(a: string, b: string)
    requires NewlineFree(a) && NewlineFree(b)
    ensures NewlineFree(a + b)
  {
  }

  lemma FirstBodyLineNewlineFree(r: Fields)
    ensures NewlineFree(FirstBodyLine(r))
  {
    if r.body != "" {
      JoinOfSplit(r.body);
      NewlineFreeConcat(" :: ", SplitNewline(r.body)[0]);
    }
  }

  lemma RecordLinesNewlineFree(r: Fields)
    requires Renderable(r)
    ensures AllNewlineFree(RecordLines(r))
  {
    HeadLineNewlineFree(r);
    PayloadLinesBreakFree(r);
    BreakFreeIsNewlineFree(Prefixed(PAYLOAD_PREFIX, Flattened(r.payloads)));
    assert AllNewlineFree(BodyTail(r));
  }

  /** A printed record is split at line feeds into exactly its lines. */
  lemma RecordBlockLines(r: Fields)
    requires Renderable(r)
    ensures BlockLines(RecordBlock(r)) == RecordLines(r)
  {
    FormatRecordLines(r);
    RecordLinesNewlineFree(r);
    SplitOfJoin(RecordLines(r));
  }

  /** A record survives the round trip exactly when line feeds are the body's only line breaks and
      nothing behind its label forges a head end with another serial. */
  predicate Faithful(r: Fields) {
    OnlyNewlines(r.body) && KeepsSerial(r)
  }

  lemma RecordWellFormedIff(r: Fields)
    requires Renderable(r)
    ensures WellFormed(RecordBlock(r), GRAMMAR) <==> Faithful(r)
    ensures !IsTailLine(BlockLines(RecordBlock(r))[0])
    ensures LastLine(RecordBlock(r)) != ""
  {
    hide FormatRecord, ParseHead, HeadLine, LastHeadEnd, Prefixed, Flattened, BodyTail, LineSerial, LedgerSerial, OnlyNewlines, Label, FlagText;
    RecordBlockLines(r);
    RecordLinesBreakFreeIff(r);
    RecordTailLines(r);
    KeepsSerialIff(r);
    HeadLineEnd(r);
    if IsTailLine(HeadLine(r)) {
      TailLineOpensNothing(HeadLine(r));
    }
    assert GRAMMAR.serialOf(RecordLines(r)[0]) == LineSerial(HeadLine(r));
    assert forall i | 1 <= i < |RecordLines(r)| :: GRAMMAR.isTail(RecordLines(r)[i]) == IsTailLine(RecordLines(r)[i]);
  }

  function RecordBlockList(rs: seq<Fields>): (bs: seq<Block>)
    ensures |bs| == |rs| && forall i | 0 <= i < |rs| :: bs[i] == RecordBlock(rs[i])
  {
    seq(|rs|, i requires 0 <= i < |rs| => RecordBlock(rs[i]))
  }

  /** Printing any list of records and parsing the turn gives back exactly those records, in order,
      with their serials, if and only if every one of them is faithful. */
  lemma TurnRoundTripIff(rs: seq<Fields>)
    requires forall i | 0 <= i < |rs| :: Renderable(rs[i])
    ensures RecordBlocks(RenderTurn(rs)) == RecordBlockList(rs) <==> forall i | 0 <= i < |rs| :: Faithful(rs[i])
  {
    hide FormatRecord, Faithful, Renderable, BlocksOf, Lines, Join, LastLine;
    var bs := RecordBlockList(rs);
    assert Texts(bs) == Printed(rs);
    forall i | 0 <= i < |rs|
      ensures WellFormed(bs[i], GRAMMAR) <==> Faithful(rs[i])
      ensures !GRAMMAR.isTail(BlockLines(bs[i])[0]) && LastLine(bs[i]) != ""
    {
      RecordWellFormedIff(rs[i]);
    }
    if forall i | 0 <= i < |rs| :: Faithful(rs[i]) {
      ReparseJoined(bs);
    }
    if RecordBlocks(RenderTurn(rs)) == bs {
      RecordBlocksLossless(RenderTurn(rs));
      forall i | 0 <= i < |rs|
        ensures Faithful(rs[i])
      {
        assert WellFormed(bs[i], GRAMMAR);
      }
    }
  }

  lemma TokenBreakFree(n: nat, word: string)
    requires IsWord(word)
    ensures BreakFree("#m" + Numeral(n) + "]] " + word)
  {
    assert BreakFree(word) by {
      assert forall c | IsBreak(c) :: IsSpace(c);
    }
    NumeralBreakFree(n);
    BreakFreeConcat("#m", Numeral(n));
    BreakFreeConcat("#m" + Numeral(n), "]] ");
    BreakFreeConcat("#m" + Numeral(n) + "]] ", word);
  }

  /** A member's first line that ends in `#m<n>]] word` takes the record's serial over. */
  lemma BodyForgesSerial(r: Fields, said: string, n: nat, word: string)
    requires Renderable(r) && r.flags == [] && n != r.serial
    requires IsWord(word) && LastHeadEnd(word) < 0
    requires BreakFree(said) && r.body == said + ("#m" + Numeral(n) + "]] " + word)
    ensures OnlyNewlines(r.body) && !Faithful(r)
  {
    TokenBreakFree(n, word);
    NoNewlineIn(said);
    var token := "#m" + Numeral(n) + "]] " + word;
    var tail := r.kind + HeadRest(r);
    BreakFreeConcat(said, token);
    NoNewlineIn(r.body);
    SplitOfFirst(r.body, "");
    assert r.body + "" == r.body;
    Assoc4(r.kind, said, token);
    LastHeadEndAt(r.kind + " :: " + said, Numeral(n), word);
    DropFront(r.kind + " :: " + said, token);
    TokenIsHeadEnd(Numeral(n), word);
    ValueOfNumeral(n);
  }

  lemma Assoc4(kind: string, said: string, token: string)
    ensures kind + ("" + (" :: " + (said + token))) == (kind + " :: " + said) + token
  {
  }

  lemma PlainWord()
    ensures LastHeadEnd("x") < 0 && IsWord("x")
  {
    assert "x"[1..] == "" && !IsHeadEnd("x");
  }

  /** So the grammar's promise that a first body line cannot fake an envelope does not hold. */
  lemma BodyCanForgeSerial()
    ensures exists r: Fields :: Renderable(r) && OnlyNewlines(r.body) && !Faithful(r)
  {
    hide LastHeadEnd, IsHeadEnd, Faithful, OnlyNewlines, Numeral, IsWord;
    var word := "x";
    PlainWord();
    var r := Fields("", "", 42, word, [], "" + ("#m" + Numeral(9) + "]] " + word), []);
    BodyForgesSerial(r, "", 9, word);
  }

  /** A carriage return in a body is a line break to the parser but not to the escape. */
  lemma CarriageReturnBreaksRecord(r: Fields)
    requires Renderable(r) && exists i :: 0 <= i < |r.body| && r.body[i] == '\r'
    ensures RecordBlocks(RenderTurn([r])) != [RecordBlock(r)]
  {
    TurnRoundTripIff([r]);
    assert RecordBlockList([r]) == [RecordBlock(r)];
    var i :| 0 <= i < |r.body| && r.body[i] == '\r';
    assert !OnlyNewlines(r.body);
    assert !Faithful([r][0]);
  }

  // ----- the serials of a turn -----

  lemma {:induction false} SerialsOfConcat(a: seq<string>, b: seq<string>)
    ensures SerialsOf(a + b) == SerialsOf(a) + SerialsOf(b)
  {
    if b == [] {
      assert a + b == a;
    } else {
      SerialsOfConcat(a, b[..|b| - 1]);
      assert (a + b)[..|a + b| - 1] == a + b[..|b| - 1];
    }
  }

  lemma {:induction false} SerialsOfTail(lines: seq<string>)
    requires forall i | 0 <= i < |lines| :: IsTailLine(lines[i])
    ensures SerialsOf(lines) == []
  {
    if lines != [] {
      SerialsOfTail(lines[..|lines| - 1]);
      TailLineOpensNothing(lines[|lines| - 1]);
    }
  }

  function SerialList(rs: seq<Fields>): (s: seq<nat>)
    ensures |s| == |rs| && forall i | 0 <= i < |rs| :: s[i] == rs[i].serial
  {
    seq(|rs|, i requires 0 <= i < |rs| => rs[i].serial)
  }

  lemma RecordSerialsOf(r: Fields)
    requires Renderable(r) && Faithful(r)
    ensures SerialsOf(RecordLines(r)) == [r.serial]
  {
    hide FormatRecord, ParseHead, KeepsSerial, HeadLine, LastHeadEnd, Prefixed, Flattened, BodyTail, IsTailLine;
    var lines := RecordLines(r);
    KeepsSerialIff(r);
    RecordTailLines(r);
    assert lines == [HeadLine(r)] + lines[1..];
    SerialsOfConcat([HeadLine(r)], lines[1..]);
    SerialsOfTail(lines[1..]);
    assert [HeadLine(r)][..0] == [];
    assert SerialsOf([HeadLine(r)]) == [] + [r.serial];
  }

  lemma SerialsOfNone()
    ensures SerialsOf(AllLines(RecordBlockList([]))) == []
  {
  }

  lemma {:induction false} SerialsOfBlocks(rs: seq<Fields>)
    requires forall i | 0 <= i < |rs| :: Renderable(rs[i]) && Faithful(rs[i])
    ensures SerialsOf(AllLines(RecordBlockList(rs))) == SerialList(rs)
  {
    hide *;
    if rs == [] {
      SerialsOfNone();
    } else {
      var init, r := rs[..|rs| - 1], rs[|rs| - 1];
      SerialsOfBlocks(init);
      SerialsOfOneMore(RecordBlockList(init), r);
      assert RecordBlockList(rs) == RecordBlockList(init) + [RecordBlock(r)];
      assert SerialList(rs) == SerialList(init) + [r.serial];
    }
  }

  lemma SerialsOfOneMore(blocks: seq<Block>, r: Fields)
    requires Renderable(r) && Faithful(r)
    ensures SerialsOf(AllLines(blocks + [RecordBlock(r)])) == SerialsOf(AllLines(blocks)) + [r.serial]
  {
    AllLinesSnoc(blocks, RecordBlock(r));
    RecordBlockLines(r);
    SerialsOfConcat(AllLines(blocks), RecordLines(r));
    RecordSerialsOf(r);
  }

  /** Every record of a faithful turn is counted once, in order, with its own serial. */
  lemma TurnSerials(rs: seq<Fields>)
    requires forall i | 0 <= i < |rs| :: Renderable(rs[i]) && Faithful(rs[i])
    ensures SerialsOf(Lines(RenderTurn(rs))) == SerialList(rs)
  {
    TurnRoundTripIff(rs);
    RecordBlocksLossless(RenderTurn(rs));
    SerialsOfBlocks(rs);
  }

  // ----- the body of a record -----

  /** No flag holds a pair of colons, so the body's separator is the first of its kind. */
  predicate PlainFlags(r: Fields) {
    Find(FlagText(r), "::") < 0
  }

  lemma SeparatorHoldsPair(flags: string, rest: string, j: nat)
    requires j < |flags| && (rest == "" || " :: " <= rest)
    ensures OccursAt(flags + rest, " :: ", j) ==> OccursAt(flags, "::", j + 1)
  {
    var s := flags + rest;
    if OccursAt(s, " :: ", j) {
      assert s[j + 1] == s[j..][1] && s[j + 2] == s[j..][2];
    }
  }

  /** The first separator behind the flags is the printer's own, if it wrote one. */
  lemma SeparatorAt(flags: string, rest: string)
    requires Find(flags, "::") < 0 && (rest == "" || " :: " <= rest)
    ensures Find(flags + rest, " :: ") == if rest == "" then -1 else |flags|
  {
    DropFront(flags, rest);
    forall j | 0 <= j < |flags|
      ensures !OccursAt(flags + rest, " :: ", j)
    {
      SeparatorHoldsPair(flags, rest, j);
      assert !OccursAt(flags, "::", j + 1);
    }
    assert OccursAt(flags + rest, " :: ", |flags|) <==> rest != "";
  }

  lemma {:induction false} ContinuationOfLines(body: seq<string>, payloads: seq<string>)
    ensures ContinuationText(Prefixed(CONTINUATION_PREFIX, body) + Prefixed(PAYLOAD_PREFIX, payloads)) == body
    decreases |body| + |payloads|
  {
    var bs, ps := Prefixed(CONTINUATION_PREFIX, body), Prefixed(PAYLOAD_PREFIX, payloads);
    if body != [] {
      ContinuationOfLines(body[1..], payloads);
      assert bs[1..] == Prefixed(CONTINUATION_PREFIX, body[1..]);
      assert (bs + ps)[0] == CONTINUATION_PREFIX + body[0] && (bs + ps)[1..] == bs[1..] + ps;
      assert (CONTINUATION_PREFIX + body[0])[2..] == body[0];
    } else if payloads != [] {
      ContinuationOfLines([], payloads[1..]);
      assert ps[1..] == Prefixed(PAYLOAD_PREFIX, payloads[1..]);
      assert bs + ps == ps && Prefixed(CONTINUATION_PREFIX, []) + ps[1..] == ps[1..];
      assert ps[0][0] == ' ';
    }
  }

  lemma FormatRecordReadsLines(r: Fields)
    requires Renderable(r) && OnlyNewlines(r.body)
    ensures Lines(FormatRecord(r)) == RecordLines(r)
  {
    FormatRecordLines(r);
    RecordLinesBreakFreeIff(r);
    RecordWellFormedIff(r);
    RecordBlockLines(r);
    assert forall l | l in RecordLines(r) :: BreakFree(l);
    LinesOfJoin(RecordLines(r));
  }

  lemma WordsOfBody(body: string)
    ensures Words(Join(SplitNewline(body), " ")) == Words(body)
  {
    var parts := SplitNewline(body);
    WordsOfJoin(parts, " ");
    WordsOfJoin(parts, "\n");
    JoinOfSplit(body);
  }

  lemma BodyTextOf(r: Fields)
    requires Renderable(r) && OnlyNewlines(r.body) && PlainFlags(r)
    ensures RecordBodyText(FormatRecord(r), HeadRest(r)) == OneLine(r.body)
  {
    hide FormatRecord, HeadLine, LastHeadEnd, Label, FlagText, Find, ParseHead, Lines;
    FormatRecordReadsLines(r);
    SeparatorAt(FlagText(r), FirstBodyLine(r));
    if r.body != "" {
      var parts := SplitNewline(r.body);
      SuffixOfConcat(FlagText(r), FirstBodyLine(r), 4);
      DropFront(" :: ", parts[0]);
      assert RecordLines(r)[1..] == BodyTail(r) + Prefixed(PAYLOAD_PREFIX, Flattened(r.payloads));
      ContinuationOfLines(parts[1..], Flattened(r.payloads));
      assert [parts[0]] + parts[1..] == parts;
      WordsOfBody(r.body);
    }
  }

  /** Reading a printed record back recovers the kind and the words of the body, whole and in order. */
  lemma BodyRoundTrip(r: Fields)
    requires Renderable(r) && OnlyNewlines(r.body) && ForgedHeadEnd(r) < 0 && PlainFlags(r)
    ensures Lines(FormatRecord(r)) != []
    ensures var head := ParseHead(Lines(FormatRecord(r))[0]);
            && head.Some? && head.value.kind == r.kind
            && RecordBodyText(FormatRecord(r), head.value.rest) == OneLine(r.body)
  {
    FormatRecordReadsLines(r);
    HeadLineParses(r);
    BodyTextOf(r);
  }
}
