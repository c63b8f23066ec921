/** What the ledger says of a printed record (src/wahabot/ai/records.py, record_to_ledger). */
module LedgerReading {
  import opened Optional
  import opened Text
  import opened Sequences
  import opened Records
  import opened BlockLaws
  import opened RecordBlockLaws
  import opened RecordRoundTrip
  import opened RecordReading
  import opened RecordLedger

  // ----- one line -----

  /** A given gist on one line, or the mechanical one of the record's body. */
  function GistOf(r: Fields, gist: string): string {
    if OneLine(gist) != "" then OneLine(gist) else MechanicalGist(OneLine(r.body), r.kind, FormatRecord(r))
  }

  function LedgerLine(r: Fields, gist: string): string {
    r.timeLabel + " " + OneLine(r.speaker) + " " + GistOf(r, gist) + " — #m" + Numeral(r.serial)
  }

  lemma HasSpace(a: string, b: string)
    ensures Find(a + " " + b, " ") >= 0
  {
    var s := a + " " + b;
    assert s[|a|..][0] == ' ';
    assert OccursAt(s, " ", |a|);
  }

  /** The line of a plain record: its time, its speaker, the gist and its serial. */
  lemma LedgerLineSays(r: Fields, gist: string)
    requires Plain(r)
    ensures Lines(FormatRecord(r)) != []
    ensures RecordToLedger(FormatRecord(r), gist) == Some(LedgerLine(r, gist))
  {
    hide FormatRecord, Label, ParseHead, Lines, Find, HeadRest, OnlyNewlines, ForgedHeadEnd, PlainFlags,
         RecordBodyText, LabelText, MechanicalGist, OneLine, Partition, Numeral, HeadLine;
    FormatRecordReadsLines(r);
    HeadLineParses(r);
    LabelIsRead(r);
    BodyTextOf(r);
    var left, words := r.timeLabel + " " + OneLine(r.speaker), GistOf(r, gist);
    RejoinPartition(left, words);
    HasSpace(r.timeLabel, OneLine(r.speaker));
    assert LedgerRest(left, words) == words;
    TokenText(left + " " + words, Numeral(r.serial));
  }

  lemma TokenText(front: string, digits: string)
    ensures front + LEDGER_TOKEN + digits == front + " — #m" + digits
  {
  }

  /** The mechanical gist of words: the first eight, with an ellipsis when there are more, cut at 120
      characters; of a link and of an empty body a phrase. */
  lemma MechanicalGistIs(body: string, kind: string, block: string)
    requires kind != "reaction"
    ensures var words, g := Words(body), MechanicalGist(body, kind, block);
            if "http://" <= OneLine(body) || "https://" <= OneLine(body) then g == "shared a link"
            else if words == [] then g == KindGist(kind)
            else
              var said := if |words| <= 8 then Join(words, " ") else Join(words[..8], " ") + "…";
              g == if |said| <= 120 then said else said[..120]
  {
    hide Words, Join, KindGist;
    OneLineFacts(body);
  }

  /** The first payload that names what was reacted to. */
  function FirstTarget(payloads: seq<string>): string {
    if payloads == [] then "" else if "to: " <= OneLine(payloads[0]) then OneLine(payloads[0]) else FirstTarget(payloads[1..])
  }

  lemma TargetStep(line: string, rest: seq<string>)
    ensures ReactionTarget([line] + rest) ==
            if PAYLOAD_PREFIX <= line && "to: " <= line[|PAYLOAD_PREFIX|..] then line[|PAYLOAD_PREFIX|..] else ReactionTarget(rest)
  {
    assert ([line] + rest)[1..] == rest;
  }

  lemma FlattenedStep(items: seq<string>)
    requires items != []
    ensures Flattened(items) == [OneLine(items[0])] + Flattened(items[1..])
  {
    hide OneLine;
  }

  lemma {:induction false} TargetOfLines(body: seq<string>, payloads: seq<string>)
    ensures ReactionTarget(Prefixed(CONTINUATION_PREFIX, body) + Prefixed(PAYLOAD_PREFIX, Flattened(payloads))) == FirstTarget(payloads)
    decreases |body| + |payloads|
  {
    hide Prefixed, ReactionTarget, OneLine, Flattened;
    var bs, ps := Prefixed(CONTINUATION_PREFIX, body), Prefixed(PAYLOAD_PREFIX, Flattened(payloads));
    if body != [] {
      TargetOfLines(body[1..], payloads);
      PrefixedStep(CONTINUATION_PREFIX, body);
      PayloadOpens(body[0]);
      TargetStep(bs[0], Prefixed(CONTINUATION_PREFIX, body[1..]) + ps);
      assert bs + ps == [bs[0]] + (Prefixed(CONTINUATION_PREFIX, body[1..]) + ps);
    } else if payloads != [] {
      TargetOfLines([], payloads[1..]);
      FlattenedStep(payloads);
      PrefixedStep(PAYLOAD_PREFIX, Flattened(payloads));
      PayloadOpens(OneLine(payloads[0]));
      var rest := Prefixed(PAYLOAD_PREFIX, Flattened(payloads[1..]));
      NothingPrefixed();
      TargetStep(ps[0], rest);
      assert Flattened(payloads)[1..] == Flattened(payloads[1..]);
      assert bs + ps == [ps[0]] + rest && Prefixed(CONTINUATION_PREFIX, []) + rest == rest;
    } else {
      NothingPrefixed();
      NoTarget();
      assert bs + ps == [];
    }
  }

  lemma NoTarget()
    ensures ReactionTarget([]) == "" && Prefixed(PAYLOAD_PREFIX, Flattened([])) == []
  {
    assert Flattened([]) == [];
  }

  lemma HeadIsNoPayload(r: Fields)
    ensures !(PAYLOAD_PREFIX <= HeadLine(r))
  {
    hide OneLine, FlagText, Numeral;
    assert HeadLine(r)[0] == '[';
  }

  /** A reaction's gist says what was reacted with, and to what when a payload names it. */
  lemma ReactionGistIs(r: Fields)
    requires Plain(r) && r.kind == "reaction"
    ensures var said, target := if OneLine(r.body) == "" then "to a message" else OneLine(r.body), FirstTarget(r.payloads);
            var full := if target == "" then "reacted " + said else "reacted " + said + " " + target;
            MechanicalGist(OneLine(r.body), r.kind, FormatRecord(r)) == if |full| <= 120 then full else full[..120]
  {
    hide FormatRecord, Lines, HeadLine, OnlyNewlines, ForgedHeadEnd, PlainFlags, OneLine, ReactionTarget, Strip, FirstTarget;
    FormatRecordReadsLines(r);
    HeadIsNoPayload(r);
    var parts := if r.body == "" then [] else SplitNewline(r.body)[1..];
    NothingPrefixed();
    var tail := Prefixed(CONTINUATION_PREFIX, parts) + Prefixed(PAYLOAD_PREFIX, Flattened(r.payloads));
    TargetOfLines(parts, r.payloads);
    assert RecordLines(r) == [HeadLine(r)] + tail;
    TargetBehindHead(HeadLine(r), tail);
    OneLineFacts(r.body);
    TargetShape(r.payloads);
    StripSaid(if OneLine(r.body) == "" then "to a message" else OneLine(r.body), FirstTarget(r.payloads));
  }

  lemma TargetBehindHead(head: string, tail: seq<string>)
    requires !(PAYLOAD_PREFIX <= head)
    ensures ReactionTarget([head] + tail) == ReactionTarget(tail)
  {
    assert ([head] + tail)[1..] == tail;
  }

  lemma {:induction false} TargetShape(payloads: seq<string>)
    ensures var t := FirstTarget(payloads); t != "" ==> !IsSpace(t[|t| - 1])
  {
    if payloads != [] {
      OneLineFacts(payloads[0]);
      TargetShape(payloads[1..]);
    }
  }

  predicate Tight(s: string) {
    s != "" && !IsSpace(s[0]) && !IsSpace(s[|s| - 1])
  }

  lemma TightConcat(a: string, b: string)
    requires a != "" && !IsSpace(a[0]) && b != "" && !IsSpace(b[|b| - 1])
    ensures Tight(a + b)
  {
    hide IsSpace;
  }

  lemma StripTight(s: string)
    requires Tight(s)
    ensures Strip(s) == s && Strip(s + " ") == s
  {
    assert (s + " ")[..|s|] == s;
  }

  lemma OpensWithWord()
    ensures !IsSpace("reacted "[0])
  {
  }

  lemma StripAlone(front: string, said: string)
    requires front != "" && !IsSpace(front[0]) && said != "" && !IsSpace(said[|said| - 1])
    ensures Strip(front + said + " " + "") == front + said
  {
    hide IsSpace, Strip, Tight;
    TightConcat(front, said);
    StripTight(front + said);
    assert front + said + " " + "" == (front + said) + " ";
  }

  lemma StripPair(front: string, said: string, target: string)
    requires front != "" && !IsSpace(front[0]) && target != "" && !IsSpace(target[|target| - 1])
    ensures Strip(front + said + " " + target) == front + said + " " + target
  {
    hide IsSpace, Strip, Tight;
    var s := front + said + " ";
    assert s != "" && s[0] == front[0];
    TightConcat(s, target);
    StripTight(s + target);
  }

  lemma StripSaid(said: string, target: string)
    requires said != "" && !IsSpace(said[|said| - 1]) && (target != "" ==> !IsSpace(target[|target| - 1]))
    ensures Strip("reacted " + said + " " + target) == if target == "" then "reacted " + said else "reacted " + said + " " + target
  {
    hide IsSpace, Strip;
    OpensWithWord();
    if target == "" {
      StripAlone("reacted ", said);
    } else {
      StripPair("reacted ", said, target);
    }
  }

  // ----- a turn -----

  /** The lines of a rewritten turn: the given gist goes to the newest record alone. */
  function LedgerLines(rs: seq<Fields>, gist: string, newestSerial: int): (ls: seq<string>)
    ensures |ls| == |rs| && forall i | 0 <= i < |rs| :: ls[i] == LedgerLine(rs[i], if rs[i].serial == newestSerial then gist else "")
  {
    seq(|rs|, i requires 0 <= i < |rs| => LedgerLine(rs[i], if rs[i].serial == newestSerial then gist else ""))
  }

  lemma ItemSays(r: Fields, gist: string, newestSerial: int)
    requires Plain(r)
    ensures Readable(RecordBlock(r))
    ensures LedgerItem(RecordBlock(r), gist, newestSerial) == [LedgerLine(r, if r.serial == newestSerial then gist else "")]
  {
    hide FormatRecord, LedgerLine, RecordToLedger, Lines, OnlyNewlines, ForgedHeadEnd, PlainFlags;
    LedgerLineSays(r, if r.serial == newestSerial then gist else "");
  }

  lemma AllReadable(rs: seq<Fields>)
    requires forall i | 0 <= i < |rs| :: Plain(rs[i])
    ensures forall b | b in RecordBlockList(rs) :: Readable(b)
  {
    hide Plain, Readable, LedgerItem, LedgerLine, RecordBlock;
    forall b | b in RecordBlockList(rs)
      ensures Readable(b)
    {
      var i :| 0 <= i < |rs| && RecordBlockList(rs)[i] == b;
      ItemSays(rs[i], "", 0);
    }
  }

  lemma {:induction false} LedgerItemsSay(rs: seq<Fields>, gist: string, newestSerial: int)
    requires forall i | 0 <= i < |rs| :: Plain(rs[i])
    ensures forall b | b in RecordBlockList(rs) :: Readable(b)
    ensures LedgerItems(RecordBlockList(rs), gist, newestSerial) == LedgerLines(rs, gist, newestSerial)
  {
    hide Plain, FormatRecord, LedgerLine, Readable, LedgerItem, RecordBlock;
    AllReadable(rs);
    if rs != [] {
      var init, last := rs[..|rs| - 1], rs[|rs| - 1];
      LedgerItemsSay(init, gist, newestSerial);
      assert RecordBlockList(rs)[..|rs| - 1] == RecordBlockList(init);
      ItemSays(last, gist, newestSerial);
      assert LedgerLines(rs, gist, newestSerial) == LedgerLines(init, gist, newestSerial) + [LedgerLine(last, if last.serial == newestSerial then gist else "")];
    }
  }

  /** A quiet turn of plain records becomes one such line for each, in order, and nothing else. */
  lemma LedgerTurnSays(rs: seq<Fields>, gist: string, newestSerial: int)
    requires forall i | 0 <= i < |rs| :: Plain(rs[i])
    ensures LedgerText(RenderTurn(rs), gist, newestSerial) == Join(LedgerLines(rs, gist, newestSerial), "\n")
  {
    hide FormatRecord, LedgerLine, LedgerItems, RecordBlocks, RenderTurn, OnlyNewlines, PlainFlags, LastHeadEnd, HeadRest;
    assert forall i | 0 <= i < |rs| :: Renderable(rs[i]) && Faithful(rs[i]);
    TurnRoundTripIff(rs);
    LedgerItemsSay(rs, gist, newestSerial);
  }
}
