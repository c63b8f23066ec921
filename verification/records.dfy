/** The record grammar: printer, parser, turn cap and ledger rewrite
    (src/wahabot/ai/records.py). Each regular expression is spelled out as a predicate. */
module Records {
  import opened Optional
  import opened Text
  import opened Sequences

  const CONTINUATION_PREFIX := "> "
  const PAYLOAD_PREFIX := "  · "
  const LEDGER_SEPARATOR := " — "
  const GIST_WORDS := 8
  const GIST_CHARS := 120

  // ----- the record head -----

  /** A text that opens with `#m<digits>]]`, white space and then something else. */
  predicate IsHeadEnd(t: string) {
    && "#m" <= t
    && var k := DigitRun(t[2..]);
    && k > 0 && "]]" <= t[2 + k..]
    && 0 < SpaceRun(t[4 + k..]) < |t[4 + k..]|
  }

  const HEAD_END := (t: string) => IsHeadEnd(t)

  /** Where the last head end of a line starts, or -1: the pattern is greedy. */
  function LastHeadEnd(s: string): (p: int)
    ensures -1 <= p < |s|
    ensures p >= 0 ==> IsHeadEnd(s[p..])
  {
    LastMatch(s, HEAD_END)
  }

  /** The four groups of a matched record head. */
  datatype Head = Head(heading: string, digits: string, kind: string, rest: string)

  /** The digits of a head end. */
  function HeadEndDigits(t: string): (d: string)
    requires IsHeadEnd(t)
    ensures d != "" && forall i | 0 <= i < |d| :: IsDigit(d[i])
  {
    t[2..2 + DigitRun(t[2..])]
  }

  /** What follows a head end and its white space; it opens with the kind. */
  function AfterHeadEnd(t: string): string
    requires IsHeadEnd(t)
  {
    var after := t[4 + DigitRun(t[2..])..];
    after[SpaceRun(after)..]
  }

  function HeadAt(line: string, p: nat): Head
    requires p <= |line| && IsHeadEnd(line[p..])
  {
    var digits, word := HeadEndDigits(line[p..]), AfterHeadEnd(line[p..]);
    Head(line[..p + 4 + |digits|], digits, word[..WordRun(word)], word[WordRun(word)..])
  }

  function ParseHead(line: string): (h: Option<Head>)
    ensures h.Some? ==> h.value.digits != "" && forall i | 0 <= i < |h.value.digits| :: IsDigit(h.value.digits[i])
    ensures h.Some? ==> |h.value.heading| >= 4
  {
    var p := LastHeadEnd(line);
    if !("[[" <= line) || p < 0 then None else Some(HeadAt(line, p))
  }

  // ----- the ledger line -----

  predicate TwoDigitsAt(s: string, i: nat) {
    i + 2 <= |s| && IsDigit(s[i]) && IsDigit(s[i + 1])
  }

  predicate ClockAt(s: string, i: nat) {
    TwoDigitsAt(s, i) && i + 5 <= |s| && s[i + 2] == ':' && TwoDigitsAt(s, i + 3)
  }

  /** Length of a leading `hh:mm`, `hh:mm.ss` or `dd.mm hh:mm` that a space follows; 0 when none. */
  function TimeLength(s: string): (n: nat)
    ensures n > 0 ==> n < |s| && s[n] == ' ' && IsDigit(s[0])
  {
    if ClockAt(s, 0) && |s| > 5 && s[5] == ' ' then 5
    else if ClockAt(s, 0) && |s| > 8 && s[5] == '.' && TwoDigitsAt(s, 6) && s[8] == ' ' then 8
    else if TwoDigitsAt(s, 0) && |s| > 11 && s[2] == '.' && TwoDigitsAt(s, 3) && s[5] == ' ' && ClockAt(s, 6) && s[11] == ' ' then 11
    else 0
  }

  /** Length of the run of digits at the end. */
  function DigitTail(s: string): (n: nat)
    ensures n <= |s| && (forall i | |s| - n <= i < |s| :: IsDigit(s[i])) && (n < |s| ==> !IsDigit(s[|s| - n - 1]))
  {
    if s == "" || !IsDigit(s[|s| - 1]) then 0 else 1 + DigitTail(s[..|s| - 1])
  }

  const LEDGER_TOKEN := LEDGER_SEPARATOR + "#m"

  predicate EndsWith(s: string, suffix: string) {
    |suffix| <= |s| && s[|s| - |suffix|..] == suffix
  }

  predicate IsLedgerLine(line: string) {
    var n, d := TimeLength(line), DigitTail(line);
    && n > 0 && d > 0
    && EndsWith(line[..|line| - d], LEDGER_TOKEN)
    && n + 1 < |line| - d - |LEDGER_TOKEN|
  }

  /** The serial named by a ledger line, or 0. */
  function LedgerSerial(line: string): nat {
    if IsLedgerLine(line) then Value(line[|line| - DigitTail(line)..]) else 0
  }

  // ----- parsing -----

  method RecordSerials(text: string) returns (serials: seq<nat>)
    ensures serials == SerialsOf(Lines(text))
  {
    serials := [];
    var lines := Lines(text);
    for i := 0 to |lines|
      invariant serials == SerialsOf(lines[..i])
    {
      assert lines[..i + 1][..i] == lines[..i];
      var head := ParseHead(lines[i]);
      if head.Some? {
        serials := serials + [Value(head.value.digits)];
      }
    }
    assert lines[..|lines|] == lines;
  }

  function SerialsOf(lines: seq<string>): seq<nat> {
    if lines == [] then []
    else
      var head := ParseHead(lines[|lines| - 1]);
      SerialsOf(lines[..|lines| - 1]) + (if head.Some? then [Value(head.value.digits)] else [])
  }

  datatype Block = Block(serial: int, text: string)

  predicate IsTailLine(line: string) {
    CONTINUATION_PREFIX <= line || PAYLOAD_PREFIX <= line
  }

  function AddLine(blocks: seq<Block>, line: string): seq<Block> {
    var head := ParseHead(line);
    var ledger: int := LedgerSerial(line);
    if head.Some? then blocks + [Block(Value(head.value.digits), line)]
    else if ledger != 0 then blocks + [Block(-ledger, line)]
    else if blocks != [] && IsTailLine(line) then
      var last := blocks[|blocks| - 1];
      blocks[..|blocks| - 1] + [Block(last.serial, last.text + "\n" + line)]
    else blocks + [Block(0, line)]
  }

  function BlocksOf(lines: seq<string>): seq<Block> {
    if lines == [] then [] else AddLine(BlocksOf(lines[..|lines| - 1]), lines[|lines| - 1])
  }

  function RecordBlocks(text: string): seq<Block> {
    BlocksOf(Lines(text))
  }

  method SplitBlocks(text: string) returns (blocks: seq<Block>)
    ensures blocks == RecordBlocks(text)
  {
    blocks := [];
    var lines := Lines(text);
    for i := 0 to |lines|
      invariant blocks == BlocksOf(lines[..i])
    {
      assert lines[..i + 1][..i] == lines[..i];
      blocks := AppendLine(blocks, lines[i]);
    }
    assert lines[..|lines|] == lines;
  }

  /** One round of the parser's loop. */
  method AppendLine(before: seq<Block>, line: string) returns (blocks: seq<Block>)
    ensures blocks == AddLine(before, line)
  {
    hide Value, LedgerSerial, ParseHead, IsTailLine;
    var head := ParseHead(line);
    if head.Some? {
      return before + [Block(Value(head.value.digits), line)];
    }
    var ledger: int := LedgerSerial(line);
    if ledger != 0 {
      return before + [Block(-ledger, line)];
    }
    if before != [] && IsTailLine(line) {
      var last := before[|before| - 1];
      return before[|before| - 1 := Block(last.serial, last.text + "\n" + line)];
    }
    return before + [Block(0, line)];
  }

  function Texts(blocks: seq<Block>): (ts: seq<string>)
    ensures |ts| == |blocks| && forall i | 0 <= i < |blocks| :: ts[i] == blocks[i].text
  {
    seq(|blocks|, i requires 0 <= i < |blocks| => blocks[i].text)
  }

  // ----- printing -----

  datatype Fields = Fields(
    timeLabel: string, speaker: string, serial: nat, kind: string,
    flags: seq<string>, body: string, payloads: seq<string>)

  function Prefixed(prefix: string, lines: seq<string>): (r: seq<string>)
    ensures |r| == |lines| && forall i | 0 <= i < |lines| :: r[i] == prefix + lines[i]
  {
    seq(|lines|, i requires 0 <= i < |lines| => prefix + lines[i])
  }

  function Flattened(items: seq<string>): (r: seq<string>)
    ensures |r| == |items| && forall i | 0 <= i < |items| :: r[i] == OneLine(items[i])
  {
    seq(|items|, i requires 0 <= i < |items| => OneLine(items[i]))
  }

  function EscapeBody(body: string): string {
    var lines := SplitNewline(body);
    Join([lines[0]] + Prefixed(CONTINUATION_PREFIX, lines[1..]), "\n")
  }

  function LabelFront(r: Fields): string {
    "[[" + r.timeLabel + " " + OneLine(r.speaker)
  }

  /** The head up to and including its closing brackets. */
  function Label(r: Fields): string {
    LabelFront(r) + (if r.serial == 0 then "" else " #m" + Numeral(r.serial)) + "]]"
  }

  function FlagText(r: Fields): string {
    if r.flags == [] then "" else " " + Join(Flattened(r.flags), " ")
  }

  function FormatRecord(r: Fields): string {
    var head := Label(r) + " " + r.kind + FlagText(r);
    var line := if r.body == "" then head else head + " :: " + EscapeBody(r.body);
    if r.payloads == [] then line
    else Join([line] + Prefixed(PAYLOAD_PREFIX, Flattened(r.payloads)), "\n")
  }

  /** A turn's records joined into one text. */
  function RenderTurn(rs: seq<Fields>): string {
    Join(Printed(rs), "\n")
  }

  function Printed(rs: seq<Fields>): (ts: seq<string>)
    ensures |ts| == |rs| && forall i | 0 <= i < |rs| :: ts[i] == FormatRecord(rs[i])
  {
    seq(|rs|, i requires 0 <= i < |rs| => FormatRecord(rs[i]))
  }

  // ----- reading a record back -----

  predicate OccursAt(s: string, pattern: string, j: int) {
    0 <= j <= |s| && pattern <= s[j..]
  }

  lemma OccursShift(s: string, pattern: string)
    requires s != ""
    ensures forall j | 1 <= j <= |s| :: OccursAt(s, pattern, j) <==> OccursAt(s[1..], pattern, j - 1)
  {
    assert forall j | 1 <= j <= |s| :: s[j..] == s[1..][j - 1..];
  }

  /** `s.find(pattern)`. */
  function Find(s: string, pattern: string): (i: int)
    ensures i == -1 || OccursAt(s, pattern, i)
    ensures i == -1 ==> forall j | 0 <= j <= |s| :: !OccursAt(s, pattern, j)
    ensures forall j | 0 <= j < i :: !OccursAt(s, pattern, j)
  {
    if OccursAt(s, pattern, 0) then 0
    else if s == "" then -1
    else
      OccursShift(s, pattern);
      var i := Find(s[1..], pattern);
      if i < 0 then -1 else i + 1
  }

  const SERIAL_MARK := (t: string) => " #m" <= t

  function ContinuationText(lines: seq<string>): seq<string> {
    if lines == [] then []
    else
      (if CONTINUATION_PREFIX <= lines[0] then [lines[0][|CONTINUATION_PREFIX|..]] else []) + ContinuationText(lines[1..])
  }

  /** The member text of a record block whose head leaves `rest` behind its kind. */
  function RecordBodyText(block: string, rest: string): string {
    var i := Find(rest, " :: ");
    if i < 0 then ""
    else
      var lines := Lines(block);
      var continued := if lines == [] then [] else ContinuationText(lines[1..]);
      OneLine(Join([rest[i + 4..]] + continued, " "))
  }

  /** What precedes the serial in a heading, without its brackets; the time and the speaker, that is. */
  function LabelText(heading: string): string
    requires |heading| >= 4
  {
    var inner := heading[2..|heading| - 2];
    var i := LastMatch(inner, SERIAL_MARK);
    if i < 0 then "" else inner[..i]
  }

  /** `left.partition(" ")` without the separator. */
  function Partition(left: string): (string, string) {
    var i := Find(left, " ");
    if i < 0 then (left, "") else (left[..i], left[i + 1..])
  }

  function SplitHead(heading: string): (string, string)
    requires |heading| >= 4
  {
    Partition(LabelText(heading))
  }

  function ReactionTarget(lines: seq<string>): string {
    if lines == [] then ""
    else if PAYLOAD_PREFIX <= lines[0] && "to: " <= lines[0][|PAYLOAD_PREFIX|..] then lines[0][|PAYLOAD_PREFIX|..]
    else ReactionTarget(lines[1..])
  }

  function KindGist(kind: string): string {
    match kind
    case "image" => "sent an image"
    case "video" => "sent a video"
    case "audio" => "sent a voice note"
    case "sticker" => "sent a sticker"
    case "document" => "sent a document"
    case "album" => "sent photos"
    case "link" => "shared a link"
    case "reaction" => "sent a reaction"
    case _ => "sent a message"
  }

  function Clipped(s: string): string {
    if |s| > GIST_CHARS then s[..GIST_CHARS] else s
  }

  function MechanicalGist(body: string, kind: string, block: string): string {
    var text := OneLine(body);
    if kind == "reaction" then
      Clipped(Strip("reacted " + (if text == "" then "to a message" else text) + " " + ReactionTarget(Lines(block))))
    else if "http://" <= text || "https://" <= text then "shared a link"
    else if text != "" then
      var words := Words(text);
      Clipped(if |words| > GIST_WORDS then Join(words[..GIST_WORDS], " ") + "…" else Join(words, " "))
    else KindGist(kind)
  }

  /** The gist a ledger line carries: the reader's, flattened, or a mechanical one. */
  function LedgerWords(block: string, head: Head, gist: string): string {
    if OneLine(gist) != "" then OneLine(gist)
    else MechanicalGist(RecordBodyText(block, head.rest), head.kind, block)
  }

  function RecordToLedger(block: string, gist: string): Option<string>
    requires Lines(block) != []
  {
    var head := ParseHead(Lines(block)[0]);
    if head.None? then None
    else
      var (time, speaker) := SplitHead(head.value.heading);
      Some(time + " " + speaker + " " + LedgerWords(block, head.value, gist) + LEDGER_TOKEN + head.value.digits)
  }
}
