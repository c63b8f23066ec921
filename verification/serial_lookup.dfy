/** Finding a message in the registry (src/wahabot/ai/serials.py), told from the lines of its file. */
module SerialLookup {
  import opened Optional
  import opened Text
  import opened JsonLine
  import opened SerialFile
  import opened Serials

  // ----- by message id -----

  /** The lines that carry this id, and those whose id has the same short id. */
  function FullId(id: string): Line -> bool {
    (l: Line) => l.Stored? && l.entry.messageId == id
  }

  function ShortId(id: string): Line -> bool {
    (l: Line) => l.Stored? && MessageKey(l.entry.messageId) == MessageKey(id)
  }

  predicate At(lines: seq<Line>, i: int, p: Line -> bool) {
    0 <= i < |lines| && p(lines[i])
  }

  /** Line i is the last such line. */
  predicate LastAt(lines: seq<Line>, i: int, p: Line -> bool) {
    At(lines, i, p) && forall j | i < j < |lines| :: !At(lines, j, p)
  }

  lemma LastAtSnoc(init: seq<Line>, last: Line, p: Line -> bool, i: int)
    ensures LastAt(init + [last], i, p) <==> if p(last) then i == |init| else LastAt(init, i, p)
    ensures (exists j :: At(init + [last], j, p)) <==> p(last) || exists j :: At(init, j, p)
  {
    var lines := init + [last];
    forall j
      ensures At(lines, j, p) <==> At(init, j, p) || (j == |init| && p(last))
    {
      assert 0 <= j < |init| ==> lines[j] == init[j];
    }
    assert p(last) ==> At(lines, |init|, p);
  }

  lemma {:induction false} IdsOfLines(lines: seq<Line>, id: string, i: int)
    ensures var v := Replay(lines);
            && (id in v.byMessage <==> exists j :: At(lines, j, FullId(id)))
            && (LastAt(lines, i, FullId(id)) ==> id in v.byMessage && v.byMessage[id] == lines[i].entry.serial)
            && (MessageKey(id) in v.byHash <==> exists j :: At(lines, j, ShortId(id)))
            && (LastAt(lines, i, ShortId(id)) ==> MessageKey(id) in v.byHash && v.byHash[MessageKey(id)] == lines[i].entry.serial)
  {
    hide MessageKey, LastAt, At;
    if lines == [] {
      NoLine(FullId(id), i);
      NoLine(ShortId(id), i);
    } else {
      var init, last := lines[..|lines| - 1], lines[|lines| - 1];
      IdsOfLines(init, id, i);
      assert Replay(lines) == FoldLine(Replay(init), last);
      assert lines == init + [last];
      LastAtSnoc(init, last, FullId(id), i);
      LastAtSnoc(init, last, ShortId(id), i);
      LastInRange(init, i, FullId(id));
      LastInRange(init, i, ShortId(id));
    }
  }

  lemma NoLine(p: Line -> bool, i: int)
    ensures !LastAt([], i, p) && forall j :: !At([], j, p)
  {
  }

  lemma LastInRange(lines: seq<Line>, i: int, p: Line -> bool)
    ensures LastAt(lines, i, p) ==> 0 <= i < |lines|
  {
  }

  /** A message is found by its full id, by the latest line that carries it; failing that by its short id,
      by the latest line with the same; and otherwise not at all. */
  lemma FoundByFullIdFirst(r: Registry, id: string, i: int)
    requires Sound(r)
    ensures var lines, n := AllLines(r.file), SerialFor(r, id);
            if exists j :: At(lines, j, FullId(id)) then LastAt(lines, i, FullId(id)) ==> n == lines[i].entry.serial
            else if exists j :: At(lines, j, ShortId(id)) then LastAt(lines, i, ShortId(id)) ==> n == lines[i].entry.serial
            else n == 0
  {
    hide AllLines, Load, MessageKey, Replay, CleanEnd, Ordered, LastAt, At;
    SoundLoads(r);
    IdsOfLines(AllLines(r.file), id, i);
    LastInRange(AllLines(r.file), i, FullId(id));
    LastInRange(AllLines(r.file), i, ShortId(id));
  }

  // ----- by token -----

  /** The token, white space around it aside, is the mark and a number. */
  predicate TokenFor(token: string, n: nat) {
    var t := Strip(token);
    "#m" <= t && |t| > 2 && (forall i | 2 <= i < |t| :: IsDigit(t[i])) && Value(t[2..]) == n
  }

  lemma TokenNumberIs(token: string, n: nat)
    ensures TokenNumber(token) == Some(n) <==> TokenFor(token, n)
  {
    hide Strip, Value;
    var t := Strip(token);
    if "#m" <= t && |t| > 2 && forall i | 2 <= i < |t| :: IsDigit(t[i]) {
      assert forall i | 0 <= i < |t[2..]| :: t[2..][i] == t[i + 2];
      DigitRunAt(t[2..], "");
      assert t[2..] + "" == t[2..];
    }
    if DigitRunsOut(t) {
      assert forall i | 2 <= i < |t| :: t[i] == t[2..][i - 2];
    }
  }

  predicate DigitRunsOut(t: string) {
    |t| > 2 && DigitRun(t[2..]) == |t| - 2
  }

  /** A token names exactly the entry whose line carries its number. */
  lemma TokenNamesIff(r: Registry, token: string, e: Entry)
    requires Sound(r)
    ensures Resolve(r, token) == Some(e) <==> TokenFor(token, e.serial) && exists i :: 0 <= i < |AllLines(r.file)| && AllLines(r.file)[i] == Stored(e)
  {
    hide AllLines, Load, Replay, CleanEnd, TokenFor, TokenNumber;
    SoundLoads(r);
    var lines := AllLines(r.file);
    ReplayOrdered(lines);
    TokenNumberIs(token, e.serial);
    if Resolve(r, token).Some? {
      var n := TokenNumber(token).value;
      ReplayKnows(lines, n);
      var i :| 0 <= i < |lines| && lines[i].Stored? && lines[i].entry.serial == n;
      assert Resolve(r, token).value == lines[i].entry;
    }
    if i :| 0 <= i < |lines| && lines[i] == Stored(e) {
      assert lines[i].entry.serial == e.serial;
    }
  }

  // ----- assign -----

  /** The lines of the file after a message was seen: one more for a new one. */
  function SeenLines(r: Registry, messageId: string, jid: string, name: string, ordinal: nat): seq<Line> {
    AllLines(r.file) + if Known(r, messageId) then [] else [Stored(NewEntry(r, messageId, jid, name, ordinal))]
  }

  /** What assign answers when it does not fail is the message's own entry, the one on file or a new one
      behind the last serial; and when the last serial is a multiple of 500, only the newest 2000 lines
      are left. */
  lemma AssignGives(r: Registry, messageId: string, jid: string, name: string, ordinal: nat)
    requires Sound(r) && OrdinalFits(Load(r).view, jid, ordinal)
    requires LineFree(messageId) && LineFree(jid) && LineFree(name)
    ensures Known(r, messageId) ==> Load(r).view.byMessage[messageId] in Load(r).view.entries
    ensures var (c, result) := Assign(r, messageId, jid, name, ordinal);
            var lines := SeenLines(r, messageId, jid, name, ordinal);
            && (result.Success? ==>
                  result.value == if Known(r, messageId) then Load(r).view.entries[Load(r).view.byMessage[messageId]]
                                  else Entry(Replay(AllLines(r.file)).lastSerial + 1, messageId, jid, name, ordinal))
            && AllLines(c.file) == if Replay(lines).lastSerial % 500 == 0 && |lines| > 2000 then lines[|lines| - 2000..] else lines
  {
    hide ReplayFrom, Fold, NonBlank, Newest, AllLines, Load, Compact, OrdinalsInv, CleanEnd, OrdinalFits, MessageKey, Next, Ordered, LineFree;
    LoadMirrors(r);
    SoundLoads(r);
    EntriesOfMessages(AllLines(r.file));
    NextPromise(r, messageId, jid, name, ordinal);
    NextKeepsSound(r, messageId, jid, name, ordinal);
    var (n, serial) := Next(r, messageId, jid, name, ordinal);
    NextLines(r, messageId, jid, name, ordinal);
    LoadedStays(n);
    LoadMirrors(n);
    if n.view.lastSerial % COMPACT_EVERY == 0 {
      CompactKeepsNewest(n, DEFAULT_KEEP);
      CompactedLines(n, DEFAULT_KEEP);
      ReloadedMirrors(Compact(n, DEFAULT_KEEP));
      LoadMirrors(Compact(n, DEFAULT_KEEP));
    }
  }

  lemma NextLines(r: Registry, messageId: string, jid: string, name: string, ordinal: nat)
    requires Sound(r) && OrdinalFits(Load(r).view, jid, ordinal)
    requires LineFree(messageId) && LineFree(jid) && LineFree(name)
    ensures AllLines(Next(r, messageId, jid, name, ordinal).0.file) == SeenLines(r, messageId, jid, name, ordinal)
  {
    hide AllLines, Fold, Appended, OrdinalsInv, CleanEnd, Ordered, ReplayFrom, MessageKey, LineFree;
    SoundLoads(r);
    if !Known(r, messageId) {
      CleanAppend(r.file, NewEntry(r, messageId, jid, name, ordinal));
    } else {
      assert AllLines(r.file) + [] == AllLines(r.file);
    }
  }
}
