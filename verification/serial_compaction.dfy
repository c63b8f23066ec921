/** What a compaction costs a serial registry (src/wahabot/ai/serials.py). */
module SerialCompaction {
  // A compaction keeps the newest lines and forgets the maps, so members and messages without a kept
  // line are new again.

  import opened Optional
  import opened Text
  import opened JsonLine
  import opened SerialFile
  import opened Serials

  // ----- ordinals -----

  predicate Carries(line: Line, jid: string) {
    line.Stored? && line.entry.jid == jid && jid != "" && line.entry.ordinal > 0
  }

  /** The ordinal in the first line that carries one for the member; 0 when none does. */
  function FirstOrdinal(lines: seq<Line>, jid: string): nat {
    if lines == [] then 0
    else
      var before, last := FirstOrdinal(lines[..|lines| - 1], jid), lines[|lines| - 1];
      if before > 0 then before else if Carries(last, jid) then last.entry.ordinal else 0
  }

  /** A restart knows a member's ordinal from the first line that carries one. */
  lemma {:induction false} ReplayOrdinalOf(lines: seq<Line>, jid: string)
    ensures jid in Replay(lines).ordinals <==> FirstOrdinal(lines, jid) > 0
    ensures jid in Replay(lines).ordinals ==> Replay(lines).ordinals[jid] == FirstOrdinal(lines, jid)
  {
    if lines != [] {
      var init, last := lines[..|lines| - 1], lines[|lines| - 1];
      ReplayOrdinalOf(init, jid);
      assert Replay(lines) == FoldLine(Replay(init), last);
    }
  }

  lemma CompactionResets(r: Registry, keep: nat)
    requires SoundFile(r.file) && |AllLines(r.file)| > keep
    ensures var c := Compact(r, keep); c.view == BLANK_VIEW && !c.loaded
  {
    hide DecodeLine, Rewritten, CleanEnd, Ordered;
    var lines := Lines(Content(r.file));
    forall i | 0 <= i < |lines|
      ensures DecodeLine(lines[i]).Stored?
    {
      OrderedAt(AllLines(r.file), i);
    }
    NonBlankAll(lines);
  }

  lemma OrderedLoads(lines: seq<Line>)
    requires Ordered(lines)
    ensures Loadable(lines)
  {
  }

  lemma CompactedView(r: Registry, keep: nat)
    requires Sound(r) && |AllLines(r.file)| > keep
    ensures var c := Compact(r, keep); !Raises(c) && Load(c).view == Replay(Kept(AllLines(r.file), keep))
  {
    hide AllLines, Compact, CleanEnd, Ordered, Kept, FirstForeign, ReplayFrom, Mirrors;
    CompactedLines(r, keep);
    CompactionResets(r, keep);
    var kept := Kept(AllLines(r.file), keep);
    OrderedLoads(kept);
    AllBeforeForeign(kept);
  }

  /** A member keeps its ordinal over a compaction if and only if the first kept line that carries an
      ordinal for it carries that one; a compaction that finds nothing to drop changes nothing. */
  lemma OrdinalKeptIff(r: Registry, keep: nat, jid: string)
    requires Sound(r) && jid in Load(r).view.ordinals
    ensures |AllLines(r.file)| <= keep ==> Compact(r, keep) == r
    ensures |AllLines(r.file)| > keep ==>
              var before, after := Load(r).view.ordinals, Load(Compact(r, keep)).view.ordinals;
              jid in after && after[jid] == before[jid] <==> FirstOrdinal(Kept(AllLines(r.file), keep), jid) == before[jid]
  {
    hide ReplayFrom, Ordered, AllLines, FirstForeign, Compact;
    SoundLoads(r);
    if |AllLines(r.file)| > keep {
      CompactedView(r, keep);
      ReplayOrdinalOf(Kept(AllLines(r.file), keep), jid);
    } else {
      NothingToDrop(r, keep);
    }
  }

  lemma NothingToDrop(r: Registry, keep: nat)
    requires SoundFile(r.file) && |AllLines(r.file)| <= keep
    ensures Compact(r, keep) == r
  {
    hide DecodeLine;
    NonBlankAll(Lines(Content(r.file)));
  }

  /** All lines of a member that carry an ordinal carry the same one. */
  ghost predicate Consistent(f: File) {
    forall i, jid | 0 <= i < |AllLines(f)| && Carries(AllLines(f)[i], jid) :: AllLines(f)[i].entry.ordinal == FirstOrdinal(AllLines(f), jid)
  }

  lemma {:induction false} CarriedIsFirst(lines: seq<Line>, i: nat, jid: string)
    requires i < |lines| && Carries(lines[i], jid)
    ensures FirstOrdinal(lines, jid) > 0
  {
    if i < |lines| - 1 {
      CarriedIsFirst(lines[..|lines| - 1], i, jid);
    }
  }

  lemma {:induction false} FirstIsCarried(lines: seq<Line>, jid: string) returns (i: nat)
    requires FirstOrdinal(lines, jid) > 0
    ensures i < |lines| && Carries(lines[i], jid) && lines[i].entry.ordinal == FirstOrdinal(lines, jid)
  {
    var init := lines[..|lines| - 1];
    if FirstOrdinal(init, jid) > 0 {
      i := FirstIsCarried(init, jid);
    } else {
      i := |lines| - 1;
    }
  }

  lemma FirstOrdinalSnoc(lines: seq<Line>, line: Line, jid: string)
    ensures FirstOrdinal(lines + [line], jid) ==
            if FirstOrdinal(lines, jid) > 0 then FirstOrdinal(lines, jid) else if Carries(line, jid) then line.entry.ordinal else 0
  {
    assert (lines + [line])[..|lines|] == lines;
  }

  /** An entry whose ordinal is the one memory has for its sender keeps the file consistent. */
  lemma AppendKeepsConsistent(r: Registry, e: Entry)
    requires Sound(r) && Consistent(r.file) && Storable(e) && OrdinalFits(Load(r).view, e.jid, e.ordinal)
    ensures Consistent(Appended(r.file, e))
  {
    hide ReplayFrom, AllLines, Storable, Appended, CleanEnd, Ordered, FirstOrdinal, FirstForeign;
    SoundLoads(r);
    CleanAppend(r.file, e);
    var lines, more := AllLines(r.file), AllLines(Appended(r.file, e));
    forall i, jid | 0 <= i < |more| && Carries(more[i], jid)
      ensures more[i].entry.ordinal == FirstOrdinal(more, jid)
    {
      FirstOrdinalSnoc(lines, Stored(e), jid);
      ReplayOrdinalOf(lines, jid);
      if i < |lines| {
        assert more[i] == lines[i];
        CarriedIsFirst(lines, i, jid);
      }
    }
  }

  lemma {:induction false} SuffixFirst(lines: seq<Line>, k: nat, jid: string)
    requires k <= |lines|
    requires forall i | 0 <= i < |lines| && Carries(lines[i], jid) :: lines[i].entry.ordinal == FirstOrdinal(lines, jid)
    ensures FirstOrdinal(lines[k..], jid) == 0 || FirstOrdinal(lines[k..], jid) == FirstOrdinal(lines, jid)
  {
    hide Carries;
    if FirstOrdinal(lines[k..], jid) > 0 {
      var i := FirstIsCarried(lines[k..], jid);
      assert lines[k..][i] == lines[k + i];
    }
  }

  lemma KeptIsSuffix(lines: seq<Line>, keep: nat) returns (k: nat)
    ensures k <= |lines| && Kept(lines, keep) == lines[k..]
  {
    k := |lines| - |Kept(lines, keep)|;
  }

  lemma CompactKeepsConsistent(r: Registry, keep: nat)
    requires Sound(r) && Consistent(r.file)
    ensures Consistent(Compact(r, keep).file)
  {
    hide ReplayFrom, AllLines, CleanEnd, Ordered, FirstOrdinal, Compact, Kept;
    CompactedLines(r, keep);
    var lines := AllLines(r.file);
    var kept := AllLines(Compact(r, keep).file);
    var k := KeptIsSuffix(lines, keep);
    forall i, jid | 0 <= i < |kept| && Carries(kept[i], jid)
      ensures kept[i].entry.ordinal == FirstOrdinal(kept, jid)
    {
      assert kept[i] == lines[k + i];
      SuffixFirst(lines, k, jid);
      CarriedIsFirst(kept, i, jid);
    }
  }

  lemma PerformKeepsConsistent(r: Registry, op: Op)
    requires Sound(r) && Consistent(r.file) && Allowed(r, op)
    ensures Consistent(Perform(r, op).file)
  {
    hide ReplayFrom, AllLines, CleanEnd, Ordered, Consistent, Appended, Compact, MessageKey;
    match op
    case Ingest(messageId, jid, name, ordinal) =>
      if !Known(r, messageId) {
        AppendKeepsConsistent(r, NewEntry(r, messageId, jid, name, ordinal));
      }
    case AskOrdinal(jid) =>
    case Compacting(keep) => CompactKeepsConsistent(r, keep);
    case Restart =>
  }

  /** The program's own files are consistent, over any run. */
  lemma {:induction false} RunKeepsConsistent(r: Registry, ops: seq<Op>)
    requires Sound(r) && Consistent(r.file) && AllAllowed(r, ops)
    ensures Consistent(After(r, ops).file)
    decreases |ops|
  {
    hide Sound, Consistent;
    if ops != [] {
      PerformKeepsSound(r, ops[0]);
      PerformKeepsConsistent(r, ops[0]);
      RunKeepsConsistent(Perform(r, ops[0]), ops[1..]);
    }
  }

  /** No ordinal that is still to be handed out belongs to a member known before. */
  ghost predicate NewOrdinalsAreNew(before: View, after: View) {
    forall jid | jid in before.ordinals :: before.ordinals[jid] < after.nextOrdinal
  }

  ghost predicate OrdinalsAmong(some: View, all: View) {
    forall jid | jid in some.ordinals :: jid in all.ordinals && all.ordinals[jid] == some.ordinals[jid]
  }

  /** No ordinal was handed out, or a line carries the greatest one that was. */
  ghost predicate GreatestStays(before: View, lines: seq<Line>) {
    before.nextOrdinal == 1 || exists jid :: FirstOrdinal(lines, jid) == before.nextOrdinal - 1
  }

  /** After a compaction every new ordinal is nobody else's if and only if none was handed out before, or
      a kept line carries the greatest one that was. */
  lemma NewOrdinalsAreNewIff(r: Registry, keep: nat, before: View, after: View)
    requires Sound(r) && Consistent(r.file) && |AllLines(r.file)| > keep
    requires before == Load(r).view && after == Load(Compact(r, keep)).view
    ensures NewOrdinalsAreNew(before, after) <==>
            GreatestStays(before, Kept(AllLines(r.file), keep))
  {
    hide *;
    KnownOrdinals(r);
    CompactedView(r, keep);
    KeptOrdinalsWereKnown(r, keep);
    GreatestIsCarriedIff(before, after, Kept(AllLines(r.file), keep));
  }

  lemma KnownOrdinals(r: Registry)
    requires Sound(r)
    ensures OrdinalsInv(Load(r).view)
  {
    hide ReplayFrom, AllLines, Ordered, CleanEnd, FirstForeign;
    SoundLoads(r);
  }

  lemma GreatestIsCarriedIff(before: View, after: View, kept: seq<Line>)
    requires OrdinalsInv(before) && after == Replay(kept) && OrdinalsAmong(after, before)
    ensures NewOrdinalsAreNew(before, after) <==>
            GreatestStays(before, kept)
  {
    hide FirstOrdinal;
    ReplayOrdinals(kept);
    if before.nextOrdinal > 1 {
      var holder :| holder in before.ordinals && before.ordinals[holder] == before.nextOrdinal - 1;
      if before.ordinals[holder] < after.nextOrdinal {
        var jid :| jid in after.ordinals && after.ordinals[jid] == after.nextOrdinal - 1;
        ReplayOrdinalOf(kept, jid);
        assert before.ordinals[jid] < before.nextOrdinal;
      }
      if jid :| FirstOrdinal(kept, jid) == before.nextOrdinal - 1 {
        ReplayOrdinalOf(kept, jid);
        assert after.ordinals[jid] < after.nextOrdinal;
      }
    }
  }

  /** What a restart after a compaction knows was known before. */
  lemma KeptOrdinalsWereKnown(r: Registry, keep: nat)
    requires Sound(r) && Consistent(r.file)
    ensures OrdinalsAmong(Replay(Kept(AllLines(r.file), keep)), Load(r).view)
  {
    hide ReplayFrom, AllLines, Ordered, CleanEnd, Kept, FirstOrdinal, Carries, FirstForeign;
    SoundLoads(r);
    var lines := AllLines(r.file);
    var k := KeptIsSuffix(lines, keep);
    forall jid | jid in Replay(lines[k..]).ordinals
      ensures jid in Load(r).view.ordinals && Load(r).view.ordinals[jid] == Replay(lines[k..]).ordinals[jid]
    {
      ReplayOrdinalOf(lines[k..], jid);
      ReplayOrdinalOf(lines, jid);
      SuffixFirst(lines, k, jid);
    }
  }

  /** A restart hands out the ordinal behind the greatest one that the lines carry. */
  lemma GreatestCarried(lines: seq<Line>)
    ensures var next := Replay(lines).nextOrdinal;
            && (forall jid :: FirstOrdinal(lines, jid) < next)
            && (next > 1 ==> exists jid :: FirstOrdinal(lines, jid) == next - 1)
  {
    hide FirstOrdinal, ReplayFrom;
    var v := Replay(lines);
    ReplayOrdinals(lines);
    forall jid
      ensures FirstOrdinal(lines, jid) < v.nextOrdinal
    {
      ReplayOrdinalOf(lines, jid);
    }
    if v.nextOrdinal > 1 {
      var jid :| jid in v.ordinals && v.ordinals[jid] == v.nextOrdinal - 1;
      ReplayOrdinalOf(lines, jid);
    }
  }

  /** The next stranger then gets the ordinal behind the greatest kept one, whoever had it. */
  lemma StrangerGets(r: Registry, keep: nat, stranger: string)
    requires Sound(r) && |AllLines(r.file)| > keep
    requires stranger != "" && FirstOrdinal(Kept(AllLines(r.file), keep), stranger) == 0
    ensures var given, kept := OrdinalFor(Compact(r, keep), stranger).1, Kept(AllLines(r.file), keep);
            && (forall jid :: FirstOrdinal(kept, jid) < given)
            && (given > 1 ==> exists jid :: FirstOrdinal(kept, jid) == given - 1)
  {
    hide ReplayFrom, AllLines, Ordered, CleanEnd, Compact, Kept, FirstOrdinal, FirstForeign;
    CompactedView(r, keep);
    var kept := Kept(AllLines(r.file), keep);
    ReplayOrdinalOf(kept, stranger);
    GreatestCarried(kept);
  }

  // ----- a run of messages -----

  lemma {:induction false} AfterSnoc(r: Registry, ops: seq<Op>, op: Op)
    ensures After(r, ops + [op]) == Perform(After(r, ops), op)
    ensures AllAllowed(r, ops + [op]) <==> AllAllowed(r, ops) && Allowed(After(r, ops), op)
    decreases |ops|
  {
    hide Perform, Allowed;
    if ops == [] {
      assert ops + [op] == [op] && [op][1..] == [];
    } else {
      assert (ops + [op])[1..] == ops[1..] + [op];
      AfterSnoc(Perform(r, ops[0]), ops[1..], op);
    }
  }

  lemma NewIsSound()
    ensures Sound(NEW) && Consistent(NEW.file) && AllLines(NEW.file) == []
  {
    LinesOfNothing([]);
  }

  /** n messages of one sender without a name, numbered from 0. */
  function Messages(n: nat): (ops: seq<Op>)
    ensures |ops| == n
  {
    if n == 0 then [] else Messages(n - 1) + [Ingest(Numeral(n - 1), "", "", 0)]
  }

  function MessageLines(n: nat): (lines: seq<Line>)
    ensures |lines| == n && forall i | 0 <= i < n :: lines[i] == Stored(Entry(i + 1, Numeral(i), "", "", 0))
  {
    seq(n, i requires 0 <= i < n => Stored(Entry(i + 1, Numeral(i), "", "", 0)))
  }

  lemma MessageLinesSnoc(n: nat)
    ensures MessageLines(n + 1) == MessageLines(n) + [Stored(Entry(n + 1, Numeral(n), "", "", 0))]
  {
  }

  lemma NumeralsDiffer(m: nat, n: nat)
    requires Numeral(m) == Numeral(n)
    ensures m == n
  {
    ValueOfNumeral(m);
    ValueOfNumeral(n);
  }

  lemma {:induction false} MessagesReplay(n: nat)
    ensures var v := Replay(MessageLines(n));
            && v.lastSerial == n && v.ordinals == map[]
            && (forall m | m in v.byMessage :: 0 < v.byMessage[m] <= n && m == Numeral(v.byMessage[m] - 1))
            && (forall i | 0 <= i < n :: Numeral(i) in v.byMessage && v.byMessage[Numeral(i)] == i + 1)
  {
    hide Numeral, MessageKey, ReplayFrom;
    if n > 0 {
      MessagesReplay(n - 1);
      MessageLinesSnoc(n - 1);
      ReplaySnoc(MessageLines(n - 1), Stored(Entry(n, Numeral(n - 1), "", "", 0)));
      forall i | 0 <= i < n - 1
        ensures Numeral(i) != Numeral(n - 1)
      {
        if Numeral(i) == Numeral(n - 1) {
          NumeralsDiffer(i, n - 1);
        }
      }
    } else {
      ReplayNone(BLANK_VIEW);
      assert MessageLines(0) == [];
    }
  }

  lemma NumeralLineFree(n: nat)
    ensures LineFree(Numeral(n)) && LineFree("")
  {
  }

  /** The registry after n messages: it has a line for each. */
  lemma {:induction false} MessagesRun(n: nat)
    ensures AllAllowed(NEW, Messages(n))
    ensures var r := After(NEW, Messages(n)); Sound(r) && AllLines(r.file) == MessageLines(n)
  {
    hide Numeral, AllLines, ReplayFrom, LineFree, Appended, CleanEnd, MessageKey;
    NewIsSound();
    if n == 0 {
      assert MessageLines(0) == [];
    } else {
      MessagesRun(n - 1);
      var r, id := After(NEW, Messages(n - 1)), Numeral(n - 1);
      OneMoreMessage(r, id, n - 1);
      AfterSnoc(NEW, Messages(n - 1), Ingest(id, "", "", 0));
      MessageLinesSnoc(n - 1);
    }
  }

  lemma OneMoreMessage(r: Registry, id: string, n: nat)
    requires Sound(r) && AllLines(r.file) == MessageLines(n) && id == Numeral(n)
    ensures Allowed(r, Ingest(id, "", "", 0))
    ensures var m := Perform(r, Ingest(id, "", "", 0));
            Sound(m) && AllLines(m.file) == MessageLines(n) + [Stored(Entry(n + 1, id, "", "", 0))]
  {
    hide Numeral, AllLines, ReplayFrom, LineFree, Appended, CleanEnd, MessageKey, Ordered;
    NumeralLineFree(n);
    SoundLoads(r);
    MessagesReplay(n);
    NewId(r, id, n);
    PerformKeepsSound(r, Ingest(id, "", "", 0));
    CleanAppend(r.file, NewEntry(r, id, "", "", 0));
  }

  lemma NewId(r: Registry, id: string, n: nat)
    requires Sound(r) && AllLines(r.file) == MessageLines(n) && id == Numeral(n)
    ensures !Known(r, id)
  {
    hide Numeral, AllLines, ReplayFrom, CleanEnd, Ordered;
    SoundLoads(r);
    MessagesReplay(n);
    if Known(r, id) {
      NumeralsDiffer(Replay(MessageLines(n)).byMessage[id] - 1, n);
    }
  }

  /** assign does fail in a state the program can reach: 2500 messages numbered by `next`, then a
      redelivery of the first. */
  lemma AssignCanFail()
    ensures AllAllowed(NEW, Messages(2500))
    ensures Assign(After(NEW, Messages(2500)), Numeral(0), "", "", 0).1 == Failure(UnknownSerial)
  {
    hide Numeral, AllLines, ReplayFrom, LineFree, CleanEnd, Messages;
    var n := 2500;
    MessagesRun(n);
    MessagesReplay(n);
    var r := After(NEW, Messages(n));
    NumeralLineFree(0);
    SoundLoads(r);
    assert Numeral(0) in Replay(MessageLines(n)).byMessage;
    assert MessageLines(n)[500] == Stored(Entry(501, Numeral(500), "", "", 0));
    AssignFailsIff(r, Numeral(0), "", "", 0);
  }

  // ----- an ordinal that is handed out twice -----

  const FIRST_MEMBER := Entry(1, "a", "x@lid", "", 1)
  const SECOND_MEMBER := Entry(2, "b", "y@lid", "Bo", 0)

  /** A stranger's first message, then one of a member with a name. */
  function TwoMembers(): seq<Op> {
    [AskOrdinal("x@lid"), Ingest("a", "x@lid", "", 1), Ingest("b", "y@lid", "Bo", 0)]
  }

  function Asked(): Registry {
    Registry(View(map[], map[], map[], map["x@lid" := 1], 2, 0), true, Absent)
  }

  function WroteFirst(): Registry {
    Registry(Fold(Asked().view, FIRST_MEMBER), true, Appended(Absent, FIRST_MEMBER))
  }

  function WroteSecond(): Registry {
    Registry(Fold(WroteFirst().view, SECOND_MEMBER), true, Appended(WroteFirst().file, SECOND_MEMBER))
  }

  lemma Asks()
    ensures Allowed(NEW, TwoMembers()[0]) && Perform(NEW, TwoMembers()[0]) == Asked()
  {
    LinesOfNothing([]);
    ReplayNone(BLANK_VIEW);
  }

  lemma WritesFirst()
    ensures Allowed(Asked(), TwoMembers()[1]) && Perform(Asked(), TwoMembers()[1]) == WroteFirst()
  {
  }

  lemma WritesSecond()
    ensures Allowed(WroteFirst(), TwoMembers()[2]) && Perform(WroteFirst(), TwoMembers()[2]) == WroteSecond()
    ensures WroteSecond().view.ordinals == map["x@lid" := 1]
  {
    hide Appended, MessageKey;
  }

  lemma TwoMembersRun()
    ensures AllAllowed(NEW, TwoMembers()) && After(NEW, TwoMembers()) == WroteSecond()
  {
    hide Perform, Allowed, WroteFirst, WroteSecond, Asked;
    var ops := TwoMembers();
    Asks();
    WritesFirst();
    WritesSecond();
    AfterSnoc(NEW, [], ops[0]);
    AfterSnoc(NEW, [ops[0]], ops[1]);
    AfterSnoc(NEW, [ops[0], ops[1]], ops[2]);
    assert [] + [ops[0]] == [ops[0]];
    assert [ops[0]] + [ops[1]] == [ops[0], ops[1]];
    assert [ops[0], ops[1]] + [ops[2]] == ops;
  }

  lemma FirstLine()
    ensures var f := WroteFirst().file; CleanEnd(f) && AllLines(f) == [Stored(FIRST_MEMBER)]
  {
    hide AllLines, Appended, CleanEnd, Fold, Storable;
    MembersStorable();
    EmptyIsClean();
    CleanAppend(Absent, FIRST_MEMBER);
    assert [] + [Stored(FIRST_MEMBER)] == [Stored(FIRST_MEMBER)];
  }

  lemma TwoLines()
    ensures AllLines(WroteSecond().file) == [Stored(FIRST_MEMBER), Stored(SECOND_MEMBER)]
  {
    hide AllLines, Appended, CleanEnd, Fold, Storable, WroteFirst;
    FirstLine();
    MembersStorable();
    CleanAppend(WroteFirst().file, SECOND_MEMBER);
    assert [Stored(FIRST_MEMBER)] + [Stored(SECOND_MEMBER)] == [Stored(FIRST_MEMBER), Stored(SECOND_MEMBER)];
  }

  lemma TwoMembersSound()
    ensures Sound(WroteSecond())
  {
    hide Sound, Perform, Allowed, WroteFirst, WroteSecond, Asked;
    NewIsSound();
    Asks();
    WritesFirst();
    WritesSecond();
    PerformKeepsSound(NEW, TwoMembers()[0]);
    PerformKeepsSound(Asked(), TwoMembers()[1]);
    PerformKeepsSound(WroteFirst(), TwoMembers()[2]);
  }

  lemma MembersStorable()
    ensures Storable(FIRST_MEMBER) && Storable(SECOND_MEMBER)
  {
  }

  lemma EmptyIsClean()
    ensures CleanEnd(Absent) && AllLines(Absent) == []
  {
    LinesOfNothing([]);
  }

  /** It happens: after a compaction that keeps the second of two messages the next stranger gets the
      ordinal of the first one's sender. */
  lemma OrdinalsMayBeReused(r: Registry)
    requires r == After(NEW, TwoMembers())
    ensures AllAllowed(NEW, TwoMembers())
    ensures "x@lid" in r.view.ordinals && "z@lid" !in r.view.ordinals
    ensures OrdinalFor(Compact(r, 1), "z@lid").1 == r.view.ordinals["x@lid"]
  {
    hide AllLines, MessageKey, Sound, Compact, WroteSecond, After, AllAllowed;
    TwoMembersRun();
    TwoMembersSound();
    TwoLines();
    WritesSecond();
    var kept := Kept(AllLines(r.file), 1);
    assert kept == [Stored(SECOND_MEMBER)];
    ReplaySnoc([], Stored(SECOND_MEMBER));
    ReplayNone(BLANK_VIEW);
    assert [] + [Stored(SECOND_MEMBER)] == kept;
    CompactedView(r, 1);
    FirstOrdinalSnoc([], Stored(SECOND_MEMBER), "z@lid");
    StrangerGets(r, 1, "z@lid");
  }
}
