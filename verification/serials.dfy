/** One chat's serial registry (src/wahabot/ai/serials.py). */
module Serials {
  // The map between #m serials and message ids, kept in memory and in an append-only file of JSON lines.

  import opened Optional
  import opened Text
  import opened JsonLine
  import opened SerialFile
  import opened StrayLines

  const DEFAULT_KEEP := 2000
  const COMPACT_EVERY := 500

  /** The in-memory maps. */
  datatype View = View(
    entries: map<nat, Entry>,
    byMessage: map<string, nat>,
    byHash: map<string, nat>,
    ordinals: map<string, nat>,
    nextOrdinal: nat,
    lastSerial: nat)

  const BLANK_VIEW := View(map[], map[], map[], map[], 1, 0)

  function Max(a: nat, b: nat): nat {
    if a >= b then a else b
  }

  // ----- the short id inside a message id -----

  /** `s.split("_")`. */
  function Parts(s: string): (parts: seq<string>)
    ensures parts != []
  {
    if s == "" then [""]
    else
      var rest := Parts(s[1..]);
      if s[0] == '_' then [""] + rest else [[s[0]] + rest[0]] + rest[1..]
  }

  function MessageKey(id: string): string {
    var parts := Parts(id);
    if |parts| >= 3 && (parts[0] == "true" || parts[0] == "false") then parts[2] else id
  }

  predicate UnderscoreFree(s: string) {
    forall i | 0 <= i < |s| :: s[i] != '_'
  }

  lemma {:induction false} PartsOfFirst(a: string, rest: string)
    requires UnderscoreFree(a)
    ensures Parts(a + "_" + rest) == [a] + Parts(rest)
  {
    if a == "" {
      assert (a + "_" + rest)[1..] == rest;
    } else {
      assert (a + "_" + rest)[0] == a[0] && (a + "_" + rest)[1..] == a[1..] + "_" + rest;
      PartsOfFirst(a[1..], rest);
      assert [a[0]] + a[1..] == a;
    }
  }

  lemma {:induction false} PartsOfLast(a: string)
    requires UnderscoreFree(a)
    ensures Parts(a) == [a]
  {
    if a != "" {
      PartsOfLast(a[1..]);
      assert [a[0]] + a[1..] == a;
    }
  }

  /** Every shape of one message's id has the same key. */
  lemma KeyOfEveryShape(mine: bool, chat: string, short: string, participant: string)
    requires UnderscoreFree(chat) && UnderscoreFree(short)
    ensures var flag := if mine then "true" else "false";
            && MessageKey(flag + "_" + (chat + "_" + short)) == short
            && MessageKey(flag + "_" + (chat + "_" + (short + "_" + participant))) == short
            && MessageKey(short) == short
  {
    var flag := if mine then "true" else "false";
    PartsOfLast(short);
    PartsOfFirst(chat, short);
    PartsOfFirst(flag, chat + "_" + short);
    PartsOfFirst(short, participant);
    PartsOfFirst(chat, short + "_" + participant);
    PartsOfFirst(flag, chat + "_" + (short + "_" + participant));
  }

  // ----- reading the file -----

  /** add_line for a line that holds an entry. */
  function Fold(v: View, e: Entry): View {
    var first := e.ordinal > 0 && e.jid != "" && e.jid !in v.ordinals;
    View(
      v.entries[e.serial := e],
      v.byMessage[e.messageId := e.serial],
      v.byHash[MessageKey(e.messageId) := e.serial],
      if first then v.ordinals[e.jid := e.ordinal] else v.ordinals,
      if first then Max(v.nextOrdinal, e.ordinal + 1) else v.nextOrdinal,
      Max(v.lastSerial, e.serial))
  }

  function FoldLine(v: View, line: Line): View {
    if line.Stored? then Fold(v, line.entry) else v
  }

  function ReplayFrom(v: View, lines: seq<Line>): View {
    if lines == [] then v else FoldLine(ReplayFrom(v, lines[..|lines| - 1]), lines[|lines| - 1])
  }

  /** What a fresh process reads. */
  function Replay(lines: seq<Line>): View {
    ReplayFrom(BLANK_VIEW, lines)
  }

  lemma ReplayNone(v: View)
    ensures ReplayFrom(v, []) == v
  {
  }

  lemma ReplayFromSnoc(v: View, lines: seq<Line>, line: Line)
    ensures ReplayFrom(v, lines + [line]) == FoldLine(ReplayFrom(v, lines), line)
  {
    assert (lines + [line])[..|lines|] == lines;
  }

  lemma ReplaySnoc(lines: seq<Line>, line: Line)
    ensures Replay(lines + [line]) == FoldLine(Replay(lines), line)
  {
    assert (lines + [line])[..|lines|] == lines;
  }

  // ----- the registry -----

  datatype Registry = Registry(view: View, loaded: bool, file: File)

  const NEW := Registry(BLANK_VIEW, false, Absent)

  /** Index of the first line at which the loader raises, or the number of lines. */
  function FirstForeign(lines: seq<Line>): (n: nat)
    ensures n <= |lines| && Loadable(lines[..n]) && (n < |lines| ==> lines[n].Foreign?)
  {
    if Loadable(lines) then |lines|
    else if lines[|lines| - 1].Foreign? && Loadable(lines[..|lines| - 1]) then |lines| - 1
    else
      assert exists i :: 0 <= i < |lines| - 1 && lines[i].Foreign?;
      var n := FirstForeign(lines[..|lines| - 1]);
      assert lines[..|lines| - 1][..n] == lines[..n];
      n
  }

  /** What `load` leaves behind: when it raises, the lines before the foreign one are in the maps and the
      registry is not loaded. */
  function Load(r: Registry): Registry {
    if r.loaded then r
    else
      var lines := AllLines(r.file);
      r.(view := ReplayFrom(r.view, lines[..FirstForeign(lines)]), loaded := Loadable(lines))
  }

  /** Every operation that loads raises as well. */
  predicate Raises(r: Registry) {
    !Load(r).loaded
  }

  predicate Known(r: Registry, messageId: string) {
    !Raises(r) && messageId in Load(r).view.byMessage
  }

  function NewEntry(r: Registry, messageId: string, jid: string, name: string, ordinal: nat): Entry {
    Entry(Load(r).view.lastSerial + 1, messageId, jid, name, ordinal)
  }

  /** `next`: the existing serial of a known message, or a new one that is also written down; 0 where
      the load raises. */
  function Next(r: Registry, messageId: string, jid: string, name: string, ordinal: nat): (Registry, nat) {
    var l := Load(r);
    if !l.loaded then (l, 0)
    else if messageId in l.view.byMessage then (l, l.view.byMessage[messageId])
    else
      var e := NewEntry(r, messageId, jid, name, ordinal);
      (l.(view := Fold(l.view, e), file := Appended(l.file, e)), e.serial)
  }

  function OrdinalFor(r: Registry, jid: string): (Registry, nat) {
    if jid == "" then (r, 0)
    else
      var l := Load(r);
      if !l.loaded then (l, 0)
      else if jid in l.view.ordinals then (l, l.view.ordinals[jid])
      else
        var n := l.view.nextOrdinal;
        (l.(view := l.view.(ordinals := l.view.ordinals[jid := n], nextOrdinal := n + 1)), n)
  }

  function Reset(r: Registry): Registry {
    r.(view := BLANK_VIEW, loaded := false)
  }

  function Compact(r: Registry, keep: nat): Registry {
    if r.file.Absent? then r
    else
      var lines := NonBlank(Lines(Content(r.file)));
      if |lines| <= keep then r else Reset(r.(file := Rewritten(Newest(lines, keep))))
  }

  // ----- memory and file say the same -----

  /** Ordinals run from 1, and somebody holds the greatest one that was handed out. */
  ghost predicate OrdinalsInv(v: View) {
    && v.nextOrdinal > 0
    && (forall j | j in v.ordinals :: 0 < v.ordinals[j] < v.nextOrdinal)
    && (v.nextOrdinal > 1 ==> exists j :: j in v.ordinals && v.ordinals[j] == v.nextOrdinal - 1)
  }

  /** The memory maps are what a fresh process would read. Ordinals may be ahead of the file: one that
      was handed out is written only with its member's next message. */
  ghost predicate Mirrors(v: View, f: File) {
    var r := Replay(AllLines(f));
    && Loadable(AllLines(f))
    && v.entries == r.entries && v.byMessage == r.byMessage && v.byHash == r.byHash && v.lastSerial == r.lastSerial
    && (forall j | j in r.ordinals :: j in v.ordinals && v.ordinals[j] == r.ordinals[j])
    && r.nextOrdinal <= v.nextOrdinal
    && OrdinalsInv(v)
  }

  ghost predicate Inv(r: Registry) {
    if r.loaded then Mirrors(r.view, r.file) else r.view == BLANK_VIEW || !Loadable(AllLines(r.file))
  }

  lemma FoldOrdinals(v: View, e: Entry)
    requires OrdinalsInv(v)
    ensures OrdinalsInv(Fold(v, e))
  {
    hide MessageKey;
    var n := Fold(v, e);
    if n.nextOrdinal > 1 {
      if e.ordinal > 0 && e.jid != "" && e.jid !in v.ordinals && n.nextOrdinal == e.ordinal + 1 {
        assert n.ordinals[e.jid] == n.nextOrdinal - 1;
      } else {
        var j :| j in v.ordinals && v.ordinals[j] == v.nextOrdinal - 1;
        assert n.ordinals[j] == n.nextOrdinal - 1;
      }
    }
  }

  lemma {:induction false} ReplayOrdinals(lines: seq<Line>)
    ensures OrdinalsInv(Replay(lines))
  {
    if lines != [] {
      var init, last := lines[..|lines| - 1], lines[|lines| - 1];
      ReplayOrdinals(init);
      assert Replay(lines) == FoldLine(Replay(init), last);
      if last.Stored? {
        FoldOrdinals(Replay(init), last.entry);
      }
    }
  }

  lemma LoadMirrors(r: Registry)
    requires Inv(r)
    ensures Inv(Load(r)) && Load(r).file == r.file
    ensures Raises(r) <==> !r.loaded && !Loadable(AllLines(r.file))
    ensures !Raises(r) ==> Mirrors(Load(r).view, r.file)
  {
    hide AllLines, OrdinalsInv;
    var lines := AllLines(r.file);
    ReplayOrdinals(lines);
    if Loadable(lines) {
      AllBeforeForeign(lines);
    }
  }

  lemma AllBeforeForeign(lines: seq<Line>)
    requires Loadable(lines)
    ensures FirstForeign(lines) == |lines| && lines[..FirstForeign(lines)] == lines
  {
  }

  lemma FirstForeignAt(lines: seq<Line>, i: nat)
    requires i < |lines| && Loadable(lines[..i]) && lines[i].Foreign?
    ensures FirstForeign(lines) == i && !Loadable(lines)
  {
    var n := FirstForeign(lines);
    assert forall j | 0 <= j < n :: lines[..n][j] == lines[j];
    assert forall j | 0 <= j < i :: lines[..i][j] == lines[j];
  }

  /** A file of entries only loads. */
  lemma SoundLoads(r: Registry)
    requires Sound(r)
    ensures !Raises(r) && Mirrors(Load(r).view, r.file)
  {
    hide AllLines, Mirrors, CleanEnd;
    LoadMirrors(r);
  }

  /** The ordinal is the one memory has for the sender, if it has one: what ordinal_for returned. */
  predicate OrdinalFits(v: View, jid: string, ordinal: nat) {
    ordinal > 0 && jid != "" && jid in v.ordinals ==> v.ordinals[jid] == ordinal
  }

  lemma FoldMirrors(v: View, f: File, g: File, e: Entry)
    requires Mirrors(v, f) && Loadable(AllLines(g)) && Replay(AllLines(g)) == Fold(Replay(AllLines(f)), e)
    requires OrdinalFits(v, e.jid, e.ordinal)
    ensures Mirrors(Fold(v, e), g)
  {
    FoldOrdinals(v, e);
  }

  lemma {:induction false} ReplayIgnores(lines: seq<Line>, more: seq<Line>)
    requires NoneStored(more)
    ensures Replay(lines + more) == Replay(lines)
  {
    if more == [] {
      assert lines + more == lines;
    } else {
      var init, last := more[..|more| - 1], more[|more| - 1];
      assert forall i | 0 <= i < |init| :: init[i] == more[i];
      ReplayIgnores(lines, init);
      ReplaySnoc(lines + init, last);
      assert lines + more == (lines + init) + [last];
    }
  }

  lemma LoadableConcat(a: seq<Line>, b: seq<Line>)
    ensures Loadable(a + b) <==> Loadable(a) && Loadable(b)
  {
    if Loadable(a + b) {
      assert forall i | 0 <= i < |a| :: a[i] == (a + b)[i];
      assert forall i | 0 <= i < |b| :: b[i] == (a + b)[|a| + i];
    }
  }

  /** A load gets through the file after a write exactly when it got through the terminated lines and the
      entry is not poisonous; a tail is no longer read on its own. */
  lemma AppendLoadsIff(f: File, e: Entry)
    ensures Loadable(AllLines(Appended(f, e))) <==> Loadable(Terminated(f)) && !Poisonous(e)
  {
    hide AllLines, Terminated, Written, Appended, Loadable, Poisonous;
    WriteExtends(f, e);
    LoadableConcat(Terminated(f), Written(f, e));
    WrittenForeignIff(f, e);
  }

  lemma EndsWithFeed(f: File, e: Entry)
    ensures var t := Content(Appended(f, e)); t != "" && t[|t| - 1] == '\n' && IsBreak('\n')
  {
    hide EntryText;
    NewlineIsBreak();
  }

  /** A poisonous entry makes every later load raise, whatever is written behind it. */
  lemma PoisonStays(f: File, e: Entry, later: string)
    requires Poisonous(e)
    ensures !Loadable(AllLines(Present(Content(Appended(f, e)) + later)))
  {
    hide Lines, DecodeLine, Poisonous, EntryText, TailStart, Appended;
    var g := Appended(f, e);
    AppendLoadsIff(f, e);
    WriteExtends(f, e);
    var t := Content(g);
    EndsWithFeed(f, e);
    LinesConcat(t, later);
    DecodedConcat(Lines(t), Lines(later));
    LoadableConcat(AllLines(g), Decoded(Lines(later)));
  }

  /** What a restart that does not raise reads behind a write: the entry is there exactly when it has no
      stray line end and the file ended in nothing but white space; behind any other tail the tail is lost
      as well. */
  lemma AppendReplays(f: File, e: Entry)
    ensures Replay(AllLines(Appended(f, e))) ==
            if !BlankEnd(f) then Replay(Terminated(f))
            else if Storable(e) then Fold(Replay(AllLines(f)), e)
            else Replay(AllLines(f))
    ensures BlankEnd(f) ==> Replay(AllLines(f)) == Replay(Terminated(f))
  {
    hide ReplayFrom, Storable, DecodeLine, Tail, IsBlank, Fold, AllLines, Terminated, Written, Appended;
    WriteExtends(f, e);
    LinesWithTail(f);
    if BlankEnd(f) {
      BlankLine(Tail(f));
      ReplayIgnores(Terminated(f), if Tail(f) == "" then [] else [DecodeLine(Tail(f))]);
    }
    if Storable(e) {
      EntryIsWritten(f, e);
      ReplaySnoc(Terminated(f), Written(f, e)[0]);
    } else {
      StrayEntryIsLost(f, e);
      ReplayIgnores(Terminated(f), Written(f, e));
    }
  }

  lemma {:induction false} SerialsBelowLast(lines: seq<Line>)
    ensures forall n | n in Replay(lines).entries :: n <= Replay(lines).lastSerial && Replay(lines).entries[n].serial == n
    ensures forall m | m in Replay(lines).byMessage :: Replay(lines).byMessage[m] <= Replay(lines).lastSerial
  {
    if lines != [] {
      var init, last := lines[..|lines| - 1], lines[|lines| - 1];
      SerialsBelowLast(init);
      assert Replay(lines) == FoldLine(Replay(init), last);
    }
  }

  /** A new message is written so that a restart finds it exactly when the file ends in nothing but
      white space and no field of the entry holds a stray line end. */
  lemma NextMirrorsIff(r: Registry, messageId: string, jid: string, name: string, ordinal: nat)
    requires Inv(r) && OrdinalFits(Load(r).view, jid, ordinal)
    ensures Inv(Next(r, messageId, jid, name, ordinal).0)
            <==> || Raises(r) || Known(r, messageId)
                 || (BlankEnd(r.file) && Storable(NewEntry(r, messageId, jid, name, ordinal)))
  {
    hide ReplayFrom, Storable, OrdinalFits, AllLines, BlankEnd, Terminated, Appended, MessageKey, OrdinalsInv, Load, Loadable, Poisonous;
    LoadMirrors(r);
    if !Raises(r) && !Known(r, messageId) {
      var v, e, n := Load(r).view, NewEntry(r, messageId, jid, name, ordinal), Next(r, messageId, jid, name, ordinal).0;
      AppendReplays(r.file, e);
      if BlankEnd(r.file) && Storable(e) {
        AppendLoadsIff(r.file, e);
        StorableIsHarmless(e);
        TerminatedLoadable(r.file);
        FoldMirrors(v, r.file, n.file, e);
      } else {
        TerminatedLastSerial(r.file);
        assert n.view.lastSerial == v.lastSerial + 1;
      }
    }
  }

  lemma TerminatedLoadable(f: File)
    requires Loadable(AllLines(f))
    ensures Loadable(Terminated(f))
  {
    hide AllLines, Terminated, Loadable;
    LinesWithTail(f);
    LoadableConcat(Terminated(f), if Tail(f) == "" then [] else [DecodeLine(Tail(f))]);
  }

  lemma TerminatedLastSerial(f: File)
    ensures Replay(Terminated(f)).lastSerial <= Replay(AllLines(f)).lastSerial
  {
    LinesWithTail(f);
    if Tail(f) == "" {
      assert Terminated(f) + [] == Terminated(f);
    } else {
      ReplaySnoc(Terminated(f), DecodeLine(Tail(f)));
    }
  }

  /** What one call promises: the same serial for ever after for a known message and the next serial
      for a new one, found again by its token, its full id and its short id. */
  lemma NextPromise(r: Registry, messageId: string, jid: string, name: string, ordinal: nat)
    requires Inv(r)
    ensures var (n, serial) := Next(r, messageId, jid, name, ordinal);
            && (Raises(r) <==> !n.loaded)
            && (Raises(r) ==> n == Load(r) && n.file == r.file)
            && (!Raises(r) ==> n.view.byMessage == Load(r).view.byMessage[messageId := serial])
            && (Known(r, messageId) ==> n == Load(r) && serial <= n.view.lastSerial)
            && (!Raises(r) && !Known(r, messageId) ==>
                  && serial == Load(r).view.lastSerial + 1 == n.view.lastSerial
                  && serial !in Load(r).view.entries
                  && n.view.entries == Load(r).view.entries[serial := Entry(serial, messageId, jid, name, ordinal)]
                  && n.view.byHash == Load(r).view.byHash[MessageKey(messageId) := serial])
  {
    hide AllLines, FirstForeign, Appended, OrdinalsInv;
    LoadMirrors(r);
    SerialsBelowLast(AllLines(r.file));
  }

  // ----- files the program writes: entries only, in the order of their serials -----

  predicate Ordered(lines: seq<Line>) {
    && (forall i | 0 <= i < |lines| :: lines[i].Stored? && lines[i].entry.serial > 0)
    && (forall i, j | 0 <= i < j < |lines| :: lines[i].entry.serial < lines[j].entry.serial)
  }

  predicate SoundFile(f: File) {
    CleanEnd(f) && Ordered(AllLines(f))
  }

  ghost predicate Sound(r: Registry) {
    Inv(r) && SoundFile(r.file)
  }

  predicate HasLine(lines: seq<Line>, n: nat) {
    exists i :: 0 <= i < |lines| && lines[i].Stored? && lines[i].entry.serial == n
  }

  lemma HasLineSnoc(init: seq<Line>, last: Line, n: nat)
    ensures HasLine(init + [last], n) <==> HasLine(init, n) || (last.Stored? && last.entry.serial == n)
  {
    var lines := init + [last];
    if HasLine(init, n) {
      var i :| 0 <= i < |init| && init[i].Stored? && init[i].entry.serial == n;
      assert lines[i] == init[i];
    }
    if last.Stored? && last.entry.serial == n {
      assert lines[|init|] == last;
    }
  }

  /** Exactly the serials with a line are known after reading. */
  lemma {:induction false} ReplayKnows(lines: seq<Line>, n: nat)
    ensures n in Replay(lines).entries <==> HasLine(lines, n)
  {
    if lines != [] {
      var init, last := lines[..|lines| - 1], lines[|lines| - 1];
      ReplayKnows(init, n);
      assert Replay(lines) == FoldLine(Replay(init), last);
      assert lines == init + [last];
      HasLineSnoc(init, last, n);
    }
  }

  /** An ordered file is read as one entry a line, the last line's serial being the last. */
  lemma {:induction false} ReplayOrdered(lines: seq<Line>)
    requires Ordered(lines)
    ensures var v := Replay(lines);
            && (forall i | 0 <= i < |lines| :: lines[i].entry.serial in v.entries && v.entries[lines[i].entry.serial] == lines[i].entry)
            && v.lastSerial == if lines == [] then 0 else lines[|lines| - 1].entry.serial
  {
    if lines != [] {
      var init, last := lines[..|lines| - 1], lines[|lines| - 1];
      ReplayOrdered(init);
      assert Replay(lines) == FoldLine(Replay(init), last);
      assert forall i | 0 <= i < |init| :: lines[i] == init[i];
    }
  }

  /** The lines a compaction leaves. */
  function Kept(lines: seq<Line>, keep: nat): seq<Line> {
    if keep == 0 || |lines| <= keep then lines else lines[|lines| - keep..]
  }

  lemma KeptOrdered(lines: seq<Line>, keep: nat)
    requires Ordered(lines)
    ensures Ordered(Kept(lines, keep))
  {
    var kept := Kept(lines, keep);
    var k := |lines| - |kept|;
    assert forall i | 0 <= i < |kept| :: kept[i] == lines[k + i];
  }

  lemma CompactedLines(r: Registry, keep: nat)
    requires SoundFile(r.file)
    ensures SoundFile(Compact(r, keep).file) && AllLines(Compact(r, keep).file) == Kept(AllLines(r.file), keep)
  {
    hide DecodeLine, Rewritten, CleanEnd, BreakFree, Ordered;
    var lines := Lines(Content(r.file));
    KeptOrdered(AllLines(r.file), keep);
    forall i | 0 <= i < |lines|
      ensures DecodeLine(lines[i]).Stored?
    {
      OrderedAt(AllLines(r.file), i);
    }
    NonBlankAll(lines);
    if r.file.Present? && |lines| > keep {
      LinesAreBreakFree(Content(r.file));
      NewestMembers(lines, keep);
      RewrittenReads(Newest(lines, keep));
      NewestDecoded(lines, keep);
    }
  }

  lemma OrderedAt(lines: seq<Line>, i: nat)
    requires Ordered(lines) && i < |lines|
    ensures lines[i].Stored?
  {
  }

  lemma NewestMembers(lines: seq<string>, keep: nat)
    requires keep < |lines|
    ensures Newest(lines, keep) != [] && forall l | l in Newest(lines, keep) :: l in lines
  {
  }

  lemma NewestDecoded(lines: seq<string>, keep: nat)
    requires keep < |lines|
    ensures Decoded(Newest(lines, keep)) == Kept(Decoded(lines), keep)
  {
    hide DecodeLine;
  }

  /** The end of an ordered file is read as the entries from its first serial on, unchanged. */
  lemma ReplaySuffix(lines: seq<Line>, k: nat)
    requires Ordered(lines) && k < |lines|
    ensures var before, after := Replay(lines), Replay(lines[k..]);
            && after.lastSerial == before.lastSerial
            && (forall n | n in after.entries :: n in before.entries && after.entries[n] == before.entries[n])
            && (forall n | n in before.entries :: n in after.entries <==> n >= lines[k].entry.serial)
  {
    var tail := lines[k..];
    assert forall i | 0 <= i < |tail| :: tail[i] == lines[k + i];
    ReplayOrdered(lines);
    ReplayOrdered(tail);
    forall n | n in Replay(lines).entries
      ensures n in Replay(tail).entries <==> n >= lines[k].entry.serial
    {
      ReplayKnows(lines, n);
      ReplayKnows(tail, n);
      var i :| 0 <= i < |lines| && lines[i].entry.serial == n;
      if i >= k {
        assert tail[i - k].entry.serial == n;
      }
    }
    forall n | n in Replay(tail).entries
      ensures n in Replay(lines).entries && Replay(tail).entries[n] == Replay(lines).entries[n]
    {
      ReplayKnows(tail, n);
      var i :| 0 <= i < |tail| && tail[i].entry.serial == n;
      assert lines[k + i].entry.serial == n;
    }
  }

  /** Compaction keeps exactly the newest `keep` entries, as they were, and the last serial; with
      keep = 0, or when there is nothing to drop, it keeps all. */
  lemma CompactKeepsNewest(r: Registry, keep: nat)
    requires Sound(r)
    ensures Sound(Compact(r, keep))
    ensures var before, after := AllLines(r.file), AllLines(Compact(r, keep).file);
            && |after| == (if keep == 0 || |before| <= keep then |before| else keep)
            && Replay(after).lastSerial == Replay(before).lastSerial
            && (forall n | n in Replay(after).entries :: n in Replay(before).entries && Replay(after).entries[n] == Replay(before).entries[n])
            && (forall n | n in Replay(before).entries :: n in Replay(after).entries <==> after != [] && n >= after[0].entry.serial)
  {
    hide AllLines, CleanEnd, Rewritten, OrdinalsInv;
    CompactedLines(r, keep);
    var lines := AllLines(r.file);
    if lines != [] {
      var k := |lines| - |Kept(lines, keep)|;
      assert Kept(lines, keep) == lines[k..];
      ReplaySuffix(lines, k);
    }
  }

  lemma OrderedSnoc(lines: seq<Line>, e: Entry)
    requires Ordered(lines) && e.serial > 0 && (lines != [] ==> lines[|lines| - 1].entry.serial < e.serial)
    ensures Ordered(lines + [Stored(e)])
  {
    var more := lines + [Stored(e)];
    forall i, j | 0 <= i < j < |more|
      ensures more[i].entry.serial < more[j].entry.serial
    {
      assert more[i] == lines[i];
    }
  }

  lemma CleanAppend(f: File, e: Entry)
    requires CleanEnd(f) && Storable(e)
    ensures BlankEnd(f) && CleanEnd(Appended(f, e)) && AllLines(Appended(f, e)) == AllLines(f) + [Stored(e)]
  {
    hide Storable, DecodeLine, TailStart, Appended;
    WriteExtends(f, e);
    LinesWithTail(f);
    EntryIsWritten(f, e);
  }

  lemma AppendKeepsOrder(f: File, e: Entry)
    requires SoundFile(f) && Storable(e) && e.serial == Replay(AllLines(f)).lastSerial + 1
    ensures SoundFile(Appended(f, e)) && Replay(AllLines(Appended(f, e))).lastSerial == e.serial
  {
    hide ReplayFrom, Storable, AllLines, Appended, CleanEnd;
    CleanAppend(f, e);
    ReplayOrdered(AllLines(f));
    OrderedSnoc(AllLines(f), e);
    ReplaySnoc(AllLines(f), Stored(e));
  }

  lemma NextKeepsSound(r: Registry, messageId: string, jid: string, name: string, ordinal: nat)
    requires Sound(r) && OrdinalFits(Load(r).view, jid, ordinal)
    requires LineFree(messageId) && LineFree(jid) && LineFree(name)
    ensures Sound(Next(r, messageId, jid, name, ordinal).0)
    ensures var (n, serial) := Next(r, messageId, jid, name, ordinal);
            Replay(AllLines(n.file)).lastSerial == if Known(r, messageId) then Replay(AllLines(r.file)).lastSerial else serial
    ensures !Known(r, messageId) ==> Next(r, messageId, jid, name, ordinal).1 == Replay(AllLines(r.file)).lastSerial + 1
  {
    LoadMirrors(r);
    NextMirrorsIff(r, messageId, jid, name, ordinal);
    if !Known(r, messageId) {
      var e := NewEntry(r, messageId, jid, name, ordinal);
      AppendKeepsOrder(r.file, e);
    }
  }

  lemma OrdinalForKeepsInv(r: Registry, jid: string)
    requires Inv(r)
    ensures Inv(OrdinalFor(r, jid).0) && OrdinalFor(r, jid).0.file == r.file
    ensures OrdinalFits(Load(OrdinalFor(r, jid).0).view, jid, OrdinalFor(r, jid).1)
    ensures jid != "" && !Raises(r) ==> forall j | j in Load(r).view.ordinals && Load(r).view.ordinals[j] == OrdinalFor(r, jid).1 ::
              j == jid || jid in Load(r).view.ordinals
  {
    hide AllLines, ReplayFrom, FirstForeign;
    LoadMirrors(r);
    if !Raises(r) && jid != "" && jid !in Load(r).view.ordinals {
      NewOrdinal(Load(r).view, jid);
    }
  }

  lemma NewOrdinal(v: View, jid: string)
    requires OrdinalsInv(v) && jid !in v.ordinals
    ensures OrdinalsInv(v.(ordinals := v.ordinals[jid := v.nextOrdinal], nextOrdinal := v.nextOrdinal + 1))
  {
    assert v.ordinals[jid := v.nextOrdinal][jid] == v.nextOrdinal;
  }

  // ----- every run of a registry -----

  datatype Op =
    | Ingest(messageId: string, jid: string, name: string, ordinal: nat)
    | AskOrdinal(jid: string)
    | Compacting(keep: nat)
    | Restart

  /** The texts hold no stray line end, and the ordinal is the one ordinal_for gave. */
  predicate Allowed(r: Registry, op: Op) {
    op.Ingest? ==> LineFree(op.messageId) && LineFree(op.jid) && LineFree(op.name) && OrdinalFits(Load(r).view, op.jid, op.ordinal)
  }

  function Perform(r: Registry, op: Op): Registry {
    match op
    case Ingest(messageId, jid, name, ordinal) => Next(r, messageId, jid, name, ordinal).0
    case AskOrdinal(jid) => OrdinalFor(r, jid).0
    case Compacting(keep) => Compact(r, keep)
    case Restart => Reset(r)
  }

  /** The serial the operation gives to a message it has not seen, if it does. */
  function Issues(r: Registry, op: Op): seq<nat> {
    if op.Ingest? && !Raises(r) && !Known(r, op.messageId) then [Next(r, op.messageId, op.jid, op.name, op.ordinal).1] else []
  }

  ghost predicate AllAllowed(r: Registry, ops: seq<Op>)
    decreases |ops|
  {
    ops == [] || (Allowed(r, ops[0]) && AllAllowed(Perform(r, ops[0]), ops[1..]))
  }

  function After(r: Registry, ops: seq<Op>): Registry
    decreases |ops|
  {
    if ops == [] then r else After(Perform(r, ops[0]), ops[1..])
  }

  function Issued(r: Registry, ops: seq<Op>): seq<nat>
    decreases |ops|
  {
    if ops == [] then [] else Issues(r, ops[0]) + Issued(Perform(r, ops[0]), ops[1..])
  }

  lemma PerformKeepsSound(r: Registry, op: Op)
    requires Sound(r) && Allowed(r, op)
    ensures Sound(Perform(r, op))
    ensures var last := Replay(AllLines(r.file)).lastSerial;
            && Replay(AllLines(Perform(r, op).file)).lastSerial == last + |Issues(r, op)|
            && (Issues(r, op) != [] ==> Issues(r, op) == [last + 1])
  {
    match op
    case Ingest(messageId, jid, name, ordinal) => NextKeepsSound(r, messageId, jid, name, ordinal);
    case AskOrdinal(jid) => OrdinalForKeepsInv(r, jid);
    case Compacting(keep) => CompactKeepsNewest(r, keep);
    case Restart =>
  }

  /** Over any run with restarts and compactions the serials given out are consecutive, so strictly
      increasing and never used again, and what memory holds is always what a restart would read. */
  lemma {:induction false} SerialsNeverReused(r: Registry, ops: seq<Op>)
    requires Sound(r) && AllAllowed(r, ops)
    ensures Sound(After(r, ops))
    ensures var last := Replay(AllLines(r.file)).lastSerial;
            forall i | 0 <= i < |Issued(r, ops)| :: Issued(r, ops)[i] == last + 1 + i
    decreases |ops|
  {
    hide Sound, Allowed, Perform, Issues, Replay, AllLines;
    if ops != [] {
      PerformKeepsSound(r, ops[0]);
      SerialsNeverReused(Perform(r, ops[0]), ops[1..]);
    }
  }

  lemma RestartReadsTheSame(r: Registry, ops: seq<Op>)
    requires Sound(r) && AllAllowed(r, ops) && After(r, ops).loaded
    ensures var now, again := After(r, ops).view, Load(Reset(After(r, ops))).view;
            again.entries == now.entries && again.byMessage == now.byMessage && again.byHash == now.byHash
            && again.lastSerial == now.lastSerial
  {
    hide Sound, After, Issued, AllAllowed;
    SerialsNeverReused(r, ops);
    RestartMirrors(After(r, ops));
  }

  lemma RestartMirrors(m: Registry)
    requires Sound(m) && m.loaded
    ensures var now, again := m.view, Load(Reset(m)).view;
            again.entries == now.entries && again.byMessage == now.byMessage && again.byHash == now.byHash
            && again.lastSerial == now.lastSerial
  {
    hide AllLines, ReplayFrom, FirstForeign, OrdinalsInv, CleanEnd, Ordered;
    AllBeforeForeign(AllLines(m.file));
  }

  // ----- looking messages up -----

  /** The number a token names: `#m` and digits, white space around them aside. */
  function TokenNumber(token: string): Option<nat> {
    var t := Strip(token);
    if "#m" <= t && |t| > 2 && DigitRun(t[2..]) == |t| - 2 then Some(Value(t[2..])) else None
  }

  function Resolve(r: Registry, token: string): Option<Entry> {
    var n, v := TokenNumber(token), Load(r).view;
    if n.Some? && !Raises(r) && n.value in v.entries then Some(v.entries[n.value]) else None
  }

  /** By the full id, or by the short id inside it; 0 when unknown. */
  function SerialFor(r: Registry, messageId: string): nat {
    var v := Load(r).view;
    if Raises(r) then 0
    else if messageId in v.byMessage then v.byMessage[messageId]
    else if MessageKey(messageId) in v.byHash then v.byHash[MessageKey(messageId)]
    else 0
  }

  lemma TokenOfNumeral(n: nat)
    ensures TokenNumber("#m" + Numeral(n)) == Some(n)
  {
    var t := "#m" + Numeral(n);
    assert t[2..] == Numeral(n) && t[0] == '#' && t[1] == 'm';
    assert t[|t| - 1] == Numeral(n)[|Numeral(n)| - 1];
    assert Strip(t) == t;
    DigitRunAt(Numeral(n), "");
    assert Numeral(n) + "" == Numeral(n);
    ValueOfNumeral(n);
  }

  /** A new message is found again by its token, by its full id, and by every id with the same short
      id that is not itself on record. */
  lemma FreshMessageIsFound(r: Registry, messageId: string, jid: string, name: string, ordinal: nat, other: string)
    requires Inv(r) && !Raises(r) && !Known(r, messageId)
    ensures var (n, serial) := Next(r, messageId, jid, name, ordinal);
            && Resolve(n, "#m" + Numeral(serial)) == Some(Entry(serial, messageId, jid, name, ordinal))
            && SerialFor(n, messageId) == serial
            && (MessageKey(other) == MessageKey(messageId) && other !in n.view.byMessage ==> SerialFor(n, other) == serial)
            && Next(n, messageId, jid, name, ordinal) == (n, serial)
  {
    NextPromise(r, messageId, jid, name, ordinal);
    TokenOfNumeral(Next(r, messageId, jid, name, ordinal).1);
  }

  // ----- assign, which compacts every so often -----

  /** Why `assign` raises: the file cannot be loaded, or its own compaction dropped the message's line. */
  datatype Fault = Unloadable | UnknownSerial

  function Assign(r: Registry, messageId: string, jid: string, name: string, ordinal: nat): (Registry, Result<Entry, Fault>) {
    var (n, serial) := Next(r, messageId, jid, name, ordinal);
    if !n.loaded then (n, Failure(Unloadable))
    else
      var c := Load(if n.view.lastSerial % COMPACT_EVERY == 0 then Compact(n, DEFAULT_KEEP) else n);
      if !c.loaded then (c, Failure(Unloadable))
      else if serial in c.view.entries then (c, Success(c.view.entries[serial]))
      else (c, Failure(UnknownSerial))
  }

  lemma {:induction false} EntriesOfMessages(lines: seq<Line>)
    ensures forall m | m in Replay(lines).byMessage :: Replay(lines).byMessage[m] in Replay(lines).entries
  {
    if lines != [] {
      var init, last := lines[..|lines| - 1], lines[|lines| - 1];
      EntriesOfMessages(init);
      assert Replay(lines) == FoldLine(Replay(init), last);
    }
  }

  /** The serial has a line, and a compaction would drop it. */
  predicate WouldDrop(lines: seq<Line>, serial: nat)
    requires Ordered(lines)
  {
    |lines| > DEFAULT_KEEP && serial < lines[|lines| - DEFAULT_KEEP].entry.serial
  }

  /** A compaction drops a serial's entry exactly when it drops its line. */
  lemma CompactionDropsIff(n: Registry, serial: nat)
    requires Sound(n) && n.loaded && serial in n.view.entries
    ensures var c := Load(Compact(n, DEFAULT_KEEP));
            c.loaded && (serial !in c.view.entries <==> WouldDrop(AllLines(n.file), serial))
  {
    hide ReplayFrom, Fold, NonBlank, Newest, AllLines, Load, Compact, OrdinalsInv, CleanEnd;
    CompactKeepsNewest(n, DEFAULT_KEEP);
    CompactedLines(n, DEFAULT_KEEP);
    ReloadedMirrors(Compact(n, DEFAULT_KEEP));
    ReplayKnows(AllLines(n.file), serial);
  }

  lemma ReloadedMirrors(c: Registry)
    requires Sound(c)
    ensures Load(c).loaded && Load(c).view.entries == Replay(AllLines(c.file)).entries
  {
    hide AllLines, OrdinalsInv, CleanEnd;
    LoadMirrors(c);
  }

  /** assign fails exactly for a message seen before whose line the compaction it triggers drops: the
      last serial is a multiple of 500 and 2000 newer lines follow. */
  lemma AssignFailsIff(r: Registry, messageId: string, jid: string, name: string, ordinal: nat)
    requires Sound(r) && OrdinalFits(Load(r).view, jid, ordinal)
    requires LineFree(messageId) && LineFree(jid) && LineFree(name)
    ensures Assign(r, messageId, jid, name, ordinal).1 != Failure(Unloadable)
    ensures Assign(r, messageId, jid, name, ordinal).1 == Failure(UnknownSerial)
            <==> && Known(r, messageId) && Load(r).view.lastSerial % 500 == 0
                 && |AllLines(r.file)| > 2000 && Load(r).view.byMessage[messageId] < AllLines(r.file)[|AllLines(r.file)| - 2000].entry.serial
  {
    hide ReplayFrom, Fold, NonBlank, Newest, AllLines, Load, Compact, OrdinalsInv, CleanEnd, OrdinalFits, MessageKey, Next;
    LoadMirrors(r);
    EntriesOfMessages(AllLines(r.file));
    NextPromise(r, messageId, jid, name, ordinal);
    NextKeepsSound(r, messageId, jid, name, ordinal);
    var (n, serial) := Next(r, messageId, jid, name, ordinal);
    LoadedStays(n);
    if n.view.lastSerial % COMPACT_EVERY == 0 {
      CompactionDropsIff(n, serial);
      if !Known(r, messageId) {
        ReplayOrdered(AllLines(n.file));
        ReplayKnows(AllLines(n.file), serial);
      }
    }
  }

  lemma LoadedStays(n: Registry)
    ensures n.loaded ==> Load(n) == n
  {
  }

  // ----- the registry object -----

  class SerialRegistry {
    var entries: map<nat, Entry>
    var byMessage: map<string, nat>
    var byHash: map<string, nat>
    var ordinals: map<string, nat>
    var nextOrdinal: nat
    var lastSerial: nat
    var loaded: bool
    var file: File

    constructor (file: File)
      ensures State() == Registry(BLANK_VIEW, false, file)
    {
      entries, byMessage, byHash, ordinals := map[], map[], map[], map[];
      nextOrdinal, lastSerial, loaded := 1, 0, false;
      this.file := file;
    }

    function Maps(): View
      reads this
    {
      View(entries, byMessage, byHash, ordinals, nextOrdinal, lastSerial)
    }

    function State(): Registry
      reads this
    {
      Registry(Maps(), loaded, file)
    }

    method AddEntry(e: Entry)
      modifies this`entries, this`byMessage, this`byHash, this`ordinals, this`nextOrdinal, this`lastSerial
      ensures Maps() == Fold(old(Maps()), e)
    {
      entries := entries[e.serial := e];
      byMessage := byMessage[e.messageId := e.serial];
      byHash := byHash[MessageKey(e.messageId) := e.serial];
      lastSerial := if lastSerial >= e.serial then lastSerial else e.serial;
      if e.ordinal > 0 && e.jid != "" && e.jid !in ordinals {
        ordinals := ordinals[e.jid := e.ordinal];
        nextOrdinal := Max(nextOrdinal, e.ordinal + 1);
      }
    }

    /** False where the source raises. */
    method LoadFile() returns (ok: bool)
      modifies this
      ensures State() == Load(old(State())) && ok == loaded
    {
      hide DecodeLine, Lines, Fold, ReplayFrom, FirstForeign;
      if loaded {
        return true;
      }
      var lines := Lines(Content(file));
      ghost var was, all := Maps(), AllLines(file);
      ReplayNone(was);
      for i := 0 to |lines|
        invariant file == old(file) && !loaded && Maps() == ReplayFrom(was, all[..i])
        invariant Loadable(all[..i])
      {
        assert all[..i + 1] == all[..i] + [all[i]];
        ReplayFromSnoc(was, all[..i], all[i]);
        var line := DecodeLine(lines[i]);
        if line.Foreign? {
          FirstForeignAt(all, i);
          return false;
        }
        if line.Stored? {
          AddEntry(line.entry);
        }
      }
      assert all[..|lines|] == all;
      AllBeforeForeign(all);
      loaded := true;
      ok := true;
    }

    /** None where the load raises. */
    method NextSerial(messageId: string, jid: string, name: string, ordinal: nat) returns (serial: Option<nat>)
      modifies this
      ensures var (n, given) := Next(old(State()), messageId, jid, name, ordinal);
              State() == n && serial == if Raises(old(State())) then None else Some(given)
    {
      hide AllLines, FirstForeign, MessageKey;
      var ok := LoadFile();
      if !ok {
        return None;
      }
      if messageId in byMessage {
        return Some(byMessage[messageId]);
      }
      var e := Entry(lastSerial + 1, messageId, jid, name, ordinal);
      AddEntry(e);
      file := Appended(file, e);
      serial := Some(e.serial);
    }

    /** None where the load raises. */
    method OrdinalOf(jid: string) returns (ordinal: Option<nat>)
      modifies this
      ensures var (n, given) := OrdinalFor(old(State()), jid);
              State() == n && ordinal == if jid != "" && Raises(old(State())) then None else Some(given)
    {
      hide AllLines, FirstForeign;
      if jid == "" {
        return Some(0);
      }
      var ok := LoadFile();
      if !ok {
        return None;
      }
      if jid in ordinals {
        return Some(ordinals[jid]);
      }
      ordinal := Some(nextOrdinal);
      ordinals := ordinals[jid := nextOrdinal];
      nextOrdinal := nextOrdinal + 1;
    }

    method Forget()
      modifies this
      ensures State() == Reset(old(State()))
    {
      entries, byMessage, byHash, ordinals := map[], map[], map[], map[];
      nextOrdinal, lastSerial, loaded := 1, 0, false;
    }

    method CompactFile(keep: nat)
      modifies this
      ensures State() == Compact(old(State()), keep)
    {
      if file.Absent? {
        return;
      }
      var all := Lines(Content(file));
      var lines: seq<string> := [];
      for i := 0 to |all|
        invariant lines == NonBlank(all[..i]) && State() == old(State())
      {
        assert all[..i + 1][..i] == all[..i];
        if Strip(all[i]) != "" {
          lines := lines + [all[i]];
        }
      }
      assert all[..|all|] == all;
      if |lines| <= keep {
        return;
      }
      file := Rewritten(Newest(lines, keep));
      Forget();
    }

    method ResolveToken(token: string) returns (ok: bool, entry: Option<Entry>)
      modifies this
      ensures ok <==> TokenNumber(token).None? || !Raises(old(State()))
      ensures entry == Resolve(old(State()), token)
      ensures State() == if TokenNumber(token).Some? then Load(old(State())) else old(State())
    {
      var n := TokenNumber(token);
      if n.None? {
        return true, None;
      }
      ok := LoadFile();
      entry := if ok && n.value in entries then Some(entries[n.value]) else None;
    }

    /** None where the load raises. */
    method SerialOf(messageId: string) returns (serial: Option<nat>)
      modifies this
      ensures serial == if Raises(old(State())) then None else Some(SerialFor(old(State()), messageId))
      ensures State() == Load(old(State()))
    {
      var ok := LoadFile();
      if !ok {
        return None;
      }
      if messageId in byMessage {
        return Some(byMessage[messageId]);
      }
      var key := MessageKey(messageId);
      serial := Some(if key in byHash then byHash[key] else 0);
    }

    /** SerialStore.assign. */
    method AssignSerial(messageId: string, jid: string, name: string, ordinal: nat) returns (entry: Result<Entry, Fault>)
      modifies this
      ensures (State(), entry) == Assign(old(State()), messageId, jid, name, ordinal)
    {
      hide AllLines, FirstForeign, MessageKey, Compact;
      var serial := NextSerial(messageId, jid, name, ordinal);
      if serial.None? {
        return Failure(Unloadable);
      }
      if lastSerial % COMPACT_EVERY == 0 {
        CompactFile(DEFAULT_KEEP);
      }
      var ok := LoadFile();
      if !ok {
        return Failure(Unloadable);
      }
      entry := if serial.value in entries then Success(entries[serial.value]) else Failure(UnknownSerial);
    }
  }
}
