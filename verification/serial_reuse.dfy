/** When a serial is given out twice (src/wahabot/ai/serials.py). */
module SerialReuse {
  // Serials run on from the greatest one in memory, and after a restart from the greatest one in the file.

  import opened Text
  import opened JsonLine
  import opened SerialFile
  import opened Serials
  import opened StrayLines

  /** The greatest serial the registry knows: in memory, or in the file once memory is gone. */
  function LastKnown(r: Registry): nat {
    if r.loaded then r.view.lastSerial else Replay(AllLines(r.file)).lastSerial
  }

  /** Memory is empty, or a load gave up on it, or it knows of every serial in the file. */
  predicate Began(r: Registry) {
    if r.loaded then Replay(AllLines(r.file)).lastSerial <= r.view.lastSerial
    else r.view == BLANK_VIEW || !Loadable(AllLines(r.file))
  }

  /** The step leaves the registry with a smaller greatest serial. */
  predicate Forgets(r: Registry, op: Op) {
    LastKnown(Perform(r, op)) < LastKnown(r)
  }

  // ----- the greatest serial of some lines -----

  lemma {:induction false} LastIsGreatest(lines: seq<Line>)
    ensures forall i | 0 <= i < |lines| && lines[i].Stored? :: lines[i].entry.serial <= Replay(lines).lastSerial
    ensures var last := Replay(lines).lastSerial;
            last > 0 ==> exists i :: 0 <= i < |lines| && lines[i].Stored? && lines[i].entry.serial == last
  {
    if lines != [] {
      var init, last := lines[..|lines| - 1], lines[|lines| - 1];
      LastIsGreatest(init);
      assert Replay(lines) == FoldLine(Replay(init), last);
      assert forall i | 0 <= i < |init| :: init[i] == lines[i];
    }
  }

  /** Fewer lines have no greater serial. */
  lemma LastOfFewer(fewer: seq<Line>, lines: seq<Line>)
    requires forall l | l in fewer :: l in lines
    ensures Replay(fewer).lastSerial <= Replay(lines).lastSerial
  {
    hide Replay, ReplayFrom;
    LastIsGreatest(fewer);
    LastIsGreatest(lines);
    var last := Replay(fewer).lastSerial;
    if last > 0 {
      var i :| 0 <= i < |fewer| && fewer[i].Stored? && fewer[i].entry.serial == last;
      assert fewer[i] in lines;
    }
  }

  /** A compaction leaves lines that were there. */
  lemma CompactedLast(r: Registry, keep: nat)
    ensures Replay(AllLines(Compact(r, keep).file)).lastSerial <= Replay(AllLines(r.file)).lastSerial
  {
    hide Replay, DecodeLine, Lines, NonBlank, BreakFree, Rewritten;
    var all := Lines(Content(r.file));
    var lines := NonBlank(all);
    if r.file.Present? && |lines| > keep {
      var kept := Newest(lines, keep);
      NonBlankMembers(all);
      LinesAreBreakFree(Content(r.file));
      RewrittenReads(kept);
      forall l | l in Decoded(kept)
        ensures l in Decoded(all)
      {
        var i :| 0 <= i < |kept| && Decoded(kept)[i] == l;
        assert kept[i] in lines;
        var j :| 0 <= j < |all| && all[j] == kept[i];
        assert Decoded(all)[j] == l;
      }
      LastOfFewer(Decoded(kept), Decoded(all));
    }
  }

  // ----- one step -----

  lemma LoadKnows(r: Registry)
    requires Began(r)
    ensures Began(Load(r)) && LastKnown(Load(r)) == LastKnown(r) && Load(r).file == r.file
    ensures !Raises(r) ==> Load(r).view.lastSerial == LastKnown(r)
  {
    hide AllLines, ReplayFrom, FirstForeign;
    var lines := AllLines(r.file);
    if Loadable(lines) {
      AllBeforeForeign(lines);
    }
  }

  lemma AppendedLast(f: File, e: Entry)
    ensures var before, after := Replay(AllLines(f)).lastSerial, Replay(AllLines(Appended(f, e))).lastSerial;
            if BlankEnd(f) && Storable(e) then after == if before < e.serial then e.serial else before else after <= before
  {
    hide AllLines, Replay, Storable, BlankEnd, Terminated, Appended;
    AppendReplays(f, e);
    TerminatedLastSerial(f);
  }

  /** Every step keeps what the registry knows, gives out the next serial, and never recalls a greater one. */
  lemma StepKnows(r: Registry, op: Op)
    requires Began(r)
    ensures Began(Perform(r, op))
    ensures Issues(r, op) == [] || (op.Ingest? && Issues(r, op) == [LastKnown(r) + 1])
    ensures if op.Restart? || op.Compacting? then LastKnown(Perform(r, op)) <= LastKnown(r)
            else LastKnown(Perform(r, op)) == LastKnown(r) + |Issues(r, op)|
  {
    hide AllLines, Replay, Compact, Load, Loadable, Storable, BlankEnd, Appended;
    LoadKnows(r);
    match op
    case Ingest(messageId, jid, name, ordinal) =>
      if !Raises(r) && !Known(r, messageId) {
        AppendedLast(r.file, NewEntry(r, messageId, jid, name, ordinal));
      }
    case AskOrdinal(jid) =>
    case Compacting(keep) => CompactKnows(r, keep);
    case Restart =>
  }

  lemma CompactKnows(r: Registry, keep: nat)
    requires Began(r)
    ensures Began(Compact(r, keep)) && LastKnown(Compact(r, keep)) <= LastKnown(r)
  {
    hide AllLines, Replay, Loadable, NonBlank, Newest, Rewritten;
    CompactedLast(r, keep);
  }

  // ----- every run -----

  /** Some new message comes behind a step that forgot a serial. */
  ghost predicate Reissues(r: Registry, ops: seq<Op>, forgot: bool)
    decreases |ops|
  {
    ops != [] && ((forgot && Issues(r, ops[0]) != []) || Reissues(Perform(r, ops[0]), ops[1..], forgot || Forgets(r, ops[0])))
  }

  predicate Consecutive(serials: seq<nat>, last: nat) {
    forall i | 0 <= i < |serials| :: serials[i] == last + 1 + i
  }

  lemma ConsecutiveCons(n: nat, rest: seq<nat>, last: nat)
    ensures Consecutive([n] + rest, last) <==> n == last + 1 && Consecutive(rest, last + 1)
  {
    var s := [n] + rest;
    assert forall i | 0 <= i < |rest| :: s[i + 1] == rest[i];
    if Consecutive(s, last) {
      assert s[0] == last + 1;
    }
  }

  lemma {:induction false} RunIssues(r: Registry, ops: seq<Op>, last: nat, forgot: bool)
    requires Began(r) && (if forgot then LastKnown(r) < last else LastKnown(r) == last)
    ensures Consecutive(Issued(r, ops), last) <==> !Reissues(r, ops, forgot)
    decreases |ops|
  {
    hide Began, LastKnown, Perform, Issues, Consecutive;
    if ops == [] {
      assert Consecutive([], last) by { NothingIssued(last); }
    } else {
      var op, n, rest := ops[0], Perform(r, ops[0]), Issued(Perform(r, ops[0]), ops[1..]);
      StepKnows(r, op);
      if Issues(r, op) == [] {
        assert [] + rest == rest;
        RunIssues(n, ops[1..], last, forgot || Forgets(r, op));
      } else {
        ConsecutiveCons(LastKnown(r) + 1, rest, last);
        if !forgot {
          RunIssues(n, ops[1..], last + 1, false);
        }
      }
    }
  }

  lemma NothingIssued(last: nat)
    ensures Consecutive([], last)
  {
  }

  /** For every run from every file: the serials given out go on without a gap from the greatest one there
      was, none used again, if and only if no new message comes behind a step that forgot a serial. */
  lemma ConsecutiveIff(r: Registry, ops: seq<Op>)
    requires Began(r)
    ensures Consecutive(Issued(r, ops), LastKnown(r)) <==> !Reissues(r, ops, false)
  {
    hide *;
    RunIssues(r, ops, LastKnown(r), false);
  }

  /** A restart right behind a new message forgets its serial exactly when the file did not end in mere
      white space or a field of the entry holds a stray line end. */
  lemma RestartForgetsIff(r: Registry, messageId: string, jid: string, name: string, ordinal: nat)
    requires Began(r) && !Raises(r) && !Known(r, messageId)
    ensures Forgets(Next(r, messageId, jid, name, ordinal).0, Restart)
            <==> !(BlankEnd(r.file) && Storable(NewEntry(r, messageId, jid, name, ordinal)))
  {
    hide AllLines, Replay, Load, Storable, BlankEnd, Appended;
    LoadKnows(r);
    AppendedLast(r.file, NewEntry(r, messageId, jid, name, ordinal));
  }

  /** Then the next new message gets that very serial again, when the file ended in white space and can
      still be loaded. */
  lemma LostSerialIsReused(r: Registry, messageId: string, jid: string, name: string, ordinal: nat, other: string)
    requires Inv(r) && !Raises(r) && !Known(r, messageId) && BlankEnd(r.file)
    requires var e := NewEntry(r, messageId, jid, name, ordinal); !Storable(e) && !Poisonous(e)
    requires !Known(Reset(Next(r, messageId, jid, name, ordinal).0), other)
    ensures Next(Reset(Next(r, messageId, jid, name, ordinal).0), other, jid, name, ordinal).1 == Next(r, messageId, jid, name, ordinal).1
  {
    hide AllLines, Replay, Load, Storable, BlankEnd, Appended, Loadable, Poisonous, Terminated, OrdinalsInv;
    var e, n := NewEntry(r, messageId, jid, name, ordinal), Next(r, messageId, jid, name, ordinal).0;
    LoadMirrors(r);
    AppendReplays(r.file, e);
    AppendLoadsIff(r.file, e);
    TerminatedLoadable(r.file);
    LoadKnows(Reset(n));
    ReloadRaises(Reset(n));
  }

  lemma ReloadRaises(r: Registry)
    requires !r.loaded
    ensures Raises(r) <==> !Loadable(AllLines(r.file))
  {
    hide AllLines, ReplayFrom;
  }
}
