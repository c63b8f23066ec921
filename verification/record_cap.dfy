/** Capping a records turn (src/wahabot/ai/records.py, cap_turn). */
module RecordCap {
  // Selection, then dropping the oldest block until the turn fits.

  import opened Optional
  import opened Text
  import opened Sequences
  import opened Records
  import opened BlockLaws
  import opened RecordBlockLaws
  import opened RecordRoundTrip

  // ----- references -----

  /** The serial a reference at the head of the text names, if it opens with one. */
  function ReferenceAt(text: string): Option<nat> {
    var n := if "quote=#m" <= text then 8 else if "to: #m" <= text then 6 else 0;
    if n > 0 && DigitRun(text[n..]) > 0 then Some(Value(text[n..n + DigitRun(text[n..])])) else None
  }

  function ReferencedSerials(text: string): set<int> {
    if text == "" then {}
    else ReferencedSerials(text[1..]) + (if ReferenceAt(text).Some? then {ReferenceAt(text).value as int} else {})
  }

  // ----- selection -----

  function LiveSerials(blocks: seq<Block>): seq<int> {
    if blocks == [] then []
    else (if blocks[0].serial > 0 then [blocks[0].serial] else []) + LiveSerials(blocks[1..])
  }

  function Outside(serials: seq<int>, current: set<int>): seq<int> {
    if serials == [] then []
    else (if serials[0] in current then [] else [serials[0]]) + Outside(serials[1..], current)
  }

  /** `older[-max(window, 0):]`: the newest `window` serials, but all of them for a window of zero. */
  function Window(older: seq<int>, window: int): seq<int> {
    if window <= 0 || window >= |older| then older else older[|older| - window..]
  }

  function Elements(s: seq<int>): (r: set<int>)
    ensures forall x :: x in r <==> x in s
  {
    set x | x in s
  }

  /** The serials kept live: the current burst, the newest older ones, the quoted ones and the last. */
  function Selected(blocks: seq<Block>, text: string, current: set<int>, window: int): set<int>
    requires LiveSerials(blocks) != []
  {
    var live := LiveSerials(blocks);
    current + Elements(Window(Outside(live, current), window))
    + ReferencedSerials(text) * Elements(live) + {live[|live| - 1]}
  }

  predicate KeepBlock(serial: int, selected: set<int>) {
    if serial == 0 then true else if serial > 0 then serial in selected else -serial !in selected
  }

  function KeepBlocks(blocks: seq<Block>, selected: set<int>): seq<Block> {
    if blocks == [] then []
    else (if KeepBlock(blocks[0].serial, selected) then [blocks[0]] else []) + KeepBlocks(blocks[1..], selected)
  }

  function SelectBlocks(blocks: seq<Block>, text: string, current: set<int>, window: int): seq<Block>
    requires LiveSerials(blocks) != []
  {
    KeepBlocks(blocks, Selected(blocks, text, current, window))
  }

  lemma {:induction false} KeepBlocksFilters(blocks: seq<Block>, selected: set<int>)
    ensures Subsequence(KeepBlocks(blocks, selected), blocks)
    ensures forall b :: b in KeepBlocks(blocks, selected) <==> b in blocks && KeepBlock(b.serial, selected)
  {
    if blocks != [] {
      var rest := KeepBlocks(blocks[1..], selected);
      KeepBlocksFilters(blocks[1..], selected);
      assert forall b :: b in blocks <==> b == blocks[0] || b in blocks[1..];
      if KeepBlock(blocks[0].serial, selected) {
        assert ([blocks[0]] + rest)[1..] == rest;
      } else {
        assert [] + rest == rest;
      }
    }
  }

  lemma {:induction false} LiveSerialsOf(blocks: seq<Block>)
    ensures forall n :: n in LiveSerials(blocks) <==> n > 0 && exists b :: b in blocks && b.serial == n
  {
    if blocks != [] {
      LiveSerialsOf(blocks[1..]);
      assert forall b :: b in blocks <==> b == blocks[0] || b in blocks[1..];
    }
  }

  lemma {:induction false} OutsideOf(serials: seq<int>, current: set<int>)
    ensures forall n :: n in Outside(serials, current) <==> n in serials && n !in current
  {
    if serials != [] {
      OutsideOf(serials[1..], current);
    }
  }

  /** The older live records: those outside the current burst, in order. */
  function Older(blocks: seq<Block>, current: set<int>): seq<int> {
    Outside(LiveSerials(blocks), current)
  }

  /** One of the newest `window` older records. */
  predicate InWindow(older: seq<int>, n: int, window: int) {
    exists i :: 0 <= i < |older| && older[i] == n && |older| - i <= window
  }

  /** Kept whatever the window is: the current burst, what is quoted or reacted to, and the last record. */
  predicate AlwaysKept(blocks: seq<Block>, text: string, current: set<int>, n: int)
    requires LiveSerials(blocks) != []
  {
    n in current || n in ReferencedSerials(text) || n == LiveSerials(blocks)[|LiveSerials(blocks)| - 1]
  }

  lemma WindowHolds(older: seq<int>, n: int, window: int)
    ensures n in Window(older, window) <==> if window <= 0 then n in older else InWindow(older, n, window)
  {
    var w := Window(older, window);
    if 0 < window < |older| {
      var skip := |older| - window;
      assert forall i | 0 <= i < |w| :: w[i] == older[skip + i];
      if i :| 0 <= i < |older| && older[i] == n && |older| - i <= window {
        assert w[i - skip] == n;
      }
    }
  }

  lemma LiveIsSelected(blocks: seq<Block>, text: string, current: set<int>, window: int, n: int)
    requires n in LiveSerials(blocks)
    ensures n in Selected(blocks, text, current, window) <==>
            || AlwaysKept(blocks, text, current, n)
            || (if window <= 0 then true else InWindow(Older(blocks, current), n, window))
  {
    hide LiveSerials, ReferencedSerials, InWindow, Window, Outside;
    WindowHolds(Older(blocks, current), n, window);
    OutsideOf(LiveSerials(blocks), current);
  }

  /** What selection keeps, for every window. A live record stays exactly when it is always kept, when
      it is one of the newest `window` older records, or when the window is not positive; a ledger
      line stays exactly when no live record of its serial is selected; any other block stays. */
  lemma SelectBlocksKeeps(blocks: seq<Block>, text: string, current: set<int>, window: int, b: Block)
    requires LiveSerials(blocks) != [] && b in blocks
    ensures b in SelectBlocks(blocks, text, current, window) <==>
            if b.serial == 0 then true
            else if b.serial > 0 then
              || window <= 0
              || AlwaysKept(blocks, text, current, b.serial)
              || InWindow(Older(blocks, current), b.serial, window)
            else -b.serial !in Selected(blocks, text, current, window)
  {
    hide KeepBlocks, LiveSerials, Selected, AlwaysKept, InWindow, Older;
    KeepBlocksFilters(blocks, Selected(blocks, text, current, window));
    if b.serial > 0 {
      LiveSerialsOf(blocks);
      LiveIsSelected(blocks, text, current, window, b.serial);
    }
  }

  /** The documented promise: of the older live records only the newest `window` are kept, and those
      that are kept anyway. */
  ghost predicate WindowIsKept(blocks: seq<Block>, text: string, current: set<int>, window: int)
    requires LiveSerials(blocks) != []
  {
    forall b | b in blocks && b.serial > 0 ::
      b in SelectBlocks(blocks, text, current, window) <==>
      AlwaysKept(blocks, text, current, b.serial) || InWindow(Older(blocks, current), b.serial, window)
  }

  /** The promise is kept exactly when the window is positive or there is no older record that only a
      window could keep: the slice takes a window of zero, or less, for all of the older records. */
  lemma WindowIsKeptIff(blocks: seq<Block>, text: string, current: set<int>, window: int)
    requires LiveSerials(blocks) != []
    ensures WindowIsKept(blocks, text, current, window) <==>
            window > 0 || forall n | n in Older(blocks, current) :: AlwaysKept(blocks, text, current, n)
  {
    hide SelectBlocks, LiveSerials, AlwaysKept, Outside;
    forall b | b in blocks && b.serial > 0
      ensures b in SelectBlocks(blocks, text, current, window) <==>
              window <= 0 || AlwaysKept(blocks, text, current, b.serial) || InWindow(Older(blocks, current), b.serial, window)
    {
      SelectBlocksKeeps(blocks, text, current, window, b);
    }
    LiveSerialsOf(blocks);
    OutsideOf(LiveSerials(blocks), current);
    if n :| window <= 0 && n in Older(blocks, current) && !AlwaysKept(blocks, text, current, n) {
      var b :| b in blocks && b.serial == n;
      assert !InWindow(Older(blocks, current), n, window);
    }
    if window <= 0 && forall n | n in Older(blocks, current) :: AlwaysKept(blocks, text, current, n) {
      forall b | b in blocks && b.serial > 0
        ensures AlwaysKept(blocks, text, current, b.serial)
      {
        if b.serial in current {
          CurrentIsKept(blocks, text, current, b.serial);
        } else {
          assert b.serial in Older(blocks, current);
        }
      }
    }
  }

  lemma CurrentIsKept(blocks: seq<Block>, text: string, current: set<int>, n: int)
    requires LiveSerials(blocks) != [] && n in current
    ensures AlwaysKept(blocks, text, current, n)
  {
  }

  // ----- selection, told from the blocks -----

  predicate OpensNumber(t: string, n: int) {
    DigitRun(t) > 0 && Value(t[..DigitRun(t)]) == n
  }

  /** The text names serial n at i: a quote or a reaction target, with all the digits that follow. */
  predicate NamesAt(text: string, i: nat, n: int)
    requires i <= |text|
  {
    var t := text[i..];
    ("quote=#m" <= t && OpensNumber(t[8..], n)) || ("to: #m" <= t && OpensNumber(t[6..], n))
  }

  lemma ReferenceIs(text: string, n: int)
    ensures NamesAt(text, 0, n) <==> ReferenceAt(text).Some? && ReferenceAt(text).value == n
  {
    hide Value, DigitRun;
    assert text[0..] == text;
    assert "quote=#m" <= text ==> text[8..][..DigitRun(text[8..])] == text[8..8 + DigitRun(text[8..])] && text[0] == 'q';
    assert "to: #m" <= text ==> text[6..][..DigitRun(text[6..])] == text[6..6 + DigitRun(text[6..])] && text[0] == 't';
  }

  lemma NamesLater(text: string, i: nat, n: int)
    requires 0 < i <= |text|
    ensures NamesAt(text, i, n) <==> NamesAt(text[1..], i - 1, n)
  {
    hide OpensNumber;
    assert text[1..][i - 1..] == text[i..];
  }

  /** Exactly the serials named somewhere in the text are quoted. */
  lemma {:induction false} ReferencedIff(text: string, n: int)
    ensures n in ReferencedSerials(text) <==> exists i: nat :: i < |text| && NamesAt(text, i, n)
  {
    hide NamesAt, ReferenceAt;
    if text != "" {
      ReferenceIs(text, n);
      ReferencedIff(text[1..], n);
      if i: nat :| i < |text| && NamesAt(text, i, n) {
        if i > 0 {
          NamesLater(text, i, n);
        }
      }
      if i: nat :| i < |text[1..]| && NamesAt(text[1..], i, n) {
        NamesLater(text, i + 1, n);
      }
    }
  }

  /** What the renderer writes for a quoted message or a reaction is read back, wherever it stands. */
  lemma QuoteIsRead(before: string, n: nat, behind: string, quote: bool)
    requires behind == "" || !IsDigit(behind[0])
    ensures n in ReferencedSerials(before + ((if quote then "quote=#m" else "to: #m") + (Numeral(n) + behind)))
  {
    hide Value, DigitRun, ReferencedSerials, Numeral;
    var mark := if quote then "quote=#m" else "to: #m";
    var rest := Numeral(n) + behind;
    var text, i := before + (mark + rest), |before|;
    assert text[i..] == mark + rest && (mark + rest)[|mark|..] == rest && mark <= mark + rest;
    DigitRunAt(Numeral(n), behind);
    assert rest[..|Numeral(n)|] == Numeral(n);
    ValueOfNumeral(n);
    assert NamesAt(text, i, n);
    ReferencedIff(text, n);
  }

  /** How many live records outside the burst these blocks have. */
  function OlderCount(blocks: seq<Block>, current: set<int>): nat {
    if blocks == [] then 0
    else (if blocks[0].serial > 0 && blocks[0].serial !in current then 1 else 0) + OlderCount(blocks[1..], current)
  }

  /** Some live record of serial n outside the burst has at most `window` of them from it on. */
  ghost predicate AmongNewest(blocks: seq<Block>, current: set<int>, n: int, window: int) {
    n > 0 && n !in current && exists i :: 0 <= i < |blocks| && blocks[i].serial == n && OlderCount(blocks[i..], current) <= window
  }

  lemma OlderCons(blocks: seq<Block>, current: set<int>)
    requires blocks != []
    ensures var s := blocks[0].serial;
            Older(blocks, current) == (if s > 0 && s !in current then [s] else []) + Older(blocks[1..], current)
  {
    var s := blocks[0].serial;
    assert ([s] + LiveSerials(blocks[1..]))[1..] == LiveSerials(blocks[1..]);
    assert [] + LiveSerials(blocks[1..]) == LiveSerials(blocks[1..]);
    assert [] + Older(blocks[1..], current) == Older(blocks[1..], current);
  }

  lemma WindowCons(front: seq<int>, rest: seq<int>, n: int, window: int)
    requires |front| <= 1
    ensures InWindow(front + rest, n, window) <==>
            (front != [] && front[0] == n && |front + rest| <= window) || InWindow(rest, n, window)
  {
    var all, m := front + rest, |front|;
    assert forall i | 0 <= i < |rest| :: all[m + i] == rest[i];
    assert front != [] ==> all[0] == front[0];
    if i :| 0 <= i < |rest| && rest[i] == n && |rest| - i <= window {
      assert all[m + i] == n;
    }
    if i :| 0 <= i < |all| && all[i] == n && |all| - i <= window {
      assert |all| == m + |rest|;
      if i >= m {
        assert rest[i - m] == n && |rest| - (i - m) <= window;
      } else {
        assert i == 0 && all[0] == front[0];
      }
    }
  }

  lemma NewestCons(blocks: seq<Block>, current: set<int>, n: int, window: int)
    requires blocks != []
    ensures AmongNewest(blocks, current, n, window) <==>
            || (n > 0 && n !in current && blocks[0].serial == n && OlderCount(blocks, current) <= window)
            || AmongNewest(blocks[1..], current, n, window)
  {
    hide OlderCount;
    var rest := blocks[1..];
    assert blocks[0..] == blocks;
    if j :| 0 <= j < |rest| && rest[j].serial == n && OlderCount(rest[j..], current) <= window {
      assert blocks[j + 1..] == rest[j..] && blocks[j + 1].serial == n;
    }
    if j :| 0 <= j < |blocks| && blocks[j].serial == n && OlderCount(blocks[j..], current) <= window {
      if j > 0 {
        assert blocks[j..] == rest[j - 1..] && rest[j - 1].serial == n;
      }
    }
  }

  lemma {:induction false} WindowFromBlocks(blocks: seq<Block>, current: set<int>, n: int, window: int)
    ensures |Older(blocks, current)| == OlderCount(blocks, current)
    ensures InWindow(Older(blocks, current), n, window) <==> AmongNewest(blocks, current, n, window)
  {
    hide Older, LiveSerials, InWindow, AmongNewest;
    if blocks == [] {
      NoneOlder(current, n, window);
    } else {
      var s := blocks[0].serial;
      WindowFromBlocks(blocks[1..], current, n, window);
      OlderCons(blocks, current);
      WindowCons(if s > 0 && s !in current then [s] else [], Older(blocks[1..], current), n, window);
      NewestCons(blocks, current, n, window);
    }
  }

  lemma NoneOlder(current: set<int>, n: int, window: int)
    ensures Older([], current) == [] && !InWindow([], n, window) && !AmongNewest([], current, n, window)
  {
  }

  /** The last live record of the turn. */
  predicate IsLastLive(blocks: seq<Block>, n: int) {
    n > 0 && exists i :: 0 <= i < |blocks| && blocks[i].serial == n && forall j | i < j < |blocks| :: blocks[j].serial <= 0
  }

  lemma {:induction false} LastLiveIs(blocks: seq<Block>, n: int)
    ensures IsLastLive(blocks, n) <==> LiveSerials(blocks) != [] && LiveSerials(blocks)[|LiveSerials(blocks)| - 1] == n
  {
    if blocks != [] {
      var rest, live := LiveSerials(blocks[1..]), LiveSerials(blocks);
      LastLiveIs(blocks[1..], n);
      LiveSerialsOf(blocks[1..]);
      assert forall i | 1 <= i < |blocks| :: blocks[i] == blocks[1..][i - 1];
      if rest == [] {
        forall j | 1 <= j < |blocks|
          ensures blocks[j].serial <= 0
        {
          assert blocks[j] in blocks[1..] && blocks[j].serial !in rest;
        }
        if blocks[0].serial == n > 0 {
          assert IsLastLive(blocks, n);
        }
      } else {
        assert live[|live| - 1] == rest[|rest| - 1];
        if IsLastLive(blocks, n) {
          var i :| 0 <= i < |blocks| && blocks[i].serial == n && forall j | i < j < |blocks| :: blocks[j].serial <= 0;
          LiveSomewhere(blocks[1..], rest[0]);
          assert i > 0;
          assert blocks[1..][i - 1].serial == n;
        }
        if IsLastLive(blocks[1..], n) {
          var i :| 0 <= i < |blocks[1..]| && blocks[1..][i].serial == n && forall j | i < j < |blocks[1..]| :: blocks[1..][j].serial <= 0;
          assert blocks[i + 1].serial == n;
        }
      }
    }
  }

  lemma LiveSomewhere(blocks: seq<Block>, n: int)
    requires n in LiveSerials(blocks)
    ensures exists i :: 0 <= i < |blocks| && blocks[i].serial > 0
  {
    LiveSerialsOf(blocks);
    var b :| b in blocks && b.serial == n;
  }

  /** Which blocks stay, for every window: a live record of the burst, the last one, one that the text
      quotes, one of the newest `window` outside the burst, and any when the window is not positive; a
      ledger line unless its serial is in the burst or a live record of it stays; any other block. */
  lemma SelectionIs(blocks: seq<Block>, text: string, current: set<int>, window: int, b: Block)
    requires LiveSerials(blocks) != [] && b in blocks
    ensures b in SelectBlocks(blocks, text, current, window) <==>
            if b.serial == 0 then true
            else if b.serial > 0 then
              || window <= 0 || b.serial in current || IsLastLive(blocks, b.serial)
              || (exists i: nat :: i < |text| && NamesAt(text, i, b.serial))
              || AmongNewest(blocks, current, b.serial, window)
            else
              -b.serial !in current
              && forall l | l in blocks && l.serial == -b.serial :: l !in SelectBlocks(blocks, text, current, window)
  {
    hide SelectBlocks, LiveSerials, IsLastLive, AmongNewest, NamesAt, InWindow, Older, ReferencedSerials, Selected;
    SelectBlocksKeeps(blocks, text, current, window, b);
    LastLiveIs(blocks, b.serial);
    ReferencedIff(text, b.serial);
    WindowFromBlocks(blocks, current, b.serial, window);
    if b.serial < 0 {
      SelectedMeans(blocks, text, current, window, -b.serial);
    }
  }

  lemma SelectedMeans(blocks: seq<Block>, text: string, current: set<int>, window: int, n: int)
    requires LiveSerials(blocks) != [] && n > 0
    ensures n in Selected(blocks, text, current, window) <==>
            n in current || exists l :: l in blocks && l.serial == n && l in SelectBlocks(blocks, text, current, window)
  {
    hide KeepBlocks, LiveSerials, ReferencedSerials, Window, Outside;
    var live, selected := LiveSerials(blocks), Selected(blocks, text, current, window);
    KeepBlocksFilters(blocks, selected);
    LiveSerialsOf(blocks);
    WindowHolds(Outside(live, current), n, window);
    OutsideOf(live, current);
    if n in selected && n !in current {
      assert n in live;
      var l :| l in blocks && l.serial == n;
      assert l in SelectBlocks(blocks, text, current, window);
    }
  }

  // ----- dropping the oldest -----

  function SignedCount(blocks: seq<Block>): nat {
    if blocks == [] then 0 else (if blocks[0].serial != 0 then 1 else 0) + SignedCount(blocks[1..])
  }

  /** The highest live serial, or 0. */
  function Newest(blocks: seq<Block>): nat {
    if blocks == [] then 0
    else if blocks[0].serial > Newest(blocks[1..]) then blocks[0].serial
    else Newest(blocks[1..])
  }

  lemma {:induction false} NewestIsHighest(blocks: seq<Block>)
    ensures forall b | b in blocks :: b.serial <= Newest(blocks)
    ensures Newest(blocks) > 0 ==> exists b :: b in blocks && b.serial == Newest(blocks)
  {
    if blocks != [] {
      NewestIsHighest(blocks[1..]);
      assert forall b :: b in blocks <==> b == blocks[0] || b in blocks[1..];
    }
  }

  predicate IsCandidate(b: Block, newest: nat) {
    b.serial != 0 && b.serial != newest
  }

  function Abs(n: int): nat {
    if n < 0 then -n else n
  }

  /** Index of the first candidate with the least absolute serial, or -1. */
  function OldestCandidate(blocks: seq<Block>, newest: nat): (i: int)
    ensures -1 <= i < |blocks|
  {
    if blocks == [] then -1
    else
      var n := |blocks| - 1;
      var i := OldestCandidate(blocks[..n], newest);
      if IsCandidate(blocks[n], newest) && (i < 0 || Abs(blocks[n].serial) < Abs(blocks[i].serial)) then n else i
  }

  /** The block to drop is the first with the least absolute serial among all candidates. */
  lemma {:induction false} OldestCandidateIsOldest(blocks: seq<Block>, newest: nat)
    ensures var i := OldestCandidate(blocks, newest);
            if i < 0 then forall b | b in blocks :: !IsCandidate(b, newest)
            else
              && IsCandidate(blocks[i], newest)
              && forall j | 0 <= j < |blocks| && IsCandidate(blocks[j], newest) ::
                   Abs(blocks[i].serial) < Abs(blocks[j].serial) || (Abs(blocks[i].serial) == Abs(blocks[j].serial) && i <= j)
  {
    if blocks != [] {
      var n := |blocks| - 1;
      OldestCandidateIsOldest(blocks[..n], newest);
      assert forall j | 0 <= j < n :: blocks[..n][j] == blocks[j];
      assert blocks == blocks[..n] + [blocks[n]];
    }
  }

  function DropOldest(blocks: seq<Block>): seq<Block> {
    var drop := OldestCandidate(blocks, Newest(blocks));
    if SignedCount(blocks) <= 1 || drop < 0 then blocks else blocks[..drop] + blocks[drop + 1..]
  }

  function Size(blocks: seq<Block>, count: TextCounter): nat {
    count(Join(Texts(blocks), "\n"))
  }

  /** The trimming loop stops here. */
  predicate StopsDropping(blocks: seq<Block>, maxTokens: int, count: TextCounter) {
    Size(blocks, count) <= maxTokens || SignedCount(blocks) <= 1
  }

  const DROP_OLDEST := (blocks: seq<Block>) => DropOldest(blocks)

  /** The blocks after n rounds of the loop. */
  function Dropped(blocks: seq<Block>, n: nat): seq<Block> {
    Iterate(DROP_OLDEST, blocks, n)
  }

  function Test(maxTokens: int, count: TextCounter): seq<Block> -> bool {
    blocks => StopsDropping(blocks, maxTokens, count)
  }

  ghost predicate Terminates(blocks: seq<Block>, maxTokens: int, count: TextCounter) {
    Ends(DROP_OLDEST, Test(maxTokens, count), blocks)
  }

  /** The loop runs exactly n rounds. */
  ghost predicate StopsAfter(blocks: seq<Block>, maxTokens: int, count: TextCounter, n: nat) {
    EndsAfter(DROP_OLDEST, Test(maxTokens, count), blocks, n)
  }

  lemma LastRoundStops(blocks: seq<Block>, maxTokens: int, count: TextCounter, n: nat)
    requires StopsAfter(blocks, maxTokens, count, n)
    ensures StopsDropping(Dropped(blocks, n), maxTokens, count)
  {
    assert DoneAfter(DROP_OLDEST, Test(maxTokens, count), blocks, n);
  }

  lemma DroppingEnds(blocks: seq<Block>, maxTokens: int, count: TextCounter, n: nat)
    requires StopsDropping(Dropped(blocks, n), maxTokens, count)
    ensures Terminates(blocks, maxTokens, count)
  {
    assert DoneAfter(DROP_OLDEST, Test(maxTokens, count), blocks, n);
  }

  lemma RoundsLeft(blocks: seq<Block>, maxTokens: int, count: TextCounter, n: nat, stop: nat)
    requires StopsAfter(blocks, maxTokens, count, stop) && n <= stop
    ensures n < stop <==> !StopsDropping(Dropped(blocks, n), maxTokens, count)
  {
    NotYetDone(DROP_OLDEST, Test(maxTokens, count), blocks, n, stop);
  }

  lemma NextRound(blocks: seq<Block>, n: nat)
    ensures DropOldest(Dropped(blocks, n)) == Dropped(blocks, n + 1)
  {
  }

  /** The loop of the original, which runs forever when it can drop nothing more; calling it is
      asking that it ends. */
  method TrimBlocks(blocks: seq<Block>, maxTokens: int, count: TextCounter) returns (kept: seq<Block>)
    requires Terminates(blocks, maxTokens, count)
    ensures exists n: nat :: StopsAfter(blocks, maxTokens, count, n) && kept == Dropped(blocks, n)
  {
    hide StopsDropping, DropOldest;
    ghost var stop := FirstEnd(DROP_OLDEST, Test(maxTokens, count), blocks);
    kept := blocks;
    ghost var n := 0;
    RoundsLeft(blocks, maxTokens, count, n, stop);
    while !StopsDropping(kept, maxTokens, count)
      invariant n <= stop && kept == Dropped(blocks, n)
      invariant n < stop <==> !StopsDropping(kept, maxTokens, count)
      decreases stop - n
    {
      NextRound(blocks, n);
      kept := DropOldest(kept);
      n := n + 1;
      RoundsLeft(blocks, maxTokens, count, n, stop);
    }
  }

  // ----- when the loop ends -----

  lemma {:induction false} SignedCountConcat(a: seq<Block>, b: seq<Block>)
    ensures SignedCount(a + b) == SignedCount(a) + SignedCount(b)
  {
    if a == [] {
      assert a + b == b;
    } else {
      assert (a + b)[1..] == a[1..] + b;
      SignedCountConcat(a[1..], b);
    }
  }

  /** How many blocks carry the highest live serial. */
  function NewestCount(blocks: seq<Block>, newest: nat): nat {
    if blocks == [] then 0
    else (if newest > 0 && blocks[0].serial == newest then 1 else 0) + NewestCount(blocks[1..], newest)
  }

  lemma {:induction false} NewestCountConcat(a: seq<Block>, b: seq<Block>, newest: nat)
    ensures NewestCount(a + b, newest) == NewestCount(a, newest) + NewestCount(b, newest)
  {
    if a == [] {
      assert a + b == b;
    } else {
      assert (a + b)[1..] == a[1..] + b;
      NewestCountConcat(a[1..], b, newest);
    }
  }

  lemma CutAt(blocks: seq<Block>, i: nat)
    requires i < |blocks|
    ensures blocks == blocks[..i] + [blocks[i]] + blocks[i + 1..]
    ensures SignedCount(blocks) == SignedCount(blocks[..i] + blocks[i + 1..]) + if blocks[i].serial != 0 then 1 else 0
    ensures forall newest ::
              NewestCount(blocks, newest) == NewestCount(blocks[..i] + blocks[i + 1..], newest)
                                             + if newest > 0 && blocks[i].serial == newest then 1 else 0
  {
    var a, b, c := blocks[..i], [blocks[i]], blocks[i + 1..];
    assert blocks == a + b + c;
    SignedCountConcat(a + b, c);
    SignedCountConcat(a, b);
    SignedCountConcat(a, c);
    assert b[1..] == [];
    forall newest
      ensures NewestCount(blocks, newest) == NewestCount(a + c, newest) + if newest > 0 && blocks[i].serial == newest then 1 else 0
    {
      NewestCountConcat(a + b, c, newest);
      NewestCountConcat(a, b, newest);
      NewestCountConcat(a, c, newest);
    }
  }

  /** Outside a candidate every signed block carries the highest live serial. */
  lemma {:induction false} NoCandidateAllNewest(blocks: seq<Block>, newest: nat)
    requires forall b | b in blocks :: !IsCandidate(b, newest)
    ensures SignedCount(blocks) == NewestCount(blocks, newest)
  {
    if blocks != [] {
      NoCandidateAllNewest(blocks[1..], newest);
      assert blocks[0] in blocks;
    }
  }

  lemma {:induction false} CandidateNotNewest(blocks: seq<Block>, newest: nat)
    ensures NewestCount(blocks, newest) <= SignedCount(blocks)
    ensures NewestCount(blocks, newest) == SignedCount(blocks) ==> forall b | b in blocks :: !IsCandidate(b, newest)
  {
    if blocks != [] {
      CandidateNotNewest(blocks[1..], newest);
      assert forall b | b in blocks :: b == blocks[0] || b in blocks[1..];
    }
  }

  /** One round drops one signed block that is not the newest live record, or is stuck because only
      copies of the newest live record are left. */
  lemma DropOldestStep(blocks: seq<Block>)
    requires SignedCount(blocks) > 1
    ensures var d, newest := DropOldest(blocks), Newest(blocks);
            if NewestCount(blocks, newest) < SignedCount(blocks) then
              && SignedCount(d) == SignedCount(blocks) - 1
              && Newest(d) == newest && NewestCount(d, newest) == NewestCount(blocks, newest)
              && Subsequence(d, blocks)
              && (forall b | b in blocks && (b.serial == 0 || b.serial == newest) :: b in d)
            else d == blocks
  {
    hide Newest, NewestCount, SignedCount, Subsequence, OldestCandidate;
    var newest := Newest(blocks);
    var drop := OldestCandidate(blocks, newest);
    CandidateNotNewest(blocks, newest);
    OldestCandidateIsOldest(blocks, newest);
    if drop < 0 {
      NoCandidateAllNewest(blocks, newest);
    } else {
      var d := blocks[..drop] + blocks[drop + 1..];
      CutAt(blocks, drop);
      CutKeepsOthers(blocks, drop);
      assert blocks[drop] in blocks;
      NewestOfDropped(blocks, d, blocks[drop]);
      DropIsSubsequence(blocks, drop);
    }
  }

  /** The first block with the least absolute serial among the signed ones that are not the newest live
      record. */
  ghost predicate IsOldest(blocks: seq<Block>, newest: nat, i: nat) {
    && i < |blocks| && blocks[i].serial != 0 && blocks[i].serial != newest
    && forall j | 0 <= j < |blocks| && blocks[j].serial != 0 && blocks[j].serial != newest ::
         Abs(blocks[i].serial) < Abs(blocks[j].serial) || (Abs(blocks[i].serial) == Abs(blocks[j].serial) && i <= j)
  }

  /** That is the block that goes. */
  lemma OldestIsDropped(blocks: seq<Block>) returns (i: nat)
    requires SignedCount(blocks) > 1 && DropOldest(blocks) != blocks
    ensures IsOldest(blocks, Newest(blocks), i) && DropOldest(blocks) == blocks[..i] + blocks[i + 1..]
  {
    hide Newest, SignedCount, OldestCandidate;
    OldestCandidateIsOldest(blocks, Newest(blocks));
    i := OldestCandidate(blocks, Newest(blocks));
  }

  lemma CutKeepsOthers(blocks: seq<Block>, drop: nat)
    requires drop < |blocks|
    ensures var d := blocks[..drop] + blocks[drop + 1..];
            && (forall b | b in blocks && b != blocks[drop] :: b in d)
            && (forall b | b in d :: b in blocks)
  {
    var d := blocks[..drop] + blocks[drop + 1..];
    forall b | b in blocks && b != blocks[drop]
      ensures b in d
    {
      var i :| 0 <= i < |blocks| && blocks[i] == b;
      if i < drop { assert d[i] == b; } else { assert d[i - 1] == b; }
    }
  }

  lemma NewestOfDropped(blocks: seq<Block>, d: seq<Block>, gone: Block)
    requires forall b | b in d :: b in blocks
    requires forall b | b in blocks && b != gone :: b in d
    requires gone.serial != Newest(blocks)
    ensures Newest(d) == Newest(blocks)
  {
    var n := Newest(blocks);
    NewestIsHighest(blocks);
    NewestIsHighest(d);
    if n > 0 {
      var top :| top in blocks && top.serial == n;
      assert top in d;
    }
    if Newest(d) > 0 {
      var other :| other in d && other.serial == Newest(d);
      assert other in blocks;
    }
  }

  lemma DropIsSubsequence(blocks: seq<Block>, drop: nat)
    requires drop < |blocks|
    ensures Subsequence(blocks[..drop] + blocks[drop + 1..], blocks)
  {
    SubsequenceRefl(blocks[..drop]);
    SuffixIsSubsequence(blocks[drop..], 1);
    assert blocks[drop..][1..] == blocks[drop + 1..];
    SubsequenceConcat(blocks[..drop], blocks[..drop], blocks[drop + 1..], blocks[drop..]);
    assert blocks == blocks[..drop] + blocks[drop..];
  }

  /** What any number of rounds leaves: a subsequence with the same newest live record in it. */
  ghost predicate KeepsNewest(blocks: seq<Block>, d: seq<Block>) {
    && Subsequence(d, blocks)
    && Newest(d) == Newest(blocks)
    && NewestCount(d, Newest(blocks)) == NewestCount(blocks, Newest(blocks))
    && (forall b | b in blocks && (b.serial == 0 || b.serial == Newest(blocks)) :: b in d)
  }

  lemma KeepsNewestTrans(a: seq<Block>, b: seq<Block>, c: seq<Block>)
    requires KeepsNewest(a, b) && KeepsNewest(b, c)
    ensures KeepsNewest(a, c)
  {
    SubsequenceTrans(c, b, a);
  }

  lemma DropOldestKeepsNewest(blocks: seq<Block>)
    ensures KeepsNewest(blocks, DropOldest(blocks))
  {
    SubsequenceRefl(blocks);
    if SignedCount(blocks) > 1 {
      DropOldestStep(blocks);
      CandidateNotNewest(blocks, Newest(blocks));
    }
  }

  lemma {:induction false} DroppedKeeps(blocks: seq<Block>, n: nat)
    ensures KeepsNewest(blocks, Dropped(blocks, n))
  {
    if n == 0 {
      SubsequenceRefl(blocks);
    } else {
      DroppedKeeps(blocks, n - 1);
      DropOldestKeepsNewest(Dropped(blocks, n - 1));
      KeepsNewestTrans(blocks, Dropped(blocks, n - 1), Dropped(blocks, n));
    }
  }

  /** The number of signed blocks after n rounds, as long as anything can be dropped. */
  lemma {:induction false} DroppedCount(blocks: seq<Block>, n: nat)
    requires n < SignedCount(blocks) && n + NewestCount(blocks, Newest(blocks)) <= SignedCount(blocks)
    ensures SignedCount(Dropped(blocks, n)) == SignedCount(blocks) - n
  {
    hide SignedCount, NewestCount, Newest, DropOldest, Subsequence;
    if n > 0 {
      DroppedCount(blocks, n - 1);
      DroppedKeeps(blocks, n - 1);
      DropOldestStep(Dropped(blocks, n - 1));
    }
  }

  /** Once only copies of the newest live record are left, further rounds change nothing. */
  lemma StuckForever(blocks: seq<Block>, n: nat)
    requires SignedCount(blocks) > 1 && NewestCount(blocks, Newest(blocks)) == SignedCount(blocks)
    ensures Dropped(blocks, n) == blocks
  {
    DropOldestStep(blocks);
    IterateFixed(DROP_OLDEST, blocks, n);
  }

  predicate FitsAfter(blocks: seq<Block>, maxTokens: int, count: TextCounter, n: nat) {
    Size(Dropped(blocks, n), count) <= maxTokens
  }

  lemma UniqueNewestStops(blocks: seq<Block>, maxTokens: int, count: TextCounter)
    requires NewestCount(blocks, Newest(blocks)) <= 1
    ensures Terminates(blocks, maxTokens, count)
  {
    var signed := SignedCount(blocks);
    if signed > 0 {
      DroppedCount(blocks, signed - 1);
      DroppingEnds(blocks, maxTokens, count, signed - 1);
    } else {
      DroppingEnds(blocks, maxTokens, count, 0);
    }
  }

  /** With copies of the newest live record left over, a stop can only come from the text fitting,
      and it comes within as many rounds as there are other signed blocks. */
  lemma CopiesStopOnlyByFitting(blocks: seq<Block>, maxTokens: int, count: TextCounter, n: nat)
    requires NewestCount(blocks, Newest(blocks)) > 1
    requires StopsDropping(Dropped(blocks, n), maxTokens, count)
    ensures exists m: nat :: m <= SignedCount(blocks) && FitsAfter(blocks, maxTokens, count, m)
  {
    var most := SignedCount(blocks) - NewestCount(blocks, Newest(blocks));
    CandidateNotNewest(blocks, Newest(blocks));
    if n <= most {
      DroppedCount(blocks, n);
      assert FitsAfter(blocks, maxTokens, count, n);
    } else {
      CopiesLeft(blocks, n);
      DroppedCount(blocks, most);
      assert FitsAfter(blocks, maxTokens, count, most);
    }
  }

  lemma CopiesLeft(blocks: seq<Block>, n: nat)
    requires 1 < NewestCount(blocks, Newest(blocks)) <= SignedCount(blocks)
    requires n >= SignedCount(blocks) - NewestCount(blocks, Newest(blocks))
    ensures Dropped(blocks, n) == Dropped(blocks, SignedCount(blocks) - NewestCount(blocks, Newest(blocks)))
  {
    hide SignedCount, Newest, NewestCount, Iterate;
    var most := SignedCount(blocks) - NewestCount(blocks, Newest(blocks));
    DroppedCount(blocks, most);
    DroppedKeeps(blocks, most);
    var more := n - most;
    StuckForever(Dropped(blocks, most), more);
    IterateSplit(DROP_OLDEST, blocks, most, more);
    assert n == most + more;
  }

  /** The trimming loop ends if and only if the newest live record occurs once, or the turn fits at
      some point before only its copies are left. */
  lemma TrimTerminatesIff(blocks: seq<Block>, maxTokens: int, count: TextCounter)
    ensures Terminates(blocks, maxTokens, count) <==>
            || NewestCount(blocks, Newest(blocks)) <= 1
            || exists n: nat :: n <= SignedCount(blocks) && FitsAfter(blocks, maxTokens, count, n)
  {
    if NewestCount(blocks, Newest(blocks)) <= 1 {
      UniqueNewestStops(blocks, maxTokens, count);
    } else {
      if Terminates(blocks, maxTokens, count) {
        var n := FirstEnd(DROP_OLDEST, Test(maxTokens, count), blocks);
        LastRoundStops(blocks, maxTokens, count, n);
        CopiesStopOnlyByFitting(blocks, maxTokens, count, n);
      }
      if n: nat :| n <= SignedCount(blocks) && FitsAfter(blocks, maxTokens, count, n) {
        DroppingEnds(blocks, maxTokens, count, n);
      }
    }
  }

  // ----- the whole cap -----

  /** What cap_turn does with the blocks of a text that holds a live record. */
  function CapSelection(text: string, keepSerials: seq<int>, window: int): seq<Block>
    requires LiveSerials(RecordBlocks(text)) != []
  {
    SelectBlocks(RecordBlocks(text), text, Elements(keepSerials), window)
  }

  /** Told from the text: the blocks that cap_turn selects, given the serials of the current burst. */
  lemma CapSelects(text: string, keepSerials: seq<int>, window: int, b: Block)
    requires LiveSerials(RecordBlocks(text)) != [] && b in RecordBlocks(text)
    ensures var blocks := RecordBlocks(text);
            b in CapSelection(text, keepSerials, window) <==>
            if b.serial == 0 then true
            else if b.serial > 0 then
              || window <= 0 || b.serial in keepSerials || IsLastLive(blocks, b.serial)
              || (exists i: nat :: i < |text| && NamesAt(text, i, b.serial))
              || AmongNewest(blocks, Elements(keepSerials), b.serial, window)
            else
              -b.serial !in keepSerials
              && forall l | l in blocks && l.serial == -b.serial :: l !in CapSelection(text, keepSerials, window)
  {
    hide SelectBlocks, LiveSerials, IsLastLive, AmongNewest, NamesAt, RecordBlocks;
    SelectionIs(RecordBlocks(text), text, Elements(keepSerials), window, b);
  }

  lemma TwinBlocks(b: Block)
    requires b.serial > 0
    ensures var bs := [b, b];
            && LiveSerials(bs) == [b.serial, b.serial] && SignedCount(bs) == 2
            && Newest(bs) == b.serial && NewestCount(bs, b.serial) == 2
            && forall selected :: b.serial in selected ==> KeepBlocks(bs, selected) == bs
  {
    var bs := [b, b];
    assert bs[1..] == [b] && [b][1..] == [];
    assert LiveSerials([b]) == [b.serial] + LiveSerials([]);
    assert SignedCount([b]) == 1 + SignedCount([]);
    assert Newest([b]) == b.serial;
    assert NewestCount([b], b.serial) == 1 + NewestCount([], b.serial);
    forall selected | b.serial in selected
      ensures KeepBlocks(bs, selected) == bs
    {
      assert KeepBlocks([b], selected) == [b] + KeepBlocks([], selected);
    }
  }

  /** A turn that shows its newest record twice and does not fit keeps cap_turn running for ever,
      whatever the burst and the window are. */
  lemma TwinsRunForever(r: Fields, keepSerials: seq<int>, window: int, maxTokens: int, count: TextCounter)
    requires Renderable(r) && Faithful(r)
    requires count(RenderTurn([r, r])) > maxTokens
    ensures LiveSerials(RecordBlocks(RenderTurn([r, r]))) != []
    ensures !Terminates(CapSelection(RenderTurn([r, r]), keepSerials, window), maxTokens, count)
  {
    hide FormatRecord, RecordBlocks, Faithful, ReferencedSerials, Window, Outside;
    var text, b := RenderTurn([r, r]), RecordBlock(r);
    TurnRoundTripIff([r, r]);
    assert RecordBlockList([r, r]) == [b, b];
    TwinBlocks(b);
    assert b.serial in Selected([b, b], text, Elements(keepSerials), window);
    assert CapSelection(text, keepSerials, window) == [b, b];
    assert Texts([b, b]) == Printed([r, r]);
    TwinsNeverFit(b, maxTokens, count);
  }

  lemma TwinsNeverFit(b: Block, maxTokens: int, count: TextCounter)
    requires b.serial > 0 && Size([b, b], count) > maxTokens
    ensures !Terminates([b, b], maxTokens, count)
  {
    hide SignedCount, Newest, NewestCount;
    TwinBlocks(b);
    forall n: nat
      ensures !FitsAfter([b, b], maxTokens, count, n)
    {
      StuckForever([b, b], n);
    }
    TrimTerminatesIff([b, b], maxTokens, count);
  }

  /** The cap of this turn never ends, whatever the burst and the window are. */
  ghost predicate RunsForever(text: string, count: TextCounter) {
    && LiveSerials(RecordBlocks(text)) != []
    && forall keepSerials, window :: !Terminates(CapSelection(text, keepSerials, window), 0, count)
  }

  /** Such a turn exists. */
  lemma TrimCanRunForever()
    ensures exists text: string, count: TextCounter :: RunsForever(text, count)
  {
    hide FormatRecord, RecordBlocks, LiveSerials, CapSelection, Terminates, LastHeadEnd, IsWord;
    var r := Fields("", "", 7, "x", [], "", []);
    PlainWord();
    assert r.kind + HeadRest(r) == "x";
    var text := RenderTurn([r, r]);
    var count: TextCounter := (s: string) => 1;
    forall keepSerials, window
      ensures LiveSerials(RecordBlocks(text)) != []
      ensures !Terminates(CapSelection(text, keepSerials, window), 0, count)
    {
      TwinsRunForever(r, keepSerials, window, 0, count);
    }
    TwinsRunForever(r, [], 0, 0, count);
    assert RunsForever(text, count);
  }

  method CapTurn(text: string, keepSerials: seq<int>, window: int, maxTokens: int, count: TextCounter) returns (capped: string)
    requires var live := LiveSerials(RecordBlocks(text));
             live != [] ==> Terminates(CapSelection(text, keepSerials, window), maxTokens, count)
    ensures LiveSerials(RecordBlocks(text)) == [] ==> capped == text
    ensures LiveSerials(RecordBlocks(text)) != [] ==>
              exists n: nat :: var selection := CapSelection(text, keepSerials, window);
                               StopsAfter(selection, maxTokens, count, n) && capped == Join(Texts(Dropped(selection, n)), "\n")
  {
    var blocks := SplitBlocks(text);
    var live := LiveSerials(blocks);
    if live == [] {
      return text;
    }
    var selection := SelectBlocks(blocks, text, Elements(keepSerials), window);
    var kept := TrimBlocks(selection, maxTokens, count);
    capped := Join(Texts(kept), "\n");
  }

  lemma {:induction false} SubsequenceStaysWellFormed(a: seq<Block>, b: seq<Block>, k: Classifier, first: bool)
    requires Subsequence(a, b)
    requires forall i | 0 <= i < |b| :: WellFormed(b[i], k)
    requires forall i | (if first then 1 else 0) <= i < |b| :: !k.isTail(BlockLines(b[i])[0])
    ensures forall i | 0 <= i < |a| :: WellFormed(a[i], k)
    ensures forall i | (if first then 1 else 0) <= i < |a| :: !k.isTail(BlockLines(a[i])[0])
    decreases |a| + |b|
  {
    if a != [] {
      if a[0] == b[0] && Subsequence(a[1..], b[1..]) {
        SubsequenceStaysWellFormed(a[1..], b[1..], k, false);
        assert forall i | 1 <= i < |a| :: a[i] == a[1..][i - 1];
      } else {
        SubsequenceStaysWellFormed(a, b[1..], k, false);
      }
    }
  }

  /** The capped turn: a subsequence of the parsed blocks that still holds the highest selected live
      record, and fits the ceiling unless at most one signed block is left. When it does not end in
      an empty line it parses back to exactly the blocks that were kept. */
  lemma CapTurnPromise(text: string, keepSerials: seq<int>, window: int, maxTokens: int, count: TextCounter, n: nat)
    requires LiveSerials(RecordBlocks(text)) != []
    requires StopsAfter(CapSelection(text, keepSerials, window), maxTokens, count, n)
    ensures var selection := CapSelection(text, keepSerials, window);
            var kept := Dropped(selection, n);
            var capped := Join(Texts(kept), "\n");
            && Subsequence(kept, RecordBlocks(text))
            && Newest(selection) > 0
            && (forall b | b in selection && (b.serial == Newest(selection) || b.serial == 0) :: b in kept)
            && (count(capped) <= maxTokens || SignedCount(kept) <= 1)
            && (forall m | 0 <= m < n :: count(Join(Texts(Dropped(selection, m)), "\n")) > maxTokens)
            && (kept != [] && LastLine(kept[|kept| - 1]) != "" ==> RecordBlocks(capped) == kept)
  {
    hide KeepBlocks, LiveSerials, Selected, Iterate, Subsequence, BlocksOf, Lines, SignedCount, Newest;
    var blocks, selection := RecordBlocks(text), CapSelection(text, keepSerials, window);
    var kept := Dropped(selection, n);
    LastRoundStops(selection, maxTokens, count, n);
    forall m: nat | m < n
      ensures !StopsDropping(Dropped(selection, m), maxTokens, count)
    {
      RoundsLeft(selection, maxTokens, count, m, n);
    }
    KeepBlocksFilters(blocks, Selected(blocks, text, Elements(keepSerials), window));
    DroppedKeeps(selection, n);
    SubsequenceTrans(kept, selection, blocks);
    var live := LiveSerials(blocks);
    LiveSerialsOf(blocks);
    var last := live[|live| - 1];
    assert last in live;
    var b :| b in blocks && b.serial == last;
    SelectBlocksKeeps(blocks, text, Elements(keepSerials), window, b);
    assert b in selection;
    NewestIsHighest(selection);
    RecordBlocksLossless(text);
    SubsequenceStaysWellFormed(kept, blocks, GRAMMAR, true);
    if kept != [] && LastLine(kept[|kept| - 1]) != "" {
      ReparseJoined(kept);
    }
  }
}
