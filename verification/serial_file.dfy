/** The text of a serial registry's file (src/wahabot/ai/serials.py). */
module SerialFile {
  // Lines are what splitlines makes of the text; a write runs on from whatever the text ends with.

  import opened Text
  import opened JsonLine
  import EntryScan
  import JsonText

  datatype File = Absent | Present(text: string)

  function Content(f: File): string {
    if f.Absent? then "" else f.text
  }

  function Decoded(lines: seq<string>): (r: seq<Line>)
    ensures |r| == |lines| && forall i | 0 <= i < |lines| :: r[i] == DecodeLine(lines[i])
  {
    seq(|lines|, i requires 0 <= i < |lines| => DecodeLine(lines[i]))
  }

  /** The loader gets through these lines: it raises at a foreign one. */
  predicate Loadable(lines: seq<Line>) {
    forall i | 0 <= i < |lines| :: !lines[i].Foreign?
  }

  /** Every line of the file as the loader reads it. */
  function AllLines(f: File): seq<Line> {
    Decoded(Lines(Content(f)))
  }

  /** One O_APPEND write. */
  function Appended(f: File, e: Entry): File {
    Present(Content(f) + (EntryText(e) + "\n"))
  }

  // ----- the tail behind the last line end -----

  function TailStart(s: string): (n: nat)
    ensures n <= |s| && BreakFree(s[n..]) && (n > 0 ==> IsBreak(s[n - 1]))
  {
    if s == "" || IsBreak(s[|s| - 1]) then |s|
    else
      var n := TailStart(s[..|s| - 1]);
      assert forall i | n <= i < |s| - 1 :: s[i] == s[..|s| - 1][n..][i - n];
      n
  }

  /** What a broken write left behind the last line end, if anything. */
  function Tail(f: File): string {
    Content(f)[TailStart(Content(f))..]
  }

  /** The terminated lines. */
  function Terminated(f: File): seq<Line> {
    Decoded(Lines(Content(f)[..TailStart(Content(f))]))
  }

  predicate BlankEnd(f: File) {
    IsBlank(Tail(f))
  }

  predicate CleanEnd(f: File) {
    Tail(f) == ""
  }

  /** How many characters end a line at k. */
  function BreakWidth(s: string, k: nat): nat
    requires k < |s|
  {
    if s[k] == '\r' && k + 1 < |s| && s[k + 1] == '\n' then 2 else 1
  }

  lemma LinesStep(s: string, k: nat)
    requires k == BreakRun(s) < |s|
    ensures k + BreakWidth(s, k) <= |s| && Lines(s) == [s[..k]] + Lines(s[k + BreakWidth(s, k)..])
  {
    hide IsBreak, BreakRun;
  }

  lemma BreakRunInFront(a: string, b: string)
    requires BreakRun(a) < |a|
    ensures BreakRun(a + b) == BreakRun(a)
  {
    hide IsBreak;
    var n, k := BreakRun(a + b), BreakRun(a);
    assert forall i | 0 <= i < |a| :: (a + b)[i] == a[i];
  }

  lemma BreakWidthInFront(a: string, b: string, k: nat)
    requires k < |a| && (a[|a| - 1] == '\r' ==> b == "" || b[0] != '\n')
    ensures BreakWidth(a + b, k) == BreakWidth(a, k) && k + BreakWidth(a, k) <= |a|
  {
    assert (a + b)[k] == a[k];
    if k + 1 < |a + b| {
      assert (a + b)[k + 1] == if k + 1 < |a| then a[k + 1] else b[0];
    }
  }

  lemma HasBreak(a: string)
    requires a != "" && IsBreak(a[|a| - 1])
    ensures BreakRun(a) < |a|
  {
    hide IsBreak;
  }

  /** A text that may be cut off here without splitting a line or its end. */
  predicate EndsLine(a: string, b: string) {
    a == "" || (IsBreak(a[|a| - 1]) && (a[|a| - 1] == '\r' ==> b == "" || b[0] != '\n'))
  }

  /** Cutting a text behind a line end cuts its lines in two. */
  lemma {:induction false} LinesConcat(a: string, b: string)
    requires EndsLine(a, b)
    ensures Lines(a + b) == Lines(a) + Lines(b)
    decreases |a|
  {
    hide Lines, BreakRun, BreakWidth, IsBreak;
    if a == "" {
      LinesOfNothing([]);
      assert a + b == b;
    } else {
      HasBreak(a);
      BreakRunInFront(a, b);
      var k := BreakRun(a);
      BreakWidthInFront(a, b, k);
      var next := k + BreakWidth(a, k);
      LinesStep(a, k);
      LinesStep(a + b, k);
      ConcatSlices(a, b, k);
      ConcatSlices(a, b, next);
      LinesConcat(a[next..], b);
      OneInFront(a[..k], Lines(a[next..]), Lines(b));
    }
  }

  lemma OneInFront(x: string, a: seq<string>, b: seq<string>)
    ensures [x] + (a + b) == ([x] + a) + b
  {
  }

  lemma DecodedConcat(a: seq<string>, b: seq<string>)
    ensures Decoded(a + b) == Decoded(a) + Decoded(b)
  {
  }

  /** The terminated lines can be cut off in front of a tail, and of anything that opens like one. */
  lemma TailEndsLine(t: string, x: string)
    requires x == "" || x[0] != '\n'
    ensures EndsLine(t[..TailStart(t)], x)
  {
    hide TailStart, IsBreak;
  }

  lemma TailOpensNoLine(t: string)
    ensures var u := t[TailStart(t)..]; u == "" || u[0] != '\n'
  {
    hide TailStart;
    assert IsBreak('\n');
  }

  /** The lines of a file are the terminated ones and the tail. */
  lemma LinesWithTail(f: File)
    ensures AllLines(f) == Terminated(f) + if Tail(f) == "" then [] else [DecodeLine(Tail(f))]
  {
    hide Lines, DecodeLine, TailStart, IsBreak, Content;
    var t := Content(f);
    var n := TailStart(t);
    var u := t[n..];
    assert t == t[..n] + u;
    TailOpensNoLine(t);
    TailEndsLine(t, u);
    LinesConcat(t[..n], u);
    DecodedConcat(Lines(t[..n]), Lines(u));
    if u == "" {
      LinesOfNothing([]);
    } else {
      LinesOfOne(u);
      assert Decoded([u]) == [DecodeLine(u)];
    }
  }

  /** What a write adds to the terminated lines. */
  function Written(f: File, e: Entry): seq<Line> {
    Decoded(Lines(Tail(f) + (EntryText(e) + "\n")))
  }

  lemma {:induction false} TailStartEnds(s: string)
    requires s != "" && IsBreak(s[|s| - 1])
    ensures TailStart(s) == |s|
  {
  }

  lemma EndsWithBreak(t: string, w: string)
    ensures var s := t + (w + "\n"); s != "" && IsBreak(s[|s| - 1]) && TailStart(s) == |s|
  {
    TailStartEnds(t + (w + "\n"));
  }

  /** What is added to a text joins its tail; the lines before stay as they are. */
  lemma AddedToTail(t: string, more: string)
    requires more != "" && more[0] != '\n'
    ensures var n := TailStart(t); Lines(t + more) == Lines(t[..n]) + Lines(t[n..] + more)
  {
    hide Lines, TailStart, IsBreak, EndsLine;
    var n := TailStart(t);
    assert t + more == t[..n] + (t[n..] + more);
    TailOpensNoLine(t);
    FirstOfSum(t[n..], more);
    TailEndsLine(t, t[n..] + more);
    LinesConcat(t[..n], t[n..] + more);
  }

  lemma FirstOfSum(u: string, more: string)
    requires more != "" && more[0] != '\n' && (u == "" || u[0] != '\n')
    ensures u + more != "" && (u + more)[0] != '\n'
  {
  }

  lemma WriteExtends(f: File, e: Entry)
    ensures AllLines(Appended(f, e)) == Terminated(f) + Written(f, e)
    ensures CleanEnd(Appended(f, e))
  {
    hide Lines, DecodeLine, EntryText, TailStart, IsBreak;
    var t := Content(f);
    EntryEnds(e);
    AddedToTail(t, EntryText(e) + "\n");
    DecodedConcat(Lines(t[..TailStart(t)]), Lines(t[TailStart(t)..] + (EntryText(e) + "\n")));
    EndsWithBreak(t, EntryText(e));
  }

  // ----- which of the written lines are entries -----

  ghost predicate NoneStored(lines: seq<Line>) {
    forall i | 0 <= i < |lines| :: !lines[i].Stored?
  }

  lemma BlankStart(u: string, p: string, l: nat, r: nat)
    requires SpaceAround(u + p, l, r) && p != "" && !IsSpace(p[0])
    ensures IsBlank(u) ==> l == |u|
    ensures !IsBlank(u) ==> l < |u|
    ensures r > |u|
  {
    hide IsSpace;
    var s := u + p;
    assert s[|u|] == p[0];
    assert forall i | 0 <= i < |u| :: s[i] == u[i];
  }

  lemma NotAllSpace(u: string, p: string)
    requires p != "" && !IsSpace(p[0])
    ensures Strip(u + p) != ""
  {
    assert (u + p)[|u|] == p[0];
  }

  lemma NeverOpensLater(e: Entry, s: string, i: nat)
    requires s == EntryText(e) && 0 < i <= |s|
    ensures !Opens(s[i..])
  {
    hide EntryText, OpensNowhere;
    EntryOpensOnce(e);
    OpensAt(s[1..], i - 1);
    assert s[1..][i - 1..] == s[i..];
  }

  /** Behind a tail that is not blank the head of an entry opens nothing. */
  lemma HeadInside(u: string, p: string, e: Entry)
    requires !IsBlank(u) && Opens(p)
    ensures Strip(u + p) != EntryText(e)
  {
    hide EntryText, IsBlank, Strip, IsSpace, Opens;
    var s := u + p;
    HeadIsNoSpace(p);
    NotAllSpace(u, p);
    var l, r := StripIsSlice(s);
    BlankStart(u, p, l, r);
    EndBehindHead(u, p, l, r);
    OpensInside(u, p, l, r);
    if s[l..r] == EntryText(e) {
      NeverOpensLater(e, s[l..r], |u| - l);
    }
  }

  lemma OpensInside(u: string, p: string, l: nat, r: nat)
    requires Opens(p) && l <= |u| && |u| + 3 <= r <= |u| + |p|
    ensures Opens((u + p)[l..r][|u| - l..])
  {
    var x := (u + p)[l..r];
    assert forall i | 0 <= i < 3 :: x[|u| - l..][i] == x[|u| - l + i] == (u + p)[|u| + i] == p[i];
  }

  lemma HeadIsNoSpace(p: string)
    requires Opens(p)
    ensures p != "" && !IsSpace(p[0])
  {
  }

  lemma EndBehindHead(u: string, p: string, l: nat, r: nat)
    requires SpaceAround(u + p, l, r) && Opens(p)
    ensures r >= |u| + 3
  {
    hide IsSpace;
    assert (u + p)[|u| + 2] == 'm';
    assert !IsSpace('m') by { LetterIsNoSpace(); }
  }

  lemma LetterIsNoSpace()
    ensures !IsSpace('m') && !IsSpace('{') && !IsSpace('}')
  {
  }

  /** Behind a blank tail the head of a text is what is left of it. */
  lemma HeadBehindBlank(u: string, p: string)
    requires IsBlank(u) && p != "" && !IsSpace(p[0])
    ensures Strip(u + p) <= p
    ensures !IsSpace(p[|p| - 1]) ==> Strip(u + p) == p
  {
    hide IsBlank, Strip, IsSpace;
    var s := u + p;
    NotAllSpace(u, p);
    var l, r := StripIsSlice(s);
    BlankStart(u, p, l, r);
    assert s[l..r] == p[..r - |u|];
    LastKept(s, l, r);
    assert s[|s| - 1] == p[|p| - 1];
  }

  lemma LastKept(s: string, l: nat, r: nat)
    requires SpaceAround(s, l, r)
    ensures !IsSpace(s[|s| - 1]) ==> r == |s|
  {
  }

  /** A piece of an entry's text that does not start where the text starts is no entry. */
  lemma InnerPieceIsNoEntry(e: Entry, i: nat, j: nat, x: Entry)
    requires 0 < i <= j <= |EntryText(e)|
    ensures Strip(EntryText(e)[i..j]) != EntryText(x)
  {
    hide EntryText, Strip;
    var t := EntryText(e);
    var y := t[i..j];
    EntryEnds(x);
    if Strip(y) == EntryText(x) {
      var l, r := StripIsSlice(y);
      assert y[l..r] == t[i + l..i + r];
      assert t[i + l..][..3] == EntryText(x)[..3];
      NeverOpensLater(e, t, i + l);
    }
  }

  lemma NotStored(line: string)
    requires forall x: Entry :: Strip(line) != EntryText(x)
    ensures !DecodeLine(line).Stored?
  {
    hide EntryText, Strip;
    if DecodeLine(line).Stored? {
      DecodesIff(line, DecodeLine(line).entry);
    }
  }

  /** The pieces that stray line ends and cuts leave of an entry's text are no entries. */
  lemma {:induction false} PiecesAreNoEntries(e: Entry, i: nat, j: nat, end: string)
    requires 0 < i <= j <= |EntryText(e)| && (end == "" || end == "\n")
    ensures NoneStored(Decoded(Lines(EntryText(e)[i..j] + end)))
    decreases j - i
  {
    hide EntryText, Lines, DecodeLine, Strip, IsBreak;
    var t := EntryText(e);
    var s := t[i..j] + end;
    var k := BreakRun(s);
    NewlineIsBreak();
    assert end != "" ==> s[|s| - 1] == '\n';
    if s == "" {
      LinesOfNothing([]);
    } else if k == |s| {
      LinesOfOne(s);
      assert s == t[i..j];
      PieceIsNoEntry(e, i, j);
    } else {
      LinesStep(s, k);
      assert s[..k] == t[i..i + k];
      PieceIsNoEntry(e, i, i + k);
      var skip := BreakWidth(s, k);
      if i + k + skip <= j {
        assert t[i..j][k + skip..] == t[i + k + skip..j];
        assert s[k + skip..] == t[i + k + skip..j] + end;
        PiecesAreNoEntries(e, i + k + skip, j, end);
      } else {
        assert s[k + skip..] == "";
        LinesOfNothing([]);
      }
      DecodedConcat([s[..k]], Lines(s[k + skip..]));
    }
  }

  lemma PieceIsNoEntry(e: Entry, i: nat, j: nat)
    requires 0 < i <= j <= |EntryText(e)|
    ensures !DecodeLine(EntryText(e)[i..j]).Stored?
  {
    hide EntryText, Strip;
    forall x: Entry
      ensures Strip(EntryText(e)[i..j]) != EntryText(x)
    {
      InnerPieceIsNoEntry(e, i, j, x);
    }
    NotStored(EntryText(e)[i..j]);
  }

  lemma NewlineIsBreak()
    ensures IsBreak('\n')
  {
  }

  lemma FirstPieceIsNoEntry(u: string, e: Entry, k: nat, x: Entry)
    requires 0 < k < |EntryText(e)| && (k >= 3 || IsBlank(u))
    ensures Strip(u + EntryText(e)[..k]) != EntryText(x)
  {
    hide EntryText, Strip, IsBlank;
    var t := EntryText(e);
    var p := t[..k];
    EntryEnds(e);
    LetterIsNoSpace();
    if IsBlank(u) {
      HeadBehindBlank(u, p);
      if Strip(u + p) == EntryText(x) {
        var rest := t[|EntryText(x)|..];
        assert t == EntryText(x) + rest;
        EntryTextsApart(e, x, rest);
      }
    } else {
      HeadInside(u, p, x);
    }
  }

  /** Where the first stray line end of an entry's text stands. */
  lemma FirstStrayBreak(u: string, e: Entry) returns (k: nat)
    requires BreakFree(u) && !Storable(e)
    ensures 3 <= k < |EntryText(e)| && BreakRun(u + (EntryText(e) + "\n")) == |u| + k
  {
    hide EntryText, Storable;
    var t := EntryText(e);
    EntryIsOneLineIff(e);
    EntryEnds(e);
    k := BreakRun(t);
    assert !IsBreak('{') && !IsBreak('"') && !IsBreak('m');
    BreakRunOfSum(u, t, "\n");
  }

  lemma BreakRunOfSum(u: string, t: string, rest: string)
    requires BreakFree(u) && BreakRun(t) < |t|
    ensures BreakRun(u + (t + rest)) == |u| + BreakRun(t)
  {
    var s, k := u + (t + rest), BreakRun(t);
    assert forall i | 0 <= i < |u| :: s[i] == u[i];
    assert forall i | 0 <= i < |t| :: s[|u| + i] == t[i];
    var n := BreakRun(s);
  }

  /** An entry with a stray line end is written as lines of which none is an entry. */
  lemma StrayEntryIsLost(f: File, e: Entry)
    requires !Storable(e)
    ensures NoneStored(Written(f, e))
  {
    hide EntryText, Lines, DecodeLine, Strip, Storable, TailStart, BreakRun, IsBreak;
    var u, t := Tail(f), EntryText(e);
    var s := u + (t + "\n");
    var k := FirstStrayBreak(u, e);
    LinesStep(s, |u| + k);
    assert s[..|u| + k] == u + t[..k];
    forall x: Entry
      ensures Strip(s[..|u| + k]) != EntryText(x)
    {
      FirstPieceIsNoEntry(u, e, k, x);
    }
    NotStored(s[..|u| + k]);
    var skip := BreakWidth(s, |u| + k);
    assert s[|u| + k + skip..] == (t + "\n")[k + skip..];
    LaterPieces(e, k + skip);
    DecodedConcat([s[..|u| + k]], Lines(s[|u| + k + skip..]));
  }

  lemma LaterPieces(e: Entry, i: nat)
    requires 0 < i <= |EntryText(e)| + 1
    ensures NoneStored(Decoded(Lines((EntryText(e) + "\n")[i..])))
  {
    hide EntryText, Lines, DecodeLine;
    var t := EntryText(e);
    if i <= |t| {
      assert (t + "\n")[i..] == t[i..|t|] + "\n";
      PiecesAreNoEntries(e, i, |t|, "\n");
    } else {
      assert (t + "\n")[i..] == "";
      LinesOfNothing([]);
    }
  }

  /** Any other entry makes one line with what stands in front of it: it is read back behind a blank
      tail, and behind any other tail neither it nor the tail is. */
  lemma EntryIsWritten(f: File, e: Entry)
    requires Storable(e)
    ensures Written(f, e) == [if BlankEnd(f) then Stored(e) else Torn]
  {
    hide EntryText, Lines, DecodeLine, Strip, Storable, TailStart, IsBlank;
    var u, t := Tail(f), EntryText(e);
    EntryIsOneLineIff(e);
    BreakFreeConcat(u, t);
    EntryEnds(e);
    LetterIsNoSpace();
    LinesOfFirst(u + t, "");
    LinesOfNothing([]);
    assert u + (t + "\n") == (u + t) + ("\n" + "");
    assert Lines(u + (t + "\n")) == [u + t];
    if IsBlank(u) {
      HeadBehindBlank(u, t);
      DecodesIff(u + t, e);
    } else {
      forall x: Entry
        ensures Strip(u + t) != EntryText(x)
      {
        HeadInside(u, t, x);
      }
      NotStored(u + t);
      NotAllSpace(u, t);
      NotBlankLine(u + t);
      assert t == t[..|t|];
      EntryHeadIsNotForeign(u, e, |t|);
    }
  }

  lemma NotForeign(line: string)
    requires !JsonText.IsJson(Strip(line))
    ensures !DecodeLine(line).Foreign?
  {
    hide Strip, ReadEntry, EntryText, JsonText.IsJson;
  }

  lemma SliceOfSum(u: string, p: string, l: nat, r: nat)
    requires l <= |u| <= r <= |u| + |p|
    ensures (u + p)[l..r] == u[l..] + p[..r - |u|]
  {
  }

  /** The beginning of an entry's text, with anything in front of it, is not foreign. */
  lemma EntryHeadIsNotForeign(u: string, e: Entry, k: nat)
    requires 0 < k <= |EntryText(e)| && (k >= 3 || IsBlank(u))
    ensures !DecodeLine(u + EntryText(e)[..k]).Foreign?
  {
    hide EntryText, Strip, IsBlank, IsSpace, JsonText.IsJson, DecodeLine;
    var t := EntryText(e);
    var p := t[..k];
    EntryEnds(e);
    LetterIsNoSpace();
    if IsBlank(u) {
      HeadBehindBlank(u, p);
      var m := |Strip(u + p)|;
      assert Strip(u + p) == p[..m] == t[..m];
      if m < |t| {
        EntryScan.CutIsNoJson(e, m);
        NotForeign(u + p);
      } else {
        assert t[..m] == t;
        DecodesIff(u + p, e);
      }
    } else {
      var l, r := HeadSlice(u, p);
      assert p[..r - |u|] == t[..r - |u|];
      EntryScan.EntryBehindIsNoJson(u[l..], e, r - |u|);
      NotForeign(u + p);
    }
  }

  lemma HeadSlice(u: string, p: string) returns (l: nat, r: nat)
    requires !IsBlank(u) && Opens(p)
    ensures l < |u| && |u| + 3 <= r <= |u| + |p| && !IsSpace(u[l]) && Strip(u + p) == u[l..] + p[..r - |u|]
  {
    hide IsBlank, Strip, IsSpace;
    HeadIsNoSpace(p);
    NotAllSpace(u, p);
    l, r := StripIsSlice(u + p);
    BlankStart(u, p, l, r);
    EndBehindHead(u, p, l, r);
    SliceOfSum(u, p, l, r);
    FirstOfSlice(u, p, l, r);
  }

  lemma FirstOfSlice(u: string, p: string, l: nat, r: nat)
    requires SpaceAround(u + p, l, r) && l < |u|
    ensures !IsSpace(u[l])
  {
    hide IsSpace;
    assert (u + p)[l] == u[l];
  }

  lemma NotBlankLine(line: string)
    requires Strip(line) != ""
    ensures !DecodeLine(line).Blank?
  {
  }

  lemma BlankLine(line: string)
    ensures DecodeLine(line).Blank? <==> IsBlank(line)
  {
  }

  // ----- rewriting the file -----

  /** `[line for line in … if line.strip()]`. */
  function NonBlank(lines: seq<string>): seq<string> {
    if lines == [] then []
    else NonBlank(lines[..|lines| - 1]) + if Strip(lines[|lines| - 1]) == "" then [] else [lines[|lines| - 1]]
  }

  /** `lines[-keep:]`, which is all of them when keep is 0. */
  function Newest(lines: seq<string>, keep: nat): seq<string>
    requires keep < |lines|
  {
    if keep == 0 then lines else lines[|lines| - keep..]
  }

  function Rewritten(lines: seq<string>): File {
    Present(Join(lines, "\n") + "\n")
  }

  lemma {:induction false} NonBlankMembers(lines: seq<string>)
    ensures forall l | l in NonBlank(lines) :: l in lines
  {
    if lines != [] {
      var init, last := lines[..|lines| - 1], lines[|lines| - 1];
      NonBlankMembers(init);
      assert lines == init + [last];
    }
  }

  lemma StoredIsNotBlank(line: string)
    requires DecodeLine(line).Stored?
    ensures Strip(line) != ""
  {
    hide Strip, ReadEntry, EntryText;
  }

  lemma {:induction false} NonBlankAll(lines: seq<string>)
    requires forall i | 0 <= i < |lines| :: DecodeLine(lines[i]).Stored?
    ensures NonBlank(lines) == lines
  {
    hide DecodeLine, Strip;
    if lines != [] {
      var init, last := lines[..|lines| - 1], lines[|lines| - 1];
      assert forall i | 0 <= i < |init| :: init[i] == lines[i];
      NonBlankAll(init);
      StoredIsNotBlank(last);
      assert lines == init + [last];
    }
  }

  lemma {:induction false} LinesOfRewritten(lines: seq<string>)
    requires lines != [] && forall l | l in lines :: BreakFree(l)
    ensures Lines(Join(lines, "\n") + "\n") == lines
  {
    hide Lines, BreakFree;
    if |lines| == 1 {
      LinesOfFirst(lines[0], "");
      LinesOfNothing([]);
      assert Join(lines, "\n") + "\n" == lines[0] + ("\n" + "");
    } else {
      LinesOfRewritten(lines[1..]);
      JoinStep(lines, "\n");
      LinesOfFirst(lines[0], Join(lines[1..], "\n") + "\n");
      assert Join(lines, "\n") + "\n" == lines[0] + ("\n" + (Join(lines[1..], "\n") + "\n"));
    }
  }

  lemma RewrittenReads(lines: seq<string>)
    requires lines != [] && forall l | l in lines :: BreakFree(l)
    ensures AllLines(Rewritten(lines)) == Decoded(lines) && CleanEnd(Rewritten(lines))
  {
    hide Lines, BreakFree, DecodeLine;
    LinesOfRewritten(lines);
    EndsWithBreak(Join(lines, "\n"), "");
    assert "" + "\n" == "\n";
  }
}
