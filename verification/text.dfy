/** Strings as the program sees them: white space, words, lines and decimal numerals.

    Words follows `str.split()`, Lines follows `str.splitlines()`, and OneLine is the
    `" ".join(text.split())` that flattens member text all over the program. */
module Text {

  /** A tokenizer's count of a text; nothing is assumed about it. */
  type TextCounter = string -> nat

  /** White space as `str.isspace` and the pattern `\s` understand it. */
  predicate IsSpace(c: char) {
    || '\t' <= c <= '\r' || '\U{1C}' <= c <= ' ' || c == '\U{85}' || c == '\U{A0}' || c == '\U{1680}'
    || '\U{2000}' <= c <= '\U{200A}' || c == '\U{2028}' || c == '\U{2029}' || c == '\U{202F}'
    || c == '\U{205F}' || c == '\U{3000}'
  }

  /** The line boundaries of `str.splitlines`; each of them is also white space. */
  predicate IsBreak(c: char) {
    '\n' <= c <= '\r' || '\U{1C}' <= c <= '\U{1E}' || c == '\U{85}' || c == '\U{2028}' || c == '\U{2029}'
  }

  predicate IsDigit(c: char) {
    '0' <= c <= '9'
  }

  predicate IsBlank(s: string) {
    forall i | 0 <= i < |s| :: IsSpace(s[i])
  }

  predicate BreakFree(s: string) {
    forall i | 0 <= i < |s| :: !IsBreak(s[i])
  }

  lemma BreakFreeConcat(a: string, b: string)
    ensures BreakFree(a + b) <==> BreakFree(a) && BreakFree(b)
  {
    if BreakFree(a + b) {
      assert forall i | 0 <= i < |a| :: a[i] == (a + b)[i];
      assert forall i | 0 <= i < |b| :: b[i] == (a + b)[|a| + i];
    }
  }

  /** The only line boundary in the text is the line feed. */
  predicate OnlyNewlines(s: string) {
    forall i | 0 <= i < |s| :: IsBreak(s[i]) ==> s[i] == '\n'
  }

  /** Length of the longest prefix whose characters all satisfy (or all fail) IsSpace. */
  function SpaceRun(s: string): (n: nat)
    ensures n <= |s| && (forall i | 0 <= i < n :: IsSpace(s[i])) && (n < |s| ==> !IsSpace(s[n]))
  {
    if s == "" || !IsSpace(s[0]) then 0 else 1 + SpaceRun(s[1..])
  }

  function WordRun(s: string): (n: nat)
    ensures n <= |s| && (forall i | 0 <= i < n :: !IsSpace(s[i])) && (n < |s| ==> IsSpace(s[n]))
  {
    if s == "" || IsSpace(s[0]) then 0 else 1 + WordRun(s[1..])
  }

  function DigitRun(s: string): (n: nat)
    ensures n <= |s| && (forall i | 0 <= i < n :: IsDigit(s[i])) && (n < |s| ==> !IsDigit(s[n]))
  {
    if s == "" || !IsDigit(s[0]) then 0 else 1 + DigitRun(s[1..])
  }

  function BreakRun(s: string): (n: nat)
    ensures n <= |s| && (forall i | 0 <= i < n :: !IsBreak(s[i])) && (n < |s| ==> IsBreak(s[n]))
  {
    if s == "" || IsBreak(s[0]) then 0 else 1 + BreakRun(s[1..])
  }

  /** `sep.join(parts)`. */
  function Join(parts: seq<string>, sep: string): string {
    if |parts| == 0 then "" else if |parts| == 1 then parts[0] else parts[0] + sep + Join(parts[1..], sep)
  }

  lemma {:induction false} JoinAppend(a: seq<string>, b: seq<string>, sep: string)
    requires a != [] && b != []
    ensures Join(a + b, sep) == Join(a, sep) + sep + Join(b, sep)
  {
    if |a| == 1 {
      assert (a + b)[1..] == b;
    } else {
      assert (a + b)[1..] == a[1..] + b;
      JoinAppend(a[1..], b, sep);
      assert (a + b)[0] == a[0];
      calc {
        Join(a + b, sep);
        a[0] + sep + Join(a[1..] + b, sep);
        a[0] + sep + (Join(a[1..], sep) + sep + Join(b, sep));
        (a[0] + sep + Join(a[1..], sep)) + sep + Join(b, sep);
      }
    }
  }

  // ----- the last place a pattern matches -----

  /** Where the last suffix that matches starts, or -1; what a greedy `.*` in front finds. */
  function LastMatch(s: string, p: string -> bool): (i: int)
    ensures -1 <= i < |s|
    ensures i >= 0 ==> p(s[i..])
  {
    if s == "" then -1
    else
      var q := LastMatch(s[1..], p);
      assert q >= 0 ==> s[1..][q..] == s[q + 1..];
      if q >= 0 then q + 1 else if p(s) then 0 else -1
  }

  lemma {:induction false} LastMatchShift(a: string, b: string, p: string -> bool)
    requires LastMatch(b, p) >= 0
    ensures LastMatch(a + b, p) == |a| + LastMatch(b, p)
  {
    if a == "" {
      assert a + b == b;
    } else {
      assert (a + b)[1..] == a[1..] + b;
      LastMatchShift(a[1..], b, p);
    }
  }

  lemma {:induction false} NoMatchInFront(a: string, b: string, p: string -> bool)
    requires LastMatch(b, p) < 0
    requires forall i | 0 <= i < |a| :: !p(a[i..] + b)
    ensures LastMatch(a + b, p) < 0
  {
    if a == "" {
      assert a + b == b;
    } else {
      assert (a + b)[1..] == a[1..] + b;
      assert a[0..] == a;
      assert forall i | 0 <= i < |a| - 1 :: a[1..][i..] == a[i + 1..];
      NoMatchInFront(a[1..], b, p);
    }
  }

  /** A match with no later one behind it is the last, whatever stands in front. */
  lemma LastMatchAt(front: string, inner: string, tail: string, p: string -> bool)
    requires inner != "" && p(inner + tail)
    requires forall i | 0 < i < |inner| :: !p(inner[i..] + tail)
    ensures LastMatch(front + (inner + tail), p) ==
            |front| + if LastMatch(tail, p) < 0 then 0 else |inner| + LastMatch(tail, p)
  {
    var t := inner + tail;
    if LastMatch(tail, p) < 0 {
      assert forall i | 0 <= i < |inner| - 1 :: inner[1..][i..] == inner[i + 1..];
      NoMatchInFront(inner[1..], tail, p);
      assert t[1..] == inner[1..] + tail;
    } else {
      LastMatchShift(inner, tail, p);
    }
    LastMatchShift(front, t, p);
  }

  // ----- words -----

  /** `text.split()`. */
  function Words(s: string): seq<string>
    decreases |s|
  {
    if s == "" then []
    else if IsSpace(s[0]) then Words(s[1..])
    else [s[..WordRun(s)]] + Words(s[WordRun(s)..])
  }

  /** `" ".join(text.split())`. */
  function OneLine(s: string): string {
    Join(Words(s), " ")
  }

  predicate IsWord(w: string) {
    w != "" && forall i | 0 <= i < |w| :: !IsSpace(w[i])
  }

  lemma WordsSkip(s: string)
    requires s != "" && IsSpace(s[0])
    ensures Words(s) == Words(s[1..])
  {
  }

  lemma WordsTake(s: string, k: nat)
    requires s != "" && !IsSpace(s[0]) && k == WordRun(s)
    ensures 0 < k && Words(s) == [s[..k]] + Words(s[k..])
  {
  }

  lemma WordsOfNothing()
    ensures Words("") == []
  {
  }

  lemma ConcatSlices(a: string, b: string, k: nat)
    requires k <= |a|
    ensures (a + b)[..k] == a[..k] && (a + b)[k..] == a[k..] + b
  {
  }

  /** Cutting a text at white space never cuts a word. */
  lemma {:induction false} WordsConcat(a: string, b: string)
    requires a == "" || b == "" || IsSpace(a[|a| - 1]) || IsSpace(b[0])
    ensures Words(a + b) == Words(a) + Words(b)
    decreases |a|
  {
    hide Words, IsSpace, WordRun;
    WordsOfNothing();
    if a == "" {
      assert a + b == b;
    } else if b == "" {
      assert a + b == a;
    } else if IsSpace(a[0]) {
      ConcatSlices(a, b, 1);
      WordsConcat(a[1..], b);
      WordsSkip(a);
      WordsSkip(a + b);
    } else {
      var k := WordRun(a);
      WordRunConcat(a, b);
      WordsTake(a, k);
      WordsTake(a + b, k);
      ConcatSlices(a, b, k);
      WordsConcat(a[k..], b);
      assert [a[..k]] + (Words(a[k..]) + Words(b)) == ([a[..k]] + Words(a[k..])) + Words(b);
    }
  }

  lemma {:induction false} WordRunConcat(a: string, b: string)
    requires WordRun(a) < |a| || b == "" || IsSpace(b[0])
    ensures WordRun(a + b) == WordRun(a)
  {
    var n, k := WordRun(a + b), WordRun(a);
    assert forall i | 0 <= i < |a| :: (a + b)[i] == a[i];
    assert k < |a + b| ==> (a + b)[k] == if k < |a| then a[k] else b[0];
  }

  lemma {:induction false} WordsAreWords(s: string)
    ensures forall w | w in Words(s) :: IsWord(w)
    decreases |s|
  {
    if s != "" {
      if IsSpace(s[0]) {
        WordsAreWords(s[1..]);
      } else {
        WordsAreWords(s[WordRun(s)..]);
      }
    }
  }

  lemma {:induction false} WordsOfWord(w: string)
    requires IsWord(w)
    ensures Words(w) == [w]
  {
    assert WordRun(w) == |w|;
    assert w[..|w|] == w && w[|w|..] == "";
  }

  lemma JoinStep(parts: seq<string>, sep: string)
    requires |parts| > 1
    ensures Join(parts, sep) == parts[0] + (sep + Join(parts[1..], sep))
  {
  }

  lemma WordsBehindSpace(sep: string, rest: string)
    requires |sep| == 1 && IsSpace(sep[0])
    ensures Words(sep + rest) == Words(rest)
  {
    hide Words;
    WordsSkip(sep + rest);
    assert (sep + rest)[1..] == rest;
  }

  /** Joining by any single white-space character keeps every word of every part. */
  lemma {:induction false} WordsOfJoin(parts: seq<string>, sep: string)
    requires |sep| == 1 && IsSpace(sep[0])
    ensures Words(Join(parts, sep)) == FlattenWords(parts)
  {
    hide Words;
    WordsOfNothing();
    if |parts| > 1 {
      JoinStep(parts, sep);
      WordsOfJoin(parts[1..], sep);
      WordsConcat(parts[0], sep + Join(parts[1..], sep));
      WordsBehindSpace(sep, Join(parts[1..], sep));
    } else if |parts| == 1 {
      assert FlattenWords(parts) == Words(parts[0]) + FlattenWords(parts[1..]);
    }
  }

  function FlattenWords(parts: seq<string>): seq<string> {
    if |parts| == 0 then [] else Words(parts[0]) + FlattenWords(parts[1..])
  }

  lemma {:induction false} FlattenWordsAppend(a: seq<string>, b: seq<string>)
    ensures FlattenWords(a + b) == FlattenWords(a) + FlattenWords(b)
  {
    if a == [] {
      assert a + b == b;
    } else {
      assert (a + b)[1..] == a[1..] + b;
      FlattenWordsAppend(a[1..], b);
    }
  }

  lemma {:induction false} FlattenWordsOfWords(ws: seq<string>)
    requires forall w | w in ws :: IsWord(w)
    ensures FlattenWords(ws) == ws
  {
    if ws != [] {
      WordsOfWord(ws[0]);
      FlattenWordsOfWords(ws[1..]);
    }
  }

  /** Flattening to one line keeps the words and leaves no line boundary behind. */
  lemma {:induction false} OneLineFacts(s: string)
    ensures Words(OneLine(s)) == Words(s)
    ensures OneLine(OneLine(s)) == OneLine(s)
    ensures BreakFree(OneLine(s))
    ensures OneLine(s) != "" ==> !IsSpace(OneLine(s)[0]) && !IsSpace(OneLine(s)[|OneLine(s)| - 1])
    ensures OneLine(s) == "" <==> Words(s) == []
  {
    WordsAreWords(s);
    WordsOfJoin(Words(s), " ");
    FlattenWordsOfWords(Words(s));
    JoinWordsShape(Words(s));
  }

  lemma {:induction false} JoinWordsShape(ws: seq<string>)
    requires forall w | w in ws :: IsWord(w)
    ensures BreakFree(Join(ws, " "))
    ensures ws != [] ==> var j := Join(ws, " "); j != "" && !IsSpace(j[0]) && !IsSpace(j[|j| - 1])
  {
    if |ws| == 1 {
      assert ws[0] in ws;
    } else if |ws| > 1 {
      assert ws[0] in ws;
      JoinWordsShape(ws[1..]);
    }
  }

  /** `s.strip()`. */
  function Strip(s: string): (r: string)
    ensures |r| <= |s|
    ensures r != "" ==> !IsSpace(r[0]) && !IsSpace(r[|r| - 1])
    ensures r == "" <==> forall i | 0 <= i < |s| :: IsSpace(s[i])
    decreases |s|
  {
    if s == "" then ""
    else if IsSpace(s[0]) then
      assert forall i | 0 < i < |s| :: s[i] == s[1..][i - 1];
      Strip(s[1..])
    else if IsSpace(s[|s| - 1]) then
      assert s[..|s| - 1][0] == s[0];
      Strip(s[..|s| - 1])
    else s
  }

  /** White space in front of l and from r on, and none at the ends of what is between. */
  predicate SpaceAround(s: string, l: nat, r: nat) {
    && l < r <= |s| && !IsSpace(s[l]) && !IsSpace(s[r - 1])
    && (forall i | 0 <= i < l :: IsSpace(s[i])) && (forall i | r <= i < |s| :: IsSpace(s[i]))
  }

  lemma SpaceInFront(s: string, l: nat, r: nat)
    requires s != "" && IsSpace(s[0]) && SpaceAround(s[1..], l, r)
    ensures SpaceAround(s, l + 1, r + 1) && s[1..][l..r] == s[l + 1..r + 1]
  {
    hide IsSpace;
    assert forall i | 1 <= i < |s| :: s[i] == s[1..][i - 1];
  }

  lemma SpaceBehind(s: string, l: nat, r: nat)
    requires s != "" && IsSpace(s[|s| - 1]) && SpaceAround(s[..|s| - 1], l, r)
    ensures SpaceAround(s, l, r) && s[..|s| - 1][l..r] == s[l..r]
  {
    hide IsSpace;
  }

  lemma NothingAround(s: string)
    requires s != "" && !IsSpace(s[0]) && !IsSpace(s[|s| - 1])
    ensures SpaceAround(s, 0, |s|) && s[0..|s|] == s
  {
  }

  /** What `strip` leaves is the part between the white space at both ends. */
  lemma {:induction false} StripIsSlice(s: string) returns (l: nat, r: nat)
    requires Strip(s) != ""
    ensures SpaceAround(s, l, r) && Strip(s) == s[l..r]
    decreases |s|
  {
    hide IsSpace, SpaceAround;
    if IsSpace(s[0]) {
      var p, q := StripIsSlice(s[1..]);
      SpaceInFront(s, p, q);
      l, r := p + 1, q + 1;
    } else if IsSpace(s[|s| - 1]) {
      l, r := StripIsSlice(s[..|s| - 1]);
      SpaceBehind(s, l, r);
    } else {
      NothingAround(s);
      l, r := 0, |s|;
    }
  }

  lemma AroundConcat(a: string, b: string, p: nat, q: nat, l: nat, r: nat)
    requires SpaceAround(b, p, q) && SpaceAround(a + b, l, r)
    ensures r == |a| + q && l <= |a| + p
  {
    hide IsSpace;
    var s := a + b;
    assert s[|a| + p] == b[p] && s[|a| + q - 1] == b[q - 1];
    assert forall i | 0 <= i < |b| :: s[|a| + i] == b[i];
  }

  lemma EndOfSlice(a: string, b: string, p: nat, q: nat, l: nat)
    requires p <= q <= |b| && l <= |a| + p
    ensures (a + b)[l..|a| + q][|a| + p - l..] == b[p..q]
  {
  }

  /** Text put in front of another leaves the other's stripped text at the end. */
  lemma StripKeepsEnd(a: string, b: string)
    requires Strip(b) != ""
    ensures |Strip(b)| <= |Strip(a + b)| && Strip(a + b)[|Strip(a + b)| - |Strip(b)|..] == Strip(b)
  {
    hide SpaceAround;
    var p, q := StripIsSlice(b);
    SpacePlaces(b, p, q);
    StripHasMore(a, b, p, q);
    var l, r := StripIsSlice(a + b);
    AroundConcat(a, b, p, q, l, r);
    EndOfSlice(a, b, p, q, l);
  }

  lemma SpacePlaces(s: string, l: nat, r: nat)
    requires SpaceAround(s, l, r)
    ensures l < r <= |s| && !IsSpace(s[l])
  {
  }

  lemma StripHasMore(a: string, b: string, p: nat, q: nat)
    requires p < q <= |b| && !IsSpace(b[p])
    ensures Strip(a + b) != ""
  {
    assert (a + b)[|a| + p] == b[p];
  }

  lemma {:induction false} WordsOfStrip(s: string)
    ensures Words(Strip(s)) == Words(s)
    decreases |s|
  {
    if s == "" {
    } else if IsSpace(s[0]) {
      WordsOfStrip(s[1..]);
    } else if IsSpace(s[|s| - 1]) {
      WordsOfStrip(s[..|s| - 1]);
      var last := s[|s| - 1..];
      assert s == s[..|s| - 1] + last;
      WordsConcat(s[..|s| - 1], last);
      assert last[1..] == "";
      assert Words(last) == [];
    }
  }

  lemma {:induction false} BlankHasNoWords(s: string)
    requires forall i | 0 <= i < |s| :: IsSpace(s[i])
    ensures Words(s) == []
  {
    if s != "" {
      BlankHasNoWords(s[1..]);
    }
  }

  // ----- lines -----

  /** `text.splitlines()`: a carriage return and line feed together end one line,
      and a boundary at the very end opens no further line. */
  function Lines(s: string): seq<string>
    decreases |s|
  {
    if s == "" then []
    else
      var k := BreakRun(s);
      if k == |s| then [s]
      else
        var skip := if s[k] == '\r' && k + 1 < |s| && s[k + 1] == '\n' then 2 else 1;
        [s[..k]] + Lines(s[k + skip..])
  }

  lemma {:induction false} LinesAreBreakFree(s: string)
    ensures forall l | l in Lines(s) :: BreakFree(l)
    decreases |s|
  {
    if s != "" {
      var k := BreakRun(s);
      if k < |s| {
        var skip := if s[k] == '\r' && k + 1 < |s| && s[k + 1] == '\n' then 2 else 1;
        LinesAreBreakFree(s[k + skip..]);
      }
    }
  }

  /** Lines joined by line feeds are read back unless the text would end in an empty line. */
  lemma {:induction false} LinesOfJoin(ls: seq<string>)
    requires forall l | l in ls :: BreakFree(l)
    requires ls != [] ==> ls[|ls| - 1] != ""
    ensures Lines(Join(ls, "\n")) == ls
  {
    hide BreakFree, Lines, Join;
    if ls == [] {
      LinesOfNothing(ls);
    } else if |ls| == 1 {
      JoinOfOne(ls[0], "\n");
      LinesOfOne(ls[0]);
      assert ls == [ls[0]];
    } else {
      LinesOfJoin(ls[1..]);
      JoinStep(ls, "\n");
      LinesOfFirst(ls[0], Join(ls[1..], "\n"));
    }
  }

  lemma LinesOfNothing(ls: seq<string>)
    requires ls == []
    ensures Lines(Join(ls, "\n")) == ls
  {
  }

  lemma JoinOfOne(s: string, sep: string)
    ensures Join([s], sep) == s
  {
  }

  lemma LinesOfOne(s: string)
    requires BreakFree(s) && s != ""
    ensures Lines(s) == [s]
  {
    assert BreakRun(s) == |s|;
  }

  /** The first line ends at the first line feed. */
  lemma LinesOfFirst(first: string, rest: string)
    requires BreakFree(first)
    ensures Lines(first + ("\n" + rest)) == [first] + Lines(rest)
  {
    var s := first + ("\n" + rest);
    BreakRunAt(first, "\n" + rest);
    assert s[..|first|] == first && s[|first| + 1..] == rest;
  }

  lemma {:induction false} BreakRunAt(a: string, b: string)
    requires BreakFree(a)
    requires b == "" || IsBreak(b[0])
    ensures BreakRun(a + b) == |a|
  {
    var n := BreakRun(a + b);
    assert forall i | 0 <= i < |a| :: (a + b)[i] == a[i];
    assert b != "" ==> (a + b)[|a|] == b[0];
  }

  /** `s.split("\n")`: never empty, and the exact inverse of joining by line feeds. */
  function SplitNewline(s: string): (r: seq<string>)
    ensures r != [] && forall i | 0 <= i < |r| :: NewlineFree(r[i])
    decreases |s|
  {
    if s == "" then [""]
    else if s[0] == '\n' then [""] + SplitNewline(s[1..])
    else
      var rest := SplitNewline(s[1..]);
      [[s[0]] + rest[0]] + rest[1..]
  }

  lemma {:induction false} JoinOfSplit(s: string)
    ensures Join(SplitNewline(s), "\n") == s
    decreases |s|
  {
    if s != "" {
      JoinOfSplit(s[1..]);
      var rest := SplitNewline(s[1..]);
      if s[0] == '\n' {
        assert ([""] + rest)[1..] == rest;
        assert s == "\n" + s[1..];
      } else {
        var r := [[s[0]] + rest[0]] + rest[1..];
        assert r[1..] == rest[1..];
        assert s == [s[0]] + s[1..];
        if |rest| > 1 {
          assert Join(r, "\n") == ([s[0]] + rest[0]) + "\n" + Join(rest[1..], "\n");
        }
      }
    }
  }

  predicate NewlineFree(s: string) {
    forall j | 0 <= j < |s| :: s[j] != '\n'
  }

  lemma {:induction false} SplitOfJoin(ls: seq<string>)
    requires ls != []
    requires forall i | 0 <= i < |ls| :: NewlineFree(ls[i])
    ensures SplitNewline(Join(ls, "\n")) == ls
  {
    SplitOfFirst(ls[0], if |ls| == 1 then "" else "\n" + Join(ls[1..], "\n"));
    if |ls| == 1 {
      assert ls[0] + "" == ls[0];
    } else {
      var rest := Join(ls[1..], "\n");
      assert ls[0] + "\n" + rest == ls[0] + ("\n" + rest);
      assert ("\n" + rest)[1..] == rest;
      SplitOfJoin(ls[1..]);
    }
  }

  lemma {:induction false} SplitOfFirst(a: string, b: string)
    requires NewlineFree(a)
    requires b == "" || b[0] == '\n'
    ensures SplitNewline(a + b) == [a] + (if b == "" then [] else SplitNewline(b[1..]))
    decreases |a|
  {
    if a == "" {
      assert a + b == b;
    } else {
      assert (a + b)[1..] == a[1..] + b;
      SplitOfFirst(a[1..], b);
      var tail := if b == "" then [] else SplitNewline(b[1..]);
      assert ([a[1..]] + tail)[1..] == tail;
      assert [a[0]] + a[1..] == a;
    }
  }

  // ----- decimal numerals -----

  /** The decimal numeral of a number, as an f-string writes it. */
  function Numeral(n: nat): (s: string)
    ensures s != "" && forall i | 0 <= i < |s| :: IsDigit(s[i])
  {
    if n < 10 then ['0' + n as char] else Numeral(n / 10) + ['0' + (n % 10) as char]
  }

  function DigitValue(c: char): nat
    requires IsDigit(c)
  {
    c as int - '0' as int
  }

  /** `int(digits)`. */
  function Value(s: string): nat
    requires forall i | 0 <= i < |s| :: IsDigit(s[i])
  {
    if s == "" then 0 else 10 * Value(s[..|s| - 1]) + DigitValue(s[|s| - 1])
  }

  lemma {:induction false} ValueOfNumeral(n: nat)
    ensures Value(Numeral(n)) == n
  {
    if n >= 10 {
      ValueOfNumeral(n / 10);
      var s := Numeral(n);
      assert s[..|s| - 1] == Numeral(n / 10);
    } else {
      assert Numeral(n)[..0] == "";
    }
  }

  lemma {:induction false} DigitRunAt(a: string, b: string)
    requires forall i | 0 <= i < |a| :: IsDigit(a[i])
    requires b == "" || !IsDigit(b[0])
    ensures DigitRun(a + b) == |a|
  {
    var n := DigitRun(a + b);
    assert forall i | 0 <= i < |a| :: (a + b)[i] == a[i];
    assert b != "" ==> (a + b)[|a|] == b[0];
  }

  lemma NumeralBreakFree(n: nat)
    ensures BreakFree(Numeral(n))
  {
  }
}
