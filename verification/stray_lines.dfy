/** Entries that make a registry's file unreadable (src/wahabot/ai/serials.py). */
module StrayLines {
  // A field with stray line ends in it is written as several lines. What stands between two of them is a
  // line of its own, and when that is JSON the loader decodes it and raises.

  import opened Text
  import opened JsonLine
  import opened SerialFile
  import opened EntryScan
  import JsonText

  // ----- texts cut at every line end -----

  /** The pieces between line ends; each line end is one character. */
  function SplitBreaks(s: string): (ps: seq<string>)
    ensures ps != []
    decreases |s|
  {
    if s == "" then [""]
    else
      var rest := SplitBreaks(s[1..]);
      if IsBreak(s[0]) then [""] + rest else [[s[0]] + rest[0]] + rest[1..]
  }

  lemma {:induction false} SplitPrefix(a: string, b: string)
    requires BreakFree(a)
    ensures SplitBreaks(a + b) == [a + SplitBreaks(b)[0]] + SplitBreaks(b)[1..]
    decreases |a|
  {
    if a == "" {
      assert a + b == b;
      assert "" + SplitBreaks(b)[0] == SplitBreaks(b)[0];
    } else {
      assert (a + b)[0] == a[0] && (a + b)[1..] == a[1..] + b;
      assert forall i | 0 <= i < |a| - 1 :: a[1..][i] == a[i + 1];
      SplitPrefix(a[1..], b);
      assert [a[0]] + (a[1..] + SplitBreaks(b)[0]) == a + SplitBreaks(b)[0];
    }
  }

  lemma SplitAtBreak(a: string, c: char, b: string)
    requires BreakFree(a) && IsBreak(c)
    ensures SplitBreaks(a + ([c] + b)) == [a] + SplitBreaks(b)
  {
    hide IsBreak;
    var s := [c] + b;
    assert s[0] == c && s[1..] == b;
    SplitPrefix(a, s);
    assert a + "" == a;
  }

  lemma SplitOfFree(a: string)
    requires BreakFree(a)
    ensures SplitBreaks(a) == [a]
  {
    SplitPrefix(a, "");
    assert a + "" == a;
  }

  /** The last piece of one text and the first one of the next grow together. */
  function Joined(ps: seq<string>, qs: seq<string>): seq<string>
    requires ps != [] && qs != []
  {
    ps[..|ps| - 1] + [ps[|ps| - 1] + qs[0]] + qs[1..]
  }

  lemma {:induction false} SplitConcat(a: string, b: string)
    ensures SplitBreaks(a + b) == Joined(SplitBreaks(a), SplitBreaks(b))
    decreases |a|
  {
    hide IsBreak;
    var qs := SplitBreaks(b);
    if a == "" {
      assert a + b == b;
      assert "" + qs[0] == qs[0];
      assert Joined([""], qs) == qs;
    } else {
      assert (a + b)[0] == a[0] && (a + b)[1..] == a[1..] + b;
      SplitConcat(a[1..], b);
      JoinedStep(a[0], SplitBreaks(a[1..]), qs);
    }
  }

  lemma JoinedStep(c: char, ps: seq<string>, qs: seq<string>)
    requires ps != [] && qs != []
    ensures Joined([""] + ps, qs) == [""] + Joined(ps, qs)
    ensures Joined([[c] + ps[0]] + ps[1..], qs) == [[c] + Joined(ps, qs)[0]] + Joined(ps, qs)[1..]
  {
    if |ps| == 1 {
      assert [c] + (ps[0] + qs[0]) == ([c] + ps[0]) + qs[0];
    }
  }

  /** The reader's lines of a text without carriage returns. */
  lemma {:induction false} LinesAreSplit(s: string)
    requires '\r' !in s
    ensures Lines(s + "\n") == SplitBreaks(s)
    decreases |s|
  {
    hide Lines, IsBreak, BreakRun;
    var t := s + "\n";
    NewlineIsBreak();
    HasBreak(t);
    var k := BreakRun(t);
    LinesStep(t, k);
    assert t[..k] == s[..k];
    PrefixIsFree(t, k);
    if k < |s| {
      assert t[k] == s[k];
      assert t[k + 1..] == s[k + 1..] + "\n";
      LinesAreSplit(s[k + 1..]);
      assert s == s[..k] + ([s[k]] + s[k + 1..]);
      SplitAtBreak(s[..k], s[k], s[k + 1..]);
    } else {
      assert t[k + 1..] == "" && s[..k] == s;
      LinesOfNothing([]);
      SplitOfFree(s);
    }
  }

  lemma PrefixIsFree(t: string, k: nat)
    requires k == BreakRun(t) < |t|
    ensures BreakFree(t[..k]) && IsBreak(t[k])
  {
    hide IsBreak;
  }

  // ----- the pieces of a field -----

  predicate IsStray(c: char) {
    c == '\U{85}' || c == '\U{2028}' || c == '\U{2029}'
  }

  /** A field cut at its stray line ends. */
  function Pieces(s: string): (ps: seq<string>)
    ensures ps != []
    decreases |s|
  {
    if s == "" then [""]
    else
      var rest := Pieces(s[1..]);
      if IsStray(s[0]) then [""] + rest else [[s[0]] + rest[0]] + rest[1..]
  }

  function AllEscaped(ps: seq<string>): (r: seq<string>)
    ensures |r| == |ps| && forall i | 0 <= i < |ps| :: r[i] == Escaped(ps[i])
  {
    seq(|ps|, i requires 0 <= i < |ps| => Escaped(ps[i]))
  }

  lemma EscapedBreak(c: char)
    ensures IsStray(c) ==> EscapedChar(c) == [c] && IsBreak(c)
    ensures !IsStray(c) ==> BreakFree(EscapedChar(c))
  {
    EscapedCharBreaksIff(c);
  }

  lemma EscapedOne(c: char, s: string)
    ensures Escaped([c] + s) == EscapedChar(c) + Escaped(s)
  {
    assert ([c] + s)[1..] == s;
  }

  /** Escaping neither makes nor hides a stray line end. */
  lemma {:induction false} EscapedPieces(s: string)
    ensures SplitBreaks(Escaped(s)) == AllEscaped(Pieces(s))
    decreases |s|
  {
    hide EscapedChar, IsBreak, IsStray, Escaped, SplitBreaks;
    if s != "" {
      var c, ps := s[0], Pieces(s[1..]);
      EscapedPieces(s[1..]);
      EscapedBreak(c);
      assert s == [c] + s[1..];
      EscapedOne(c, s[1..]);
      if IsStray(c) {
        SplitAtBreak("", c, Escaped(s[1..]));
        assert "" + ([c] + Escaped(s[1..])) == Escaped(s);
        NothingEscaped();
        assert AllEscaped([""] + ps) == [""] + AllEscaped(ps);
      } else {
        SplitPrefix(EscapedChar(c), Escaped(s[1..]));
        EscapedOne(c, ps[0]);
        assert AllEscaped([[c] + ps[0]] + ps[1..]) == [EscapedChar(c) + Escaped(ps[0])] + AllEscaped(ps)[1..];
      }
    } else {
      NothingEscaped();
      assert AllEscaped([""]) == [""];
    }
  }

  lemma NothingEscaped()
    ensures Escaped("") == "" && SplitBreaks("") == [""]
  {
  }

  /** What stands between two stray line ends of a field, as it is written. */
  function InnerPieces(s: string): seq<string> {
    var ps := AllEscaped(Pieces(s));
    if |ps| <= 2 then [] else ps[1..|ps| - 1]
  }

  ghost predicate AnyForeign(lines: seq<string>) {
    exists i :: 0 <= i < |lines| && DecodeLine(lines[i]).Foreign?
  }

  /** Some field holds JSON between two stray line ends. */
  ghost predicate Poisonous(e: Entry) {
    AnyForeign(InnerPieces(e.messageId)) || AnyForeign(InnerPieces(e.jid)) || AnyForeign(InnerPieces(e.name))
  }

  lemma {:induction false} LineFreeIsOnePiece(s: string)
    requires LineFree(s)
    ensures Pieces(s) == [s]
    decreases |s|
  {
    if s != "" {
      assert forall i | 0 <= i < |s| - 1 :: s[1..][i] == s[i + 1];
      LineFreeIsOnePiece(s[1..]);
      assert [s[0]] + s[1..] == s;
    }
  }

  /** An entry that is one line poisons nothing. */
  lemma StorableIsHarmless(e: Entry)
    requires Storable(e)
    ensures !Poisonous(e)
  {
    LineFreeIsOnePiece(e.messageId);
    LineFreeIsOnePiece(e.jid);
    LineFreeIsOnePiece(e.name);
  }

  // ----- pieces that cross from one field into the next -----

  lemma CrossingSlice(x: string, z: string, l: nat, r: nat)
    requires SpaceAround(x + z, l, r) && ClosesLiteral(z)
    ensures l <= |x| && |x| + 5 <= r
  {
    hide IsSpace;
    assert (x + z)[|x|] == '"' && (x + z)[|x| + 4] == z[4];
    assert !IsSpace('"') && !IsSpace(z[4]) by { LettersAreNoSpace(z[4]); }
  }

  lemma LettersAreNoSpace(c: char)
    ensures !IsSpace('"') && ('a' <= c <= 'z' ==> !IsSpace(c))
  {
  }

  lemma QuotesBehindSpace(x: string, l: nat)
    requires l <= |x| && QuotesEscaped(x) && (forall i | 0 <= i < l :: IsSpace(x[i]))
    ensures QuotesEscaped(x[l..])
  {
    assert forall k | 0 <= k < l :: x[k] != '\\';
    forall i | 0 <= i < |x[l..]| && x[l..][i] == '"'
      ensures i > 0 && x[l..][i - 1] == '\\'
    {
      assert x[l + i] == '"';
      assert l + i > 0 && x[l + i - 1] == '\\';
    }
  }

  lemma SpaceInX(x: string, z: string, l: nat, r: nat)
    requires SpaceAround(x + z, l, r) && l <= |x|
    ensures forall i | 0 <= i < l :: IsSpace(x[i])
  {
    hide IsSpace;
    assert forall i | 0 <= i < |x| :: (x + z)[i] == x[i];
  }

  /** The end of a literal with the next key behind it is not foreign. */
  lemma CrossingIsNotForeign(q: string, z: string)
    requires ClosesLiteral(z)
    ensures !DecodeLine(Escaped(q) + z).Foreign?
  {
    hide Escaped, Strip, IsSpace, DecodeLine, JsonText.IsJson, SpaceAround;
    var x := Escaped(q);
    EscapedQuotes(q);
    HasNonSpace(x, z);
    var l, r := StripIsSlice(x + z);
    CrossingSlice(x, z, l, r);
    SpaceInX(x, z, l, r);
    QuotesBehindSpace(x, l);
    SliceInRange(x + z, l, r);
    SliceOfSum(x, z, l, r);
    CrossingIsNoJson(x[l..], z[..r - |x|]);
    NotForeign(x + z);
  }

  lemma SliceInRange(s: string, l: nat, r: nat)
    requires SpaceAround(s, l, r)
    ensures l < r <= |s|
  {
  }

  lemma HasNonSpace(x: string, z: string)
    requires ClosesLiteral(z)
    ensures Strip(x + z) != ""
  {
    assert (x + z)[|x|] == '"' && !IsSpace('"');
  }

  /** JSON between two stray line ends of a field is never an object with a key, so the loader raises. */
  lemma ForeignPieceHasNoKey(q: string)
    requires DecodeLine(Escaped(q)).Foreign?
    ensures '"' !in Escaped(q)
  {
    hide Escaped, IsSpace, Strip, JsonText.IsJson, ReadEntry, EntryText;
    var x := Escaped(q);
    EscapedQuotes(q);
    var l, r := StripIsSlice(x);
    QuotesBehindSpace(x, l);
    var y := x[l..][..r - l];
    assert y == x[l..r];
    assert QuotesEscaped(y) by { assert forall i | 0 <= i < |y| :: y[i] == x[l..][i]; }
    QuotedJsonIsKeyless(y);
    LettersAreNoSpace('a');
    forall i | 0 <= i < |x|
      ensures x[i] != '"'
    {
      assert l <= i < r ==> y[i - l] == x[i];
    }
  }

  // ----- which lines of a written entry are foreign -----

  lemma AnyForeignConcat(a: seq<string>, b: seq<string>)
    ensures AnyForeign(a + b) <==> AnyForeign(a) || AnyForeign(b)
  {
    hide DecodeLine;
    var s := a + b;
    if i :| 0 <= i < |a| && DecodeLine(a[i]).Foreign? {
      assert s[i] == a[i];
    }
    if i :| 0 <= i < |b| && DecodeLine(b[i]).Foreign? {
      assert s[|a| + i] == b[i];
    }
    if i :| 0 <= i < |s| && DecodeLine(s[i]).Foreign? {
      assert s[i] == if i < |a| then a[i] else b[i - |a|];
    }
  }

  lemma OneIsNotForeign(line: string)
    requires !DecodeLine(line).Foreign?
    ensures !AnyForeign([line])
  {
    hide DecodeLine;
  }

  /** Behind its first piece a field adds just its inner pieces to the foreign lines. */
  lemma FieldPieces(s: string, z: string)
    requires ClosesLiteral(SplitBreaks(z)[0])
    ensures AnyForeign(SplitBreaks(Escaped(s) + z)[1..]) <==> AnyForeign(InnerPieces(s)) || AnyForeign(SplitBreaks(z)[1..])
  {
    hide Escaped, SplitBreaks, Pieces, AnyForeign, DecodeLine;
    SplitConcat(Escaped(s), z);
    EscapedPieces(s);
    var ps, qs := AllEscaped(Pieces(s)), SplitBreaks(z);
    var n := |ps|;
    if n == 1 {
      assert Joined(ps, qs)[1..] == qs[1..];
      assert !AnyForeign([]) by { NothingForeign(); }
    } else {
      var crossing := [ps[n - 1] + qs[0]];
      assert Joined(ps, qs)[1..] == ps[1..n - 1] + crossing + qs[1..];
      assert n == 2 ==> ps[1..n - 1] == [];
      AnyForeignConcat(ps[1..n - 1] + crossing, qs[1..]);
      AnyForeignConcat(ps[1..n - 1], crossing);
      CrossingIsNotForeign(Pieces(s)[n - 1], qs[0]);
      OneIsNotForeign(crossing[0]);
    }
  }

  lemma NothingForeign()
    ensures !AnyForeign([])
  {
  }

  lemma TailOfPrefix(a: string, b: string)
    requires BreakFree(a)
    ensures SplitBreaks(a + b)[1..] == SplitBreaks(b)[1..]
    ensures SplitBreaks(a + b)[0] == a + SplitBreaks(b)[0]
  {
    SplitPrefix(a, b);
  }

  /** A key and the value behind it, seen from the end of the literal in front of them. */
  lemma NextField(key: string, s: string, rest: string)
    requires BreakFree(key) && |key| >= 4 && key[0] == ',' && key[1] == ' ' && key[2] == '"' && 'a' <= key[3] <= 'z'
    ensures var z := "\"" + TextThen(key, s, rest);
            && ClosesLiteral(SplitBreaks(z)[0])
            && SplitBreaks(z)[1..] == SplitBreaks(Escaped(s) + ("\"" + rest))[1..]
  {
    hide Escaped, SplitBreaks;
    var a, w := "\"" + key + "\"", Escaped(s) + ("\"" + rest);
    QuoteBreakFree();
    BreakFreeConcat("\"", key);
    BreakFreeConcat("\"" + key, "\"");
    assert "\"" + TextThen(key, s, rest) == a + w;
    TailOfPrefix(a, w);
    assert SplitBreaks(a + w)[0] == a + SplitBreaks(w)[0];
  }

  lemma LastField(e: Entry)
    ensures var z := "\"" + NumberThen(ORDINAL_LABEL, e.ordinal, "}" + "");
            ClosesLiteral(SplitBreaks(z)[0]) && SplitBreaks(z)[1..] == []
  {
    hide Numeral, NumberThen, BreakFree;
    var n := NumberThen(ORDINAL_LABEL, e.ordinal, "}" + "");
    KeysBreakFree();
    NumberBreaksIff(ORDINAL_LABEL, e.ordinal, "}" + "");
    QuoteBreakFree();
    BreakFreeConcat("\"", n);
    SplitOfFree("\"" + n);
    NumberHead(ORDINAL_LABEL, e.ordinal, "}" + "");
  }

  lemma NumberHead(key: string, n: nat, rest: string)
    ensures key <= NumberThen(key, n, rest)
  {
  }

  /** Behind the first line of an entry's text a line is foreign exactly when the entry is poisonous. */
  lemma EntryPieces(e: Entry)
    ensures AnyForeign(SplitBreaks(EntryText(e))[1..]) <==> Poisonous(e)
  {
    hide AnyForeign, SplitBreaks, Escaped, TextThen, NumberThen, BreakFree, InnerPieces;
    var last := NumberThen(ORDINAL_LABEL, e.ordinal, "}" + "");
    var name := TextThen(NAME_LABEL, e.name, last);
    var jid := TextThen(JID_LABEL, e.jid, name);
    KeysBreakFree();
    NothingForeign();
    LastField(e);
    FieldPieces(e.name, "\"" + last);
    NextField(NAME_LABEL, e.name, last);
    FieldPieces(e.jid, "\"" + name);
    NextField(JID_LABEL, e.jid, name);
    FieldPieces(e.messageId, "\"" + jid);
    FirstField(e, jid);
  }

  lemma FirstField(e: Entry, rest: string)
    requires rest == TextThen(JID_LABEL, e.jid, NamePart(e, ""))
    ensures SplitBreaks(EntryText(e))[1..] == SplitBreaks(Escaped(e.messageId) + ("\"" + rest))[1..]
  {
    hide Escaped, SplitBreaks, BreakFree, Numeral;
    var a, w := SERIAL_LABEL + Numeral(e.serial) + ID_LABEL + "\"", Escaped(e.messageId) + ("\"" + rest);
    KeysBreakFree();
    QuoteBreakFree();
    NumeralBreakFree(e.serial);
    BreakFreeConcat(SERIAL_LABEL, Numeral(e.serial));
    BreakFreeConcat(SERIAL_LABEL + Numeral(e.serial), ID_LABEL);
    BreakFreeConcat(SERIAL_LABEL + Numeral(e.serial) + ID_LABEL, "\"");
    assert EntryText(e) == a + w;
    TailOfPrefix(a, w);
  }

  // ----- the lines of a write -----

  lemma EscapedNoReturn(s: string)
    ensures '\r' !in Escaped(s)
  {
    if s != "" {
      EscapedCharBreaksIff(s[0]);
      EscapedNoReturn(s[1..]);
    }
  }

  lemma NumberNoReturn(key: string, n: nat, rest: string)
    requires '\r' !in key && '\r' !in rest
    ensures '\r' !in NumberThen(key, n, rest)
  {
    hide Numeral;
    assert '\r' !in Numeral(n);
  }

  lemma TextNoReturn(key: string, s: string, rest: string)
    requires '\r' !in key && '\r' !in rest
    ensures '\r' !in TextThen(key, s, rest)
  {
    hide Escaped;
    EscapedNoReturn(s);
  }

  lemma EntryNoReturn(e: Entry)
    ensures '\r' !in EntryText(e)
  {
    hide NumberThen, TextThen;
    var end := NumberThen(ORDINAL_LABEL, e.ordinal, "}" + "");
    NumberNoReturn(ORDINAL_LABEL, e.ordinal, "}" + "");
    TextNoReturn(NAME_LABEL, e.name, end);
    TextNoReturn(JID_LABEL, e.jid, NamePart(e, ""));
    TextNoReturn(ID_LABEL, e.messageId, TextThen(JID_LABEL, e.jid, NamePart(e, "")));
    NumberNoReturn(SERIAL_LABEL, e.serial, IdPart(e, ""));
  }

  lemma FirstPiece(s: string)
    ensures BreakRun(s) <= |s| && SplitBreaks(s)[0] == s[..BreakRun(s)]
  {
    hide IsBreak, SplitBreaks;
    var k := BreakRun(s);
    if k < |s| {
      PrefixIsFree(s, k);
      CutAround(s, k);
      SplitAtBreak(s[..k], s[k], s[k + 1..]);
    } else {
      assert s[..k] == s;
      SplitOfFree(s);
    }
  }

  lemma CutAround(s: string, k: nat)
    requires k < |s|
    ensures s == s[..k] + ([s[k]] + s[k + 1..])
  {
  }

  lemma HeadIsFree(e: Entry)
    ensures BreakRun(EntryText(e)) >= 3
  {
    hide EntryText;
    EntryEnds(e);
    var t := EntryText(e);
    assert !IsBreak(t[0]) && !IsBreak(t[1]) && !IsBreak(t[2]);
  }

  /** A write adds a foreign line to the file exactly when its entry is poisonous, whatever the file ends
      in. */
  lemma WrittenForeignIff(f: File, e: Entry)
    ensures Loadable(Written(f, e)) <==> !Poisonous(e)
  {
    hide EntryText, DecodeLine, Poisonous, TailStart, BreakFree, AnyForeign;
    var u, t := Tail(f), EntryText(e);
    EntryNoReturn(e);
    FreeHasNoReturn(u);
    assert u + (t + "\n") == (u + t) + "\n";
    LinesAreSplit(u + t);
    BehindTail(u, e);
    DecodedForeign(SplitBreaks(u + t));
  }

  lemma BehindTail(u: string, e: Entry)
    requires BreakFree(u)
    ensures AnyForeign(SplitBreaks(u + EntryText(e))) <==> Poisonous(e)
  {
    hide EntryText, SplitBreaks, DecodeLine, Poisonous, BreakFree, AnyForeign;
    var t := EntryText(e);
    TailOfPrefix(u, t);
    FirstPiece(t);
    HeadIsFree(e);
    EntryHeadIsNotForeign(u, e, BreakRun(t));
    EntryPieces(e);
    HeadAndRest(SplitBreaks(u + t));
  }

  lemma HeadAndRest(lines: seq<string>)
    requires lines != [] && !DecodeLine(lines[0]).Foreign?
    ensures AnyForeign(lines) <==> AnyForeign(lines[1..])
  {
    hide DecodeLine, AnyForeign;
    assert lines == [lines[0]] + lines[1..];
    OneIsNotForeign(lines[0]);
    AnyForeignConcat([lines[0]], lines[1..]);
  }

  lemma FreeHasNoReturn(u: string)
    requires BreakFree(u)
    ensures '\r' !in u
  {
    assert IsBreak('\r');
  }

  lemma DecodedForeign(lines: seq<string>)
    ensures Loadable(Decoded(lines)) <==> !AnyForeign(lines)
  {
    hide DecodeLine;
    if i :| 0 <= i < |lines| && DecodeLine(lines[i]).Foreign? {
      assert Decoded(lines)[i].Foreign?;
    }
  }

  // ----- such a name -----

  /** A member's name of three lines with a number in the middle. */
  const POISONED_NAME := "x\U{2028}5\U{2028}y"

  lemma PoisonedName(e: Entry)
    requires e.name == POISONED_NAME
    ensures Poisonous(e)
  {
    var inner := InnerPieces(POISONED_NAME);
    assert inner == ["5"] by {
      NamePieces();
    }
    FiveIsForeign();
    assert DecodeLine(inner[0]).Foreign?;
  }

  lemma NamePieces()
    ensures InnerPieces(POISONED_NAME) == ["5"]
  {
    var s := POISONED_NAME;
    assert Pieces(s[5..]) == [""];
    OnePiece(s, 4);
    OnePiece(s, 3);
    OnePiece(s, 2);
    OnePiece(s, 1);
    OnePiece(s, 0);
    assert s[0..] == s;
    assert ['y'] + "" == "y" && ['5'] + "" == "5" && ['x'] + "" == "x";
    assert Pieces(s) == ["x", "5", "y"];
    assert Escaped("5") == EscapedChar('5') + Escaped("");
    assert ['5'] + "" == "5";
    assert AllEscaped(["x", "5", "y"])[1..2] == ["5"];
  }

  lemma OnePiece(s: string, i: nat)
    requires i < |s|
    ensures var rest := Pieces(s[i + 1..]);
            Pieces(s[i..]) == if IsStray(s[i]) then [""] + rest else [[s[i]] + rest[0]] + rest[1..]
  {
    assert s[i..][1..] == s[i + 1..];
  }

  lemma FiveIsForeign()
    ensures DecodeLine("5").Foreign?
  {
    assert Strip("5") == "5";
    assert DigitRun("5") == 1 by { assert "5"[1..] == ""; }
    assert "5"[0..] == "5" && "5"[1..] == "";
    assert JsonText.IntegerLength("5") == 1;
    assert JsonText.NumberLength("5") == 1;
    assert JsonText.ScalarLength("5") == 1;
    assert JsonText.ValueRest("5") == JsonText.Optional.Some("");
    assert JsonText.IsJson("5");
    assert ReadEntry("5").None?;
  }
}
