/** Parts of an entry's text are not JSON (src/wahabot/ai/serials.py, add_line). */
module EntryScan {
  // What a broken write leaves is a beginning of an entry's text, or another entry's text behind one;
  // neither passes the test that every JSON text passes.

  import opened Text
  import opened JsonText
  import opened JsonLine

  // ----- the test on an entry's text -----

  lemma RunThree(st: Scan, a: char, b: char, c: char)
    ensures Run(st, [a, b, c]) == Next(Next(Next(st, a), b), c)
  {
    hide Next;
    var s := [a, b, c];
    RunOne(st, s);
    RunOne(Next(st, a), s[1..]);
    RunOne(Next(Next(st, a), b), s[1..][1..]);
    assert s[1..][1..][1..] == "";
  }

  lemma {:induction false} RunStays(st: Scan, s: string)
    requires forall i | 0 <= i < |s| :: Next(st, s[i]) == st
    ensures Run(st, s) == st
    decreases |s|
  {
    hide Next;
    if s != "" {
      assert forall i | 0 <= i < |s| - 1 :: s[1..][i] == s[i + 1];
      RunStays(st, s[1..]);
    }
  }

  predicate IsName(s: string) {
    forall i | 0 <= i < |s| :: 'a' <= s[i] <= 'z'
  }

  /** `, "name": ` between two values. */
  lemma KeyScans(st: Scan, name: string)
    requires st.At? && (st.mode == Between || st.mode == Closed) && st.depth > 0 && st.begun && IsName(name)
    ensures Run(st, ", \"" + name + "\": ") == At(Between, st.depth, true)
  {
    hide Run;
    var inside := At(Inside, st.depth, true);
    RunThree(st, ',', ' ', '"');
    RunStays(inside, name);
    RunThree(inside, '"', ':', ' ');
    RunConcat(st, ", \"", name);
    RunConcat(st, ", \"" + name, "\": ");
    assert ", \"" == [',', ' ', '"'] && "\": " == ['"', ':', ' '];
  }

  lemma KeysAreNames()
    ensures ID_LABEL == ", \"" + "id" + "\": " && JID_LABEL == ", \"" + "jid" + "\": "
    ensures NAME_LABEL == ", \"" + "name" + "\": " && ORDINAL_LABEL == ", \"" + "ord" + "\": "
    ensures IsName("id") && IsName("jid") && IsName("name") && IsName("ord") && IsName("m")
  {
  }

  lemma EscapedCharInside(c: char, depth: nat)
    ensures Run(At(Inside, depth, true), EscapedChar(c)) == At(Inside, depth, true)
  {
    var st := At(Inside, depth, true);
    var e := EscapedChar(c);
    if e == [c] {
      RunOne(st, e);
      assert e[1..] == "";
    } else {
      RunOne(st, e);
      RunOne(At(Escape, depth, true), e[1..]);
      assert forall i | 0 <= i < |e| - 2 :: e[2..][i] == e[i + 2];
      assert e[1..][1..] == e[2..];
      EscapeTail(c);
      RunStays(st, e[2..]);
    }
  }

  lemma EscapeTail(c: char)
    requires EscapedChar(c) != [c]
    ensures var e := EscapedChar(c);
            |e| >= 2 && e[0] == '\\' && forall i | 2 <= i < |e| :: e[i] != '"' && e[i] != '\\'
  {
  }

  /** A literal's content never leaves the string. */
  lemma {:induction false} EscapedInside(s: string, depth: nat)
    ensures Run(At(Inside, depth, true), Escaped(s)) == At(Inside, depth, true)
  {
    hide EscapedChar;
    if s != "" {
      EscapedCharInside(s[0], depth);
      EscapedInside(s[1..], depth);
      RunConcat(At(Inside, depth, true), EscapedChar(s[0]), Escaped(s[1..]));
    }
  }

  lemma QuoteScans(depth: nat)
    ensures Run(At(Between, depth, true), "\"") == At(Inside, depth, true)
    ensures Run(At(Inside, depth, true), "\"") == At(Closed, depth, true)
  {
    RunOne(At(Between, depth, true), "\"");
    RunOne(At(Inside, depth, true), "\"");
    assert "\""[1..] == "";
  }

  lemma TextScans(st: Scan, key: string, name: string, s: string, rest: string)
    requires st.At? && (st.mode == Between || st.mode == Closed) && st.depth > 0 && st.begun
    requires IsName(name) && key == ", \"" + name + "\": "
    ensures Run(st, TextThen(key, s, rest)) == Run(At(Closed, st.depth, true), rest)
  {
    hide Run, Escaped;
    KeyScans(st, name);
    QuoteScans(st.depth);
    EscapedInside(s, st.depth);
    RunConcat(At(Inside, st.depth, true), "\"", rest);
    RunConcat(At(Inside, st.depth, true), Escaped(s), "\"" + rest);
    RunConcat(At(Between, st.depth, true), "\"", Escaped(s) + ("\"" + rest));
    RunConcat(st, key, "\"" + (Escaped(s) + ("\"" + rest)));
  }

  lemma NumeralScans(n: nat, depth: nat)
    ensures Run(At(Between, depth, true), Numeral(n)) == At(Between, depth, true)
  {
    hide Numeral;
    RunStays(At(Between, depth, true), Numeral(n));
  }

  lemma NumberScans(st: Scan, key: string, n: nat, rest: string, depth: nat)
    requires Run(st, key) == At(Between, depth, true)
    ensures Run(st, NumberThen(key, n, rest)) == Run(At(Between, depth, true), rest)
  {
    hide Run, Numeral;
    NumeralScans(n, depth);
    RunConcat(At(Between, depth, true), Numeral(n), rest);
    RunConcat(st, key, Numeral(n) + rest);
  }

  lemma HeadOpens(st: Scan)
    requires Ready(st)
    ensures Next(Next(Next(st, '{'), '"'), 'm') == At(Inside, st.depth + 1, true)
    ensures Next(Next(Next(At(Inside, st.depth + 1, true), '"'), ':'), ' ') == At(Between, st.depth + 1, true)
  {
    assert Next(st, '{') == At(Between, st.depth + 1, true);
  }

  lemma HeadScans(st: Scan)
    requires Ready(st)
    ensures Run(st, SERIAL_LABEL) == At(Between, st.depth + 1, true)
  {
    hide Run, Next;
    HeadOpens(st);
    RunThree(st, '{', '"', 'm');
    RunThree(At(Inside, st.depth + 1, true), '"', ':', ' ');
    RunConcat(st, ['{', '"', 'm'], ['"', ':', ' ']);
    assert SERIAL_LABEL == ['{', '"', 'm'] + ['"', ':', ' '];
  }

  /** An entry's text is one value. */
  lemma EntryScans(st: Scan, e: Entry)
    requires Ready(st)
    ensures Run(st, EntryText(e)) == At(Between, st.depth, true)
  {
    hide Run, TextThen, NumberThen;
    var d := st.depth + 1;
    var tail := NumberThen(ORDINAL_LABEL, e.ordinal, "}" + "");
    KeysAreNames();
    HeadScans(st);
    NumberScans(st, SERIAL_LABEL, e.serial, IdPart(e, ""), d);
    TextScans(At(Between, d, true), ID_LABEL, "id", e.messageId, TextThen(JID_LABEL, e.jid, NamePart(e, "")));
    TextScans(At(Closed, d, true), JID_LABEL, "jid", e.jid, NamePart(e, ""));
    TextScans(At(Closed, d, true), NAME_LABEL, "name", e.name, tail);
    KeyScans(At(Closed, d, true), "ord");
    NumberScans(At(Closed, d, true), ORDINAL_LABEL, e.ordinal, "}" + "", d);
    BraceScans(st.depth);
  }

  lemma BraceScans(depth: nat)
    ensures Run(At(Between, depth + 1, true), "}" + "") == At(Between, depth, true)
  {
    RunOne(At(Between, depth + 1, true), "}" + "");
    assert ("}" + "")[1..] == "";
  }

  // ----- the beginning of an entry's text -----

  /** Once a value has ended at depth 0 nothing opens any more. */
  lemma {:induction false} ZeroStays(st: Scan, s: string)
    requires st.At? ==> st.depth == 0 && st.begun
    ensures Run(st, s).At? ==> Run(st, s).depth == 0 && Run(st, s).begun
    decreases |s|
  {
    if s != "" {
      ZeroStays(Next(st, s[0]), s[1..]);
    }
  }

  lemma ZeroNeverCloses(st: Scan, s: string)
    requires st.At? && st.depth == 0 && st.begun && s != "" && s[|s| - 1] == '}'
    ensures Run(st, s) != At(Between, 0, true)
  {
    var init := s[..|s| - 1];
    assert s == init + "}";
    RunConcat(st, init, "}");
    ZeroStays(st, init);
    RunOne(Run(st, init), "}");
    assert "}"[1..] == "";
  }

  /** No proper beginning of an entry's text ends a value. */
  lemma CutIsOpen(st: Scan, e: Entry, k: nat)
    requires Ready(st) && k < |EntryText(e)|
    ensures !Accepts(Run(st, EntryText(e)[..k]))
  {
    hide EntryText, Run;
    var t := EntryText(e);
    EntryScans(st, e);
    EntryEnds(e);
    assert t == t[..k] + t[k..];
    RunConcat(st, t[..k], t[k..]);
    var cut := Run(st, t[..k]);
    if Accepts(cut) {
      ZeroStays(cut, t[k..]);
      ZeroNeverCloses(cut, t[k..]);
    }
  }

  lemma CutIsNoJson(e: Entry, k: nat)
    requires k < |EntryText(e)|
    ensures !IsJson(EntryText(e)[..k])
  {
    hide EntryText, Run, IsJson;
    CutIsOpen(START, e, k);
    if IsJson(EntryText(e)[..k]) {
      JsonScans(EntryText(e)[..k]);
    }
  }

  // ----- an entry's text behind something else -----

  lemma {:induction false} BegunStays(st: Scan, s: string)
    requires st.At? ==> st.begun
    ensures Run(st, s).At? ==> Run(st, s).begun
    decreases |s|
  {
    if s != "" {
      BegunStays(Next(st, s[0]), s[1..]);
    }
  }

  lemma OpeningFails(st: Scan, p: string)
    requires Opens(p) && st.At? && st.begun && !Ready(st)
    ensures Run(st, p) == Failed
  {
    assert p == [p[0], p[1], p[2]] + p[3..];
    RunThree(st, p[0], p[1], p[2]);
    RunConcat(st, [p[0], p[1], p[2]], p[3..]);
    FailedStays(p[3..]);
  }

  /** Behind anything that is not white space an entry's text, or the beginning of one, is not JSON. */
  lemma EntryBehindIsNoJson(u: string, e: Entry, k: nat)
    requires u != "" && !IsSpace(u[0]) && 3 <= k <= |EntryText(e)|
    ensures !IsJson(u + EntryText(e)[..k])
  {
    hide EntryText, Run, IsJson;
    var p := EntryText(e)[..k];
    EntryEnds(e);
    assert Opens(p);
    RunConcat(START, u, p);
    RunOne(START, u);
    FirstBegins(u[0]);
    BegunStays(Next(START, u[0]), u[1..]);
    var st := Run(START, u);
    FailedStays(p);
    if st.At? && Ready(st) {
      EntryScans(st, e);
      if k < |EntryText(e)| {
        CutIsOpen(st, e, k);
      } else {
        assert p == EntryText(e);
      }
    } else if st.At? {
      OpeningFails(st, p);
    }
    if IsJson(u + p) {
      JsonScans(u + p);
    }
  }

  lemma FirstBegins(c: char)
    requires !IsSpace(c)
    ensures Next(START, c).At? ==> Next(START, c).begun
  {
  }

  // ----- text that crosses from one field into the next -----

  /** Every quote stands behind a backslash. */
  predicate QuotesEscaped(s: string) {
    forall i | 0 <= i < |s| && s[i] == '"' :: i > 0 && s[i - 1] == '\\'
  }

  lemma EscapedCharQuotes(c: char)
    ensures QuotesEscaped(EscapedChar(c)) && EscapedChar(c) != "" && EscapedChar(c)[0] != '"'
  {
  }

  lemma {:induction false} EscapedQuotes(s: string)
    ensures QuotesEscaped(Escaped(s))
  {
    hide EscapedChar;
    if s != "" {
      EscapedCharQuotes(s[0]);
      EscapedQuotes(s[1..]);
      QuotesConcat(EscapedChar(s[0]), Escaped(s[1..]));
    }
  }

  lemma QuotesConcat(a: string, b: string)
    requires QuotesEscaped(a) && QuotesEscaped(b)
    ensures QuotesEscaped(a + b)
  {
    var s := a + b;
    forall i | 0 <= i < |s| && s[i] == '"'
      ensures i > 0 && s[i - 1] == '\\'
    {
      if i >= |a| {
        assert b[i - |a|] == '"';
        assert s[i - 1] == b[i - 1 - |a|];
      }
    }
  }

  /** Outside a string such a text opens none: a backslash fails the test. */
  lemma {:induction false} NoStringOpens(s: string)
    requires QuotesEscaped(s)
    ensures Run(START, s) == Failed || (Run(START, s).At? && Run(START, s).mode == Between)
    ensures s != "" && s[|s| - 1] == '\\' ==> Run(START, s) == Failed
    decreases |s|
  {
    if s != "" {
      var init, c := s[..|s| - 1], s[|s| - 1];
      assert s == init + [c];
      NoStringOpens(init);
      RunConcat(START, init, [c]);
      RunOne(Run(START, init), [c]);
      assert [c][1..] == "";
      assert c == '"' ==> init != "" && init[|init| - 1] == '\\';
    }
  }

  /** JSON whose quotes all stand behind backslashes holds none, so it has no key. */
  lemma QuotedJsonIsKeyless(x: string)
    requires QuotesEscaped(x) && IsJson(x)
    ensures '"' !in x
  {
    hide Run, IsJson;
    JsonScans(x);
    forall i | 0 <= i < |x|
      ensures x[i] != '"'
    {
      if x[i] == '"' {
        assert x[..i][i - 1] == '\\' && QuotesEscaped(x[..i]);
        NoStringOpens(x[..i]);
        assert x == x[..i] + x[i..];
        RunConcat(START, x[..i], x[i..]);
        FailedStays(x[i..]);
      }
    }
  }

  /** The end of a literal, and the opening of the next key. */
  predicate ClosesLiteral(s: string) {
    |s| >= 5 && s[0] == '"' && s[1] == ',' && s[2] == ' ' && s[3] == '"' && 'a' <= s[4] <= 'z'
  }

  /** Read on its own the end of a literal opens a string, and a letter right behind it is not JSON. */
  lemma CrossingIsNoJson(x: string, z: string)
    requires QuotesEscaped(x) && ClosesLiteral(z)
    ensures !IsJson(x + z)
  {
    hide Run, IsJson;
    NoStringOpens(x);
    var st := Run(START, x);
    RunConcat(START, x, z);
    FailedStays(z);
    if st.At? {
      assert z == [z[0], z[1], z[2]] + z[3..];
      assert z[3..][0] == z[3] && z[3..][1..][0] == z[4];
      RunThree(st, z[0], z[1], z[2]);
      RunConcat(st, [z[0], z[1], z[2]], z[3..]);
      var inside := Run(st, [z[0], z[1], z[2]]);
      RunOne(inside, z[3..]);
      RunOne(Next(inside, z[3]), z[3..][1..]);
      FailedStays(z[3..][1..][1..]);
    }
    if IsJson(x + z) {
      JsonScans(x + z);
    }
  }
}
