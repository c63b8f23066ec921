/** One line of a serial registry's file (src/wahabot/ai/serials.py, append and add_line). */
module JsonLine {
  // The text json.dumps(…, ensure_ascii=False) gives an entry, and which texts are read back as one.

  import opened Optional
  import opened Text
  import JsonText

  datatype Entry = Entry(serial: nat, messageId: string, jid: string, name: string, ordinal: nat)

  /** A line of the file as the loader sees it: an entry, white space, text it cannot decode, or JSON that
      is no entry, at which it raises. */
  datatype Line = Stored(entry: Entry) | Blank | Torn | Foreign

  // ----- writing -----

  function HexDigit(n: nat): char
    requires n < 16
  {
    if n < 10 then '0' + n as char else 'a' + (n - 10) as char
  }

  /** Only quotes, backslashes and control characters are escaped. */
  function EscapedChar(c: char): string {
    if c == '"' then "\\\""
    else if c == '\\' then "\\\\"
    else if c == '\n' then "\\n"
    else if c == '\r' then "\\r"
    else if c == '\t' then "\\t"
    else if c == '\U{8}' then "\\b"
    else if c == '\U{C}' then "\\f"
    else if c < ' ' then "\\u00" + [HexDigit(c as int / 16), HexDigit(c as int % 16)]
    else [c]
  }

  function Escaped(s: string): string {
    if s == "" then "" else EscapedChar(s[0]) + Escaped(s[1..])
  }

  const SERIAL_LABEL := "{\"m\": "
  const ID_LABEL := ", \"id\": "
  const JID_LABEL := ", \"jid\": "
  const NAME_LABEL := ", \"name\": "
  const ORDINAL_LABEL := ", \"ord\": "

  function NumberThen(key: string, n: nat, rest: string): string {
    key + (Numeral(n) + rest)
  }

  function TextThen(key: string, s: string, rest: string): string {
    key + ("\"" + (Escaped(s) + ("\"" + rest)))
  }

  function NamePart(e: Entry, rest: string): string {
    TextThen(NAME_LABEL, e.name, NumberThen(ORDINAL_LABEL, e.ordinal, "}" + rest))
  }

  function IdPart(e: Entry, rest: string): string {
    TextThen(ID_LABEL, e.messageId, TextThen(JID_LABEL, e.jid, NamePart(e, rest)))
  }

  /** An entry's text with something behind it. */
  function EntryThen(e: Entry, rest: string): string {
    NumberThen(SERIAL_LABEL, e.serial, IdPart(e, rest))
  }

  function EntryText(e: Entry): string {
    EntryThen(e, "")
  }

  // ----- reading -----

  function HexValue(c: char): Option<nat> {
    if '0' <= c <= '9' then Some(c as int - '0' as int)
    else if 'a' <= c <= 'f' then Some(c as int - 'a' as int + 10)
    else None
  }

  /** The character an escape of two characters stands for. */
  function Unescaped(c: char): Option<char> {
    if c == '"' || c == '\\' then Some(c)
    else if c == 'n' then Some('\n')
    else if c == 'r' then Some('\r')
    else if c == 't' then Some('\t')
    else if c == 'b' then Some('\U{8}')
    else if c == 'f' then Some('\U{C}')
    else None
  }

  function ControlAt(s: string): Option<char> {
    if |s| < 6 || s[..4] != "\\u00" || HexValue(s[4]).None? || HexValue(s[5]).None? then None
    else Some((16 * HexValue(s[4]).value + HexValue(s[5]).value) as char)
  }

  /** One character of a string literal, and its length as written. */
  function ReadChar(s: string): Option<(char, nat)>
    requires s != ""
  {
    if s[0] != '\\' then Some((s[0], 1))
    else if |s| > 1 && Unescaped(s[1]).Some? then Some((Unescaped(s[1]).value, 2))
    else if ControlAt(s).Some? then Some((ControlAt(s).value, 6))
    else None
  }

  /** The rest of a string literal up to its closing quote, and what follows it. */
  function ReadString(s: string): Option<(string, string)>
    decreases |s|
  {
    if s == "" then None
    else if s[0] == '"' then Some(("", s[1..]))
    else
      var c := ReadChar(s);
      if c.None? then None
      else
        var rest := ReadString(s[c.value.1..]);
        if rest.None? then None else Some(([c.value.0] + rest.value.0, rest.value.1))
  }

  function ReadNumber(key: string, s: string): Option<(nat, string)> {
    if !(key <= s) then None
    else
      var t := s[|key|..];
      if DigitRun(t) == 0 then None else Some((Value(t[..DigitRun(t)]), t[DigitRun(t)..]))
  }

  function ReadText(key: string, s: string): Option<(string, string)> {
    if !(key <= s) || s[|key|..] == "" || s[|key|] != '"' then None else ReadString(s[|key| + 1..])
  }

  /** The fields at the head of a text that are laid out like an entry's. */
  function ReadEntry(s: string): Option<Entry> {
    var m := ReadNumber(SERIAL_LABEL, s);
    if m.None? then None
    else
      var id := ReadText(ID_LABEL, m.value.1);
      if id.None? then None
      else
        var jid := ReadText(JID_LABEL, id.value.1);
        if jid.None? then None
        else
          var name := ReadText(NAME_LABEL, jid.value.1);
          if name.None? then None
          else
            var ord := ReadNumber(ORDINAL_LABEL, name.value.1);
            if ord.None? then None
            else Some(Entry(m.value.0, id.value.0, jid.value.0, name.value.0, ord.value.0))
  }

  /** A line is an entry when it is the text the writer gives one, white space around it aside; any other
      JSON is foreign, and anything else is skipped. */
  function DecodeLine(line: string): Line {
    var s := Strip(line);
    if s == "" then Blank
    else
      var e := ReadEntry(s);
      if e.Some? && EntryText(e.value) == s then Stored(e.value)
      else if JsonText.IsJson(s) then Foreign
      else Torn
  }

  // ----- what is written is read back -----

  lemma ReadEscapedChar(c: char, rest: string)
    requires c != '"'
    ensures var s := EscapedChar(c) + rest;
            s != "" && s[0] != '"' && ReadChar(s) == Some((c, |EscapedChar(c)|)) && s[|EscapedChar(c)|..] == rest
  {
    var s := EscapedChar(c) + rest;
    if c < ' ' && |EscapedChar(c)| == 6 {
      var hi, lo := c as int / 16, c as int % 16;
      assert s[..4] == "\\u00" && s[1] == 'u' && s[4] == HexDigit(hi) && s[5] == HexDigit(lo);
      assert HexValue(HexDigit(hi)) == Some(hi) && HexValue(HexDigit(lo)) == Some(lo);
      assert 16 * hi + lo == c as int;
    }
  }

  lemma ReadEscapedQuote(rest: string)
    ensures var s := EscapedChar('"') + rest;
            s[0] != '"' && ReadChar(s) == Some(('"', 2)) && s[2..] == rest
  {
  }

  lemma EscapedStep(s: string, rest: string)
    requires s != ""
    ensures Escaped(s) + rest == EscapedChar(s[0]) + (Escaped(s[1..]) + rest)
  {
  }

  lemma {:induction false} ReadWritten(s: string, rest: string)
    ensures ReadString(Escaped(s) + ("\"" + rest)) == Some((s, rest))
  {
    hide EscapedChar, ReadChar;
    var t := Escaped(s) + ("\"" + rest);
    if s == "" {
      assert t == "\"" + rest;
      assert t[1..] == rest;
    } else {
      ReadWritten(s[1..], rest);
      EscapedStep(s, "\"" + rest);
      if s[0] == '"' {
        ReadEscapedQuote(Escaped(s[1..]) + ("\"" + rest));
      } else {
        ReadEscapedChar(s[0], Escaped(s[1..]) + ("\"" + rest));
      }
      assert [s[0]] + s[1..] == s;
    }
  }

  lemma ReadTextThen(key: string, s: string, rest: string)
    ensures ReadText(key, TextThen(key, s, rest)) == Some((s, rest))
  {
    hide Escaped, ReadString;
    ReadWritten(s, rest);
    var t := TextThen(key, s, rest);
    assert t[|key|..] == "\"" + (Escaped(s) + ("\"" + rest));
    assert t[|key| + 1..] == Escaped(s) + ("\"" + rest);
  }

  lemma ReadNumberThen(key: string, n: nat, rest: string)
    requires rest != "" && !IsDigit(rest[0])
    ensures ReadNumber(key, NumberThen(key, n, rest)) == Some((n, rest))
  {
    hide Numeral, Value, DigitRun;
    ValueOfNumeral(n);
    DigitRunAt(Numeral(n), rest);
    var t := NumberThen(key, n, rest)[|key|..];
    assert t == Numeral(n) + rest;
    assert t[..|Numeral(n)|] == Numeral(n) && t[|Numeral(n)|..] == rest;
  }

  /** An entry's text is read back whatever follows it. */
  lemma ReadEntryThen(e: Entry, rest: string)
    ensures ReadEntry(EntryThen(e, rest)) == Some(e)
  {
    hide ReadNumber, ReadText, NumberThen, TextThen;
    ThenHeads(e, rest);
    var tail := NumberThen(ORDINAL_LABEL, e.ordinal, "}" + rest);
    ReadNumberThen(SERIAL_LABEL, e.serial, IdPart(e, rest));
    ReadTextThen(ID_LABEL, e.messageId, TextThen(JID_LABEL, e.jid, NamePart(e, rest)));
    ReadTextThen(JID_LABEL, e.jid, NamePart(e, rest));
    ReadTextThen(NAME_LABEL, e.name, tail);
    ReadNumberThen(ORDINAL_LABEL, e.ordinal, "}" + rest);
  }

  lemma ThenHeads(e: Entry, rest: string)
    ensures IdPart(e, rest) != "" && !IsDigit(IdPart(e, rest)[0])
  {
  }

  lemma TextThenMore(key: string, s: string, rest: string, more: string)
    ensures TextThen(key, s, rest + more) == TextThen(key, s, rest) + more
  {
  }

  lemma NumberThenMore(key: string, n: nat, rest: string, more: string)
    ensures NumberThen(key, n, rest + more) == NumberThen(key, n, rest) + more
  {
  }

  lemma EntryThenIs(e: Entry, rest: string)
    ensures EntryThen(e, rest) == EntryText(e) + rest
  {
    hide NumberThen, TextThen;
    assert "}" + rest == ("}" + "") + rest;
    NumberThenMore(ORDINAL_LABEL, e.ordinal, "}" + "", rest);
    var tail := NumberThen(ORDINAL_LABEL, e.ordinal, "}" + "");
    TextThenMore(NAME_LABEL, e.name, tail, rest);
    TextThenMore(JID_LABEL, e.jid, NamePart(e, ""), rest);
    TextThenMore(ID_LABEL, e.messageId, TextThen(JID_LABEL, e.jid, NamePart(e, "")), rest);
    NumberThenMore(SERIAL_LABEL, e.serial, IdPart(e, ""), rest);
  }

  /** No entry's text begins another entry's text: the writer is injective, and a cut text is no entry. */
  lemma EntryTextsApart(e: Entry, x: Entry, rest: string)
    requires EntryText(e) == EntryText(x) + rest
    ensures e == x && rest == ""
  {
    hide EntryText, ReadEntry;
    EntryThenIs(e, "");
    EntryThenIs(x, rest);
    assert EntryText(e) + "" == EntryText(e);
    ReadEntryThen(e, "");
    ReadEntryThen(x, rest);
  }

  /** Exactly the texts of entries, white space around them aside, are read as entries. */
  lemma DecodesIff(line: string, e: Entry)
    ensures DecodeLine(line) == Stored(e) <==> Strip(line) == EntryText(e)
  {
    hide ReadEntry, EntryText, Strip;
    EntryEnds(e);
    if Strip(line) == EntryText(e) {
      ReadEntryThen(e, "");
      EntryThenIs(e, "");
      assert EntryText(e) + "" == EntryText(e);
    }
  }

  lemma EndsOf(key: string, n: nat, rest: string)
    requires rest != ""
    ensures var t := NumberThen(key, n, rest); t[|t| - 1] == rest[|rest| - 1]
  {
  }

  lemma TextEndsOf(key: string, s: string, rest: string)
    requires rest != ""
    ensures var t := TextThen(key, s, rest); t != "" && t[|t| - 1] == rest[|rest| - 1]
  {
  }

  /** An entry's text opens and closes with its braces. */
  lemma EntryEnds(e: Entry)
    ensures var t := EntryText(e); |t| > 3 && t[0] == '{' && t[1] == '"' && t[2] == 'm' && t[|t| - 1] == '}'
  {
    hide TextThen;
    var tail := NumberThen(ORDINAL_LABEL, e.ordinal, "}" + "");
    EndsOf(ORDINAL_LABEL, e.ordinal, "}" + "");
    TextEndsOf(NAME_LABEL, e.name, tail);
    TextEndsOf(JID_LABEL, e.jid, NamePart(e, ""));
    TextEndsOf(ID_LABEL, e.messageId, TextThen(JID_LABEL, e.jid, NamePart(e, "")));
    EndsOf(SERIAL_LABEL, e.serial, IdPart(e, ""));
  }

  // ----- an entry's text opens nowhere but at its start -----

  predicate Opens(s: string) {
    |s| >= 3 && s[0] == '{' && s[1] == '"' && s[2] == 'm'
  }

  ghost predicate OpensNowhere(s: string) {
    forall i | 0 <= i <= |s| :: !Opens(s[i..])
  }

  lemma OpensNowhereBehind(a: string, b: string)
    requires OpensNowhere(b) && forall i | 0 <= i < |a| :: a[i] != '{'
    ensures OpensNowhere(a + b)
  {
    var s := a + b;
    forall i | 0 <= i <= |s|
      ensures !Opens(s[i..])
    {
      if i < |a| {
        assert s[i..] != "" && s[i..][0] == a[i];
      } else {
        assert s[i..] == b[i - |a|..];
      }
    }
  }

  /** A bare quote has a comma behind it. */
  predicate CommaBehind(s: string) {
    s != "" && (s[0] == '"' ==> |s| > 1 && s[1] == ',')
  }

  lemma EscapedChunk(c: char, rest: string)
    requires OpensNowhere(rest) && CommaBehind(rest)
    ensures OpensNowhere(EscapedChar(c) + rest) && CommaBehind(EscapedChar(c) + rest)
  {
    hide OpensNowhere;
    if c == '{' {
      BraceBefore(rest);
      assert EscapedChar(c) + rest == "{" + rest;
    } else {
      OpensNowhereBehind(EscapedChar(c), rest);
    }
  }

  lemma BraceBefore(rest: string)
    requires OpensNowhere(rest) && CommaBehind(rest)
    ensures OpensNowhere("{" + rest)
  {
    var s := "{" + rest;
    forall i | 0 <= i <= |s|
      ensures !Opens(s[i..])
    {
      if i == 0 {
        assert s[0..] == s;
        assert |s| > 2 ==> s[1] == rest[0] && s[2] == rest[1];
      } else {
        assert s[i..] == rest[i - 1..];
      }
    }
  }

  /** Quotes inside a literal are escaped, so it opens nothing. */
  lemma {:induction false} EscapedOpensNowhere(s: string, rest: string)
    requires OpensNowhere(rest) && CommaBehind(rest)
    ensures OpensNowhere(Escaped(s) + rest)
    ensures CommaBehind(Escaped(s) + rest)
  {
    hide OpensNowhere, EscapedChar, CommaBehind;
    if s == "" {
      assert Escaped(s) + rest == rest;
    } else {
      EscapedOpensNowhere(s[1..], rest);
      EscapedStep(s, rest);
      EscapedChunk(s[0], Escaped(s[1..]) + rest);
    }
  }

  lemma TextOpensNowhere(key: string, s: string, rest: string)
    requires OpensNowhere(rest) && rest != "" && rest[0] == ','
    requires forall i | 0 <= i < |key| :: key[i] != '{'
    ensures OpensNowhere(TextThen(key, s, rest))
  {
    hide OpensNowhere, Escaped;
    OpensNowhereBehind("\"", rest);
    EscapedOpensNowhere(s, "\"" + rest);
    OpensNowhereBehind("\"", Escaped(s) + ("\"" + rest));
    OpensNowhereBehind(key, "\"" + (Escaped(s) + ("\"" + rest)));
  }

  lemma NumberOpensNowhere(key: string, n: nat, rest: string)
    requires OpensNowhere(rest) && forall i | 0 <= i < |key| :: key[i] != '{'
    ensures OpensNowhere(NumberThen(key, n, rest))
  {
    hide OpensNowhere;
    OpensNowhereBehind(Numeral(n), rest);
    OpensNowhereBehind(key, Numeral(n) + rest);
  }

  lemma NothingOpensIn(s: string)
    requires forall i | 0 <= i < |s| :: s[i] != '{'
    ensures OpensNowhere(s)
  {
    OpensNowhereBehind(s, "");
    assert s + "" == s;
  }

  /** The head of an entry occurs in its text at the start only, whatever the names hold. */
  lemma EntryOpensOnce(e: Entry)
    ensures OpensNowhere(EntryText(e)[1..])
  {
    hide OpensNowhere, TextThen;
    var tail := NumberThen(ORDINAL_LABEL, e.ordinal, "}" + "");
    NothingOpensIn("}" + "");
    NumberOpensNowhere(ORDINAL_LABEL, e.ordinal, "}" + "");
    TextOpensNowhere(NAME_LABEL, e.name, tail);
    CommaFirst(NAME_LABEL, e.name, tail);
    TextOpensNowhere(JID_LABEL, e.jid, NamePart(e, ""));
    CommaFirst(JID_LABEL, e.jid, NamePart(e, ""));
    TextOpensNowhere(ID_LABEL, e.messageId, TextThen(JID_LABEL, e.jid, NamePart(e, "")));
    NumberOpensNowhere(SERIAL_LABEL[1..], e.serial, IdPart(e, ""));
    assert EntryText(e)[1..] == NumberThen(SERIAL_LABEL[1..], e.serial, IdPart(e, ""));
  }

  lemma CommaFirst(key: string, s: string, rest: string)
    requires key != "" && key[0] == ','
    ensures var t := TextThen(key, s, rest); t != "" && t[0] == ','
  {
  }

  lemma OpensAt(s: string, i: nat)
    requires OpensNowhere(s) && i <= |s|
    ensures !Opens(s[i..])
  {
  }

  // ----- when an entry's text is one line -----

  /** The characters that the writer leaves as they are and the reader takes for line ends. */
  predicate LineFree(s: string) {
    forall i | 0 <= i < |s| :: s[i] != '\U{85}' && s[i] != '\U{2028}' && s[i] != '\U{2029}'
  }

  predicate Storable(e: Entry) {
    LineFree(e.messageId) && LineFree(e.jid) && LineFree(e.name)
  }

  lemma HexIsPlain(n: nat)
    requires n < 16
    ensures !IsBreak(HexDigit(n))
  {
  }

  lemma EscapedCharBreaksIff(c: char)
    ensures BreakFree(EscapedChar(c)) <==> c != '\U{85}' && c != '\U{2028}' && c != '\U{2029}'
    ensures NewlineFree(EscapedChar(c)) && '\r' !in EscapedChar(c)
  {
    if c < ' ' {
      HexIsPlain(c as int / 16);
      HexIsPlain(c as int % 16);
    }
    if EscapedChar(c) == [c] {
      assert EscapedChar(c)[0] == c;
    }
  }

  /** Of all line ends only those three survive the escape. */
  lemma {:induction false} EscapedBreaksIff(s: string)
    ensures BreakFree(Escaped(s)) <==> LineFree(s)
  {
    hide BreakFree, EscapedChar;
    if s == "" {
      assert BreakFree("") by { EmptyBreakFree(); }
    } else {
      EscapedBreaksIff(s[1..]);
      EscapedCharBreaksIff(s[0]);
      BreakFreeConcat(EscapedChar(s[0]), Escaped(s[1..]));
      assert LineFree(s) <==> LineFree([s[0]]) && LineFree(s[1..]) by { LineFreeStep(s); }
    }
  }

  lemma EmptyBreakFree()
    ensures BreakFree("")
  {
  }

  lemma LineFreeStep(s: string)
    requires s != ""
    ensures LineFree(s) <==> LineFree([s[0]]) && LineFree(s[1..])
  {
    if LineFree(s) {
      assert forall i | 0 <= i < |s| - 1 :: s[1..][i] == s[i + 1];
    }
    if LineFree([s[0]]) && LineFree(s[1..]) {
      assert [s[0]][0] == s[0];
      assert forall i | 1 <= i < |s| :: s[i] == s[1..][i - 1];
    }
  }

  lemma TextBreaksIff(key: string, s: string, rest: string)
    requires BreakFree(key)
    ensures BreakFree(TextThen(key, s, rest)) <==> LineFree(s) && BreakFree(rest)
  {
    hide BreakFree, Escaped, LineFree;
    EscapedBreaksIff(s);
    QuoteBreakFree();
    BreakFreeConcat("\"", rest);
    BreakFreeConcat(Escaped(s), "\"" + rest);
    BreakFreeConcat("\"", Escaped(s) + ("\"" + rest));
    BreakFreeConcat(key, "\"" + (Escaped(s) + ("\"" + rest)));
  }

  lemma QuoteBreakFree()
    ensures BreakFree("\"")
  {
  }

  lemma NumberBreaksIff(key: string, n: nat, rest: string)
    requires BreakFree(key)
    ensures BreakFree(NumberThen(key, n, rest)) <==> BreakFree(rest)
  {
    hide BreakFree, Numeral;
    NumeralBreakFree(n);
    BreakFreeConcat(Numeral(n), rest);
    BreakFreeConcat(key, Numeral(n) + rest);
  }

  lemma KeysBreakFree()
    ensures BreakFree(SERIAL_LABEL) && BreakFree(ID_LABEL) && BreakFree(JID_LABEL) && BreakFree(NAME_LABEL)
    ensures BreakFree(ORDINAL_LABEL) && BreakFree("}" + "")
  {
  }

  /** A written entry is one line for the reader exactly when no field holds one of the three. */
  lemma EntryIsOneLineIff(e: Entry)
    ensures BreakFree(EntryText(e)) <==> Storable(e)
  {
    hide BreakFree, LineFree, TextThen, NumberThen;
    KeysBreakFree();
    var tail := NumberThen(ORDINAL_LABEL, e.ordinal, "}" + "");
    NumberBreaksIff(ORDINAL_LABEL, e.ordinal, "}" + "");
    TextBreaksIff(NAME_LABEL, e.name, tail);
    TextBreaksIff(JID_LABEL, e.jid, NamePart(e, ""));
    TextBreaksIff(ID_LABEL, e.messageId, TextThen(JID_LABEL, e.jid, NamePart(e, "")));
    NumberBreaksIff(SERIAL_LABEL, e.serial, IdPart(e, ""));
  }
}
