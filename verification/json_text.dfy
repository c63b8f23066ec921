/** Which texts `json.loads` accepts. */
module JsonText {
  // The grammar of Python's decoder, and a test that every text it accepts passes: read character by
  // character, strings close before anything but a separator, and brackets close what they opened.

  import opened Optional
  import opened Text

  // ----- the grammar -----

  predicate IsJsonSpace(c: char) {
    c == ' ' || c == '\t' || c == '\n' || c == '\r'
  }

  function SkipSpace(s: string): (r: string)
    ensures |r| <= |s| && (r != "" ==> !IsJsonSpace(r[0]))
  {
    if s != "" && IsJsonSpace(s[0]) then SkipSpace(s[1..]) else s
  }

  predicate IsHex(c: char) {
    '0' <= c <= '9' || 'a' <= c <= 'f' || 'A' <= c <= 'F'
  }

  /** Length of the escape at the head of a text, or 0. */
  function EscapeLength(s: string): (n: nat)
    ensures n <= |s|
  {
    if |s| < 2 || s[0] != '\\' then 0
    else if s[1] in "\"\\/bfnrt" then 2
    else if s[1] == 'u' && |s| >= 6 && forall i | 2 <= i < 6 :: IsHex(s[i]) then 6
    else 0
  }

  /** What follows a string literal whose opening quote has been read. */
  function StringRest(s: string): (r: Option<string>)
    ensures r.Some? ==> |r.value| < |s|
    decreases |s|
  {
    if s == "" || s[0] < ' ' then None
    else if s[0] == '"' then Some(s[1..])
    else if s[0] != '\\' then StringRest(s[1..])
    else if EscapeLength(s) == 0 then None
    else StringRest(s[EscapeLength(s)..])
  }

  /** Length of `-?(0|[1-9]\d*)` at the head, or 0. */
  function IntegerLength(s: string): (n: nat)
    ensures n <= |s|
  {
    var m := if s != "" && s[0] == '-' then 1 else 0;
    var d := DigitRun(s[m..]);
    if d == 0 then 0 else if s[m] == '0' then m + 1 else m + d
  }

  function FractionLength(s: string): (n: nat)
    ensures n <= |s|
  {
    if |s| > 1 && s[0] == '.' && DigitRun(s[1..]) > 0 then 1 + DigitRun(s[1..]) else 0
  }

  function ExponentLength(s: string): (n: nat)
    ensures n <= |s|
  {
    if s == "" || (s[0] != 'e' && s[0] != 'E') then 0
    else
      var m := if |s| > 1 && (s[1] == '-' || s[1] == '+') then 2 else 1;
      if DigitRun(s[m..]) > 0 then m + DigitRun(s[m..]) else 0
  }

  function NumberLength(s: string): (n: nat)
    ensures n <= |s|
  {
    var i := IntegerLength(s);
    if i == 0 then 0
    else
      var f := FractionLength(s[i..]);
      i + f + ExponentLength(s[i + f..])
  }

  /** Length of the constant or number at the head, or 0. */
  function ScalarLength(s: string): (n: nat)
    ensures n <= |s|
  {
    if "null" <= s || "true" <= s then 4
    else if "false" <= s then 5
    else if "NaN" <= s then 3
    else if "Infinity" <= s then 8
    else if "-Infinity" <= s then 9
    else NumberLength(s)
  }

  /** What follows the value at the head of a text. */
  function ValueRest(s: string): (r: Option<string>)
    ensures r.Some? ==> |r.value| < |s|
    decreases |s|, 1
  {
    if s == "" then None
    else if s[0] == '"' then StringRest(s[1..])
    else if s[0] == '{' then
      var t := SkipSpace(s[1..]);
      if t != "" && t[0] == '}' then Some(t[1..]) else MembersRest(t)
    else if s[0] == '[' then
      var t := SkipSpace(s[1..]);
      if t != "" && t[0] == ']' then Some(t[1..]) else ElementsRest(t)
    else if ScalarLength(s) > 0 then Some(s[ScalarLength(s)..])
    else None
  }

  /** What follows the members of an object and its closing brace. */
  function MembersRest(s: string): (r: Option<string>)
    ensures r.Some? ==> |r.value| < |s|
    decreases |s|, 2
  {
    if s == "" || s[0] != '"' || StringRest(s[1..]).None? then None
    else
      var t := SkipSpace(StringRest(s[1..]).value);
      if t == "" || t[0] != ':' then None
      else
        var v := ValueRest(SkipSpace(t[1..]));
        if v.None? then None
        else
          var u := SkipSpace(v.value);
          if u == "" then None
          else if u[0] == '}' then Some(u[1..])
          else if u[0] == ',' then MembersRest(SkipSpace(u[1..]))
          else None
  }

  /** What follows the elements of an array and its closing bracket. */
  function ElementsRest(s: string): (r: Option<string>)
    ensures r.Some? ==> |r.value| < |s|
    decreases |s|, 2
  {
    var v := ValueRest(s);
    if v.None? then None
    else
      var u := SkipSpace(v.value);
      if u == "" then None
      else if u[0] == ']' then Some(u[1..])
      else if u[0] == ',' then ElementsRest(SkipSpace(u[1..]))
      else None
  }

  predicate IsJson(s: string) {
    var r := ValueRest(SkipSpace(s));
    r.Some? && SkipSpace(r.value) == ""
  }

  // ----- a necessary condition, character by character -----

  /** Between tokens, inside a string, behind a backslash in one, or right behind its closing quote. */
  datatype Mode = Between | Inside | Escape | Closed

  /** `begun`: anything but white space was read. */
  datatype Scan = Failed | At(mode: Mode, depth: nat, begun: bool)

  const START := At(Between, 0, false)

  function Outside(depth: nat, begun: bool, c: char): Scan {
    if IsJsonSpace(c) then At(Between, depth, begun)
    else if c == '"' then At(Inside, depth, true)
    else if c == '\\' then Failed
    else if c == '{' || c == '[' then (if depth == 0 && begun then Failed else At(Between, depth + 1, true))
    else if c == '}' || c == ']' then (if depth == 0 then Failed else At(Between, depth - 1, true))
    else At(Between, depth, true)
  }

  function Next(st: Scan, c: char): Scan {
    match st
    case Failed => Failed
    case At(Inside, depth, begun) =>
      if c == '"' then At(Closed, depth, begun) else if c == '\\' then At(Escape, depth, begun) else st
    case At(Escape, depth, begun) => At(Inside, depth, begun)
    case At(Between, depth, begun) => Outside(depth, begun, c)
    case At(Closed, depth, begun) =>
      if IsJsonSpace(c) || c in ",]}:" then Outside(depth, begun, c) else Failed
  }

  function Run(st: Scan, s: string): Scan
    decreases |s|
  {
    if s == "" then st else Run(Next(st, s[0]), s[1..])
  }

  predicate Accepts(st: Scan) {
    st.At? && (st.mode == Between || st.mode == Closed) && st.depth == 0 && st.begun
  }

  lemma {:induction false} RunConcat(st: Scan, a: string, b: string)
    ensures Run(st, a + b) == Run(Run(st, a), b)
    decreases |a|
  {
    hide Next;
    if a == "" {
      assert a + b == b;
    } else {
      assert (a + b)[0] == a[0] && (a + b)[1..] == a[1..] + b;
      RunConcat(Next(st, a[0]), a[1..], b);
    }
  }

  lemma {:induction false} FailedStays(s: string)
    ensures Run(Failed, s) == Failed
  {
    if s != "" {
      FailedStays(s[1..]);
    }
  }

  lemma RunOne(st: Scan, s: string)
    requires s != ""
    ensures Run(st, s) == Run(Next(st, s[0]), s[1..])
  {
  }

  /** A run from one state to another: what is left of the text is read from the second one. */
  ghost predicate Leads(st: Scan, s: string, next: Scan, r: string) {
    |r| <= |s| && s[|s| - |r|..] == r && Run(st, s[..|s| - |r|]) == next
  }

  lemma LeadsRefl(st: Scan, s: string)
    ensures Leads(st, s, st, s)
  {
    assert s[0..] == s && s[..0] == "";
  }

  lemma LeadsTrans(a: Scan, s: string, b: Scan, t: string, c: Scan, u: string)
    requires Leads(a, s, b, t) && Leads(b, t, c, u)
    ensures Leads(a, s, c, u)
  {
    hide Run;
    var x, y := s[..|s| - |t|], t[..|t| - |u|];
    assert s[..|s| - |u|] == x + y;
    RunConcat(a, x, y);
    assert s[|s| - |u|..] == t[|t| - |u|..];
  }

  lemma LeadsOne(st: Scan, s: string)
    requires s != ""
    ensures Leads(st, s, Next(st, s[0]), s[1..])
  {
    assert s[..1] == [s[0]];
    assert Run(st, [s[0]]) == Run(Next(st, s[0]), [s[0]][1..]);
  }

  /** One more character in front of a run. */
  lemma LeadsCons(st: Scan, s: string, next: Scan, r: string)
    requires s != "" && Leads(Next(st, s[0]), s[1..], next, r)
    ensures Leads(st, s, next, r)
  {
    LeadsOne(st, s);
    LeadsTrans(st, s, Next(st, s[0]), s[1..], next, r);
  }

  /** White space between tokens; behind a closing quote it opens the way for the next one. */
  lemma {:induction false} SpaceScans(st: Scan, s: string)
    requires st.At? && (st.mode == Between || st.mode == Closed)
    ensures Leads(st, s, if SkipSpace(s) == s then st else st.(mode := Between), SkipSpace(s))
    decreases |s|
  {
    hide Leads;
    if s != "" && IsJsonSpace(s[0]) {
      SpaceScans(Next(st, s[0]), s[1..]);
      LeadsCons(st, s, st.(mode := Between), SkipSpace(s));
    } else {
      LeadsRefl(st, s);
    }
  }

  lemma {:induction false} PlainScans(st: Scan, s: string, n: nat)
    requires n <= |s| && forall i | 0 <= i < n :: Next(st, s[i]) == st
    ensures Leads(st, s, st, s[n..])
  {
    hide Leads, Next;
    if n == 0 {
      LeadsRefl(st, s);
      assert s[0..] == s;
    } else {
      PlainScans(st, s[1..], n - 1);
      assert s[1..][n - 1..] == s[n..];
      LeadsCons(st, s, st, s[n..]);
    }
  }

  lemma EscapeScans(s: string, depth: nat)
    requires EscapeLength(s) > 0
    ensures Leads(At(Inside, depth, true), s, At(Inside, depth, true), s[EscapeLength(s)..])
  {
    hide Leads;
    var st, n := At(Inside, depth, true), EscapeLength(s);
    forall i | 0 <= i < n - 2
      ensures Next(st, s[2..][i]) == st
    {
      assert s[2..][i] == s[i + 2];
    }
    PlainScans(st, s[2..], n - 2);
    assert s[2..][n - 2..] == s[n..] && s[1..][1..] == s[2..];
    LeadsCons(At(Escape, depth, true), s[1..], st, s[n..]);
    LeadsCons(st, s, st, s[n..]);
  }

  lemma {:induction false} StringScans(s: string, depth: nat)
    requires StringRest(s).Some?
    ensures Leads(At(Inside, depth, true), s, At(Closed, depth, true), StringRest(s).value)
    decreases |s|
  {
    hide Leads, EscapeLength;
    var st := At(Inside, depth, true);
    if s[0] == '"' {
      LeadsOne(st, s);
    } else if s[0] != '\\' {
      StringScans(s[1..], depth);
      LeadsCons(st, s, At(Closed, depth, true), StringRest(s).value);
    } else {
      StringScans(s[EscapeLength(s)..], depth);
      EscapeScans(s, depth);
      LeadsTrans(st, s, st, s[EscapeLength(s)..], At(Closed, depth, true), StringRest(s).value);
    }
  }

  /** Characters of which constants and numbers consist. */
  predicate IsScalarChar(c: char) {
    'a' <= c <= 'z' || 'A' <= c <= 'Z' || '0' <= c <= '9' || c == '-' || c == '+' || c == '.'
  }

  lemma NumberChars(s: string)
    ensures forall i | 0 <= i < NumberLength(s) :: IsScalarChar(s[i])
  {
    var i := IntegerLength(s);
    IntegerChars(s);
    if i > 0 {
      FractionChars(s[i..]);
      var f := FractionLength(s[i..]);
      ExponentChars(s[i + f..]);
      assert forall j | i <= j < i + f :: s[j] == s[i..][j - i];
      assert forall j | i + f <= j < NumberLength(s) :: s[j] == s[i + f..][j - i - f];
    }
  }

  lemma IntegerChars(s: string)
    ensures forall i | 0 <= i < IntegerLength(s) :: IsScalarChar(s[i])
  {
    var m := if s != "" && s[0] == '-' then 1 else 0;
    assert forall j | m <= j < |s| :: s[j] == s[m..][j - m];
  }

  lemma FractionChars(s: string)
    ensures forall i | 0 <= i < FractionLength(s) :: IsScalarChar(s[i])
  {
    assert forall j | 1 <= j < |s| :: s[j] == s[1..][j - 1];
  }

  lemma ExponentChars(s: string)
    ensures forall i | 0 <= i < ExponentLength(s) :: IsScalarChar(s[i])
  {
    if ExponentLength(s) > 0 {
      var m := if |s| > 1 && (s[1] == '-' || s[1] == '+') then 2 else 1;
      assert forall j | m <= j < |s| :: s[j] == s[m..][j - m];
    }
  }

  lemma ScalarChars(s: string)
    ensures forall i | 0 <= i < ScalarLength(s) :: IsScalarChar(s[i])
  {
    hide NumberLength;
    NumberChars(s);
  }

  lemma ScalarScans(s: string, depth: nat, begun: bool)
    requires ScalarLength(s) > 0
    ensures Leads(At(Between, depth, begun), s, At(Between, depth, true), s[ScalarLength(s)..])
  {
    hide Leads, ScalarLength;
    ScalarChars(s);
    var n, st := ScalarLength(s), At(Between, depth, true);
    forall i | 0 <= i < n - 1
      ensures Next(st, s[1..][i]) == st
    {
      assert s[1..][i] == s[i + 1];
      ScalarIsPlain(s[i + 1], depth, true);
    }
    PlainScans(st, s[1..], n - 1);
    assert s[1..][n - 1..] == s[n..];
    ScalarIsPlain(s[0], depth, begun);
    LeadsCons(At(Between, depth, begun), s, st, s[n..]);
  }

  lemma ScalarIsPlain(c: char, depth: nat, begun: bool)
    requires IsScalarChar(c)
    ensures Next(At(Between, depth, begun), c) == At(Between, depth, true)
  {
  }

  // ----- every accepted text passes the test -----

  /** A value may start here: inside a bracket, or nothing was read before. */
  predicate Ready(st: Scan) {
    st.At? && st.mode == Between && (st.depth > 0 || !st.begun)
  }

  /** A value that ended at this depth. */
  predicate Ended(st: Scan, depth: nat) {
    st.At? && (st.mode == Between || st.mode == Closed) && st.depth == depth && st.begun
  }

  lemma EndedSpace(st: Scan, s: string, depth: nat) returns (next: Scan)
    requires Ended(st, depth)
    ensures Ended(next, depth) && Leads(st, s, next, SkipSpace(s))
  {
    SpaceScans(st, s);
    next := if SkipSpace(s) == s then st else st.(mode := Between);
  }

  lemma ReadySpace(st: Scan, s: string)
    requires Ready(st)
    ensures Leads(st, s, st, SkipSpace(s))
  {
    SpaceScans(st, s);
  }

  lemma Separator(st: Scan, s: string, depth: nat)
    requires Ended(st, depth) && s != "" && (s[0] == ',' || s[0] == ':')
    ensures Leads(st, s, At(Between, depth, true), s[1..])
  {
    LeadsOne(st, s);
  }

  lemma Closing(st: Scan, s: string, depth: nat)
    requires Ended(st, depth + 1) && s != "" && (s[0] == '}' || s[0] == ']')
    ensures Leads(st, s, At(Between, depth, true), s[1..])
  {
    LeadsOne(st, s);
  }

  lemma Opening(st: Scan, s: string)
    requires Ready(st) && s != "" && (s[0] == '{' || s[0] == '[')
    ensures Leads(st, s, At(Between, st.depth + 1, true), SkipSpace(s[1..]))
  {
    hide Leads;
    LeadsOne(st, s);
    ReadySpace(At(Between, st.depth + 1, true), s[1..]);
    LeadsTrans(st, s, At(Between, st.depth + 1, true), s[1..], At(Between, st.depth + 1, true), SkipSpace(s[1..]));
  }

  lemma Quoted(st: Scan, s: string)
    requires st.At? && st.mode == Between && s != "" && s[0] == '"' && StringRest(s[1..]).Some?
    ensures Leads(st, s, At(Closed, st.depth, true), StringRest(s[1..]).value)
  {
    hide Leads;
    StringScans(s[1..], st.depth);
    LeadsCons(st, s, At(Closed, st.depth, true), StringRest(s[1..]).value);
  }

  lemma {:induction false} ValueScans(st: Scan, s: string) returns (next: Scan)
    requires Ready(st) && ValueRest(s).Some?
    ensures Ended(next, st.depth) && Leads(st, s, next, ValueRest(s).value)
    decreases |s|, 1
  {
    hide Leads, SkipSpace, StringRest, ScalarLength;
    var inner := At(Between, st.depth + 1, true);
    if s[0] == '"' {
      Quoted(st, s);
      next := At(Closed, st.depth, true);
    } else if s[0] == '{' || s[0] == '[' {
      var t := SkipSpace(s[1..]);
      Opening(st, s);
      next := At(Between, st.depth, true);
      if t != "" && ((s[0] == '{' && t[0] == '}') || (s[0] == '[' && t[0] == ']')) {
        Closing(inner, t, st.depth);
      } else if s[0] == '{' {
        MembersScan(t, st.depth);
      } else {
        ElementsScan(t, st.depth);
      }
      LeadsTrans(st, s, inner, t, next, ValueRest(s).value);
    } else {
      ScalarScans(s, st.depth, st.begun);
      next := At(Between, st.depth, true);
    }
  }

  lemma {:induction false} MembersScan(s: string, depth: nat)
    requires MembersRest(s).Some?
    ensures Leads(At(Between, depth + 1, true), s, At(Between, depth, true), MembersRest(s).value)
    decreases |s|, 2
  {
    hide Leads, SkipSpace, StringRest;
    var st := At(Between, depth + 1, true);
    Quoted(st, s);
    var a := StringRest(s[1..]).value;
    var closed := EndedSpace(At(Closed, depth + 1, true), a, depth + 1);
    LeadsTrans(st, s, At(Closed, depth + 1, true), a, closed, SkipSpace(a));
    var t := SkipSpace(a);
    Separator(closed, t, depth + 1);
    LeadsTrans(st, s, closed, t, st, t[1..]);
    ReadySpace(st, t[1..]);
    LeadsTrans(st, s, st, t[1..], st, SkipSpace(t[1..]));
    var ended := ValueScans(st, SkipSpace(t[1..]));
    var v := ValueRest(SkipSpace(t[1..])).value;
    LeadsTrans(st, s, st, SkipSpace(t[1..]), ended, v);
    var spaced := EndedSpace(ended, v, depth + 1);
    var u := SkipSpace(v);
    LeadsTrans(st, s, ended, v, spaced, u);
    if u[0] == '}' {
      Closing(spaced, u, depth);
      LeadsTrans(st, s, spaced, u, At(Between, depth, true), u[1..]);
    } else {
      Separator(spaced, u, depth + 1);
      LeadsTrans(st, s, spaced, u, st, u[1..]);
      ReadySpace(st, u[1..]);
      LeadsTrans(st, s, st, u[1..], st, SkipSpace(u[1..]));
      MembersScan(SkipSpace(u[1..]), depth);
      LeadsTrans(st, s, st, SkipSpace(u[1..]), At(Between, depth, true), MembersRest(s).value);
    }
  }

  lemma {:induction false} ElementsScan(s: string, depth: nat)
    requires ElementsRest(s).Some?
    ensures Leads(At(Between, depth + 1, true), s, At(Between, depth, true), ElementsRest(s).value)
    decreases |s|, 2
  {
    hide Leads, SkipSpace;
    var st := At(Between, depth + 1, true);
    var ended := ValueScans(st, s);
    var v := ValueRest(s).value;
    var spaced := EndedSpace(ended, v, depth + 1);
    var u := SkipSpace(v);
    LeadsTrans(st, s, ended, v, spaced, u);
    if u[0] == ']' {
      Closing(spaced, u, depth);
      LeadsTrans(st, s, spaced, u, At(Between, depth, true), u[1..]);
    } else {
      Separator(spaced, u, depth + 1);
      LeadsTrans(st, s, spaced, u, st, u[1..]);
      ReadySpace(st, u[1..]);
      LeadsTrans(st, s, st, u[1..], st, SkipSpace(u[1..]));
      ElementsScan(SkipSpace(u[1..]), depth);
      LeadsTrans(st, s, st, SkipSpace(u[1..]), At(Between, depth, true), ElementsRest(s).value);
    }
  }

  /** Whatever the decoder accepts passes the test. */
  lemma JsonScans(s: string)
    requires IsJson(s)
    ensures Accepts(Run(START, s))
  {
    hide ValueRest, SkipSpace, Run;
    var t := SkipSpace(s);
    ReadySpace(START, s);
    var ended := ValueScans(START, t);
    var v := ValueRest(t).value;
    LeadsTrans(START, s, START, t, ended, v);
    var last := EndedSpace(ended, v, 0);
    LeadsTrans(START, s, ended, v, last, "");
    assert s[..|s| - 0] == s;
  }
}
