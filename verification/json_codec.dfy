/** A JSON codec with the laws that src/wahabot/ai/history/degrade.py relies on. */
module JsonCodec {
  // One such codec, so that the laws are known to be satisfiable: every value is written behind its
  // kind and its length, which makes the text of a value never the beginning of another value's text.

  import opened Optional
  import opened Text
  import opened Messages
  import opened Degrade

  /** The keys of an object, in some fixed order. */
  ghost function KeyOrder(keys: set<string>): (ks: seq<string>)
    ensures forall k :: k in ks <==> k in keys
    ensures |ks| == |keys|
  {
    if keys == {} then []
    else
      var k :| k in keys;
      [k] + KeyOrder(keys - {k})
  }

  function Counted(kind: string, n: nat, body: string): string {
    kind + (Numeral(n) + (":" + body))
  }

  ghost function TextOf(v: Json): string
    decreases v, 1, 0
  {
    match v
    case Null => "n"
    case Bool(b) => if b then "t" else "f"
    case Number(numeral) => Counted("#", |numeral|, numeral)
    case Str(s) => Counted("s", |s|, s)
    case Array(items) => Counted("a", |items|, TextsOf(v, items))
    case Object(fields) =>
      var ks := KeyOrder(fields.Keys);
      Counted("o", |ks|, FieldsText(v, fields, ks))
  }

  ghost function TextsOf(v: Json, items: seq<Json>): string
    requires v.Array? && forall x | x in items :: x in v.items
    decreases v, 0, |items|
  {
    if items == [] then ""
    else
      assert items[0] in v.items;
      TextOf(items[0]) + TextsOf(v, items[1..])
  }

  ghost function FieldsText(v: Json, fields: map<string, Json>, ks: seq<string>): string
    requires v.Object? && fields == v.fields && forall k | k in ks :: k in fields
    decreases v, 0, |ks|
  {
    if ks == [] then ""
    else
      Counted("s", |ks[0]|, ks[0]) + (TextOf(fields[ks[0]]) + FieldsText(v, fields, ks[1..]))
  }

  // ----- no text of a value begins another one -----

  lemma CountedApart(k: string, l: string, m: nat, n: nat, a: string, b: string)
    requires |k| == 1 && |l| == 1 && Counted(k, m, a) == Counted(l, n, b)
    ensures k == l && m == n && a == b
  {
    var s, t := Numeral(m) + (":" + a), Numeral(n) + (":" + b);
    assert s == Counted(k, m, a)[1..] == t;
    assert k[0] == Counted(k, m, a)[0] == l[0];
    DigitRunAt(Numeral(m), ":" + a);
    DigitRunAt(Numeral(n), ":" + b);
    assert Numeral(m) == s[..DigitRun(s)] == Numeral(n);
    ValueOfNumeral(m);
    ValueOfNumeral(n);
    assert a == s[DigitRun(s) + 1..] && b == t[DigitRun(t) + 1..];
  }

  lemma CountedTail(k: string, n: nat, a: string, x: string)
    ensures Counted(k, n, a) + x == Counted(k, n, a + x)
  {
  }

  lemma TextTail(a: string, b: string, m: nat, x: string, y: string)
    requires |a| == m == |b| && a + x == b + y
    ensures a == b && x == y
  {
    assert a == (a + x)[..m] && x == (a + x)[m..];
  }

  /** A value and what follows it are both known from their text. */
  lemma {:induction false} TextApart(v: Json, w: Json, x: string, y: string)
    requires TextOf(v) + x == TextOf(w) + y
    ensures v == w && x == y
    decreases v, 1, 0
  {
    hide Counted, KeyOrder;
    KindOf(v);
    KindOf(w);
    assert TextOf(v)[0] == (TextOf(v) + x)[0] == (TextOf(w) + y)[0] == TextOf(w)[0];
    match v
    case Null => TextTail(TextOf(v), TextOf(w), 1, x, y);
    case Bool(b) => TextTail(TextOf(v), TextOf(w), 1, x, y);
    case Number(numeral) =>
      CountedTail("#", |numeral|, numeral, x);
      CountedTail("#", |w.numeral|, w.numeral, y);
      CountedApart("#", "#", |numeral|, |w.numeral|, numeral + x, w.numeral + y);
      TextTail(numeral, w.numeral, |numeral|, x, y);
    case Str(s) =>
      CountedTail("s", |s|, s, x);
      CountedTail("s", |w.s|, w.s, y);
      CountedApart("s", "s", |s|, |w.s|, s + x, w.s + y);
      TextTail(s, w.s, |s|, x, y);
    case Array(items) =>
      CountedTail("a", |items|, TextsOf(v, items), x);
      CountedTail("a", |w.items|, TextsOf(w, w.items), y);
      CountedApart("a", "a", |items|, |w.items|, TextsOf(v, items) + x, TextsOf(w, w.items) + y);
      TextsApart(v, w, items, w.items, x, y);
    case Object(fields) =>
      var ks, ls := KeyOrder(fields.Keys), KeyOrder(w.fields.Keys);
      CountedTail("o", |ks|, FieldsText(v, fields, ks), x);
      CountedTail("o", |ls|, FieldsText(w, w.fields, ls), y);
      CountedApart("o", "o", |ks|, |ls|, FieldsText(v, fields, ks) + x, FieldsText(w, w.fields, ls) + y);
      FieldsApart(v, w, ks, ls, x, y);
      assert fields.Keys == w.fields.Keys;
  }

  /** The first character tells the kind of a value. */
  lemma KindOf(v: Json)
    ensures TextOf(v) != ""
    ensures TextOf(v)[0] ==
            match v
            case Null => 'n'
            case Bool(b) => if b then 't' else 'f'
            case Number(_) => '#'
            case Str(_) => 's'
            case Array(_) => 'a'
            case Object(_) => 'o'
  {
  }

  lemma {:induction false} TextsApart(v: Json, w: Json, xs: seq<Json>, ys: seq<Json>, x: string, y: string)
    requires v.Array? && (forall e | e in xs :: e in v.items) && w.Array? && (forall e | e in ys :: e in w.items)
    requires |xs| == |ys| && TextsOf(v, xs) + x == TextsOf(w, ys) + y
    ensures xs == ys && x == y
    decreases v, 0, |xs|
  {
    if xs != [] {
      assert xs[0] in v.items;
      var p, q := TextsOf(v, xs[1..]), TextsOf(w, ys[1..]);
      assert TextOf(xs[0]) + (p + x) == TextOf(ys[0]) + (q + y) by {
        assert TextsOf(v, xs) + x == TextOf(xs[0]) + (p + x);
        assert TextsOf(w, ys) + y == TextOf(ys[0]) + (q + y);
      }
      TextApart(xs[0], ys[0], p + x, q + y);
      TextsApart(v, w, xs[1..], ys[1..], x, y);
    } else {
      assert "" + x == x && "" + y == y;
    }
  }

  lemma {:induction false} FieldsApart(v: Json, w: Json, ks: seq<string>, ls: seq<string>, x: string, y: string)
    requires v.Object? && (forall k | k in ks :: k in v.fields) && w.Object? && (forall l | l in ls :: l in w.fields)
    requires |ks| == |ls| && FieldsText(v, v.fields, ks) + x == FieldsText(w, w.fields, ls) + y
    ensures ks == ls && x == y && forall k | k in ks :: v.fields[k] == w.fields[k]
    decreases v, 0, |ks|
  {
    if ks != [] {
      var k, l := ks[0], ls[0];
      var a, b := v.fields[k], w.fields[l];
      var p, q := FieldsText(v, v.fields, ks[1..]), FieldsText(w, w.fields, ls[1..]);
      FieldTail(k, a, p, x);
      FieldTail(l, b, q, y);
      CountedApart("s", "s", |k|, |l|, k + (TextOf(a) + (p + x)), l + (TextOf(b) + (q + y)));
      TextTail(k, l, |k|, TextOf(a) + (p + x), TextOf(b) + (q + y));
      TextApart(a, b, p + x, q + y);
      FieldsApart(v, w, ks[1..], ls[1..], x, y);
    } else {
      assert "" + x == x && "" + y == y;
    }
  }

  lemma FieldTail(k: string, a: Json, p: string, x: string)
    ensures Counted("s", |k|, k) + (TextOf(a) + p) + x == Counted("s", |k|, k + (TextOf(a) + (p + x)))
  {
    hide TextOf, Numeral;
  }

  // ----- the codec -----

  ghost function Dumped(v: Json): string {
    TextOf(v) + "."
  }

  ghost predicate Dumps(v: Json, s: string) {
    Dumped(v) == s
  }

  ghost function Loaded(s: string): (r: Option<Json>)
    ensures r.Some? ==> Dumps(r.value, s)
  {
    if exists v :: Dumps(v, s) then
      var v :| Dumps(v, s);
      Some(v)
    else None
  }

  lemma LoadedDumped(v: Json)
    ensures Loaded(Dumped(v)) == Some(v)
  {
    var s := Dumped(v);
    assert Dumps(v, s);
    SameDump(v, Loaded(s).value);
  }

  lemma SameDump(v: Json, w: Json)
    requires Dumped(v) == Dumped(w)
    ensures v == w
  {
    hide TextOf;
    TextApart(v, w, ".", ".");
  }

  lemma DumpedIsStripped(v: Json)
    ensures Strip(Dumped(v)) == Dumped(v)
  {
    hide TextOf;
    KindOf(v);
    assert Dumped(v)[0] == TextOf(v)[0] && Dumped(v)[|Dumped(v)| - 1] == '.';
  }

  /** A lawful codec exists, even one that loads back every value it dumps. */
  lemma LawfulCodecExists()
    ensures exists codec: Codec :: codec.Lawful() && forall v :: codec.loads(codec.dumps(v)) == Some(v)
  {
    hide TextOf;
    var codec := Codec(v => Dumped(v), s => Loaded(s));
    forall v: Json
      ensures codec.loads(codec.dumps(v)) == Some(v) && Strip(codec.dumps(v)) == codec.dumps(v)
    {
      LoadedDumped(v);
      DumpedIsStripped(v);
    }
  }
}
