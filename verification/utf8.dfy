/** UTF-8 as RFC 3629 defines it, and what a cut in the middle of a text leaves. */
module Utf8 {
  import opened Optional

  type Byte = n: int | 0 <= n < 256

  function CharBytes(c: char): (b: seq<Byte>)
    ensures 1 <= |b| <= 4
  {
    var n := c as int;
    if n < 0x80 then [n]
    else if n < 0x800 then [0xC0 + n / 0x40, 0x80 + n % 0x40]
    else if n < 0x1_0000 then [0xE0 + n / 0x1000, 0x80 + n / 0x40 % 0x40, 0x80 + n % 0x40]
    else [0xF0 + n / 0x4_0000, 0x80 + n / 0x1000 % 0x40, 0x80 + n / 0x40 % 0x40, 0x80 + n % 0x40]
  }

  function Encode(s: string): seq<Byte> {
    if s == "" then [] else CharBytes(s[0]) + Encode(s[1..])
  }

  /** Strict decoding: the text whose encoding the bytes are, if there is one. */
  ghost function Decode(b: seq<Byte>): (r: Option<string>)
    ensures r.Some? ==> Encode(r.value) == b
    ensures r.None? ==> forall s :: Encode(s) != b
  {
    if exists s :: Encode(s) == b then
      var s :| Encode(s) == b;
      Some(s)
    else None
  }

  predicate IsContinuation(n: Byte) {
    0x80 <= n < 0xC0
  }

  /** How many bytes a character takes, by its first one. */
  function Width(lead: Byte): nat {
    if lead < 0xC0 then 1 else if lead < 0xE0 then 2 else if lead < 0xF0 then 3 else 4
  }

  lemma CharShape(c: char)
    ensures var b := CharBytes(c);
            && Width(b[0]) == |b| && !IsContinuation(b[0])
            && forall i | 1 <= i < |b| :: IsContinuation(b[i])
  {
  }

  lemma CharBytesInjective(c: char, d: char)
    requires CharBytes(c) == CharBytes(d)
    ensures c == d
  {
    var b, m, n := CharBytes(c), c as int, d as int;
    CharShape(c);
    CharShape(d);
    if |b| == 2 {
      assert m / 0x40 == n / 0x40 && m % 0x40 == n % 0x40;
    } else if |b| == 3 {
      assert b[1] == CharBytes(d)[1] && b[2] == CharBytes(d)[2];
      Digits3(m, n);
    } else if |b| == 4 {
      assert b[1] == CharBytes(d)[1] && b[2] == CharBytes(d)[2] && b[3] == CharBytes(d)[3];
      Digits4(m, n);
    }
  }

  lemma Digits3(m: nat, n: nat)
    requires m / 0x1000 == n / 0x1000 && m / 0x40 % 0x40 == n / 0x40 % 0x40 && m % 0x40 == n % 0x40
    ensures m == n
  {
    assert m / 0x40 / 0x40 == m / 0x1000 && n / 0x40 / 0x40 == n / 0x1000;
    assert m / 0x40 == n / 0x40;
  }

  lemma Digits4(m: nat, n: nat)
    requires m / 0x4_0000 == n / 0x4_0000 && m / 0x1000 % 0x40 == n / 0x1000 % 0x40
    requires m / 0x40 % 0x40 == n / 0x40 % 0x40 && m % 0x40 == n % 0x40
    ensures m == n
  {
    assert m / 0x1000 / 0x40 == m / 0x4_0000 && n / 0x1000 / 0x40 == n / 0x4_0000;
    assert m / 0x1000 == n / 0x1000;
    Digits3(m, n);
  }

  lemma {:induction false} EncodeConcat(s: string, t: string)
    ensures Encode(s + t) == Encode(s) + Encode(t)
  {
    hide CharBytes;
    if s == "" {
      assert s + t == t;
    } else {
      assert (s + t)[0] == s[0] && (s + t)[1..] == s[1..] + t;
      EncodeConcat(s[1..], t);
    }
  }

  lemma FirstChar(s: string)
    requires s != ""
    ensures Encode(s) != [] && Width(Encode(s)[0]) == |CharBytes(s[0])| <= |Encode(s)|
    ensures Encode(s)[..|CharBytes(s[0])|] == CharBytes(s[0])
    ensures Encode(s)[|CharBytes(s[0])|..] == Encode(s[1..])
  {
    hide CharBytes;
    CharShape(s[0]);
    assert Encode(s)[0] == CharBytes(s[0])[0];
  }

  lemma EncodedNonEmpty(s: string)
    ensures Encode(s) == [] <==> s == ""
  {
    hide CharBytes;
    if s != "" {
      FirstChar(s);
    }
  }

  /** A text whose bytes begin another text's bytes begins that text. */
  lemma {:induction false} EncodePrefix(s: string, t: string, rest: seq<Byte>)
    requires Encode(s) + rest == Encode(t)
    ensures |s| <= |t| && t[..|s|] == s && rest == Encode(t[|s|..])
  {
    hide CharBytes, Width;
    if s == "" {
      assert Encode(s) + rest == rest && t[0..] == t;
    } else {
      FirstChar(s);
      EncodedNonEmpty(t);
      FirstChar(t);
      assert Encode(t)[0] == Encode(s)[0];
      var w := |CharBytes(s[0])|;
      assert Encode(t)[..w] == Encode(s)[..w];
      CharBytesInjective(s[0], t[0]);
      assert Encode(t)[w..] == Encode(s)[w..] + rest;
      EncodePrefix(s[1..], t[1..], rest);
      assert t[|s|..] == t[1..][|s| - 1..];
      assert t[..|s|] == [t[0]] + t[1..][..|s| - 1];
    }
  }

  lemma EncodeInjective(s: string, t: string)
    requires Encode(s) == Encode(t)
    ensures s == t
  {
    assert Encode(s) + [] == Encode(t);
    EncodePrefix(s, t, []);
    EncodedNonEmpty(t[|s|..]);
  }

  lemma DecodeEncoded(s: string)
    ensures Decode(Encode(s)) == Some(s)
  {
    var r := Decode(Encode(s));
    EncodeInjective(r.value, s);
  }

  // ----- a cut -----

  /** The first k bytes are the text's first i characters and m bytes of the next one. */
  predicate CutAt(s: string, k: nat, i: nat, m: nat) {
    && i <= |s| && k == |Encode(s[..i])| + m
    && (m > 0 ==> i < |s| && m < |CharBytes(s[i])|)
  }

  lemma {:induction false} CutPoint(s: string, k: nat) returns (i: nat, m: nat)
    requires k <= |Encode(s)|
    ensures CutAt(s, k, i, m)
  {
    hide CharBytes;
    if s == "" || k < |CharBytes(s[0])| {
      i, m := 0, k;
      assert s[..0] == "";
    } else {
      var w := |CharBytes(s[0])|;
      var j;
      j, m := CutPoint(s[1..], k - w);
      i := j + 1;
      assert s[..i] == [s[0]] + s[1..][..j];
      assert s[..i][1..] == s[1..][..j];
    }
  }

  lemma CutBytes(s: string, k: nat, i: nat, m: nat)
    requires CutAt(s, k, i, m)
    ensures k <= |Encode(s)|
    ensures Encode(s)[..k] == Encode(s[..i]) + if m > 0 then CharBytes(s[i])[..m] else []
  {
    hide CharBytes;
    assert s == s[..i] + s[i..];
    EncodeConcat(s[..i], s[i..]);
    if m > 0 {
      FirstChar(s[i..]);
      var w := |CharBytes(s[i])|;
      assert Encode(s[i..])[..m] == Encode(s[i..])[..w][..m];
    }
  }

  /** The bytes open with a whole character. */
  predicate OpensWhole(b: seq<Byte>) {
    b != [] && |b| >= Width(b[0]) && forall i | 1 <= i < Width(b[0]) :: IsContinuation(b[i])
  }

  lemma EncodedOpensWhole(t: string)
    requires t != ""
    ensures OpensWhole(Encode(t))
  {
    hide CharBytes, Width, IsContinuation;
    var b := Encode(t);
    FirstChar(t);
    CharShape(t[0]);
    var w := |CharBytes(t[0])|;
    assert forall i | 0 <= i < w :: b[i] == b[..w][i];
  }

  lemma HalfIsNotWhole(c: char, m: nat, rest: seq<Byte>)
    requires 0 < m < |CharBytes(c)| && (rest != [] ==> !IsContinuation(rest[0]))
    ensures CharBytes(c)[..m] + rest != [] && !OpensWhole(CharBytes(c)[..m] + rest)
  {
    hide CharBytes, Width, IsContinuation;
    var b := CharBytes(c)[..m] + rest;
    CharShape(c);
    assert b[0] == CharBytes(c)[0];
    assert |b| > m ==> b[m] == rest[0];
  }

  lemma NotWholeBehind(s: string, b: seq<Byte>)
    requires b != [] && !OpensWhole(b)
    ensures Decode(Encode(s) + b).None?
  {
    hide Encode, OpensWhole;
    var r := Decode(Encode(s) + b);
    if r.Some? {
      EncodePrefix(s, r.value, b);
      EncodedNonEmpty(r.value[|s|..]);
      EncodedOpensWhole(r.value[|s|..]);
    }
  }

  /** A text followed by the beginning of another one can be decoded exactly when the cut falls between
      two characters; otherwise nothing written behind it mends it. */
  lemma CutIsDecodableIff(front: string, s: string, k: nat, i: nat, m: nat, rest: seq<Byte>)
    requires CutAt(s, k, i, m) && (rest != [] ==> !IsContinuation(rest[0]))
    ensures k <= |Encode(s)|
    ensures m == 0 ==> Decode(Encode(front) + Encode(s)[..k]) == Some(front + s[..i])
    ensures m > 0 ==> Decode(Encode(front) + Encode(s)[..k] + rest).None?
  {
    hide CharBytes, OpensWhole, IsContinuation;
    CutBytes(s, k, i, m);
    EncodeConcat(front, s[..i]);
    if m == 0 {
      assert Encode(front) + Encode(s)[..k] == Encode(front + s[..i]);
      DecodeEncoded(front + s[..i]);
    } else {
      HalfIsNotWhole(s[i], m, rest);
      NotWholeBehind(front + s[..i], CharBytes(s[i])[..m] + rest);
      Regroup(Encode(front), Encode(s[..i]), CharBytes(s[i])[..m], rest);
    }
  }

  lemma Regroup(a: seq<Byte>, b: seq<Byte>, c: seq<Byte>, d: seq<Byte>)
    ensures a + (b + c) + d == (a + b) + (c + d)
  {
  }
}
