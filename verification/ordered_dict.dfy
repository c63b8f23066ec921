/** Python's `dict`: a finite map that remembers the order in which its keys came. */
module OrderedDict {
  import opened Sequences

  /** The list without the first occurrence of x. */
  function Without<T(==)>(s: seq<T>, x: T): seq<T> {
    if s == [] then [] else if s[0] == x then s[1..] else [s[0]] + Without(s[1..], x)
  }

  lemma {:induction false} WithoutFacts<T(!new)>(s: seq<T>, x: T)
    requires Distinct(s)
    ensures Distinct(Without(s, x))
    ensures forall y :: y in Without(s, x) <==> y in s && y != x
    ensures |Without(s, x)| == if x in s then |s| - 1 else |s|
  {
    if s != [] {
      WithoutFacts(s[1..], x);
      assert forall y :: y in s <==> y == s[0] || y in s[1..];
      if s[0] != x {
        assert s[0] !in Without(s[1..], x);
        DistinctCons(s[0], Without(s[1..], x));
      }
    }
  }

  lemma DistinctCons<T>(x: T, s: seq<T>)
    requires Distinct(s) && x !in s
    ensures Distinct([x] + s)
  {
    var t := [x] + s;
    forall i, j | 0 <= i < j < |t|
      ensures t[i] != t[j]
    {
      assert t[j] == s[j - 1];
    }
  }

  /** Taking x out leaves the others in their order: p is where x was, or the length. */
  lemma {:induction false} WithoutAt<T>(s: seq<T>, x: T) returns (p: nat)
    ensures p <= |s| && |Without(s, x)| == if p < |s| then |s| - 1 else |s|
    ensures forall i | 0 <= i < |Without(s, x)| :: Without(s, x)[i] == s[if i < p then i else i + 1]
  {
    if s == [] {
      p := 0;
    } else if s[0] == x {
      p := 0;
    } else {
      var q := WithoutAt(s[1..], x);
      p := q + 1;
    }
  }

  datatype Dict<K(==,!new), V> = Dict(keys: seq<K>, vals: map<K, V>) {

    ghost predicate Valid() {
      Distinct(keys) && forall k :: k in keys <==> k in vals
    }

    /** `d.pop(k, None)`, and `del d[k]` for a key that is there. */
    function Remove(k: K): (d: Dict<K, V>)
      requires Valid()
      ensures d.Valid()
      ensures d.vals == vals - {k}
      ensures |d.keys| == if k in vals then |keys| - 1 else |keys|
    {
      WithoutFacts(keys, k);
      Dict(Without(keys, k), vals - {k})
    }

    /** `d[k] = v`: a key that is already there keeps its place. */
    function Put(k: K, v: V): (d: Dict<K, V>)
      requires Valid()
      ensures d.Valid()
      ensures d.vals == vals[k := v]
      ensures |d.keys| == if k in vals then |keys| else |keys| + 1
    {
      Dict(if k in vals then keys else keys + [k], vals[k := v])
    }

    /** `next(iter(d))`. */
    function Oldest(): (k: K)
      requires Valid() && keys != []
      ensures k in vals
    {
      keys[0]
    }
  }

  function Empty<K(!new), V>(): (d: Dict<K, V>)
    ensures d.Valid()
  {
    Dict([], map[])
  }

  /** Drops the oldest entries until at most `cap` are left. */
  function Trimmed<K(!new), V>(table: Dict<K, V>, cap: nat): Dict<K, V>
    requires table.Valid()
    decreases |table.keys|
  {
    if |table.keys| <= cap then table else Trimmed(table.Remove(table.keys[0]), cap)
  }

  /** Part of a table, with the same values. */
  ghost predicate PartOf<K(!new), V>(t: Dict<K, V>, table: Dict<K, V>) {
    t.Valid() && forall k | k in t.vals :: k in table.vals && t.vals[k] == table.vals[k]
  }

  lemma OldestRemoved<K(!new), V>(table: Dict<K, V>)
    requires table.Valid() && table.keys != []
    ensures table.Remove(table.keys[0]).keys == table.keys[1..]
    ensures PartOf(table.Remove(table.keys[0]), table)
  {
  }

  lemma {:induction false} TrimmedIsPart<K(!new), V>(table: Dict<K, V>, cap: nat)
    requires table.Valid()
    ensures PartOf(Trimmed(table, cap), table)
    decreases |table.keys|
  {
    if |table.keys| > cap {
      OldestRemoved(table);
      TrimmedIsPart(table.Remove(table.keys[0]), cap);
    }
  }

  /** Exactly the newest `cap` entries stay. */
  lemma {:induction false} TrimmedKeepsNewest<K(!new), V>(table: Dict<K, V>, cap: nat)
    requires table.Valid()
    ensures Trimmed(table, cap).keys == if |table.keys| <= cap then table.keys else table.keys[|table.keys| - cap..]
    decreases |table.keys|
  {
    hide Without, Distinct;
    if |table.keys| > cap {
      OldestRemoved(table);
      var rest := table.Remove(table.keys[0]);
      assert Trimmed(table, cap) == Trimmed(rest, cap);
      TrimmedKeepsNewest(rest, cap);
      SuffixOfTail(table.keys, cap);
    }
  }

  lemma SuffixOfTail<T>(s: seq<T>, n: nat)
    requires n < |s|
    ensures s[1..][|s| - 1 - n..] == s[|s| - n..]
  {
  }

  lemma SizeIsKeys<K(!new), V>(d: Dict<K, V>)
    requires d.Valid()
    ensures |d.keys| == |d.vals.Keys|
  {
    DistinctCount(d.keys);
    assert d.vals.Keys == set k | k in d.keys;
  }

  lemma {:induction false} DistinctCount<T>(s: seq<T>)
    requires Distinct(s)
    ensures |set x | x in s| == |s|
  {
    if s != [] {
      var init, last := s[..|s| - 1], s[|s| - 1];
      DistinctCount(init);
      assert (set x | x in s) == (set x | x in init) + {last};
      assert last !in init;
    }
  }

  lemma SubsetSize<T>(a: set<T>, b: set<T>)
    requires a <= b
    ensures |a| <= |b|
  {
    assert b == a + (b - a);
  }
}
