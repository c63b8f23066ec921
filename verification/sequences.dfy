/** Sequence notions shared by the selection algorithms. */
module Sequences {

  predicate Distinct<T(==)>(s: seq<T>) {
    forall i, j | 0 <= i < j < |s| :: s[i] != s[j]
  }

  function Flatten<T>(xss: seq<seq<T>>): seq<T> {
    if xss == [] then [] else xss[0] + Flatten(xss[1..])
  }

  lemma {:induction false} FlattenConcat<T>(a: seq<seq<T>>, b: seq<seq<T>>)
    ensures Flatten(a + b) == Flatten(a) + Flatten(b)
  {
    if a == [] {
      assert a + b == b;
    } else {
      assert (a + b)[1..] == a[1..] + b;
      FlattenConcat(a[1..], b);
    }
  }

  function Reversed<T>(xs: seq<T>): (r: seq<T>)
    ensures |r| == |xs| && forall i | 0 <= i < |xs| :: r[i] == xs[|xs| - 1 - i]
  {
    seq(|xs|, i requires 0 <= i < |xs| => xs[|xs| - 1 - i])
  }

  /** The first sequence is the second with some elements left out, order kept. */
  predicate Subsequence<T(==)>(a: seq<T>, b: seq<T>)
    decreases |a| + |b|
  {
    a == [] || (b != [] && ((a[0] == b[0] && Subsequence(a[1..], b[1..])) || Subsequence(a, b[1..])))
  }

  lemma {:induction false} SubsequenceRefl<T>(a: seq<T>)
    ensures Subsequence(a, a)
  {
    if a != [] {
      SubsequenceRefl(a[1..]);
    }
  }

  lemma {:induction false} SuffixIsSubsequence<T>(b: seq<T>, k: nat)
    requires k <= |b|
    ensures Subsequence(b[k..], b)
  {
    if k == 0 {
      assert b[0..] == b;
      SubsequenceRefl(b);
    } else {
      SuffixIsSubsequence(b[1..], k - 1);
      assert b[1..][k - 1..] == b[k..];
    }
  }

  lemma {:induction false} SubsequenceConcat<T>(a: seq<T>, b: seq<T>, c: seq<T>, d: seq<T>)
    requires Subsequence(a, b) && Subsequence(c, d)
    ensures Subsequence(a + c, b + d)
    decreases |a| + |b|
  {
    if b == [] {
      assert a == [];
      assert a + c == c && b + d == d;
    } else {
      assert (b + d)[0] == b[0] && (b + d)[1..] == b[1..] + d;
      if a != [] && a[0] == b[0] && Subsequence(a[1..], b[1..]) {
        SubsequenceConcat(a[1..], b[1..], c, d);
        assert (a + c)[0] == a[0] && (a + c)[1..] == a[1..] + c;
      } else {
        SubsequenceConcat(a, b[1..], c, d);
      }
    }
  }

  lemma {:induction false} SubsequenceTrans<T>(a: seq<T>, b: seq<T>, c: seq<T>)
    requires Subsequence(a, b) && Subsequence(b, c)
    ensures Subsequence(a, c)
    decreases |b| + |c|
  {
    if a != [] {
      if b[0] == c[0] && Subsequence(b[1..], c[1..]) {
        if a[0] == b[0] && Subsequence(a[1..], b[1..]) {
          SubsequenceTrans(a[1..], b[1..], c[1..]);
        } else {
          SubsequenceTrans(a, b[1..], c[1..]);
        }
      } else {
        SubsequenceTrans(a, b, c[1..]);
      }
    }
  }

  lemma {:induction false} SubsequenceMembers<T>(a: seq<T>, b: seq<T>)
    requires Subsequence(a, b)
    ensures forall x | x in a :: x in b
    ensures |a| <= |b|
    decreases |a| + |b|
  {
    if a != [] {
      if a[0] == b[0] && Subsequence(a[1..], b[1..]) {
        SubsequenceMembers(a[1..], b[1..]);
        assert forall x | x in a :: x == a[0] || x in a[1..];
      } else {
        SubsequenceMembers(a, b[1..]);
      }
    }
  }

  lemma {:induction false} SubsequenceFlatten<T>(a: seq<seq<T>>, b: seq<seq<T>>)
    requires Subsequence(a, b)
    ensures Subsequence(Flatten(a), Flatten(b))
    decreases |a| + |b|
  {
    if a != [] {
      if a[0] == b[0] && Subsequence(a[1..], b[1..]) {
        SubsequenceFlatten(a[1..], b[1..]);
        SubsequenceRefl(a[0]);
        SubsequenceConcat(a[0], b[0], Flatten(a[1..]), Flatten(b[1..]));
      } else {
        SubsequenceFlatten(a, b[1..]);
        SubsequenceConcat([], b[0], Flatten(a), Flatten(b[1..]));
        assert [] + Flatten(a) == Flatten(a);
      }
    }
  }

  /** A step taken n times. */
  function Iterate<T>(f: T -> T, x: T, n: nat): T {
    if n == 0 then x else f(Iterate(f, x, n - 1))
  }

  lemma {:induction false} IterateSplit<T>(f: T -> T, x: T, m: nat, n: nat)
    ensures Iterate(f, x, m + n) == Iterate(f, Iterate(f, x, m), n)
  {
    if n > 0 {
      IterateSplit(f, x, m, n - 1);
    }
  }

  lemma {:induction false} IterateFixed<T>(f: T -> T, x: T, n: nat)
    requires f(x) == x
    ensures Iterate(f, x, n) == x
  {
    if n > 0 {
      IterateFixed(f, x, n - 1);
    }
  }

  // ----- loops that repeat one step until a test succeeds -----

  predicate DoneAfter<T>(f: T -> T, done: T -> bool, x: T, n: nat) {
    done(Iterate(f, x, n))
  }

  /** The loop ends. */
  ghost predicate Ends<T>(f: T -> T, done: T -> bool, x: T) {
    exists n: nat :: DoneAfter(f, done, x, n)
  }

  /** The loop ends after exactly n rounds. */
  ghost predicate EndsAfter<T>(f: T -> T, done: T -> bool, x: T, n: nat) {
    DoneAfter(f, done, x, n) && forall i: nat | i < n :: !DoneAfter(f, done, x, i)
  }

  lemma FirstEnd<T>(f: T -> T, done: T -> bool, x: T) returns (m: nat)
    requires Ends(f, done, x)
    ensures EndsAfter(f, done, x, m)
  {
    var n: nat :| DoneAfter(f, done, x, n);
    m := 0;
    while !DoneAfter(f, done, x, m)
      invariant m <= n
      invariant forall i: nat | i < m :: !DoneAfter(f, done, x, i)
      decreases n - m
    {
      m := m + 1;
    }
  }

  lemma NotYetDone<T>(f: T -> T, done: T -> bool, x: T, n: nat, stop: nat)
    requires EndsAfter(f, done, x, stop) && n <= stop
    ensures n < stop <==> !done(Iterate(f, x, n))
  {
    assert DoneAfter(f, done, x, n) <==> done(Iterate(f, x, n));
  }
}
