/** Counting the elements of a sequence that satisfy a condition, and the
    fact that a permutation does not change such a count. */
module Counting {

  function CountWhere<T>(s: seq<T>, p: T -> bool): (n: nat)
    ensures n <= |s|
    decreases |s|
  {
    if s == [] then 0 else (if p(s[0]) then 1 else 0) + CountWhere(s[1..], p)
  }

  lemma {:induction false} CountAppend<T>(a: seq<T>, b: seq<T>, p: T -> bool)
    ensures CountWhere(a + b, p) == CountWhere(a, p) + CountWhere(b, p)
    decreases |a|
  {
    if a != [] {
      assert (a + b)[1..] == a[1..] + b;
      CountAppend(a[1..], b, p);
    } else {
      assert a + b == b;
    }
  }

  /** Sequences with the same elements have the same count. */
  lemma {:induction false} CountPermutation<T>(a: seq<T>, b: seq<T>, p: T -> bool)
    requires multiset(a) == multiset(b)
    ensures CountWhere(a, p) == CountWhere(b, p)
    decreases |a|
  {
    if a == [] {
      assert |b| == |multiset(b)| == 0;
    } else {
      var x := a[0];
      assert x in multiset(b);
      var k :| 0 <= k < |b| && b[k] == x;
      var rest := b[..k] + b[k + 1..];
      assert b == b[..k] + ([x] + b[k + 1..]);
      assert a == [x] + a[1..];
      assert multiset(rest) == multiset(b) - multiset{x};
      CountPermutation(a[1..], rest, p);
      CountAppend(b[..k], [x] + b[k + 1..], p);
      CountAppend(b[..k], b[k + 1..], p);
      assert ([x] + b[k + 1..])[1..] == b[k + 1..];
      assert CountWhere([x] + b[k + 1..], p) == (if p(x) then 1 else 0) + CountWhere(b[k + 1..], p);
      assert CountWhere(b, p) == CountWhere(b[..k], p) + CountWhere([x] + b[k + 1..], p);
      assert CountWhere(a, p) == (if p(x) then 1 else 0) + CountWhere(a[1..], p);
    }
  }

  lemma {:induction false} CountAll<T>(s: seq<T>, p: T -> bool)
    requires forall i :: 0 <= i < |s| ==> p(s[i])
    ensures CountWhere(s, p) == |s|
    decreases |s|
  {
    if s != [] { CountAll(s[1..], p); }
  }

  lemma {:induction false} CountNone<T>(s: seq<T>, p: T -> bool)
    requires forall i :: 0 <= i < |s| ==> !p(s[i])
    ensures CountWhere(s, p) == 0
    decreases |s|
  {
    if s != [] { CountNone(s[1..], p); }
  }
}
