/** Sequences without repetition, their element sets and multisets. */
module Sequences {

  function Elements<T(==)>(s: seq<T>): set<T> {
    set x | x in s
  }

  predicate Distinct<T(==)>(s: seq<T>) {
    forall i, j :: 0 <= i < j < |s| ==> s[i] != s[j]
  }

  lemma {:induction false} DistinctCount<T>(s: seq<T>)
    requires Distinct(s)
    ensures |Elements(s)| == |s|
  {
    if s != [] {
      DistinctCount(s[1..]);
      assert Elements(s) == {s[0]} + Elements(s[1..]);
    }
  }

  lemma CardinalityGrows<T>(a: set<T>, b: set<T>)
    requires a <= b
    ensures |a| <= |b|
    ensures |a| == |b| ==> a == b
  {
    assert b == a + (b - a);
  }

  lemma ShuffledDistinct<T>(s: seq<T>, t: seq<T>)
    requires Distinct(s) && multiset(s) == multiset(t)
    ensures Distinct(t) && Elements(s) == Elements(t) && |s| == |t|
  {
    assert |s| == |multiset(s)| == |multiset(t)| == |t|;
    assert forall x :: x in s <==> x in multiset(s);
    assert forall x :: x in t <==> x in multiset(t);
    forall i, j | 0 <= i < j < |t| ensures t[i] != t[j] {
      if t[i] == t[j] {
        TwiceInMultiset(t, i, j);
        OnceInMultiset(s, t[i]);
      }
    }
  }

  lemma TwiceInMultiset<T>(t: seq<T>, i: nat, j: nat)
    requires i < j < |t| && t[i] == t[j]
    ensures multiset(t)[t[i]] >= 2
  {
    assert t == t[..j] + [t[j]] + t[j + 1..];
    assert t[i] in multiset(t[..j]) by { assert t[..j][i] == t[i]; }
  }

  lemma {:induction false} OnceInMultiset<T>(s: seq<T>, x: T)
    requires Distinct(s)
    ensures multiset(s)[x] <= 1
  {
    if s != [] {
      OnceInMultiset(s[1..], x);
      assert s == [s[0]] + s[1..];
      if x == s[0] { assert x !in s[1..]; }
    }
  }

  ghost predicate InOrder<T(!new)>(a: seq<T>, less: (T, T) -> bool) {
    forall i, j :: 0 <= i < j < |a| ==> less(a[i], a[j])
  }

  ghost predicate Asymmetric<T(!new)>(less: (T, T) -> bool) {
    forall x, y :: !(less(x, y) && less(y, x))
  }

  /** Two lists in the same strict order with the same members are one list. */
  lemma {:induction false} OrderedSame<T(!new)>(a: seq<T>, b: seq<T>, less: (T, T) -> bool)
    requires InOrder(a, less) && InOrder(b, less) && Asymmetric(less)
    requires forall x :: x in a <==> x in b
    ensures a == b
  {
    HeadIn(a);
    HeadIn(b);
    if a != [] && b != [] {
      TailInOrder(a, less);
      TailInOrder(b, less);
      hide InOrder;
      OrderedSame(a[1..], b[1..], less);
      assert a == [a[0]] + a[1..] && b == [b[0]] + b[1..];
    }
  }

  lemma HeadIn<T>(a: seq<T>)
    ensures a != [] ==> a[0] in a
  {
  }

  lemma TailInOrder<T(!new)>(a: seq<T>, less: (T, T) -> bool)
    requires a != [] && InOrder(a, less) && Asymmetric(less)
    ensures InOrder(a[1..], less)
    ensures forall x :: x in a[1..] <==> x in a && x != a[0]
    ensures forall x :: x in a && x != a[0] ==> less(a[0], x)
  {
    assert a == [a[0]] + a[1..];
    forall x | x in a[1..] ensures x != a[0] && less(a[0], x) {
      var i :| 0 <= i < |a[1..]| && a[1..][i] == x;
      assert less(a[0], a[i + 1]);
    }
  }
}
