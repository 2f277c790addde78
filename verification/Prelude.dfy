/** Stock types and the few facts about sequences that several components share. */
module Prelude {

  datatype Option<+T> = None | Some(value: T)

  datatype Result<+T, +E> = Success(value: T) | Failure(error: E)

  newtype byte = x: int | 0 <= x < 256

  /** Sum of a list of integers, read from the left as an accumulating loop reads it. */
  function Sum(s: seq<int>): int {
    if s == [] then 0 else Sum(s[..|s| - 1]) + s[|s| - 1]
  }

  lemma SumAppend(s: seq<int>, x: int)
    ensures Sum(s + [x]) == Sum(s) + x
  {
    assert (s + [x])[..|s|] == s;
  }

  lemma {:induction false} SumConcat(a: seq<int>, b: seq<int>)
    ensures Sum(a + b) == Sum(a) + Sum(b)
  {
    if b == [] {
      assert a + b == a;
    } else {
      assert (a + b)[..|a + b| - 1] == a + b[..|b| - 1];
      SumConcat(a, b[..|b| - 1]);
    }
  }

  /** Changing one entry moves the sum by the change of that entry. */
  lemma SumUpdate(s: seq<int>, i: nat, x: int)
    requires i < |s|
    ensures Sum(s[i := x]) == Sum(s) - s[i] + x
  {
    assert s == s[..i] + [s[i]] + s[i + 1..];
    assert s[i := x] == s[..i] + [x] + s[i + 1..];
    SumConcat(s[..i] + [s[i]], s[i + 1..]);
    SumConcat(s[..i], [s[i]]);
    SumConcat(s[..i] + [x], s[i + 1..]);
    SumConcat(s[..i], [x]);
    assert Sum([s[i]]) == s[i] && Sum([x]) == x;
  }

  /** Equal multisets have equal sums. */
  lemma {:induction false} SumOfMultiset(a: seq<int>, b: seq<int>)
    requires multiset(a) == multiset(b)
    ensures Sum(a) == Sum(b)
  {
    if a == [] {
      assert |multiset(b)| == 0;
    } else {
      var last := a[|a| - 1];
      var j := WhereIs(a, b, |a| - 1);
      SumOfMultiset(a[..|a| - 1], b[..j] + b[j + 1..]);
      assert b == b[..j] + [last] + b[j + 1..];
      SumConcat(b[..j] + [last], b[j + 1..]);
      SumConcat(b[..j], [last]);
      SumConcat(b[..j], b[j + 1..]);
      assert Sum([last]) == last;
    }
  }

  /** Taking an entry out of a list takes it out of the list's multiset. */
  lemma OneOut<T>(s: seq<T>, j: nat)
    requires j < |s|
    ensures multiset(s) == multiset(s[..j] + s[j + 1..]) + multiset{s[j]}
  {
    var front, back := s[..j], s[j + 1..];
    assert s == front + ([s[j]] + back);
    assert multiset(front + ([s[j]] + back)) == multiset(front) + multiset([s[j]] + back);
    assert multiset([s[j]] + back) == multiset{s[j]} + multiset(back);
    assert multiset(front + back) == multiset(front) + multiset(back);
  }

  /** The last entry of a list has a partner in any rearrangement; dropping both leaves rearrangements. */
  lemma WhereIs<T>(a: seq<T>, b: seq<T>, last: nat) returns (j: nat)
    requires multiset(a) == multiset(b) && last + 1 == |a|
    ensures j < |b| && b[j] == a[last]
    ensures multiset(a[..last]) == multiset(b[..j] + b[j + 1..])
  {
    assert a[last] in multiset(b);
    j :| 0 <= j < |b| && b[j] == a[last];
    OneOut(a, last);
    OneOut(b, j);
    assert a[..last] + a[last + 1..] == a[..last];
    SameRest(multiset(a[..last]), multiset(b[..j] + b[j + 1..]), a[last]);
  }

  lemma SameRest<T>(x: multiset<T>, y: multiset<T>, e: T)
    requires x + multiset{e} == y + multiset{e}
    ensures x == y
  {
    assert x == (x + multiset{e}) - multiset{e} && y == (y + multiset{e}) - multiset{e};
  }

  function Map<A, B>(f: A -> B, s: seq<A>): (r: seq<B>)
    ensures |r| == |s| && forall i :: 0 <= i < |s| ==> r[i] == f(s[i])
  {
    seq(|s|, i requires 0 <= i < |s| => f(s[i]))
  }

  /** Mapping a rearranged list gives a rearranged list. */
  lemma {:induction false} MapOfMultiset<A, B>(f: A -> B, a: seq<A>, b: seq<A>)
    requires multiset(a) == multiset(b)
    ensures multiset(Map(f, a)) == multiset(Map(f, b))
  {
    if a == [] {
      assert |multiset(b)| == 0;
    } else {
      var n := |a| - 1;
      var j := WhereIs(a, b, n);
      MapOfMultiset(f, a[..n], b[..j] + b[j + 1..]);
      var x, y := Map(f, a), Map(f, b);
      assert x == Map(f, a[..n]) + [x[n]];
      assert y == y[..j] + [y[j]] + y[j + 1..];
      assert Map(f, b[..j] + b[j + 1..]) == y[..j] + y[j + 1..];
    }
  }
}
