/** Identifiers, result types and sums over sequences shared by the models of the FlashCart components. */
module Basics {

  type UserId = nat

  type ProductId = nat

  datatype Option<+T> = None | Some(value: T)

  datatype Result<+T, +E> = Ok(value: T) | Err(error: E)

  /** The sum of a sequence of integers. */
  function Sum(s: seq<int>): int {
    if s == [] then 0 else s[0] + Sum(s[1..])
  }

  lemma {:induction false} SumConcat(a: seq<int>, b: seq<int>)
    ensures Sum(a + b) == Sum(a) + Sum(b)
  {
    if a == [] {
      assert a + b == b;
    } else {
      assert (a + b)[1..] == a[1..] + b;
      SumConcat(a[1..], b);
    }
  }

  lemma SumAppend(s: seq<int>, x: int)
    ensures Sum(s + [x]) == Sum(s) + x
  {
    SumConcat(s, [x]);
  }

  lemma SumAround(front: seq<int>, x: int, back: seq<int>)
    ensures Sum(front + [x] + back) == x + Sum(front + back)
  {
    SumConcat(front + [x], back);
    SumAppend(front, x);
    SumConcat(front, back);
  }

  lemma CancelOne(x: int, tail: seq<int>, front: seq<int>, back: seq<int>)
    requires multiset([x] + tail) == multiset(front + [x] + back)
    ensures multiset(tail) == multiset(front + back)
  {
    assert multiset([x] + tail) == multiset{x} + multiset(tail);
    assert multiset(front + [x] + back) == multiset(front) + multiset{x} + multiset(back);
    assert multiset(front + back) == multiset(front) + multiset(back);
    assert multiset(tail) == multiset([x] + tail) - multiset{x};
  }

  /** The sum depends only on which entries there are, not on their order. */
  lemma {:induction false} SumPermutation(a: seq<int>, b: seq<int>)
    requires multiset(a) == multiset(b)
    ensures |a| == |b| && Sum(a) == Sum(b)
    decreases |a|
  {
    if a == [] {
      assert |multiset(b)| == 0;
    } else {
      var x, tail := a[0], a[1..];
      assert x in multiset(b);
      var i :| 0 <= i < |b| && b[i] == x;
      var front, back := b[..i], b[i + 1..];
      assert a == [x] + tail;
      assert b == front + [x] + back;
      CancelOne(x, tail, front, back);
      SumAround(front, x, back);
      SumPermutation(tail, front + back);
    }
  }

  lemma {:induction false} SumNonNegative(s: seq<int>)
    requires forall i :: 0 <= i < |s| ==> 0 <= s[i]
    ensures 0 <= Sum(s)
    ensures forall i :: 0 <= i < |s| ==> s[i] <= Sum(s)
  {
    if s != [] {
      SumNonNegative(s[1..]);
      forall i | 0 < i < |s| ensures s[i] <= Sum(s) { assert s[i] == s[1..][i - 1]; }
    }
  }
}
