/**
 * Exact summation of a finite series of funding rates. The engine sums the
 * series once (with numpy); over exact reals the order of summation does not
 * matter, which is what the lemmas here establish.
 */
module RateSum {

  /** The exact sum of a series, taken from the front. */
  function Sum(s: seq<real>): real
  {
    if |s| == 0 then 0.0 else s[0] + Sum(s[1..])
  }

  /** A one-element series sums to its element. */
  lemma SumSingleton(x: real)
    ensures Sum([x]) == x
  {
  }

  /** Non-negative rates have a non-negative sum. */
  lemma {:induction false} SumNonNeg(s: seq<real>)
    requires forall i :: 0 <= i < |s| ==> s[i] >= 0.0
    ensures Sum(s) >= 0.0
  {
    if |s| > 0 {
      SumNonNeg(s[1..]);
    }
  }

  /** Non-positive rates have a non-positive sum. */
  lemma {:induction false} SumNonPos(s: seq<real>)
    requires forall i :: 0 <= i < |s| ==> s[i] <= 0.0
    ensures Sum(s) <= 0.0
  {
    if |s| > 0 {
      SumNonPos(s[1..]);
    }
  }

  /** Summation is additive over concatenation. */
  lemma {:induction false} SumConcat(a: seq<real>, b: seq<real>)
    ensures Sum(a + b) == Sum(a) + Sum(b)
  {
    if |a| == 0 {
      assert a + b == b;
    } else {
      assert (a + b)[1..] == a[1..] + b;
      SumConcat(a[1..], b);
    }
  }

  /** The sum depends only on the multiset of rates, not on their order. */
  lemma {:induction false} SumPermutation(a: seq<real>, b: seq<real>)
    requires multiset(a) == multiset(b)
    ensures Sum(a) == Sum(b)
    decreases |a|
  {
    if |a| == 0 {
      assert |b| == |multiset(b)| == 0;
    } else {
      var x := a[0];
      assert a == [x] + a[1..];
      assert x in multiset(b);
      var i :| 0 <= i < |b| && b[i] == x;
      var rest := b[..i] + b[i + 1..];
      assert b == b[..i] + [x] + b[i + 1..];
      assert multiset(b) == multiset(b[..i]) + multiset{x} + multiset(b[i + 1..]);
      assert multiset(rest) == multiset(b[..i]) + multiset(b[i + 1..]);
      assert multiset(a) == multiset{x} + multiset(a[1..]);
      assert multiset(a[1..]) == multiset(a) - multiset{x};
      assert multiset(rest) == multiset(b) - multiset{x};
      SumPermutation(a[1..], rest);
      calc {
        Sum(b);
        { SumConcat(b[..i] + [x], b[i + 1..]); }
        Sum(b[..i] + [x]) + Sum(b[i + 1..]);
        { SumConcat(b[..i], [x]); SumSingleton(x); }
        Sum(b[..i]) + x + Sum(b[i + 1..]);
        { SumConcat(b[..i], b[i + 1..]); }
        x + Sum(rest);
      }
    }
  }

  /** Reading the series most-recent-first instead of chronologically gives the same sum. */
  function Reversed(s: seq<real>): (r: seq<real>)
    ensures |r| == |s|
    ensures forall k :: 0 <= k < |s| ==> r[k] == s[|s| - 1 - k]
  {
    if |s| == 0 then [] else Reversed(s[1..]) + [s[0]]
  }

  lemma {:induction false} SumReversed(s: seq<real>)
    ensures Sum(Reversed(s)) == Sum(s)
  {
    if |s| > 0 {
      SumReversed(s[1..]);
      SumConcat(Reversed(s[1..]), [s[0]]);
      SumSingleton(s[0]);
    }
  }
}
