/** Sums and arithmetic means over sequences of readings.
    `Sum` folds from the left, as `Array.prototype.reduce((a, b) => a + b, 0)` does. */
module Numeric {

  function Sum(s: seq<real>): real
  {
    if |s| == 0 then 0.0 else Sum(s[..|s| - 1]) + s[|s| - 1]
  }

  /** Arithmetic mean of a non-empty list (the source divides by the length). */
  function Mean(s: seq<real>): real
    requires |s| > 0
  {
    Sum(s) / (|s| as real)
  }

  ghost predicate AllIn(s: seq<real>, lo: real, hi: real)
  {
    forall i :: 0 <= i < |s| ==> lo <= s[i] <= hi
  }

  lemma {:induction false} SumConcat(a: seq<real>, b: seq<real>)
    ensures Sum(a + b) == Sum(a) + Sum(b)
  {
    if |b| == 0 {
      assert a + b == a;
    } else {
      assert (a + b)[..|a + b| - 1] == a + b[..|b| - 1];
      SumConcat(a, b[..|b| - 1]);
    }
  }

  lemma SumSingleton(x: real)
    ensures Sum([x]) == x
  {
    assert [x][..0] == [];
  }

  lemma SumOfThree(a: real, b: real, c: real)
    ensures Sum([a, b, c]) == a + b + c
  {
    assert [a, b, c][..2] == [a, b];
    assert [a, b][..1] == [a];
    SumSingleton(a);
  }

  lemma {:induction false} SumBounds(s: seq<real>, lo: real, hi: real)
    requires AllIn(s, lo, hi)
    ensures (|s| as real) * lo <= Sum(s) <= (|s| as real) * hi
  {
    if |s| > 0 {
      SumBounds(s[..|s| - 1], lo, hi);
      assert (|s| as real) * lo == ((|s| - 1) as real) * lo + lo;
      assert (|s| as real) * hi == ((|s| - 1) as real) * hi + hi;
    }
  }

  lemma {:induction false} SumConstant(s: seq<real>, k: real)
    requires forall i :: 0 <= i < |s| ==> s[i] == k
    ensures Sum(s) == (|s| as real) * k
  {
    if |s| > 0 {
      SumConstant(s[..|s| - 1], k);
    }
  }

  /** A mean lies between any bounds of its inputs. */
  lemma MeanBounds(s: seq<real>, lo: real, hi: real)
    requires |s| > 0 && AllIn(s, lo, hi)
    ensures lo <= Mean(s) <= hi
  {
    SumBounds(s, lo, hi);
    var n := |s| as real;
    assert n * lo <= Sum(s) <= n * hi;
    assert Sum(s) / n >= lo by {
      assert Sum(s) / n * n == Sum(s);
    }
    assert Sum(s) / n <= hi by {
      assert Sum(s) / n * n == Sum(s);
    }
  }

  /** The mean of a constant list is that constant. */
  lemma MeanConstant(s: seq<real>, k: real)
    requires |s| > 0
    requires forall i :: 0 <= i < |s| ==> s[i] == k
    ensures Mean(s) == k
  {
    SumConstant(s, k);
  }
}
