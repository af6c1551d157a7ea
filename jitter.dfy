/**
  The BusyBox mdev reconstruction: the mean of the reply times, the population
  variance (squared deviations from the mean, divided by the number of samples), and
  `round(variance ** 0.5, 3)`, computed exactly over the reals.
 */
module Jitter {
  import opened Wrappers

  /** Python's `sum(xs)`. */
  function Sum(xs: seq<real>): real {
    if xs == [] then 0.0 else xs[0] + Sum(xs[1..])
  }

  lemma {:induction false} SumNonNegative(xs: seq<real>)
    requires forall i :: 0 <= i < |xs| ==> xs[i] >= 0.0
    ensures Sum(xs) >= 0.0
  {
    if xs != [] {
      SumNonNegative(xs[1..]);
    }
  }

  /** A sum of non-negative terms is zero only when every term is. */
  lemma {:induction false} SumZero(xs: seq<real>)
    requires forall i :: 0 <= i < |xs| ==> xs[i] >= 0.0
    requires Sum(xs) == 0.0
    ensures forall i :: 0 <= i < |xs| ==> xs[i] == 0.0
  {
    if xs != [] {
      SumNonNegative(xs[1..]);
      SumZero(xs[1..]);
      forall i | 1 <= i < |xs|
        ensures xs[i] == 0.0
      {
        assert xs[i] == xs[1..][i - 1];
      }
    }
  }

  lemma {:induction false} SumConstant(xs: seq<real>, c: real)
    requires forall i :: 0 <= i < |xs| ==> xs[i] == c
    ensures Sum(xs) == |xs| as real * c
  {
    if xs != [] {
      SumConstant(xs[1..], c);
    }
  }

  /** Terms between `lo` and `hi` give a sum between `|xs| * lo` and `|xs| * hi`. */
  lemma {:induction false} SumBounds(xs: seq<real>, lo: real, hi: real)
    requires forall i :: 0 <= i < |xs| ==> lo <= xs[i] <= hi
    ensures |xs| as real * lo <= Sum(xs) <= |xs| as real * hi
  {
    if xs != [] {
      assert forall i :: 0 <= i < |xs[1..]| ==> xs[1..][i] == xs[i + 1];
      SumBounds(xs[1..], lo, hi);
    }
  }

  function Mean(xs: seq<real>): real
    requires |xs| > 0
  {
    Sum(xs) / |xs| as real
  }

  /** The mean of samples between `lo` and `hi` is itself between them. */
  lemma MeanWithin(xs: seq<real>, lo: real, hi: real)
    requires |xs| > 0
    requires forall i :: 0 <= i < |xs| ==> lo <= xs[i] <= hi
    ensures lo <= Mean(xs) <= hi
  {
    SumBounds(xs, lo, hi);
  }

  /** The list `[(x - m) ** 2 for x in xs]`. */
  function SquaredDeviations(xs: seq<real>, m: real): (ds: seq<real>)
    ensures |ds| == |xs|
    ensures forall i :: 0 <= i < |ds| ==> ds[i] >= 0.0
  {
    seq(|xs|, i requires 0 <= i < |xs| => Square(xs[i] - m))
  }

  /** Mean squared deviation from the mean, with the number of samples as divisor. */
  function PopulationVariance(xs: seq<real>): (v: real)
    requires |xs| > 0
    ensures v >= 0.0
  {
    var ds := SquaredDeviations(xs, Mean(xs));
    SumNonNegative(ds);
    Sum(ds) / |ds| as real
  }

  lemma {:induction false} VarianceZeroAtMean(xs: seq<real>)
    requires |xs| > 0 && PopulationVariance(xs) == 0.0
    ensures forall i :: 0 <= i < |xs| ==> xs[i] == Mean(xs)
  {
    var m := Mean(xs);
    var ds := SquaredDeviations(xs, m);
    SumNonNegative(ds);
    assert Sum(ds) == 0.0;
    SumZero(ds);
    forall i | 0 <= i < |xs|
      ensures xs[i] == m
    {
      assert ds[i] == Square(xs[i] - m) == 0.0;
      if xs[i] - m != 0.0 {
        SquarePositive(xs[i] - m);
      }
    }
  }

  lemma {:induction false} ConstantVarianceZero(xs: seq<real>)
    requires |xs| > 0 && forall i :: 0 <= i < |xs| ==> xs[i] == xs[0]
    ensures PopulationVariance(xs) == 0.0
  {
    SumConstant(xs, xs[0]);
    var m := Mean(xs);
    assert m == xs[0];
    var ds := SquaredDeviations(xs, m);
    assert forall i :: 0 <= i < |ds| ==> ds[i] == Square(0.0);
    SumConstant(ds, Square(0.0));
  }

  /** The variance is zero exactly when all samples are equal. */
  lemma VarianceZeroIffConstant(xs: seq<real>)
    requires |xs| > 0
    ensures PopulationVariance(xs) == 0.0 <==>
      forall i, j :: 0 <= i < |xs| && 0 <= j < |xs| ==> xs[i] == xs[j]
  {
    if PopulationVariance(xs) == 0.0 {
      VarianceZeroAtMean(xs);
    }
    if forall i, j :: 0 <= i < |xs| && 0 <= j < |xs| ==> xs[i] == xs[j] {
      ConstantVarianceZero(xs);
    }
  }

  function Square(x: real): (r: real)
    ensures r >= 0.0
  {
    x * x
  }

  lemma SquarePositive(d: real)
    requires d != 0.0
    ensures Square(d) > 0.0
  {
    if d > 0.0 {
      calc { Square(d); == d * d; > 0.0; }
    } else {
      calc { Square(d); == (-d) * (-d); > 0.0; }
    }
  }

  lemma SquareMonotonic(a: real, b: real)
    requires 0.0 <= a <= b
    ensures Square(a) <= Square(b)
  {
    var d := b - a;
    assert d >= 0.0;
    assert a * d >= 0.0;
    assert d * d >= 0.0;
    assert b * b == a * a + 2.0 * (a * d) + d * d;
    assert Square(b) == b * b && Square(a) == a * a;
  }

  /** The integer `n` closest to the square root of `x`, searched upwards from `k`. */
  function RootIndex(x: real, k: nat): (n: nat)
    requires 0.0 <= x
    requires k == 0 || Square(k as real - 0.5) <= x
    ensures k <= n
    ensures n == 0 || Square(n as real - 0.5) <= x
    ensures x < Square(n as real + 0.5)
    decreases x.Floor + 1 - k
  {
    if x < Square(k as real + 0.5) then k
    else
      assert k as real <= x by {
        assert Square(k as real + 0.5) == k as real * k as real + k as real + 0.25;
        assert k as real * k as real >= 0.0;
      }
      RootIndex(x, k + 1)
  }

  /**
    `round(v ** 0.5, 3)`: a multiple of 0.001 within half a thousandth of the square
    root of `v` (a tie rounds up).
   */
  function RoundedRoot(v: real): (r: real)
    requires v >= 0.0
    ensures r >= 0.0 && (r * 1000.0).Floor as real == r * 1000.0
    ensures v < Square(r + 0.0005)
    ensures r == 0.0 || Square(r - 0.0005) <= v
  {
    var n := RootIndex(1000000.0 * v, 0);
    var r := n as real / 1000.0;
    assert r * 1000.0 == n as real;
    assert r + 0.0005 == (n as real + 0.5) / 1000.0;
    assert r - 0.0005 == (n as real - 0.5) / 1000.0;
    SquareScaled(n as real + 0.5);
    SquareScaled(n as real - 0.5);
    r
  }

  /** Dividing by 1000 divides the square by a million. */
  lemma SquareScaled(x: real)
    ensures Square(x / 1000.0) * 1000000.0 == Square(x)
  {
    assert (x / 1000.0) * (x / 1000.0) * 1000000.0 == x * x;
  }

  /** The three conditions of RoundedRoot single out one number. */
  lemma RoundedRootUnique(v: real, r: real)
    requires v >= 0.0
    requires r >= 0.0 && (r * 1000.0).Floor as real == r * 1000.0
    requires v < Square(r + 0.0005)
    requires r == 0.0 || Square(r - 0.0005) <= v
    ensures RoundedRoot(v) == r
  {
    var q := RoundedRoot(v);
    if q < r {
      Separated(q, r);
      assert false;
    } else if r < q {
      Separated(r, q);
      assert false;
    }
  }

  /** Two different multiples of 0.001 are at least 0.001 apart, so their rounding intervals do not overlap. */
  lemma Separated(lo: real, hi: real)
    requires 0.0 <= lo < hi
    requires (lo * 1000.0).Floor as real == lo * 1000.0 && (hi * 1000.0).Floor as real == hi * 1000.0
    ensures hi != 0.0 && Square(lo + 0.0005) <= Square(hi - 0.0005)
  {
    var a, b := (lo * 1000.0).Floor, (hi * 1000.0).Floor;
    assert a < b;
    assert lo + 0.0005 <= hi - 0.0005;
    SquareMonotonic(lo + 0.0005, hi - 0.0005);
  }

  /** The mdev the BusyBox path stores: none without samples, else the rounded root of the population variance. */
  function Mdev(times: seq<real>): (r: Option<real>)
    ensures r.Some? <==> |times| > 0
    ensures r.Some? ==> r.value >= 0.0
  {
    if |times| > 0 then Some(RoundedRoot(PopulationVariance(times))) else None
  }

  /** Samples 10, 20 and 30: mean 20, variance 200/3, mdev 8.165. */
  lemma MdevOfTenTwentyThirty()
    ensures Mean([10.0, 20.0, 30.0]) == 20.0
    ensures PopulationVariance([10.0, 20.0, 30.0]) == 200.0 / 3.0
    ensures Mdev([10.0, 20.0, 30.0]) == Some(8.165)
  {
    var xs := [10.0, 20.0, 30.0];
    assert Sum(xs) == 60.0 by {
      assert xs[1..] == [20.0, 30.0] && xs[1..][1..] == [30.0] && xs[1..][1..][1..] == [];
    }
    assert Mean(xs) == 20.0;
    var ds := SquaredDeviations(xs, 20.0);
    assert ds == [100.0, 0.0, 100.0];
    assert Sum([100.0, 0.0, 100.0]) == 200.0 by {
      var es := [100.0, 0.0, 100.0];
      assert es[1..] == [0.0, 100.0] && es[1..][1..] == [100.0] && es[1..][1..][1..] == [];
    }
    assert PopulationVariance(xs) == Sum(ds) / 3.0;
    RoundedRootUnique(200.0 / 3.0, 8.165);
  }

  /** Samples 12, 14 and 13: mean 13, variance 2/3, mdev 0.816. */
  lemma MdevOfTwelveFourteenThirteen()
    ensures PopulationVariance([12.0, 14.0, 13.0]) == 2.0 / 3.0
    ensures Mdev([12.0, 14.0, 13.0]) == Some(0.816)
  {
    var xs := [12.0, 14.0, 13.0];
    assert Sum(xs) == 39.0 by {
      assert xs[1..] == [14.0, 13.0] && xs[1..][1..] == [13.0] && xs[1..][1..][1..] == [];
    }
    assert Mean(xs) == 13.0;
    var ds := SquaredDeviations(xs, 13.0);
    assert ds == [1.0, 1.0, 0.0];
    assert Sum([1.0, 1.0, 0.0]) == 2.0 by {
      var es := [1.0, 1.0, 0.0];
      assert es[1..] == [1.0, 0.0] && es[1..][1..] == [0.0] && es[1..][1..][1..] == [];
    }
    assert PopulationVariance(xs) == Sum(ds) / 3.0;
    RoundedRootUnique(2.0 / 3.0, 0.816);
  }
}
