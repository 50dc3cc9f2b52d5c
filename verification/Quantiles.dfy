/** Linear-interpolation quantiles and means (eval/bootstrap_ab.py, `_mean` and `_quantile`), over the reals. */
module Quantiles {
  import opened Base
  import opened Sorting

  function Sum(s: seq<real>): real {
    if |s| == 0 then 0.0 else s[0] + Sum(s[1..])
  }

  function Mean(s: seq<real>): real {
    if |s| == 0 then 0.0 else Sum(s) / (|s| as real)
  }

  predicate Within(s: seq<real>, lo: real, hi: real) {
    forall i :: 0 <= i < |s| ==> lo <= s[i] <= hi
  }

  lemma {:induction false} SumWithin(s: seq<real>, lo: real, hi: real)
    requires Within(s, lo, hi)
    ensures lo * (|s| as real) <= Sum(s) <= hi * (|s| as real)
  {
    if |s| != 0 {
      SumWithin(s[1..], lo, hi);
      assert |s| as real == |s[1..]| as real + 1.0;
    }
  }

  /** A mean lies between any bounds on what it averages. */
  lemma MeanWithin(s: seq<real>, lo: real, hi: real)
    requires Within(s, lo, hi) && |s| > 0
    ensures lo <= Mean(s) <= hi
  {
    SumWithin(s, lo, hi);
    var n := |s| as real;
    assert Mean(s) * n == Sum(s);
    ScaledOrder(lo, Mean(s), n);
    ScaledOrder(Mean(s), hi, n);
  }

  lemma Product(x: real, y: real)
    requires x >= 0.0 && y >= 0.0
    ensures x * y >= 0.0
  {
  }

  function Ceiling(x: real): (c: int)
    ensures c as real >= x && c as real - x < 1.0
    ensures x.Floor <= c <= x.Floor + 1
  {
    -((-x).Floor)
  }

  function Position(n: nat, p: real): (x: real)
    requires n > 0 && 0.0 <= p <= 1.0
    ensures 0.0 <= x <= (n - 1) as real
  {
    var top := (n - 1) as real;
    Product(top, p);
    Product(top, 1.0 - p);
    assert top * (1.0 - p) == top - top * p;
    top * p
  }

  function Interpolated(a: real, b: real, weight: real): real {
    a * (1.0 - weight) + b * weight
  }

  /** The value of a list at a real position between its first index and its last. */
  function At(s: seq<real>, position: real): real
    requires |s| > 0 && 0.0 <= position <= (|s| - 1) as real
  {
    var lower, upper := position.Floor, Ceiling(position);
    if lower == upper then s[lower]
    else Interpolated(s[lower], s[upper], position - lower as real)
  }

  datatype Error = NoValues

  /** `_quantile`; callers give a probability between 0 and 1. */
  function Quantile(s: seq<real>, probability: real): Result<real, Error>
    requires 0.0 <= probability <= 1.0
  {
    if |s| == 0 then Err(NoValues) else Ok(At(s, Position(|s|, probability)))
  }

  // ---- order ---------------------------------------------------------------

  lemma Between(a: real, b: real, w: real)
    requires a <= b && 0.0 <= w <= 1.0
    ensures a <= Interpolated(a, b, w) <= b
  {
    Product(b - a, w);
    Product(b - a, 1.0 - w);
    assert a * (1.0 - w) + b * w == a + (b - a) * w;
    assert a * (1.0 - w) + b * w == b - (b - a) * (1.0 - w);
  }

  lemma FurtherAlong(a: real, b: real, w: real, v: real)
    requires a <= b && w <= v
    ensures Interpolated(a, b, w) <= Interpolated(a, b, v)
  {
    Product(b - a, v - w);
    assert a * (1.0 - v) + b * v - (a * (1.0 - w) + b * w) == (b - a) * (v - w);
  }

  /** An interpolated value lies between its two neighbouring samples. */
  lemma AtBetweenNeighbours(s: seq<real>, x: real)
    requires |s| > 0 && 0.0 <= x <= (|s| - 1) as real && Ascending(s, Self)
    ensures s[x.Floor] <= At(s, x) <= s[Ceiling(x)]
  {
    hide Interpolated, Ceiling;
    var lower, upper := x.Floor, Ceiling(x);
    if lower != upper {
      assert Self(s[lower]) <= Self(s[upper]);
      Between(s[lower], s[upper], x - lower as real);
    }
  }

  lemma AtMonotone(s: seq<real>, x: real, y: real)
    requires |s| > 0 && 0.0 <= x <= y <= (|s| - 1) as real && Ascending(s, Self)
    ensures At(s, x) <= At(s, y)
  {
    hide Interpolated, Ceiling;
    AtBetweenNeighbours(s, x);
    AtBetweenNeighbours(s, y);
    var lower, upper := x.Floor, Ceiling(x);
    if y.Floor == lower {
      if lower == upper {
        assert At(s, x) == s[lower];
      } else {
        assert Ceiling(y) == upper;
        assert Self(s[lower]) <= Self(s[upper]);
        FurtherAlong(s[lower], s[upper], x - lower as real, y - lower as real);
      }
    } else {
      assert upper <= y.Floor;
      if upper != y.Floor { assert Self(s[upper]) <= Self(s[y.Floor]); }
    }
  }

  /** The quantile never falls when the probability grows. */
  lemma QuantileMonotone(s: seq<real>, p: real, q: real)
    requires |s| > 0 && Ascending(s, Self) && 0.0 <= p <= q <= 1.0
    ensures Quantile(s, p).value <= Quantile(s, q).value
  {
    var top := (|s| - 1) as real;
    Product(top, q - p);
    assert top * q - top * p == top * (q - p);
    assert Position(|s|, p) == top * p <= top * q == Position(|s|, q);
    AtMonotone(s, Position(|s|, p), Position(|s|, q));
  }

  /** It lies between the two samples on either side of its position. */
  lemma QuantileBetweenNeighbours(s: seq<real>, p: real)
    requires |s| > 0 && Ascending(s, Self) && 0.0 <= p <= 1.0
    ensures var x := Position(|s|, p); s[x.Floor] <= Quantile(s, p).value <= s[Ceiling(x)]
  {
    AtBetweenNeighbours(s, Position(|s|, p));
  }

  /** So any bounds on the samples bound it. */
  lemma QuantileWithin(s: seq<real>, p: real, lo: real, hi: real)
    requires |s| > 0 && Ascending(s, Self) && 0.0 <= p <= 1.0 && Within(s, lo, hi)
    ensures lo <= Quantile(s, p).value <= hi
  {
    QuantileBetweenNeighbours(s, p);
  }

  // ---- reflection ----------------------------------------------------------

  /** The list negated and turned round: the ascending list of the negated values. */
  function Reflected(s: seq<real>): (r: seq<real>)
    ensures |r| == |s|
    ensures forall i :: 0 <= i < |s| ==> r[i] == -s[|s| - 1 - i]
  {
    seq(|s|, i requires 0 <= i < |s| => -s[|s| - 1 - i])
  }

  lemma ReflectedAscends(s: seq<real>)
    requires Ascending(s, Self)
    ensures Ascending(Reflected(s), Self)
  {
    forall i, j | 0 <= i < j < |s|
      ensures Self(Reflected(s)[i]) <= Self(Reflected(s)[j])
    {
      assert Self(s[|s| - 1 - j]) <= Self(s[|s| - 1 - i]);
    }
  }

  lemma FloorOfComplement(n: int, x: real)
    ensures (n as real - x).Floor == n - Ceiling(x)
    ensures Ceiling(n as real - x) == n - x.Floor
  {
    assert (n as real - x).Floor == n + (-x).Floor;
    assert (x - n as real).Floor == x.Floor - n;
    assert -(n as real - x) == x - n as real;
  }

  /** The quantile of the reflected list is the opposite quantile, negated. */
  lemma QuantileReflects(s: seq<real>, p: real)
    requires |s| > 0 && 0.0 <= p <= 1.0
    ensures Quantile(Reflected(s), p).value == -Quantile(s, 1.0 - p).value
  {
    hide Interpolated;
    var n := |s| - 1;
    var x := Position(|s|, p);
    var y := Position(|s|, 1.0 - p);
    assert y == n as real - x;
    FloorOfComplement(n, x);
    var r := Reflected(s);
    assert r[x.Floor] == -s[Ceiling(y)];
    assert r[Ceiling(x)] == -s[y.Floor];
    if x.Floor != Ceiling(x) {
      assert Ceiling(x) == x.Floor + 1;
      var w := x - x.Floor as real;
      assert y - y.Floor as real == 1.0 - w;
      Flip(s[Ceiling(y)], s[y.Floor], w);
    }
  }

  lemma Flip(a: real, b: real, w: real)
    ensures Interpolated(-a, -b, w) == -Interpolated(b, a, 1.0 - w)
  {
  }
}
