/** The Gini coefficient (eval/bootstrap_ab.py, `_gini`): the rank-weighted formula, and the mean difference it stands for. */
module GiniCoefficient {
  import opened Base
  import opened Permutations
  import opened Sorting

  function SumOf(s: seq<nat>, f: nat -> int): int {
    if |s| == 0 then 0 else SumOf(s[..|s| - 1], f) + f(s[|s| - 1])
  }

  function Itself(x: nat): int { x }

  function Total(s: seq<nat>): int { SumOf(s, Itself) }

  /** The sum of `(index + 1) * value` over the list. */
  function Weighted(s: seq<nat>): int {
    if |s| == 0 then 0 else Weighted(s[..|s| - 1]) + |s| * s[|s| - 1]
  }

  function AsReal(x: nat): real { x as real }

  function Gini(counts: seq<nat>): real {
    var total := Total(counts);
    if total == 0 || |counts| <= 1 then 0.0
    else
      var ordered := Sort(counts, AsReal);
      SameMembers(ordered, counts);
      NonNegative(counts);
      (2.0 * Weighted(ordered) as real) / ((|ordered| * total) as real)
      - ((|ordered| + 1) as real) / (|ordered| as real)
  }

  // ---- the reference: every pair's distance --------------------------------

  function Distance(x: nat): nat -> int {
    (y: nat) => if x <= y then y - x else x - y
  }

  /** What one count is away from all the others together. */
  function Spread(s: seq<nat>): nat -> int {
    (x: nat) => SumOf(s, Distance(x))
  }

  /** The sum of `|x - y|` over all ordered pairs of positions. */
  function Pairwise(s: seq<nat>): int {
    SumOf(s, Spread(s))
  }

  // ---- sums ----------------------------------------------------------------

  lemma {:induction false} NonNegative(s: seq<nat>)
    ensures Total(s) >= 0
    ensures Total(s) == 0 <==> forall i :: 0 <= i < |s| ==> s[i] == 0
  {
    if |s| != 0 {
      var u := s[..|s| - 1];
      NonNegative(u);
      assert forall i :: 0 <= i < |u| ==> u[i] == s[i];
      assert (forall i :: 0 <= i < |s| ==> s[i] == 0)
        <==> (forall i :: 0 <= i < |u| ==> u[i] == 0) && s[|s| - 1] == 0;
    }
  }

  lemma SumSnoc(s: seq<nat>, x: nat, f: nat -> int)
    ensures SumOf(s + [x], f) == SumOf(s, f) + f(x)
  {
    assert (s + [x])[..|s|] == s;
  }

  lemma {:induction false} SumAdd(s: seq<nat>, f: nat -> int, g: nat -> int, h: nat -> int)
    requires forall x :: h(x) == f(x) + g(x)
    ensures SumOf(s, h) == SumOf(s, f) + SumOf(s, g)
  {
    if |s| != 0 { SumAdd(s[..|s| - 1], f, g, h); }
  }

  lemma {:induction false} SumSame(s: seq<nat>, f: nat -> int, g: nat -> int)
    requires forall x :: f(x) == g(x)
    ensures SumOf(s, f) == SumOf(s, g)
  {
    if |s| != 0 { SumSame(s[..|s| - 1], f, g); }
  }

  /** A sum may take one element first. */
  lemma {:induction false} SumWithout(s: seq<nat>, k: nat, f: nat -> int)
    requires k < |s|
    ensures SumOf(s, f) == SumOf(s[..k] + s[k + 1..], f) + f(s[k])
  {
    var n := |s| - 1;
    if k == n {
      assert s[..k] + s[k + 1..] == s[..n];
    } else {
      var t := s[..n];
      SumWithout(t, k, f);
      assert t[k] == s[k];
      assert t[..k] + t[k + 1..] == s[..k] + s[k + 1..n];
      assert s[..k] + s[k + 1..] == (s[..k] + s[k + 1..n]) + [s[n]];
      SumSnoc(s[..k] + s[k + 1..n], s[n], f);
    }
  }

  lemma RemoveAt(s: seq<nat>, k: nat)
    requires k < |s|
    ensures multiset(s[..k] + s[k + 1..]) == multiset(s) - multiset{s[k]}
  {
    assert s == s[..k] + [s[k]] + s[k + 1..];
  }

  /** The order of the terms does not matter. */
  lemma {:induction false} SumPermutes(a: seq<nat>, b: seq<nat>, f: nat -> int)
    requires multiset(a) == multiset(b)
    ensures SumOf(a, f) == SumOf(b, f)
  {
    SameMembers(a, b);
    if |a| != 0 {
      var n := |a| - 1;
      var x := a[n];
      assert x in b;
      var k :| 0 <= k < |b| && b[k] == x;
      RemoveAt(b, k);
      RemoveAt(a, n);
      assert a[..n] + a[n + 1..] == a[..n];
      SumPermutes(a[..n], b[..k] + b[k + 1..], f);
      SumWithout(b, k, f);
    }
  }

  lemma PairwisePermutes(a: seq<nat>, b: seq<nat>)
    requires multiset(a) == multiset(b)
    ensures Pairwise(a) == Pairwise(b)
  {
    SumPermutes(a, b, Spread(a));
    forall x: nat
      ensures Spread(a)(x) == Spread(b)(x)
    {
      SumPermutes(a, b, Distance(x));
    }
    SumSame(b, Spread(a), Spread(b));
  }

  // ---- the identity --------------------------------------------------------

  /** Above every element, the distances are differences. */
  lemma {:induction false} DistanceFromTop(s: seq<nat>, m: nat)
    requires forall i :: 0 <= i < |s| ==> s[i] <= m
    ensures SumOf(s, Distance(m)) == |s| * m - Total(s)
  {
    if |s| != 0 {
      DistanceFromTop(s[..|s| - 1], m);
    }
  }

  lemma DistanceSymmetric(x: nat, y: nat)
    ensures Distance(x)(y) == Distance(y)(x)
  {
  }

  /** One more element adds its distances twice: once as the first of a pair, once as the second. */
  lemma PairwiseSnoc(s: seq<nat>, m: nat)
    ensures Pairwise(s + [m]) == Pairwise(s) + 2 * SumOf(s, Distance(m))
  {
    var t := s + [m];
    SumSnoc(s, m, Spread(t));
    forall x: nat
      ensures Spread(t)(x) == Spread(s)(x) + Distance(m)(x)
    {
      SumSnoc(s, m, Distance(x));
      DistanceSymmetric(x, m);
    }
    SumAdd(s, Spread(s), Distance(m), Spread(t));
    assert Distance(m)(m) == 0;
  }

  /** On an ascending list the pairwise distances are twice the rank-weighted excess. */
  lemma {:induction false} PairwiseIsRankWeighted(s: seq<nat>)
    requires Ascending(s, AsReal)
    ensures Pairwise(s) == 2 * (2 * Weighted(s) - (|s| + 1) * Total(s))
  {
    if |s| != 0 {
      var n := |s|;
      var u, m := s[..n - 1], s[n - 1];
      assert s == u + [m];
      forall i | 0 <= i < |u|
        ensures u[i] <= m
      {
        assert AsReal(s[i]) <= AsReal(s[n - 1]);
      }
      PairwiseIsRankWeighted(u);
      PairwiseSnoc(u, m);
      DistanceFromTop(u, m);
      Regroup(n, Weighted(u), Total(u), m);
    }
  }

  lemma Regroup(n: int, w: int, t: int, m: int)
    ensures 2 * (2 * w - n * t) + 2 * ((n - 1) * m - t) == 2 * (2 * (w + n * m) - (n + 1) * (t + m))
  {
    assert (n + 1) * (t + m) == n * t + n * m + t + m;
    assert (n - 1) * m == n * m - m;
  }

  // ---- what the coefficient means ------------------------------------------

  /** The same identity before sorting, and without the division. */
  lemma GiniScaled(counts: seq<nat>)
    requires Total(counts) != 0 && |counts| > 1
    ensures Total(counts) > 0
    ensures Gini(counts) == Pairwise(counts) as real / ((2 * |counts| * Total(counts)) as real)
  {
    var ordered := Sort(counts, AsReal);
    SortAscends(counts, AsReal);
    SameMembers(ordered, counts);
    PairwiseIsRankWeighted(ordered);
    PairwisePermutes(ordered, counts);
    SumPermutes(ordered, counts, Itself);
    NonNegative(counts);
    Divide(Weighted(ordered), |counts|, Total(counts));
  }

  lemma Divide(w: int, n: int, t: int)
    requires n > 0 && t > 0
    ensures n * t > 0 && 2 * n * t > 0
    ensures (2.0 * w as real) / ((n * t) as real) - ((n + 1) as real) / (n as real)
         == (2 * (2 * w - (n + 1) * t)) as real / ((2 * n * t) as real)
  {
    var a, b, wr := n as real, t as real, w as real;
    assert n * t > 0;
    assert 2 * n * t == 2 * (n * t);
    assert (n * t) as real == a * b;
    assert ((n + 1) * t) as real == (a + 1.0) * b;
    Fractions(wr, a, b);
  }

  lemma Fractions(w: real, a: real, b: real)
    requires a > 0.0 && b > 0.0 && a * b > 0.0
    ensures (2.0 * w) / (a * b) - (a + 1.0) / a == (2.0 * (2.0 * w - (a + 1.0) * b)) / (2.0 * (a * b))
  {
    var q := a * b;
    var x := (2.0 * w) / q;
    var y := (a + 1.0) / a;
    assert x * q == 2.0 * w;
    assert y * a == a + 1.0;
    assert y * q == (y * a) * b;
    assert (x - y) * (2.0 * q) == 2.0 * (2.0 * w - (a + 1.0) * b);
    var z := (2.0 * (2.0 * w - (a + 1.0) * b)) / (2.0 * q);
    assert z * (2.0 * q) == 2.0 * (2.0 * w - (a + 1.0) * b);
    Cancel(x - y, z, 2.0 * q);
  }

  lemma Cancel(x: real, z: real, q: real)
    requires q > 0.0 && x * q == z * q
    ensures x == z
  {
    assert (x - z) * q == 0.0;
  }

  lemma {:induction false} SumZero(s: seq<nat>, f: nat -> int)
    requires forall x :: f(x) >= 0
    ensures SumOf(s, f) >= 0
    ensures SumOf(s, f) == 0 <==> forall i :: 0 <= i < |s| ==> f(s[i]) == 0
  {
    if |s| != 0 {
      var u := s[..|s| - 1];
      SumZero(u, f);
      assert forall i :: 0 <= i < |u| ==> u[i] == s[i];
      assert f(s[|s| - 1]) >= 0;
      if forall i :: 0 <= i < |u| ==> f(u[i]) == 0 {
        assert forall i :: 0 <= i < |s| && i != |s| - 1 ==> s[i] == u[i];
      }
    }
  }

  predicate AllEqual(s: seq<nat>) {
    forall i, j :: 0 <= i < |s| && 0 <= j < |s| ==> s[i] == s[j]
  }

  lemma PairwiseZero(s: seq<nat>)
    ensures Pairwise(s) >= 0
    ensures Pairwise(s) == 0 <==> AllEqual(s)
  {
    forall x: nat
      ensures Spread(s)(x) >= 0
      ensures Spread(s)(x) == 0 <==> forall i :: 0 <= i < |s| ==> Distance(x)(s[i]) == 0
    {
      SumZero(s, Distance(x));
    }
    SumZero(s, Spread(s));
    forall i | 0 <= i < |s|
      ensures Spread(s)(s[i]) == 0 <==> forall j :: 0 <= j < |s| ==> s[i] == s[j]
    {
      assert forall j :: 0 <= j < |s| ==> (Distance(s[i])(s[j]) == 0 <==> s[i] == s[j]);
    }
    assert AllEqual(s) <==> forall i :: 0 <= i < |s| ==> Spread(s)(s[i]) == 0;
  }

  lemma {:induction false} WeightedAtMost(s: seq<nat>)
    ensures Weighted(s) <= |s| * Total(s)
  {
    if |s| != 0 {
      var n, u, m := |s|, s[..|s| - 1], s[|s| - 1];
      WeightedAtMost(u);
      NonNegative(u);
      assert n * (Total(u) + m) == (n - 1) * Total(u) + Total(u) + n * m;
    }
  }

  /** No list is more unequal than one that puts everything on a single element. */
  lemma PairwiseAtMost(s: seq<nat>)
    requires |s| >= 1
    ensures Pairwise(s) <= 2 * ((|s| - 1) * Total(s))
  {
    var ordered := Sort(s, AsReal);
    SortAscends(s, AsReal);
    SameMembers(ordered, s);
    PairwiseIsRankWeighted(ordered);
    PairwisePermutes(ordered, s);
    SumPermutes(ordered, s, Itself);
    WeightedAtMost(ordered);
    var n, t := |s|, Total(s);
    assert 2 * (n * t) - (n + 1) * t == (n - 1) * t;
  }

  lemma Undivided(g: real, p: int, n: int, t: int)
    requires n > 0 && t > 0 && 2 * n * t > 0 && g == p as real / ((2 * n * t) as real)
    ensures g * ((2 * n * t) as real) == p as real
  {
  }

  /** The sorted, weighted formula is the mean absolute difference over twice the mean, on every input. */
  lemma GiniIsMeanDifference(counts: seq<nat>)
    ensures Gini(counts) * ((2 * |counts| * Total(counts)) as real) == Pairwise(counts) as real
  {
    if Total(counts) == 0 {
      NonNegative(counts);
      PairwiseZero(counts);
    } else if |counts| <= 1 {
      PairwiseZero(counts);
    } else {
      hide Gini, Pairwise, Total;
      GiniScaled(counts);
      Undivided(Gini(counts), Pairwise(counts), |counts|, Total(counts));
    }
  }

  /** It lies between 0 and `1 - 1/n`, and is 0 exactly when nothing is favoured. */
  lemma GiniBounds(counts: seq<nat>)
    ensures Gini(counts) >= 0.0
    ensures |counts| >= 1 ==> Gini(counts) <= 1.0 - 1.0 / (|counts| as real)
    ensures Gini(counts) == 0.0 <==> AllEqual(counts)
  {
    var n, t := |counts|, Total(counts);
    PairwiseZero(counts);
    NonNegative(counts);
    if n >= 1 { PairwiseAtMost(counts); }
    if t != 0 && n > 1 {
      GiniScaled(counts);
      Bounded(Gini(counts), Pairwise(counts), n, t);
    } else if n >= 1 {
      assert 1.0 / (n as real) <= 1.0;
    }
  }

  lemma CapTimes(a: real, b: real, cap: real)
    requires a > 0.0 && cap == 1.0 - 1.0 / a
    ensures cap * (2.0 * (a * b)) == 2.0 * ((a - 1.0) * b)
  {
    assert cap * a == a - 1.0;
    assert cap * (2.0 * (a * b)) == 2.0 * ((cap * a) * b);
  }

  lemma Bounded(g: real, p: int, n: int, t: int)
    requires n > 1 && t > 0 && 2 * n * t > 0 && 0 <= p <= 2 * ((n - 1) * t)
    requires g == p as real / ((2 * n * t) as real)
    ensures 0.0 <= g <= 1.0 - 1.0 / (n as real)
    ensures g == 0.0 <==> p == 0
  {
    var a, b := n as real, t as real;
    Undivided(g, p, n, t);
    assert 2 * n * t == 2 * (n * t);
    assert (2 * n * t) as real == 2.0 * (a * b);
    assert (2 * ((n - 1) * t)) as real == 2.0 * ((a - 1.0) * b);
    BoundedReal(g, p as real, a, b, (2 * n * t) as real);
  }

  lemma BoundedReal(g: real, p: real, a: real, b: real, d: real)
    requires a > 1.0 && d > 0.0 && d == 2.0 * (a * b)
    requires g * d == p && 0.0 <= p <= 2.0 * ((a - 1.0) * b)
    ensures 0.0 <= g <= 1.0 - 1.0 / a
    ensures g == 0.0 <==> p == 0.0
  {
    var cap := 1.0 - 1.0 / a;
    CapTimes(a, b, cap);
    ScaledOrder(g, cap, d);
    ScaledOrder(0.0, g, d);
    ScaledOrder(g, 0.0, d);
  }

  /** Counting the same selections in another order changes nothing. */
  lemma GiniOrderFree(a: seq<nat>, b: seq<nat>)
    requires multiset(a) == multiset(b)
    ensures Gini(a) == Gini(b)
  {
    SameMembers(a, b);
    SumPermutes(a, b, Itself);
    if Total(a) != 0 && |a| > 1 {
      GiniScaled(a);
      GiniScaled(b);
      PairwisePermutes(a, b);
    }
  }
}
