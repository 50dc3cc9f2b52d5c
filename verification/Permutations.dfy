/** Lists with the same elements equally often: what maps, filters and their lengths then share. */
module Permutations {
  import opened Base

  ghost predicate Same<T>(a: seq<T>, b: seq<T>) {
    multiset(a) == multiset(b)
  }

  lemma SameMembers<T>(a: seq<T>, b: seq<T>)
    requires Same(a, b)
    ensures |a| == |b| && forall x :: x in a <==> x in b
  {
    assert |multiset(a)| == |a| && |multiset(b)| == |b|;
    forall x
      ensures x in a <==> x in b
    {
      assert x in multiset(a) <==> x in a;
      assert x in multiset(b) <==> x in b;
    }
  }

  /** One element taken out. */
  lemma Without<T>(b: seq<T>, x: T) returns (before: seq<T>, after: seq<T>)
    requires x in b
    ensures b == before + [x] + after && multiset(before + after) == multiset(b) - multiset{x}
  {
    var j :| 0 <= j < |b| && b[j] == x;
    before, after := b[..j], b[j + 1..];
    assert b == before + [x] + after;
  }

  lemma WithoutHead<T>(a: seq<T>)
    requires |a| > 0
    ensures a == [a[0]] + a[1..] && multiset(a[1..]) == multiset(a) - multiset{a[0]}
  {
    assert a == [a[0]] + a[1..];
  }

  /** The first element of one list, taken out of the other. */
  lemma SplitSame<T>(a: seq<T>, b: seq<T>) returns (before: seq<T>, after: seq<T>)
    requires Same(a, b) && |a| > 0
    ensures b == before + [a[0]] + after && Same(a[1..], before + after)
  {
    SameMembers(a, b);
    WithoutHead(a);
    assert a[0] in b;
    before, after := Without(b, a[0]);
  }

  lemma SameJoined<T>(a: seq<T>, x: T, before: seq<T>, after: seq<T>)
    requires Same(a, before + after)
    ensures Same([x] + a, before + [x] + after)
  {
  }

  lemma {:induction false} MapPermutes<T, U>(a: seq<T>, b: seq<T>, f: T -> U)
    requires Same(a, b)
    ensures Same(Map(a, f), Map(b, f))
  {
    SameMembers(a, b);
    if |a| != 0 {
      var before, after := SplitSame(a, b);
      hide Same;
      MapPermutes(a[1..], before + after, f);
      MapConcat(before, after, f);
      MapConcat(before + [a[0]], after, f);
      MapSnoc(before, a[0], f);
      SameJoined(Map(a[1..], f), f(a[0]), Map(before, f), Map(after, f));
    }
  }

  lemma {:induction false} FilterPermutes<T>(a: seq<T>, b: seq<T>, p: T -> bool)
    requires Same(a, b)
    ensures Same(Filter(a, p), Filter(b, p))
  {
    SameMembers(a, b);
    if |a| != 0 {
      var before, after := SplitSame(a, b);
      hide Same;
      FilterPermutes(a[1..], before + after, p);
      FilterConcat(before, after, p);
      FilterConcat(before + [a[0]], after, p);
      FilterSnoc(before, a[0], p);
      if p(a[0]) { SameJoined(Filter(a[1..], p), a[0], Filter(before, p), Filter(after, p)); }
    }
  }

  /** A weaker test keeps no fewer elements. */
  lemma {:induction false} FilterMore<T>(s: seq<T>, p: T -> bool, q: T -> bool)
    requires forall x :: x in s && p(x) ==> q(x)
    ensures |Filter(s, p)| <= |Filter(s, q)|
  {
    if |s| != 0 {
      assert s == [s[0]] + s[1..];
      FilterMore(s[1..], p, q);
    }
  }
}
