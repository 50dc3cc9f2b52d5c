/** Python's `sorted` on numbers, as an insertion sort on a real-valued key. */
module Sorting {
  import opened Permutations

  predicate Ascending<T>(s: seq<T>, key: T -> real) {
    forall i, j :: 0 <= i < j < |s| ==> key(s[i]) <= key(s[j])
  }

  function Insert<T>(x: T, s: seq<T>, key: T -> real): (r: seq<T>)
    ensures multiset(r) == multiset(s) + multiset{x}
  {
    if |s| == 0 || key(x) <= key(s[0]) then [x] + s
    else
      assert s == [s[0]] + s[1..];
      [s[0]] + Insert(x, s[1..], key)
  }

  function Sort<T>(s: seq<T>, key: T -> real): (r: seq<T>)
    ensures multiset(r) == multiset(s)
  {
    if |s| == 0 then [] else
      assert s == [s[0]] + s[1..];
      Insert(s[0], Sort(s[1..], key), key)
  }

  lemma {:induction false} InsertAscends<T>(x: T, s: seq<T>, key: T -> real)
    requires Ascending(s, key)
    ensures Ascending(Insert(x, s, key), key)
  {
    if |s| != 0 && key(x) > key(s[0]) {
      InsertAscends(x, s[1..], key);
      var r := Insert(x, s[1..], key);
      forall k | 0 <= k < |r|
        ensures key(s[0]) <= key(r[k])
      {
        assert r[k] in multiset(r);
        if r[k] != x {
          assert r[k] in multiset(s[1..]);
          var j :| 0 <= j < |s[1..]| && s[1..][j] == r[k];
          assert key(s[0]) <= key(s[j + 1]);
        }
      }
    }
  }

  lemma {:induction false} SortAscends<T>(s: seq<T>, key: T -> real)
    ensures Ascending(Sort(s, key), key)
  {
    if |s| != 0 {
      SortAscends(s[1..], key);
      InsertAscends(s[0], Sort(s[1..], key), key);
    }
  }

  /** The key that orders reals as they are. */
  function Self(x: real): real { x }

  /** An ascending list of reals is determined by what it contains. */
  lemma {:induction false} AscendingUnique(a: seq<real>, b: seq<real>)
    requires multiset(a) == multiset(b) && Ascending(a, Self) && Ascending(b, Self)
    ensures a == b
  {
    SameMembers(a, b);
    if |a| != 0 {
      LeadsAll(a, b);
      LeadsAll(b, a);
      WithoutFirst(a);
      WithoutFirst(b);
      AscendingUnique(a[1..], b[1..]);
      assert a == [a[0]] + a[1..] && b == [b[0]] + b[1..];
    }
  }

  lemma WithoutFirst(a: seq<real>)
    requires |a| > 0
    ensures multiset(a[1..]) == multiset(a) - multiset{a[0]}
  {
    assert a == [a[0]] + a[1..];
  }

  lemma LeadsAll(a: seq<real>, b: seq<real>)
    requires multiset(a) == multiset(b) && Ascending(a, Self) && |a| > 0 && |b| > 0
    ensures a[0] <= b[0]
  {
    SameMembers(a, b);
    assert b[0] in b && b[0] in a;
    var k :| 0 <= k < |a| && a[k] == b[0];
    assert Self(a[0]) <= Self(a[k]);
  }
}
