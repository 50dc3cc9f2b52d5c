/** `sorted` on a set of natural numbers. */
module NatOrder {

  predicate IsLeast(m: nat, s: set<nat>) {
    m in s && forall x | x in s :: m <= x
  }

  lemma {:induction false} LeastExists(s: set<nat>)
    requires s != {}
    ensures exists m :: IsLeast(m, s)
  {
    var x :| x in s;
    if s == {x} {
      assert IsLeast(x, s);
    } else {
      LeastExists(s - {x});
      var m :| IsLeast(m, s - {x});
      var least := if m <= x then m else x;
      forall y | y in s
        ensures least <= y
      {
        if y != x { assert y in s - {x}; }
      }
      assert IsLeast(least, s);
    }
  }

  function Least(s: set<nat>): (m: nat)
    requires s != {}
    ensures IsLeast(m, s)
  {
    LeastExists(s);
    var m :| IsLeast(m, s);
    m
  }

  function Ordered(s: set<nat>): (r: seq<nat>)
    ensures forall x :: x in r <==> x in s
    ensures forall i, j :: 0 <= i < j < |r| ==> r[i] < r[j]
  {
    if s == {} then [] else [Least(s)] + Ordered(s - {Least(s)})
  }

  lemma OrderedNonempty(s: set<nat>)
    ensures |Ordered(s)| == 0 <==> s == {}
  {
    if s != {} {
      var x :| x in s;
      assert x in Ordered(s);
    }
  }
}
