/** The order in which inventories list things. */
module Sorting {
  ghost function Smallest(s: set<nat>): (x: nat)
    requires s != {}
    ensures x in s && forall y :: y in s ==> x <= y
    decreases |s|
  {
    var x :| x in s;
    var rest := s - {x};
    assert forall y :: y in s ==> y == x || y in rest;
    if rest == {} then x
    else
      var least := Smallest(rest);
      if least < x then least else x
  }

  ghost predicate Ascending(r: seq<nat>) { forall i, j :: 0 <= i < j < |r| ==> r[i] < r[j] }

  lemma SmallestFirst(x: nat, rest: seq<nat>, s: set<nat>)
    requires x in s && (forall y :: y in s ==> x <= y) && Ascending(rest) && (forall y :: y in rest <==> y in s - {x})
    ensures Ascending([x] + rest) && forall y :: y in s <==> y in [x] + rest
  {
    var r := [x] + rest;
    forall i, j | 0 <= i < j < |r|
      ensures r[i] < r[j]
    {
      assert r[j] == rest[j - 1] && rest[j - 1] in rest;
    }
    forall y
      ensures y in s <==> y in r
    {
      assert y in r <==> y == x || y in rest;
    }
  }

  /** The members of a set in ascending order. */
  ghost function Sorted(s: set<nat>): (r: seq<nat>)
    ensures (forall x :: x in s <==> x in r) && Ascending(r)
    decreases |s|
  {
    if s == {} then []
    else
      var x := Smallest(s);
      var rest := Sorted(s - {x});
      SmallestFirst(x, rest, s);
      [x] + rest
  }
}
