/** Which netdev answers to an entry, and whose it is, in terms of names, places and records alone. */
module FindLaws {
  import opened Bytes
  import opened Netns
  import opened NetnsLaws
  import LeftAlone

  /** Looking at Core's namespaces drops exactly the markers that no longer name the namespace they were made for. */
  lemma SweepsExactly(w: World)
    ensures var v := Swept(w);
            && v == w.(markers := v.markers)
            && forall s :: (s in v.markers <==> LeftAlone.Marked(w, s)) && (s in v.markers ==> v.markers[s] == w.markers[s])
  {
  }

  /** It has the interface name, in a namespace that Core made, other than the entry's own. */
  ghost predicate Astray(w: World, e: Entry, d: Wdev) {
    d in w.net.devs && w.net.devs[d].name == e.interface && w.net.devs[d].phy in w.net.phys
    && w.net.phys[w.net.devs[d].phy].In? && LeftAlone.Marked(w, w.net.phys[w.net.devs[d].phy].space)
  }

  ghost predicate Anywhere(w: World, place: Place, name: Name) { exists x :: Named(w.net, x, place, name) }

  lemma CandidateIs(w: World, e: Entry, d: Wdev)
    ensures Candidate(w, e, d) <==> Named(w.net, d, e.place, e.interface) || Named(w.net, d, Root, e.interface) || Astray(w, e, d)
  {
    if s :| s in w.markers && IsCore(w, s) && Sits(w.net, d, In(s)) {
    }
  }

  /** Among any netdevs there is one that comes first. */
  lemma FirstOf(w: World, e: Entry, ds: set<Wdev>) returns (d: Wdev)
    requires ds != {}
    ensures d in ds && forall x :: x in ds ==> Preferred(w, e, d, x)
    decreases |ds|
  {
    hide Rank;
    var x :| x in ds;
    var rest := ds - {x};
    assert forall y :: y in ds ==> y == x || y in rest;
    d := x;
    if rest != {} {
      var y := FirstOf(w, e, rest);
      if !Preferred(w, e, x, y) {
        d := y;
      }
    }
  }

  lemma FoundAmong(w: World, e: Entry, x: Wdev)
    requires Candidate(w, e, x)
    ensures FindLive(w, e).Some? && Candidate(w, e, FindLive(w, e).value) && Preferred(w, e, FindLive(w, e).value, x)
  {
    var ds := set d | d in w.net.devs && Candidate(w, e, d);
    assert x in ds;
    var d := FirstOf(w, e, ds);
    hide Candidate, Preferred;
    assert d in w.net.devs && IsLive(w, e, d);
  }

  lemma NotAmong(w: World, e: Entry, x: Wdev)
    requires forall d :: !Candidate(w, e, d)
    ensures FindLive(w, e) == Some(x) ==> Named(w.net, x, e.place, e.display)
    ensures Uniq(w.net) && e.display != e.interface && Named(w.net, x, e.place, e.display) ==> FindLive(w, e) == Some(x)
  {
    hide Candidate;
    assert e.display != e.interface && Named(w.net, x, e.place, e.display) ==> x in w.net.devs && IsLive(w, e, x);
  }

  lemma NamedApart(w: World, e: Entry)
    requires (forall d :: !Candidate(w, e, d)) && e.display == e.interface
    ensures forall d :: !Named(w.net, d, e.place, e.display)
  {
    forall d
      ensures !Named(w.net, d, e.place, e.display)
    {
      CandidateIs(w, e, d);
    }
  }

  /** Who comes first of two that are sought by interface name. */
  lemma InOrder(w: World, e: Entry, d: Wdev, x: Wdev)
    requires Uniq(w.net) && Candidate(w, e, d) && Candidate(w, e, x) && Preferred(w, e, d, x)
    ensures Named(w.net, x, e.place, e.interface) ==> d == x
    ensures !Anywhere(w, e.place, e.interface) && Named(w.net, x, Root, e.interface) ==> d == x
    ensures !Anywhere(w, e.place, e.interface) && !Anywhere(w, Root, e.interface) ==> Astray(w, e, d) && d <= x
  {
    CandidateIs(w, e, d);
    CandidateIs(w, e, x);
    assert w.net.devs[d].name == e.interface;
    assert Sits(w.net, d, e.place) ==> Named(w.net, d, e.place, e.interface);
    assert Sits(w.net, d, Root) ==> Named(w.net, d, Root, e.interface);
    hide Candidate, LeftAlone.Marked;
  }

  /**
   Looked for by interface name in the entry's own place, then in root, then in Core's other namespaces, where the oldest
   counts; and only if there is none, by display name in the entry's own place.
   */
  lemma FindsInOrder(w: World, e: Entry, x: Wdev)
    requires Uniq(w.net)
    ensures Named(w.net, x, e.place, e.interface) ==> FindLive(w, e) == Some(x)
    ensures !Anywhere(w, e.place, e.interface) && Named(w.net, x, Root, e.interface) ==> FindLive(w, e) == Some(x)
    ensures !Anywhere(w, e.place, e.interface) && !Anywhere(w, Root, e.interface) && Astray(w, e, x) ==>
              FindLive(w, e).Some? && Astray(w, e, FindLive(w, e).value) && FindLive(w, e).value <= x
    ensures (!Anywhere(w, e.place, e.interface) && !Anywhere(w, Root, e.interface) && (forall d :: !Astray(w, e, d))
             && Named(w.net, x, e.place, e.display)) ==> FindLive(w, e) == Some(x)
    ensures FindLive(w, e) == Some(x) ==>
              Named(w.net, x, e.place, e.interface) || Named(w.net, x, Root, e.interface) || Astray(w, e, x) || Named(w.net, x, e.place, e.display)
  {
    hide Uniq, LeftAlone.Marked, FindLive, Candidate, Preferred;
    CandidateIs(w, e, x);
    if Candidate(w, e, x) {
      FoundAmong(w, e, x);
      InOrder(w, e, FindLive(w, e).value, x);
    } else if d :| Candidate(w, e, d) {
      CandidateIs(w, e, d);
      FoundAmong(w, e, d);
    } else {
      NotAmong(w, e, x);
      if e.display == e.interface {
        NamedApart(w, e);
      }
    }
  }

  // ---------------------------------------------------------------- whose it is

  /** Some record at `place` under the netdev's name holds it. */
  predicate RecordedAt(w: World, d: Wdev, place: Place) {
    d in w.net.devs && (place, w.net.devs[d].name) in w.owned && w.owned[(place, w.net.devs[d].name)] == d
  }

  /** Root comes first, then the other places by name. */
  predicate Earlier(a: Place, b: Place) { b.In? && (a == Root || (a.In? && a.space < b.space)) }

  /**
   Asking whose a netdev is: a record where it is now settles it; otherwise the first one of its name left behind
   elsewhere is moved there, over whatever was recorded there; without any it is not Core's. All other records stay.
   */
  lemma AsksForRecords(w: World, d: Wdev) returns (left: Place)
    requires d in w.net.devs && w.net.devs[d].phy in w.net.phys
    ensures IsOwned(w, d) <==> exists place :: RecordedAt(w, d, place)
    ensures var here, name := w.net.phys[w.net.devs[d].phy], w.net.devs[d].name;
            if RecordedAt(w, d, here) || !IsOwned(w, d) then Rekeyed(w, d).owned == w.owned
            else
              && RecordedAt(w, d, left) && left != here && (forall place :: RecordedAt(w, d, place) ==> place == left || Earlier(left, place))
              && Rekeyed(w, d).owned == (w.owned - {(left, name)})[(here, name) := d]
    ensures Rekeyed(w, d) == w.(owned := Rekeyed(w, d).owned)
  {
    var name := w.net.devs[d].name;
    assert forall place :: RecordedAt(w, d, place) <==> place in Claimants(w, d);
    left := Root;
    if IsOwned(w, d) {
      var k := RecordOf(w, d);
      left := k.0;
      assert k == (left, name) && RecordedAt(w, d, left);
      RecordIs(w, d);
      if RecordedAt(w, d, Here(w, d).0) {
        assert (w.owned - {k})[k := d] == w.owned;
      }
    }
  }

  lemma RecordIs(w: World, d: Wdev)
    requires IsOwned(w, d) && w.net.devs[d].phy in w.net.phys
    ensures RecordedAt(w, d, Here(w, d).0) ==> RecordOf(w, d) == Here(w, d)
    ensures !RecordedAt(w, d, Here(w, d).0) ==>
              forall place :: RecordedAt(w, d, place) ==> place == RecordOf(w, d).0 || Earlier(RecordOf(w, d).0, place)
  {
    assert forall place :: RecordedAt(w, d, place) <==> place in Claimants(w, d);
  }
}
