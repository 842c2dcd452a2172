/** The radio layout as tools see it, and moves that disturb nobody's name. */
module Layout {
  import opened Bytes
  import opened Netns
  import opened NetnsLaws
  import opened Service
  import opened ServiceLaws

  /** Where the radios are and which netdevs exist, identifiers left out. */
  function Shown(n: Net): (map<Phy, Place>, set<Dev>) { (n.phys, Kinds(n)) }

  function Kinds(n: Net): set<Dev> { set d | d in n.devs :: n.devs[d] }

  function Minus(n: Net, d: Wdev): Net { n.(devs := n.devs - {d}) }

  function At(n: Net, p: Phy, place: Place): Net { n.(phys := n.phys[p := place]) }

  /** Other than `d`, no netdev of radio `p` would lose its name at `to`. */
  ghost predicate Quiet(n: Net, p: Phy, d: Wdev, to: Place) {
    forall x :: x in n.devs && x != d && n.devs[x].phy == p ==> !Clashes(n, x, to)
  }

  lemma WithoutOne(n: Net, d: Wdev, place: Place, name: Name)
    requires Uniq(n) && Named(n, d, place, name)
    ensures Without(n, place, name) == Minus(n, d)
  {
    WithoutKeeps(n, place, name);
    assert Without(n, place, name).devs == n.devs - {d};
  }

  lemma CarriedQuiet(n: Net, p: Phy, to: Place)
    requires forall x :: x in n.devs && n.devs[x].phy == p ==> !Clashes(n, x, to)
    ensures Carried(n, p, to) == At(n, p, to)
  {
    hide Clashes;
    assert Carried(n, p, to).devs == n.devs;
  }

  /** A radio without the netdev `d` moves and comes to stand at `to`. */
  lemma MinusMoved(n: Net, p: Phy, d: Wdev, to: Place)
    requires Quiet(n, p, d, to)
    ensures Carried(Minus(n, d), p, to) == At(Minus(n, d), p, to)
  {
    forall x | x in Minus(n, d).devs && n.devs[x].phy == p
      ensures !Clashes(Minus(n, d), x, to)
    {
      assert !Clashes(n, x, to);
    }
    CarriedQuiet(Minus(n, d), p, to);
  }

  /** A radio's own move does not change what its netdevs would meet elsewhere. */
  lemma QuietAt(n: Net, p: Phy, d: Wdev, place: Place, to: Place)
    requires p in n.phys
    ensures Quiet(At(n, p, place), p, d, to) <==> Quiet(n, p, d, to)
    ensures Quiet(n, p, d, to) ==> Quiet(Minus(n, d), p, d, to)
  {
    var m := At(n, p, place);
    forall x | x in n.devs && n.devs[x].phy == p
      ensures Clashes(m, x, to) <==> Clashes(n, x, to)
    {
      forall y | y in n.devs && n.devs[y].phy != p
        ensures Named(m, y, to, n.devs[x].name) <==> Named(n, y, to, n.devs[x].name)
      {
      }
    }
    forall x | x in n.devs && x != d && n.devs[x].phy == p && Clashes(Minus(n, d), x, to)
      ensures Clashes(n, x, to)
    {
    }
  }

  /** At home nobody meets a namesake. */
  lemma QuietHome(n: Net, p: Phy, d: Wdev)
    requires Uniq(n) && p in n.phys
    ensures Quiet(n, p, d, n.phys[p])
  {
    forall x | x in n.devs && n.devs[x].phy == p
      ensures !Clashes(n, x, n.phys[p])
    {
      assert Named(n, x, n.phys[p], n.devs[x].name);
    }
  }

  lemma AllMoves(w: World, p: Phy, from: Place, to: Place)
    requires w.verdicts == [] && p in w.net.phys && w.net.phys[p] == from && (to.In? ==> to.space in w.spaces)
    ensures MovePhy(w, p, from, to) == (w.(net := Carried(w.net, p, to)), true)
  {
    hide Carried;
  }
}
