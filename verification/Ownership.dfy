/** When a record names a netdev Core made, and what that keeps safe over every run. */
module Ownership {
  import opened Bytes
  import opened Netns
  import opened NetnsLaws
  import opened Service
  import opened ServiceLaws
  import opened UndoLaws
  import opened EntryLaws

  // ---------------------------------------------------------------- whose netdev is recorded

  predicate Elsewhere(n: Net, d: Wdev, place: Place, name: Name) { exists x :: x in n.devs && x != d && Named(n, x, place, name) }

  predicate Sibling(n: Net, d: Wdev, live: Live, name: Name) {
    exists x :: x in n.devs && x != d && n.devs[x].phy == live.phy && n.devs[x].name == name
  }

  /**
   Another netdev has the entry's display name where the new one is to be created, or will arrive there with
   the radio; on the way from one namespace to another it may lose the name in root.
   */
  predicate Clashing(n: Net, d: Wdev, e: Entry, live: Live) {
    || Elsewhere(n, d, e.place, e.display)
    || (live.place != e.place && Sibling(n, d, live, e.display)
        && !(live.place.In? && e.place.In? && Elsewhere(n, d, Root, e.display)))
  }

  lemma DeletedNames(n: Net, d: Wdev, live: Live, x: Wdev, l: Place, k: Name)
    requires Uniq(n) && Named(n, d, live.place, live.name)
    ensures Named(Without(n, live.place, live.name), x, l, k) <==> Named(n, x, l, k) && x != d
  {
    WithoutKeeps(n, live.place, live.name);
  }

  lemma CarriedName(n: Net, p: Phy, to: Place, x: Wdev, k: Name)
    requires p in n.phys && k.Given?
    ensures Named(Carried(n, p, to), x, to, k) <==>
            && x in n.devs && n.devs[x].name == k && n.devs[x].phy in n.phys
            && if n.devs[x].phy == p then !Clashes(n, x, to) else Sits(n, x, to)
  {
  }

  /** Whether a name is taken where a radio arrives. */
  lemma CarriedTaken(n: Net, p: Phy, to: Place, k: Name)
    requires p in n.phys && k.Given?
    ensures Taken(Carried(n, p, to), to, k) <==>
            (exists x :: x in n.devs && n.devs[x].name == k && (n.devs[x].phy == p || Sits(n, x, to)) && n.devs[x].phy in n.phys)
  {
    var m := Carried(n, p, to);
    if x :| x in n.devs && n.devs[x].name == k && (n.devs[x].phy == p || Sits(n, x, to)) && n.devs[x].phy in n.phys {
      CarriedName(n, p, to, x, k);
      if n.devs[x].phy == p && Clashes(n, x, to) {
        var y :| y in n.devs && n.devs[y].phy != p && Named(n, y, to, k);
        CarriedName(n, p, to, y, k);
        assert Named(m, y, to, k);
      } else {
        assert Named(m, x, to, k);
      }
    }
    if x :| x in m.devs && Named(m, x, to, k) {
      CarriedName(n, p, to, x, k);
    }
  }

  predicate OnOrAt(n: Net, p: Phy, to: Place, k: Name) {
    exists x :: x in n.devs && n.devs[x].name == k && (n.devs[x].phy == p || Sits(n, x, to)) && n.devs[x].phy in n.phys
  }

  lemma DeletedOnOrAt(n: Net, d: Wdev, live: Live, to: Place, k: Name)
    requires Uniq(n) && Named(n, d, live.place, live.name) && n.devs[d].phy == live.phy && to != live.place
    ensures OnOrAt(Without(n, live.place, live.name), live.phy, to, k) <==> Elsewhere(n, d, to, k) || Sibling(n, d, live, k)
  {
    var m := Without(n, live.place, live.name);
    WithoutKeeps(n, live.place, live.name);
    forall x
      ensures x in m.devs <==> x in n.devs && x != d
    {
      DeletedNames(n, d, live, x, live.place, live.name);
    }
    hide Without, Uniq;
    if x :| x in n.devs && x != d && n.devs[x].phy == live.phy && n.devs[x].name == k {
      assert x in m.devs;
    }
    if x :| x in n.devs && x != d && Named(n, x, to, k) {
      assert x in m.devs && Sits(m, x, to);
    }
    if x :| x in m.devs && m.devs[x].name == k && (m.devs[x].phy == live.phy || Sits(m, x, to)) && m.devs[x].phy in m.phys {
      assert x in n.devs && x != d;
      assert Sits(m, x, to) ==> Named(n, x, to, k);
    }
  }

  /** On the way through root, a sibling keeps its name unless root has it already. */
  lemma ThroughRoot(m: Net, p: Phy, to: Place, k: Name)
    requires p in m.phys && m.phys[p].In? && to.In? && to != m.phys[p] && k.Given?
    ensures OnOrAt(Carried(m, p, Root), p, to, k) <==>
            Taken(m, to, k) || ((exists x :: x in m.devs && m.devs[x].phy == p && m.devs[x].name == k) && !Taken(m, Root, k))
  {
    var c := Carried(m, p, Root);
    if x :| x in c.devs && c.devs[x].name == k && (c.devs[x].phy == p || Sits(c, x, to)) && c.devs[x].phy in c.phys {
      if c.devs[x].phy == p {
        assert m.devs[x].name == k && !Clashes(m, x, Root);
        if y :| y in m.devs && Named(m, y, Root, k) {
          assert false;
        }
      } else {
        assert Named(m, x, to, k);
      }
    }
    if x :| x in m.devs && Named(m, x, to, k) {
      assert x in c.devs && Sits(c, x, to) && c.devs[x].name == k;
    }
    if x :| x in m.devs && m.devs[x].phy == p && m.devs[x].name == k {
      if !Taken(m, Root, k) {
        assert !Clashes(m, x, Root);
        assert x in c.devs && c.devs[x].name == k && c.devs[x].phy == p;
      }
    }
  }

  lemma DeletedTaken(n: Net, d: Wdev, live: Live, place: Place, k: Name)
    requires Uniq(n) && Named(n, d, live.place, live.name)
    ensures Taken(Without(n, live.place, live.name), place, k) <==> Elsewhere(n, d, place, k)
  {
    var m := Without(n, live.place, live.name);
    forall x
      ensures Named(m, x, place, k) <==> Named(n, x, place, k) && x != d
    {
      DeletedNames(n, d, live, x, place, k);
    }
    hide Without, Uniq, Named;
    if x :| x in n.devs && x != d && Named(n, x, place, k) {
      assert Named(m, x, place, k);
      NamedIn(m, x, place, k);
    }
    if x :| x in m.devs && Named(m, x, place, k) {
      NamedIn(n, x, place, k);
    }
  }

  lemma NamedIn(n: Net, x: Wdev, place: Place, k: Name)
    requires Named(n, x, place, k)
    ensures x in n.devs
  {
  }

  /** The display name is taken when the create runs exactly if another netdev clashes beforehand. */
  lemma ArrivedTaken(n: Net, d: Wdev, e: Entry, live: Live)
    requires Uniq(n) && Named(n, d, live.place, live.name) && n.devs[d].phy == live.phy && e.display.Given?
    ensures Taken(Arrived(n, e, live), e.place, e.display) <==> Clashing(n, d, e, live)
  {
    var m := Without(n, live.place, live.name);
    WithoutKeeps(n, live.place, live.name);
    DeletedTaken(n, d, live, e.place, e.display);
    if live.place != e.place {
      DeletedOnOrAt(n, d, live, e.place, e.display);
      if live.place.In? && e.place.In? {
        DeletedTaken(n, d, live, Root, e.display);
        SiblingLeft(n, d, live, e.display);
        ThroughRoot(m, live.phy, e.place, e.display);
        CarriedTaken(Carried(m, live.phy, Root), live.phy, e.place, e.display);
      } else {
        CarriedTaken(m, live.phy, e.place, e.display);
      }
    }
    hide Without, Uniq, Named, Carried, Taken, Elsewhere;
  }

  lemma SiblingLeft(n: Net, d: Wdev, live: Live, k: Name)
    requires Uniq(n) && Named(n, d, live.place, live.name) && n.devs[d].phy == live.phy
    ensures var m := Without(n, live.place, live.name);
            (exists x :: x in m.devs && m.devs[x].phy == live.phy && m.devs[x].name == k) <==> Sibling(n, d, live, k)
  {
    var m := Without(n, live.place, live.name);
    WithoutKeeps(n, live.place, live.name);
    forall x
      ensures x in m.devs <==> x in n.devs && x != d
    {
      DeletedNames(n, d, live, x, live.place, live.name);
    }
    hide Without, Uniq;
  }

  lemma ClaimNames(n: Net, owned: map<(Place, Name), Wdev>, place: Place, name: Name)
    requires Taken(n, place, name)
    ensures var o := Claim(n, owned, place, name);
            && (place, name) in o && o[(place, name)] in n.devs && Named(n, o[(place, name)], place, name)
            && o == owned[(place, name) := o[(place, name)]]
  {
  }

  lemma LandedClaim(w: World, v: World, n: Net, e: Entry, p: Phy)
    requires Landed(w, v, n, e, p) && Uniq(v.net) && forall x :: x in n.devs ==> x < w.nextWdev
    ensures var k := (e.place, e.display);
            && k in v.owned && v.owned == w.owned[k := v.owned[k]] && Named(v.net, v.owned[k], e.place, e.display)
            && (if Taken(n, e.place, e.display) then v.owned[k] in n.devs && v.made == w.made
                else v.owned[k] == w.nextWdev && v.made == w.made + {w.nextWdev} && v.net.devs[w.nextWdev] == Dev(e.display, p, e.mode))
  {
    hide Uniq, Claim, Taken;
    if !Taken(n, e.place, e.display) {
      assert Named(v.net, w.nextWdev, e.place, e.display);
      NamedIsTaken(v.net, w.nextWdev, e.place, e.display);
    }
    ClaimNames(v.net, w.owned, e.place, e.display);
    if !Taken(n, e.place, e.display) {
      SameName(v.net, w.nextWdev, v.owned[(e.place, e.display)], e.place, e.display);
    }
  }

  lemma NamedIsTaken(n: Net, x: Wdev, place: Place, k: Name)
    requires Named(n, x, place, k)
    ensures Taken(n, place, k)
  {
  }

  lemma PreparedLands(w: World, e: Entry, live: Live)
    requires Prepared(w, e, live).1 == Done
    ensures Landed(w, Prepared(w, e, live).0, Arrived(w.net, e, live), e, live.phy)
  {
    hide Landed, Arrived, PrepareSpace, PrepareRoot;
    if e.place.In? {
      PrepareSpaceDone(w, e, live);
    } else {
      PrepareRootDone(w, e, live);
    }
  }

  /**
   A successful preparation records the netdev that stands under the entry's name. It is one that this
   preparation created exactly when no other netdev clashed beforehand; otherwise it is another one, and
   then nothing was created at all.
   */
  lemma ClaimExactly(w: World, d: Wdev, e: Entry, live: Live)
    requires WF(w) && Plain(e) && Backs(w, d, live) && Prepared(w, e, live).1 == Done
    ensures var v := Prepared(w, e, live).0; var k := (e.place, e.display);
            && k in v.owned && v.owned == w.owned[k := v.owned[k]] && Named(v.net, v.owned[k], e.place, e.display)
            && (v.owned[k] >= w.nextWdev <==> !Clashing(w.net, d, e, live))
            && (if Clashing(w.net, d, e, live) then v.owned[k] in w.net.devs && v.owned[k] != d && v.made == w.made
                else v.owned[k] == w.nextWdev && v.made == w.made + {w.nextWdev} && v.net.devs[w.nextWdev] == Dev(e.display, live.phy, e.mode))
  {
    var v := Prepared(w, e, live).0;
    var n := Arrived(w.net, e, live);
    WFUniq(w);
    PreparedWorks(w, d, e, live);
    WFUniq(v);
    hide WF, Uniq, Prepared, Arrived, Clashing, OffRadio, Claim, Landed, Taken;
    ArrivedTaken(w.net, d, e, live);
    PreparedLands(w, e, live);
    ArrivedDevs(w.net, d, e, live);
    ArrivedKnown(w, d, e, live);
    LandedClaim(w, v, n, e, live.phy);
  }

  lemma SameName(n: Net, x: Wdev, y: Wdev, place: Place, name: Name)
    requires Uniq(n) && Named(n, x, place, name) && Named(n, y, place, name)
    ensures x == y
  {
  }

  lemma ArrivedDevs(n: Net, d: Wdev, e: Entry, live: Live)
    requires Uniq(n) && Named(n, d, live.place, live.name)
    ensures Arrived(n, e, live).devs.Keys <= n.devs.Keys && d !in Arrived(n, e, live).devs
  {
    WithoutKeeps(n, live.place, live.name);
  }

  lemma ArrivedKnown(w: World, d: Wdev, e: Entry, live: Live)
    requires WF(w) && Backs(w, d, live)
    ensures forall x :: x in Arrived(w.net, e, live).devs ==> x < w.nextWdev
  {
    ArrivedDevs(w.net, d, e, live);
    hide Uniq, Picks, Housed, Distinct, Recorded, Arrived;
  }

  // ---------------------------------------------------------------- what a clash costs

  /** Two free radios in root; the second one's monitor, made by another tool, has the name 5. */
  const CLASH := World(Net(map[0 := Root, 1 := Root], map[10 := Dev(Given(0), 0, Managed), 11 := Dev(Given(5), 1, Monitor)]),
                       map[], 12, 0, {}, {}, map[], map[], [], {})

  const RENAMED := Entry(Root, Given(0), Given(5), Managed, false)

  lemma FoundIs(w: World, e: Entry, d: Wdev)
    requires Uniq(w.net) && d in w.net.devs && IsLive(w, e, d)
    ensures FindLive(w, e) == Some(d)
  {
    hide IsLive, Uniq;
    LiveUnique(w, e, d, FindLive(w, e).value);
  }

  lemma ClashIsWF()
    ensures WF(CLASH) && Swept(CLASH) == CLASH && FindLive(CLASH, RENAMED) == Some(10) && !InUse(CLASH, 10)
  {
    assert Swept(CLASH).markers == map[];
    assert IsLive(CLASH, RENAMED, 10) by {
      assert 10 in CLASH.net.devs && Candidate(CLASH, RENAMED, 10);
    }
    FoundIs(CLASH, RENAMED, 10);
  }

  /** The state the activation leaves: radio 0 has no netdev, and radio 1's counts as Core's. */
  const MISCLAIMED := CLASH.(net := Net(CLASH.net.phys, map[11 := Dev(Given(5), 1, Monitor)]), owned := map[(Root, Given(5)) := 11])

  lemma ClashActivated()
    ensures Activated(CLASH, RENAMED) == (MISCLAIMED, Up)
  {
    ClashIsWF();
    var live := LiveOf(CLASH, 10);
    var n := Without(CLASH.net, Root, Given(0));
    assert n.devs == map[11 := Dev(Given(5), 1, Monitor)];
    assert Named(n, 11, Root, Given(5));
    assert Taken(n, Root, Given(5));
    var v := PrepareRoot(CLASH, RENAMED, live).0;
    assert v.net == n;
    ClaimNames(n, map[], Root, Given(5));
    assert v.owned == Claim(n, map[], Root, Given(5));
  }

  lemma MisclaimedFound()
    ensures Swept(MISCLAIMED) == MISCLAIMED && FindLive(MISCLAIMED, RENAMED) == Some(11)
    ensures IsOwned(MISCLAIMED, 11) && Rekeyed(MISCLAIMED, 11) == MISCLAIMED
  {
    var v := MISCLAIMED;
    assert Swept(v).markers == map[];
    assert Named(v.net, 11, Root, Given(5));
    assert !exists x :: x in v.net.devs && Candidate(v, RENAMED, x);
    FoundIs(v, RENAMED, 11);
    assert (Root, Given(5)) in v.owned;
    assert RecordOf(v, 11) == (Root, Given(5));
    assert Rekeyed(v, 11).owned == v.owned;
  }

  lemma MisclaimedLost()
    ensures 11 !in RecreateInRoot(MISCLAIMED, LiveOf(MISCLAIMED, 11), Given(0)).0.net.devs
  {
    var n := Without(MISCLAIMED.net, Root, Given(5));
    assert n.devs == map[];
  }

  /**
   Without a free display name the promise fails: an activation followed by a deactivation deletes a netdev
   another tool made on another radio, while Core itself never created anything there.
   */
  lemma ClashLosesForeign()
    ensures WF(CLASH) && Plain(RENAMED) && Protected(CLASH, 11) && 11 !in CLASH.made
    ensures Clashing(CLASH.net, 10, RENAMED, LiveOf(CLASH, 10))
    ensures var v := Activated(CLASH, RENAMED).0; 11 in v.net.devs && v.net.devs[11] == CLASH.net.devs[11] && 11 !in Deactivated(v, RENAMED).0.net.devs
  {
    ClashIsWF();
    ClashActivated();
    assert Named(CLASH.net, 11, Root, Given(5));
    MisclaimedFound();
    MisclaimedLost();
    hide Activated, RecreateInRoot, Swept, FindLive, Rekeyed, WF, IsOwned;
  }
}
