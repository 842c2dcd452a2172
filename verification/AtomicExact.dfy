/** Exactly when a preparation that fails puts everything back: the condition is needed, not only enough. */
module AtomicExact {
  import opened Bytes
  import opened Netns
  import opened NetnsLaws
  import opened Service
  import opened ServiceLaws
  import opened UndoLaws
  import opened EntryLaws
  import opened Layout
  import opened Atomic

  /** The command after `k` others fails, and no other one. */
  function Failing(k: nat): (vs: seq<bool>)
    ensures |vs| == k + 1 && vs[0] == (k > 0) && (k > 0 ==> vs[1..] == Failing(k - 1)) && OneFailure(vs)
  {
    if k == 0 then [false] else [true] + Failing(k - 1)
  }

  /** How many commands precede bringing the new netdev up. */
  function Commands(w: World, e: Entry, live: Live): nat {
    (if e.place.In? && e.place.space !in w.spaces then 2 else 0) + 1
    + (if live.place == e.place then 0 else if live.place.In? && e.place.In? then 2 else 1) + 1
  }

  /** No netdev is like this any more. */
  ghost predicate Lost(n: Net, dev: Dev) { forall y :: y in n.devs ==> n.devs[y] != dev }

  /** The kernel would not pick this name for a netdev of `n`. */
  ghost predicate Unpicked(n: Net, name: Name) { forall y :: y in n.devs ==> name != Picked(y) }

  lemma LostCarried(n: Net, p: Phy, to: Place, dev: Dev)
    requires Lost(n, dev) && Unpicked(n, dev.name)
    ensures Lost(Carried(n, p, to), dev) && Unpicked(Carried(n, p, to), dev.name)
  {
    hide Clashes;
  }

  lemma LostWithout(n: Net, place: Place, name: Name, dev: Dev)
    requires Unpicked(n, dev.name)
    ensures Unpicked(Without(n, place, name), dev.name)
    ensures Lost(n, dev) ==> Lost(Without(n, place, name), dev)
    ensures dev.name == name && dev.phy in n.phys && n.phys[dev.phy] == place ==> Lost(Without(n, place, name), dev)
  {
    WithoutKeeps(n, place, name);
    hide Without, Uniq, Picks, Known;
  }

  lemma LostWith(n: Net, d: Wdev, added: Dev, dev: Dev)
    requires Lost(n, dev) && added.name != dev.name
    ensures Lost(With(n, d, added), dev)
  {
  }

  /** A traveller that meets a namesake loses its name, and nobody else takes it up. */
  lemma RenamedLost(n: Net, p: Phy, to: Place, x: Wdev)
    requires Uniq(n) && Picks(n) && p in n.phys && x in n.devs && n.devs[x].phy == p && Clashes(n, x, to)
    ensures Lost(Carried(n, p, to), n.devs[x]) && Unpicked(n, n.devs[x].name)
  {
    var z :| z in n.devs && n.devs[z].phy != p && Named(n, z, to, n.devs[x].name);
    var m := Carried(n, p, to);
    forall y | y in n.devs
      ensures m.devs[y] != n.devs[x] && n.devs[x].name != Picked(y)
    {
      if y != x && n.devs[y].phy == p {
        assert Named(n, x, n.phys[p], n.devs[x].name) && Named(n, y, n.phys[p], n.devs[y].name);
      }
    }
  }

  // ---------------------------------------------------------------- the undo cannot bring it back

  /** Moving home and recreating the original brings back no netdev of another name. */
  lemma PutBackLoses(w: World, live: Live, newName: Name, movedTo: Place, dev: Dev)
    requires w.verdicts == [] && Unpicked(w.net, dev.name) && dev.name != live.name && dev.phy == live.phy
    requires Lost(w.net, dev) || (dev.name == newName && HalfMade(w, live, newName, movedTo))
    ensures Lost(PutBack(w, live, newName, movedTo).net, dev)
  {
    hide Lost, Unpicked, Carried, Without, Taken, HalfMade;
    var (w1, ok1) := if HalfMade(w, live, newName, movedTo) then DeleteDev(w, movedTo, newName) else (w, true);
    LostWithout(w.net, movedTo, newName, dev);
    HalfMadeIs(w, live, newName, movedTo);
    var (w2, ok2) := if movedTo != live.place && movedTo.In? then MovePhy(w1, live.phy, movedTo, Root) else (w1, true);
    LostCarried(w1.net, live.phy, Root, dev);
    if ok2 {
      var (w3, ok3) := if movedTo != live.place && live.place.In? then MovePhy(w2, live.phy, Root, live.place) else (w2, true);
      LostCarried(w2.net, live.phy, live.place, dev);
      if ok3 {
        LostWith(w3.net, w3.nextWdev, Dev(live.name, live.phy, live.mode), dev);
      }
    }
  }

  lemma HalfMadeIs(w: World, live: Live, newName: Name, movedTo: Place)
    ensures HalfMade(w, live, newName, movedTo) ==> live.phy in w.net.phys && w.net.phys[live.phy] == movedTo
  {
  }

  /** Dropping the namespace again leaves the netdevs alone. */
  lemma RestoredLoses(w: World, live: Live, newName: Name, movedTo: Place, created: Option<Label>, dev: Dev)
    requires w.verdicts == [] && Unpicked(w.net, dev.name) && dev.name != live.name && dev.phy == live.phy
    requires Lost(w.net, dev) || (dev.name == newName && HalfMade(w, live, newName, movedTo))
    ensures Lost(Restored(w, live, newName, movedTo, created).net, dev)
  {
    hide PutBack, Lost, Unpicked, HalfMade;
    PutBackLoses(w, live, newName, movedTo, dev);
  }

  /** Where bringing the netdev up fails, a traveller that lost its name, or had the entry's, is gone for good. */
  lemma SetUpLoses(w: World, e: Entry, live: Live, created: Option<Label>, dev: Dev)
    requires w.verdicts == Failing(1) && live.phy in w.net.phys && w.net.phys[live.phy] == e.place
    requires Unpicked(w.net, dev.name) && dev.name != live.name && dev.phy == live.phy && e.display.Given?
    requires w.nextWdev !in w.net.devs && dev.name != Picked(w.nextWdev)
    requires Lost(w.net, dev) || (dev.name == e.display && exists y :: y in w.net.devs && w.net.devs[y] == dev)
    ensures SetUp(w, e, live, created).1 == Raised && Lost(SetUp(w, e, live, created).0.net, dev)
  {
    hide Taken, Restored, Claim, Failing;
    assert Failing(1) == [true] + Failing(0) && Failing(0) == [false] by { FailingIs(); }
    var (w1, ok1) := CreateDev(w, live.phy, e.place, e.display, e.mode);
    var (w2, ok2) := Ask(w1);
    assert ok1 && !ok2 && w2.verdicts == [];
    CreatedOrNot(w, e, live, dev);
    RestoredLoses(w2, live, e.display, e.place, created, dev);
  }

  lemma FailingIs()
    ensures Failing(1) == [true] + Failing(0) && Failing(0) == [false]
  {
  }

  lemma CreatedOrNot(w: World, e: Entry, live: Live, dev: Dev)
    requires live.phy in w.net.phys && w.net.phys[live.phy] == e.place && dev.phy == live.phy && w.nextWdev !in w.net.devs
    requires Unpicked(w.net, dev.name) && dev.name != Picked(w.nextWdev) && w.verdicts != [] && w.verdicts[0]
    requires Lost(w.net, dev) || (dev.name == e.display && exists y :: y in w.net.devs && w.net.devs[y] == dev)
    ensures var v := CreateDev(w, live.phy, e.place, e.display, e.mode).0;
            && Unpicked(v.net, dev.name) && (Lost(v.net, dev) || (dev.name == e.display && HalfMade(v, live, e.display, e.place)))
  {
    var v := CreateDev(w, live.phy, e.place, e.display, e.mode).0;
    if y :| y in w.net.devs && w.net.devs[y] == dev && dev.name == e.display {
      assert Named(v.net, y, e.place, e.display);
    } else if !Taken(w.net, e.place, e.display) {
      assert Named(v.net, w.nextWdev, e.place, e.display);
    }
  }

  // ---------------------------------------------------------------- the way there

  /** The netdev `x`, once like `dev`, is still so or has lost its name for good. */
  ghost predicate Still(m: Net, x: Wdev, dev: Dev) { x in m.devs && m.devs[x] == dev }

  ghost predicate Gone(m: Net, dev: Dev) { Lost(m, dev) && Unpicked(m, dev.name) }

  lemma HopLoses(m: Net, p: Phy, to: Place, x: Wdev, dev: Dev)
    requires Uniq(m) && Picks(m) && p in m.phys && dev.phy == p && (Still(m, x, dev) || Gone(m, dev))
    ensures Still(Carried(m, p, to), x, dev) || Gone(Carried(m, p, to), dev)
    ensures Still(m, x, dev) && Clashes(m, x, to) ==> Gone(Carried(m, p, to), dev)
  {
    if Gone(m, dev) {
      LostCarried(m, p, to, dev);
    } else if Clashes(m, x, to) {
      RenamedLost(m, p, to, x);
      assert Unpicked(Carried(m, p, to), dev.name);
    }
  }

  /** Another radio's netdev is where it was, whatever happened to `d` and to its radio. */
  lemma StillClashes(n: Net, d: Wdev, p: Phy, x: Wdev, to: Place, place: Place)
    requires x in n.devs && x != d && n.devs[x].phy == p && d in n.devs && n.devs[d].phy == p && p in n.phys && Clashes(n, x, to)
    ensures Clashes(Minus(n, d), x, to)
    ensures Still(Carried(Minus(n, d), p, place), x, n.devs[x]) ==> Clashes(Carried(Minus(n, d), p, place), x, to)
  {
    var z :| z in n.devs && n.devs[z].phy != p && Named(n, z, to, n.devs[x].name);
    assert Named(Minus(n, d), z, to, n.devs[x].name);
    assert Named(Carried(Minus(n, d), p, place), z, to, n.devs[x].name);
  }

  /** A sibling that stands in the way. */
  predicate InTheWay(n: Net, d: Wdev, e: Entry, live: Live, x: Wdev) {
    && x in n.devs && x != d && n.devs[x].phy == live.phy
    && (n.devs[x].name == e.display ||
        (live.place != e.place && (Clashes(n, x, e.place) || (live.place.In? && Clashes(n, x, Root)))))
  }

  lemma SomeoneInTheWay(n: Net, d: Wdev, e: Entry, live: Live) returns (x: Wdev)
    requires !Smooth(n, d, e, live)
    ensures InTheWay(n, d, e, live, x)
  {
    x :| x in n.devs && InTheWay(n, d, e, live, x);
  }

  /** When its radio arrives, a sibling in the way is gone, or has the entry's name. */
  lemma ArrivesGone(n: Net, d: Wdev, e: Entry, live: Live, x: Wdev)
    requires Uniq(n) && Picks(n) && Backed(n, d, live) && InTheWay(n, d, e, live, x)
    ensures var m, dev := Arrived(n, e, live), n.devs[x]; Gone(m, dev) || (dev.name == e.display && Still(m, x, dev))
  {
    var p, dev := live.phy, n.devs[x];
    var m := Minus(n, d);
    WithoutOne(n, d, live.place, live.name);
    WithoutKeeps(n, live.place, live.name);
    hide Without, Carried, Clashes, Lost, Unpicked, Uniq, Picks;
    if live.place != e.place {
      if live.place.In? && e.place.In? {
        HopLoses(m, p, Root, x, dev);
        CarriedKeeps(m, p, Root);
        var m1 := Carried(m, p, Root);
        assert p in m1.phys by { CarriedThere(m, p, Root); }
        HopLoses(m1, p, e.place, x, dev);
        if Clashes(n, x, Root) {
          StillClashes(n, d, p, x, Root, Root);
        }
        if Clashes(n, x, e.place) {
          StillClashes(n, d, p, x, e.place, Root);
        }
      } else {
        HopLoses(m, p, e.place, x, dev);
        if Clashes(n, x, e.place) {
          StillClashes(n, d, p, x, e.place, e.place);
        }
      }
    }
  }

  lemma CarriedThere(m: Net, p: Phy, to: Place)
    ensures p in Carried(m, p, to).phys
  {
  }

  // ---------------------------------------------------------------- the last command fails

  lemma DeleteFailing(w: World, place: Place, name: Name, k: nat)
    requires w.verdicts == Failing(k) && k > 0
    ensures DeleteDev(w, place, name) == (w.(net := Without(w.net, place, name), verdicts := Failing(k - 1)), true)
  {
    hide Without;
  }

  lemma MoveFailing(w: World, p: Phy, from: Place, to: Place, k: nat)
    requires w.verdicts == Failing(k) && k > 0 && p in w.net.phys && w.net.phys[p] == from && (to.In? ==> to.space in w.spaces)
    ensures MovePhy(w, p, from, to) == (w.(net := Carried(w.net, p, to), verdicts := Failing(k - 1)), true)
  {
    hide Carried;
  }

  lemma ReadyFailing(w: World, s: Label, k: nat)
    requires w.verdicts == Failing(k) && k >= 2
    ensures var (v, out, created) := SpaceReady(w, s);
            && out == Done && s in v.spaces && v.net == w.net && v.nextWdev == w.nextWdev
            && v.verdicts == Failing(if s in w.spaces then k else k - 2)
  {
    hide Failing;
    if s !in w.spaces {
      assert w.verdicts[1..] == Failing(k - 1) && w.verdicts[0] && Failing(k - 1)[0] && Failing(k - 1)[1..] == Failing(k - 2);
    }
  }

  /** Reaching the failing command, with the netdevs as they have arrived. */
  lemma ReachesSetUp(w: World, d: Wdev, e: Entry, live: Live) returns (u: World, created: Option<Label>)
    requires WF(w) && Backed(w.net, d, live) && w.verdicts == Failing(Commands(w, e, live))
    ensures u.net == Arrived(w.net, e, live) && u.nextWdev == w.nextWdev && u.verdicts == Failing(1)
    ensures Prepared(w, e, live) == SetUp(u, e, live, created)
    ensures live.phy in u.net.phys && u.net.phys[live.phy] == e.place
  {
    Live0(w, d, live);
    hide WF, Failing, DeleteDev, MovePhy, SetUp, SpaceReady, Without, Carried, Restored;
    var k := Commands(w, e, live);
    var n := w.net;
    created := None;
    var w1 := w;
    if e.place.In? {
      ReadyFailing(w, e.place.space, k);
      w1 := SpaceReady(w, e.place.space).0;
      created := SpaceReady(w, e.place.space).2;
    }
    var left := Commands(w, e, live) - (if e.place.In? && e.place.space !in w.spaces then 2 else 0);
    DeleteFailing(w1, live.place, live.name, left);
    var w2 := w1.(net := Without(n, live.place, live.name), verdicts := Failing(left - 1));
    WithoutPhys(n, live.place, live.name);
    CarriedPhys(w2.net, live.phy);
    if live.place == e.place {
      u := w2;
    } else if live.place.In? && e.place.In? {
      SpacesGrow(w, e.place.space);
      MoveFailing(w2, live.phy, live.place, Root, left - 1);
      var w3 := w2.(net := Carried(w2.net, live.phy, Root), verdicts := Failing(left - 2));
      CarriedPhys(w3.net, live.phy);
      MoveFailing(w3, live.phy, Root, e.place, left - 2);
      u := w3.(net := Carried(w3.net, live.phy, e.place), verdicts := Failing(left - 3));
    } else {
      MoveFailing(w2, live.phy, live.place, e.place, left - 1);
      u := w2.(net := Carried(w2.net, live.phy, e.place), verdicts := Failing(left - 2));
    }
  }

  lemma SpacesGrow(w: World, s: Label)
    ensures forall t :: t in w.spaces && SpaceReady(w, s).1 == Done ==> t in SpaceReady(w, s).0.spaces
  {
  }

  lemma WithoutPhys(n: Net, place: Place, name: Name)
    ensures Without(n, place, name).phys == n.phys
  {
  }

  lemma CarriedPhys(n: Net, p: Phy)
    ensures forall to :: p in Carried(n, p, to).phys && Carried(n, p, to).phys[p] == to
  {
  }

  lemma SiblingFacts(w: World, d: Wdev, e: Entry, live: Live, x: Wdev)
    requires WF(w) && Backed(w.net, d, live) && InTheWay(w.net, d, e, live, x)
    ensures w.net.devs[x].name != live.name && w.net.devs[x].name != Picked(w.nextWdev)
    ensures w.nextWdev !in Arrived(w.net, e, live).devs
  {
    assert Named(w.net, x, live.place, w.net.devs[x].name);
    WithoutKeeps(w.net, live.place, live.name);
    hide Housed, Distinct, Recorded, Picks, Clashes;
  }

  /** With a sibling in the way, a failure of the last command loses it: afterwards no netdev is like it. */
  lemma LosesSibling(w: World, d: Wdev, e: Entry, live: Live)
    requires WF(w) && Plain(e) && Backed(w.net, d, live) && w.verdicts == Failing(Commands(w, e, live)) && !Smooth(w.net, d, e, live)
    ensures Prepared(w, e, live).1 == Raised && Shown(Prepared(w, e, live).0.net) != Shown(w.net)
    ensures exists x :: InTheWay(w.net, d, e, live, x) && Lost(Prepared(w, e, live).0.net, w.net.devs[x])
  {
    WFUniq(w);
    WFPicks(w);
    hide WF, Uniq, Picks, Prepared, SetUp, Smooth, Arrived, Failing, Clashes, Lost, Unpicked;
    var x := SomeoneInTheWay(w.net, d, e, live);
    var dev := w.net.devs[x];
    var u, created := ReachesSetUp(w, d, e, live);
    ArrivesGone(w.net, d, e, live, x);
    SiblingFacts(w, d, e, live, x);
    GivenUnpicked(u.net, dev.name);
    SetUpLoses(u, e, live, created, dev);
    LostShows(w.net, Prepared(w, e, live).0.net, x);
  }

  lemma WFPicks(w: World)
    requires WF(w)
    ensures Picks(w.net)
  {
  }

  lemma GivenUnpicked(n: Net, name: Name)
    ensures name.Given? ==> Unpicked(n, name)
  {
  }

  lemma LostShows(n: Net, m: Net, x: Wdev)
    requires x in n.devs && Lost(m, n.devs[x])
    ensures Shown(m) != Shown(n)
  {
    assert n.devs[x] in Kinds(n) && n.devs[x] !in Kinds(m);
  }

  /** If the preparation fails with these command outcomes, the layout is as before. */
  ghost predicate Restores(w: World, e: Entry, live: Live, vs: seq<bool>) {
    var v := w.(verdicts := vs);
    Prepared(v, e, live).1 != Done ==> Shown(Prepared(v, e, live).0.net) == Shown(w.net)
  }

  /**
   Whichever single command fails, a failed preparation puts the whole layout back, exactly if no other netdev of
   the radio has the entry's display name or loses its own to a namesake on the way.
   */
  lemma AtomicExactly(w: World, d: Wdev, e: Entry, live: Live)
    requires WF(w) && Plain(e) && Backed(w.net, d, live)
    requires forall s :: s in w.markers ==> IsCore(w, s)
    requires e.place.In? && e.place.space !in w.spaces ==> e.place.space !in w.busy
    ensures Smooth(w.net, d, e, live) <==> forall k: nat :: Restores(w, e, live, Failing(k))
  {
    hide WF, Prepared, Smooth, Failing, Backed, Shown;
    if Smooth(w.net, d, e, live) {
      forall k: nat
        ensures Restores(w, e, live, Failing(k))
      {
        VerdictsFree(w, Failing(k));
        if Prepared(w.(verdicts := Failing(k)), e, live).1 != Done {
          FailureAtomic(w.(verdicts := Failing(k)), d, e, live);
        }
      }
    } else {
      var k := Commands(w, e, live);
      VerdictsFree(w, Failing(k));
      LosesSibling(w.(verdicts := Failing(k)), d, e, live);
      assert !Restores(w, e, live, Failing(k));
    }
  }

  lemma VerdictsFree(w: World, vs: seq<bool>)
    requires WF(w)
    ensures WF(w.(verdicts := vs))
  {
    hide Uniq, Known, Picks;
  }

  // ---------------------------------------------------------------- a sibling lost

  /** One radio in root with the entry's netdev and a monitor, made by another tool, that has the entry's display name. */
  const CROWDED := World(Net(map[0 := Root], map[10 := Dev(Given(0), 0, Managed), 11 := Dev(Given(5), 0, Monitor)]),
                         map[], 12, 0, {}, {}, map[], map[], Failing(5), {})

  const CROWDING := Entry(In(7), Given(0), Given(5), Monitor, false)

  const MANAGED_LIVE := Live(Given(0), 0, Root, Managed)

  lemma CrowdedMeets()
    ensures WF(CROWDED) && Plain(CROWDING) && Backed(CROWDED.net, 10, MANAGED_LIVE)
    ensures !Smooth(CROWDED.net, 10, CROWDING, MANAGED_LIVE) && CROWDED.verdicts == Failing(Commands(CROWDED, CROWDING, MANAGED_LIVE))
    ensures forall x :: InTheWay(CROWDED.net, 10, CROWDING, MANAGED_LIVE, x) ==> x == 11
  {
    hide Failing;
    assert 11 in CROWDED.net.devs && CROWDED.net.devs[11].name == CROWDING.display;
  }

  /** The netdev cannot be brought up, the undo's commands all work, and the monitor is gone for good. */
  lemma ExampleLosesSibling()
    ensures CROWDED.net.devs[11] == Dev(Given(5), 0, Monitor)
    ensures var (v, out) := Prepared(CROWDED, CROWDING, MANAGED_LIVE); out == Raised && Lost(v.net, Dev(Given(5), 0, Monitor))
  {
    hide WF, Prepared, Failing, Lost, InTheWay, Smooth, Commands, Shown;
    CrowdedMeets();
    LosesSibling(CROWDED, 10, CROWDING, MANAGED_LIVE);
  }

  // ---------------------------------------------------------------- a namespace left behind

  /** One radio in root; creating and preparing the namespace will work, and then the delete will fail. */
  const LATE := World(Net(map[0 := Root], map[10 := Dev(Given(0), 0, Managed)]), map[], 11, 0, {}, {}, map[], map[], [true, true, false], {})

  lemma LateMeets()
    ensures WF(LATE) && Backed(LATE.net, 10, MANAGED_LIVE) && OneFailure(LATE.verdicts) && Smooth(LATE.net, 10, CROWDING, MANAGED_LIVE)
    ensures DeleteFailsLate(LATE, CROWDING) && SpaceReady(LATE, 7) == (LATE.(spaces := map[7 := 0], nextSpace := 1, markers := map[7 := 0], verdicts := [false]), Done, Some(7))
  {
    assert [true, true, false][1..] == [true, false] && [true, false][1..] == [false];
    assert OneFailure([true, true, false]);
    assert map[][7 := 0] == map[7 := 0];
  }

  /** The radio and its netdev are untouched, but an empty namespace that counts as Core's is left behind. */
  lemma ExampleLeavesSpace()
    ensures LATE.spaces == map[]
    ensures var (v, out) := Prepared(LATE, CROWDING, MANAGED_LIVE);
            && out == Raised && v.net == LATE.net && v.spaces == map[7 := 0] && IsCore(v, 7) && Vacant(v.net, 7)
  {
    LateMeets();
    hide SpaceReady, SetUp, Relocate;
  }
}
