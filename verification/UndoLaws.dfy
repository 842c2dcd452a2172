/** Undoing a profile never touches what another tool owns. */
module UndoLaws {
  import opened Bytes
  import opened Sorting
  import opened Netns
  import opened NetnsLaws
  import opened Service
  import opened ServiceLaws

  /** A netdev Core may not undo: in root and not Core's, or in a namespace that is not Core's. */
  predicate Protected(w: World, d: Wdev) {
    && d in w.net.devs && w.net.devs[d].phy in w.net.phys
    && match w.net.phys[w.net.devs[d].phy]
       case Root => !IsOwned(w, d)
       case In(s) => !IsCore(w, s)
  }

  /** Protected netdevs, and foreign namespaces with the radios in them, are exactly as they were and still protected. */
  ghost predicate Unharmed(w: World, v: World) {
    && (forall d :: d in w.net.devs && Protected(w, d) ==>
          && d in v.net.devs && v.net.devs[d] == w.net.devs[d]
          && w.net.devs[d].phy in v.net.phys && v.net.phys[w.net.devs[d].phy] == w.net.phys[w.net.devs[d].phy]
          && Protected(v, d))
    && (forall s :: s in w.spaces && !IsCore(w, s) ==> s in v.spaces && v.spaces[s] == w.spaces[s] && !IsCore(v, s))
    && (forall p, s :: p in w.net.phys && w.net.phys[p] == In(s) && !IsCore(w, s) ==>
          p in v.net.phys && v.net.phys[p] == In(s) && !IsCore(v, s))
  }

  lemma UnharmedSelf(w: World)
    ensures Unharmed(w, w)
  {
  }

  lemma UnharmedTrans(w: World, v: World, u: World)
    requires Unharmed(w, v) && Unharmed(v, u)
    ensures Unharmed(w, u)
  {
    hide IsOwned, IsCore, Protected;
  }

  /** Records only ever shrink, and no foreign namespace becomes Core's. */
  ghost predicate Shrinks(w: World, v: World) {
    && (forall d :: d in v.net.devs && IsOwned(v, d) && d in w.net.devs && w.net.devs[d].name == v.net.devs[d].name ==> IsOwned(w, d))
    && (forall s :: IsCore(v, s) ==> IsCore(w, s))
    && (forall s :: s in w.spaces && !IsCore(w, s) ==> s in v.spaces && v.spaces[s] == w.spaces[s])
  }

  /** Work on a radio that sits in one of Core's namespaces. */
  lemma CoreRadioUnharmed(w: World, v: World, p: Phy, s: Label)
    requires OffRadio(w.net, v.net, p) && Shrinks(w, v) && Known(w.net, w.nextWdev)
    requires p in w.net.phys && w.net.phys[p] == In(s) && IsCore(w, s)
    ensures Unharmed(w, v)
  {
    hide IsOwned, IsCore;
  }

  lemma SweptIsSame(w: World)
    ensures forall s :: IsCore(Swept(w), s) <==> IsCore(w, s)
    ensures WF(w) ==> WF(Swept(w))
    ensures forall d :: IsOwned(Swept(w), d) <==> IsOwned(w, d)
    ensures forall d :: Protected(Swept(w), d) <==> Protected(w, d)
    ensures Unharmed(w, Swept(w))
  {
    hide Uniq, Known, Picks;
  }

  // ---------------------------------------------------------------- reverting from a Core namespace

  lemma FewerRecords(w: World, v: World)
    requires v.spaces == w.spaces && v.markers == w.markers
    requires forall k :: k in v.owned ==> k in w.owned && v.owned[k] == w.owned[k]
    ensures Shrinks(w, v)
  {
  }

  lemma DropShrinks(w: World, s: Label)
    requires WF(w) && IsCore(w, s)
    ensures Shrinks(w, DropSpaceIfEmpty(w, s))
  {
    DropWorks(w, s);
    hide WF, DropSpaceIfEmpty;
  }

  lemma ShrinksTrans(w: World, v: World, u: World)
    requires Shrinks(w, v) && Shrinks(v, u) && u.net == v.net
    ensures Shrinks(w, u)
  {
    hide IsCore;
  }

  lemma RevertFromCore(w: World, live: Live, name: Name)
    requires WF(w) && name.Given? && live.place.In? && IsCore(w, live.place.space)
    requires exists d :: Named(w.net, d, live.place, live.name) && w.net.devs[d].phy == live.phy
    ensures var (u, out) := RecreateInRoot(w, live, name);
            && Unharmed(w, u) && WF(u)
            && (IsCore(u, live.place.space) ==> Unharmed(w, DropSpaceIfEmpty(u, live.place.space)))
  {
    RecreateWorks(w, live, name);
    var (u, out) := RecreateInRoot(w, live, name);
    FewerRecords(w, u);
    assert live.phy in w.net.phys && w.net.phys[live.phy] == live.place;
    hide WF, OffRadio, RecreateInRoot, Shrinks, IsCore, Unharmed, DropSpaceIfEmpty;
    assert Known(w.net, w.nextWdev) by { WFKnown(w); }
    CoreRadioUnharmed(w, u, live.phy, live.place.space);
    if IsCore(u, live.place.space) {
      DropWorks(u, live.place.space);
      DropShrinks(u, live.place.space);
      ShrinksTrans(w, u, DropSpaceIfEmpty(u, live.place.space));
      CoreRadioUnharmed(w, DropSpaceIfEmpty(u, live.place.space), live.phy, live.place.space);
    }
  }

  lemma WFKnown(w: World)
    requires WF(w)
    ensures Known(w.net, w.nextWdev)
  {
  }

  // ---------------------------------------------------------------- reverting in root

  /** Every other netdev is as it was, and no radio moved. */
  ghost predicate OnlyDev(n: Net, m: Net, d: Wdev) {
    m.phys == n.phys && forall x :: x in n.devs && x != d ==> x in m.devs && m.devs[x] == n.devs[x]
  }

  lemma WithoutOnly(n: Net, d: Wdev, place: Place, name: Name)
    requires Uniq(n) && Named(n, d, place, name)
    ensures OnlyDev(n, Without(n, place, name), d) && d !in Without(n, place, name).devs
    ensures forall x :: x in Without(n, place, name).devs ==> x in n.devs
  {
    WithoutKeeps(n, place, name);
    assert forall x :: x in n.devs && x != d ==> !Named(n, x, place, name);
    hide Without, Named, Uniq;
  }

  lemma CreatedOnly(n: Net, w: World, d: Wdev, p: Phy, place: Place, name: Name, mode: Mode)
    requires WF(w) && OnlyDev(n, w.net, d) && Reusable(w, name) && (forall x :: x in n.devs ==> x < w.nextWdev)
    ensures OnlyDev(n, CreateDev(w, p, place, name, mode).0.net, d)
  {
    CreateDevKeeps(w, p, place, name, mode);
    hide WF, CreateDev, Taken, OffRadio;
  }

  lemma RestoredHere(w: World, live: Live, name: Name)
    requires live.place == Root && !HalfMade(w, live, name, Root)
    ensures Restored(w, live, name, Root, None) == CreateDev(w, live.phy, Root, live.name, live.mode).0
  {
    hide CreateDev, HalfMade;
  }

  lemma OldDevs(w: World)
    requires WF(w)
    ensures forall x :: x in w.net.devs ==> x < w.nextWdev
  {
  }

  /** Recreating in place touches no other netdev, as long as the new name is free or the live one's. */
  lemma RecreateHere(w: World, d: Wdev, live: Live, name: Name)
    requires WF(w) && name.Given? && live.place == Root && Named(w.net, d, Root, live.name) && live == LiveOf(w, d)
    requires forall x :: Named(w.net, x, Root, name) ==> x == d
    ensures OnlyDev(w.net, RecreateInRoot(w, live, name).0.net, d)
  {
    hide WF, Without, DeleteDev, CreateDev, Taken, OffRadio, OnlyDev, Restored, With;
    var w0 := Released(w, Root, live.name);
    ReleasedWorks(w, Root, live.name, live.phy);
    DeleteDevKeeps(w0, Root, live.name);
    WFUniq(w);
    OldDevs(w);
    WithoutOnly(w.net, d, Root, live.name);
    OnlySelf(w.net, d);
    var (w1, ok1) := DeleteDev(w0, Root, live.name);
    if ok1 {
      DeletedIsReusable(w0, live);
      CreateDevKeeps(w1, live.phy, Root, name, Managed);
      CreatedOnly(w.net, w1, d, live.phy, Root, name, Managed);
      var (w3, ok3) := CreateDev(w1, live.phy, Root, name, Managed);
      if !ok3 {
        NoneNamed(w.net, w3.net, d, name);
        assert !HalfMade(w3, live, name, Root);
        RestoredHere(w3, live, name);
        CreatedOnly(w.net, w3, d, live.phy, Root, live.name, live.mode);
      }
    }
  }

  lemma OnlySelf(n: Net, d: Wdev)
    ensures OnlyDev(n, n, d)
  {
  }

  lemma NoneNamed(n: Net, m: Net, d: Wdev, name: Name)
    requires OnlyDev(n, m, d) && d !in m.devs && (forall x :: x in m.devs ==> x in n.devs)
    requires forall x :: Named(n, x, Root, name) ==> x == d
    ensures forall x :: !Named(m, x, Root, name)
  {
    forall x | Named(m, x, Root, name)
      ensures Named(n, x, Root, name)
    {
    }
  }

  // ---------------------------------------------------------------- which netdev an entry means

  lemma LiveUnique(w: World, e: Entry, a: Wdev, b: Wdev)
    requires Uniq(w.net) && a in w.net.devs && b in w.net.devs && IsLive(w, e, a) && IsLive(w, e, b)
    ensures a == b
  {
    hide Candidate, Rank;
  }

  /** The lookup depends on the netdevs and on which namespaces are Core's, not on the records. */
  lemma FindSame(w: World, v: World, e: Entry)
    requires Uniq(w.net) && v.net == w.net && forall s :: IsCore(v, s) <==> IsCore(w, s)
    ensures FindLive(v, e) == FindLive(w, e)
  {
    forall d
      ensures Candidate(v, e, d) <==> Candidate(w, e, d)
    {
      VisibleSame(w, v, e, d);
    }
    forall d
      ensures IsLive(v, e, d) <==> IsLive(w, e, d)
    {
      hide Candidate;
      LiveSame(w, v, e, d);
    }
    hide IsLive;
    var a, b := FindLive(w, e), FindLive(v, e);
    if a.Some? && b.Some? {
      LiveUnique(w, e, a.value, b.value);
    }
  }

  lemma VisibleSame(w: World, v: World, e: Entry, d: Wdev)
    requires v.net == w.net && forall s :: IsCore(v, s) <==> IsCore(w, s)
    ensures Visible(v, e, d) <==> Visible(w, e, d)
  {
    forall s | s in v.markers && IsCore(v, s)
      ensures s in w.markers
    {
      assert IsCore(w, s);
    }
    forall s | s in w.markers && IsCore(w, s)
      ensures s in v.markers
    {
      assert IsCore(v, s);
    }
  }

  lemma LiveSame(w: World, v: World, e: Entry, d: Wdev)
    requires v.net == w.net && forall x :: Candidate(v, e, x) <==> Candidate(w, e, x)
    ensures IsLive(v, e, d) <==> IsLive(w, e, d)
  {
    hide Candidate;
    assert forall x :: Rank(v, e, x) == Rank(w, e, x);
  }

  /** In root, the entry's interface name is free or is the live netdev's own. */
  lemma LiveHoldsName(w: World, e: Entry, d: Wdev)
    requires Uniq(w.net) && d in w.net.devs && IsLive(w, e, d) && Sits(w.net, d, Root)
    ensures forall x :: Named(w.net, x, Root, e.interface) ==> x == d
  {
    forall x | Named(w.net, x, Root, e.interface)
      ensures x == d
    {
      assert x in w.net.devs && Candidate(w, e, x);
      assert Candidate(w, e, d);
      assert Named(w.net, d, Root, e.interface);
    }
  }

  // ---------------------------------------------------------------- one entry

  ghost predicate Plain(e: Entry) { e.interface.Given? && e.display.Given? }

  lemma OneDevUnharmed(w: World, v: World, d: Wdev)
    requires OnlyDev(w.net, v.net, d) && Shrinks(w, v) && !Protected(w, d)
    ensures Unharmed(w, v)
  {
    hide IsOwned, IsCore;
  }

  /** A revert that Core may do harms nobody else. */
  lemma RevertUnharmed(w: World, e: Entry)
    requires WF(w) && Plain(e)
    requires var found := FindLive(Swept(w), e); found.Some? ==> !Protected(w, found.value)
    ensures WF(Reverted(w, e).0) && Unharmed(w, Reverted(w, e).0)
  {
    hide WF, Unharmed, IsCore, IsOwned, Protected, IsLive, RecreateInRoot, DropSpaceIfEmpty, Swept, Shrinks, OffRadio;
    SweptIsSame(w);
    var v := Swept(w);
    var found := FindLive(v, e);
    if found.Some? {
      var d := found.value;
      var live := LiveOf(v, d);
      assert Named(v.net, d, live.place, live.name);
      if live.place == Root {
        assert Uniq(v.net) by { WFUniq(v); }
        LiveHoldsName(v, e, d);
        RootRevertUnharmed(v, e, d, live);
        UnharmedTrans(w, v, Reverted(w, e).0);
      } else {
        UnprotectedSpace(v, d, live.place.space);
        RevertFromCore(v, live, e.interface);
        var (u, out) := RecreateInRoot(v, live, e.interface);
        if IsCore(u, live.place.space) {
          DropWorks(u, live.place.space);
        }
        UnharmedTrans(w, v, Reverted(w, e).0);
      }
    }
  }

  lemma WFUniq(w: World)
    requires WF(w)
    ensures Uniq(w.net)
  {
  }

  lemma UnprotectedSpace(w: World, d: Wdev, s: Label)
    requires Sits(w.net, d, In(s)) && !Protected(w, d)
    ensures IsCore(w, s)
  {
  }

  lemma RootRevertUnharmed(v: World, e: Entry, d: Wdev, live: Live)
    requires WF(v) && Plain(e) && Named(v.net, d, Root, live.name) && live == LiveOf(v, d) && live.place == Root
    requires !Protected(v, d) && forall x :: Named(v.net, x, Root, e.interface) ==> x == d
    ensures var u := if live.name != e.interface || live.mode != Managed then RecreateInRoot(v, live, e.interface).0
                     else Released(Ask(v).0, Root, live.name);
            WF(u) && Unharmed(v, u)
  {
    hide WF, Unharmed, IsCore, IsOwned, Protected, RecreateInRoot, Shrinks, OffRadio;
    if live.name != e.interface || live.mode != Managed {
      RecreateHere(v, d, live, e.interface);
      RecreateWorks(v, live, e.interface);
      FewerRecords(v, RecreateInRoot(v, live, e.interface).0);
      OneDevUnharmed(v, RecreateInRoot(v, live, e.interface).0, d);
    } else {
      var u := Released(Ask(v).0, Root, live.name);
      ReleasedWorks(v, Root, live.name, live.phy);
      AskKeeps(Released(v, Root, live.name));
      assert u == Ask(Released(v, Root, live.name)).0;
      FewerRecords(v, u);
      OneDevUnharmed(v, u, d);
    }
  }

  lemma AskKeeps(w: World)
    requires WF(w)
    ensures WF(Ask(w).0) && Ask(w).0 == w.(verdicts := Ask(w).0.verdicts)
  {
  }

  // ---------------------------------------------------------------- deactivating

  lemma RekeyedKeeps(w: World, d: Wdev)
    requires WF(w) && Sits(w.net, d, Root) && IsOwned(w, d)
    ensures WF(Rekeyed(w, d)) && IsOwned(Rekeyed(w, d), d) && Unharmed(w, Rekeyed(w, d))
    ensures Rekeyed(w, d) == w.(owned := Rekeyed(w, d).owned)
  {
    hide Uniq, Known, Picks;
    var u := Rekeyed(w, d);
    assert Here(w, d) in u.owned;
    forall x | x in w.net.devs && x != d && IsOwned(u, x)
      ensures IsOwned(w, x)
    {
      var k :| k in u.owned && k.1 == w.net.devs[x].name && u.owned[k] == x;
      assert k in w.owned;
    }
  }

  lemma ReleasedUnharmed(w: World, d: Wdev, name: Name)
    requires WF(w) && d in w.net.devs && !Protected(w, d)
    ensures WF(Released(w, Root, name)) && Unharmed(w, Released(w, Root, name))
  {
    hide Uniq, Known, Picks, Unharmed, Shrinks;
    FewerRecords(w, Released(w, Root, name));
    OneDevUnharmed(w, Released(w, Root, name), d);
  }

  /** Neither dropping stale markers nor the records change which netdev an entry means. */
  lemma StaysLive(v: World, u: World, e: Entry)
    requires WF(v) && u == v.(owned := u.owned)
    ensures FindLive(Swept(u), e) == FindLive(v, e)
  {
    assert Uniq(v.net);
    hide Uniq, Known, Picks, FindLive;
    SweptIsSame(u);
    assert forall s :: IsCore(Swept(u), s) <==> IsCore(v, s);
    FindSame(v, Swept(u), e);
  }

  lemma InCoreOrOwned(w: World, d: Wdev)
    requires d in w.net.devs && w.net.devs[d].phy in w.net.phys
    ensures (match w.net.phys[w.net.devs[d].phy] case Root => IsOwned(w, d) case In(s) => IsCore(w, s)) ==> !Protected(w, d)
  {
  }

  /** Deactivating an entry harms nothing that is not Core's, whichever commands fail. */
  lemma UndoSafe(w: World, e: Entry)
    requires WF(w) && Plain(e)
    ensures WF(Deactivated(w, e).0) && Unharmed(w, Deactivated(w, e).0)
  {
    hide WF, Unharmed, IsCore, IsOwned, Protected, IsLive, Reverted, Swept, Shrinks;
    SweptIsSame(w);
    var v := Swept(w);
    var found := FindLive(v, e);
    if found.Some? {
      var d := found.value;
      var place := v.net.phys[v.net.devs[d].phy];
      if place.In? {
        if IsCore(v, place.space) {
          InCoreOrOwned(v, d);
          StaysLive(v, v, e);
          RevertUnharmed(v, e);
          UnharmedTrans(w, v, Reverted(v, e).0);
        }
      } else if IsOwned(v, d) {
        var u := Rekeyed(v, d);
        RekeyedKeeps(v, d);
        InCoreOrOwned(u, d);
        UnharmedTrans(w, v, u);
        if InUse(u, d) {
          ReleasedUnharmed(u, d, u.net.devs[d].name);
          UnharmedTrans(w, u, Deactivated(w, e).0);
        } else {
          StaysLive(v, u, e);
          RevertUnharmed(u, e);
          UnharmedTrans(w, u, Deactivated(w, e).0);
        }
      }
    }
  }

  lemma AllUndoSafe(w: World, es: seq<Entry>)
    requires WF(w) && forall e :: e in es ==> Plain(e)
    ensures WF(DeactivatedAll(w, es)) && Unharmed(w, DeactivatedAll(w, es))
    decreases |es|
  {
    hide WF, Unharmed, Deactivated;
    if es == [] {
      UnharmedSelf(w);
    } else {
      var v := Deactivated(w, es[0]).0;
      UndoSafe(w, es[0]);
      AllUndoSafe(v, es[1..]);
      UnharmedTrans(w, v, DeactivatedAll(v, es[1..]));
    }
  }

  // ---------------------------------------------------------------- returning whole namespaces

  /** What asking about ownership may do: move records, and nothing else. */
  ghost predicate Tidied(w: World, v: World) { v == w.(owned := v.owned) && (WF(w) ==> WF(v)) && Shrinks(w, v) }

  lemma RekeyedTidies(w: World, d: Wdev)
    requires d in w.net.devs
    ensures Tidied(w, Rekeyed(w, d))
  {
    hide Uniq, Known, Picks;
    var u := Rekeyed(w, d);
    if WF(w) {
      assert forall k :: k in u.owned ==> u.owned[k] < u.nextWdev by { KnownOlder(w, d); }
    }
    forall x | x in w.net.devs && IsOwned(u, x)
      ensures IsOwned(w, x)
    {
      var k :| k in u.owned && k.1 == w.net.devs[x].name && u.owned[k] == x;
      assert x != d ==> k in w.owned;
    }
  }

  lemma KnownOlder(w: World, d: Wdev)
    requires WF(w) && d in w.net.devs
    ensures d < w.nextWdev
  {
  }

  lemma ShrinksAfter(w: World, v: World, u: World)
    requires Shrinks(w, v) && Shrinks(v, u) && v.net == w.net
    ensures Shrinks(w, u)
  {
    hide IsCore;
  }

  lemma {:induction false} CheckedTidies(w: World, ds: seq<Wdev>)
    requires forall d :: d in ds ==> d in w.net.devs
    ensures Tidied(w, Checked(w, ds).0)
    decreases |ds|
  {
    hide WF, Rekeyed, IsOwned, IsCore;
    if ds == [] {
      FewerRecords(w, w);
    } else {
      RekeyedTidies(w, ds[0]);
      var v := Rekeyed(w, ds[0]);
      CheckedTidies(v, ds[1..]);
      hide Shrinks;
      ShrinksAfter(w, v, Checked(v, ds[1..]).0);
    }
  }

  lemma {:induction false} ReleasedAllTidies(w: World, s: Label, names: seq<Name>)
    ensures var v := ReleasedAll(w, s, names);
            && v == w.(owned := v.owned) && (WF(w) ==> WF(v)) && (forall k :: k in v.owned ==> k in w.owned && v.owned[k] == w.owned[k])
    decreases |names|
  {
    hide Uniq, Known, Picks, Housed, Distinct;
    if names != [] {
      ReleasedAllTidies(Released(w, In(s), names[0]), s, names[1..]);
    }
  }

  lemma MoveShrinks(w: World, p: Phy, s: Label)
    requires WF(w)
    ensures Shrinks(w, MovePhy(w, p, In(s), Root).0)
  {
    MoveWorks(w, p, In(s), Root);
    FewerRecords(w, MovePhy(w, p, In(s), Root).0);
  }

  /** The steps of a radio's way home: ask, move, release. */
  lemma HomewardSteps(w: World, s: Label, p: Phy) returns (v: World, u: World)
    requires WF(w)
    ensures Tidied(w, v) && WF(v) && u == MovePhy(v, p, In(s), Root).0 && WF(u) && SameRecords(v, u) && OffRadio(w.net, u.net, p)
    ensures var t := Homeward(w, s, p);
            t == u.(owned := t.owned) && WF(t) && forall k :: k in t.owned ==> k in u.owned && t.owned[k] == u.owned[k]
  {
    hide WF, OffRadio, MovePhy, Checked, Shrinks, ReleasedAll, Travellers;
    var ds := Sorted(Travellers(w.net, s, p));
    TravellersIn(w.net, s, p);
    CheckedTidies(w, ds);
    v := Checked(w, ds).0;
    u := MovePhy(v, p, In(s), Root).0;
    MoveWorks(v, p, In(s), Root);
    ReleasedAllTidies(u, s, Checked(w, ds).1);
  }

  lemma TravellersIn(n: Net, s: Label, p: Phy)
    ensures forall d :: d in Sorted(Travellers(n, s, p)) ==> d in n.devs
  {
  }

  /** One radio going home from one of Core's namespaces. */
  lemma HomeSafe(w: World, p: Phy, s: Label)
    requires WF(w) && IsCore(w, s) && p in w.net.phys && w.net.phys[p] == In(s)
    ensures var t := Homeward(w, s, p); WF(t) && Unharmed(w, t) && t.spaces == w.spaces && t.markers == w.markers
  {
    hide WF, Unharmed, IsCore, Shrinks, MovePhy, Homeward, OffRadio;
    var v, u := HomewardSteps(w, s, p);
    var t := Homeward(w, s, p);
    MoveShrinks(v, p, s);
    FewerRecords(u, t);
    ShrinksTrans(v, u, t);
    ShrinksAfter(w, v, t);
    WFKnown(w);
    CoreRadioUnharmed(w, t, p, s);
  }

  lemma ReturnPhysSafe(w: World, s: Label, radios: seq<Phy>)
    requires WF(w) && IsCore(w, s)
    ensures var v := ReturnPhys(w, s, radios); WF(v) && Unharmed(w, v) && v.spaces == w.spaces && v.markers == w.markers
    decreases |radios|
  {
    hide WF, Unharmed, Homeward;
    UnharmedSelf(w);
    if radios != [] {
      var p := radios[0];
      if p in w.net.phys && w.net.phys[p] == In(s) {
        HomeSafe(w, p, s);
        ReturnPhysSafe(Homeward(w, s, p), s, radios[1..]);
        UnharmedTrans(w, Homeward(w, s, p), ReturnPhys(w, s, radios));
      } else {
        ReturnPhysSafe(w, s, radios[1..]);
      }
    }
  }

  lemma DropUnharmed(w: World, s: Label)
    requires WF(w) && IsCore(w, s)
    ensures Unharmed(w, DropSpaceIfEmpty(w, s))
    ensures forall t :: t != s && IsCore(w, t) ==> IsCore(DropSpaceIfEmpty(w, s), t)
  {
    DropWorks(w, s);
    hide WF, DropSpaceIfEmpty, IsOwned;
    assert forall d :: IsOwned(DropSpaceIfEmpty(w, s), d) <==> IsOwned(w, d) by { OwnedSame(w, DropSpaceIfEmpty(w, s)); }
  }

  lemma OwnedSame(w: World, v: World)
    requires v.net == w.net && v.owned == w.owned
    ensures forall d :: IsOwned(v, d) <==> IsOwned(w, d)
  {
  }

  /** Returning Core's namespaces harms nothing outside them, whichever commands fail. */
  lemma ReturnAllSafe(w: World, names: seq<Label>, radios: seq<Phy>)
    requires WF(w) && ListsCore(w, names)
    ensures WF(ReturnAll(w, names, radios)) && Unharmed(w, ReturnAll(w, names, radios))
    decreases |names|
  {
    hide WF, Unharmed, ReturnPhys, DropSpaceIfEmpty;
    UnharmedSelf(w);
    if names != [] {
      var v := ReturnPhys(w, names[0], radios);
      ReturnPhysSafe(w, names[0], radios);
      var u := DropSpaceIfEmpty(v, names[0]);
      DropWorks(v, names[0]);
      DropUnharmed(v, names[0]);
      UnharmedTrans(w, v, u);
      forall i | 0 <= i < |names[1..]|
        ensures IsCore(u, names[1..][i])
      {
        assert IsCore(w, names[i + 1]) && names[i + 1] != names[0];
      }
      ReturnAllSafe(u, names[1..], radios);
      UnharmedTrans(w, u, ReturnAll(u, names[1..], radios));
    }
  }

  /** So does the homecoming, whatever is recorded. */
  lemma HomecomingSafe(w: World)
    requires WF(w)
    ensures WF(Homecoming(w)) && Unharmed(w, Homecoming(w))
  {
    hide WF, Unharmed, ReturnAll, IsCore, IsOwned, Protected, Swept;
    SweptIsSame(w);
    var v := Swept(w);
    var names := Sorted(CoreSpaces(v));
    assert forall i :: 0 <= i < |names| ==> names[i] in CoreSpaces(v);
    assert ListsCore(v, names);
    ReturnAllSafe(v, names, Sorted(v.net.phys.Keys));
    UnharmedTrans(w, v, Homecoming(w));
  }
}
