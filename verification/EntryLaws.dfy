/** What one entry operation may touch: only the radio it found. */
module EntryLaws {
  import opened Bytes
  import opened Netns
  import opened NetnsLaws
  import opened Service
  import opened ServiceLaws
  import opened UndoLaws

  // ---------------------------------------------------------------- preparing

  lemma ClaimedWorks(w: World, place: Place, name: Name, p: Phy)
    requires WF(w)
    ensures Worked(w, Claimed(w, place, name), p) && Claimed(w, place, name) == w.(owned := Claimed(w, place, name).owned)
  {
    OffRadioSelf(w.net, p);
    hide Uniq, Picks, Named, OffRadio;
  }

  lemma AskWorks(w: World, p: Phy)
    requires WF(w)
    ensures Worked(w, Ask(w).0, p) && Ask(w).0 == w.(verdicts := Ask(w).0.verdicts)
  {
    AskKeeps(w);
    OffRadioSelf(w.net, p);
    hide WF, OffRadio;
  }

  lemma StillReusable(w: World, v: World, name: Name)
    requires Reusable(w, name) && w.nextWdev <= v.nextWdev
    requires forall d :: d in v.net.devs ==> d in w.net.devs || d >= w.nextWdev
    ensures Reusable(v, name)
  {
  }

  lemma SetUpWorks(w: World, e: Entry, live: Live, created: Option<Label>)
    requires WF(w) && Plain(e) && Reusable(w, live.name)
    ensures Worked(w, SetUp(w, e, live, created).0, live.phy)
  {
    hide WF, OffRadio, CreateDev, Ask, Claimed, Restored;
    var (w1, ok1) := CreateDev(w, live.phy, e.place, e.display, e.mode);
    CreateWorks(w, live.phy, e.place, e.display, e.mode);
    StillReusable(w, w1, live.name);
    if !ok1 {
      RestoredWorks(w1, live, e.display, e.place, created);
      WorkedTrans(w, w1, SetUp(w, e, live, created).0, live.phy);
    } else {
      var (w2, ok2) := Ask(w1);
      AskWorks(w1, live.phy);
      WorkedTrans(w, w1, w2, live.phy);
      if !ok2 {
        RestoredWorks(w2, live, e.display, e.place, created);
      } else {
        ClaimedWorks(w2, e.place, e.display, live.phy);
      }
      WorkedTrans(w, w2, SetUp(w, e, live, created).0, live.phy);
    }
  }

  /** The live netdev of a lookup is where, and what, the record says. */
  predicate Backs(w: World, d: Wdev, live: Live) {
    Named(w.net, d, live.place, live.name) && w.net.devs[d].phy == live.phy && w.net.devs[d].mode == live.mode
  }

  /** Deleting the live netdev works, and frees its name for the undo. */
  lemma LiveDeleted(w: World, d: Wdev, live: Live)
    requires WF(w) && Backs(w, d, live)
    ensures var (v, ok) := DeleteDev(w, live.place, live.name);
            && Worked(w, v, live.phy) && SameRecords(w, v) && v.nextWdev == w.nextWdev && v.net.devs.Keys <= w.net.devs.Keys
            && (ok ==> Reusable(v, live.name))
  {
    hide WF, OffRadio, DeleteDev;
    TheLive(w, live);
    DeleteWorks(w, live.place, live.name, live.phy);
    if DeleteDev(w, live.place, live.name).1 {
      DeletedIsReusable(w, live);
    }
  }

  lemma PrepareRootWorks(w: World, d: Wdev, e: Entry, live: Live)
    requires WF(w) && Plain(e) && Backs(w, d, live) && e.place == Root
    ensures Worked(w, PrepareRoot(w, e, live).0, live.phy)
  {
    hide WF, OffRadio, DeleteDev, MovePhy, SetUp, Restored;
    var (w1, ok1) := DeleteDev(w, live.place, live.name);
    LiveDeleted(w, d, live);
    if ok1 {
      if live.place == Root {
        SetUpWorks(w1, e, live, None);
        WorkedTrans(w, w1, SetUp(w1, e, live, None).0, live.phy);
      } else {
        var (w2, ok2) := MovePhy(w1, live.phy, live.place, Root);
        MoveWorks(w1, live.phy, live.place, Root);
        WorkedTrans(w, w1, w2, live.phy);
        StillReusable(w1, w2, live.name);
        if !ok2 {
          RestoredWorks(w2, live, e.display, live.place, None);
        } else {
          SetUpWorks(w2, e, live, None);
        }
        WorkedTrans(w, w2, PrepareRoot(w, e, live).0, live.phy);
      }
    }
  }

  lemma MarkKeeps(w: World, s: Label)
    requires WF(w) && s in w.spaces
    ensures WF(w.(markers := w.markers[s := w.spaces[s]])) && WF(w.(markers := w.markers - {s}))
  {
    hide Uniq, Known, Picks, Housed;
  }

  lemma SpaceReadyKeeps(w: World, s: Label)
    requires WF(w)
    ensures var (v, out, created) := SpaceReady(w, s);
            && WF(v) && v == w.(spaces := v.spaces, nextSpace := v.nextSpace, markers := v.markers, verdicts := v.verdicts)
            && (out == Done ==> s in v.spaces)
  {
    if s !in w.spaces {
      SpacesKeep(w, s);
      assert Vacant(w.net, s);
      hide WF;
      var (w1, ok1) := CreateSpace(w, s);
      if ok1 {
        AskKeeps(w1);
        var (w2, ok2) := Ask(w1);
        MarkKeeps(w2, s);
        SpacesKeep(w2.(markers := w2.markers - {s}), s);
      }
    }
  }

  lemma SpaceReadyWorks(w: World, s: Label, p: Phy)
    requires WF(w)
    ensures Worked(w, SpaceReady(w, s).0, p)
  {
    OffRadioSelf(w.net, p);
    SpaceReadyKeeps(w, s);
    hide WF, SpaceReady, OffRadio;
  }

  lemma RelocateWorks(w: World, e: Entry, live: Live, created: Option<Label>)
    requires WF(w) && Plain(e) && Reusable(w, live.name) && e.place.In? && live.place != e.place
    ensures Worked(w, Relocate(w, e, live, created).0, live.phy)
  {
    hide WF, OffRadio, MovePhy, SetUp, Restored;
    WorkedSelf(w, live.phy);
    var (w1, ok1) := if live.place.In? then MovePhy(w, live.phy, live.place, Root) else (w, true);
    MoveWorks(w, live.phy, live.place, Root);
    StillReusable(w, w1, live.name);
    if !ok1 {
      RestoredWorks(w1, live, e.display, live.place, created);
      WorkedTrans(w, w1, Relocate(w, e, live, created).0, live.phy);
    } else {
      var (w2, ok2) := MovePhy(w1, live.phy, Root, e.place);
      MoveWorks(w1, live.phy, Root, e.place);
      StillReusable(w1, w2, live.name);
      WorkedTrans(w, w1, w2, live.phy);
      if !ok2 {
        RestoredWorks(w2, live, e.display, Root, created);
      } else {
        SetUpWorks(w2, e, live, created);
      }
      WorkedTrans(w, w2, Relocate(w, e, live, created).0, live.phy);
    }
  }

  lemma PrepareSpaceWorks(w: World, d: Wdev, e: Entry, live: Live)
    requires WF(w) && Plain(e) && Backs(w, d, live) && e.place.In?
    ensures Worked(w, PrepareSpace(w, e, live).0, live.phy)
  {
    hide WF, OffRadio, DeleteDev, SpaceReady, SetUp, Relocate;
    var (w1, ready, created) := SpaceReady(w, e.place.space);
    SpaceReadyWorks(w, e.place.space, live.phy);
    SpaceReadyKeeps(w, e.place.space);
    if ready == Done {
      var (w2, ok2) := DeleteDev(w1, live.place, live.name);
      LiveDeleted(w1, d, live);
      WorkedTrans(w, w1, w2, live.phy);
      if ok2 {
        if live.place == e.place {
          SetUpWorks(w2, e, live, created);
        } else {
          RelocateWorks(w2, e, live, created);
        }
        WorkedTrans(w, w2, PrepareSpace(w, e, live).0, live.phy);
      }
    }
  }

  /** Preparing touches nothing off the live netdev's radio, whatever fails. */
  lemma PreparedWorks(w: World, d: Wdev, e: Entry, live: Live)
    requires WF(w) && Plain(e) && Backs(w, d, live)
    ensures Worked(w, Prepared(w, e, live).0, live.phy)
  {
    hide WF, OffRadio, PrepareRoot, PrepareSpace;
    if e.place.In? {
      PrepareSpaceWorks(w, d, e, live);
    } else {
      PrepareRootWorks(w, d, e, live);
    }
  }

  // ---------------------------------------------------------------- reverting

  lemma SweptWorks(w: World, p: Phy)
    requires WF(w)
    ensures Worked(w, Swept(w), p) && Swept(w) == w.(markers := Swept(w).markers)
  {
    SweptIsSame(w);
    OffRadioSelf(w.net, p);
    hide WF, OffRadio, IsCore, IsOwned, Protected;
  }

  /** The radio an operation on `e` works on. */
  ghost predicate Finds(w: World, e: Entry, p: Phy) {
    var found := FindLive(Swept(w), e);
    found.Some? && w.net.devs[found.value].phy == p
  }

  lemma RevertedWorks(w: World, e: Entry, p: Phy)
    requires WF(w) && Plain(e) && (FindLive(Swept(w), e).Some? ==> Finds(w, e, p))
    ensures Worked(w, Reverted(w, e).0, p)
    ensures FindLive(Swept(w), e).None? ==> Reverted(w, e).0.net == w.net
  {
    hide WF, OffRadio, RecreateInRoot, DropSpaceIfEmpty, Swept, IsLive, IsCore;
    var v := Swept(w);
    SweptWorks(w, p);
    var found := FindLive(v, e);
    if found.Some? {
      var live := LiveOf(v, found.value);
      assert Backs(v, found.value, live);
      RecreateWorks(v, live, e.interface);
      var (u, out) := RecreateInRoot(v, live, e.interface);
      WorkedTrans(w, v, u, p);
      if live.place == Root {
        if live.name == e.interface && live.mode == Managed {
          AskWorks(v, p);
          ReleasedWorks(Ask(v).0, Root, live.name, p);
          WorkedTrans(w, v, Ask(v).0, p);
          WorkedTrans(w, Ask(v).0, Reverted(w, e).0, p);
        }
      } else {
        DropWorks(u, live.place.space);
        OffRadioSelf(u.net, p);
        assert Worked(u, DropSpaceIfEmpty(u, live.place.space), p);
        WorkedTrans(w, u, DropSpaceIfEmpty(u, live.place.space), p);
      }
    }
  }

  lemma RekeyedWorks(w: World, d: Wdev, p: Phy)
    requires WF(w)
    ensures Worked(w, Rekeyed(w, d), p) && Rekeyed(w, d) == w.(owned := Rekeyed(w, d).owned)
  {
    OffRadioSelf(w.net, p);
    hide Uniq, Picks, OffRadio, RecordOf;
  }

  /** Deactivating touches nothing off the live netdev's radio, whatever fails. */
  lemma DeactivatedWorks(w: World, e: Entry, p: Phy)
    requires WF(w) && Plain(e) && (FindLive(Swept(w), e).Some? ==> Finds(w, e, p))
    ensures Worked(w, Deactivated(w, e).0, p)
    ensures FindLive(Swept(w), e).None? ==> Deactivated(w, e).0.net == w.net
  {
    hide WF, OffRadio, Reverted, Rekeyed, Swept, IsLive, IsCore, IsOwned, InUse;
    var v := Swept(w);
    SweptWorks(w, p);
    var found := FindLive(v, e);
    if found.Some? {
      StaysLive(v, v, e);
      SweptWorks(v, p);
      var d := found.value;
      var place := v.net.phys[v.net.devs[d].phy];
      if place.In? {
        RevertedWorks(v, e, p);
        WorkedTrans(w, v, Reverted(v, e).0, p);
      } else if IsOwned(v, d) {
        var u := Rekeyed(v, d);
        RekeyedWorks(v, d, p);
        WorkedTrans(w, v, u, p);
        StaysLive(v, u, e);
        SweptWorks(u, p);
        if InUse(u, d) {
          ReleasedWorks(u, Root, u.net.devs[d].name, p);
        } else {
          RevertedWorks(u, e, p);
        }
        WorkedTrans(w, u, Deactivated(w, e).0, p);
      }
    }
  }

  // ---------------------------------------------------------------- activating

  /** The netdevs once the live one is deleted and its radio is where the entry wants it. */
  function Arrived(n: Net, e: Entry, live: Live): Net {
    var m := Without(n, live.place, live.name);
    if live.place == e.place then m
    else Carried(if live.place.In? && e.place.In? then Carried(m, live.phy, Root) else m, live.phy, e.place)
  }

  /** The entry's netdev stands among the netdevs `n`: new, unless the name was taken there. */
  ghost predicate Landed(w: World, v: World, n: Net, e: Entry, p: Phy) {
    && v.net == (if Taken(n, e.place, e.display) then n else With(n, w.nextWdev, Dev(e.display, p, e.mode)))
    && v.nextWdev == (if Taken(n, e.place, e.display) then w.nextWdev else w.nextWdev + 1)
    && v.made == (if Taken(n, e.place, e.display) then w.made else w.made + {w.nextWdev})
    && v.owned == Claim(v.net, w.owned, e.place, e.display) && v.used == w.used && v.busy == w.busy
    && p in n.phys && n.phys[p] == e.place
  }

  predicate SameSpaces(w: World, v: World) { v.spaces == w.spaces && v.markers == w.markers && v.nextSpace == w.nextSpace }

  lemma DeleteDone(w: World, place: Place, name: Name)
    requires DeleteDev(w, place, name).1
    ensures var v := DeleteDev(w, place, name).0; v == w.(net := Without(w.net, place, name), verdicts := v.verdicts)
  {
    hide Without;
  }

  lemma MoveDone(w: World, p: Phy, from: Place, to: Place)
    requires MovePhy(w, p, from, to).1
    ensures var v := MovePhy(w, p, from, to).0; v == w.(net := Carried(w.net, p, to), verdicts := v.verdicts)
  {
    hide Carried;
  }

  lemma CreateDone(w: World, p: Phy, place: Place, name: Name, mode: Mode)
    requires CreateDev(w, p, place, name, mode).1
    ensures var v := CreateDev(w, p, place, name, mode).0;
            && p in w.net.phys && w.net.phys[p] == place
            && (if Taken(w.net, place, name) then v == w.(verdicts := v.verdicts)
                else v == w.(net := With(w.net, w.nextWdev, Dev(name, p, mode)), nextWdev := w.nextWdev + 1,
                             made := w.made + {w.nextWdev}, verdicts := v.verdicts))
  {
    hide Taken;
  }

  lemma AskOnly(w: World)
    ensures Ask(w).0 == w.(verdicts := Ask(w).0.verdicts)
  {
  }

  lemma SetUpDone(w: World, e: Entry, live: Live, created: Option<Label>)
    requires SetUp(w, e, live, created).1 == Done
    ensures var v := SetUp(w, e, live, created).0; Landed(w, v, w.net, e, live.phy) && SameSpaces(w, v)
  {
    hide Taken, Claim, Restored, CreateDev, Ask, With;
    CreateDone(w, live.phy, e.place, e.display, e.mode);
    var (w1, ok1) := CreateDev(w, live.phy, e.place, e.display, e.mode);
    AskOnly(w1);
  }

  lemma PrepareRootDone(w: World, e: Entry, live: Live)
    requires e.place == Root && PrepareRoot(w, e, live).1 == Done
    ensures var v := PrepareRoot(w, e, live).0; Landed(w, v, Arrived(w.net, e, live), e, live.phy) && SameSpaces(w, v)
  {
    hide Taken, Claim, Without, Carried, SetUp, Restored, DeleteDev, MovePhy;
    var (w1, ok1) := DeleteDev(w, live.place, live.name);
    DeleteDone(w, live.place, live.name);
    if live.place == Root {
      SetUpDone(w1, e, live, None);
    } else {
      var (w2, ok2) := MovePhy(w1, live.phy, live.place, Root);
      MoveDone(w1, live.phy, live.place, Root);
      SetUpDone(w2, e, live, None);
    }
  }

  /** The entry's namespace exists, and is marked as Core's if it was created. */
  ghost predicate Readied(w: World, v: World, s: Label) {
    if s in w.spaces then SameSpaces(w, v)
    else
      v.spaces == w.spaces[s := w.nextSpace] && v.nextSpace == w.nextSpace + 1 && v.markers == w.markers[s := w.nextSpace]
  }

  lemma SpaceReadyDone(w: World, s: Label)
    requires SpaceReady(w, s).1 == Done
    ensures var v := SpaceReady(w, s).0; 
            Readied(w, v, s) && v == w.(spaces := v.spaces, nextSpace := v.nextSpace, markers := v.markers, verdicts := v.verdicts)
    ensures SpaceReady(w, s).2 == if s in w.spaces then None else Some(s)
  {
  }

  lemma PrepareSpaceDone(w: World, e: Entry, live: Live)
    requires e.place.In? && PrepareSpace(w, e, live).1 == Done
    ensures var v := PrepareSpace(w, e, live).0; Landed(w, v, Arrived(w.net, e, live), e, live.phy) && Readied(w, v, e.place.space)
  {
    hide Taken, Claim, Without, Carried, SetUp, Restored, DeleteDev, MovePhy, SpaceReady;
    var (w1, ready, created) := SpaceReady(w, e.place.space);
    SpaceReadyDone(w, e.place.space);
    var (w2, ok2) := DeleteDev(w1, live.place, live.name);
    DeleteDone(w1, live.place, live.name);
    if live.place == e.place {
      SetUpDone(w2, e, live, created);
    } else {
      var (w3, ok3) := if live.place.In? then MovePhy(w2, live.phy, live.place, Root) else (w2, true);
      if live.place.In? {
        MoveDone(w2, live.phy, live.place, Root);
      }
      var (w4, ok4) := MovePhy(w3, live.phy, Root, e.place);
      MoveDone(w3, live.phy, Root, e.place);
      SetUpDone(w4, e, live, created);
    }
  }

  lemma PreparedSpaces(w: World, e: Entry, live: Live)
    requires Prepared(w, e, live).1 == Done
    ensures var v := Prepared(w, e, live).0; if e.place.In? then Readied(w, v, e.place.space) else SameSpaces(w, v)
  {
    hide PrepareSpace, PrepareRoot, Landed;
    if e.place.In? {
      PrepareSpaceDone(w, e, live);
    } else {
      PrepareRootDone(w, e, live);
    }
  }

  /** The entry's netdev stands, and its services fail to start. */
  ghost predicate StartFails(w: World, e: Entry) {
    var v := Swept(w);
    var found := FindLive(v, e);
    && found.Some? && !InUse(v, found.value) && e.services
    && var (u, out) := Prepared(v, e, LiveOf(v, found.value));
       out == Done && !Ask(u).1
  }

  /** What the revert after a failed start finds. */
  ghost function Unstarted(w: World, e: Entry): World
    requires StartFails(w, e)
  {
    Ask(Prepared(Swept(w), e, LiveOf(Swept(w), FindLive(Swept(w), e).value)).0).0
  }

  /** The radio of the netdev that a lookup finds. */
  ghost function RadioOf(w: World, e: Entry): (r: Option<Phy>)
    ensures r.Some? <==> FindLive(Swept(w), e).Some?
    ensures r.Some? ==> FindLive(Swept(w), e).value in w.net.devs && w.net.devs[FindLive(Swept(w), e).value].phy == r.value
  {
    var found := FindLive(Swept(w), e);
    if found.None? then None else Some(w.net.devs[found.value].phy)
  }

  lemma FailedPrepared(w: World, e: Entry)
    requires WF(w) && Plain(e) && StartFails(w, e)
    ensures var u := Unstarted(w, e); Worked(w, u, RadioOf(w, e).value) && Activated(w, e) == (Reverted(u, e).0, Threw)
  {
    hide WF, OffRadio, Prepared, Reverted, Swept, IsLive, InUse;
    var v := Swept(w);
    var d := FindLive(v, e).value;
    var p := RadioOf(w, e).value;
    SweptWorks(w, p);
    var live := LiveOf(v, d);
    assert Backs(v, d, live);
    PreparedWorks(v, d, e, live);
    var u := Prepared(v, e, live).0;
    AskWorks(u, p);
    WorkedTrans(w, v, u, p);
    WorkedTrans(w, u, Ask(u).0, p);
  }

  /**
   Activating touches nothing off the radio it finds, whatever fails, unless the services fail to start: then
   nothing off that radio and the one that the revert finds.
   */
  lemma ActivatedWorks(w: World, e: Entry)
    requires WF(w) && Plain(e)
    ensures WF(Activated(w, e).0)
    ensures RadioOf(w, e).None? ==> Activated(w, e).0.net == w.net
    ensures RadioOf(w, e).Some? && !StartFails(w, e) ==> Worked(w, Activated(w, e).0, RadioOf(w, e).value)
    ensures StartFails(w, e) ==>
              var q := RadioOf(Unstarted(w, e), e);
              if q.None? then Worked(w, Activated(w, e).0, RadioOf(w, e).value)
              else Worked(Unstarted(w, e), Activated(w, e).0, q.value) && Worked(w, Unstarted(w, e), RadioOf(w, e).value)
  {
    hide WF, OffRadio, Prepared, Reverted, Swept, IsLive, InUse;
    var v := Swept(w);
    SweptWorks(w, 0);
    if StartFails(w, e) {
      FailedPrepared(w, e);
      var t := Unstarted(w, e);
      var p := RadioOf(w, e).value;
      RevertedWorks(t, e, if RadioOf(t, e).Some? then RadioOf(t, e).value else p);
      if RadioOf(t, e).None? {
        WorkedTrans(w, t, Reverted(t, e).0, p);
      }
    } else {
      var found := FindLive(v, e);
      if found.Some? {
        var p := w.net.devs[found.value].phy;
        SweptWorks(w, p);
        if !InUse(v, found.value) {
          var live := LiveOf(v, found.value);
          assert Backs(v, found.value, live);
          var (u, out) := Prepared(v, e, live);
          PreparedWorks(v, found.value, e, live);
          WorkedTrans(w, v, u, p);
          AskWorks(u, p);
          WorkedTrans(w, u, Ask(u).0, p);
        }
      }
    }
  }
}
