/** What the operations do to Core's records: nothing that is not recorded comes to be recorded later. */
module Records {
  import opened Bytes
  import opened Sorting
  import opened Netns
  import opened NetnsLaws
  import opened Service
  import opened ServiceLaws
  import opened UndoLaws
  import opened EntryLaws
  import opened Ownership

  /** A netdev that exists by now and is in no record: Core never created it, or has let it go. */
  predicate Stranger(w: World, d: Wdev) { d < w.nextWdev && forall k :: k in w.owned ==> w.owned[k] != d }

  /** A namespace identity that exists by now and is in no marker. */
  predicate Outsider(w: World, id: nat) { id < w.nextSpace && forall s :: s in w.markers ==> w.markers[s] != id }

  /** Strangers stay strangers. */
  ghost predicate Estranged(w: World, v: World) {
    && w.nextWdev <= v.nextWdev && w.nextSpace <= v.nextSpace
    && (forall d :: Stranger(w, d) ==> Stranger(v, d))
    && (forall id :: Outsider(w, id) ==> Outsider(v, id))
  }

  lemma EstrangedSelf(w: World)
    ensures Estranged(w, w)
  {
  }

  lemma EstrangedTrans(w: World, v: World, u: World)
    requires Estranged(w, v) && Estranged(v, u)
    ensures Estranged(w, u)
  {
    hide Stranger, Outsider;
  }

  // ---------------------------------------------------------------- steps that only drop records

  /** No record was added or changed, and the namespaces that are not Core's are still there. */
  ghost predicate Fewer(w: World, v: World) {
    && w.nextWdev <= v.nextWdev && w.nextSpace <= v.nextSpace
    && (forall k :: k in v.owned ==> k in w.owned && v.owned[k] == w.owned[k])
    && (forall s :: s in v.markers ==> s in w.markers && v.markers[s] == w.markers[s])
    && (forall s :: s in w.spaces && !IsCore(w, s) ==> s in v.spaces && v.spaces[s] == w.spaces[s])
  }

  lemma FewerEstranged(w: World, v: World)
    requires Fewer(w, v)
    ensures Estranged(w, v)
  {
  }

  lemma FewerTrans(w: World, v: World, u: World)
    requires Fewer(w, v) && Fewer(v, u)
    ensures Fewer(w, u)
  {
  }

  lemma SweptFewer(w: World)
    ensures Fewer(w, Swept(w))
  {
  }

  lemma DropFewer(w: World, s: Label)
    requires WF(w) && IsCore(w, s)
    ensures Fewer(w, DropSpaceIfEmpty(w, s))
  {
    DropWorks(w, s);
    hide WF, DropSpaceIfEmpty;
  }

  lemma RestoredFewer(w: World, live: Live, newName: Name, movedTo: Place, created: Option<Label>)
    requires WF(w) && Reusable(w, live.name) && (created.Some? ==> IsCore(w, created.value))
    ensures Fewer(w, Restored(w, live, newName, movedTo, created))
  {
    PutBackWorks(w, live, newName, movedTo);
    hide WF, PutBack, DropSpaceIfEmpty, OffRadio;
    if created.Some? {
      DropFewer(PutBack(w, live, newName, movedTo), created.value);
    }
  }

  lemma RecreateFewer(w: World, d: Wdev, live: Live, name: Name)
    requires WF(w) && name.Given? && Backs(w, d, live)
    ensures Fewer(w, RecreateInRoot(w, live, name).0) && WF(RecreateInRoot(w, live, name).0)
  {
    RecreateWorks(w, live, name);
    hide WF, OffRadio, RecreateInRoot;
  }

  lemma RevertedFewer(w: World, e: Entry)
    requires WF(w) && Plain(e)
    ensures Fewer(w, Reverted(w, e).0)
  {
    hide WF, OffRadio, Swept, IsLive, IsCore, RecreateInRoot, DropSpaceIfEmpty, Fewer;
    var v := Swept(w);
    SweptWorks(w, 0);
    SweptFewer(w);
    var found := FindLive(v, e);
    if found.Some? {
      var live := LiveOf(v, found.value);
      RecreateFewer(v, found.value, live, e.interface);
      var (u, out) := RecreateInRoot(v, live, e.interface);
      FewerTrans(w, v, u);
      if live.place == Root {
        TakenDownFewer(v, live.name);
        FewerTrans(w, v, Released(Ask(v).0, Root, live.name));
      } else {
        if IsCore(u, live.place.space) {
          DropFewer(u, live.place.space);
          FewerTrans(w, u, DropSpaceIfEmpty(u, live.place.space));
        }
      }
    }
  }

  lemma TakenDownFewer(w: World, name: Name)
    ensures Fewer(w, Released(Ask(w).0, Root, name)) && Fewer(w, Released(w, Root, name))
  {
  }

  // ---------------------------------------------------------------- undo steps

  lemma RekeyedEstranged(w: World, d: Wdev)
    ensures Estranged(w, Rekeyed(w, d))
  {
  }

  lemma DeactivatedEstranged(w: World, e: Entry)
    requires WF(w) && Plain(e)
    ensures Estranged(w, Deactivated(w, e).0)
  {
    hide WF, OffRadio, Swept, IsLive, IsCore, IsOwned, Reverted, Rekeyed, InUse, Fewer, Estranged;
    var v := Swept(w);
    SweptWorks(w, 0);
    SweptFewer(w);
    FewerEstranged(w, v);
    var found := FindLive(v, e);
    if found.Some? {
      var d := found.value;
      RevertedFewer(v, e);
      FewerEstranged(v, Reverted(v, e).0);
      EstrangedTrans(w, v, Reverted(v, e).0);
      var u := Rekeyed(v, d);
      RekeyedWorks(v, d, 0);
      RekeyedEstranged(v, d);
      EstrangedTrans(w, v, u);
      TakenDownFewer(u, v.net.devs[d].name);
      FewerEstranged(u, Released(u, Root, v.net.devs[d].name));
      EstrangedTrans(w, u, Released(u, Root, v.net.devs[d].name));
      RevertedFewer(u, e);
      FewerEstranged(u, Reverted(u, e).0);
      EstrangedTrans(w, u, Reverted(u, e).0);
    }
  }

  lemma {:induction false} CheckedEstranged(w: World, ds: seq<Wdev>)
    requires forall d :: d in ds ==> d in w.net.devs
    ensures Estranged(w, Checked(w, ds).0)
    decreases |ds|
  {
    EstrangedSelf(w);
    hide Estranged, Rekeyed;
    if ds != [] {
      RekeyedEstranged(w, ds[0]);
      RekeyedTidies(w, ds[0]);
      CheckedEstranged(Rekeyed(w, ds[0]), ds[1..]);
      EstrangedTrans(w, Rekeyed(w, ds[0]), Checked(w, ds).0);
    }
  }

  lemma HomeEstranged(w: World, s: Label, p: Phy)
    requires WF(w)
    ensures Estranged(w, Homeward(w, s, p))
  {
    hide WF, OffRadio, MovePhy, Checked, ReleasedAll, Estranged, Travellers, Fewer;
    var ds := Sorted(Travellers(w.net, s, p));
    TravellersIn(w.net, s, p);
    var (v, names) := Checked(w, ds);
    CheckedEstranged(w, ds);
    CheckedTidies(w, ds);
    var u := MovePhy(v, p, In(s), Root).0;
    MoveWorks(v, p, In(s), Root);
    SameFewer(v, u);
    ReleasedAllTidies(u, s, names);
    ReleasedFewer(v, u, ReleasedAll(u, s, names));
    FewerEstranged(v, u);
    FewerEstranged(v, ReleasedAll(u, s, names));
    EstrangedTrans(w, v, Homeward(w, s, p));
  }

  lemma ReleasedFewer(v: World, u: World, t: World)
    requires Fewer(v, u) && t == u.(owned := t.owned) && forall k :: k in t.owned ==> k in u.owned && t.owned[k] == u.owned[k]
    ensures Fewer(v, t)
  {
  }

  lemma ReturnPhysEstranged(w: World, s: Label, radios: seq<Phy>)
    requires WF(w) && IsCore(w, s)
    ensures Estranged(w, ReturnPhys(w, s, radios))
    decreases |radios|
  {
    hide WF, Unharmed, Homeward, Estranged;
    EstrangedSelf(w);
    if radios != [] {
      var p := radios[0];
      if p in w.net.phys && w.net.phys[p] == In(s) {
        HomeSafe(w, p, s);
        HomeEstranged(w, s, p);
        ReturnPhysEstranged(Homeward(w, s, p), s, radios[1..]);
        EstrangedTrans(w, Homeward(w, s, p), ReturnPhys(w, s, radios));
      } else {
        ReturnPhysEstranged(w, s, radios[1..]);
      }
    }
  }

  lemma ReturnAllEstranged(w: World, names: seq<Label>, radios: seq<Phy>)
    requires WF(w) && ListsCore(w, names)
    ensures Estranged(w, ReturnAll(w, names, radios))
    decreases |names|
  {
    hide WF, Unharmed, ReturnPhys, DropSpaceIfEmpty, Fewer, Estranged;
    EstrangedSelf(w);
    if names != [] {
      var v := ReturnPhys(w, names[0], radios);
      ReturnPhysSafe(w, names[0], radios);
      ReturnPhysEstranged(w, names[0], radios);
      var u := DropSpaceIfEmpty(v, names[0]);
      DropWorks(v, names[0]);
      DropFewer(v, names[0]);
      FewerEstranged(v, u);
      EstrangedTrans(w, v, u);
      DropUnharmed(v, names[0]);
      forall i | 0 <= i < |names[1..]|
        ensures IsCore(u, names[1..][i])
      {
        assert IsCore(w, names[i + 1]) && names[i + 1] != names[0];
      }
      ReturnAllEstranged(u, names[1..], radios);
      EstrangedTrans(w, u, ReturnAll(u, names[1..], radios));
    }
  }

  // ---------------------------------------------------------------- activation

  /** What Core did not own, and the namespaces it did not create, it does not own later either. */
  ghost predicate Kept(w: World, v: World) {
    && (forall k :: k in v.owned ==> v.owned[k] >= w.nextWdev || (k in w.owned && v.owned[k] == w.owned[k]))
    && (forall s :: s in w.spaces && !IsCore(w, s) ==> s in v.spaces && v.spaces[s] == w.spaces[s] && !IsCore(v, s))
  }

  lemma FewerKept(w: World, v: World)
    requires Fewer(w, v)
    ensures Kept(w, v)
  {
  }

  lemma KeptThenFewer(w: World, v: World, u: World)
    requires Kept(w, v) && Fewer(v, u)
    ensures Kept(w, u)
  {
  }

  lemma SpaceReadyEstranged(w: World, s: Label)
    ensures Estranged(w, SpaceReady(w, s).0)
  {
  }

  lemma SpaceReadyKept(w: World, s: Label)
    ensures var (v, out, created) := SpaceReady(w, s); Estranged(w, v) && Kept(w, v) && (created.Some? ==> IsCore(v, created.value))
  {
    SpaceReadyEstranged(w, s);
    hide Estranged, Stranger, Outsider;
  }

  lemma SetUpFailed(w: World, e: Entry, live: Live, created: Option<Label>)
    requires WF(w) && Plain(e) && Reusable(w, live.name) && (created.Some? ==> IsCore(w, created.value)) && SetUp(w, e, live, created).1 != Done
    ensures Fewer(w, SetUp(w, e, live, created).0)
  {
    hide WF, OffRadio, CreateDev, Ask, Restored, Fewer;
    var (w1, ok1) := CreateDev(w, live.phy, e.place, e.display, e.mode);
    CreateWorks(w, live.phy, e.place, e.display, e.mode);
    StillReusable(w, w1, live.name);
    SameFewer(w, w1);
    var (w2, ok2) := Ask(w1);
    AskWorks(w1, live.phy);
    SameFewer(w, w2);
    StillReusable(w, w2, live.name);
    RestoredFewer(if ok1 then w2 else w1, live, e.display, e.place, created);
    FewerTrans(w, if ok1 then w2 else w1, SetUp(w, e, live, created).0);
  }

  lemma SameFewer(w: World, v: World)
    requires SameRecords(w, v) && w.nextWdev <= v.nextWdev
    ensures Fewer(w, v)
  {
  }

  lemma PrepareRootFailed(w: World, d: Wdev, e: Entry, live: Live)
    requires WF(w) && Plain(e) && Backs(w, d, live) && e.place == Root && PrepareRoot(w, e, live).1 != Done
    ensures Fewer(w, PrepareRoot(w, e, live).0)
  {
    hide WF, OffRadio, DeleteDev, MovePhy, SetUp, Restored, Fewer;
    var (w1, ok1) := DeleteDev(w, live.place, live.name);
    LiveDeleted(w, d, live);
    SameFewer(w, w1);
    if ok1 {
      if live.place == Root {
        SetUpFailed(w1, e, live, None);
        FewerTrans(w, w1, SetUp(w1, e, live, None).0);
      } else {
        var (w2, ok2) := MovePhy(w1, live.phy, live.place, Root);
        MoveWorks(w1, live.phy, live.place, Root);
        SameFewer(w, w2);
        StillReusable(w1, w2, live.name);
        if !ok2 {
          RestoredFewer(w2, live, e.display, live.place, None);
        } else {
          SetUpFailed(w2, e, live, None);
        }
        FewerTrans(w, w2, PrepareRoot(w, e, live).0);
      }
    }
  }

  lemma RelocateFailed(w: World, e: Entry, live: Live, created: Option<Label>)
    requires WF(w) && Plain(e) && Reusable(w, live.name) && (created.Some? ==> IsCore(w, created.value))
    requires e.place.In? && live.place != e.place && Relocate(w, e, live, created).1 != Done
    ensures Fewer(w, Relocate(w, e, live, created).0)
  {
    hide WF, OffRadio, MovePhy, SetUp, Restored, Fewer;
    var (w1, ok1) := if live.place.In? then MovePhy(w, live.phy, live.place, Root) else (w, true);
    MoveWorks(w, live.phy, live.place, Root);
    SameFewer(w, w1);
    StillReusable(w, w1, live.name);
    if !ok1 {
      RestoredFewer(w1, live, e.display, live.place, created);
      FewerTrans(w, w1, Relocate(w, e, live, created).0);
    } else {
      var (w2, ok2) := MovePhy(w1, live.phy, Root, e.place);
      MoveWorks(w1, live.phy, Root, e.place);
      SameFewer(w, w2);
      StillReusable(w1, w2, live.name);
      if !ok2 {
        RestoredFewer(w2, live, e.display, Root, created);
      } else {
        SetUpFailed(w2, e, live, created);
      }
      FewerTrans(w, w2, Relocate(w, e, live, created).0);
    }
  }

  lemma PrepareSpaceFailed(w: World, d: Wdev, e: Entry, live: Live)
    requires WF(w) && Plain(e) && Backs(w, d, live) && e.place.In? && PrepareSpace(w, e, live).1 != Done
    ensures Estranged(w, PrepareSpace(w, e, live).0) && Kept(w, PrepareSpace(w, e, live).0)
  {
    hide WF, OffRadio, DeleteDev, SpaceReady, SetUp, Relocate, Fewer, Estranged, Kept;
    var (w1, ready, created) := SpaceReady(w, e.place.space);
    SpaceReadyKeeps(w, e.place.space);
    SpaceReadyKept(w, e.place.space);
    if ready == Done {
      var (w2, ok2) := DeleteDev(w1, live.place, live.name);
      LiveDeleted(w1, d, live);
      SameFewer(w1, w2);
      if ok2 {
        if live.place == e.place {
          SetUpFailed(w2, e, live, created);
        } else {
          RelocateFailed(w2, e, live, created);
        }
        FewerTrans(w1, w2, PrepareSpace(w, e, live).0);
      }
      FewerEstranged(w1, PrepareSpace(w, e, live).0);
      KeptThenFewer(w, w1, PrepareSpace(w, e, live).0);
      EstrangedTrans(w, w1, PrepareSpace(w, e, live).0);
    }
  }

  /** A new netdev recorded, and perhaps a new namespace marked. */
  lemma RecordedNew(w: World, v: World, e: Entry)
    requires WF(w) && w.nextWdev <= v.nextWdev && v.owned == w.owned[(e.place, e.display) := w.nextWdev]
    requires if e.place.In? then Readied(w, v, e.place.space) else SameSpaces(w, v)
    ensures Estranged(w, v) && Kept(w, v)
  {
    hide Uniq, Known, Picks, Housed;
  }

  lemma PreparedEstranged(w: World, d: Wdev, e: Entry, live: Live)
    requires WF(w) && Plain(e) && Backs(w, d, live) && !Clashing(w.net, d, e, live)
    ensures Estranged(w, Prepared(w, e, live).0) && Kept(w, Prepared(w, e, live).0)
  {
    hide WF, Clashing, PrepareSpace, PrepareRoot, Estranged, Kept, Fewer, Readied, SameSpaces, OffRadio, Backs;
    if Prepared(w, e, live).1 == Done {
      PreparedSpaces(w, e, live);
      ClaimExactly(w, d, e, live);
      PreparedWorks(w, d, e, live);
      RecordedNew(w, Prepared(w, e, live).0, e);
    } else if e.place.In? {
      PrepareSpaceFailed(w, d, e, live);
    } else {
      PrepareRootFailed(w, d, e, live);
      FewerEstranged(w, Prepared(w, e, live).0);
      FewerKept(w, Prepared(w, e, live).0);
    }
  }

  /** The entry's display name is free, so that what Core creates is what it records. */
  ghost predicate Fair(w: World, e: Entry) {
    var found := FindLive(Swept(w), e);
    found.Some? && found.value in w.net.devs && w.net.devs[found.value].phy in w.net.phys ==>
      !Clashing(w.net, found.value, e, LiveOf(w, found.value))
  }

  lemma ActivatedEstranged(w: World, e: Entry)
    requires WF(w) && Plain(e) && Fair(w, e)
    ensures Estranged(w, Activated(w, e).0)
  {
    hide WF, OffRadio, Prepared, Reverted, Swept, IsLive, InUse, Estranged, Fewer, Clashing;
    var v := Swept(w);
    SweptWorks(w, 0);
    SweptFewer(w);
    FewerEstranged(w, v);
    var found := FindLive(v, e);
    if found.Some? && !InUse(v, found.value) {
      var live := LiveOf(v, found.value);
      assert Backs(v, found.value, live);
      var (u, out) := Prepared(v, e, live);
      PreparedWorks(v, found.value, e, live);
      PreparedEstranged(v, found.value, e, live);
      EstrangedTrans(w, v, u);
      if out == Done && e.services {
        var (t, started) := Ask(u);
        AskWorks(u, 0);
        AskFewer(u);
        FewerEstranged(u, t);
        EstrangedTrans(w, u, t);
        if !started {
          RevertedFewer(t, e);
          FewerEstranged(t, Reverted(t, e).0);
          EstrangedTrans(w, t, Reverted(t, e).0);
        }
      }
    }
  }

  lemma AskFewer(w: World)
    ensures Fewer(w, Ask(w).0)
  {
  }
}
