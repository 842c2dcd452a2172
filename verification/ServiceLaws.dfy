/**
 What one entry operation may touch: only its own radio, and on the way back
 only what is Core's.
 */
module ServiceLaws {
  import opened Bytes
  import opened Netns
  import opened NetnsLaws
  import opened Service

  /** The kernel's guarantees hold again, and nothing off radio `p` moved. */
  ghost predicate Worked(w: World, v: World, p: Phy) {
    && WF(v) && OffRadio(w.net, v.net, p) && w.nextWdev <= v.nextWdev && v.used == w.used && v.busy == w.busy
    && (forall d :: d in v.net.devs ==> d in w.net.devs || d >= w.nextWdev)
  }

  predicate SameRecords(w: World, v: World) {
    v.spaces == w.spaces && v.nextSpace == w.nextSpace && v.markers == w.markers && v.owned == w.owned
  }

  lemma WorkedTrans(w: World, v: World, u: World, p: Phy)
    requires Worked(w, v, p) && Worked(v, u, p)
    ensures Worked(w, u, p)
  {
    OffRadioTrans(w.net, v.net, u.net, p);
    hide OffRadio, WF;
  }

  lemma WorkedSelf(w: World, p: Phy)
    requires WF(w)
    ensures Worked(w, w, p)
  {
    OffRadioSelf(w.net, p);
    hide OffRadio, WF;
  }

  /** `name` may be given to a new netdev: nobody alive has it as a kernel-picked name. */
  predicate Reusable(w: World, name: Name) { name.Picked? ==> name.wdev < w.nextWdev && name.wdev !in w.net.devs }

  // ---------------------------------------------------------------- single commands

  lemma DeleteWorks(w: World, place: Place, name: Name, p: Phy)
    requires WF(w) && forall d :: Named(w.net, d, place, name) ==> w.net.devs[d].phy == p
    ensures Worked(w, DeleteDev(w, place, name).0, p) && SameRecords(w, DeleteDev(w, place, name).0)
    ensures DeleteDev(w, place, name).0.nextWdev == w.nextWdev && DeleteDev(w, place, name).0.net.devs.Keys <= w.net.devs.Keys
  {
    DeleteDevKeeps(w, place, name);
    WithoutKeeps(w.net, place, name);
    WithoutOffRadio(w.net, place, name, p);
    OffRadioSelf(w.net, p);
    hide OffRadio, WF, Without;
  }

  lemma CreateWorks(w: World, p: Phy, place: Place, name: Name, mode: Mode)
    requires WF(w) && Reusable(w, name)
    ensures Worked(w, CreateDev(w, p, place, name, mode).0, p) && SameRecords(w, CreateDev(w, p, place, name, mode).0)
  {
    CreateDevKeeps(w, p, place, name, mode);
    hide OffRadio, WF, CreateDev, Taken;
  }

  lemma MoveWorks(w: World, p: Phy, from: Place, to: Place)
    requires WF(w)
    ensures Worked(w, MovePhy(w, p, from, to).0, p) && SameRecords(w, MovePhy(w, p, from, to).0)
    ensures MovePhy(w, p, from, to).0.nextWdev == w.nextWdev && MovePhy(w, p, from, to).0.net.devs.Keys == w.net.devs.Keys
  {
    MovePhyKeeps(w, p, from, to);
    if MovePhy(w, p, from, to).1 {
      CarriedKeeps(w.net, p, to);
    }
    hide OffRadio, WF, MovePhy, Carried;
  }

  lemma HalfMadeIsOn(w: World, live: Live, newName: Name, movedTo: Place)
    requires WF(w) && HalfMade(w, live, newName, movedTo)
    ensures forall d :: Named(w.net, d, movedTo, newName) ==> w.net.devs[d].phy == live.phy
  {
  }

  // ---------------------------------------------------------------- undoing

  lemma PutBackWorks(w: World, live: Live, newName: Name, movedTo: Place)
    requires WF(w) && Reusable(w, live.name)
    ensures Worked(w, PutBack(w, live, newName, movedTo), live.phy) && SameRecords(w, PutBack(w, live, newName, movedTo))
  {
    hide WF, OffRadio, HalfMade, DeleteDev, MovePhy, CreateDev, Named;
    WorkedSelf(w, live.phy);
    var (w1, ok1) := if HalfMade(w, live, newName, movedTo) then DeleteDev(w, movedTo, newName) else (w, true);
    if HalfMade(w, live, newName, movedTo) {
      HalfMadeIsOn(w, live, newName, movedTo);
      DeleteWorks(w, movedTo, newName, live.phy);
    }
    if ok1 {
      WorkedSelf(w1, live.phy);
      var (w2, ok2) := if movedTo != live.place && movedTo.In? then MovePhy(w1, live.phy, movedTo, Root) else (w1, true);
      MoveWorks(w1, live.phy, movedTo, Root);
      WorkedTrans(w, w1, w2, live.phy);
      if ok2 {
        WorkedSelf(w2, live.phy);
        var (w3, ok3) := if movedTo != live.place && live.place.In? then MovePhy(w2, live.phy, Root, live.place) else (w2, true);
        MoveWorks(w2, live.phy, Root, live.place);
        WorkedTrans(w, w2, w3, live.phy);
        if ok3 {
          CreateWorks(w3, live.phy, live.place, live.name, live.mode);
          WorkedTrans(w, w3, CreateDev(w3, live.phy, live.place, live.name, live.mode).0, live.phy);
        }
      }
    }
  }

  lemma DropWorks(w: World, s: Label)
    requires WF(w)
    ensures WF(DropSpaceIfEmpty(w, s))
    ensures var v := DropSpaceIfEmpty(w, s);
            && v == w.(spaces := v.spaces, markers := v.markers, verdicts := v.verdicts)
            && (v.spaces == w.spaces || v.spaces == w.spaces - {s}) && (v.markers == w.markers || v.markers == w.markers - {s})
  {
    SpacesKeep(w, s);
    assert HoldsLinks(w, s) || Vacant(w.net, s);
    hide Uniq, Known, Picks;
  }

  lemma RestoredWorks(w: World, live: Live, newName: Name, movedTo: Place, created: Option<Label>)
    requires WF(w) && Reusable(w, live.name)
    ensures Worked(w, Restored(w, live, newName, movedTo, created), live.phy)
    ensures created.None? ==> SameRecords(w, Restored(w, live, newName, movedTo, created))
  {
    hide WF, OffRadio, PutBack, DropSpaceIfEmpty;
    PutBackWorks(w, live, newName, movedTo);
    if created.Some? {
      DropWorks(PutBack(w, live, newName, movedTo), created.value);
    }
  }

  lemma RecreateWorks(w: World, live: Live, name: Name)
    requires WF(w) && name.Given?
    requires exists d :: Named(w.net, d, live.place, live.name) && w.net.devs[d].phy == live.phy
    ensures var (v, out) := RecreateInRoot(w, live, name);
            && Worked(w, v, live.phy) && SameRecords(Released(w, live.place, live.name), v)
  {
    hide WF, OffRadio, Restored, DeleteDev, MovePhy, CreateDev;
    var w0 := Released(w, live.place, live.name);
    ReleasedWorks(w, live.place, live.name, live.phy);
    TheLive(w, live);
    var (w1, ok1) := DeleteDev(w0, live.place, live.name);
    DeleteWorks(w0, live.place, live.name, live.phy);
    WorkedTrans(w, w0, w1, live.phy);
    if ok1 {
      DeletedIsReusable(w0, live);
      WorkedSelf(w1, live.phy);
      MoveWorks(w1, live.phy, live.place, Root);
      var (w2, ok2) := if live.place.In? then MovePhy(w1, live.phy, live.place, Root) else (w1, true);
      WorkedTrans(w, w1, w2, live.phy);
      if !ok2 {
        RestoredWorks(w2, live, name, live.place, None);
        WorkedTrans(w, w2, Restored(w2, live, name, live.place, None), live.phy);
      } else {
        CreateWorks(w2, live.phy, Root, name, Managed);
        var (w3, ok3) := CreateDev(w2, live.phy, Root, name, Managed);
        WorkedTrans(w, w2, w3, live.phy);
        if !ok3 {
          RestoredWorks(w3, live, name, Root, None);
          WorkedTrans(w, w3, Restored(w3, live, name, Root, None), live.phy);
        }
      }
    }
  }

  lemma ReleasedWorks(w: World, place: Place, name: Name, p: Phy)
    requires WF(w)
    ensures Worked(w, Released(w, place, name), p)
  {
    OffRadioSelf(w.net, p);
    hide Uniq, Known, Picks, OffRadio;
  }

  /** All netdevs of that name at that place are the live one. */
  lemma TheLive(w: World, live: Live)
    requires WF(w) && exists d :: Named(w.net, d, live.place, live.name) && w.net.devs[d].phy == live.phy
    ensures forall d :: Named(w.net, d, live.place, live.name) ==> w.net.devs[d].phy == live.phy
  {
  }

  lemma DeletedIsReusable(w: World, live: Live)
    requires WF(w) && DeleteDev(w, live.place, live.name).1
    requires exists d :: Named(w.net, d, live.place, live.name) && w.net.devs[d].phy == live.phy
    ensures Reusable(DeleteDev(w, live.place, live.name).0, live.name)
  {
    var d :| Named(w.net, d, live.place, live.name) && w.net.devs[d].phy == live.phy;
    assert d in w.net.devs && w.net.devs[d].name == live.name;
    DeleteDevKeeps(w, live.place, live.name);
    WithoutKeeps(w.net, live.place, live.name);
  }
}
