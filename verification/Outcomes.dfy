/**
 A failing command matters from when it is run: what is done before it is what would be done if nothing were
 going to fail.
 */
module Outcomes {
  import opened Bytes
  import opened Netns
  import opened NetnsLaws
  import opened Service
  import opened ServiceLaws
  import opened UndoLaws
  import opened EntryLaws
  import opened Atomic

  /** The same world, with no failure to come. */
  function Carefree(w: World): World { w.(verdicts := []) }

  /** From `w` to `v` nothing failed, and the one failure, if any, is still to come. */
  predicate Unfailed(w: World, v: World) { OneFailure(w.verdicts) && (w.verdicts == [] || v.verdicts != []) }

  /** Without a failure to come there is none later. */
  predicate Settled(w: World, v: World) { w.verdicts == [] ==> v.verdicts == [] }

  // ---------------------------------------------------------------- commands

  lemma AskFree(w: World)
    ensures Settled(w, Ask(w).0)
    ensures Unfailed(w, Ask(w).0) ==>
              Ask(w).1 && OneFailure(Ask(w).0.verdicts) && Carefree(Ask(w).0) == Carefree(w) && Ask(Carefree(w)) == (Carefree(w), true)
  {
  }

  lemma DeleteFree(w: World, place: Place, name: Name)
    ensures var (v, ok) := DeleteDev(w, place, name);
            Settled(w, v) && (Unfailed(w, v) ==> OneFailure(v.verdicts) && DeleteDev(Carefree(w), place, name) == (Carefree(v), ok))
  {
    hide Without;
  }

  lemma MoveFree(w: World, p: Phy, from: Place, to: Place)
    ensures var (v, ok) := MovePhy(w, p, from, to);
            Settled(w, v) && (Unfailed(w, v) ==> OneFailure(v.verdicts) && MovePhy(Carefree(w), p, from, to) == (Carefree(v), ok))
  {
    hide Carried;
  }

  lemma CreateFree(w: World, p: Phy, place: Place, name: Name, mode: Mode)
    ensures var (v, ok) := CreateDev(w, p, place, name, mode);
            Settled(w, v) && (Unfailed(w, v) ==> OneFailure(v.verdicts) && CreateDev(Carefree(w), p, place, name, mode) == (Carefree(v), ok))
  {
    hide Taken;
  }

  lemma DropFree(w: World, s: Label)
    ensures var v := DropSpaceIfEmpty(w, s);
            Settled(w, v) && (Unfailed(w, v) ==> OneFailure(v.verdicts) && DropSpaceIfEmpty(Carefree(w), s) == Carefree(v))
  {
    assert HoldsLinks(Carefree(w), s) <==> HoldsLinks(w, s);
    hide HoldsLinks;
  }

  // ---------------------------------------------------------------- undoing a prepare

  lemma PutBackFree(w: World, live: Live, newName: Name, movedTo: Place)
    ensures var v := PutBack(w, live, newName, movedTo);
            Settled(w, v) && (Unfailed(w, v) ==> OneFailure(v.verdicts) && PutBack(Carefree(w), live, newName, movedTo) == Carefree(v))
  {
    assert HalfMade(Carefree(w), live, newName, movedTo) <==> HalfMade(w, live, newName, movedTo);
    hide HalfMade, DeleteDev, MovePhy, CreateDev, OneFailure;
    DeleteFree(w, movedTo, newName);
    var (w1, ok1) := if HalfMade(w, live, newName, movedTo) then DeleteDev(w, movedTo, newName) else (w, true);
    MoveFree(w1, live.phy, movedTo, Root);
    var (w2, ok2) := if movedTo != live.place && movedTo.In? then MovePhy(w1, live.phy, movedTo, Root) else (w1, true);
    MoveFree(w2, live.phy, Root, live.place);
    var (w3, ok3) := if movedTo != live.place && live.place.In? then MovePhy(w2, live.phy, Root, live.place) else (w2, true);
    CreateFree(w3, live.phy, live.place, live.name, live.mode);
  }

  lemma RecreateFree(w: World, live: Live, name: Name)
    ensures var (v, out) := RecreateInRoot(w, live, name);
            Settled(w, v) && (Unfailed(w, v) ==> OneFailure(v.verdicts) && RecreateInRoot(Carefree(w), live, name) == (Carefree(v), out))
  {
    hide PutBack, DeleteDev, MovePhy, CreateDev, OneFailure;
    var w0 := Released(w, live.place, live.name);
    DeleteFree(w0, live.place, live.name);
    var (w1, ok1) := DeleteDev(w0, live.place, live.name);
    MoveFree(w1, live.phy, live.place, Root);
    var (w2, ok2) := if live.place.In? then MovePhy(w1, live.phy, live.place, Root) else (w1, true);
    PutBackFree(w2, live, name, live.place);
    CreateFree(w2, live.phy, Root, name, Managed);
    var (w3, ok3) := CreateDev(w2, live.phy, Root, name, Managed);
    PutBackFree(w3, live, name, Root);
  }

  // ---------------------------------------------------------------- one entry

  lemma SweptFree(w: World)
    ensures Swept(Carefree(w)) == Carefree(Swept(w)) && Swept(w).verdicts == w.verdicts
  {
  }

  lemma FindFree(w: World, e: Entry)
    requires WF(w)
    ensures FindLive(Carefree(w), e) == FindLive(w, e)
  {
    WFUniq(w);
    hide WF, FindLive, Uniq;
    FindSame(w, Carefree(w), e);
  }

  lemma RevertFree(w: World, e: Entry)
    requires WF(w)
    ensures var (v, out) := Reverted(w, e);
            Settled(w, v) && (Unfailed(w, v) ==> OneFailure(v.verdicts) && Reverted(Carefree(w), e) == (Carefree(v), out))
  {
    hide WF, RecreateInRoot, DropSpaceIfEmpty, Swept, FindLive, IsLive, IsCore, OneFailure, Ask;
    SweptFree(w);
    SweptWorks(w, 0);
    var v := Swept(w);
    FindFree(v, e);
    var found := FindLive(v, e);
    if found.Some? {
      FoundIn(v, e);
      var live := LiveOf(v, found.value);
      RecreateFree(v, live, e.interface);
      var (u, out) := RecreateInRoot(v, live, e.interface);
      AskFree(v);
      if live.place.In? {
        DropFree(u, live.place.space);
        CoreFree(u, live.place.space);
      }
    }
  }

  lemma FoundIn(w: World, e: Entry)
    requires FindLive(w, e).Some?
    ensures var d := FindLive(w, e).value; d in w.net.devs && w.net.devs[d].phy in w.net.phys
  {
    hide IsLive;
  }

  lemma CoreFree(w: World, s: Label)
    ensures IsCore(Carefree(w), s) <==> IsCore(w, s)
  {
  }

  lemma RekeyFree(w: World, d: Wdev)
    ensures IsOwned(Carefree(w), d) <==> IsOwned(w, d)
    ensures Rekeyed(Carefree(w), d) == Carefree(Rekeyed(w, d)) && Rekeyed(w, d).verdicts == w.verdicts
    ensures InUse(Carefree(w), d) <==> InUse(w, d)
  {
    if IsOwned(w, d) && w.net.devs[d].phy in w.net.phys {
      var c := Carefree(w);
      assert Claimants(c, d) == Claimants(w, d);
      assert RecordOf(c, d) == RecordOf(w, d);
    }
  }

  /** Deactivating an entry before the failure is deactivating it without one. */
  lemma DeactivateFree(w: World, e: Entry)
    requires WF(w)
    ensures var (v, out) := Deactivated(w, e);
            Settled(w, v) && (Unfailed(w, v) ==> OneFailure(v.verdicts) && Deactivated(Carefree(w), e) == (Carefree(v), out))
  {
    hide WF, Reverted, Rekeyed, Swept, FindLive, IsLive, IsCore, IsOwned, InUse, OneFailure;
    SweptFree(w);
    SweptWorks(w, 0);
    var v := Swept(w);
    FindFree(v, e);
    var found := FindLive(v, e);
    if found.Some? {
      FoundIn(v, e);
      var d := found.value;
      var place := v.net.phys[v.net.devs[d].phy];
      if place.In? {
        CoreFree(v, place.space);
        RevertFree(v, e);
      } else {
        RekeyFree(v, d);
        var u := Rekeyed(v, d);
        RekeyedWorks(v, d, 0);
        RekeyFree(u, d);
        RevertFree(u, e);
      }
    }
  }

  /** And so for a whole list of entries. */
  lemma {:induction false} AllFree(w: World, es: seq<Entry>)
    requires WF(w) && forall e :: e in es ==> Plain(e)
    ensures var v := DeactivatedAll(w, es);
            Settled(w, v) && (Unfailed(w, v) ==> OneFailure(v.verdicts) && DeactivatedAll(Carefree(w), es) == Carefree(v))
    decreases |es|
  {
    hide WF, Deactivated, OneFailure;
    if es != [] {
      DeactivateFree(w, es[0]);
      UndoSafe(w, es[0]);
      AllFree(Deactivated(w, es[0]).0, es[1..]);
    }
  }

  // ---------------------------------------------------------------- no failure at all

  lemma RestoredSettled(w: World, live: Live, newName: Name, movedTo: Place, created: Option<Label>)
    ensures Settled(w, Restored(w, live, newName, movedTo, created))
  {
    hide PutBack, DropSpaceIfEmpty;
    PutBackFree(w, live, newName, movedTo);
    if created.Some? {
      DropFree(PutBack(w, live, newName, movedTo), created.value);
    }
  }

  lemma SetUpSettled(w: World, e: Entry, live: Live, created: Option<Label>)
    ensures Settled(w, SetUp(w, e, live, created).0)
  {
    hide CreateDev, Restored, Claim;
    CreateFree(w, live.phy, e.place, e.display, e.mode);
    var w1 := CreateDev(w, live.phy, e.place, e.display, e.mode).0;
    RestoredSettled(w1, live, e.display, e.place, created);
    RestoredSettled(Ask(w1).0, live, e.display, e.place, created);
  }

  lemma RelocateSettled(w: World, e: Entry, live: Live, created: Option<Label>)
    requires e.place.In? && live.place != e.place
    ensures Settled(w, Relocate(w, e, live, created).0)
  {
    hide MovePhy, Restored, SetUp;
    MoveFree(w, live.phy, live.place, Root);
    var (w1, ok1) := if live.place.In? then MovePhy(w, live.phy, live.place, Root) else (w, true);
    RestoredSettled(w1, live, e.display, live.place, created);
    MoveFree(w1, live.phy, Root, e.place);
    var w2 := MovePhy(w1, live.phy, Root, e.place).0;
    RestoredSettled(w2, live, e.display, Root, created);
    SetUpSettled(w2, e, live, created);
  }

  lemma PreparedSettled(w: World, e: Entry, live: Live)
    ensures Settled(w, Prepared(w, e, live).0)
  {
    hide MovePhy, DeleteDev, Restored, SetUp, Relocate;
    var w1 := if e.place.In? then SpaceReady(w, e.place.space).0 else w;
    DeleteFree(w1, live.place, live.name);
    var w2 := DeleteDev(w1, live.place, live.name).0;
    MoveFree(w2, live.phy, live.place, Root);
    var w3 := MovePhy(w2, live.phy, live.place, Root).0;
    RestoredSettled(w3, live, e.display, live.place, None);
    SetUpSettled(w2, e, live, None);
    SetUpSettled(w3, e, live, None);
    if e.place.In? {
      var created := SpaceReady(w, e.place.space).2;
      SetUpSettled(w2, e, live, created);
      if live.place != e.place {
        RelocateSettled(w2, e, live, created);
      }
    }
  }

  lemma ActivatedSettled(w: World, e: Entry)
    requires WF(w) && Plain(e)
    ensures Settled(w, Activated(w, e).0)
  {
    hide WF, OffRadio, Prepared, Reverted, Swept, FindLive, IsLive, InUse;
    SweptFree(w);
    SweptWorks(w, 0);
    var v := Swept(w);
    var found := FindLive(v, e);
    if found.Some? {
      FoundIn(v, e);
      FoundBacks(v, e);
      var live := LiveOf(v, found.value);
      PreparedSettled(v, e, live);
      PreparedWorks(v, found.value, e, live);
      var u := Prepared(v, e, live).0;
      AskKeeps(u);
      RevertFree(Ask(u).0, e);
    }
  }

  lemma FoundBacks(v: World, e: Entry)
    requires FindLive(v, e).Some?
    ensures var d := FindLive(v, e).value; d in v.net.devs && v.net.devs[d].phy in v.net.phys && Backs(v, d, LiveOf(v, d))
  {
    hide IsLive;
  }
}
