/** A preparation that fails puts everything back. */
module Atomic {
  import opened Bytes
  import opened Netns
  import opened NetnsLaws
  import opened Service
  import opened ServiceLaws
  import opened UndoLaws
  import opened EntryLaws
  import opened Layout

  /** At most one command still fails, and it is the last one whose outcome is fixed: every undo command succeeds. */
  predicate OneFailure(vs: seq<bool>) { vs == [] || (if vs[0] then OneFailure(vs[1..]) else |vs| == 1) }

  /** The netdev `d` gone and created again as `x`. */
  function Again(n: Net, d: Wdev, x: Wdev): Net
    requires d in n.devs
  {
    n.(devs := (n.devs - {d})[x := n.devs[d]])
  }

  lemma AgainShown(n: Net, d: Wdev, x: Wdev)
    requires d in n.devs && x !in n.devs
    ensures Shown(Again(n, d, x)) == Shown(n)
  {
    var m := Again(n, d, x);
    forall v | v in Kinds(n)
      ensures v in Kinds(m)
    {
      var y :| y in n.devs && n.devs[y] == v;
      assert m.devs[if y == d then x else y] == v;
    }
    forall v | v in Kinds(m)
      ensures v in Kinds(n)
    {
      var y :| y in m.devs && m.devs[y] == v;
      assert n.devs[if y == x then d else y] == v;
    }
    assert Kinds(m) == Kinds(n);
  }

  /** While the radio is away its netdev `d` is gone, and perhaps a new one stands in its place. */
  ghost predicate Away(w: World, n: Net, d: Wdev, p: Phy, place: Place, half: Option<(Wdev, Dev)>) {
    var m := At(Minus(n, d), p, place);
    match half
    case None => w.net == m
    case Some(h) => h.0 !in m.devs && w.net == With(m, h.0, h.1)
  }

  /** What the netdevs must be like for a radio to go to `place` and come back unharmed. */
  ghost predicate RoundTrips(n: Net, d: Wdev, live: Live, place: Place) {
    live.place != place ==> Quiet(n, live.phy, d, place) && (live.place.In? ==> Quiet(n, live.phy, d, Root))
  }

  predicate Backed(n: Net, d: Wdev, live: Live) {
    Named(n, d, live.place, live.name) && n.devs[d] == Dev(live.name, live.phy, live.mode)
  }

  /** Moving home from where the radio is: by way of root when it is in a namespace. */
  lemma ComesHome(w: World, n: Net, d: Wdev, live: Live, movedTo: Place)
    requires Uniq(n) && Backed(n, d, live) && w.verdicts == [] && Away(w, n, d, live.phy, movedTo, None)
    requires RoundTrips(n, d, live, movedTo) && (live.place.In? ==> live.place.space in w.spaces)
    ensures var (w2, ok2) := if movedTo != live.place && movedTo.In? then MovePhy(w, live.phy, movedTo, Root) else (w, true);
            var (w3, ok3) := if movedTo != live.place && live.place.In? then MovePhy(w2, live.phy, Root, live.place) else (w2, true);
            ok2 && ok3 && w3 == w.(net := Minus(n, d))
  {
    var p := live.phy;
    var m := Minus(n, d);
    hide Carried, Quiet, Uniq;
    QuietHome(n, p, d);
    QuietAt(n, p, d, movedTo, Root);
    QuietAt(n, p, d, movedTo, live.place);
    QuietAt(n, p, d, Root, live.place);
    assert At(m, p, live.place) == m;
    assert At(m, p, movedTo) == Minus(At(n, p, movedTo), d);
    assert At(m, p, Root) == Minus(At(n, p, Root), d);
    if movedTo != live.place {
      if movedTo.In? {
        AllMoves(w, p, movedTo, Root);
        MinusMoved(At(n, p, movedTo), p, d, Root);
        assert At(At(m, p, movedTo), p, Root) == At(m, p, Root);
        if live.place.In? {
          AllMoves(w.(net := At(m, p, Root)), p, Root, live.place);
          MinusMoved(At(n, p, Root), p, d, live.place);
          assert At(At(m, p, Root), p, live.place) == m;
        }
      } else {
        AllMoves(w, p, Root, live.place);
        MinusMoved(At(n, p, Root), p, d, live.place);
        assert At(At(m, p, Root), p, live.place) == m;
      }
    }
  }

  /** The undo recreates the original, under a new identifier. */
  lemma PutBackNet(w: World, n: Net, d: Wdev, live: Live, newName: Name, movedTo: Place, half: Option<(Wdev, Dev)>)
    requires WF(w) && Uniq(n) && Backed(n, d, live) && w.verdicts == [] && Away(w, n, d, live.phy, movedTo, half)
    requires RoundTrips(n, d, live, movedTo) && (live.place.In? ==> live.place.space in w.spaces)
    requires half.Some? ==> half.value.1.name == newName && half.value.1.phy == live.phy
    requires half.None? ==> !HalfMade(w, live, newName, movedTo)
    ensures PutBack(w, live, newName, movedTo) ==
            w.(net := Again(n, d, w.nextWdev), nextWdev := w.nextWdev + 1, made := w.made + {w.nextWdev})
  {
    var p := live.phy;
    WFKnown(w);
    hide Carried, Quiet, Without;
    var w1 := w.(net := At(Minus(n, d), p, movedTo));
    if half.Some? {
      var h := half.value.0;
      WFUniq(w);
      assert Named(w.net, h, movedTo, newName);
      WithoutOne(w.net, h, movedTo, newName);
      assert Minus(w.net, h).devs == w1.net.devs;
    }
    hide WF, HalfMade, Uniq;
    ComesHome(w1, n, d, live, movedTo);
    var w3 := w1.(net := Minus(n, d));
    NotTaken(n, d, live);
    hide Taken;
    var v := CreateDev(w3, p, live.place, live.name, live.mode).0;
    assert v.net == Again(n, d, w.nextWdev);
  }

  lemma NotTaken(n: Net, d: Wdev, live: Live)
    requires Uniq(n) && Backed(n, d, live)
    ensures !Taken(Minus(n, d), live.place, live.name)
  {
    var m := Minus(n, d);
    if x :| x in m.devs && Named(m, x, live.place, live.name) {
      assert Named(n, x, live.place, live.name);
      assert false;
    }
  }

  // ---------------------------------------------------------------- the steps after the delete

  /** No netdev of the radio other than `d` has the entry's display name, or meets a namesake on the way. */
  ghost predicate Smooth(n: Net, d: Wdev, e: Entry, live: Live) {
    && (forall x :: x in n.devs && x != d && n.devs[x].phy == live.phy ==> n.devs[x].name != e.display)
    && RoundTrips(n, d, live, e.place)
  }

  lemma AskOnce(w: World)
    requires OneFailure(w.verdicts)
    ensures var (v, ok) := Ask(w); v == w.(verdicts := v.verdicts) && OneFailure(v.verdicts) && (!ok ==> v.verdicts == [])
  {
  }

  /** No netdev of the radio is called like the entry while it is away. */
  lemma NothingHalfMade(w: World, n: Net, d: Wdev, e: Entry, live: Live, place: Place)
    requires Smooth(n, d, e, live) && Away(w, n, d, live.phy, place, None)
    ensures !HalfMade(w, live, e.display, place)
  {
    hide RoundTrips;
  }

  /** The original is back under a new identifier, and the namespace this call created is gone. */
  ghost predicate Returned(w: World, v: World, n: Net, d: Wdev, created: Option<Label>) {
    && d in n.devs && v.nextWdev > w.nextWdev && v.net == Again(n, d, v.nextWdev - 1) && v.owned == w.owned && v.verdicts == []
    && v.spaces == (if created.Some? then w.spaces - {created.value} else w.spaces)
    && v.markers == (if created.Some? then w.markers - {created.value} else w.markers)
  }

  /** Nothing else is in the namespace created for the entry. */
  predicate OwnSpace(w: World, n: Net, created: Option<Label>) {
    created.Some? ==> created.value !in w.busy && Vacant(n, created.value)
  }

  lemma RestoredNet(w: World, n: Net, d: Wdev, live: Live, newName: Name, movedTo: Place, half: Option<(Wdev, Dev)>, created: Option<Label>)
    requires WF(w) && Uniq(n) && Backed(n, d, live) && w.verdicts == [] && Away(w, n, d, live.phy, movedTo, half)
    requires RoundTrips(n, d, live, movedTo) && (live.place.In? ==> live.place.space in w.spaces)
    requires half.Some? ==> half.value.1.name == newName && half.value.1.phy == live.phy
    requires half.None? ==> !HalfMade(w, live, newName, movedTo)
    requires OwnSpace(w, n, created)
    ensures Returned(w, Restored(w, live, newName, movedTo, created), n, d, created)
  {
    hide WF, Uniq, Away, RoundTrips, HalfMade, PutBack;
    PutBackNet(w, n, d, live, newName, movedTo, half);
    var v := PutBack(w, live, newName, movedTo);
    if created.Some? {
      assert v.net.phys == n.phys;
      assert !HoldsLinks(v, created.value);
      DropsEmpty(v, created.value);
    }
  }

  lemma DropsEmpty(w: World, s: Label)
    requires w.verdicts == [] && !HoldsLinks(w, s)
    ensures DropSpaceIfEmpty(w, s) == w.(spaces := w.spaces - {s}, markers := w.markers - {s})
  {
    if s !in w.spaces {
      assert w.spaces - {s} == w.spaces;
    }
  }

  lemma SetUpUndone(w: World, n: Net, d: Wdev, e: Entry, live: Live, created: Option<Label>)
    requires WF(w) && Uniq(n) && Backed(n, d, live) && OneFailure(w.verdicts) && Away(w, n, d, live.phy, e.place, None)
    requires Plain(e) && Smooth(n, d, e, live) && (live.place.In? ==> live.place.space in w.spaces) && OwnSpace(w, n, created)
    requires live.phy in n.phys && Reusable(w, live.name)
    requires SetUp(w, e, live, created).1 != Done
    ensures Returned(w, SetUp(w, e, live, created).0, n, d, created) && SetUp(w, e, live, created).1 == Raised
  {
    hide WF, Uniq, OneFailure, RoundTrips, HalfMade, Restored, CreateDev, Ask, Taken;
    var (w1, ok1) := CreateDev(w, live.phy, e.place, e.display, e.mode);
    CreateOnce(w, live.phy, e.place, e.display, e.mode);
    CreateWorks(w, live.phy, e.place, e.display, e.mode);
    CreateDevKeeps(w, live.phy, e.place, e.display, e.mode);
    if !ok1 {
      NothingHalfMade(w1, n, d, e, live, e.place);
      RestoredNet(w1, n, d, live, e.display, e.place, None, created);
    } else {
      var (w2, ok2) := Ask(w1);
      AskOnce(w1);
      AskKeeps(w1);
      if Taken(w.net, e.place, e.display) {
        NothingHalfMade(w2, n, d, e, live, e.place);
        RestoredNet(w2, n, d, live, e.display, e.place, None, created);
      } else {
        WFKnown(w);
        RestoredNet(w2, n, d, live, e.display, e.place, Some((w.nextWdev, Dev(e.display, live.phy, e.mode))), created);
      }
    }
  }

  lemma CreateOnce(w: World, p: Phy, place: Place, name: Name, mode: Mode)
    requires OneFailure(w.verdicts) && p in w.net.phys && w.net.phys[p] == place
    ensures var (v, ok) := CreateDev(w, p, place, name, mode); OneFailure(v.verdicts) && (!ok ==> v == w.(verdicts := []))
  {
    hide Taken;
  }

  lemma MoveOnce(w: World, p: Phy, from: Place, to: Place)
    requires OneFailure(w.verdicts) && p in w.net.phys && w.net.phys[p] == from && (to.In? ==> to.space in w.spaces)
    ensures var (v, ok) := MovePhy(w, p, from, to);
            && OneFailure(v.verdicts) && (!ok ==> v == w.(verdicts := []))
            && (ok ==> v == w.(net := Carried(w.net, p, to), verdicts := v.verdicts))
  {
    hide Carried;
  }

  /** A hop of the radio without its netdev `d`. */
  lemma HopOnce(w: World, n: Net, d: Wdev, p: Phy, from: Place, to: Place)
    requires OneFailure(w.verdicts) && p in n.phys && Away(w, n, d, p, from, None) && Quiet(n, p, d, to) && (to.In? ==> to.space in w.spaces)
    ensures var (v, ok) := MovePhy(w, p, from, to);
            && OneFailure(v.verdicts) && (!ok ==> v == w.(verdicts := []))
            && (ok ==> v == w.(net := v.net, verdicts := v.verdicts) && Away(v, n, d, p, to, None))
  {
    hide Carried, Quiet, OneFailure;
    MoveOnce(w, p, from, to);
    QuietAt(n, p, d, from, to);
    MinusMoved(At(n, p, from), p, d, to);
    assert At(Minus(n, d), p, from) == Minus(At(n, p, from), d);
    assert At(At(Minus(n, d), p, from), p, to) == At(Minus(n, d), p, to);
  }

  lemma ReturnedTrans(w: World, v: World, u: World, n: Net, d: Wdev, created: Option<Label>)
    requires v == w.(net := v.net, verdicts := v.verdicts) && Returned(v, u, n, d, created)
    ensures Returned(w, u, n, d, created)
  {
  }

  lemma RelocateUndone(w: World, n: Net, d: Wdev, e: Entry, live: Live, created: Option<Label>)
    requires e.place.In? && live.place != e.place && e.place.space in w.spaces
    requires WF(w) && Uniq(n) && Backed(n, d, live) && OneFailure(w.verdicts) && Away(w, n, d, live.phy, live.place, None)
    requires Plain(e) && Smooth(n, d, e, live) && (live.place.In? ==> live.place.space in w.spaces) && OwnSpace(w, n, created)
    requires live.phy in n.phys && Reusable(w, live.name)
    requires Relocate(w, e, live, created).1 != Done
    ensures Returned(w, Relocate(w, e, live, created).0, n, d, created)
  {
    hide WF, Uniq, OneFailure, HalfMade, Restored, MovePhy, SetUp, Quiet;
    QuietHome(n, live.phy, d);
    assert Quiet(n, live.phy, d, Root);
    var (w1, ok1) := if live.place.In? then MovePhy(w, live.phy, live.place, Root) else (w, true);
    if live.place.In? {
      HopOnce(w, n, d, live.phy, live.place, Root);
      MoveWorks(w, live.phy, live.place, Root);
    }
    if !ok1 {
      NothingHalfMade(w1, n, d, e, live, live.place);
      RestoredNet(w1, n, d, live, e.display, live.place, None, created);
      ReturnedTrans(w, w1, Relocate(w, e, live, created).0, n, d, created);
    } else {
      HopOnce(w1, n, d, live.phy, Root, e.place);
      MoveWorks(w1, live.phy, Root, e.place);
      var (w2, ok2) := MovePhy(w1, live.phy, Root, e.place);
      if !ok2 {
        NothingHalfMade(w2, n, d, e, live, Root);
        RestoredNet(w2, n, d, live, e.display, Root, None, created);
      } else {
        StillReusable(w1, w2, live.name);
        SetUpUndone(w2, n, d, e, live, created);
      }
      ReturnedTrans(w, w2, Relocate(w, e, live, created).0, n, d, created);
    }
  }

  lemma DeleteOnce(w: World, d: Wdev, live: Live)
    requires OneFailure(w.verdicts) && Uniq(w.net) && Backed(w.net, d, live)
    ensures var (v, ok) := DeleteDev(w, live.place, live.name);
            && OneFailure(v.verdicts) && (!ok ==> v == w.(verdicts := []))
            && (ok ==> v == w.(net := v.net, verdicts := v.verdicts) && Away(v, w.net, d, live.phy, live.place, None))
  {
    WithoutOne(w.net, d, live.place, live.name);
    assert At(Minus(w.net, d), live.phy, live.place) == Minus(w.net, d);
    hide Without;
  }

  /** The failure is past, and things are as they were: nothing of the layout or of Core's files differs. */
  ghost predicate Unmoved(w: World, v: World) {
    v.net == w.net && v.owned == w.owned && v.spaces == w.spaces && v.markers == w.markers && v.verdicts == []
  }

  lemma PrepareRootUndone(w: World, d: Wdev, e: Entry, live: Live)
    requires WF(w) && Plain(e) && Backed(w.net, d, live) && OneFailure(w.verdicts) && Smooth(w.net, d, e, live)
    requires e.place == Root && PrepareRoot(w, e, live).1 != Done
    ensures var v := PrepareRoot(w, e, live).0; Unmoved(w, v) || Returned(w, v, w.net, d, None)
  {
    WFUniq(w);
    Live0(w, d, live);
    hide WF, Uniq, OneFailure, HalfMade, Restored, MovePhy, SetUp, Quiet, DeleteDev;
    var n := w.net;
    QuietHome(n, live.phy, d);
    DeleteOnce(w, d, live);
    LiveDeleted(w, d, live);
    var (w1, ok1) := DeleteDev(w, live.place, live.name);
    if ok1 {
      if live.place == Root {
        SetUpUndone(w1, n, d, e, live, None);
        ReturnedTrans(w, w1, PrepareRoot(w, e, live).0, n, d, None);
      } else {
        HopOnce(w1, n, d, live.phy, live.place, Root);
        MoveWorks(w1, live.phy, live.place, Root);
        var (w2, ok2) := MovePhy(w1, live.phy, live.place, Root);
        if !ok2 {
          NothingHalfMade(w2, n, d, e, live, live.place);
          RestoredNet(w2, n, d, live, e.display, live.place, None, None);
        } else {
          StillReusable(w1, w2, live.name);
          SetUpUndone(w2, n, d, e, live, None);
        }
        ReturnedTrans(w, w2, PrepareRoot(w, e, live).0, n, d, None);
      }
    }
  }

  lemma Live0(w: World, d: Wdev, live: Live)
    requires WF(w) && Backed(w.net, d, live)
    ensures Backs(w, d, live) && live.phy in w.net.phys && (live.place.In? ==> live.place.space in w.spaces)
  {
  }

  /** The delete of the live netdev is what fails, after a namespace was created for the entry. */
  predicate DeleteFailsLate(w: World, e: Entry) { e.place.In? && e.place.space !in w.spaces && w.verdicts == [true, true, false] }

  /** The steps once the entry's namespace is there. */
  lemma MovedInUndone(w: World, d: Wdev, e: Entry, live: Live, created: Option<Label>)
    requires WF(w) && Plain(e) && Backed(w.net, d, live) && OneFailure(w.verdicts) && Smooth(w.net, d, e, live)
    requires e.place.In? && e.place.space in w.spaces && OwnSpace(w, w.net, created)
    ensures var (w2, ok2) := DeleteDev(w, live.place, live.name);
            if !ok2 then w2 == w.(verdicts := [])
            else
              var (v, out) := if live.place == e.place then SetUp(w2, e, live, created) else Relocate(w2, e, live, created);
              out != Done ==> Returned(w, v, w.net, d, created)
  {
    WFUniq(w);
    Live0(w, d, live);
    hide WF, Uniq, OneFailure, HalfMade, Restored, MovePhy, SetUp, Quiet, DeleteDev, Relocate;
    DeleteOnce(w, d, live);
    LiveDeleted(w, d, live);
    var (w2, ok2) := DeleteDev(w, live.place, live.name);
    if ok2 {
      var (v, out) := if live.place == e.place then SetUp(w2, e, live, created) else Relocate(w2, e, live, created);
      if out != Done {
        if live.place == e.place {
          SetUpUndone(w2, w.net, d, e, live, created);
        } else {
          RelocateUndone(w2, w.net, d, e, live, created);
        }
        ReturnedTrans(w, w2, v, w.net, d, created);
      }
    }
  }

  /** The three ways in which getting the namespace ready ends, when at most one command fails. */
  lemma ReadyOnce(w: World, s: Label)
    requires OneFailure(w.verdicts) && s !in w.markers
    ensures var (v, out, created) := SpaceReady(w, s);
            && OneFailure(v.verdicts) && v.net == w.net && v.owned == w.owned && v.nextWdev == w.nextWdev && v.busy == w.busy
            && (out != Done ==> v.spaces == w.spaces && v.markers == w.markers && v.verdicts == [])
            && (out == Done && s in w.spaces ==> v == w)
  {
  }

  lemma ReadyVerdicts(w: World, s: Label)
    requires OneFailure(w.verdicts) && s !in w.spaces && SpaceReady(w, s).1 == Done
    ensures var v := SpaceReady(w, s).0.verdicts; v == [false] <==> w.verdicts == [true, true, false]
  {
    var (w1, ok1) := CreateSpace(w, s);
    if w.verdicts != [] && w1.verdicts != [] {
      assert w.verdicts == [w.verdicts[0]] + w1.verdicts;
      assert w1.verdicts == [w1.verdicts[0]] + w1.verdicts[1..];
    }
  }

  lemma PrepareSpaceUndone(w: World, d: Wdev, e: Entry, live: Live)
    requires WF(w) && Plain(e) && Backed(w.net, d, live) && OneFailure(w.verdicts) && Smooth(w.net, d, e, live)
    requires e.place.In? && PrepareSpace(w, e, live).1 != Done
    requires e.place.space !in w.spaces ==> e.place.space !in w.markers && e.place.space !in w.busy
    ensures var v := PrepareSpace(w, e, live).0;
            if DeleteFailsLate(w, e) then
              v.net == w.net && v.owned == w.owned && v.verdicts == [] && Readied(w, v, e.place.space) && PrepareSpace(w, e, live).1 == Raised
            else Unmoved(w, v) || Returned(w, v, w.net, d, None)
  {
    var s := e.place.space;
    VacantSpace(w, s);
    hide WF, Uniq, OneFailure, SetUp, DeleteDev, Relocate, SpaceReady, Smooth, Backed, Vacant, Returned;
    var (w1, ready, created) := SpaceReady(w, s);
    SpaceReadyKeeps(w, s);
    SpaceFirst(w, s);
    if ready == Done {
      SpaceReadyDone(w, s);
      DeleteAsks(w1, live.place, live.name);
      MovedInUndone(w1, d, e, live, created);
      var v := PrepareSpace(w, e, live).0;
      if DeleteDev(w1, live.place, live.name).1 {
        SpaceGone(w, w1, v, w.net, d, s, created);
      }
    }
  }

  lemma SpaceGone(w: World, w1: World, v: World, n: Net, d: Wdev, s: Label, created: Option<Label>)
    requires Readied(w, w1, s) && w1.owned == w.owned && w1.nextWdev == w.nextWdev && (s !in w.spaces ==> s !in w.markers)
    requires created == (if s in w.spaces then None else Some(s)) && Returned(w1, v, n, d, created)
    ensures Returned(w, v, n, d, None)
  {
    if created.Some? {
      assert w1.spaces - {s} == w.spaces;
      assert w1.markers - {s} == w.markers;
    }
  }

  lemma VacantSpace(w: World, s: Label)
    requires WF(w)
    ensures s !in w.spaces ==> Vacant(w.net, s)
  {
  }

  lemma DeleteAsks(w: World, place: Place, name: Name)
    requires OneFailure(w.verdicts)
    ensures DeleteDev(w, place, name).1 <==> w.verdicts != [false]
  {
  }

  lemma SpaceFirst(w: World, s: Label)
    requires OneFailure(w.verdicts) && (s !in w.spaces ==> s !in w.markers)
    ensures var (v, out, created) := SpaceReady(w, s);
            && OneFailure(v.verdicts) && v.net == w.net && v.owned == w.owned && v.nextWdev == w.nextWdev && v.busy == w.busy
            && (out != Done ==> s !in w.spaces && Unmoved(w, v) && w.verdicts != [true, true, false])
            && (out == Done && s in w.spaces ==> v == w)
            && (out == Done && s !in w.spaces ==> (v.verdicts == [false] <==> w.verdicts == [true, true, false]))
  {
    if s !in w.spaces {
      ReadyOnce(w, s);
      if SpaceReady(w, s).1 == Done {
        ReadyVerdicts(w, s);
      }
    }
  }

  /**
   A preparation in which one command fails and the undo's commands succeed leaves the layout, the ownership
   records and the namespaces as they were, the original netdev perhaps under a new identifier. The one
   exception is a first delete that fails after a namespace was created for the entry: that namespace stays.
   */
  lemma FailureAtomic(w: World, d: Wdev, e: Entry, live: Live)
    requires WF(w) && Plain(e) && Backed(w.net, d, live) && OneFailure(w.verdicts) && Smooth(w.net, d, e, live)
    requires forall s :: s in w.markers ==> IsCore(w, s)
    requires e.place.In? && e.place.space !in w.spaces ==> e.place.space !in w.busy
    requires Prepared(w, e, live).1 != Done
    ensures var v := Prepared(w, e, live).0;
            && Shown(v.net) == Shown(w.net) && v.owned == w.owned
            && (v.net == w.net || (v.nextWdev > w.nextWdev && v.net == Again(w.net, d, v.nextWdev - 1)))
            && (v.spaces == w.spaces && v.markers == w.markers <==> !DeleteFailsLate(w, e))
            && v.verdicts == [] && v.used == w.used && v.busy == w.busy
            && (DeleteFailsLate(w, e) ==> v.net == w.net && Readied(w, v, e.place.space))
  {
    hide WF, OneFailure, PrepareSpace, PrepareRoot, Smooth, Returned, Readied;
    var v := Prepared(w, e, live).0;
    Backing(w, d, live);
    PreparedWorks(w, d, e, live);
    if e.place.In? {
      PrepareSpaceUndone(w, d, e, live);
    } else {
      PrepareRootUndone(w, d, e, live);
    }
    if DeleteFailsLate(w, e) {
      ReadiedAdds(w, v, e.place.space);
    } else if Returned(w, v, w.net, d, None) {
      ReturnedShown(w, v, d);
    }
  }

  lemma Backing(w: World, d: Wdev, live: Live)
    requires Backed(w.net, d, live)
    ensures Backs(w, d, live)
  {
  }

  lemma ReadiedAdds(w: World, v: World, s: Label)
    requires Readied(w, v, s) && s !in w.spaces
    ensures v.spaces != w.spaces
  {
    assert s in v.spaces;
  }

  lemma ReturnedShown(w: World, v: World, d: Wdev)
    requires WF(w) && Returned(w, v, w.net, d, None)
    ensures Shown(v.net) == Shown(w.net) && v.owned == w.owned && v.spaces == w.spaces && v.markers == w.markers
    ensures v.verdicts == [] && v.nextWdev > w.nextWdev && d in w.net.devs && v.net == Again(w.net, d, v.nextWdev - 1)
  {
    WFKnown(w);
    hide WF;
    AgainShown(w.net, d, v.nextWdev - 1);
  }

  // ---------------------------------------------------------------- outcomes still to come

  lemma CommandsOnce(w: World, place: Place, name: Name, p: Phy, from: Place, to: Place, s: Label, mode: Mode)
    requires OneFailure(w.verdicts)
    ensures OneFailure(DeleteDev(w, place, name).0.verdicts) && OneFailure(MovePhy(w, p, from, to).0.verdicts)
    ensures OneFailure(CreateSpace(w, s).0.verdicts) && OneFailure(CreateDev(w, p, place, name, mode).0.verdicts)
    ensures OneFailure(Ask(w).0.verdicts)
  {
    hide Without, Carried, Taken;
  }

  lemma SetUpOnce(w: World, e: Entry, live: Live, created: Option<Label>)
    requires OneFailure(w.verdicts) && SetUp(w, e, live, created).1 == Done
    ensures OneFailure(SetUp(w, e, live, created).0.verdicts)
  {
    hide CreateDev, Ask, OneFailure, Restored, Claim;
    CommandsOnce(w, e.place, e.display, live.phy, Root, Root, 0, e.mode);
    CommandsOnce(CreateDev(w, live.phy, e.place, e.display, e.mode).0, Root, e.display, 0, Root, Root, 0, e.mode);
  }

  lemma SpaceReadyOnce(w: World, s: Label)
    requires OneFailure(w.verdicts) && SpaceReady(w, s).1 == Done
    ensures OneFailure(SpaceReady(w, s).0.verdicts)
  {
    hide CreateSpace, Ask, OneFailure, DeleteSpace;
    CommandsOnce(w, Root, Picked(0), 0, Root, Root, s, Managed);
    CommandsOnce(CreateSpace(w, s).0, Root, Picked(0), 0, Root, Root, s, Managed);
  }

  lemma RelocateOnce(w: World, e: Entry, live: Live, created: Option<Label>)
    requires OneFailure(w.verdicts) && e.place.In? && live.place != e.place && Relocate(w, e, live, created).1 == Done
    ensures OneFailure(Relocate(w, e, live, created).0.verdicts)
  {
    hide MovePhy, OneFailure, Restored, SetUp;
    CommandsOnce(w, Root, live.name, live.phy, live.place, Root, 0, Managed);
    var (w1, ok1) := if live.place.In? then MovePhy(w, live.phy, live.place, Root) else (w, true);
    CommandsOnce(w1, Root, live.name, live.phy, Root, e.place, 0, Managed);
    SetUpOnce(MovePhy(w1, live.phy, Root, e.place).0, e, live, created);
  }

  /** A preparation that is done leaves at most one failure to come. */
  lemma PreparedOnce(w: World, e: Entry, live: Live)
    requires OneFailure(w.verdicts) && Prepared(w, e, live).1 == Done
    ensures OneFailure(Prepared(w, e, live).0.verdicts)
  {
    hide DeleteDev, MovePhy, OneFailure, Restored, SetUp, SpaceReady, Relocate;
    var (w1, ready, created) := if e.place.In? then SpaceReady(w, e.place.space) else (w, Done, None);
    if e.place.In? {
      SpaceReadyOnce(w, e.place.space);
    }
    CommandsOnce(w1, live.place, live.name, 0, Root, Root, 0, Managed);
    var w2 := DeleteDev(w1, live.place, live.name).0;
    CommandsOnce(w2, Root, live.name, live.phy, live.place, Root, 0, Managed);
    if live.place == e.place {
      SetUpOnce(w2, e, live, created);
    } else if e.place.In? {
      RelocateOnce(w2, e, live, created);
    } else {
      SetUpOnce(MovePhy(w2, live.phy, live.place, Root).0, e, live, None);
    }
  }
}
