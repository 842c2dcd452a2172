/** How activating and deactivating an entry end, by which command fails. */
module Failures {
  import opened Bytes
  import opened Netns
  import opened NetnsLaws
  import opened Service
  import opened ServiceLaws
  import opened UndoLaws
  import opened EntryLaws
  import opened Ownership
  import opened Layout
  import opened Atomic
  import FindLaws
  import LeftAlone

  // ---------------------------------------------------------------- which failure ends it how

  /** The outcomes left after one command, and after `k` of them. */
  function Spent(vs: seq<bool>): seq<bool> { if vs == [] then [] else vs[1..] }

  function Later(vs: seq<bool>, k: nat): seq<bool>
    decreases k
  {
    if k == 0 then vs else Later(Spent(vs), k - 1)
  }

  lemma LaterOpens(vs: seq<bool>)
    ensures Later(vs, 2) == Spent(Spent(vs)) && Later(vs, 3) == Spent(Spent(Spent(vs)))
    ensures Later(vs, 4) == Later(Spent(Spent(vs)), 2)
  {
    assert Later(vs, 3) == Later(Spent(vs), 2);
    assert Later(vs, 4) == Later(Spent(vs), 3) && Later(Spent(vs), 3) == Later(Spent(Spent(vs)), 2);
  }

  /** `b` commands whose failure raises, `m` whose failure is refused, and `n` more whose failure raises: the first failure decides. */
  function EndsAs(vs: seq<bool>, b: nat, m: nat, n: nat): Outcome
    decreases b + m + n
  {
    var failed := vs != [] && !vs[0];
    if b > 0 then (if failed then Raised else EndsAs(Spent(vs), b - 1, m, n))
    else if m > 0 then (if failed then Refused else EndsAs(Spent(vs), 0, m - 1, n))
    else if n > 0 then (if failed then Raised else EndsAs(Spent(vs), 0, 0, n - 1))
    else Done
  }

  lemma EndsOpens(vs: seq<bool>, k: nat)
    ensures EndsAs(vs, k + 1, 0, 0) == if vs != [] && !vs[0] then Raised else EndsAs(Spent(vs), k, 0, 0)
    ensures EndsAs(vs, 0, 0, 0) == Done
  {
  }

  lemma Asks(w: World)
    ensures Ask(w) == (w.(verdicts := Spent(w.verdicts)), w.verdicts == [] || w.verdicts[0])
  {
  }

  lemma SetUpEnds(w: World, e: Entry, live: Live, created: Option<Label>)
    requires live.phy in w.net.phys && w.net.phys[live.phy] == e.place
    ensures SetUp(w, e, live, created).1 == EndsAs(w.verdicts, 0, 0, 2)
    ensures SetUp(w, e, live, created).1 == Done ==> SetUp(w, e, live, created).0.verdicts == Later(w.verdicts, 2)
  {
    hide Restored, Claim, Taken;
    LaterOpens(w.verdicts);
    Asks(w);
    var (w1, ok1) := CreateDev(w, live.phy, e.place, e.display, e.mode);
    assert w1.verdicts == Spent(w.verdicts);
    Asks(w1);
  }

  lemma MoveEnds(w: World, p: Phy, from: Place, to: Place)
    requires p in w.net.phys && w.net.phys[p] == from && (to.In? ==> to.space in w.spaces)
    ensures var (v, ok) := MovePhy(w, p, from, to);
            && ok == (w.verdicts == [] || w.verdicts[0]) && v.verdicts == Spent(w.verdicts) && v.spaces == w.spaces
            && (ok ==> v.net.phys == w.net.phys[p := to]) && (!ok ==> v.net == w.net)
  {
    hide Clashes;
  }

  lemma DeleteEnds(w: World, place: Place, name: Name)
    ensures var (v, ok) := DeleteDev(w, place, name);
            && ok == (w.verdicts == [] || w.verdicts[0]) && v.verdicts == Spent(w.verdicts) && v.spaces == w.spaces && v.net.phys == w.net.phys
  {
  }

  /** How often the radio has to move. */
  function Hops(from: Place, to: Place): nat { if from == to then 0 else if from.In? && to.In? then 2 else 1 }

  lemma RelocateEnds(w: World, e: Entry, live: Live, created: Option<Label>)
    requires e.place.In? && live.place != e.place && live.phy in w.net.phys && w.net.phys[live.phy] == live.place && e.place.space in w.spaces
    ensures var (v, out) := Relocate(w, e, live, created);
            out == EndsAs(w.verdicts, 0, Hops(live.place, e.place), 2)
            && (out == Done ==> v.verdicts == Later(w.verdicts, Hops(live.place, e.place) + 2))
  {
    hide MovePhy, SetUp, Restored;
    LaterOpens(w.verdicts);
    MoveEnds(w, live.phy, live.place, Root);
    var (w1, ok1) := if live.place.In? then MovePhy(w, live.phy, live.place, Root) else (w, true);
    if ok1 {
      MoveEnds(w1, live.phy, Root, e.place);
      var (w2, ok2) := MovePhy(w1, live.phy, Root, e.place);
      if ok2 {
        SetUpEnds(w2, e, live, created);
      }
    }
  }

  lemma SpaceEnds(w: World, s: Label)
    ensures var (v, out, created) := SpaceReady(w, s);
            if s in w.spaces then (v, out, created) == (w, Done, None)
            else
              && out == EndsAs(w.verdicts, 2, 0, 0)
              && (out == Done ==> v.verdicts == Later(w.verdicts, 2) && s in v.spaces && v.net == w.net)
  {
    hide DeleteSpace;
    LaterOpens(w.verdicts);
    Asks(w);
    if s !in w.spaces {
      var w1 := CreateSpace(w, s).0;
      Asks(w1);
    }
  }

  lemma {:induction false} EndsThen(vs: seq<bool>, k: nat, b: nat, m: nat, n: nat)
    ensures EndsAs(vs, b + k, m, n) == if EndsAs(vs, k, 0, 0) == Done then EndsAs(Later(vs, k), b, m, n) else Raised
    decreases k
  {
    if k > 0 {
      EndsThen(Spent(vs), k - 1, b, m, n);
    }
  }

  lemma {:induction false} LaterThen(vs: seq<bool>, j: nat, k: nat)
    ensures Later(Later(vs, j), k) == Later(vs, j + k)
    decreases j
  {
    if j > 0 {
      LaterThen(Spent(vs), j - 1, k);
    }
  }

  /** The commands before the radio is moved: a namespace to create and bring up, and the live netdev to delete. */
  function First(w: World, e: Entry): nat { if e.place.In? && e.place.space !in w.spaces then 3 else 1 }

  lemma RootEnds(w: World, e: Entry, live: Live)
    requires e.place == Root && live.phy in w.net.phys && w.net.phys[live.phy] == live.place
    ensures var (v, out) := PrepareRoot(w, e, live); var m := Hops(live.place, Root);
            out == EndsAs(w.verdicts, 1, m, 2) && (out == Done ==> v.verdicts == Later(w.verdicts, m + 3))
  {
    hide MovePhy, SetUp, Restored, DeleteDev;
    DeleteEnds(w, live.place, live.name);
    var (w1, ok1) := DeleteDev(w, live.place, live.name);
    if ok1 {
      if live.place == Root {
        SetUpEnds(w1, e, live, None);
      } else {
        MoveEnds(w1, live.phy, live.place, Root);
        var (w2, ok2) := MovePhy(w1, live.phy, live.place, Root);
        if ok2 {
          SetUpEnds(w2, e, live, None);
        }
      }
    }
  }

  lemma InSpaceEnds(w1: World, e: Entry, live: Live, created: Option<Label>)
    requires e.place.In? && live.phy in w1.net.phys && w1.net.phys[live.phy] == live.place && e.place.space in w1.spaces
    ensures var (w2, ok2) := DeleteDev(w1, live.place, live.name);
            var (v, out) := if !ok2 then (w2, Raised)
                            else if live.place == e.place then SetUp(w2, e, live, created) else Relocate(w2, e, live, created);
            var m := Hops(live.place, e.place);
            out == EndsAs(w1.verdicts, 1, m, 2) && (out == Done ==> v.verdicts == Later(w1.verdicts, m + 3))
  {
    hide SetUp, Relocate, DeleteDev;
    DeleteEnds(w1, live.place, live.name);
    var (w2, ok2) := DeleteDev(w1, live.place, live.name);
    if ok2 {
      if live.place == e.place {
        SetUpEnds(w2, e, live, created);
      } else {
        RelocateEnds(w2, e, live, created);
      }
    }
  }

  lemma PreparedEnds(w: World, e: Entry, live: Live)
    requires live.phy in w.net.phys && w.net.phys[live.phy] == live.place
    ensures var (v, out) := Prepared(w, e, live); var m := Hops(live.place, e.place);
            out == EndsAs(w.verdicts, First(w, e), m, 2) && (out == Done ==> v.verdicts == Later(w.verdicts, First(w, e) + m + 2))
  {
    hide PrepareRoot, SetUp, Relocate, DeleteDev, SpaceReady;
    if e.place == Root {
      RootEnds(w, e, live);
    } else {
      var m := Hops(live.place, e.place);
      SpaceEnds(w, e.place.space);
      var (w1, ready, created) := SpaceReady(w, e.place.space);
      if ready == Done {
        InSpaceEnds(w1, e, live, created);
      }
      if e.place.space !in w.spaces {
        EndsThen(w.verdicts, 2, 1, m, 2);
        LaterThen(w.verdicts, 2, m + 3);
      }
    }
  }

  lemma {:induction false} EndsAtLast(vs: seq<bool>, b: nat, m: nat, n: nat)
    ensures var out := EndsAs(vs, b, m, n); var last := Later(vs, b + m + n);
            EndsAs(vs, b, m, n + 1) == if out != Done then out else if last != [] && !last[0] then Raised else Done
    decreases b + m + n
  {
    if b > 0 {
      EndsAtLast(Spent(vs), b - 1, m, n);
    } else if m > 0 {
      EndsAtLast(Spent(vs), 0, m - 1, n);
    } else if n > 0 {
      EndsAtLast(Spent(vs), 0, 0, n - 1);
    } else {
    }
  }

  /**
   How the activation of an entry whose netdev is free ends, by the first of its commands that fails: a move of the
   radio makes it return failure; creating the namespace, the deletion, the creation, bringing up, or the start of services
   raise. If none fails the entry is up.
   */
  lemma StatusExactly(w: World, e: Entry, d: Wdev)
    requires WF(w) && FindLive(Swept(w), e) == Some(d) && d !in w.used && w.net.devs[d].mode != Foreign
    ensures d in w.net.devs && w.net.devs[d].phy in w.net.phys
    ensures var m := Hops(w.net.phys[w.net.devs[d].phy], e.place);
            Activated(w, e).1 ==
            match EndsAs(w.verdicts, First(w, e), m, if e.services then 3 else 2)
            case Done => Up
            case Refused => Failed
            case Raised => Threw
  {
    SweptWorks(w, 0);
    var v := Swept(w);
    Finishes(v, e, d);
    hide WF, IsLive, Swept, EndsAs, Prepared, Reverted, FindLive;
  }

  lemma Finishes(v: World, e: Entry, d: Wdev)
    requires d in v.net.devs && v.net.devs[d].phy in v.net.phys
    ensures var live := LiveOf(v, d); var (u, out) := Prepared(v, e, live); var (t, started) := Ask(u);
            EndsAs(v.verdicts, First(v, e), Hops(live.place, e.place), if e.services then 3 else 2) ==
            if out != Done then out else if e.services && !started then Raised else Done
  {
    hide Prepared, EndsAs, Later;
    var live := LiveOf(v, d);
    PreparedEnds(v, e, live);
    EndsAtLast(v.verdicts, First(v, e), Hops(live.place, e.place), 2);
  }

  // ---------------------------------------------------------------- a revert that fails

  /** The netdev may go to root and back: no other one of its radio is called `name`, or meets a namesake on the way. */
  ghost predicate Returnable(n: Net, d: Wdev, live: Live, name: Name) {
    && (forall x :: x in n.devs && x != d && n.devs[x].phy == live.phy ==> n.devs[x].name != name)
    && RoundTrips(n, d, live, Root)
  }

  /** It stands as it did, perhaps under a new identifier, with no record where it is; nothing else changed. */
  ghost predicate Disowned(w: World, v: World, d: Wdev, live: Live) {
    && d in w.net.devs
    && (v.net == w.net || (v.nextWdev > w.nextWdev && v.net == Again(w.net, d, v.nextWdev - 1)))
    && v.owned == w.owned - {(live.place, live.name)} && v.spaces == w.spaces && v.markers == w.markers && v.verdicts == []
  }

  lemma NotHalfMade(w: World, n: Net, d: Wdev, live: Live, name: Name, place: Place)
    requires Returnable(n, d, live, name) && Away(w, n, d, live.phy, place, None)
    ensures !HalfMade(w, live, name, place)
  {
    hide RoundTrips;
  }

  lemma DisownedBy(w: World, w2: World, v: World, d: Wdev, live: Live)
    requires w2 == w.(net := w2.net, verdicts := w2.verdicts, owned := w.owned - {(live.place, live.name)}) && Returned(w2, v, w.net, d, None)
    ensures Disowned(w, v, d, live)
  {
  }

  lemma QuietTrips(n: Net, d: Wdev, live: Live, name: Name)
    requires Returnable(n, d, live, name) && Uniq(n) && live.phy in n.phys && n.phys[live.phy] == live.place
    ensures RoundTrips(n, d, live, live.place) && (live.place.In? ==> Quiet(n, live.phy, d, Root))
  {
    hide Quiet;
  }

  /** The commands of the revert: delete, move out of a namespace, create. Any failure raises, and is undone. */
  lemma RecreateUndone(w: World, d: Wdev, live: Live, name: Name)
    requires WF(w) && Backed(w.net, d, live) && OneFailure(w.verdicts) && name.Given? && Returnable(w.net, d, live, name)
    ensures var (v, out) := RecreateInRoot(w, live, name);
            out == EndsAs(w.verdicts, if live.place.In? then 3 else 2, 0, 0) && (out != Done ==> Disowned(w, v, d, live))
  {
    var n := w.net;
    var w0 := Released(w, live.place, live.name);
    WFUniq(w);
    Live0(w, d, live);
    ReleasedWorks(w, live.place, live.name, live.phy);
    var vs := w.verdicts;
    EndsOpens(vs, 2);
    EndsOpens(vs, 1);
    EndsOpens(Spent(vs), 1);
    EndsOpens(Spent(vs), 0);
    EndsOpens(Spent(Spent(vs)), 0);
    hide WF, Uniq, HalfMade, Restored, MovePhy, CreateDev, DeleteDev, Quiet, Returnable, RoundTrips, Backed, Away, EndsAs, Spent, OneFailure;
    QuietTrips(n, d, live, name);
    DeleteOnce(w0, d, live);
    DeleteEnds(w0, live.place, live.name);
    BackedBacks(w0, d, live);
    LiveDeleted(w0, d, live);
    var (w1, ok1) := DeleteDev(w0, live.place, live.name);
    if ok1 {
      var (w2, ok2) := if live.place.In? then MovePhy(w1, live.phy, live.place, Root) else (w1, true);
      if live.place.In? {
        HopOnce(w1, n, d, live.phy, live.place, Root);
        AwayThere(w1, n, d, live.phy, live.place);
        MoveEnds(w1, live.phy, live.place, Root);
        MoveWorks(w1, live.phy, live.place, Root);
      }
      if !ok2 {
        NotHalfMade(w2, n, d, live, name, live.place);
        RestoredNet(w2, n, d, live, name, live.place, None, None);
        DisownedBy(w, w2, Restored(w2, live, name, live.place, None), d, live);
      } else {
        LastCreate(w2, n, d, live, name);
        var (w3, ok3) := CreateDev(w2, live.phy, Root, name, Managed);
        if !ok3 {
          DisownedBy(w, w3, Restored(w3, live, name, Root, None), d, live);
        }
      }
    }
  }

  lemma AwayThere(w: World, n: Net, d: Wdev, p: Phy, place: Place)
    requires Away(w, n, d, p, place, None)
    ensures p in w.net.phys && w.net.phys[p] == place
  {
  }

  lemma LastCreate(w: World, n: Net, d: Wdev, live: Live, name: Name)
    requires WF(w) && Uniq(n) && Backed(n, d, live) && OneFailure(w.verdicts) && Away(w, n, d, live.phy, Root, None)
    requires Returnable(n, d, live, name) && (live.place.In? ==> live.place.space in w.spaces)
    ensures var (v, ok) := CreateDev(w, live.phy, Root, name, Managed);
            && ok == (w.verdicts == [] || w.verdicts[0])
            && (!ok ==> v == w.(verdicts := []) && Returned(v, Restored(v, live, name, Root, None), n, d, None))
  {
    AwayThere(w, n, d, live.phy, Root);
    CreateOnce(w, live.phy, Root, name, Managed);
    CreateAsks(w, live.phy, name);
    hide WF, Uniq, HalfMade, Restored, CreateDev, Away, RoundTrips;
    var (v, ok) := CreateDev(w, live.phy, Root, name, Managed);
    if !ok {
      AwayStill(w, v, n, d, live.phy);
      WFStill(w, v);
      NotHalfMade(v, n, d, live, name, Root);
      RestoredNet(v, n, d, live, name, Root, None, None);
    }
  }

  lemma CreateAsks(w: World, p: Phy, name: Name)
    requires p in w.net.phys && w.net.phys[p] == Root
    ensures CreateDev(w, p, Root, name, Managed).1 == (w.verdicts == [] || w.verdicts[0])
  {
    hide Taken;
  }

  lemma AwayStill(w: World, v: World, n: Net, d: Wdev, p: Phy)
    requires v == w.(verdicts := v.verdicts) && Away(w, n, d, p, Root, None)
    ensures Away(v, n, d, p, Root, None)
  {
  }

  lemma WFStill(w: World, v: World)
    requires v == w.(verdicts := v.verdicts) && WF(w)
    ensures WF(v)
  {
    hide Uniq, Known, Picks, Housed, Distinct, Recorded;
  }

  lemma BackedBacks(w: World, d: Wdev, live: Live)
    requires Backed(w.net, d, live)
    ensures Backs(w, d, live)
  {
  }

  // ---------------------------------------------------------------- a deactivation that fails

  lemma SweptTwice(w: World)
    ensures Swept(Swept(w)) == Swept(w)
  {
    assert forall s :: s in Swept(w).markers ==> IsCore(Swept(w), s);
    assert Swept(Swept(w)).markers == Swept(w).markers;
  }

  lemma SweptAlike(v: World, u: World)
    requires Swept(v) == v && u == v.(owned := u.owned)
    ensures Swept(u) == u && forall s :: IsCore(u, s) <==> IsCore(v, s)
  {
    assert Swept(v).markers == v.markers;
    assert forall s :: s in v.markers ==> IsCore(v, s);
    assert Swept(u).markers == u.markers;
  }

  /** The deactivation comes to recreate the netdev in root. */
  ghost predicate Recreates(w: World, e: Entry, d: Wdev)
    requires d in w.net.devs && w.net.devs[d].phy in w.net.phys
  {
    var live := LiveOf(w, d);
    match live.place
    case In(s) => s in w.markers && s in w.spaces && w.markers[s] == w.spaces[s]
    case Root => IsOwned(w, d) && d !in w.used && live.mode != Foreign && (live.name != e.interface || live.mode != Managed)
  }

  lemma RevertRecreates(u: World, e: Entry, d: Wdev)
    requires WF(u) && Swept(u) == u && FindLive(u, e) == Some(d)
    ensures d in u.net.devs && u.net.devs[d].phy in u.net.phys
    ensures var live := LiveOf(u, d); var (v, out) := RecreateInRoot(u, live, e.interface);
            && Backed(u.net, d, live)
            && (live.place.In? || live.name != e.interface || live.mode != Managed ==>
                  Reverted(u, e).1 == out && (out != Done ==> Reverted(u, e).0 == v))
            && (live.place == Root && live.name == e.interface && live.mode == Managed ==> Reverted(u, e).1 == Done)
  {
    hide WF, IsLive, RecreateInRoot, DropSpaceIfEmpty, Ask;
  }

  /** What the lookup and the ownership question leave as it was. */
  lemma AskedFirst(w: World, e: Entry, d: Wdev)
    requires WF(w) && FindLive(Swept(w), e) == Some(d)
    ensures var v := Swept(w); var u := Rekeyed(v, d);
            && WF(v) && v == w.(markers := v.markers) && Swept(v) == v && d in w.net.devs && w.net.devs[d].phy in w.net.phys
            && WF(u) && u == v.(owned := u.owned) && Swept(u) == u && FindLive(u, e) == Some(d)
            && (IsOwned(v, d) <==> IsOwned(w, d)) && forall s :: IsCore(v, s) <==> IsCore(w, s)
  {
    SweptWorks(w, 0);
    SweptTwice(w);
    SweptIsSame(w);
    var v := Swept(w);
    WFUniq(v);
    hide WF, Swept, IsLive, Rekeyed, IsOwned, IsCore, Shrinks, Protected, Unharmed, Uniq;
    RekeyedTidies(v, d);
    SweptAlike(v, Rekeyed(v, d));
    FindSame(v, Rekeyed(v, d), e);
  }

  /** It is Rekeyed or Swept that is reverted, if anything is. */
  lemma DeactivatedIs(w: World, e: Entry, d: Wdev)
    requires WF(w) && FindLive(Swept(w), e) == Some(d)
    ensures d in w.net.devs && w.net.devs[d].phy in w.net.phys
    ensures var live := LiveOf(w, d); var v := Swept(w); var u := if live.place.In? then v else Rekeyed(v, d);
            if Recreates(w, e, d) then Deactivated(w, e) == Reverted(u, e) else Deactivated(w, e).1 == Done
  {
    AskedFirst(w, e, d);
    hide WF, IsLive, Rekeyed, IsOwned, Swept;
    var u := Rekeyed(Swept(w), d);
    RevertRecreates(u, e, d);
    hide Reverted;
  }

  lemma DisownedShown(u: World, v: World, d: Wdev, live: Live)
    requires WF(u) && Disowned(u, v, d, live)
    ensures Shown(v.net) == Shown(u.net) && (live.place, live.name) !in v.owned && v.spaces == u.spaces && v.markers == u.markers
  {
    WFKnown(u);
    hide WF;
    if v.net != u.net {
      AgainShown(u.net, d, v.nextWdev - 1);
    }
  }

  /**
   A deactivation raises exactly if it comes to recreate the netdev and the deletion, the move out of a namespace or the
   creation fails. If one command fails and the undo's work, the radio's layout and the namespaces are as before,
   but the netdev has no record where it is any more.
   */
  lemma FailedDeactivation(w: World, e: Entry, d: Wdev)
    requires WF(w) && Plain(e) && OneFailure(w.verdicts) && FindLive(Swept(w), e) == Some(d)
    requires d in w.net.devs && w.net.devs[d].phy in w.net.phys && Returnable(w.net, d, LiveOf(w, d), e.interface)
    ensures var live := LiveOf(w, d); var (v, out) := Deactivated(w, e);
            && out == (if Recreates(w, e, d) then EndsAs(w.verdicts, if live.place.In? then 3 else 2, 0, 0) else Done)
            && (out != Done ==>
                  && Shown(v.net) == Shown(w.net) && v.spaces == w.spaces && v.markers == Swept(w).markers
                  && (live.place, live.name) !in v.owned)
  {
    AskedFirst(w, e, d);
    hide WF, IsLive, Rekeyed, IsOwned, Swept, Deactivated, Returnable, Disowned, EndsAs, Recreates, OneFailure, Shown;
    FailedIs(w, e, d);
    if Deactivated(w, e).1 != Done {
      var live := LiveOf(w, d);
      DisownedShown(if live.place.In? then Swept(w) else Rekeyed(Swept(w), d), Deactivated(w, e).0, d, live);
    }
  }

  lemma FailedIs(w: World, e: Entry, d: Wdev)
    requires WF(w) && Plain(e) && OneFailure(w.verdicts) && FindLive(Swept(w), e) == Some(d)
    requires d in w.net.devs && w.net.devs[d].phy in w.net.phys && Returnable(w.net, d, LiveOf(w, d), e.interface)
    ensures var live := LiveOf(w, d); var (v, out) := Deactivated(w, e); var u := if live.place.In? then Swept(w) else Rekeyed(Swept(w), d);
            && out == (if Recreates(w, e, d) then EndsAs(w.verdicts, if live.place.In? then 3 else 2, 0, 0) else Done)
            && (out != Done ==> Disowned(u, v, d, live))
  {
    AskedFirst(w, e, d);
    DeactivatedIs(w, e, d);
    hide WF, IsLive, Rekeyed, IsOwned, Swept, Deactivated, Reverted, Returnable, Disowned, Backed, EndsAs, Recreates, RecreateInRoot, OneFailure;
    if Recreates(w, e, d) {
      var live := LiveOf(w, d);
      var u := if live.place.In? then Swept(w) else Rekeyed(Swept(w), d);
      RevertRecreates(u, e, d);
      RecreatesApart(w, e, d);
      RecreateUndone(u, d, live, e.interface);
    }
  }

  lemma RecreatesApart(w: World, e: Entry, d: Wdev)
    requires d in w.net.devs && w.net.devs[d].phy in w.net.phys && Recreates(w, e, d)
    ensures var live := LiveOf(w, d); live.place.In? || live.name != e.interface || live.mode != Managed
  {
  }

  // ---------------------------------------------------------------- and is not tried again

  /** The netdev that stands there after the failure. */
  function Standing(w: World, v: World, d: Wdev): Wdev { if v.net == w.net || v.nextWdev == 0 then d else v.nextWdev - 1 }

  lemma StandsAsBefore(w: World, v: World, d: Wdev, y: Wdev, place: Place, name: Name)
    requires Known(w.net, w.nextWdev) && d in w.net.devs
    requires v.net == w.net || (v.nextWdev > w.nextWdev && v.net == Again(w.net, d, v.nextWdev - 1))
    ensures Named(w.net, d, place, name) ==> Named(v.net, Standing(w, v, d), place, name)
    ensures Named(v.net, y, place, name) ==> exists x :: Named(w.net, x, place, name) && (x == y || (y == Standing(w, v, d) && x == d))
  {
    if Named(v.net, y, place, name) {
      assert Named(w.net, if y == Standing(w, v, d) then d else y, place, name);
    }
  }

  /** It is what a second lookup finds. */
  lemma FoundAgain(w: World, v: World, e: Entry, d: Wdev)
    requires WF(w) && WF(v) && FindLive(w, e) == Some(d) && Sits(w.net, d, Root)
    requires v.net == w.net || (v.nextWdev > w.nextWdev && v.net == Again(w.net, d, v.nextWdev - 1))
    requires v.markers == w.markers && v.spaces == w.spaces
    ensures FindLive(v, e) == Some(Standing(w, v, d))
  {
    WFUniq(w);
    WFUniq(v);
    WFKnown(w);
    var x := Standing(w, v, d);
    hide WF, Uniq, FindLive, Known, LeftAlone.Marked;
    forall y, place, name
      ensures Named(w.net, d, place, name) ==> Named(v.net, x, place, name)
      ensures Named(v.net, y, place, name) ==> exists z :: Named(w.net, z, place, name) && (z == y || (y == x && z == d))
    {
      StandsAsBefore(w, v, d, y, place, name);
    }
    FindLaws.FindsInOrder(w, e, d);
    FindLaws.FindsInOrder(v, e, x);
    forall y | Named(w.net, y, e.place, e.interface) || Named(w.net, y, Root, e.interface) || FindLaws.Astray(w, e, y)
      ensures Named(w.net, d, e.place, e.interface) || Named(w.net, d, Root, e.interface)
    {
      FindLaws.FindsInOrder(w, e, y);
      OldestAstray(w, e, d, y);
    }
    forall y | Named(w.net, y, e.place, e.interface)
      ensures y == d
    {
      FindLaws.FindsInOrder(w, e, y);
    }
    forall y | FindLaws.Astray(v, e, y)
      ensures exists z :: FindLaws.Astray(w, e, z)
    {
      AstrayBefore(w, v, e, d, y);
    }
  }

  lemma OldestAstray(w: World, e: Entry, d: Wdev, y: Wdev)
    requires FindLive(w, e) == Some(d) && Sits(w.net, d, Root)
    ensures !FindLaws.Astray(w, e, d)
  {
  }

  lemma AstrayBefore(w: World, v: World, e: Entry, d: Wdev, y: Wdev)
    requires FindLaws.Astray(v, e, y) && Sits(w.net, d, Root) && v.markers == w.markers && v.spaces == w.spaces
    requires v.net == w.net || (v.nextWdev > w.nextWdev && v.net == Again(w.net, d, v.nextWdev - 1))
    ensures FindLaws.Astray(w, e, y)
  {
  }

  /** With its only record gone it is not Core's; nor is one that was just created. */
  lemma NoLongerOwned(w: World, v: World, d: Wdev, live: Live)
    requires WF(w) && Disowned(w, v, d, live) && forall k :: k in w.owned && w.owned[k] == d ==> k == (live.place, live.name)
    ensures !IsOwned(v, Standing(w, v, d))
  {
    hide Uniq, Known, Picks, Housed, Distinct, Again;
  }

  /** The entry's netdev stands in root, and deactivating the entry does nothing. */
  ghost predicate LeftForGood(v: World, e: Entry, name: Name) {
    Deactivated(v, e) == (v, Done) && exists x: Wdev :: Named(v.net, x, Root, name) && FindLive(v, e) == Some(x)
  }

  /**
   So a failed deactivation of an entry in root is final: what it left there is not Core's any more, and
   deactivating the entry again does nothing.
   */
  lemma NotTriedAgain(w: World, e: Entry, d: Wdev, name: Name)
    requires Named(w.net, d, Root, name) && Returnable(w.net, d, LiveOf(w, d), e.interface)
    requires WF(w) && Plain(e) && OneFailure(w.verdicts) && FindLive(Swept(w), e) == Some(d)
    requires forall k :: k in w.owned && w.owned[k] == d ==> k == (Root, name)
    requires Deactivated(w, e).1 != Done
    ensures LeftForGood(Deactivated(w, e).0, e, name)
  {
    AskedFirst(w, e, d);
    FailedIs(w, e, d);
    RecordHere(w, d);
    DeactivatedWF(w, e);
    hide WF, IsLive, Rekeyed, IsOwned, Deactivated, Returnable, Recreates, EndsAs, FindLive;
    var v := Deactivated(w, e).0;
    var u := Rekeyed(Swept(w), d);
    assert u.owned == w.owned;
    FoundAgain(u, v, e, d);
    NoLongerOwned(u, v, d, LiveOf(w, d));
    SweptAlike2(u, v);
    Unowned(v, e, Standing(u, v, d));
    StandsThere(u, v, d, name);
  }

  lemma StandsThere(w: World, v: World, d: Wdev, name: Name)
    requires Named(w.net, d, Root, name) && (v.net == w.net || (v.nextWdev > w.nextWdev && v.net == Again(w.net, d, v.nextWdev - 1)))
    ensures Named(v.net, Standing(w, v, d), Root, name)
  {
  }

  lemma RecordHere(w: World, d: Wdev)
    requires d in w.net.devs && w.net.devs[d].phy in w.net.phys && Sits(w.net, d, Root)
    requires forall k :: k in w.owned && w.owned[k] == d ==> k == (Root, w.net.devs[d].name)
    ensures Rekeyed(Swept(w), d).owned == w.owned
  {
    var v := Swept(w);
    if IsOwned(v, d) {
      assert RecordOf(v, d) == (Root, w.net.devs[d].name);
    }
  }

  lemma DeactivatedWF(w: World, e: Entry)
    requires WF(w) && Plain(e)
    ensures WF(Deactivated(w, e).0)
  {
    hide WF, Unharmed, Deactivated;
    UndoSafe(w, e);
  }

  lemma SweptAlike2(u: World, v: World)
    requires Swept(u) == u && v.markers == u.markers && v.spaces == u.spaces
    ensures Swept(v) == v
  {
    assert Swept(u).markers == u.markers;
    assert forall s :: s in u.markers ==> IsCore(u, s);
    assert Swept(v).markers == v.markers;
  }

  lemma Unowned(v: World, e: Entry, x: Wdev)
    requires Swept(v) == v && FindLive(v, e) == Some(x) && Sits(v.net, x, Root) && !IsOwned(v, x)
    ensures Deactivated(v, e) == (v, Done)
  {
    hide Reverted, IsLive;
  }

  /** One radio in root with a monitor that Core made, whose deletion fails. */
  const STUCK := World(Net(map[0 := Root], map[10 := Dev(Given(5), 0, Monitor)]), map[], 20, 20, {}, {}, map[], map[(Root, Given(5)) := 10], [false], {10})

  const MONITORING := Entry(Root, Given(1), Given(5), Monitor, false)

  lemma StuckFinds()
    ensures WF(STUCK) && Swept(STUCK) == STUCK && FindLive(STUCK, MONITORING) == Some(10)
  {
    assert Swept(STUCK).markers == map[];
    assert IsLive(STUCK, MONITORING, 10);
  }

  /** Deactivating its entry raises; the monitor stays, and deactivating the entry again does nothing. */
  lemma ExampleForgotten()
    ensures var (v, out) := Deactivated(STUCK, MONITORING);
            out == Raised && v == STUCK.(owned := map[], verdicts := []) && Deactivated(v, MONITORING) == (v, Done)
  {
    StuckFinds();
    hide FindLive, IsLive;
    var d: Wdev := 10;
    assert Named(STUCK.net, d, Root, Given(5));
    AskedFirst(STUCK, MONITORING, d);
    DeactivatedIs(STUCK, MONITORING, d);
    var k := (Root, Given(5));
    assert k in STUCK.owned && k.1 == STUCK.net.devs[d].name && STUCK.owned[k] == d;
    assert IsOwned(STUCK, d);
    RecordHere(STUCK, d);
    var u := Rekeyed(STUCK, d);
    RevertRecreates(u, MONITORING, d);
    var v := Deactivated(STUCK, MONITORING).0;
    assert v.owned == map[];
    FoundAgain(STUCK, v, MONITORING, d);
    Unowned(v, MONITORING, d);
  }
}
