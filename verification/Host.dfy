/** The namespace service as it runs: it issues commands and rewrites its files step by step. */
module Host {
  import opened Bytes
  import opened Sorting
  import opened Netns
  import opened NetnsLaws
  import opened Service
  import opened ServiceLaws
  import opened UndoLaws
  import opened EntryLaws
  import Records
  import StartFailure
  import LeftAlone
  import Profiles

  class NetworkNamespaceService {
    var net: Net
    var spaces: map<Label, nat>
    var nextWdev: Wdev
    var nextSpace: nat
    var busy: set<Label>
    var used: set<Wdev>
    var markers: map<Label, nat>
    var owned: map<(Place, Name), Wdev>
    // The outcomes of the commands still to come, and as history the netdevs they created.
    var verdicts: seq<bool>
    var made: set<Wdev>

    constructor (w: World)
      ensures Now() == w
    {
      net, spaces, nextWdev, nextSpace, busy := w.net, w.spaces, w.nextWdev, w.nextSpace, w.busy;
      used, markers, owned, verdicts, made := w.used, w.markers, w.owned, w.verdicts, w.made;
    }

    function Now(): World
      reads this
    {
      World(net, spaces, nextWdev, nextSpace, busy, used, markers, owned, verdicts, made)
    }

    // -------------------------------------------------------------- commands

    method Run() returns (ok: bool)
      modifies this`verdicts
      ensures (Now(), ok) == Ask(old(Now()))
    {
      ok := true;
      if verdicts != [] {
        ok, verdicts := verdicts[0], verdicts[1..];
      }
    }

    method DeleteInterface(place: Place, name: Name) returns (ok: bool)
      modifies this
      ensures (Now(), ok) == DeleteDev(old(Now()), place, name)
    {
      ok := Run();
      if ok {
        net := Without(net, place, name);
      }
    }

    method CreateInterface(phy: Phy, place: Place, name: Name, mode: Mode) returns (ok: bool)
      modifies this
      ensures (Now(), ok) == CreateDev(old(Now()), phy, place, name, mode)
    {
      ok := Run();
      if !ok || phy !in net.phys || net.phys[phy] != place {
        ok := false;
      } else if !Taken(net, place, name) {
        net := net.(devs := net.devs[nextWdev := Dev(name, phy, mode)]);
        made := made + {nextWdev};
        nextWdev := nextWdev + 1;
      }
    }

    method Move(phy: Phy, from: Place, to: Place) returns (ok: bool)
      modifies this
      ensures (Now(), ok) == MovePhy(old(Now()), phy, from, to)
    {
      ok := Run();
      if !ok || phy !in net.phys || net.phys[phy] != from || (to.In? && to.space !in spaces) {
        ok := false;
      } else {
        net := Carried(net, phy, to);
      }
    }

    method CreateNamespace(s: Label) returns (ok: bool)
      modifies this
      ensures (Now(), ok) == CreateSpace(old(Now()), s)
    {
      ok := Run();
      if !ok || s in spaces {
        ok := false;
      } else {
        spaces := spaces[s := nextSpace];
        nextSpace := nextSpace + 1;
      }
    }

    method DeleteNamespace(s: Label)
      modifies this
      ensures Now() == DeleteSpace(old(Now()), s)
    {
      var ok := Run();
      if ok {
        spaces := spaces - {s};
      }
    }

    // -------------------------------------------------------------- Core's files

    /** List Core's namespaces, dropping every marker whose namespace is gone or another one. */
    method CoreNamespaces() returns (core: set<Label>)
      modifies this`markers
      ensures Now() == Swept(old(Now())) && core == CoreSpaces(Now())
    {
      var left := markers.Keys;
      core := {};
      ghost var was := Now();
      while left != {}
        invariant left <= was.markers.Keys
        invariant forall s :: s in markers <==> s in was.markers && (s in left || IsCore(was, s))
        invariant forall s :: s in markers ==> markers[s] == was.markers[s]
        invariant core == set s | s in was.markers && s !in left && IsCore(was, s)
      {
        var s: Label :| s in left;
        left := left - {s};
        if s in spaces && markers[s] == spaces[s] {
          core := core + {s};
        } else {
          markers := markers - {s};
        }
      }
      assert markers == Swept(was).markers;
    }

    method Release(place: Place, name: Name)
      modifies this`owned
      ensures Now() == Released(old(Now()), place, name)
    {
      owned := owned - {(place, name)};
    }

    /** Record the netdev found under the name. */
    method Claim(place: Place, name: Name)
      requires Uniq(net)
      modifies this`owned
      ensures Now() == Claimed(old(Now()), place, name)
    {
      var left := net.devs.Keys;
      while left != {}
        invariant left <= net.devs.Keys && owned == old(owned)
        invariant forall d :: d in net.devs && d !in left ==> !Named(net, d, place, name)
      {
        var d: Wdev :| d in left;
        left := left - {d};
        if Named(net, d, place, name) {
          owned := owned[(place, name) := d];
          return;
        }
      }
    }

    /** Whether Core created the netdev; a record left behind elsewhere is moved to where the netdev is. */
    method Owns(d: Wdev) returns (b: bool)
      requires d in net.devs && net.devs[d].phy in net.phys
      modifies this`owned
      ensures b == IsOwned(old(Now()), d) && Now() == Rekeyed(old(Now()), d)
    {
      var here := Here(Now(), d);
      var places := Claimants(Now(), d);
      if here.0 in places {
        assert here in owned && RecordOf(Now(), d) == here;
        assert (owned - {here})[here := d] == owned;
        return true;
      }
      var left := places;
      var seen: set<Place> := {};
      var first: Option<Place> := None;
      while left != {}
        invariant seen + left == places && (first.None? <==> seen == {})
        invariant first.Some? ==> first.value in seen && forall q :: q in seen ==> q == first.value || Before(first.value, q)
      {
        var p: Place :| p in left;
        left, seen := left - {p}, seen + {p};
        if first.None? || Before(p, first.value) {
          first := Some(p);
        }
      }
      b := first.Some?;
      if b {
        assert (first.value, here.1) in owned;
        assert Least(places) == first.value;
        owned := (owned - {(first.value, here.1)})[here := d];
      } else {
        NoRecord(Now(), d);
      }
    }

    // -------------------------------------------------------------- finding the live netdev

    method FindLive(e: Entry) returns (r: Option<Wdev>)
      requires WF(Now())
      modifies this`markers
      ensures Now() == Swept(old(Now())) && r == Netns.FindLive(Now(), e)
    {
      SweptWorks(Now(), 0);
      var core := CoreNamespaces();
      ghost var w := Now();
      WFUniq(w);
      hide WF, Uniq, Swept;
      var left := net.devs.Keys;
      r := None;
      while left != {}
        invariant left <= net.devs.Keys
        invariant r.None? ==> forall x :: x in net.devs && x !in left ==> !Candidate(w, e, x)
        invariant r.Some? ==> r.value in net.devs && Candidate(w, e, r.value)
        invariant r.Some? ==> forall x :: x in net.devs && x !in left && Candidate(w, e, x) ==> Preferred(w, e, r.value, x)
      {
        var d: Wdev :| d in left;
        left := left - {d};
        if Candidate(Now(), e, d) && (r.None? || !Preferred(Now(), e, r.value, d)) {
          r := Some(d);
        }
      }
      if r.Some? {
        FoundIt(w, e, r.value);
        return;
      }
      if e.display != e.interface {
        left := net.devs.Keys;
        while left != {}
          invariant left <= net.devs.Keys
          invariant forall x :: x in net.devs && x !in left ==> !Named(net, x, e.place, e.display)
        {
          var d: Wdev :| d in left;
          left := left - {d};
          if Named(net, d, e.place, e.display) {
            FoundIt(w, e, d);
            return Some(d);
          }
        }
      }
    }

    // -------------------------------------------------------------- undoing a prepare

    method DeleteNamespaceIfEmpty(s: Label)
      modifies this
      ensures Now() == DropSpaceIfEmpty(old(Now()), s)
      ensures WF(old(Now())) && IsCore(old(Now()), s) ==> WF(Now()) && Unharmed(old(Now()), Now())
    {
      DropHarmsNone(Now(), s);
      hide WF, Unharmed, IsCore;
      if HoldsLinks(Now(), s) {
        return;
      }
      if s in spaces {
        DeleteNamespace(s);
      }
      if s !in spaces {
        markers := markers - {s};
      }
    }

    /** Best effort: the first failing command ends it. */
    method TryRestore(live: Live, newName: Name, movedTo: Place)
      modifies this
      ensures Now() == PutBack(old(Now()), live, newName, movedTo)
    {
      var ok := true;
      if HalfMade(Now(), live, newName, movedTo) {
        ok := DeleteInterface(movedTo, newName);
      }
      if !ok {
        return;
      }
      if movedTo != live.place {
        if movedTo.In? {
          ok := Move(live.phy, movedTo, Root);
          if !ok {
            return;
          }
        }
        if live.place.In? {
          ok := Move(live.phy, Root, live.place);
          if !ok {
            return;
          }
        }
      }
      ok := CreateInterface(live.phy, live.place, live.name, live.mode);
    }

    method RestoreLive(live: Live, newName: Name, movedTo: Place, created: Option<Label>)
      modifies this
      ensures Now() == Restored(old(Now()), live, newName, movedTo, created)
    {
      TryRestore(live, newName, movedTo);
      if created.Some? {
        DeleteNamespaceIfEmpty(created.value);
      }
    }

    // -------------------------------------------------------------- preparing

    /** Create the entry's netdev where the radio is now, bring it up, and record it as Core's. */
    method SetUpHere(e: Entry, live: Live, created: Option<Label>) returns (out: Outcome)
      requires WF(Now()) && Plain(e)
      modifies this
      ensures (Now(), out) == SetUp(old(Now()), e, live, created)
    {
      CreateWorks(Now(), live.phy, e.place, e.display, e.mode);
      hide WF, OffRadio, CreateDev, Ask, Restored, Claimed;
      var ok := CreateInterface(live.phy, e.place, e.display, e.mode);
      if !ok {
        RestoreLive(live, e.display, e.place, created);
        return Raised;
      }
      AskWorks(Now(), live.phy);
      ok := Run();
      if !ok {
        RestoreLive(live, e.display, e.place, created);
        return Raised;
      }
      WFUniq(Now());
      Claim(e.place, e.display);
      return Done;
    }

    method PrepareRoot(e: Entry, d: Wdev, live: Live) returns (out: Outcome)
      requires WF(Now()) && Plain(e) && Backs(Now(), d, live) && e.place == Root
      modifies this
      ensures (Now(), out) == Service.PrepareRoot(old(Now()), e, live) && Worked(old(Now()), Now(), live.phy)
    {
      PrepareRootWorks(Now(), d, e, live);
      LiveDeleted(Now(), d, live);
      hide WF, OffRadio, DeleteDev, MovePhy, SetUp, Restored;
      var ok := DeleteInterface(live.place, live.name);
      if !ok {
        return Raised;
      }
      if live.place != Root {
        MoveWorks(Now(), live.phy, live.place, Root);
        ok := Move(live.phy, live.place, Root);
        if !ok {
          RestoreLive(live, e.display, live.place, None);
          return Refused;
        }
      }
      out := SetUpHere(e, live, None);
    }

    method PrepareNamespace(e: Entry, d: Wdev, live: Live) returns (out: Outcome)
      requires WF(Now()) && Plain(e) && Backs(Now(), d, live) && e.place.In?
      modifies this
      ensures (Now(), out) == PrepareSpace(old(Now()), e, live) && Worked(old(Now()), Now(), live.phy)
    {
      PrepareSpaceWorks(Now(), d, e, live);
      var s := e.place.space;
      SpaceReadyKeeps(Now(), s);
      hide WF, OffRadio, DeleteDev, MovePhy, SetUp, Restored, Ask, DeleteSpace;
      var created: Option<Label> := None;
      if s !in spaces {
        var ok := CreateNamespace(s);
        if !ok {
          return Raised;
        }
        ok := Run();
        if !ok {
          DeleteNamespace(s);
          markers := markers - {s};
          return Raised;
        }
        markers := markers[s := spaces[s]];
        created := Some(s);
      }
      LiveDeleted(Now(), d, live);
      var ok := DeleteInterface(live.place, live.name);
      if !ok {
        return Raised;
      }
      if live.place != e.place {
        if live.place.In? {
          MoveWorks(Now(), live.phy, live.place, Root);
          ok := Move(live.phy, live.place, Root);
          if !ok {
            RestoreLive(live, e.display, live.place, created);
            return Refused;
          }
        }
        MoveWorks(Now(), live.phy, Root, e.place);
        ok := Move(live.phy, Root, e.place);
        if !ok {
          RestoreLive(live, e.display, Root, created);
          return Refused;
        }
      }
      out := SetUpHere(e, live, created);
    }

    // -------------------------------------------------------------- reverting

    method RecreateInRoot(d: Wdev, live: Live, name: Name) returns (out: Outcome)
      requires WF(Now()) && name.Given? && Backs(Now(), d, live)
      modifies this
      ensures (Now(), out) == Service.RecreateInRoot(old(Now()), live, name) && Worked(old(Now()), Now(), live.phy)
    {
      RecreateWorks(Now(), live, name);
      hide WF, OffRadio, DeleteDev, MovePhy, CreateDev, Restored;
      Release(live.place, live.name);
      var ok := DeleteInterface(live.place, live.name);
      if !ok {
        return Raised;
      }
      if live.place.In? {
        ok := Move(live.phy, live.place, Root);
        if !ok {
          RestoreLive(live, name, live.place, None);
          return Raised;
        }
      }
      ok := CreateInterface(live.phy, Root, name, Managed);
      if !ok {
        RestoreLive(live, name, Root, None);
        return Raised;
      }
      return Done;
    }

    method RevertToRoot(e: Entry) returns (out: Outcome)
      requires WF(Now()) && Plain(e)
      modifies this
      ensures (Now(), out) == Reverted(old(Now()), e) && WF(Now())
      ensures MayUndo(old(Now()), e) ==> Unharmed(old(Now()), Now())
    {
      hide Unharmed, MayUndo;
      RevertKeeps(Now(), e);
      SweptWorks(Now(), 0);
      var found := FindLive(e);
      hide WF, Swept, IsLive, DropSpaceIfEmpty, OffRadio;
      if found.None? {
        return Done;
      }
      var live := LiveOf(Now(), found.value);
      assert Backs(Now(), found.value, live);
      if live.place == Root {
        if live.name != e.interface || live.mode != Managed {
          out := RecreateInRoot(found.value, live, e.interface);
        } else {
          var down := Run();
          Release(Root, live.name);
          return Done;
        }
      } else {
        out := RecreateInRoot(found.value, live, e.interface);
        if out == Done && IsCore(Now(), live.place.space) {
          DeleteNamespaceIfEmpty(live.place.space);
        }
      }
    }

    // -------------------------------------------------------------- one entry

    method DeactivateConfig(e: Entry) returns (out: Outcome)
      requires WF(Now()) && Plain(e)
      modifies this
      ensures (Now(), out) == Deactivated(old(Now()), e) && WF(Now())
      ensures Unharmed(old(Now()), Now())
      ensures HandedBack(old(Now()), e, Now())
    {
      HandBack(Now(), e);
      hide HandedBack;
      UndoSafe(Now(), e);
      SweptWorks(Now(), 0);
      var found := FindLive(e);
      hide WF, Swept, IsLive, Reverted, Rekeyed, IsOwned, Unharmed, OffRadio;
      if found.None? {
        return Done;
      }
      var d := found.value;
      var place := net.phys[net.devs[d].phy];
      if place.In? {
        if !IsCore(Now(), place.space) {
          return Done;
        }
        out := RevertToRoot(e);
      } else {
        RekeyedWorks(Now(), d, 0);
        var ours := Owns(d);
        if !ours {
          RekeyedNot(old(Now()), d);
          return Done;
        }
        if InUse(Now(), d) {
          Release(Root, net.devs[d].name);
          return Done;
        }
        out := RevertToRoot(e);
      }
    }

    method ActivateConfig(e: Entry) returns (status: Status)
      requires WF(Now()) && Plain(e)
      modifies this
      ensures (Now(), status) == Activated(old(Now()), e) && WF(Now())
      ensures Records.Fair(old(Now()), e) ==> StartFailure.HarmsOnly(old(Now()), e, Now())
      ensures LeftBusy(old(Now()), e, Now(), status)
    {
      hide StartFailure.HarmsOnly, Records.Fair, LeftBusy;
      LeaveBusy(Now(), e);
      ActivateKeeps(Now(), e);
      SweptWorks(Now(), 0);
      var found := FindLive(e);
      hide WF, Swept, IsLive, Service.PrepareRoot, PrepareSpace, Reverted, OffRadio, InUse;
      if found.None? {
        return Absent;
      }
      if InUse(Now(), found.value) {
        return Busy;
      }
      var live := LiveOf(Now(), found.value);
      assert Backs(Now(), found.value, live);
      PreparedWorks(Now(), found.value, e, live);
      var out: Outcome;
      if e.place.In? {
        out := PrepareNamespace(e, found.value, live);
      } else {
        out := PrepareRoot(e, found.value, live);
      }
      if out == Refused {
        return Failed;
      }
      if out == Raised {
        return Threw;
      }
      if e.services {
        AskWorks(Now(), 0);
        var started := Run();
        if !started {
          out := RevertToRoot(e);
          return Threw;
        }
      }
      return Up;
    }

    /** Whether automatic changes may touch the entry's radio. */
    method IsCoreManaged(e: Entry) returns (b: bool)
      requires WF(Now())
      modifies this
      ensures (Now(), b) == Automatic(old(Now()), e) && WF(Now())
      ensures b <==> !FindsStray(old(Now()), e)
    {
      AnswersStray(Now(), e);
      hide FindsStray;
      SweptWorks(Now(), 0);
      var found := FindLive(e);
      hide WF, Swept, IsLive, IsOwned, Rekeyed, OffRadio;
      if found.None? {
        return true;
      }
      var d := found.value;
      var place := net.phys[net.devs[d].phy];
      if place.In? {
        return IsCore(Now(), place.space);
      }
      RekeyedWorks(Now(), d, 0);
      b := Owns(d);
    }

    // -------------------------------------------------------------- returning whole namespaces

    method CheckOff(ds: seq<Wdev>) returns (names: seq<Name>)
      requires WF(Now()) && forall d :: d in ds ==> d in net.devs
      modifies this`owned
      ensures (Now(), names) == Checked(old(Now()), ds)
    {
      hide Rekeyed, IsOwned, Checked, WF, Shrinks;
      ghost var was := Now();
      names := [];
      for i := 0 to |ds|
        invariant WF(Now()) && Now() == was.(owned := owned)
        invariant Checked(was, ds).0 == Checked(Now(), ds[i..]).0
        invariant Checked(was, ds).1 == names + Checked(Now(), ds[i..]).1
      {
        CheckedFirst(Now(), ds[i..]);
        assert ds[i..][1..] == ds[i + 1..] && ds[i..][0] == ds[i];
        OnRadio(Now(), ds[i]);
        RekeyedTidies(Now(), ds[i]);
        ghost var more := Checked(Rekeyed(Now(), ds[i]), ds[i + 1..]).1;
        ghost var name := net.devs[ds[i]].name;
        assert names + ([name] + more) == names + [name] + more;
        var ours := Owns(ds[i]);
        if ours {
          names := names + [net.devs[ds[i]].name];
        }
      }
      CheckedNone(Now(), ds[|ds|..]);
      assert names + [] == names;
    }

    method ReleaseAll(s: Label, names: seq<Name>)
      modifies this`owned
      ensures Now() == ReleasedAll(old(Now()), s, names)
    {
      ghost var was := Now();
      for i := 0 to |names|
        invariant ReleasedAll(was, s, names) == ReleasedAll(Now(), s, names[i..])
      {
        assert names[i..][1..] == names[i + 1..];
        Release(In(s), names[i]);
      }
    }

    method ReturnNamespacePhys(s: Label, radios: seq<Phy>)
      requires WF(Now())
      modifies this
      ensures Now() == ReturnPhys(old(Now()), s, radios) && WF(Now())
      ensures IsCore(old(Now()), s) ==> Unharmed(old(Now()), Now())
    {
      ReturnKeeps(Now(), s, radios);
      hide Unharmed, IsCore;
      hide WF, Checked, MovePhy, ReleasedAll, Travellers, OffRadio, Shrinks;
      ghost var was := Now();
      for i := 0 to |radios|
        invariant WF(Now()) && ReturnPhys(was, s, radios) == ReturnPhys(Now(), s, radios[i..])
      {
        assert radios[i..][1..] == radios[i + 1..];
        var p := radios[i];
        if p in net.phys && net.phys[p] == In(s) {
          ghost var v, u := HomewardSteps(Now(), s, p);
          TravellersIn(net, s, p);
          var ds := SortedSeq(Travellers(net, s, p));
          var names := CheckOff(ds);
          var ok := Move(p, In(s), Root);
          if ok {
            ReleaseAll(s, names);
          }
        }
      }
    }

    /** Return every radio in Core's namespaces to root, and delete each namespace once empty. */
    method ReturnHome()
      requires WF(Now())
      modifies this
      ensures Now() == Homecoming(old(Now())) && WF(Now()) && Unharmed(old(Now()), Now())
    {
      HomecomingSafe(Now());
      hide Unharmed;
      SweptWorks(Now(), 0);
      hide WF, ReturnPhys, DropSpaceIfEmpty, Swept, OffRadio;
      var core := CoreNamespaces();
      var names := SortedSeq(core);
      var radios := SortedSeq(net.phys.Keys);
      ghost var was := Now();
      for i := 0 to |names|
        invariant WF(Now()) && ReturnAll(was, names, radios) == ReturnAll(Now(), names[i..], radios)
      {
        assert names[i..][1..] == names[i + 1..];
        ReturnNamespacePhys(names[i], radios);
        DropWorks(Now(), names[i]);
        DeleteNamespaceIfEmpty(names[i]);
      }
    }
  }

  /** The netdev that a lookup finds is not Core's. */
  ghost predicate FindsStray(w: World, e: Entry) {
    var found := Netns.FindLive(Swept(w), e); found.Some? && LeftAlone.Stray(w, found.value)
  }

  lemma AnswersStray(w: World, e: Entry)
    requires WF(w)
    ensures Automatic(w, e).1 <==> !FindsStray(w, e)
  {
    LeftAlone.SkippedExactly(w, Profiles.Item(e, true));
    hide WF, Automatic, Netns.FindLive, Activated, LeftAlone.Stray, Swept;
  }

  /** Another tool is using the netdev that a lookup finds. */
  ghost predicate FindsUsed(w: World, e: Entry) {
    var found := Netns.FindLive(Swept(w), e); found.Some? && (found.value in w.used || w.net.devs[found.value].mode == Foreign)
  }

  /** A radio in use is reported busy and left as it is. */
  ghost predicate LeftBusy(w: World, e: Entry, v: World, status: Status) {
    (status == Busy <==> FindsUsed(w, e)) && (status == Busy ==> v.net == w.net && v.spaces == w.spaces && v.owned == w.owned)
  }

  lemma LeaveBusy(w: World, e: Entry)
    ensures LeftBusy(w, e, Activated(w, e).0, Activated(w, e).1)
  {
    LeftAlone.BusyExactly(w, e);
    hide Activated, Netns.FindLive, Swept;
  }

  /** A netdev in root that is in use is left as it is, and its record there is gone. */
  ghost predicate HandedBack(w: World, e: Entry, v: World) {
    FindsUsed(w, e) ==>
      var d := Netns.FindLive(Swept(w), e).value;
      Sits(w.net, d, Root) ==>
        v.net == w.net && v.spaces == w.spaces && ((Root, w.net.devs[d].name) in v.owned ==> v.owned[(Root, w.net.devs[d].name)] != d)
  }

  lemma HandBack(w: World, e: Entry)
    requires WF(w)
    ensures HandedBack(w, e, Deactivated(w, e).0)
  {
    hide WF, Deactivated, Netns.FindLive, Swept;
    if FindsUsed(w, e) && Sits(w.net, Netns.FindLive(Swept(w), e).value, Root) {
      LeftAlone.HandsBack(w, e, Netns.FindLive(Swept(w), e).value);
    }
  }

  lemma DropHarmsNone(w: World, s: Label)
    ensures WF(w) && IsCore(w, s) ==> WF(DropSpaceIfEmpty(w, s)) && Unharmed(w, DropSpaceIfEmpty(w, s))
  {
    hide WF, Unharmed, IsCore, DropSpaceIfEmpty;
    if WF(w) && IsCore(w, s) {
      DropWorks(w, s);
      DropUnharmed(w, s);
    }
  }

  /** The revert may undo what it finds. */
  ghost predicate MayUndo(w: World, e: Entry) {
    var found := Netns.FindLive(Swept(w), e); found.Some? ==> !Protected(w, found.value)
  }

  lemma RevertKeeps(w: World, e: Entry)
    requires WF(w) && Plain(e)
    ensures WF(Reverted(w, e).0) && (MayUndo(w, e) ==> Unharmed(w, Reverted(w, e).0))
  {
    hide WF, Unharmed, Reverted, Swept, Protected;
    RevertedWorks(w, e, if RadioOf(w, e).Some? then RadioOf(w, e).value else 0);
    if MayUndo(w, e) {
      RevertUnharmed(w, e) by { SweptSame(w); }
    }
  }

  lemma SweptSame(w: World)
    ensures forall d :: Protected(Swept(w), d) <==> Protected(w, d)
  {
    SweptIsSame(w);
  }

  lemma ReturnKeeps(w: World, s: Label, radios: seq<Phy>)
    requires WF(w)
    ensures IsCore(w, s) ==> Unharmed(w, ReturnPhys(w, s, radios))
  {
    hide WF, Unharmed, ReturnPhys;
    if IsCore(w, s) {
      ReturnPhysSafe(w, s, radios);
    }
  }

  lemma ActivateKeeps(w: World, e: Entry)
    requires WF(w) && Plain(e)
    ensures WF(Activated(w, e).0) && (Records.Fair(w, e) ==> StartFailure.HarmsOnly(w, e, Activated(w, e).0))
  {
    ActivatedWorks(w, e);
    hide WF, Activated, Records.Fair, StartFailure.HarmsOnly;
    if Records.Fair(w, e) {
      StartFailure.ActivationHarmsOnly(w, e);
    }
  }

  lemma OnRadio(w: World, d: Wdev)
    requires WF(w) && d in w.net.devs
    ensures w.net.devs[d].phy in w.net.phys
  {
  }

  lemma CheckedFirst(w: World, ds: seq<Wdev>)
    requires ds != [] && forall d :: d in ds ==> d in w.net.devs
    ensures var (v, names) := Checked(Rekeyed(w, ds[0]), ds[1..]);
            Checked(w, ds) == (v, if IsOwned(w, ds[0]) then [w.net.devs[ds[0]].name] + names else names)
  {
    hide Rekeyed, IsOwned;
  }

  lemma CheckedNone(w: World, ds: seq<Wdev>)
    requires ds == []
    ensures Checked(w, ds) == (w, [])
  {
  }

  method Minimum(s: set<nat>) returns (x: nat)
    requires s != {}
    ensures x == Smallest(s)
  {
    x :| x in s;
    var rest := s - {x};
    while rest != {}
      invariant rest <= s && x in s && forall y :: y in s && y !in rest ==> x <= y
    {
      var y: nat :| y in rest;
      rest := rest - {y};
      if y < x {
        x := y;
      }
    }
  }

  /** List a set in ascending order. */
  method SortedSeq(s: set<nat>) returns (r: seq<nat>)
    ensures r == Sorted(s)
  {
    hide Sorted, Smallest, Ascending;
    r := [];
    var left := s;
    while left != {}
      invariant r + Sorted(left) == Sorted(s)
    {
      var least := Minimum(left);
      SortedMoves(r, left);
      r := r + [least];
      left := left - {least};
    }
    SortedFirst({});
    assert r + [] == r;
  }

  lemma SortedMoves(r: seq<nat>, s: set<nat>)
    requires s != {}
    ensures r + [Smallest(s)] + Sorted(s - {Smallest(s)}) == r + Sorted(s)
  {
    hide Sorted, Smallest, Ascending;
    SortedFirst(s);
  }

  lemma SortedFirst(s: set<nat>)
    ensures Sorted(s) == if s == {} then [] else [Smallest(s)] + Sorted(s - {Smallest(s)})
  {
  }

  lemma FoundIt(w: World, e: Entry, d: Wdev)
    requires Uniq(w.net) && d in w.net.devs && IsLive(w, e, d)
    ensures Netns.FindLive(w, e) == Some(d)
  {
    hide Uniq, IsLive;
    LiveUnique(w, e, d, Netns.FindLive(w, e).value);
  }

  lemma NoRecord(w: World, d: Wdev)
    requires d in w.net.devs && Claimants(w, d) == {}
    ensures !IsOwned(w, d)
  {
    assert forall k :: k in w.owned && k.1 == w.net.devs[d].name && w.owned[k] == d ==> k.0 in Claimants(w, d);
  }

  lemma RekeyedNot(w: World, d: Wdev)
    requires !IsOwned(w, d)
    ensures Rekeyed(w, d) == w
  {
  }
}
