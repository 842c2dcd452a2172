/**
 What is left alone: a radio that another tool is using, and, when the default profile is applied, every radio
 that is not Core's.
 */
module LeftAlone {
  import opened Bytes
  import opened Sorting
  import opened Netns
  import opened NetnsLaws
  import opened Service
  import opened ServiceLaws
  import opened UndoLaws
  import opened EntryLaws
  import opened Ownership
  import opened Isolation
  import opened Records
  import opened StartFailure
  import opened Profiles
  import opened ProfileLaws

  // ---------------------------------------------------------------- a radio in use

  /**
   How activating an entry ends before anything is done: it is absent exactly if no netdev answers to it, and busy
   exactly if the one that does has a mode that Core never sets or is used by another tool. Then nothing but stale
   markers is touched, and the entry is reported provisioned or in use.
   */
  lemma BusyExactly(w: World, e: Entry)
    ensures var found := FindLive(Swept(w), e); var (v, status) := Activated(w, e);
            && (status == Absent <==> found.None?)
            && (status == Busy <==> found.Some? && (found.value in w.used || w.net.devs[found.value].mode == Foreign))
            && (status in {Absent, Busy} ==> v == w.(markers := v.markers))
            && (status == Absent ==> Applying(w, Item(e, true), false) == (v, Provisioned, false))
            && (status == Busy ==> Applying(w, Item(e, true), false) == (v, InUseReport, false))
  {
    hide Prepared, Reverted, IsLive, IsCore;
  }

  /** An entry in use does not make an activation fail, and is not among what a rollback would take down. */
  lemma BusyIsAcceptable(w: World, items: seq<Item>)
    requires items != [] && items[0].valid
    requires var found := FindLive(Swept(w), items[0].entry);
             found.Some? && (found.value in w.used || w.net.devs[found.value].mode == Foreign)
    ensures var v := Swept(w); var a, rest := Apply(w, items, false), Apply(v, items[1..], false);
            && v.net == w.net && v.spaces == w.spaces && v.owned == w.owned && a.world == rest.world
            && a.threw == rest.threw && a.reports == [InUseReport] + rest.reports
            && a.activated == rest.activated && (Acceptable(a.reports) <==> Acceptable(rest.reports))
  {
    hide Prepared, Reverted, IsLive, IsCore, Activated, Swept, FindLive, Acceptable, Applying, Apply;
    BusyExactly(w, items[0].entry);
    BusyWorld(w, items[0].entry);
    assert items[0] == Item(items[0].entry, true);
    ReportedFirst(w, items, InUseReport);
    SweptFields(w);
  }

  lemma SweptFields(w: World)
    ensures Swept(w) == w.(markers := Swept(w).markers)
  {
  }

  /** An entry that changes nothing adds its report, and nothing to roll back unless it came up. */
  lemma ReportedFirst(w: World, items: seq<Item>, r: Report)
    requires items != [] && Applying(w, items[0], false) == (Swept(w), r, false)
    ensures var a, rest := Apply(w, items, false), Apply(Swept(w), items[1..], false);
            && a == rest.(reports := [r] + rest.reports, activated := CameUpIf(r, items[0].entry) + rest.activated)
            && (r == InUseReport ==> a.activated == rest.activated)
            && (Acceptable(a.reports) <==> r != ErrorReport && Acceptable(rest.reports))
  {
    hide Applying, Swept;
    var rest := Apply(Swept(w), items[1..], false);
    assert ([r] + rest.reports)[0] == r;
    assert forall i :: 0 <= i < |rest.reports| ==> ([r] + rest.reports)[i + 1] == rest.reports[i];
    assert [] + rest.activated == rest.activated;
  }

  lemma BusyWorld(w: World, e: Entry)
    requires Activated(w, e).1 == Busy
    ensures Activated(w, e).0 == Swept(w)
  {
    hide Prepared, Reverted, IsLive, IsCore;
  }

  /**
   Deactivating an entry whose netdev in root another tool has come to use leaves it as it is and hands it back: no
   command is issued, its record in root is gone, and no other record changes, but that one left behind elsewhere may go.
   */
  lemma HandsBack(w: World, e: Entry, d: Wdev)
    requires WF(w) && FindLive(Swept(w), e) == Some(d) && Sits(w.net, d, Root) && (d in w.used || w.net.devs[d].mode == Foreign)
    ensures var (v, out) := Deactivated(w, e); var here := (Root, w.net.devs[d].name);
            && out == Done && v == w.(owned := v.owned, markers := v.markers)
            && (here in v.owned ==> v.owned[here] != d)
            && (forall k :: k in v.owned ==> k in w.owned && v.owned[k] == w.owned[k])
            && (forall k :: k in w.owned && k != here && w.owned[k] != d ==> k in v.owned)
            && ((forall k :: k in w.owned && w.owned[k] == d ==> k == here) ==> forall k :: k in v.owned ==> v.owned[k] != d)
  {
    SweptWorks(w, 0);
    hide WF, Reverted, FindLive, IsLive, IsCore, OffRadio;
    var v := Swept(w);
    if IsOwned(v, d) {
      var k := RecordOf(v, d);
      assert k in v.owned && v.owned[k] == d && k.1 == w.net.devs[d].name;
      assert Rekeyed(v, d).owned == (v.owned - {k})[(Root, w.net.devs[d].name) := d];
    } else {
      assert forall k :: k in v.owned && k.1 == w.net.devs[d].name ==> v.owned[k] != d;
    }
  }

  // ---------------------------------------------------------------- who is skipped

  /** Core created the netdev: a record of its name, wherever, holds its wdev id. */
  ghost predicate OnRecord(w: World, d: Wdev) {
    d in w.net.devs && exists k :: k in w.owned && k.1 == w.net.devs[d].name && w.owned[k] == d
  }

  /** Core created the namespace: its marker names the identity that it has. */
  predicate Marked(w: World, s: Label) { s in w.markers && s in w.spaces && w.markers[s] == w.spaces[s] }

  /** Not Core's: in root and not on record, or in a namespace that is not marked. */
  ghost predicate Stray(w: World, d: Wdev) {
    d in w.net.devs && w.net.devs[d].phy in w.net.phys &&
    match w.net.phys[w.net.devs[d].phy]
    case Root => !OnRecord(w, d)
    case In(s) => !Marked(w, s)
  }

  /** The default profile skips an entry exactly if the netdev that answers to it is not Core's, and then touches nothing. */
  lemma SkippedExactly(w: World, item: Item)
    requires WF(w)
    ensures var found := FindLive(Swept(w), item.entry); var (v, report, threw) := Applying(w, item, true);
            && (report == Skipped <==> found.Some? && Stray(w, found.value))
            && (report == Skipped ==> v == w.(markers := v.markers) && !threw)
            && Applying(w, item, false).1 != Skipped
  {
    hide Activated, IsLive, RecordOf;
    SweptWorks(w, 0);
    SweptIsSame(w);
    hide Swept, WF, OffRadio, FindLive;
    var v := Swept(w);
    var found := FindLive(v, item.entry);
    if found.Some? {
      assert IsOwned(v, found.value) <==> OnRecord(w, found.value);
      if !IsOwned(v, found.value) {
        assert Rekeyed(v, found.value) == v;
      }
    }
  }

  /** A stray is what the undo protects. */
  lemma StrayIsProtected(w: World, d: Wdev)
    ensures Stray(w, d) <==> Protected(w, d)
  {
  }

  // ---------------------------------------------------------------- radios that are not Core's

  /** A radio in root none of whose netdevs is in any record, or one in a namespace that is not marked. */
  ghost predicate Aloof(w: World, p: Phy) {
    p in w.net.phys &&
    match w.net.phys[p]
    case Root => forall d, k :: d in w.net.devs && w.net.devs[d].phy == p && k in w.owned ==> w.owned[k] != d
    case In(s) => !Marked(w, s)
  }

  /** What it needs to stay aloof: no netdev of it comes to be recorded, and its namespace is not marked. */
  ghost predicate Unclaimed(w: World, v: World, p: Phy) {
    && (p in w.net.phys ==> p in v.net.phys && v.net.phys[p] == w.net.phys[p])
    && (forall d, k :: d in v.net.devs && v.net.devs[d].phy == p && k in v.owned && v.owned[k] == d ==>
          d in w.net.devs && w.net.devs[d].phy == p && exists j :: j in w.owned && w.owned[j] == d)
    && (forall s :: s in w.spaces && !IsCore(w, s) ==> !IsCore(v, s))
  }

  lemma StaysAloof(w: World, v: World, p: Phy)
    requires WF(w) && Aloof(w, p) && Unclaimed(w, v, p)
    ensures Aloof(v, p)
  {
    hide Uniq, Known, Picks, Distinct;
  }

  lemma AloofStray(w: World, p: Phy, d: Wdev)
    requires Aloof(w, p) && d in w.net.devs && w.net.devs[d].phy == p
    ensures Stray(w, d) && Protected(w, d)
  {
  }

  /** Nothing new is recorded on a radio that stays as it is. */
  lemma SameRadioUnclaimed(w: World, v: World, p: Phy)
    requires WF(w) && SameRadio(w.net, v.net, p) && Estranged(w, v) && forall s :: s in w.spaces && !IsCore(w, s) ==> !IsCore(v, s)
    ensures Unclaimed(w, v, p)
  {
    hide Uniq, Picks, Distinct, Housed, IsCore;
    forall d, k | d in v.net.devs && v.net.devs[d].phy == p && k in v.owned && v.owned[k] == d
      ensures d in w.net.devs && w.net.devs[d].phy == p && exists j :: j in w.owned && w.owned[j] == d
    {
      assert d < w.nextWdev;
      assert !Stranger(v, d);
    }
  }

  /** As it was, and still aloof. */
  ghost predicate Untouched(w: World, v: World, p: Phy) { SameRadio(w.net, v.net, p) && Aloof(v, p) }

  lemma UntouchedTrans(w: World, v: World, u: World, p: Phy)
    requires Untouched(w, v, p) && Untouched(v, u, p)
    ensures Untouched(w, u, p)
  {
    SameRadioTrans(w.net, v.net, u.net, p);
    hide Aloof, SameRadio;
  }

  lemma UndoUntouched(w: World, v: World, p: Phy)
    requires WF(w) && Aloof(w, p) && SameRadio(w.net, v.net, p) && Estranged(w, v) && Unharmed(w, v)
    ensures Untouched(w, v, p)
  {
    UnharmedSpaces(w, v);
    SameRadioUnclaimed(w, v, p);
    StaysAloof(w, v, p);
    hide Aloof, SameRadio, Estranged, Unharmed;
  }

  lemma UnharmedSpaces(w: World, v: World)
    requires Unharmed(w, v)
    ensures forall s :: s in w.spaces && !IsCore(w, s) ==> !IsCore(v, s)
  {
    hide IsCore, Protected;
  }

  lemma SameNetRadio(n: Net, m: Net, p: Phy)
    requires m == n
    ensures SameRadio(n, m, p)
  {
  }

  // ---------------------------------------------------------------- undoing leaves them alone

  lemma FoundUnmanaged(w: World, e: Entry, p: Phy)
    requires WF(w) && Aloof(w, p) && RadioOf(w, e) == Some(p)
    ensures Deactivated(w, e).0 == Swept(w)
  {
    SweptWorks(w, 0);
    SweptIsSame(w);
    var d := FindLive(Swept(w), e).value;
    AloofStray(w, p, d);
    hide WF, Swept, IsLive, Reverted, Rekeyed, InUse, FindLive, OffRadio;
  }

  lemma DeactivateUntouched(w: World, e: Entry, p: Phy)
    requires WF(w) && Plain(e) && Aloof(w, p)
    ensures WF(Deactivated(w, e).0) && Untouched(w, Deactivated(w, e).0, p)
  {
    hide WF, Aloof, Deactivated, Unharmed, Estranged, Swept, OffRadio, SameRadio, Finds;
    var v := Deactivated(w, e).0;
    UndoSafe(w, e);
    DeactivatedEstranged(w, e);
    if RadioOf(w, e) == Some(p) {
      FoundUnmanaged(w, e, p);
      SweptWorks(w, 0);
      SameNetRadio(w.net, v.net, p);
    } else {
      var q := if RadioOf(w, e).Some? then RadioOf(w, e).value else p + 1;
      FindsRadio(w, e, q);
      DeactivatedWorks(w, e, q);
      OffIsSame(w.net, v.net, q, p);
    }
    UndoUntouched(w, v, p);
  }

  lemma FindsRadio(w: World, e: Entry, q: Phy)
    requires RadioOf(w, e).Some? ==> RadioOf(w, e) == Some(q)
    ensures FindLive(Swept(w), e).Some? ==> Finds(w, e, q)
  {
  }

  lemma {:induction false} AllUntouched(w: World, es: seq<Entry>, p: Phy)
    requires WF(w) && Aloof(w, p) && forall e :: e in es ==> Plain(e)
    ensures WF(DeactivatedAll(w, es)) && Untouched(w, DeactivatedAll(w, es), p)
    decreases |es|
  {
    hide WF, Deactivated, SameRadio, Aloof;
    if es == [] {
      SameNetRadio(w.net, w.net, p);
    } else {
      var v := Deactivated(w, es[0]).0;
      DeactivateUntouched(w, es[0], p);
      AllUntouched(v, es[1..], p);
      UntouchedTrans(w, v, DeactivatedAll(v, es[1..]), p);
    }
  }

  /** A radio that goes home is in one of Core's namespaces, so it is another one. */
  lemma HomeUntouched(w: World, s: Label, q: Phy, p: Phy)
    requires WF(w) && Aloof(w, p) && IsCore(w, s) && q in w.net.phys && w.net.phys[q] == In(s)
    ensures Untouched(w, Homeward(w, s, q), p)
  {
    assert q != p;
    hide WF, Aloof, Homeward, Unharmed, Estranged, OffRadio, SameRadio, IsCore, MovePhy, Shrinks;
    var v, u := HomewardSteps(w, s, q);
    OffIsSame(w.net, Homeward(w, s, q).net, q, p);
    HomeSafe(w, q, s);
    HomeEstranged(w, s, q);
    UndoUntouched(w, Homeward(w, s, q), p);
  }

  lemma {:induction false} ReturnUntouched(w: World, s: Label, radios: seq<Phy>, p: Phy)
    requires WF(w) && Aloof(w, p) && IsCore(w, s)
    ensures Untouched(w, ReturnPhys(w, s, radios), p)
    decreases |radios|
  {
    hide WF, Aloof, Homeward, SameRadio, Unharmed;
    SameNetRadio(w.net, w.net, p);
    if radios != [] {
      var q := radios[0];
      if q in w.net.phys && w.net.phys[q] == In(s) {
        HomeUntouched(w, s, q, p);
        HomeSafe(w, q, s);
        ReturnUntouched(Homeward(w, s, q), s, radios[1..], p);
        UntouchedTrans(w, Homeward(w, s, q), ReturnPhys(w, s, radios), p);
      } else {
        ReturnUntouched(w, s, radios[1..], p);
      }
    }
  }

  lemma DropUntouched(w: World, s: Label, p: Phy)
    requires WF(w) && Aloof(w, p) && IsCore(w, s)
    ensures Untouched(w, DropSpaceIfEmpty(w, s), p)
  {
    hide WF, Aloof, DropSpaceIfEmpty, SameRadio, Unharmed, Estranged, Fewer, IsCore;
    DropWorks(w, s);
    DropUnharmed(w, s);
    DropFewer(w, s);
    FewerEstranged(w, DropSpaceIfEmpty(w, s));
    SameNetRadio(w.net, DropSpaceIfEmpty(w, s).net, p);
    UndoUntouched(w, DropSpaceIfEmpty(w, s), p);
  }

  lemma {:induction false} ReturnAllUntouched(w: World, names: seq<Label>, radios: seq<Phy>, p: Phy)
    requires WF(w) && Aloof(w, p) && ListsCore(w, names)
    ensures Untouched(w, ReturnAll(w, names, radios), p)
    decreases |names|
  {
    hide WF, Aloof, SameRadio, Unharmed, ReturnPhys, DropSpaceIfEmpty;
    SameNetRadio(w.net, w.net, p);
    if names != [] {
      var v := ReturnPhys(w, names[0], radios);
      ReturnPhysSafe(w, names[0], radios);
      ReturnUntouched(w, names[0], radios, p);
      var u := DropSpaceIfEmpty(v, names[0]);
      DropWorks(v, names[0]);
      DropUnharmed(v, names[0]);
      DropUntouched(v, names[0], p);
      UntouchedTrans(w, v, u, p);
      forall i | 0 <= i < |names[1..]|
        ensures IsCore(u, names[1..][i])
      {
        assert IsCore(w, names[i + 1]) && names[i + 1] != names[0];
      }
      ReturnAllUntouched(u, names[1..], radios, p);
      UntouchedTrans(w, u, ReturnAll(u, names[1..], radios), p);
    }
  }

  lemma SweptUntouched(w: World, p: Phy)
    requires WF(w) && Aloof(w, p)
    ensures Untouched(w, Swept(w), p)
  {
    hide WF, Aloof, SameRadio, Unharmed, Estranged, Fewer, Swept, IsCore, IsOwned, Protected;
    SweptWorks(w, 0);
    SweptIsSame(w);
    SweptFewer(w);
    FewerEstranged(w, Swept(w));
    SameNetRadio(w.net, Swept(w).net, p);
    UndoUntouched(w, Swept(w), p);
  }

  /** Tearing a profile down, whatever fails, leaves a radio that is not Core's exactly as it is. */
  lemma TornDownUntouched(w: World, items: seq<Profiles.Item>, p: Phy)
    requires WF(w) && Aloof(w, p) && AllPlain(items)
    ensures WF(TornDown(w, items)) && Untouched(w, TornDown(w, items), p)
  {
    hide WF, Aloof, SameRadio, Unharmed, DeactivatedAll, ReturnAll, Swept, IsCore, IsOwned, Protected, Untouched, ListsCore;
    var v := DeactivatedAll(w, Entries(items));
    AllUntouched(w, Entries(items), p);
    UntouchedIs(w, v, p);
    TornDownSafe(w, items);
    SweptUntouched(v, p);
    UntouchedIs(v, Swept(v), p);
    SweptWorks(v, 0);
    var u := Swept(v);
    CoreListed(u);
    ReturnAllUntouched(u, Sorted(CoreSpaces(u)), Sorted(u.net.phys.Keys), p);
    UntouchedTrans(v, u, Homecoming(v), p);
    UntouchedTrans(w, v, Homecoming(v), p);
  }

  lemma UntouchedIs(w: World, v: World, p: Phy)
    requires Untouched(w, v, p)
    ensures Aloof(v, p)
  {
  }

  lemma CoreListed(w: World)
    ensures ListsCore(w, Sorted(CoreSpaces(w)))
  {
    var names := Sorted(CoreSpaces(w));
    assert forall i :: 0 <= i < |names| ==> names[i] in CoreSpaces(w);
  }

  lemma RekeyUntouched(w: World, d: Wdev, p: Phy)
    requires WF(w) && Aloof(w, p) && d in w.net.devs
    ensures WF(Rekeyed(w, d)) && Untouched(w, Rekeyed(w, d), p)
  {
    hide WF, Aloof, SameRadio, Unharmed, Estranged, Rekeyed, IsOwned, Shrinks;
    RekeyedTidies(w, d);
    RekeyedEstranged(w, d);
    SameNetUnharmed(w, Rekeyed(w, d));
    SameNetRadio(w.net, Rekeyed(w, d).net, p);
    UndoUntouched(w, Rekeyed(w, d), p);
  }

  lemma AskedUntouched(w: World, e: Entry, p: Phy)
    requires WF(w) && Aloof(w, p)
    ensures WF(Automatic(w, e).0) && Untouched(w, Automatic(w, e).0, p) && Automatic(w, e).0.net == w.net
  {
    hide WF, Aloof, SameRadio, Rekeyed, IsOwned, IsCore, Swept, IsLive, OffRadio;
    SweptWorks(w, 0);
    SweptUntouched(w, p);
    var v := Swept(w);
    var found := FindLive(v, e);
    if found.Some? {
      RekeyUntouched(v, found.value, p);
      UntouchedTrans(w, v, Rekeyed(v, found.value), p);
      AutomaticTidies(w, e);
    }
  }

  lemma {:induction false} InvalidUntouched(w: World, items: seq<Profiles.Item>, onlyCore: bool, p: Phy)
    requires WF(w) && Aloof(w, p)
    ensures WF(Invalid(w, items, onlyCore).0) && Untouched(w, Invalid(w, items, onlyCore).0, p)
    decreases |items|
  {
    hide WF, Aloof, SameRadio, Automatic;
    SameNetRadio(w.net, w.net, p);
    if items != [] {
      var v := if onlyCore then Automatic(w, items[0].entry).0 else w;
      AskedUntouched(w, items[0].entry, p);
      InvalidUntouched(v, items[1..], onlyCore, p);
      UntouchedTrans(w, v, Invalid(v, items[1..], onlyCore).0, p);
    }
  }

  // ---------------------------------------------------------------- activating leaves them alone, or takes one by mistake

  /** The records of the undo after a failed start hold nothing that it has made. */
  lemma MadeUnclaimed(t: World, a: World, p: Phy)
    requires WF(t) && Fewer(t, a) && (p in t.net.phys ==> p in a.net.phys && a.net.phys[p] == t.net.phys[p])
    requires forall d :: d in a.net.devs ==> (d in t.net.devs && a.net.devs[d].phy == t.net.devs[d].phy) || d >= t.nextWdev
    ensures Unclaimed(t, a, p)
  {
    hide Uniq, Known, Picks, Housed, Distinct;
  }

  /** Even through the revert a radio that is not Core's stays where it is, and so do its netdevs but an exposed one. */
  lemma RevertKeepsPlace(w: World, e: Entry, p: Phy)
    requires WF(w) && Plain(e) && Fair(w, e) && StartFails(w, e) && Aloof(w, p) && RadioOf(w, e) != Some(p)
    ensures var t := Unstarted(w, e); var a := Reverted(t, e).0;
            && SameRadio(w.net, t.net, p) && Aloof(t, p) && WF(t) && p in a.net.phys && a.net.phys[p] == t.net.phys[p]
            && (RadioOf(t, e) != Some(p) ==> SameRadio(t.net, a.net, p))
            && (RadioOf(t, e) == Some(p) ==>
                  var y := FindLive(Swept(t), e).value;
                  y in w.net.devs && w.net.devs[y].phy == p && Named(t.net, y, Root, e.interface) && (w.net.devs[y].mode != Managed ==> Exposed(w, e, y)))
  {
    hide WF, Aloof, StartFails, Unstarted, Reverted, Fair, FindLive, Swept, Kept, OffRadio, OnlyDev, Exposed, SameRadio, IsLive;
    FailsStarted(w, e);
    var t := Unstarted(w, e);
    var a := Reverted(t, e).0;
    UnstartedKept(w, e);
    FailedPrepared(w, e);
    OffIsSame(w.net, t.net, RadioOf(w, e).value, p);
    UnstartedAloof(w, e, p);
    var q := if RadioOf(t, e).Some? then RadioOf(t, e).value else p + 1;
    FindsRadio(t, e, q);
    RevertedWorks(t, e, q);
    if RadioOf(t, e) == Some(p) {
      var y := FindLive(Swept(t), e).value;
      RevertReaches(w, e, y);
      AloofStray(t, p, y);
      NotInCore(t, y);
      RootReverted(t, e, y);
      OnlyPhys(t.net, a.net, y);
    } else {
      OffIsSame(t.net, a.net, q, p);
      SamePhys(t.net, a.net, p);
    }
    SamePhys(w.net, t.net, p);
    AloofIn(w, p);
  }

  lemma AloofIn(w: World, p: Phy)
    requires Aloof(w, p)
    ensures p in w.net.phys
  {
  }

  lemma NotInCore(t: World, y: Wdev)
    requires Stray(t, y)
    ensures !exists s :: IsCore(t, s) && Sits(t.net, y, In(s))
  {
  }

  lemma OnlyPhys(n: Net, m: Net, y: Wdev)
    requires m == n || OnlyDev(n, m, y)
    ensures m.phys == n.phys
  {
  }

  lemma SamePhys(n: Net, m: Net, p: Phy)
    requires SameRadio(n, m, p)
    ensures (p in n.phys <==> p in m.phys) && (p in n.phys ==> m.phys[p] == n.phys[p])
  {
  }

  /** Strangers stay so up to the revert. */
  lemma UnstartedAloof(w: World, e: Entry, p: Phy)
    requires WF(w) && Plain(e) && Fair(w, e) && StartFails(w, e) && Aloof(w, p) && SameRadio(w.net, Unstarted(w, e).net, p)
    ensures Aloof(Unstarted(w, e), p)
  {
    hide WF, Aloof, Unstarted, StartFails, Fair, Kept, SameRadio, Estranged;
    UnstartedKept(w, e);
    KeptUnclaimed(w, Unstarted(w, e), p);
    StaysAloof(w, Unstarted(w, e), p);
  }

  lemma KeptUnclaimed(w: World, v: World, p: Phy)
    requires WF(w) && SameRadio(w.net, v.net, p) && Kept(w, v)
    ensures Unclaimed(w, v, p)
  {
    hide Uniq, Picks, Distinct, Housed, IsCore;
  }

  predicate Placed(w: World, v: World, p: Phy) { p in w.net.phys && p in v.net.phys && v.net.phys[p] == w.net.phys[p] }

  /** Where a radio is that is not Core's, and that none of its netdevs is recorded, outlasts any activation of another radio. */
  lemma ActivateAloof(w: World, e: Entry, p: Phy)
    requires WF(w) && Plain(e) && Fair(w, e) && Aloof(w, p) && RadioOf(w, e) != Some(p)
    ensures Aloof(Activated(w, e).0, p) && Placed(w, Activated(w, e).0, p)
  {
    hide WF, Aloof, StartFails, Unstarted, Activated, Reverted, Fair, FindLive, Swept, Kept, OffRadio, SameRadio, Fewer, Unclaimed;
    ActivatedWorks(w, e);
    ActivatedKept(w, e);
    if StartFails(w, e) {
      FailedPrepared(w, e);
      var t := Unstarted(w, e);
      RevertKeepsPlace(w, e, p);
      RevertedFewer(t, e);
      if RadioOf(t, e) == Some(p) {
        RevertedWorks(t, e, p);
        FindsRadio(t, e, p);
        WorkedDevs(t, Reverted(t, e).0, p);
        MadeUnclaimed(t, Reverted(t, e).0, p);
      } else {
        SamePhys(t.net, Reverted(t, e).0.net, p);
        FewerKept(t, Reverted(t, e).0);
        KeptUnclaimed(t, Reverted(t, e).0, p);
      }
      StaysAloof(t, Reverted(t, e).0, p);
      SamePhys(w.net, t.net, p);
      AloofIn(w, p);
    } else {
      var q := if RadioOf(w, e).Some? then RadioOf(w, e).value else p + 1;
      if RadioOf(w, e).None? {
        SameNetRadio(w.net, Activated(w, e).0.net, p);
      } else {
        OffIsSame(w.net, Activated(w, e).0.net, q, p);
      }
      KeptUnclaimed(w, Activated(w, e).0, p);
      StaysAloof(w, Activated(w, e).0, p);
      SamePhys(w.net, Activated(w, e).0.net, p);
      AloofIn(w, p);
    }
  }

  /** Netdevs do not change radios. */
  lemma WorkedDevs(w: World, v: World, q: Phy)
    requires Worked(w, v, q)
    ensures forall d :: d in v.net.devs ==> (d in w.net.devs && v.net.devs[d].phy == w.net.devs[d].phy) || d >= w.nextWdev
  {
  }

  lemma ActivatedGone(w: World, e: Entry, x: Wdev)
    requires WF(w) && Plain(e) && x < w.nextWdev && x !in w.net.devs
    ensures x !in Activated(w, e).0.net.devs && x < Activated(w, e).0.nextWdev
  {
    hide WF, Activated, StartFails, Unstarted, OffRadio, Prepared, Reverted, Swept, IsLive, InUse;
    ActivatedWorks(w, e);
    ActivatedLater(w, e);
  }

  lemma ActivatedLater(w: World, e: Entry)
    requires WF(w) && Plain(e)
    ensures w.nextWdev <= Activated(w, e).0.nextWdev
  {
    ActivatedWorks(w, e);
    SweptWorks(w, 0);
    hide WF, StartFails, Unstarted, OffRadio, Prepared, Reverted, Swept, IsLive, InUse;
  }

  // ---------------------------------------------------------------- one entry of the default profile

  /** The world once the entry's ownership was asked. */
  ghost function Asked(w: World, e: Entry): World { Automatic(w, e).0 }

  /** Applying the entry does not skip it, and activates it. */
  ghost predicate Attempts(w: World, item: Profiles.Item) { item.valid && Applying(w, item, true).1 != Skipped }

  /** Its display name is free, if it is attempted. */
  ghost predicate Fairly(w: World, item: Profiles.Item) { Attempts(w, item) ==> Fair(Asked(w, item.entry), item.entry) }

  /** The entry is attempted, its start fails, and the revert takes `x` for its netdev. */
  ghost predicate Mistakes(w: World, item: Profiles.Item, x: Wdev) { Attempts(w, item) && Harms(Asked(w, item.entry), item.entry, x) }

  lemma AttemptIs(w: World, item: Profiles.Item)
    ensures var (u, report, threw) := Applying(w, item, true);
            if Attempts(w, item) then u == Activated(Asked(w, item.entry), item.entry).0 else u == Asked(w, item.entry) && !threw
  {
    hide Activated, Automatic;
  }

  /** What is attempted is on another radio. */
  lemma AttemptsElsewhere(w: World, item: Profiles.Item, p: Phy)
    requires WF(w) && Aloof(w, p) && Attempts(w, item)
    ensures RadioOf(Asked(w, item.entry), item.entry) != Some(p)
  {
    var e := item.entry;
    hide WF, Aloof, Applying, Automatic, Rekeyed, IsLive, IsCore, IsOwned, Swept, OffRadio, Stray, FindLive;
    SkippedExactly(w, item);
    SweptWorks(w, 0);
    var v := Swept(w);
    AskedFields(w, e);
    StaysLive(v, Asked(w, e), e);
    if RadioOf(Asked(w, e), e) == Some(p) {
      AloofStray(w, p, FindLive(v, e).value);
      assert false;
    }
  }

  lemma AskedFields(w: World, e: Entry)
    requires WF(w)
    ensures var v := Swept(w); Asked(w, e) == v.(owned := Asked(w, e).owned)
  {
    hide WF, Rekeyed, IsLive, IsCore, IsOwned, Swept, FindLive, OffRadio;
    SweptWorks(w, 0);
    var v := Swept(w);
    FoundThere(v, e);
    if FindLive(v, e).Some? {
      RekeyedWorks(v, FindLive(v, e).value, 0);
    }
  }

  lemma FoundThere(w: World, e: Entry)
    ensures FindLive(w, e).Some? ==> FindLive(w, e).value in w.net.devs && w.net.devs[FindLive(w, e).value].phy in w.net.phys
  {
    hide IsLive;
  }

  /** A netdev after a step: gone, or as it was. */
  ghost predicate Lasts(w: World, v: World, x: Wdev) { x in w.net.devs && x in v.net.devs && v.net.devs[x] == w.net.devs[x] }

  /** One entry: a netdev on a radio that is not Core's is lost exactly if the revert mistakes it; the radio stays. */
  lemma StepExactly(w: World, item: Profiles.Item, p: Phy, x: Wdev)
    requires WF(w) && Plain(item.entry) && Aloof(w, p) && Fairly(w, item) && x in w.net.devs && w.net.devs[x].phy == p
    ensures var u := Applying(w, item, true).0;
            && WF(u) && Aloof(u, p) && Placed(w, u, p)
            && (if Mistakes(w, item, x) then x !in u.net.devs && x < u.nextWdev else Lasts(w, u, x))
  {
    hide WF, Aloof, Applying, Automatic, Harms, Activated, Fair, OffRadio, SameRadio, Spared, Protected, Stray, FindLive;
    var e := item.entry;
    var v := Asked(w, e);
    AskedUntouched(w, e, p);
    UntouchedIs(w, v, p);
    AloofIn(w, p);
    AttemptIs(w, item);
    if Attempts(w, item) {
      AttemptsElsewhere(w, item, p);
      ActivateAloof(v, e, p);
      ActivatedWorks(v, e);
      AloofStray(v, p, x);
      HarmExactly(v, e, x);
      ActivatedLater(v, e);
      KnownDev(v, x);
      if !Mistakes(w, item, x) {
        SparedIn(v, Activated(v, e).0, x);
      }
    }
  }

  // ---------------------------------------------------------------- the default profile

  /** Every entry that is attempted on the way finds its display name free. */
  ghost predicate FairRun(w: World, items: seq<Profiles.Item>)
    decreases |items|
  {
    items != [] ==>
      var (u, report, threw) := Applying(w, items[0], true);
      Fairly(w, items[0]) && (threw || FairRun(u, items[1..]))
  }

  /** Some entry on the way is attempted whose revert mistakes `x` for its netdev. */
  ghost predicate MistakenIn(w: World, items: seq<Profiles.Item>, x: Wdev)
    decreases |items|
  {
    items != [] &&
    var (u, report, threw) := Applying(w, items[0], true);
    Mistakes(w, items[0], x) || (!threw && MistakenIn(u, items[1..], x))
  }

  lemma ApplyOnly(w: World, items: seq<Profiles.Item>)
    requires items != []
    ensures var (u, report, threw) := Applying(w, items[0], true);
            Apply(w, items, true).world == if threw then u else Apply(u, items[1..], true).world
  {
    hide Applying;
  }

  lemma StepGone(w: World, item: Profiles.Item, x: Wdev)
    requires WF(w) && Plain(item.entry) && x < w.nextWdev && x !in w.net.devs
    ensures var u := Applying(w, item, true).0; WF(u) && x !in u.net.devs && x < u.nextWdev
  {
    hide WF, Applying, Automatic, Activated, Unharmed;
    AttemptIs(w, item);
    AutomaticTidies(w, item.entry);
    ActivatedWorks(Asked(w, item.entry), item.entry);
    ActivatedGone(Asked(w, item.entry), item.entry, x);
  }

  lemma {:induction false} ApplyGone(w: World, items: seq<Profiles.Item>, x: Wdev)
    requires WF(w) && AllPlain(items) && x < w.nextWdev && x !in w.net.devs
    ensures var v := Apply(w, items, true).world; WF(v) && x !in v.net.devs && x < v.nextWdev
    decreases |items|
  {
    hide WF, Applying, Apply;
    if items == [] {
      ApplyNothing(w);
    } else {
      ApplyOnly(w, items);
      StepGone(w, items[0], x);
      ApplyGone(Applying(w, items[0], true).0, items[1..], x);
    }
  }

  lemma ApplyNothing(w: World)
    ensures Apply(w, [], true).world == w
  {
  }

  /** Applying the default's entries, whatever fails: the same for the whole list. */
  lemma {:induction false} ApplyExactly(w: World, items: seq<Profiles.Item>, p: Phy, x: Wdev)
    requires WF(w) && AllPlain(items) && Aloof(w, p) && FairRun(w, items) && x in w.net.devs && w.net.devs[x].phy == p
    ensures var v := Apply(w, items, true).world;
            && WF(v) && (if MistakenIn(w, items, x) then x !in v.net.devs && x < v.nextWdev else Lasts(w, v, x) && Aloof(v, p) && Placed(w, v, p))
    decreases |items|
  {
    hide WF, Aloof, Applying, Apply, Mistakes, Fairly;
    if items == [] {
      ApplyNothing(w);
      AloofIn(w, p);
    } else {
      ApplyOnly(w, items);
      var (u, report, threw) := Applying(w, items[0], true);
      StepExactly(w, items[0], p, x);
      if !threw {
        if Mistakes(w, items[0], x) {
          ApplyGone(u, items[1..], x);
        } else {
          ApplyExactly(u, items[1..], p, x);
        }
      }
    }
  }

  lemma {:induction false} RollbackGone(w: World, es: seq<Entry>, x: Wdev)
    requires WF(w) && (forall e :: e in es ==> Plain(e)) && x < w.nextWdev && x !in w.net.devs
    ensures x !in DeactivatedAll(w, es).net.devs
    decreases |es|
  {
    hide WF, Deactivated, OffRadio, Unharmed, Finds;
    if es != [] {
      UndoSafe(w, es[0]);
      var q := if RadioOf(w, es[0]).Some? then RadioOf(w, es[0]).value else 0;
      FindsRadio(w, es[0], q);
      DeactivatedWorks(w, es[0], q);
      RollbackGone(Deactivated(w, es[0]).0, es[1..], x);
    }
  }

  /** After the entries are applied, a rollback changes nothing on a radio that is not Core's. */
  lemma CommittedExactly(s: Site, items: seq<Profiles.Item>, p: Phy, x: Wdev)
    requires WF(s.world) && AllPlain(items) && Aloof(s.world, p) && FairRun(s.world, items)
    requires x in s.world.net.devs && s.world.net.devs[x].phy == p
    ensures var v := Committed(s, DEFAULT, items).0.world;
            if MistakenIn(s.world, items, x) then x !in v.net.devs else Lasts(s.world, v, x) && Placed(s.world, v, p)
  {
    hide WF, Aloof, Apply, DeactivatedAll, Acceptable, MistakenIn, FairRun, SameRadio, AllPlain;
    var a := Apply(s.world, items, true);
    ApplyExactly(s.world, items, p, x);
    ActivatedIsCameUp(s.world, items, true);
    CameUpPlain(items, a.reports);
    if MistakenIn(s.world, items, x) {
      RollbackGone(a.world, a.activated, x);
    } else {
      AllUntouched(a.world, a.activated, p);
      RadioLasts(s.world, a.world, DeactivatedAll(a.world, a.activated), p, x);
    }
  }

  lemma RadioLasts(w: World, v: World, u: World, p: Phy, x: Wdev)
    requires Lasts(w, v, x) && Placed(w, v, p) && Untouched(v, u, p) && w.net.devs[x].phy == p
    ensures Lasts(w, u, x) && Placed(w, u, p)
  {
    hide Aloof;
  }

  /**
   Activating the default profile as a whole, forced or not, whatever fails: on a radio in root none of whose netdevs is
   recorded, or in a namespace that is not marked, every netdev stays where and as it is, with the one exception of one that the
   revert after some attempted entry's failed start mistakes for the entry's; that one is deleted.
   */
  lemma DefaultLeavesAlone(s: Site, force: bool, p: Phy, x: Wdev)
    requires WF(s.world) && PlainFiles(s) && Aloof(s.world, p) && x in s.world.net.devs && s.world.net.devs[x].phy == p
    requires Applies(s, DEFAULT, force) ==> FairRun(BeforeApply(s, DEFAULT), All(GetConfig(s, DEFAULT).value))
    ensures var v := ActivateConfig(s, DEFAULT, force).0.world;
            if Applies(s, DEFAULT, force) && MistakenIn(BeforeApply(s, DEFAULT), All(GetConfig(s, DEFAULT).value), x) then x !in v.net.devs
            else Lasts(s.world, v, x) && Placed(s.world, v, p)
  {
    hide WF, Aloof, TornDown, Invalid, Committed, MistakenIn, FairRun, ActivateConfig, All, AllPlain, Declined;
    var cfg := GetConfig(s, DEFAULT);
    var items := All(cfg.value);
    AloofIn(s.world, p);
    LastsSelf(s.world, p, x);
    ActivationEnds(s, DEFAULT, force);
    var v := Invalid(s.world, items, true).0;
    InvalidUntouched(s.world, items, true, p);
    RadioLasts(s.world, s.world, v, p, x);
    UntouchedIs(s.world, v, p);
    var last := GetConfig(s, ActiveId(s));
    var before := if last.Some? then All(last.value) else [];
    PlainLists(s);
    TornDownUntouched(v, items, p);
    RadioLasts(s.world, v, TornDown(v, items), p, x);
    TornDownUntouched(v, before, p);
    RadioLasts(s.world, v, TornDown(v, before), p, x);
    UntouchedIs(v, TornDown(v, before), p);
    if Applies(s, DEFAULT, force) {
      CommittedExactly(Mended(s).(world := BeforeApply(s, DEFAULT)), items, p, x);
      var u := ActivateConfig(s, DEFAULT, force).0.world;
      if !MistakenIn(BeforeApply(s, DEFAULT), items, x) {
        LastsOn(s.world, TornDown(v, before), u, p, x);
      }
    }
  }

  /** The same for all of them together. */
  ghost predicate LeavesAlone(s: Site, force: bool, v: World) {
    forall p, x :: Aloof(s.world, p) && x in s.world.net.devs && s.world.net.devs[x].phy == p ==>
      if Applies(s, DEFAULT, force) && MistakenIn(BeforeApply(s, DEFAULT), All(GetConfig(s, DEFAULT).value), x) then x !in v.net.devs
      else Lasts(s.world, v, x) && Placed(s.world, v, p)
  }

  lemma DefaultLeavesAllAlone(s: Site, force: bool)
    requires WF(s.world) && PlainFiles(s)
    requires Applies(s, DEFAULT, force) ==> FairRun(BeforeApply(s, DEFAULT), All(GetConfig(s, DEFAULT).value))
    ensures LeavesAlone(s, force, ActivateConfig(s, DEFAULT, force).0.world)
  {
    hide WF, Aloof, MistakenIn, FairRun, ActivateConfig, All, AllPlain, Applies, BeforeApply, Lasts, PlainFiles;
    forall p, x | Aloof(s.world, p) && x in s.world.net.devs && s.world.net.devs[x].phy == p
      ensures var v := ActivateConfig(s, DEFAULT, force).0.world;
              if Applies(s, DEFAULT, force) && MistakenIn(BeforeApply(s, DEFAULT), All(GetConfig(s, DEFAULT).value), x) then x !in v.net.devs
              else Lasts(s.world, v, x) && Placed(s.world, v, p)
    {
      DefaultLeavesAlone(s, force, p, x);
    }
  }

  /** The default's entries find their display names free, if they are applied. */
  ghost predicate FairDefault(s: Site, force: bool) {
    Applies(s, DEFAULT, force) ==> FairRun(BeforeApply(s, DEFAULT), All(GetConfig(s, DEFAULT).value))
  }

  lemma LastsSelf(w: World, p: Phy, x: Wdev)
    requires x in w.net.devs && p in w.net.phys
    ensures Lasts(w, w, x) && Placed(w, w, p)
  {
  }

  lemma LastsOn(w: World, v: World, u: World, p: Phy, x: Wdev)
    requires Lasts(w, v, x) && Placed(w, v, p) && Lasts(v, u, x) && Placed(v, u, p)
    ensures Lasts(w, u, x) && Placed(w, u, p)
  {
  }

  lemma PlainLists(s: Site)
    requires PlainFiles(s)
    ensures forall id :: GetConfig(s, id).Some? ==> AllPlain(All(GetConfig(s, id).value))
    ensures AllPlain([])
  {
    assert AllPlain([]);
    hide AllPlain, All;
  }

  // ---------------------------------------------------------------- on the entry's own radio

  /** Where the entry's radio arrives, its other netdevs arrive with it, at worst under a kernel-picked name. */
  lemma SiblingsArrive(n: Net, d: Wdev, e: Entry, live: Live, x: Wdev)
    requires Uniq(n) && Named(n, d, live.place, live.name) && n.devs[d].phy == live.phy
    requires x in n.devs && x != d && n.devs[x].phy == live.phy
    ensures var m := Arrived(n, e, live);
            && x in m.devs && m.devs[x] == n.devs[x].(name := m.devs[x].name) && m.devs[x].name in {n.devs[x].name, Picked(x)}
            && live.phy in m.phys && m.phys[live.phy] == e.place
  {
    WithoutKeeps(n, live.place, live.name);
    DeletedNames(n, d, live, x, n.phys[live.phy], n.devs[x].name);
    hide Uniq, Clashes, Without;
  }

  /**
   An entry that comes up takes the other netdevs of its radio along, whoever made them: so one of them stays where
   it is exactly if the entry's place is the radio's own.
   */
  lemma SiblingsTravel(w: World, e: Entry, x: Wdev)
    requires WF(w) && Plain(e) && Activated(w, e).1 == Up && OnRadio(w, e, x) && FindLive(Swept(w), e) != Some(x)
    ensures var v := Activated(w, e).0; var p := w.net.devs[x].phy;
            && x in v.net.devs && v.net.devs[x] == w.net.devs[x].(name := v.net.devs[x].name) && v.net.devs[x].name in {w.net.devs[x].name, Picked(x)}
            && p in w.net.phys && Sits(v.net, x, e.place) && (Sits(v.net, x, w.net.phys[p]) <==> e.place == w.net.phys[p])
  {
    SweptWorks(w, 0);
    var v := Swept(w);
    hide WF, Prepared, Reverted, Swept, InUse, IsLive, OffRadio, Landed, Arrived, Uniq;
    var d := FindLive(v, e).value;
    FoundThere(v, e);
    var live := LiveOf(v, d);
    assert Backs(v, d, live);
    WFUniq(v);
    PreparedLands(v, e, live);
    SiblingsArrive(v.net, d, e, live, x);
    KnownDev(v, x);
    LandedKeeps(v, Prepared(v, e, live).0, Arrived(v.net, e, live), e, live.phy, x);
    AskOnly(Prepared(v, e, live).0);
  }

  lemma LandedKeeps(w: World, v: World, n: Net, e: Entry, p: Phy, x: Wdev)
    requires Landed(w, v, n, e, p) && x in n.devs && x < w.nextWdev
    ensures x in v.net.devs && v.net.devs[x] == n.devs[x] && v.net.phys == n.phys
  {
    hide Taken, Claim;
  }

  /** One radio in root: netdev 10 is Core's, and 11 is another tool's monitor. */
  const SHARED := World(Net(map[0 := Root], map[10 := Dev(Given(0), 0, Managed), 11 := Dev(Given(9), 0, Monitor)]),
                        map[7 := 0], 12, 1, {}, {}, map[], map[(Root, Given(0)) := 10], [], {10})

  const TAKING := Entry(In(7), Given(0), Given(0), Managed, false)

  lemma SharedSwept()
    ensures WF(SHARED) && Swept(SHARED) == SHARED && !InUse(SHARED, 10)
  {
    assert Swept(SHARED).markers == map[];
  }

  lemma SharedRecord()
    ensures IsOwned(SHARED, 10) && Rekeyed(SHARED, 10) == SHARED && Stray(SHARED, 11)
  {
    assert (Root, Given(0)) in SHARED.owned;
    assert RecordOf(SHARED, 10) == (Root, Given(0));
    assert Rekeyed(SHARED, 10).owned == SHARED.owned;
  }

  lemma SharedFound()
    ensures WF(SHARED) && Swept(SHARED) == SHARED && FindLive(SHARED, TAKING) == Some(10) && !InUse(SHARED, 10) && IsOwned(SHARED, 10)
    ensures Stray(SHARED, 11) && OnRadio(SHARED, TAKING, 11) && Rekeyed(SHARED, 10) == SHARED
  {
    SharedSwept();
    SharedRecord();
    assert IsLive(SHARED, TAKING, 10) by {
      assert Candidate(SHARED, TAKING, 10);
    }
    FoundIs(SHARED, TAKING, 10);
    hide WF, Rekeyed, IsOwned, Stray, IsLive, Candidate, FindLive;
  }

  lemma SharedActivates()
    ensures Activated(SHARED, TAKING).1 == Up
  {
    SharedFound();
    hide FindLive, Swept, WF, Rekeyed, IsOwned, Without, Carried;
    var live := LiveOf(SHARED, 10);
    var w2 := DeleteDev(SHARED, Root, Given(0)).0;
    WithoutKeeps(SHARED.net, Root, Given(0));
    var w4 := MovePhy(w2, 0, Root, In(7)).0;
    CarriedSits(w2.net, 0, In(7));
    assert w4.verdicts == [] && w4.net.phys[0] == In(7);
    hide Taken, Claim, Restored;
    assert SpaceReady(SHARED, 7) == (SHARED, Done, None);
    assert SetUp(w4, TAKING, live, None).1 == Done;
    assert Prepared(SHARED, TAKING, live).1 == Done;
  }

  lemma CarriedSits(n: Net, p: Phy, to: Place)
    ensures p in Carried(n, p, to).phys && Carried(n, p, to).phys[p] == to
  {
  }

  /** So a radio that is partly Core's is not left alone: the default profile moves another tool's monitor along with it. */
  lemma DefaultMovesSibling()
    ensures WF(SHARED) && Stray(SHARED, 11) && Sits(SHARED.net, 11, Root)
    ensures var a := Apply(SHARED, [Item(TAKING, true)], true); !a.threw && a.reports == [Provisioned] && Sits(a.world.net, 11, In(7))
  {
    SharedFound();
    SharedActivates();
    SiblingsTravel(SHARED, TAKING, 11);
    hide Activated, FindLive, Swept, WF, Rekeyed, IsOwned, Stray, OnRadio;
    assert Automatic(SHARED, TAKING) == (SHARED, true);
    var items := [Item(TAKING, true)];
    assert Applying(SHARED, items[0], true) == (Activated(SHARED, TAKING).0, Provisioned, false);
    ApplyOnly(SHARED, items);
    assert items[1..] == [];
    ApplyNothing(Activated(SHARED, TAKING).0);
  }
}
