/** What the revert after a failed start harms: exactly which netdevs, and what becomes of the new one. */
module StartFailure {
  import opened Bytes
  import opened Netns
  import opened NetnsLaws
  import opened Service
  import opened ServiceLaws
  import opened UndoLaws
  import opened EntryLaws
  import opened Ownership
  import opened Isolation
  import opened Records

  /**
   A netdev in root that the revert would take for the entry's: it has the interface name of an entry that is
   to be renamed, and the radio that the entry finds is in the entry's namespace already.
   */
  ghost predicate Exposed(w: World, e: Entry, x: Wdev) {
    && e.services && e.place.In? && e.display != e.interface && Taken(w.net, e.place, e.interface)
    && Named(w.net, x, Root, e.interface) && w.net.devs[x].mode != Managed
  }

  /** On the radio that activating the entry works on. */
  ghost predicate OnRadio(w: World, e: Entry, x: Wdev) { x in w.net.devs && RadioOf(w, e) == Some(w.net.devs[x].phy) }

  /** The netdev `x` is where it was and as it was, and still not Core's. */
  ghost predicate Spared(w: World, v: World, x: Wdev) {
    && x in w.net.devs && w.net.devs[x].phy in w.net.phys
    && x in v.net.devs && v.net.devs[x] == w.net.devs[x]
    && w.net.devs[x].phy in v.net.phys && v.net.phys[w.net.devs[x].phy] == w.net.phys[w.net.devs[x].phy]
    && Protected(v, x)
  }

  lemma SparedTrans(w: World, v: World, u: World, x: Wdev)
    requires Spared(w, v, x) && Spared(v, u, x)
    ensures Spared(w, u, x)
  {
    hide Protected;
  }

  lemma OffRadioSpared(w: World, v: World, p: Phy, x: Wdev)
    requires WF(w) && OffRadio(w.net, v.net, p) && Kept(w, v) && Protected(w, x) && w.net.devs[x].phy != p
    ensures Spared(w, v, x)
  {
    hide Uniq, Picks, Distinct, Recorded;
  }

  lemma SameNetSpared(w: World, v: World, x: Wdev)
    requires WF(w) && v.net == w.net && Kept(w, v) && Protected(w, x)
    ensures Spared(w, v, x)
  {
    hide Uniq, Picks, Distinct, Recorded;
  }

  lemma OnlyDevSpared(w: World, v: World, d: Wdev, x: Wdev)
    requires WF(w) && OnlyDev(w.net, v.net, d) && Kept(w, v) && Protected(w, x) && x != d
    ensures Spared(w, v, x)
  {
    hide Uniq, Picks, Distinct, Recorded;
  }

  // ---------------------------------------------------------------- before the revert

  /** Preparing, and asking whether the services started. */
  lemma UnstartedKept(w: World, e: Entry)
    requires WF(w) && Plain(e) && Fair(w, e) && StartFails(w, e)
    ensures var t := Unstarted(w, e); WF(t) && OffRadio(w.net, t.net, RadioOf(w, e).value) && Kept(w, t)
  {
    FairLive(w, e);
    hide WF, OffRadio, Prepared, Swept, IsLive, InUse, Kept, Fewer, Clashing, Fair;
    FailedPrepared(w, e);
    var v := Swept(w);
    var d := FindLive(v, e).value;
    SweptWorks(w, 0);
    SweptFewer(w);
    var live := LiveOf(v, d);
    assert Backs(v, d, live);
    PreparedEstranged(v, d, e, live);
    var u := Prepared(v, e, live).0;
    AskFewer(u);
    KeptThenFewer(v, u, Ask(u).0);
    FewerThenKept(w, v, Ask(u).0);
  }

  lemma FewerThenKept(w: World, v: World, u: World)
    requires Fewer(w, v) && Kept(v, u)
    ensures Kept(w, u)
  {
  }

  lemma FairLive(w: World, e: Entry)
    requires WF(w) && Fair(w, e) && StartFails(w, e)
    ensures var v := Swept(w); var d := FindLive(v, e).value;
            LiveOf(v, d) == LiveOf(w, d) && !Clashing(v.net, d, e, LiveOf(v, d))
  {
    SweptWorks(w, 0);
    hide WF, Clashing, Prepared, InUse, IsLive;
  }

  /** The new netdev stands under the entry's name. */
  lemma NewStands(w: World, e: Entry)
    requires WF(w) && Plain(e) && Fair(w, e) && StartFails(w, e)
    ensures var t := Unstarted(w, e);
            && Named(t.net, w.nextWdev, e.place, e.display) && t.nextWdev > w.nextWdev
            && t.net.devs[w.nextWdev] == Dev(e.display, RadioOf(w, e).value, e.mode)
  {
    FairLive(w, e);
    hide WF, OffRadio, Prepared, Swept, IsLive, InUse, Clashing, Fair;
    FailedPrepared(w, e);
    SweptWorks(w, 0);
    var v := Swept(w);
    var d := FindLive(v, e).value;
    var live := LiveOf(v, d);
    assert Backs(v, d, live);
    ClaimExactly(v, d, e, live);
    PreparedWorks(v, d, e, live);
    KnownDev(Prepared(v, e, live).0, w.nextWdev);
  }

  lemma KnownDev(w: World, x: Wdev)
    requires WF(w) && x in w.net.devs
    ensures x < w.nextWdev && w.net.devs[x].phy in w.net.phys
  {
  }

  // ---------------------------------------------------------------- what the revert finds

  /** The revert answers to the names as before, except on the radio that was prepared. */
  lemma CandidateStays(w: World, e: Entry, y: Wdev)
    requires WF(w) && Plain(e) && StartFails(w, e) && y in w.net.devs && w.net.devs[y].phy != RadioOf(w, e).value
    ensures var t := Swept(Unstarted(w, e));
            y in t.net.devs && t.net.devs[y] == w.net.devs[y] && (Candidate(t, e, y) <==> Candidate(Swept(w), e, y))
  {
    hide WF, OffRadio, Prepared, Swept, IsLive, InUse, Candidate, Readied, SameSpaces, Clashing;
    FailedPrepared(w, e);
    SweptWorks(w, 0);
    var v := Swept(w);
    var d := FindLive(v, e).value;
    var live := LiveOf(v, d);
    assert Backs(v, d, live);
    PreparedWorks(v, d, e, live);
    PreparedSpaces(v, e, live);
    var u := Prepared(v, e, live).0;
    StillVisible(v, u, e, live.phy, y);
    OffStays(v.net, u.net, live.phy, y);
    AskKeeps(u);
    SweptWorks(Ask(u).0, 0);
    SameCandidate(u, Swept(Ask(u).0), e, y) by {
      SweptIsSame(Ask(u).0);
      OneCore(u, Ask(u).0);
    }
  }

  lemma OneCore(w: World, v: World)
    requires v.spaces == w.spaces && v.markers == w.markers
    ensures forall s :: IsCore(v, s) <==> IsCore(w, s)
  {
  }

  lemma SameCandidate(w: World, v: World, e: Entry, y: Wdev)
    requires v.net == w.net && forall s :: IsCore(v, s) <==> IsCore(w, s)
    ensures Candidate(v, e, y) <==> Candidate(w, e, y)
  {
    hide IsCore, Visible;
    VisibleSame(w, v, e, y);
  }

  lemma OffStays(n: Net, m: Net, p: Phy, y: Wdev)
    requires OffRadio(n, m, p) && y in n.devs && n.devs[y].phy != p
    ensures y in m.devs && m.devs[y] == n.devs[y] && forall place :: Sits(m, y, place) <==> Sits(n, y, place)
  {
  }

  lemma OffWas(n: Net, m: Net, p: Phy, y: Wdev)
    requires OffRadio(n, m, p) && y in m.devs && m.devs[y].phy != p
    ensures y in n.devs && m.devs[y] == n.devs[y] && forall place :: Sits(m, y, place) <==> Sits(n, y, place)
  {
  }

  /** Where another netdev that answers to the entry's interface name can be. */
  lemma OtherCandidate(v: World, e: Entry, d: Wdev, y: Wdev)
    requires Uniq(v.net) && d in v.net.devs && IsLive(v, e, d) && y in v.net.devs && Candidate(v, e, y) && y != d
    ensures !Sits(v.net, y, e.place) && (Sits(v.net, y, Root) ==> e.place.In? && Named(v.net, d, e.place, e.interface))
  {
    hide Uniq, Visible;
    assert Candidate(v, e, d) && Preferred(v, e, d, y);
    if Sits(v.net, y, e.place) {
      SameName(v.net, d, y, e.place, e.interface);
    } else if Sits(v.net, y, Root) && Sits(v.net, d, Root) {
      SameName(v.net, d, y, Root, e.interface);
    }
  }

  /** A lookup whose entry's netdev stands finds that one, or a candidate; the candidate if the entry is not renamed. */
  lemma StandingFound(t: World, e: Entry, made: Wdev, y: Wdev)
    requires Uniq(t.net) && Named(t.net, made, e.place, e.display) && y in t.net.devs && IsLive(t, e, y) && y != made
    ensures Candidate(t, e, y) && e.display != e.interface
  {
    hide Uniq, Visible;
    if !Candidate(t, e, y) {
      SameName(t.net, made, y, e.place, e.display);
    } else if e.display == e.interface {
      CandidateHere(t, e, made);
      assert Preferred(t, e, y, made);
      SameName(t.net, made, y, e.place, e.interface);
    }
  }

  lemma CandidateHere(t: World, e: Entry, made: Wdev)
    requires Named(t.net, made, e.place, e.interface)
    ensures made in t.net.devs && Candidate(t, e, made)
  {
  }

  lemma CandidatePlaces(t: World, e: Entry, y: Wdev)
    requires Candidate(t, e, y) && !Sits(t.net, y, Root) && !Sits(t.net, y, e.place)
    ensures exists s :: IsCore(t, s) && Sits(t.net, y, In(s))
  {
  }

  lemma FoundLive(w: World, e: Entry)
    requires FindLive(w, e).Some?
    ensures FindLive(w, e).value in w.net.devs && IsLive(w, e, FindLive(w, e).value)
  {
  }

  /** On another radio, the revert finds a netdev in one of Core's namespaces, or one that is exposed unless managed. */
  lemma RevertReaches(w: World, e: Entry, y: Wdev)
    requires WF(w) && Plain(e) && Fair(w, e) && StartFails(w, e)
    requires FindLive(Swept(Unstarted(w, e)), e) == Some(y) && y in Unstarted(w, e).net.devs
    requires Unstarted(w, e).net.devs[y].phy != RadioOf(w, e).value
    ensures y in w.net.devs && w.net.devs[y] == Unstarted(w, e).net.devs[y] && w.net.devs[y].name == e.interface
    ensures if Sits(w.net, y, Root) then Sits(Unstarted(w, e).net, y, Root) && (w.net.devs[y].mode != Managed ==> Exposed(w, e, y))
            else exists s :: IsCore(Unstarted(w, e), s) && Sits(Unstarted(w, e).net, y, In(s))
  {
    hide WF, OffRadio, Unstarted, StartFails, Swept, IsLive, Candidate, Fair, FindLive, Uniq;
    FailsStarted(w, e);
    var v, t := Swept(w), Unstarted(w, e);
    var d := FindLive(v, e).value;
    UnstartedKept(w, e);
    NewStands(w, e);
    SweptWorks(w, 0);
    SweptWorks(t, 0);
    SweptIsSame(t);
    OffWas(w.net, t.net, RadioOf(w, e).value, y);
    FoundLive(v, e);
    FoundLive(Swept(t), e);
    WFUniq(v);
    WFUniq(Swept(t));
    StandingFound(Swept(t), e, w.nextWdev, y);
    CandidateStays(w, e, y);
    OtherCandidate(v, e, d, y);
    InterfaceHere(v, e, y);
    if Sits(w.net, y, Root) {
      NamedIsTaken(w.net, d, e.place, e.interface);
    } else {
      CandidatePlaces(Swept(t), e, y);
    }
  }

  lemma InterfaceHere(v: World, e: Entry, y: Wdev)
    requires Candidate(v, e, y)
    ensures y in v.net.devs && v.net.devs[y].name == e.interface
  {
  }

  lemma FailsStarted(w: World, e: Entry)
    requires StartFails(w, e)
    ensures e.services && RadioOf(w, e).Some?
  {
  }

  // ---------------------------------------------------------------- what the revert leaves alone

  /** Reverting in root a netdev that has its interface name: taken down if it is managed, else recreated. */
  lemma RootReverted(t: World, e: Entry, y: Wdev)
    requires WF(t) && Plain(e) && FindLive(Swept(t), e) == Some(y) && Named(t.net, y, Root, e.interface)
    ensures var r := Reverted(t, e).0.net; if t.net.devs[y].mode == Managed then r == t.net else OnlyDev(t.net, r, y)
    ensures t.net.devs[y].mode != Managed ==> if Ask(t).1 then y !in Reverted(t, e).0.net.devs else Reverted(t, e).0.net == t.net
  {
    hide WF, Swept, IsLive, RecreateInRoot, OnlyDev, OffRadio, IsCore;
    var v := Swept(t);
    SweptWorks(t, 0);
    FoundLive(v, e);
    var live := LiveOf(v, y);
    WFUniq(v);
    LiveHoldsName(v, e, y);
    if live.mode == Managed {
      AskOnly(v);
    } else {
      RecreateHere(v, y, live, e.interface);
      AskSame(t, v);
      if Ask(t).1 {
        Recreated(v, y, live, e.interface);
      } else {
        DeleteRefused(v, live, e.interface);
      }
    }
  }

  lemma AskSame(w: World, v: World)
    requires v.verdicts == w.verdicts
    ensures Ask(v).1 == Ask(w).1
  {
  }

  /** Once the delete has worked, the netdev does not come back: whatever is created later is another one. */
  lemma Recreated(w: World, d: Wdev, live: Live, name: Name)
    requires WF(w) && Backs(w, d, live) && name.Given? && Ask(w).1
    ensures d !in RecreateInRoot(w, live, name).0.net.devs
  {
    hide WF, OffRadio, DeleteDev, MovePhy, CreateDev, Restored;
    var w0 := Released(w, live.place, live.name);
    ReleasedWorks(w, live.place, live.name, live.phy);
    KnownDev(w, d);
    assert Backs(w0, d, live);
    var (w1, ok1) := DeleteDev(w0, live.place, live.name);
    DeleteGone(w0, d, live.place, live.name);
    LiveDeleted(w0, d, live);
    var p := live.phy;
    var (w2, ok2) := if live.place.In? then MovePhy(w1, p, live.place, Root) else (w1, true);
    MoveWorks(w1, p, live.place, Root);
    StillReusable(w1, w2, live.name);
    CreateWorks(w2, p, Root, name, Managed);
    var (w3, ok3) := CreateDev(w2, p, Root, name, Managed);
    StillReusable(w2, w3, live.name);
    RestoredWorks(w2, live, name, live.place, None);
    RestoredWorks(w3, live, name, Root, None);
  }

  lemma DeleteGone(w: World, d: Wdev, place: Place, name: Name)
    requires Named(w.net, d, place, name) && Ask(w).1
    ensures DeleteDev(w, place, name).1 && d !in DeleteDev(w, place, name).0.net.devs
  {
  }

  lemma DeleteRefused(w: World, live: Live, name: Name)
    requires !Ask(w).1
    ensures RecreateInRoot(w, live, name).0.net == w.net
  {
    AskOnly(w);
    hide MovePhy, CreateDev, Restored;
  }

  /** The revert after a failed start spares what is not Core's on other radios, unless it is exposed. */
  lemma RevertSpares(w: World, e: Entry, x: Wdev)
    requires WF(w) && Plain(e) && Fair(w, e) && StartFails(w, e) && Protected(w, x) && !OnRadio(w, e, x)
    requires !Exposed(w, e, x)
    ensures Spared(w, Reverted(Unstarted(w, e), e).0, x)
  {
    hide WF, OffRadio, OnlyDev, Unstarted, StartFails, Swept, IsLive, Fair, FindLive, Reverted, Protected, Kept, Fewer, Exposed, Spared;
    FailsStarted(w, e);
    var t := Unstarted(w, e);
    var r := Reverted(t, e).0;
    var p := RadioOf(w, e).value;
    ProtectedIn(w, x);
    UnstartedKept(w, e);
    OffRadioSpared(w, t, p, x);
    SparedIn(w, t, x);
    RevertedFewer(t, e);
    FewerKept(t, r);
    if RadioOf(t, e).None? {
      RevertedWorks(t, e, p);
      SameNetSpared(t, r, x);
    } else {
      var y := FindLive(Swept(t), e).value;
      var q := RadioOf(t, e).value;
      RevertedWorks(t, e, q);
      if q != t.net.devs[x].phy {
        OffRadioSpared(t, r, q, x);
      } else {
        RevertReaches(w, e, y);
        SameSeat(t, x, y);
        if Sits(w.net, y, Root) {
          RootReverted(t, e, y);
          if t.net.devs[y].mode == Managed {
            SameNetSpared(t, r, x);
          } else {
            OnlyDevSpared(t, r, y, x);
          }
        }
      }
    }
    SparedTrans(w, t, r, x);
  }

  lemma ProtectedIn(w: World, x: Wdev)
    requires Protected(w, x)
    ensures x in w.net.devs && w.net.devs[x].phy in w.net.phys
  {
  }

  lemma SparedIn(w: World, v: World, x: Wdev)
    requires Spared(w, v, x)
    ensures Protected(v, x) && x in v.net.devs && x in w.net.devs && v.net.devs[x] == w.net.devs[x]
  {
  }

  /** Nothing protected shares a radio with what sits in one of Core's namespaces. */
  lemma SameSeat(t: World, x: Wdev, y: Wdev)
    requires Protected(t, x) && y in t.net.devs && t.net.devs[y].phy == t.net.devs[x].phy
    ensures !exists s :: IsCore(t, s) && Sits(t.net, y, In(s))
  {
  }

  // ---------------------------------------------------------------- activating

  lemma ActivatedKept(w: World, e: Entry)
    requires WF(w) && Plain(e) && Fair(w, e)
    ensures Kept(w, Activated(w, e).0)
  {
    hide WF, OffRadio, Prepared, Reverted, Swept, IsLive, InUse, Kept, Fewer, Clashing, StartFails, Unstarted, FindLive;
    var v := Swept(w);
    SweptWorks(w, 0);
    SweptFewer(w);
    FewerKept(w, v);
    if StartFails(w, e) {
      UnstartedKept(w, e);
      FailedPrepared(w, e);
      RevertedFewer(Unstarted(w, e), e);
      KeptThenFewer(w, Unstarted(w, e), Activated(w, e).0);
    } else {
      NotFailed(w, e);
      var found := FindLive(v, e);
      if found.Some? && !InUse(v, found.value) {
        FairSwept(w, e);
        FoundLive(v, e);
        var live := LiveOf(v, found.value);
        assert Backs(v, found.value, live);
        PreparedEstranged(v, found.value, e, live);
        var u := Prepared(v, e, live).0;
        AskFewer(u);
        KeptThenFewer(v, u, Ask(u).0);
        FewerThenKept(w, v, u);
        FewerThenKept(w, v, Ask(u).0);
      }
    }
  }

  /** Activated without the revert. */
  lemma NotFailed(w: World, e: Entry)
    requires !StartFails(w, e)
    ensures var v := Swept(w); var found := FindLive(v, e); var a := Activated(w, e).0;
            if found.None? || InUse(v, found.value) then a == v
            else a == Prepared(v, e, LiveOf(v, found.value)).0 || a == Ask(Prepared(v, e, LiveOf(v, found.value)).0).0
  {
    hide Swept, Prepared, Reverted, InUse, IsLive;
  }

  lemma FairSwept(w: World, e: Entry)
    requires WF(w) && Fair(w, e) && FindLive(Swept(w), e).Some?
    ensures var v := Swept(w); var d := FindLive(v, e).value;
            d in v.net.devs && v.net.devs[d].phy in v.net.phys && !Clashing(v.net, d, e, LiveOf(v, d))
  {
    SweptWorks(w, 0);
    hide WF, Clashing, IsLive;
  }

  lemma ActivationSpares(w: World, e: Entry, x: Wdev)
    requires WF(w) && Plain(e) && Fair(w, e) && Protected(w, x) && !OnRadio(w, e, x) && !(StartFails(w, e) && Exposed(w, e, x))
    ensures Spared(w, Activated(w, e).0, x)
  {
    hide WF, OffRadio, StartFails, Unstarted, Activated, Reverted, Protected, Kept, Spared, Exposed, Fair, Swept;
    ProtectedIn(w, x);
    if StartFails(w, e) {
      FailedPrepared(w, e);
      RevertSpares(w, e, x);
    } else {
      ActivatedWorks(w, e);
      ActivatedKept(w, e);
      if RadioOf(w, e).None? {
        SameNetSpared(w, Activated(w, e).0, x);
      } else {
        OffRadioSpared(w, Activated(w, e).0, RadioOf(w, e).value, x);
      }
    }
  }

  // ---------------------------------------------------------------- what the revert does reach

  /** Who answers to the interface name once the entry's netdev stands. */
  lemma CandidatesNow(w: World, e: Entry, z: Wdev)
    requires WF(w) && Plain(e) && Fair(w, e) && StartFails(w, e)
    ensures var d := FindLive(Swept(w), e).value;
            Candidate(Swept(Unstarted(w, e)), e, z) <==>
            if z == w.nextWdev then e.display == e.interface else z != d && Candidate(Swept(w), e, z)
  {
    FairLive(w, e);
    hide WF, OffRadio, Prepared, Swept, IsLive, InUse, Candidate, Clashing, Fair;
    SweptWorks(w, 0);
    var v := Swept(w);
    var d := FindLive(v, e).value;
    var live := LiveOf(v, d);
    assert Backs(v, d, live);
    CandidatesAfter(v, d, e, live, z);
    var u := Prepared(v, e, live).0;
    PreparedWorks(v, d, e, live);
    AskKeeps(u);
    SweptWorks(Ask(u).0, 0);
    SameCandidate(u, Swept(Ask(u).0), e, z) by {
      SweptIsSame(Ask(u).0);
      OneCore(u, Ask(u).0);
    }
  }

  /** Where an entry's name is taken in its own place, its lookup finds that netdev. */
  lemma FoundInPlace(v: World, e: Entry, f: Wdev)
    requires Uniq(v.net) && f in v.net.devs && IsLive(v, e, f) && Taken(v.net, e.place, e.interface)
    ensures Named(v.net, f, e.place, e.interface)
  {
    var d :| d in v.net.devs && Named(v.net, d, e.place, e.interface);
    assert Candidate(v, e, d);
    assert Preferred(v, e, f, d);
  }

  /** The revert finds an exposed netdev. */
  lemma ExposedFound(w: World, e: Entry, x: Wdev)
    requires WF(w) && Plain(e) && Fair(w, e) && StartFails(w, e) && Exposed(w, e, x) && !OnRadio(w, e, x)
    ensures var t := Unstarted(w, e);
            && FindLive(Swept(t), e) == Some(x) && Named(t.net, x, Root, e.interface)
            && x in w.net.devs && t.net.devs[x] == w.net.devs[x]
  {
    hide WF, OffRadio, Unstarted, StartFails, Swept, Candidate, Fair, FindLive, Uniq, Taken, IsLive;
    FailsStarted(w, e);
    var v, t := Swept(w), Swept(Unstarted(w, e));
    var d := FindLive(v, e).value;
    var p := RadioOf(w, e).value;
    UnstartedKept(w, e);
    SweptWorks(w, 0);
    SweptWorks(Unstarted(w, e), 0);
    FoundLive(v, e);
    WFUniq(v);
    WFUniq(t);
    OffStays(w.net, t.net, p, x);
    RootCandidate(t, e, x);
    forall z | z in t.net.devs && Candidate(t, e, z)
      ensures Preferred(t, e, x, z)
    {
      CandidatesNow(w, e, z);
      InterfaceHere(t, e, z);
      CandidateIn(v, e, d, z);
      OffStays(w.net, t.net, p, z);
      if Sits(t.net, z, Root) {
        SameName(t.net, x, z, Root, e.interface);
      }
      LaterRank(t, e, x, z);
    }
    BestFound(t, e, x);
  }

  /** A candidate besides the found netdev is on another radio, and not in the entry's place. */
  lemma CandidateIn(v: World, e: Entry, d: Wdev, z: Wdev)
    requires WF(v) && FindLive(v, e) == Some(d) && z != d && Candidate(v, e, z)
    ensures z in v.net.devs && v.net.devs[z].phy != v.net.devs[d].phy && !Sits(v.net, z, e.place)
  {
    hide WF, Candidate, IsLive;
    InterfaceHere(v, e, z);
    WFUniq(v);
    FoundLive(v, e);
    if v.net.devs[z].phy == v.net.devs[d].phy {
      NoSiblingCandidate(v, e, d, z);
    }
    OtherCandidate(v, e, d, z);
  }

  lemma RootCandidate(t: World, e: Entry, x: Wdev)
    requires Named(t.net, x, Root, e.interface)
    ensures x in t.net.devs && Candidate(t, e, x)
  {
  }

  lemma LaterRank(t: World, e: Entry, x: Wdev, z: Wdev)
    requires e.place.In? && Sits(t.net, x, Root) && !Sits(t.net, z, e.place) && (Sits(t.net, z, Root) ==> z == x)
    ensures Preferred(t, e, x, z)
  {
  }

  lemma BestFound(t: World, e: Entry, x: Wdev)
    requires Uniq(t.net) && x in t.net.devs && Candidate(t, e, x) && forall z :: z in t.net.devs && Candidate(t, e, z) ==> Preferred(t, e, x, z)
    ensures FindLive(t, e) == Some(x)
  {
    hide Candidate, Uniq, Preferred;
    FoundIs(t, e, x);
  }

  /** The start fails, the next command works, and the revert takes the netdev for the entry's. */
  ghost predicate Harms(w: World, e: Entry, x: Wdev) { StartFails(w, e) && Ask(Unstarted(w, e)).1 && Exposed(w, e, x) }

  /**
   What activating an entry costs a netdev that is not Core's, on another radio than the entry's: if the services
   fail to start, the revert's next command works and the netdev is exposed, it is deleted; in every other
   case, whatever fails, it stays where and as it is.
   */
  lemma HarmExactly(w: World, e: Entry, x: Wdev)
    requires WF(w) && Plain(e) && Fair(w, e) && Protected(w, x) && !OnRadio(w, e, x)
    ensures x !in Activated(w, e).0.net.devs <==> Harms(w, e, x)
    ensures Spared(w, Activated(w, e).0, x) <==> !Harms(w, e, x)
  {
    hide WF, OffRadio, StartFails, Unstarted, Activated, Reverted, Protected, Kept, Fewer, Fair, FindLive, Swept, OnlyDev;
    ProtectedIn(w, x);
    if StartFails(w, e) && Exposed(w, e, x) {
      var t := Unstarted(w, e);
      FailsStarted(w, e);
      ExposedFound(w, e, x);
      UnstartedKept(w, e);
      RootReverted(t, e, x);
      FailedPrepared(w, e);
      if !Ask(t).1 {
        OffRadioSpared(w, t, RadioOf(w, e).value, x);
        RevertedFewer(t, e);
        FewerKept(t, Reverted(t, e).0);
        SameNetSpared(t, Reverted(t, e).0, x);
        SparedTrans(w, t, Reverted(t, e).0, x);
      }
    } else {
      ActivationSpares(w, e, x);
    }
  }

  /** The same for all of them together. */
  ghost predicate HarmsOnly(w: World, e: Entry, v: World) {
    forall x :: Protected(w, x) && !OnRadio(w, e, x) ==> (Spared(w, v, x) <==> !Harms(w, e, x))
  }

  lemma ActivationHarmsOnly(w: World, e: Entry)
    requires WF(w) && Plain(e) && Fair(w, e)
    ensures HarmsOnly(w, e, Activated(w, e).0)
  {
    hide WF, Activated, Fair, Protected, OnRadio, Spared, Harms;
    forall x | Protected(w, x) && !OnRadio(w, e, x)
      ensures Spared(w, Activated(w, e).0, x) <==> !Harms(w, e, x)
    {
      HarmExactly(w, e, x);
    }
  }

  /** Activating removes no namespace that is not Core's, and takes no radio out of one but the entry's own. */
  lemma ForeignSpaceStays(w: World, e: Entry, s: Label, p: Phy)
    requires WF(w) && Plain(e) && Fair(w, e) && s in w.spaces && !IsCore(w, s)
    ensures var a := Activated(w, e).0; s in a.spaces && a.spaces[s] == w.spaces[s] && !IsCore(a, s)
    ensures p in w.net.phys && w.net.phys[p] == In(s) && RadioOf(w, e) != Some(p) ==>
              p in Activated(w, e).0.net.phys && Activated(w, e).0.net.phys[p] == In(s)
  {
    hide WF, StartFails, Unstarted, Activated, Reverted, Fewer, Fair, FindLive, Swept;
    ActivatedKept(w, e);
    ActivatedWorks(w, e);
    if p in w.net.phys && w.net.phys[p] == In(s) && RadioOf(w, e) != Some(p) && StartFails(w, e) {
      FailsStarted(w, e);
      UnstartedKept(w, e);
      var t := Unstarted(w, e);
      var q := RadioOf(t, e);
      if q == Some(p) {
        RevertReaches(w, e, FindLive(Swept(t), e).value);
      }
    }
  }

  // ---------------------------------------------------------------- what becomes of the new netdev

  lemma FindsNewOrOther(w: World, e: Entry)
    requires WF(w) && Plain(e) && Fair(w, e) && StartFails(w, e)
    ensures FindLive(Swept(Unstarted(w, e)), e) == Some(w.nextWdev) <==>
            e.display == e.interface || forall x :: x in w.net.devs && x != FindLive(Swept(w), e).value ==> !Candidate(Swept(w), e, x)
  {
    FairLive(w, e);
    hide WF, OffRadio, Prepared, Swept, IsLive, InUse, Candidate, Clashing, Fair, Uniq;
    SweptWorks(w, 0);
    var v := Swept(w);
    var d := FindLive(v, e).value;
    var live := LiveOf(v, d);
    assert Backs(v, d, live);
    RevertFindsOwn(v, d, e, live);
    var u := Prepared(v, e, live).0;
    PreparedWorks(v, d, e, live);
    AskKeeps(u);
    WFUniq(u);
    SweptWorks(Ask(u).0, 0);
    FindSame(u, Swept(Ask(u).0), e) by {
      SweptIsSame(Ask(u).0);
      OneCore(u, Ask(u).0);
    }
  }

  /** Some other netdev in sight has the entry's interface name. */
  ghost predicate Namesake(w: World, e: Entry) {
    RadioOf(w, e).Some? && exists x :: x in w.net.devs && x != FindLive(Swept(w), e).value && Candidate(Swept(w), e, x)
  }

  /** Reverting a netdev the lookup finds: gone, unless all that was needed was to take it down. */
  lemma RevertedGone(t: World, e: Entry, d: Wdev)
    requires WF(t) && Plain(e) && FindLive(Swept(t), e) == Some(d) && d in t.net.devs && Ask(t).1
    ensures if Named(t.net, d, Root, e.interface) && t.net.devs[d].mode == Managed then Reverted(t, e).0.net == t.net
            else d !in Reverted(t, e).0.net.devs
  {
    hide WF, Swept, IsLive, RecreateInRoot, OffRadio, IsCore, DropSpaceIfEmpty;
    var v := Swept(t);
    SweptWorks(t, 0);
    FoundLive(v, e);
    var live := LiveOf(v, d);
    assert Backs(v, d, live);
    AskSame(t, v);
    AskOnly(v);
    Recreated(v, d, live, e.interface);
    RecreateWorks(v, live, e.interface);
    if live.place.In? {
      DropWorks(RecreateInRoot(v, live, e.interface).0, live.place.space);
    }
  }

  /**
   After a failed start whose revert can run, the netdev just created remains, with nothing running on it, exactly
   if the entry is renamed and another netdev in sight has its interface name, or if taking the new one down was
   all there was to revert. Otherwise it is deleted.
   */
  lemma NewNetdevStays(w: World, e: Entry)
    requires WF(w) && Plain(e) && Fair(w, e) && StartFails(w, e) && Ask(Unstarted(w, e)).1
    ensures w.nextWdev in Activated(w, e).0.net.devs <==>
            (e.display != e.interface && Namesake(w, e)) || (e.place == Root && e.display == e.interface && e.mode == Managed)
    ensures w.nextWdev in Activated(w, e).0.net.devs ==> Named(Activated(w, e).0.net, w.nextWdev, e.place, e.display)
  {
    hide WF, OffRadio, StartFails, Unstarted, Activated, Reverted, Fair, FindLive, Swept, Candidate, Kept;
    var t := Unstarted(w, e);
    var made := w.nextWdev;
    FailsStarted(w, e);
    FindsNewOrOther(w, e);
    NewStands(w, e);
    FailedPrepared(w, e);
    var r := Reverted(t, e).0;
    if FindLive(Swept(t), e) == Some(made) {
      RevertedGone(t, e, made);
    } else {
      OtherFound(w, e);
      if RadioOf(t, e).None? {
        RevertedWorks(t, e, 0);
      } else {
        RevertedWorks(t, e, RadioOf(t, e).value);
        OffStays(t.net, r.net, RadioOf(t, e).value, made);
      }
    }
  }

  /** If not the new netdev, the revert finds one of another radio. */
  lemma OtherFound(w: World, e: Entry)
    requires WF(w) && Plain(e) && Fair(w, e) && StartFails(w, e) && FindLive(Swept(Unstarted(w, e)), e) != Some(w.nextWdev)
    ensures RadioOf(Unstarted(w, e), e) != RadioOf(w, e)
  {
    hide WF, OffRadio, StartFails, Unstarted, Fair, FindLive, Swept, Candidate, Kept, Uniq, IsLive;
    var v, t := Swept(w), Swept(Unstarted(w, e));
    FailsStarted(w, e);
    UnstartedKept(w, e);
    SweptWorks(w, 0);
    SweptWorks(Unstarted(w, e), 0);
    if RadioOf(Unstarted(w, e), e).Some? {
      var y := FindLive(t, e).value;
      NewStands(w, e);
      FoundLive(t, e);
      WFUniq(t);
      StandingFound(t, e, w.nextWdev, y);
      CandidatesNow(w, e, y);
      CandidateIn(v, e, FindLive(v, e).value, y);
      OffStays(w.net, t.net, RadioOf(w, e).value, y);
    }
  }

  // ---------------------------------------------------------------- an activation that costs another tool its monitor

  /** Radio 0 is in root with a monitor of another tool's; radio 1 is in the entry's namespace already. */
  const SEATED := World(Net(map[0 := Root, 1 := In(7)], map[10 := Dev(Given(0), 0, Monitor), 11 := Dev(Given(0), 1, Managed)]),
                        map[7 := 0], 12, 1, {}, {}, map[], map[], [true, true, true, false], {})

  /** The entry renames its netdev; delete, create and bring-up work, and then the services do not start. */
  const RENAMING := Entry(In(7), Given(0), Given(5), Managed, true)

  lemma SeatedFound()
    ensures WF(SEATED) && Swept(SEATED) == SEATED && FindLive(SEATED, RENAMING) == Some(11) && !InUse(SEATED, 11)
    ensures Fair(SEATED, RENAMING) && Protected(SEATED, 10) && !OnRadio(SEATED, RENAMING, 10) && Exposed(SEATED, RENAMING, 10)
  {
    assert Swept(SEATED).markers == map[];
    assert Named(SEATED.net, 11, In(7), Given(0));
    assert Named(SEATED.net, 10, Root, Given(0));
    assert IsLive(SEATED, RENAMING, 11) by {
      assert Candidate(SEATED, RENAMING, 11);
    }
    FoundIs(SEATED, RENAMING, 11);
  }

  lemma SeatedFails()
    ensures StartFails(SEATED, RENAMING) && Unstarted(SEATED, RENAMING).verdicts == []
  {
    SeatedFound();
    hide FindLive, Swept, WF, Fair, Exposed;
    var live := LiveOf(SEATED, 11);
    var w2 := DeleteDev(SEATED, In(7), Given(0)).0;
    assert w2.net.devs == map[10 := Dev(Given(0), 0, Monitor)];
    assert !Taken(w2.net, In(7), Given(5));
    var w3 := CreateDev(w2, 1, In(7), Given(5), Managed).0;
    assert w2.verdicts == [true, true, false] && w3.verdicts == [true, false] && Ask(w3).0.verdicts == [false];
    var u := Claimed(Ask(w3).0, In(7), Given(5));
    assert SetUp(w2, RENAMING, live, None) == (u, Done);
    assert SpaceReady(SEATED, 7) == (SEATED, Done, None);
    assert Prepared(SEATED, RENAMING, live) == (u, Done);
  }

  /** A fair activation whose services do not start deletes another tool's netdev on another radio. */
  lemma StartFailureLosesForeign()
    ensures WF(SEATED) && Plain(RENAMING) && Fair(SEATED, RENAMING) && Protected(SEATED, 10) && !OnRadio(SEATED, RENAMING, 10)
    ensures 10 in SEATED.net.devs && 10 !in Activated(SEATED, RENAMING).0.net.devs
  {
    SeatedFound();
    SeatedFails();
    hide StartFails, Unstarted, Activated, FindLive, Swept, WF, Fair, Protected, Exposed, OnRadio;
    HarmExactly(SEATED, RENAMING, 10);
  }
}
