/** What each request on profiles answers, and what it leaves of profiles, record and namespaces. */
module RequestLaws {
  import opened Bytes
  import opened Sorting
  import opened Netns
  import opened NetnsLaws
  import opened Service
  import opened ServiceLaws
  import opened UndoLaws
  import opened EntryLaws
  import opened Profiles
  import opened ProfileLaws
  import FindLaws
  import LeftAlone

  // ---------------------------------------------------------------- returning home

  /** Every radio in one of Core's namespaces is in root again, and no other one moved. */
  ghost predicate Emptied(w: World, v: World, names: seq<Label>) {
    && v.net.phys.Keys == w.net.phys.Keys && v.busy == w.busy
    && (forall p :: p in w.net.phys ==>
          v.net.phys[p] == if w.net.phys[p].In? && w.net.phys[p].space in names then Root else w.net.phys[p])
    && (forall s :: s in v.spaces <==> s in w.spaces && (s in names ==> s in w.busy))
    && (forall s :: s in v.markers <==> s in w.markers && (s in names ==> s in w.busy))
    && (forall s :: s in v.spaces ==> v.spaces[s] == w.spaces[s]) && (forall s :: s in v.markers ==> v.markers[s] == w.markers[s])
  }

  lemma HomewardMoves(w: World, s: Label, p: Phy)
    requires WF(w) && w.verdicts == [] && p in w.net.phys && w.net.phys[p] == In(s)
    ensures var v := Homeward(w, s, p);
            WF(v) && v.verdicts == [] && v.net.phys == w.net.phys[p := Root] && v.spaces == w.spaces && v.markers == w.markers && v.busy == w.busy
  {
    hide WF, OffRadio, Shrinks, IsCore, IsOwned;
    var v, u := HomewardSteps(w, s, p);
  }

  lemma {:induction false} ReturnPhysEmpties(w: World, s: Label, radios: seq<Phy>)
    requires WF(w) && w.verdicts == []
    ensures var v := ReturnPhys(w, s, radios);
            && WF(v) && v.verdicts == [] && v.spaces == w.spaces && v.markers == w.markers && v.busy == w.busy
            && v.net.phys.Keys == w.net.phys.Keys
            && forall p :: p in w.net.phys ==> v.net.phys[p] == if p in radios && w.net.phys[p] == In(s) then Root else w.net.phys[p]
    decreases |radios|
  {
    hide WF, Homeward;
    if radios == [] {
    } else {
      var p := radios[0];
      if p in w.net.phys && w.net.phys[p] == In(s) {
        HomewardMoves(w, s, p);
        ReturnPhysEmpties(Homeward(w, s, p), s, radios[1..]);
      } else {
        ReturnPhysEmpties(w, s, radios[1..]);
      }
    }
  }

  lemma DropEmpties(w: World, s: Label)
    requires WF(w) && w.verdicts == [] && s in w.spaces && forall p :: p in w.net.phys ==> w.net.phys[p] != In(s)
    ensures var v := DropSpaceIfEmpty(w, s);
            && WF(v) && v == w.(spaces := v.spaces, markers := v.markers)
            && v.spaces == (if s in w.busy then w.spaces else w.spaces - {s}) && v.markers == (if s in w.busy then w.markers else w.markers - {s})
  {
    DropWorks(w, s);
    hide WF;
  }

  /** One namespace is emptied, and the rest after it. */
  ghost predicate OneEmptied(w: World, u: World, s: Label) {
    && u.net.phys.Keys == w.net.phys.Keys && u.busy == w.busy
    && (forall p :: p in w.net.phys ==> u.net.phys[p] == if w.net.phys[p] == In(s) then Root else w.net.phys[p])
    && u.spaces == (if s in w.busy then w.spaces else w.spaces - {s}) && u.markers == (if s in w.busy then w.markers else w.markers - {s})
  }

  lemma EmptiedStep(w: World, u: World, v: World, names: seq<Label>)
    requires names != [] && OneEmptied(w, u, names[0]) && Emptied(u, v, names[1..])
    ensures Emptied(w, v, names)
  {
    assert forall t :: t in names <==> t == names[0] || t in names[1..];
  }

  lemma NothingEmptied(w: World)
    ensures Emptied(w, w, [])
  {
  }

  lemma OneStep(w: World, s: Label, radios: seq<Phy>)
    requires WF(w) && w.verdicts == [] && (forall p :: p in w.net.phys ==> p in radios) && s in w.spaces
    ensures var u := DropSpaceIfEmpty(ReturnPhys(w, s, radios), s); WF(u) && u.verdicts == [] && OneEmptied(w, u, s)
  {
    hide WF, ReturnPhys, DropSpaceIfEmpty;
    ReturnPhysEmpties(w, s, radios);
    DropEmpties(ReturnPhys(w, s, radios), s);
  }

  lemma {:induction false} ReturnAllEmpties(w: World, names: seq<Label>, radios: seq<Phy>)
    requires WF(w) && w.verdicts == [] && (forall p :: p in w.net.phys ==> p in radios)
    requires (forall i :: 0 <= i < |names| ==> names[i] in w.spaces) && (forall i, j :: 0 <= i < j < |names| ==> names[i] != names[j])
    ensures Emptied(w, ReturnAll(w, names, radios), names)
    decreases |names|
  {
    hide WF, ReturnPhys, DropSpaceIfEmpty, Emptied;
    if names == [] {
      NothingEmptied(w);
    } else {
      var u := DropSpaceIfEmpty(ReturnPhys(w, names[0], radios), names[0]);
      OneStep(w, names[0], radios);
      forall i | 0 <= i < |names[1..]|
        ensures names[1..][i] in u.spaces
      {
        assert names[1..][i] == names[i + 1] && names[i + 1] != names[0];
      }
      ReturnAllEmpties(u, names[1..], radios);
      EmptiedStep(w, u, ReturnAll(u, names[1..], radios), names);
    }
  }

  /**
   When no command fails, the homecoming brings every radio in one of Core's namespaces to root and moves no other
   one; each of these namespaces is gone, with its marker, unless something else is in use there.
   */
  lemma BringsHome(w: World)
    requires WF(w) && w.verdicts == []
    ensures var v := Homecoming(w);
            && v.net.phys.Keys == w.net.phys.Keys
            && (forall p :: p in w.net.phys ==>
                  v.net.phys[p] == if w.net.phys[p].In? && LeftAlone.Marked(w, w.net.phys[p].space) then Root else w.net.phys[p])
            && (forall s :: s in v.spaces <==> s in w.spaces && (LeftAlone.Marked(w, s) ==> s in w.busy))
            && (forall s :: s in v.markers <==> LeftAlone.Marked(w, s) && s in w.busy)
  {
    hide WF, ReturnAll, Emptied;
    SweptWorks(w, 0);
    var v := Swept(w);
    var names := Sorted(CoreSpaces(v));
    forall i | 0 <= i < |names|
      ensures names[i] in v.spaces
    {
      assert names[i] in names;
    }
    ReturnAllEmpties(v, names, Sorted(v.net.phys.Keys));
    EmptiedNames(w, Homecoming(w), names);
  }

  lemma EmptiedNames(w: World, v: World, names: seq<Label>)
    requires Emptied(Swept(w), v, names) && forall s :: s in names <==> s in CoreSpaces(Swept(w))
    ensures && v.net.phys.Keys == w.net.phys.Keys
            && (forall p :: p in w.net.phys ==>
                  v.net.phys[p] == if w.net.phys[p].In? && LeftAlone.Marked(w, w.net.phys[p].space) then Root else w.net.phys[p])
            && (forall s :: s in v.spaces <==> s in w.spaces && (LeftAlone.Marked(w, s) ==> s in w.busy))
            && (forall s :: s in v.markers <==> LeftAlone.Marked(w, s) && s in w.busy)
  {
    assert forall s :: s in CoreSpaces(Swept(w)) <==> LeftAlone.Marked(w, s);
  }

  // ---------------------------------------------------------------- handing back what travels home

  /** The netdevs asked about so far are on record where they are exactly if they were Core's; nobody else's records there moved. */
  ghost predicate Settled(w: World, v: World, ds: set<Wdev>, place: Place) {
    && v == w.(owned := v.owned)
    && (forall d :: d in w.net.devs && Sits(w.net, d, place) ==>
          && (IsOwned(v, d) <==> IsOwned(w, d))
          && (FindLaws.RecordedAt(v, d, place) <==> if d in ds then IsOwned(w, d) else FindLaws.RecordedAt(w, d, place)))
  }

  lemma RekeySettles(w: World, x: Wdev, place: Place, d: Wdev)
    requires Uniq(w.net) && x in w.net.devs && Sits(w.net, x, place) && Sits(w.net, d, place)
    ensures var v := Rekeyed(w, x);
            && (IsOwned(v, d) <==> IsOwned(w, d))
            && (FindLaws.RecordedAt(v, d, place) <==> if d == x then IsOwned(w, d) else FindLaws.RecordedAt(w, d, place))
  {
    var left := FindLaws.AsksForRecords(w, x);
    var v := Rekeyed(w, x);
    if d != x {
      NamesApart(w.net, x, d, place);
    }
    hide Uniq, Rekeyed;
    forall k: (Place, Name) | k.1 == w.net.devs[d].name
      ensures d != x ==> (k in v.owned <==> k in w.owned) && (k in w.owned ==> v.owned[k] == w.owned[k])
    {
    }
    if IsOwned(w, d) {
      var k :| k in w.owned && k.1 == w.net.devs[d].name && w.owned[k] == d;
      assert d != x ==> k in v.owned && v.owned[k] == d;
      assert d == x ==> (Here(w, d) in v.owned && v.owned[Here(w, d)] == d) || v.owned == w.owned;
    }
    if IsOwned(v, d) {
      var k :| k in v.owned && k.1 == w.net.devs[d].name && v.owned[k] == d;
      assert d != x ==> k in w.owned && w.owned[k] == d;
    }
  }

  lemma NamesApart(n: Net, x: Wdev, d: Wdev, place: Place)
    requires Uniq(n) && Sits(n, x, place) && Sits(n, d, place) && x != d
    ensures n.devs[x].name != n.devs[d].name
  {
    assert n.devs[x].name == n.devs[d].name ==> Named(n, x, place, n.devs[x].name) && Named(n, d, place, n.devs[x].name);
  }

  lemma SettledFirst(w: World, x: Wdev, place: Place)
    requires Uniq(w.net) && x in w.net.devs && Sits(w.net, x, place)
    ensures Settled(w, Rekeyed(w, x), {x}, place)
  {
    forall d | d in w.net.devs && Sits(w.net, d, place)
      ensures IsOwned(Rekeyed(w, x), d) <==> IsOwned(w, d)
      ensures FindLaws.RecordedAt(Rekeyed(w, x), d, place) <==> if d in {x} then IsOwned(w, d) else FindLaws.RecordedAt(w, d, place)
    {
      RekeySettles(w, x, place, d);
    }
  }

  lemma SettledMore(w: World, v: World, u: World, x: Wdev, rest: set<Wdev>, place: Place)
    requires Settled(w, v, {x}, place) && Settled(v, u, rest, place) && x !in rest
    ensures Settled(w, u, {x} + rest, place)
  {
    hide IsOwned, FindLaws.RecordedAt;
  }

  /** Records of other names are as they were. */
  ghost predicate OtherNames(w: World, v: World, names: seq<Name>) {
    forall k: (Place, Name) :: k.1 !in names ==> (k in v.owned <==> k in w.owned) && (k in w.owned ==> v.owned[k] == w.owned[k])
  }

  lemma RekeysOwnName(w: World, x: Wdev)
    requires x in w.net.devs && w.net.devs[x].phy in w.net.phys
    ensures OtherNames(w, Rekeyed(w, x), if IsOwned(w, x) then [w.net.devs[x].name] else [])
  {
    var left := FindLaws.AsksForRecords(w, x);
    hide Rekeyed;
  }

  function Elements(ds: seq<Wdev>): set<Wdev> { set d | d in ds }

  /** `names` are the names of those of `ds` that are Core's. */
  ghost predicate NamesOf(w: World, ds: seq<Wdev>, names: seq<Name>) {
    && (forall d :: d in ds && d in w.net.devs ==> (w.net.devs[d].name in names <==> IsOwned(w, d)))
    && (forall n :: n in names ==> exists d :: d in ds && d in w.net.devs && w.net.devs[d].name == n && IsOwned(w, d))
  }

  lemma {:induction false} CheckedSettles(w: World, ds: seq<Wdev>, place: Place)
    requires Uniq(w.net) && (forall d :: d in ds ==> d in w.net.devs && Sits(w.net, d, place)) && forall i, j :: 0 <= i < j < |ds| ==> ds[i] != ds[j]
    ensures var (v, names) := Checked(w, ds); Settled(w, v, Elements(ds), place) && NamesOf(w, ds, names) && OtherNames(w, v, names)
    decreases |ds|
  {
    hide Uniq, IsOwned, Rekeyed, Settled, NamesOf, OtherNames, Elements, Sits;
    if ds == [] {
      NothingChecked(w, place);
    } else {
      var x := ds[0];
      var m := Rekeyed(w, x);
      AtPlace(w.net, x, place);
      SettledFirst(w, x, place);
      RekeysOwnName(w, x);
      assert forall d :: d in ds[1..] ==> d in ds && d != x;
      SettledNet(w, m, {x}, place);
      CheckedSettles(m, ds[1..], place);
      var (v, names) := Checked(m, ds[1..]);
      assert [] + names == names;
      assert Checked(w, ds).1 == (if IsOwned(w, x) then [w.net.devs[x].name] else []) + names;
      RestElements(ds);
      SettledMore(w, m, v, x, Elements(ds[1..]), place);
      NamesFirst(w, m, ds, place, names);
      OtherNamesThen(w, m, v, if IsOwned(w, x) then [w.net.devs[x].name] else [], names);
    }
  }

  lemma NothingChecked(w: World, place: Place)
    ensures Settled(w, w, Elements([]), place) && NamesOf(w, [], []) && OtherNames(w, w, [])
  {
  }

  lemma AtPlace(n: Net, d: Wdev, place: Place)
    requires Sits(n, d, place)
    ensures d in n.devs && n.devs[d].phy in n.phys
  {
  }

  lemma SettledNet(w: World, v: World, ds: set<Wdev>, place: Place)
    requires Settled(w, v, ds, place)
    ensures v == w.(owned := v.owned)
    ensures forall d :: d in w.net.devs && Sits(w.net, d, place) ==> (IsOwned(v, d) <==> IsOwned(w, d))
  {
    hide IsOwned;
  }

  lemma RestElements(ds: seq<Wdev>)
    requires ds != []
    ensures Elements(ds) == {ds[0]} + Elements(ds[1..]) && (forall d :: d in Elements(ds[1..]) <==> d in ds[1..])
  {
  }

  lemma OtherNamesThen(w: World, m: World, v: World, first: seq<Name>, names: seq<Name>)
    requires OtherNames(w, m, first) && OtherNames(m, v, names)
    ensures OtherNames(w, v, first + names)
  {
  }

  /** The names listed for the first netdev and the rest are those of the ones that are Core's. */
  lemma NamesFirst(w: World, m: World, ds: seq<Wdev>, place: Place, names: seq<Name>)
    requires Uniq(w.net) && ds != [] && (forall d :: d in ds ==> d in w.net.devs && Sits(w.net, d, place)) && ds[0] !in ds[1..]
    requires m.net == w.net && (forall d :: d in ds ==> (IsOwned(m, d) <==> IsOwned(w, d))) && NamesOf(m, ds[1..], names)
    ensures NamesOf(w, ds, (if IsOwned(w, ds[0]) then [w.net.devs[ds[0]].name] else []) + names)
  {
    hide Uniq, IsOwned;
    var x := ds[0];
    forall d | d in ds[1..]
      ensures w.net.devs[d].name != w.net.devs[x].name && d in ds
    {
      NamesApart(w.net, x, d, place);
    }
  }

  lemma {:induction false} ReleasedNames(w: World, s: Label, names: seq<Name>)
    ensures var v := ReleasedAll(w, s, names);
            v == w.(owned := v.owned)
            && forall k :: (k in v.owned <==> k in w.owned && !(k.0 == In(s) && k.1 in names)) && (k in v.owned ==> v.owned[k] == w.owned[k])
    decreases |names|
  {
    if names == [] {
    } else {
      ReleasedNames(Released(w, In(s), names[0]), s, names[1..]);
    }
  }

  /**
   A radio on its way home: if the move works, its netdevs that were Core's have no record in the namespace they leave
   any more; if it fails, each of them is on record there. The records of a name that is not one of Core's stay.
   */
  lemma TravellersHandedBack(w: World, s: Label, p: Phy, d: Wdev)
    requires WF(w) && p in w.net.phys && w.net.phys[p] == In(s) && d in w.net.devs && w.net.devs[d].phy == p
    ensures var v := Homeward(w, s, p); var here := (In(s), w.net.devs[d].name);
            if !IsOwned(w, d) then (here in v.owned <==> here in w.owned) && (here in w.owned ==> v.owned[here] == w.owned[here])
            else if w.verdicts == [] || w.verdicts[0] then here !in v.owned
            else v.net == w.net && FindLaws.RecordedAt(v, d, In(s))
  {
    WFUniq(w);
    var ds := Sorted(Travellers(w.net, s, p));
    TravellersIn(w.net, s, p);
    assert d in ds by { assert d in Travellers(w.net, s, p); }
    forall x | x in ds
      ensures x in w.net.devs && Sits(w.net, x, In(s))
    {
      assert x in Travellers(w.net, s, p);
    }
    CheckedSettles(w, ds, In(s));
    var (v, names) := Checked(w, ds);
    hide WF, Uniq, Checked, IsOwned, Travellers, Carried;
    var (u, ok) := MovePhy(v, p, In(s), Root);
    ReleasedNames(u, s, names);
  }

  /** A namespace is deleted exactly if nothing is left in it and the command works, and keeps its marker as long as it is there. */
  lemma DropsExactly(w: World, s: Label)
    ensures var v := DropSpaceIfEmpty(w, s); var held := s in w.busy || exists p :: p in w.net.phys && w.net.phys[p] == In(s);
            && v == w.(spaces := v.spaces, markers := v.markers, verdicts := v.verdicts)
            && (held ==> v == w)
            && v.spaces == (if !held && (w.verdicts == [] || w.verdicts[0]) then w.spaces - {s} else w.spaces)
            && v.markers == (if !held && s !in v.spaces then w.markers - {s} else w.markers)
  {
    assert s !in w.spaces ==> w.spaces - {s} == w.spaces;
  }

  /** So one whose delete fails is still Core's, and the next homecoming deletes it. */
  lemma FailedDeleteIsRetried(w: World, s: Label)
    requires WF(w) && LeftAlone.Marked(w, s) && s !in w.busy && (forall p :: p in w.net.phys ==> w.net.phys[p] != In(s))
    requires w.verdicts == [false]
    ensures var v := DropSpaceIfEmpty(w, s);
            && LeftAlone.Marked(v, s) && v.verdicts == [] && s !in Homecoming(v).spaces && s !in Homecoming(v).markers
  {
    DropWorks(w, s);
    DropsExactly(w, s);
    hide WF, DropSpaceIfEmpty;
    assert !exists p :: p in w.net.phys && w.net.phys[p] == In(s);
    var v := DropSpaceIfEmpty(w, s);
    AskedOnce(w, s);
    BringsHome(v);
  }

  lemma AskedOnce(w: World, s: Label)
    requires w.verdicts == [false] && s in w.spaces && s !in w.busy && forall p :: p in w.net.phys ==> w.net.phys[p] != In(s)
    ensures DropSpaceIfEmpty(w, s).verdicts == []
  {
  }

  // ---------------------------------------------------------------- deactivating

  /** The world when entry `n` is to be deactivated. */
  ghost function Before(w: World, es: seq<Entry>, n: nat): World
    requires n <= |es|
  {
    DeactivatedAll(w, es[..n])
  }

  /** The first entry that raises, if any, is the last one touched. */
  ghost predicate StopsAt(w: World, es: seq<Entry>, n: nat, v: World, ok: bool) {
    && n <= |es| && v == Before(w, es, n)
    && (forall i :: 0 <= i < n && (ok || i < n - 1) ==> Deactivated(Before(w, es, i), es[i]).1 == Done)
    && (if ok then n == |es| else n > 0 && Deactivated(Before(w, es, n - 1), es[n - 1]).1 != Done)
  }

  lemma BeforeNext(w: World, es: seq<Entry>, i: nat)
    requires es != [] && i < |es|
    ensures Before(Deactivated(w, es[0]).0, es[1..], i) == Before(w, es, i + 1)
  {
    hide Deactivated;
    assert es[..i + 1][0] == es[0] && es[..i + 1][1..] == es[1..][..i];
  }

  lemma {:induction false} UntilExactly(w: World, es: seq<Entry>) returns (n: nat)
    ensures StopsAt(w, es, n, DeactivatedUntil(w, es).0, DeactivatedUntil(w, es).1)
    decreases |es|
  {
    hide Deactivated;
    if es == [] {
      n := 0;
    } else {
      var (v, out) := Deactivated(w, es[0]);
      assert Before(w, es, 0) == w;
      if out == Done {
        var m := UntilExactly(v, es[1..]);
        n := m + 1;
        forall i | 0 <= i < |es|
          ensures Before(v, es[1..], i) == Before(w, es, i + 1)
        {
          BeforeNext(w, es, i);
        }
        var (x, ok) := DeactivatedUntil(v, es[1..]);
        forall i | 0 <= i < n && (ok || i < n - 1)
          ensures Deactivated(Before(w, es, i), es[i]).1 == Done
        {
          assert i > 0 ==> es[i] == es[1..][i - 1];
        }
        assert !ok ==> es[n - 1] == es[1..][m - 1];
      } else {
        n := 1;
        BeforeNext(w, es, 0);
      }
    }
  }

  /** There is such a profile; the default always is. */
  predicate Exists(s: Site, id: Id) { id in s.files || id == 0 }

  function Stored(s: Site, id: Id): Profile
    requires Exists(s, id)
  {
    if id in s.files then s.files[id] else s.fallback
  }

  /** The entries of a profile, those in namespaces first. */
  ghost predicate Listed(s: Site, id: Id, es: seq<Entry>) {
    && Exists(s, id)
    && var p := Stored(s, id);
    && |es| == |p.namespaces| + |p.roots|
    && (forall i :: 0 <= i < |p.namespaces| ==> es[i] == p.namespaces[i].entry)
    && (forall i :: 0 <= i < |p.roots| ==> es[|p.namespaces| + i] == p.roots[i].entry)
  }

  /**
   A deactivation is refused exactly as stated, and then changes nothing. Otherwise the entries are deactivated in order
   up to the first that raises; whether or not one did, Core's namespaces are returned and the default is recorded.
   */
  lemma DeactivateExactly(s: Site, id: Id, force: bool)
    ensures var (t, answer) := DeactivateConfig(s, id, force);
            if !Exists(s, id) || (!force && s.current == None) then (t, answer) == (s, NotFound)
            else if !force && s.current != Some(id) then (t, answer) == (s, Conflict)
            else
              && t.files == s.files && t.fallback == s.fallback && t.current == Some(0)
              && exists es, n, v, ok :: Listed(s, id, es) && StopsAt(s.world, es, n, v, ok) && t.world == Homecoming(v)
                                        && answer == if ok then Answered(true, []) else Rethrown
  {
    hide DeactivatedUntil, Homecoming, StopsAt;
    if Exists(s, id) && !(!force && s.current == None) && !(!force && s.current != Some(id)) {
      var es := Entries(All(Stored(s, id)));
      EntriesListed(s, id);
      var n := UntilExactly(s.world, es);
    }
  }

  /** After it, if no command fails once the entries are done, no radio is in a namespace of Core's. */
  lemma DeactivateBringsHome(s: Site, id: Id, force: bool)
    requires WF(s.world) && PlainFiles(s) && DeactivateConfig(s, id, force).1 !in {NotFound, Conflict}
    requires GetConfig(s, id).Some? ==> DeactivatedUntil(s.world, Entries(All(GetConfig(s, id).value))).0.verdicts == []
    ensures var v := DeactivateConfig(s, id, force).0.world;
            forall p :: p in v.net.phys && v.net.phys[p].In? ==> !LeftAlone.Marked(v, v.net.phys[p].space)
  {
    hide WF, PlainFiles, DeactivatedUntil, Homecoming;
    UntilWorks(s, id);
    BringsHome(DeactivatedUntil(s.world, Entries(All(GetConfig(s, id).value))).0);
  }

  lemma UntilWorks(s: Site, id: Id)
    requires WF(s.world) && PlainFiles(s) && GetConfig(s, id).Some?
    ensures WF(DeactivatedUntil(s.world, Entries(All(GetConfig(s, id).value))).0)
  {
    hide WF, DeactivatedUntil, Unharmed;
    UntilSafe(s.world, Entries(All(GetConfig(s, id).value)));
  }

  // ---------------------------------------------------------------- the other requests

  /**
   Deleting: the active profile only by force, and then its file goes exactly if its deactivation did not raise; another
   one only if it has a file. Nothing else of the profiles changes.
   */
  lemma DeleteExactly(s: Site, id: Id, force: bool)
    ensures var (t, answer) := DeleteConfig(s, id, force);
            if s.current == None then (t, answer) == (s, NotFound)
            else if s.current == Some(id) && Exists(s, id) then
              if !force then (t, answer) == (s, Conflict)
              else
                var (u, did) := DeactivateConfig(s, id, false);
                && t == u.(files := t.files) && answer == did && did in {Answered(true, []), Rethrown}
                && t.files == (if did == Rethrown then s.files else s.files - {id})
            else if id !in s.files then (t, answer) == (s, NotFound)
            else (t, answer) == (s.(files := s.files - {id}), Answered(true, []))
  {
    hide DeactivatedUntil, Homecoming;
  }

  /** Adding and editing: only a new profile, that is not the default, is added; only one that is there and not active is replaced. */
  lemma WriteExactly(s: Site, id: Id, p: Profile)
    ensures AddConfig(s, id, p) ==
            if id in s.files || id == 0 then (s, Conflict) else (s.(files := s.files[id := p]), Answered(true, []))
    ensures EditConfig(s, id, p) ==
            if s.current == None || !Exists(s, id) then (s, NotFound)
            else if s.current == Some(id) then (s, Conflict)
            else (s.(files := s.files[id := p]), Answered(true, []))
  {
  }

  // ---------------------------------------------------------------- activating

  /** The profile that counts as active: the recorded one, if it is there. */
  function InForce(s: Site): Id { if s.current.Some? && Exists(s, s.current.value) then s.current.value else 0 }

  /** Some entry that would be applied is invalid: the default applies only what answers to nothing, or to what is Core's. */
  ghost predicate Faulty(w: World, items: seq<Item>, onlyCore: bool)
    decreases |items|
  {
    items != [] &&
    (Faulty(if onlyCore then Automatic(w, items[0].entry).0 else w, items[1..], onlyCore) ||
     (!items[0].valid && !(onlyCore && exists d :: FindLive(Swept(w), items[0].entry) == Some(d) && LeftAlone.Stray(w, d))))
  }

  lemma AsksExactly(w: World, e: Entry)
    requires WF(w)
    ensures Automatic(w, e).1 <==> !exists d :: FindLive(Swept(w), e) == Some(d) && LeftAlone.Stray(w, d)
  {
    hide WF, IsLive, LeftAlone.Stray, Rekeyed, Activated, Automatic;
    LeftAlone.SkippedExactly(w, Item(e, true));
    AskedFirst(w, e);
  }

  lemma AskedFirst(w: World, e: Entry)
    ensures Applying(w, Item(e, true), true).1 == Skipped <==> !Automatic(w, e).1
  {
    hide Activated, Automatic;
  }

  lemma {:induction false} FaultyExactly(w: World, items: seq<Item>, onlyCore: bool)
    requires WF(w)
    ensures Invalid(w, items, onlyCore).1 <==> Faulty(w, items, onlyCore)
    ensures !onlyCore ==> (Invalid(w, items, onlyCore).1 <==> exists i :: 0 <= i < |items| && !items[i].valid)
    decreases |items|
  {
    hide WF, Automatic, IsLive, LeftAlone.Stray;
    if items != [] {
      AsksExactly(w, items[0].entry);
      AutomaticTidies(w, items[0].entry);
      var v := if onlyCore then Automatic(w, items[0].entry).0 else w;
      FaultyExactly(v, items[1..], onlyCore);
      if !onlyCore {
        if i :| 0 <= i < |items| && !items[i].valid {
          assert i > 0 ==> items[1..][i - 1] == items[i];
        }
        if i :| 0 <= i < |items[1..]| && !items[1..][i].valid {
          assert items[i + 1] == items[1..][i];
        }
      }
    }
  }

  /**
   An activation is refused exactly if there is no such profile, or another one, or this one, is active and nothing is
   forced; it then changes nothing, but that a record of a profile that is gone becomes one of the default. It is found
   invalid exactly if an entry that would be applied is. Files never change.
   */
  lemma ActivateExactly(s: Site, id: Id, force: bool)
    requires WF(s.world)
    ensures var (t, answer) := ActivateConfig(s, id, force);
            && t.files == s.files && t.fallback == s.fallback
            && (answer == NotFound <==> !Exists(s, id))
            && (answer == Conflict <==> Exists(s, id) && !force && (InForce(s) != 0 || id == 0))
            && (answer == NotFound ==> t == s)
            && (answer == Conflict ==> t == if s.current.Some? && !Exists(s, s.current.value) then s.(current := Some(0)) else s)
            && (Exists(s, id) && answer != Conflict && Faulty(s.world, All(Stored(s, id)), id == 0) ==> answer == Answered(false, []))
            && (answer == Answered(false, []) && |Stored(s, id).namespaces| + |Stored(s, id).roots| > 0 ==>
                  Faulty(s.world, All(Stored(s, id)), id == 0))
  {
    hide WF, Faulty, Invalid, TornDown;
    if Exists(s, id) {
      FaultyExactly(s.world, All(Stored(s, id)), id == 0);
      ActivateAnswers(s, id, force);
    }
  }

  lemma ActivateAnswers(s: Site, id: Id, force: bool)
    requires Exists(s, id)
    ensures var (t, answer) := ActivateConfig(s, id, force); var items := All(Stored(s, id));
            && t.files == s.files && t.fallback == s.fallback && answer != NotFound
            && (answer == Conflict <==> !force && (InForce(s) != 0 || id == 0))
            && (answer == Conflict ==> t == if s.current.Some? && !Exists(s, s.current.value) then s.(current := Some(0)) else s)
            && (answer != Conflict && Invalid(s.world, items, id == 0).1 ==> answer == Answered(false, []))
            && (answer == Answered(false, []) && items != [] ==> Invalid(s.world, items, id == 0).1)
  {
    hide Invalid, TornDown, Apply, DeactivatedAll;
    var items := All(Stored(s, id));
    var last := GetConfig(s, InForce(s));
    var torn := TornDown(Invalid(s.world, items, id == 0).0, if last.Some? then All(last.value) else []);
    Reported(torn, items, id == 0);
  }

  lemma {:induction false} Reported(w: World, items: seq<Item>, onlyCore: bool)
    ensures var a := Apply(w, items, onlyCore); !a.threw ==> |a.reports| == |items|
    decreases |items|
  {
    hide Applying;
    if items != [] {
      Reported(Applying(w, items[0], onlyCore).0, items[1..], onlyCore);
    }
  }

  /** A profile's entries are applied namespaces first, whatever fails on the way. */
  lemma NamespacesFirst(w: World, s: Site, id: Id, onlyCore: bool)
    requires GetConfig(s, id).Some?
    ensures Exists(s, id)
    ensures var p := Stored(s, id); var a, b := Apply(w, All(GetConfig(s, id).value), onlyCore), Apply(w, p.namespaces, onlyCore);
            if b.threw then a == b
            else
              var c := Apply(b.world, p.roots, onlyCore);
              a == c.(reports := b.reports + c.reports, activated := b.activated + c.activated)
  {
    ApplyAppend(w, Stored(s, id).namespaces, Stored(s, id).roots, onlyCore);
  }

  lemma {:induction false} ApplyAppend(w: World, a: seq<Item>, b: seq<Item>, onlyCore: bool)
    ensures var x, y := Apply(w, a + b, onlyCore), Apply(w, a, onlyCore);
            if y.threw then x == y
            else
              var z := Apply(y.world, b, onlyCore);
              x == z.(reports := y.reports + z.reports, activated := y.activated + z.activated)
    decreases |a|
  {
    hide Applying;
    if a == [] {
      assert a + b == b;
      var z := Apply(w, b, onlyCore);
      assert [] + z.reports == z.reports && [] + z.activated == z.activated;
    } else {
      var (u, r, threw) := Applying(w, a[0], onlyCore);
      assert (a + b)[0] == a[0] && (a + b)[1..] == a[1..] + b;
      if !threw {
        ApplyAppend(u, a[1..], b, onlyCore);
        var y, z := Apply(u, a[1..], onlyCore), Apply(Apply(u, a[1..], onlyCore).world, b, onlyCore);
        assert [r] + (y.reports + z.reports) == [r] + y.reports + z.reports;
        assert CameUpIf(r, a[0].entry) + (y.activated + z.activated) == CameUpIf(r, a[0].entry) + y.activated + z.activated;
      }
    }
  }

  /** Reverting everything tears down the profile in force, whatever is recorded, and records the default. */
  lemma RevertExactly(s: Site)
    ensures Exists(s, InForce(s))
    ensures exists es :: Listed(s, InForce(s), es) && RevertAll(s) == s.(world := Homecoming(DeactivatedAll(s.world, es)), current := Some(0))
  {
    hide DeactivatedAll, Homecoming, Listed, Entries, All;
    EntriesListed(s, InForce(s));
    RevertIs(s);
  }

  lemma EntriesListed(s: Site, id: Id)
    requires Exists(s, id)
    ensures Listed(s, id, Entries(All(Stored(s, id))))
  {
  }

  lemma RevertIs(s: Site)
    ensures Exists(s, InForce(s))
    ensures RevertAll(s) == s.(world := Homecoming(DeactivatedAll(s.world, Entries(All(Stored(s, InForce(s)))))), current := Some(0))
  {
    hide DeactivatedAll, Homecoming, Entries, All;
  }

  /** After it, if no command fails once the entries are torn down, no radio is in a namespace of Core's. */
  lemma RevertBringsHome(s: Site)
    requires WF(s.world) && PlainFiles(s) && DeactivatedAll(s.world, Entries(All(Stored(s, InForce(s))))).verdicts == []
    ensures var v := RevertAll(s).world; forall p :: p in v.net.phys && v.net.phys[p].In? ==> !LeftAlone.Marked(v, v.net.phys[p].space)
  {
    hide WF, PlainFiles, DeactivatedAll, Homecoming;
    AllWorks(s);
    BringsHome(DeactivatedAll(s.world, Entries(All(Stored(s, InForce(s))))));
  }

  lemma AllWorks(s: Site)
    requires WF(s.world) && PlainFiles(s)
    ensures WF(DeactivatedAll(s.world, Entries(All(Stored(s, InForce(s))))))
  {
    hide WF, DeactivatedAll, Unharmed;
    AllUndoSafe(s.world, Entries(All(Stored(s, InForce(s)))));
  }
}
