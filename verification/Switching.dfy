/** Profiles as a whole: activating, switching, deactivating and deleting them, one after the other. */
module Switching {
  import opened Bytes
  import opened Netns
  import opened NetnsLaws
  import opened Service
  import opened ServiceLaws
  import opened UndoLaws
  import opened EntryLaws
  import opened Layout
  import opened Atomic
  import opened RoundTrip
  import opened Outcomes
  import opened Profiles
  import opened ProfileLaws
  import opened Transaction

  // ---------------------------------------------------------------- what is as before serves as a base again

  /** A netdev like `d`. */
  ghost function Twin(n: Net, m: Net, d: Wdev): (x: Wdev)
    requires Kinds(n) == Kinds(m) && d in n.devs
    ensures x in m.devs && m.devs[x] == n.devs[d]
  {
    assert n.devs[d] in Kinds(m);
    var x :| x in m.devs && m.devs[x] == n.devs[d];
    x
  }

  ghost function Twins(n: Net, m: Net, ds: seq<Wdev>): (xs: seq<Wdev>)
    requires Kinds(n) == Kinds(m) && forall i :: 0 <= i < |ds| ==> ds[i] in n.devs
    ensures |xs| == |ds| && forall i :: 0 <= i < |ds| ==> xs[i] in m.devs && m.devs[xs[i]] == n.devs[ds[i]]
  {
    seq(|ds|, i requires 0 <= i < |ds| => Twin(n, m, ds[i]))
  }

  lemma FitsAgain(n: Net, m: Net, es: seq<Entry>, ds: seq<Wdev>, xs: seq<Wdev>)
    requires Uniq(m) && Fits(n, es, ds) && Shown(n) == Shown(m)
    requires |xs| == |ds| && forall i :: 0 <= i < |ds| ==> ds[i] in n.devs && xs[i] in m.devs && m.devs[xs[i]] == n.devs[ds[i]]
    ensures Fits(m, es, xs)
  {
    FitsIn(n, es, ds);
    forall i | 0 <= i < |es|
      ensures Named(m, xs[i], Root, es[i].interface)
    {
      assert Named(n, ds[i], Root, es[i].interface);
    }
    forall i, d | 0 <= i < |es| && d in m.devs && m.devs[d].name == es[i].display
      ensures d == xs[i]
    {
      var x := Twin(m, n, d);
      assert x == ds[i];
      assert Named(m, d, Root, es[i].interface);
    }
  }

  /** A profile that fits a system fits it again when everything is as before. */
  lemma ReadyAgain(b: World, es: seq<Entry>, ds: seq<Wdev>, w: World) returns (xs: seq<Wdev>)
    requires Ready(b, es, ds) && AsBefore(b, w)
    ensures Ready(w, es, xs)
  {
    FitsIn(b.net, es, ds);
    xs := Twins(b.net, w.net, ds);
    WFUniq(w);
    FitsAgain(b.net, w.net, es, ds, xs);
    forall i | 0 <= i < |es|
      ensures xs[i] !in w.used
    {
      UnusedAgain(b, w, ds[i], xs[i], es[i].interface);
    }
    hide WF, Fits, Shown, Uniq;
  }

  lemma UnusedAgain(b: World, w: World, d: Wdev, x: Wdev, name: Name)
    requires WF(b) && AsBefore(b, w) && Named(b.net, d, Root, name) && d !in b.used && x in w.net.devs && w.net.devs[x] == b.net.devs[d]
    ensures x !in w.used
  {
    WFUniq(b);
    hide WF, Uniq;
    if x in w.used {
      assert Named(b.net, x, Root, name);
      SameNetdev(b.net, x, d, Root, name);
      assert false;
    }
  }

  lemma SameNetdev(n: Net, x: Wdev, y: Wdev, place: Place, name: Name)
    requires Uniq(n) && Named(n, x, place, name) && Named(n, y, place, name)
    ensures x == y
  {
  }

  lemma BeforeTrans(b: World, c: World, w: World)
    requires AsBefore(b, c) && AsBefore(c, w)
    ensures AsBefore(b, w)
  {
    hide WF;
  }

  lemma BeforeSelf(b: World, es: seq<Entry>, ds: seq<Wdev>)
    requires Ready(b, es, ds)
    ensures AsBefore(b, b)
  {
    hide WF, Fits, NoTargets;
  }

  // ---------------------------------------------------------------- a profile that is up

  /** Every entry is up, over a base that is `b`, identifiers aside. */
  ghost predicate UpOver(b: World, es: seq<Entry>, w: World) {
    exists c, ds :: AsBefore(b, c) && Ready(c, es, ds) && AllUp(c, es, ds, w)
  }

  function Range(n: nat): (ix: seq<nat>)
    ensures |ix| == n && (forall i :: 0 <= i < n ==> ix[i] == i)
  {
    seq(n, i requires 0 <= i < n => i)
  }

  lemma RangeIsEveryone(n: nat)
    ensures Indices(Range(n)) == Everyone(n)
  {
    forall j: nat | j < n
      ensures j in Indices(Range(n))
    {
      assert Range(n)[j] == j;
    }
  }

  lemma UpOverHas(b: World, es: seq<Entry>, w: World) returns (c: World, ds: seq<Wdev>, cur: seq<Wdev>)
    requires UpOver(b, es, w)
    ensures AsBefore(b, c) && Ready(c, es, ds) && Match(c, es, ds, cur, Everyone(|es|), w)
  {
    hide AsBefore, Ready, Match, Everyone;
    c, ds :| AsBefore(b, c) && Ready(c, es, ds) && AllUp(c, es, ds, w);
    ReadyFits(c, es, ds);
    cur :| Match(c, es, ds, cur, Everyone(|es|), w);
  }

  lemma ReadyFits(b: World, es: seq<Entry>, ds: seq<Wdev>)
    requires Ready(b, es, ds)
    ensures Fits(b.net, es, ds)
  {
  }

  /** Deactivating all of its entries, with no failure among the commands, puts everything back. */
  lemma TakesDown(b: World, es: seq<Entry>, w: World)
    requires UpOver(b, es, w) && Unfailed(w, DeactivatedAll(w, es))
    ensures var v := DeactivatedAll(w, es); AsBefore(b, v) && OneFailure(v.verdicts) && Settled(w, v)
  {
    hide AsBefore, Ready, Fits, Match, OneFailure, DeactivatedAll, Everyone, WF, UpOver, AllUp, Plain, Indices;
    var c, ds, cur := UpOverHas(b, es, w);
    RangeIsEveryone(|es|);
    ReadyFits(c, es, ds);
    MatchWF(c, es, ds, cur, Everyone(|es|), w);
    MatchVerdicts(c, es, ds, cur, Everyone(|es|), w, Carefree(w));
    var next := RollsBack(c, es, ds, cur, Everyone(|es|), Carefree(w), Range(|es|), es);
    assert Everyone(|es|) - Indices(Range(|es|)) == {};
    AllFree(w, es);
    var v := DeactivatedAll(w, es);
    MatchVerdicts(c, es, ds, next, {}, Carefree(v), v);
    TakenBack(c, es, ds, next, v);
    BeforeTrans(b, c, v);
  }

  lemma MatchWF(b: World, es: seq<Entry>, ds: seq<Wdev>, cur: seq<Wdev>, up: set<nat>, w: World)
    requires Ready(b, es, ds) && Match(b, es, ds, cur, up, w)
    ensures WF(w) && forall e :: e in es ==> Plain(e)
  {
    hide WF, Stands, Books, Aged, NoTargets;
  }

  /** With nothing left of Core's, the homecoming has nothing to do. */
  lemma NothingHome(b: World, w: World)
    requires AsBefore(b, w)
    ensures Homecoming(w) == w
  {
    NothingSwept(w);
    assert CoreSpaces(w) == {};
    hide Swept, WF;
  }

  /** The same by a deactivation that stops at an exception: there is none. */
  lemma {:induction false} UntilDown(c: World, es: seq<Entry>, ds: seq<Wdev>, cur: seq<Wdev>, w: World, k: nat) returns (next: seq<Wdev>)
    requires Ready(c, es, ds) && k <= |es| && Match(c, es, ds, cur, Everyone(|es|) - Everyone(k), w) && w.verdicts == []
    ensures var (v, ok) := DeactivatedUntil(w, es[k..]); ok && Match(c, es, ds, next, {}, v) && v.verdicts == []
    decreases |es| - k
  {
    hide Match, Ready, Deactivated, Fits, Everyone;
    if k == |es| {
      next := cur;
      assert Everyone(|es|) - Everyone(k) == {};
    } else {
      var up := Everyone(|es|) - Everyone(k);
      var x := GoesDown(c, es, ds, cur, up, w, k);
      EveryoneMore(k);
      assert up - {k} == Everyone(|es|) - Everyone(k + 1);
      assert es[k..][0] == es[k] && es[k..][1..] == es[k + 1..];
      next := UntilDown(c, es, ds, cur[k := x], Deactivated(w, es[k]).0, k + 1);
    }
  }

  lemma EveryoneMore(k: nat)
    ensures Everyone(k + 1) == Everyone(k) + {k}
  {
  }

  lemma AllUntilDown(b: World, es: seq<Entry>, w: World)
    requires UpOver(b, es, w) && w.verdicts == []
    ensures var (v, ok) := DeactivatedUntil(w, es); ok && AsBefore(b, v) && v.verdicts == []
  {
    hide AsBefore, Ready, Fits, Match, DeactivatedUntil, Everyone, UpOver, AllUp;
    var c, ds, cur := UpOverHas(b, es, w);
    ReadyFits(c, es, ds);
    NoOne();
    assert Everyone(|es|) - Everyone(0) == Everyone(|es|);
    assert es[0..] == es;
    var next := UntilDown(c, es, ds, cur, w, 0);
    TakenBack(c, es, ds, next, DeactivatedUntil(w, es).0);
    BeforeTrans(b, c, DeactivatedUntil(w, es).0);
  }

  lemma NoOne()
    ensures Everyone(0) == {}
  {
  }

  // ---------------------------------------------------------------- activation over what was there before

  function ActiveEntries(s: Site): seq<Entry> {
    var last := GetConfig(s, ActiveId(s));
    if last.Some? then Entries(All(last.value)) else []
  }

  /** Everything is as before, or the active profile is up. */
  ghost predicate Steady(b: World, s: Site) { AsBefore(b, s.world) || UpOver(b, ActiveEntries(s), s.world) }

  /** Tearing down the active profile, with no failure among the commands, puts everything back. */
  lemma TearsDown(b: World, s: Site)
    requires Steady(b, s) && Unfailed(s.world, DeactivatedAll(s.world, ActiveEntries(s)))
    ensures var last := GetConfig(s, ActiveId(s)); var v := TornDown(s.world, if last.Some? then All(last.value) else []);
            AsBefore(b, v) && OneFailure(v.verdicts) && Settled(s.world, v)
  {
    hide AsBefore, UpOver, DeactivatedAll, Homecoming, OneFailure;
    var v := DeactivatedAll(s.world, ActiveEntries(s));
    if AsBefore(b, s.world) {
      BareOfCore(b, s.world);
      NothingToDeactivate(s.world, ActiveEntries(s));
    } else {
      TakesDown(b, ActiveEntries(s), s.world);
    }
    NothingHome(b, v);
    var last := GetConfig(s, ActiveId(s));
    assert Entries(if last.Some? then All(last.value) else []) == ActiveEntries(s);
  }

  lemma BareOfCore(b: World, w: World)
    requires AsBefore(b, w)
    ensures w.markers == map[] && w.owned == map[]
  {
  }

  lemma UpOverIs(b: World, es: seq<Entry>, c: World, ds: seq<Wdev>, w: World)
    requires AsBefore(b, c) && Ready(c, es, ds) && AllUp(c, es, ds, w)
    ensures UpOver(b, es, w)
  {
    hide AsBefore, Ready, AllUp;
  }

  /**
   Activation is atomic, whether the system is clean or the active profile is up and has to be torn down first. If
   that teardown meets no failure, and after it at most one command fails (and not the first delete after a
   namespace was created), then either the answer is success, every entry is up and the profile is recorded, or
   every radio, netdev, namespace and record is as it was before any profile was active, and the default is
   recorded. Without a failure it is a success.
   */
  lemma ActivationAtomic(s: Site, id: Id, force: bool, b: World, es: seq<Entry>, ds: seq<Wdev>)
    requires id != DEFAULT && id in s.files && ItemsOf(All(s.files[id]), es) && Ready(b, es, ds)
    requires !Current(s).Malformed? && !Declined(s, id, force) && Steady(b, s)
    requires Unfailed(s.world, DeactivatedAll(s.world, ActiveEntries(s))) && !LateDelete(BeforeApply(s, id), All(s.files[id]))
    ensures var (t, answer) := ActivateConfig(s, id, force);
            && (if answer.Answered? && answer.ok then t.current == Some(id) && UpOver(b, es, t.world)
                else t.current == Some(DEFAULT) && AsBefore(b, t.world))
            && (s.world.verdicts == [] ==> answer.Answered? && answer.ok && t.world.verdicts == [])
            && t.files == s.files && t.fallback == s.fallback
  {
    hide Ready, OneFailure, LateDelete, Committed, AllUp, AsBefore, ItemsOf, ActivateConfig, TornDown, Steady, UpOver, DeactivatedAll, All, Invalid;
    var items := All(s.files[id]);
    AllValid(items, es);
    InvalidSeen(s.world, items);
    ActivationEnds(s, id, force);
    TearsDown(b, s);
    var c := BeforeApply(s, id);
    var xs := ReadyAgain(b, es, ds, c);
    CommittedAtomic(s.(world := c), id, items, es, xs);
    var (t, answer) := Committed(s.(world := c), id, items);
    if answer.Answered? && answer.ok {
      UpOverIs(b, es, c, xs, t.world);
    } else {
      BeforeTrans(b, c, t.world);
    }
  }

  /** Without a failure there is no late one. */
  lemma {:induction false} NeverLate(w: World, items: seq<Item>)
    requires WF(w) && w.verdicts == [] && AllPlain(items)
    ensures !LateDelete(w, items)
    decreases |items|
  {
    hide WF, Activated;
    if items != [] {
      ActivatedSettled(w, items[0].entry);
      ActivatedWorks(w, items[0].entry);
      NeverLate(Activated(w, items[0].entry).0, items[1..]);
    }
  }

  // ---------------------------------------------------------------- profiles come and go

  /** A profile all of whose entries are valid and fit the system as it is without any. */
  ghost predicate Fitting(b: World, p: Profile) {
    ItemsOf(All(p), Entries(All(p))) && exists ds :: Ready(b, Entries(All(p)), ds)
  }

  /** The recorded profile is up, and everything else is as before; all profiles fit, and nothing is going to fail. */
  ghost predicate Consistent(b: World, s: Site) {
    && s.world.verdicts == [] && Sound(s) && (forall id :: id in s.files && id != DEFAULT ==> Fitting(b, s.files[id]))
    && (if ActiveId(s) != DEFAULT then UpOver(b, ActiveEntries(s), s.world) else AsBefore(b, s.world))
  }

  /** Any request but activating the default, and deactivating by force a profile that is not active while another one is. */
  ghost predicate Orderly(b: World, s: Site, d: Deed) {
    match d
    case Activate(id, _) => id != DEFAULT
    case Deactivate(id, force) => force ==> ActiveId(s) in {DEFAULT, id}
    case Add(_, p) => Fitting(b, p)
    case Edit(id, p) => id != DEFAULT ==> Fitting(b, p)
    case Others(_) => false
    case _ => true
  }

  lemma SoundIs(s: Site)
    requires Sound(s)
    ensures !Current(s).Malformed? && (ActiveId(s) != DEFAULT ==> ActiveId(s) in s.files && s.current == Some(ActiveId(s)))
  {
  }

  lemma ReadyPlain(b: World, items: seq<Item>, ds: seq<Wdev>)
    requires Ready(b, Entries(items), ds)
    ensures AllPlain(items)
  {
    hide WF, NoTargets;
    var es := Entries(items);
    assert forall i :: 0 <= i < |es| ==> Plain(es[i]);
  }

  lemma BeforeWF(b: World, w: World)
    requires AsBefore(b, w)
    ensures WF(w)
  {
  }

  lemma NoFailure(w: World, v: World)
    requires w.verdicts == []
    ensures Unfailed(w, v)
  {
  }

  lemma ActivateKeeps(b: World, s: Site, id: Id, force: bool)
    requires Consistent(b, s) && id != DEFAULT && id in s.files && !Declined(s, id, force)
    ensures var (t, answer) := ActivateConfig(s, id, force);
            Consistent(b, t) && answer.Answered? && answer.ok && t.current == Some(id) && t.files == s.files
  {
    hide Ready, AsBefore, UpOver, ActivateConfig, DeactivatedAll, All, Declined, LateDelete, TornDown, ItemsOf, Invalid;
    SoundIs(s);
    var items := All(s.files[id]);
    assert Fitting(b, s.files[id]);
    var ds :| Ready(b, Entries(items), ds);
    NoFailure(s.world, DeactivatedAll(s.world, ActiveEntries(s)));
    AllValid(items, Entries(items));
    InvalidSeen(s.world, items);
    TearsDown(b, s);
    BeforeWF(b, BeforeApply(s, id));
    ReadyPlain(b, items, ds);
    NeverLate(BeforeApply(s, id), items);
    ActivationAtomic(s, id, force, b, Entries(items), ds);
  }

  /** Nothing of Core's is around, so there is nothing to deactivate. */
  lemma {:induction false} NothingUntil(w: World, es: seq<Entry>)
    requires w.markers == map[] && w.owned == map[]
    ensures DeactivatedUntil(w, es) == (w, true)
    decreases |es|
  {
    if es != [] {
      NothingSwept(w);
      hide Swept, FindLive, Reverted, Rekeyed;
      assert Deactivated(w, es[0]) == (w, Done);
      NothingUntil(w, es[1..]);
    }
  }

  lemma DeactivateKeeps(b: World, s: Site, id: Id, force: bool)
    requires Consistent(b, s) && (Current(s) == Active(id) || (force && ActiveId(s) == DEFAULT)) && GetConfig(s, id).Some?
    ensures var (t, answer) := DeactivateConfig(s, id, force);
            && answer == Answered(true, []) && t.current == Some(DEFAULT) && AsBefore(b, t.world) && t.files == s.files
            && Consistent(b, t)
  {
    hide AsBefore, UpOver, All, Homecoming, DeactivatedUntil, Fitting;
    SoundIs(s);
    var es := Entries(All(GetConfig(s, id).value));
    if ActiveId(s) != DEFAULT {
      AllUntilDown(b, es, s.world);
    } else {
      BareOfCore(b, s.world);
      NothingUntil(s.world, es);
    }
    NothingHome(b, DeactivatedUntil(s.world, es).0);
  }

  lemma RevertKeeps(b: World, s: Site)
    requires Consistent(b, s)
    ensures Consistent(b, RevertAll(s)) && RevertAll(s).current == Some(DEFAULT) && AsBefore(b, RevertAll(s).world)
  {
    hide AsBefore, UpOver, All, TornDown, Fitting, DeactivatedAll;
    NoFailure(s.world, DeactivatedAll(s.world, ActiveEntries(s)));
    TearsDown(b, s);
  }

  /** A profile that is not active goes; or any, once the default is recorded. */
  lemma RemoveKeeps(b: World, s: Site, id: Id)
    requires Consistent(b, s) && (ActiveId(s) != id || id == DEFAULT)
    ensures Consistent(b, s.(files := s.files - {id}))
  {
    hide AsBefore, UpOver, All, Fitting;
    var t := s.(files := s.files - {id});
    assert ActiveId(s) != DEFAULT ==> ActiveEntries(t) == ActiveEntries(s);
  }

  lemma StoreKeeps(b: World, s: Site, id: Id, p: Profile)
    requires Consistent(b, s) && (ActiveId(s) != id || id == DEFAULT) && (id != DEFAULT ==> Fitting(b, p))
    ensures Consistent(b, s.(files := s.files[id := p]))
  {
    hide AsBefore, UpOver, All, Fitting;
    var t := s.(files := s.files[id := p]);
    assert ActiveId(s) != DEFAULT ==> ActiveEntries(t) == ActiveEntries(s);
  }

  lemma DeleteKeeps(b: World, s: Site, id: Id, force: bool)
    requires Consistent(b, s)
    ensures Consistent(b, DeleteConfig(s, id, force).0)
  {
    hide Consistent, DeactivateConfig;
    ConsistentSound(b, s);
    SoundIs(s);
    if Current(s) == Active(id) && force {
      DeactivateKeeps(b, s, id, false);
      RemoveKeeps(b, DeactivateConfig(s, id, false).0, id);
    } else if Current(s) != Active(id) {
      RemoveKeeps(b, s, id);
    }
  }

  lemma ConsistentSound(b: World, s: Site)
    requires Consistent(b, s)
    ensures Sound(s)
  {
  }

  lemma RequestKeeps(b: World, s: Site, d: Deed)
    requires Consistent(b, s) && Orderly(b, s, d)
    ensures Consistent(b, Did(s, d).0)
  {
    hide Consistent, ActivateConfig, DeactivateConfig, DeleteConfig, RevertAll, Fitting;
    ConsistentSound(b, s);
    SoundIs(s);
    match d
    case Activate(id, force) =>
      if id in s.files && !Declined(s, id, force) {
        ActivateKeeps(b, s, id, force);
      } else {
        Unactivated(s, id, force);
      }
    case Deactivate(id, force) =>
      if GetConfig(s, id).Some? && (Current(s) == Active(id) || (force && ActiveId(s) == DEFAULT)) {
        DeactivateKeeps(b, s, id, force);
      } else {
        Undeactivated(s, id, force);
      }
    case Delete(id, force) => DeleteKeeps(b, s, id, force);
    case Add(id, p) => if id != DEFAULT && id !in s.files { StoreKeeps(b, s, id, p); }
    case Edit(id, p) => if Current(s) != Active(id) { StoreKeeps(b, s, id, p); }
    case Revert => RevertKeeps(b, s);
  }

  lemma Unactivated(s: Site, id: Id, force: bool)
    requires id != DEFAULT && (id !in s.files || Declined(s, id, force)) && !Current(s).Malformed?
    ensures ActivateConfig(s, id, force).0 == s
  {
    hide Invalid, TornDown, Committed;
  }

  lemma Undeactivated(s: Site, id: Id, force: bool)
    requires GetConfig(s, id).None? || (Current(s) != Active(id) && !force)
    ensures DeactivateConfig(s, id, force).0 == s
  {
    hide DeactivatedUntil, Homecoming;
  }

  /**
   Whatever profiles are added, edited, activated, switched by force, deactivated, deleted and reverted, in any
   order: at every point exactly the recorded profile is up, and while the default or nothing is recorded, every
   radio, netdev, namespace and record of Core's is as it was before the first of them.
   */
  lemma {:induction false} ProfilesComeAndGo(b: World, ss: seq<Site>, deeds: seq<Deed>, j: nat)
    requires History(ss, deeds) && j < |ss| && Consistent(b, ss[0])
    requires forall i :: 0 <= i < |deeds| ==> Orderly(b, ss[i], deeds[i])
    ensures Consistent(b, ss[j])
  {
    hide Consistent, Orderly, Did;
    if j > 0 {
      ProfilesComeAndGo(b, ss, deeds, j - 1);
      RequestKeeps(b, ss[j - 1], deeds[j - 1]);
    }
  }

  /** A clean system with fitting profiles is a start. */
  lemma StartsConsistent(b: World, s: Site, es: seq<Entry>, ds: seq<Wdev>)
    requires s.world == b && b.verdicts == [] && Ready(b, es, ds) && s.current in {None, Some(DEFAULT)}
    requires forall id :: id in s.files && id != DEFAULT ==> Fitting(b, s.files[id])
    ensures Consistent(b, s)
  {
    BeforeSelf(b, es, ds);
    hide AsBefore, Ready, Fitting;
  }

  /** Activating a profile and deactivating it again, either of them forced or not, is the identity on the radios. */
  lemma ActivateThenDeactivate(s: Site, id: Id, force: bool, again: bool)
    requires s.world.verdicts == [] && s.current in {None, Some(DEFAULT)} && id in s.files && id != DEFAULT
    requires forall x :: x in s.files && x != DEFAULT ==> Fitting(s.world, s.files[x])
    ensures var (t, answer) := ActivateConfig(s, id, force); var (u, last) := DeactivateConfig(t, id, again);
            && answer.Answered? && answer.ok && t.current == Some(id) && UpOver(s.world, Entries(All(s.files[id])), t.world)
            && last == Answered(true, []) && u.current == Some(DEFAULT) && AsBefore(s.world, u.world) && u.files == s.files
  {
    var b := s.world;
    assert Fitting(b, s.files[id]);
    var ds :| Ready(b, Entries(All(s.files[id])), ds);
    StartsConsistent(b, s, Entries(All(s.files[id])), ds);
    hide AsBefore, Ready, Fitting, UpOver, ActivateConfig, DeactivateConfig, All;
    ActivateKeeps(b, s, id, force);
    DeactivateKeeps(b, ActivateConfig(s, id, force).0, id, again);
  }

  /** Switching by force from one profile to another: the first is gone without a trace, and then so is the second. */
  lemma SwitchThenDeactivate(b: World, s: Site, id: Id, again: bool)
    requires Consistent(b, s) && id in s.files && id != DEFAULT
    ensures var (t, answer) := ActivateConfig(s, id, true); var (u, last) := DeactivateConfig(t, id, again);
            && answer.Answered? && answer.ok && t.current == Some(id) && UpOver(b, Entries(All(s.files[id])), t.world)
            && last == Answered(true, []) && u.current == Some(DEFAULT) && AsBefore(b, u.world) && u.files == s.files
  {
    hide AsBefore, Fitting, UpOver, ActivateConfig, DeactivateConfig, All;
    ActivateKeeps(b, s, id, true);
    DeactivateKeeps(b, ActivateConfig(s, id, true).0, id, again);
  }
}
