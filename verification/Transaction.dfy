/**
 A whole activation is a transaction on the radios too: whichever single command fails, either every entry is
 up and the profile is recorded, or every radio is as it was before and the default is recorded.
 */
module Transaction {
  import opened Bytes
  import opened Netns
  import opened NetnsLaws
  import opened Service
  import opened ServiceLaws
  import opened UndoLaws
  import opened EntryLaws
  import opened Ownership
  import opened Layout
  import opened Atomic
  import opened RoundTrip
  import opened Profiles
  import opened ProfileLaws

  // ---------------------------------------------------------------- one entry

  lemma MatchVerdicts(b: World, es: seq<Entry>, ds: seq<Wdev>, cur: seq<Wdev>, up: set<nat>, w: World, v: World)
    requires Ready(b, es, ds) && Match(b, es, ds, cur, up, w) && v == w.(verdicts := v.verdicts)
    ensures Match(b, es, ds, cur, up, v)
  {
    hide Stands, Fits, OwnedBooks, Uniq, Known, Picks;
  }

  /** A failed preparation has only given the entry's netdev a new identifier. */
  lemma MatchAgain(b: World, es: seq<Entry>, ds: seq<Wdev>, cur: seq<Wdev>, up: set<nat>, w: World, i: nat, v: World)
    requires Ready(b, es, ds) && Match(b, es, ds, cur, up, w) && i < |es| && i !in up && i < |cur| && cur[i] in w.net.devs
    requires WF(v) && v.used == w.used && v.busy == w.busy && v.spaces == w.spaces && v.markers == w.markers && v.owned == w.owned
    requires v.nextWdev > w.nextWdev && v.net == Again(w.net, cur[i], v.nextWdev - 1)
    ensures Match(b, es, ds, cur[i := v.nextWdev - 1], up, v)
  {
    var x := v.nextWdev - 1;
    hide Stands, Fits, SpaceBooks, OwnedBooks, WF, Aged, NoTargets, Kind, Spot;
    NewerIsNew(w, x);
    assert up - {i} == up;
    ChangeOver(b, es, ds, cur, up, w.net, i, x, up - {i});
    SameChange(b, es, ds, cur, up, w.net, i, x);
    OwnedBooksOther(es, cur, up, w.owned, i, x);
    SpaceBooksSame(b, es, up, w, v);
    AgedAgain(b, es, ds, cur, w, i, v);
  }

  lemma NewerIsNew(w: World, x: Wdev)
    requires WF(w) && x >= w.nextWdev
    ensures x !in w.net.devs
  {
  }

  lemma SameChange(b: World, es: seq<Entry>, ds: seq<Wdev>, cur: seq<Wdev>, up: set<nat>, n: Net, i: nat, x: Wdev)
    requires Fits(b.net, es, ds) && Stands(b.net, es, ds, cur, up, n) && i < |es| && i !in up && x !in n.devs
    ensures i < |cur| && cur[i] in n.devs
    ensures var p := Radio(b.net, ds, i);
            Again(n, cur[i], x) == Changed(n, cur[i], x, p, Spot(es[i], false), Kind(es[i], p, false))
  {
    CurIs(b.net, es, ds, cur, up, n, i);
    var p := Radio(b.net, ds, i);
    assert n.phys[p := Root] == n.phys;
  }

  lemma OwnedBooksOther(es: seq<Entry>, cur: seq<Wdev>, up: set<nat>, owned: map<(Place, Name), Wdev>, i: nat, x: Wdev)
    requires |cur| == |es| && i < |es| && i !in up && OwnedBooks(es, cur, up, owned)
    ensures OwnedBooks(es, cur[i := x], up, owned)
  {
  }

  lemma SpaceBooksSame(b: World, es: seq<Entry>, up: set<nat>, w: World, v: World)
    requires SpaceBooks(b, es, up, w) && v.spaces == w.spaces && v.markers == w.markers
    ensures SpaceBooks(b, es, up, v)
  {
  }

  lemma AgedAgain(b: World, es: seq<Entry>, ds: seq<Wdev>, cur: seq<Wdev>, w: World, i: nat, v: World)
    requires Aged(b, es, ds, cur, w) && i < |es| && v.nextWdev > w.nextWdev
    ensures Aged(b, es, ds, cur[i := v.nextWdev - 1], v)
  {
  }

  /** The profile's radios travel smoothly. */
  lemma SmoothTravel(b: World, es: seq<Entry>, ds: seq<Wdev>, cur: seq<Wdev>, up: set<nat>, w: World, i: nat, live: Live)
    requires Ready(b, es, ds) && Match(b, es, ds, cur, up, w) && i < |es| && i !in up && i < |cur|
    requires live == LiveNow(es[i], Radio(b.net, ds, i), false)
    ensures Smooth(w.net, cur[i], es[i], live) && Backed(w.net, cur[i], live)
    ensures forall s :: s in w.markers ==> IsCore(w, s)
    ensures es[i].place.In? ==> es[i].place.space !in w.busy
  {
    QuietTravel(b, es, ds, cur, up, w.net, i, es[i].place);
    FreeNames(b, es, ds, cur, up, w.net, i);
    CurIs(b.net, es, ds, cur, up, w.net, i);
    hide WF, Stands, Fits, OwnedBooks, Quiet, Elsewhere, Held;
  }

  lemma ActivatedCases(w: World, e: Entry, d: Wdev)
    requires Swept(w) == w && FindLive(w, e) == Some(d) && !InUse(w, d)
    ensures var (u, out) := Prepared(w, e, LiveOf(w, d)); var (t, started) := Ask(u);
            Activated(w, e) ==
            if out == Refused then (u, Failed) else if out == Raised then (u, Threw)
            else if !e.services then (u, Up) else if started then (t, Up) else (Reverted(t, e).0, Threw)
  {
    hide Swept, FindLive, Prepared, Reverted, InUse;
  }

  lemma MatchBasics(b: World, es: seq<Entry>, ds: seq<Wdev>, cur: seq<Wdev>, up: set<nat>, w: World, i: nat)
    requires Ready(b, es, ds) && Match(b, es, ds, cur, up, w) && i < |es|
    ensures Plain(es[i]) && WF(w) && |cur| == |es|
  {
    hide WF, Stands, OwnedBooks, SpaceBooks;
  }

  lemma PrepareFails(b: World, es: seq<Entry>, ds: seq<Wdev>, cur: seq<Wdev>, up: set<nat>, w: World, i: nat, live: Live) returns (next: seq<Wdev>)
    requires Ready(b, es, ds) && Match(b, es, ds, cur, up, w) && i < |es| && i !in up && i < |cur|
    requires OneFailure(w.verdicts) && !DeleteFailsLate(w, es[i])
    requires live == LiveNow(es[i], Radio(b.net, ds, i), false) && Prepared(w, es[i], live).1 != Done
    ensures Match(b, es, ds, next, up, Prepared(w, es[i], live).0) && Prepared(w, es[i], live).0.verdicts == []
  {
    hide Match, Ready, WF, Plain, Prepared, Smooth, Backed, IsCore, Fits, Again, Radio, LiveNow, Shown, Kinds, OffRadio, OneFailure, DeleteFailsLate;
    var v := Prepared(w, es[i], live).0;
    SmoothTravel(b, es, ds, cur, up, w, i, live);
    MatchBasics(b, es, ds, cur, up, w, i);
    FailureAtomic(w, cur[i], es[i], live);
    Backing(w, cur[i], live);
    PreparedWorks(w, cur[i], es[i], live);
    BackedIn(w.net, cur[i], live);
    if v.net == w.net {
      next := cur;
      MatchSame(b, es, ds, cur, up, w, v);
    } else {
      next := cur[i := v.nextWdev - 1];
      MatchAgain(b, es, ds, cur, up, w, i, v);
    }
  }

  lemma BackedIn(n: Net, d: Wdev, live: Live)
    requires Backed(n, d, live)
    ensures d in n.devs
  {
  }

  lemma MatchSame(b: World, es: seq<Entry>, ds: seq<Wdev>, cur: seq<Wdev>, up: set<nat>, w: World, v: World)
    requires Ready(b, es, ds) && Match(b, es, ds, cur, up, w)
    requires WF(v) && v.net == w.net && v.used == w.used && v.busy == w.busy && v.spaces == w.spaces && v.markers == w.markers
    requires v.owned == w.owned && v.nextWdev >= w.nextWdev
    ensures Match(b, es, ds, cur, up, v)
  {
    hide WF, Stands, Fits, OwnedBooks, SpaceBooks;
    SpaceBooksSame(b, es, up, w, v);
  }

  /** Once prepared, the entry's services start, or it is taken down again. */
  lemma StartTried(b: World, es: seq<Entry>, ds: seq<Wdev>, cur: seq<Wdev>, up: set<nat>, u: World, i: nat) returns (next: seq<Wdev>)
    requires Ready(b, es, ds) && Match(b, es, ds, cur, up + {i}, u) && i < |es| && i !in up && OneFailure(u.verdicts)
    ensures var (t, started) := Ask(u); var v := if started then t else Reverted(t, es[i]).0;
            && OneFailure(v.verdicts) && (!started ==> v.verdicts == [])
            && Match(b, es, ds, next, if started then up + {i} else up, v)
  {
    hide Match, Ready, OneFailure, Reverted, Deactivated, Fits, Ask;
    var (t, started) := Ask(u);
    AskOnce(u);
    MatchVerdicts(b, es, ds, cur, up + {i}, u, t);
    next := cur;
    if !started {
      var x := GoesDown(b, es, ds, cur, up + {i}, t, i);
      next := cur[i := x];
      assert up + {i} - {i} == up;
      NoneLeft();
    }
  }

  /** One entry's activation with at most one failure: it comes up, or nothing of it remains. */
  lemma TriesUp(b: World, es: seq<Entry>, ds: seq<Wdev>, cur: seq<Wdev>, up: set<nat>, w: World, i: nat) returns (next: seq<Wdev>)
    requires Ready(b, es, ds) && Match(b, es, ds, cur, up, w) && i < |es| && i !in up
    requires OneFailure(w.verdicts) && !DeleteFailsLate(w, es[i])
    ensures var (v, status) := Activated(w, es[i]);
            && status in {Up, Failed, Threw} && OneFailure(v.verdicts) && (status != Up ==> v.verdicts == [])
            && (w.verdicts == [] ==> status == Up && v.verdicts == [])
            && Match(b, es, ds, next, if status == Up then up + {i} else up, v)
  {
    hide Match, Ready, WF, Plain, FindLive, Prepared, Activated, Reverted, InUse, Swept, Fits, OneFailure, DeleteFailsLate, LiveNow, Radio, Ask, Backs;
    CurLive(b, es, ds, cur, up, w, i);
    FindsCur(b, es, ds, cur, up, w, i);
    var e, live := es[i], LiveOf(w, cur[i]);
    ActivatedCases(w, e, cur[i]);
    var (u, out) := Prepared(w, e, live);
    NoneLeft();
    if w.verdicts == [] {
      GoesUp(b, es, ds, cur, up, w, i);
      next := cur[i := w.nextWdev];
    } else if out != Done {
      next := PrepareFails(b, es, ds, cur, up, w, i, live);
    } else {
      PreparedUp(b, es, ds, cur, up, w, i, live);
      PreparedOnce(w, e, live);
      next := cur[i := w.nextWdev];
      if e.services {
        next := StartTried(b, es, ds, next, up, u, i);
      }
    }
  }

  lemma NoneLeft()
    ensures OneFailure([])
  {
  }

  // ---------------------------------------------------------------- the loop over the entries

  /** The profile's entries, all valid. */
  ghost predicate ItemsOf(items: seq<Item>, es: seq<Entry>) {
    |items| == |es| && forall j :: 0 <= j < |es| ==> items[j] == Item(es[j], true)
  }

  /** Some entry's first delete fails after a namespace was created for it. */
  ghost predicate LateDelete(w: World, items: seq<Item>)
    decreases |items|
  {
    items != [] &&
    (DeleteFailsLate(w, items[0].entry) ||
     (Activated(w, items[0].entry).1 != Threw && LateDelete(Activated(w, items[0].entry).0, items[1..])))
  }

  function Indices(ix: seq<nat>): set<nat> { set j | j in ix }

  ghost predicate Listed(es: seq<Entry>, ix: seq<nat>, picked: seq<Entry>) {
    |ix| == |picked| && forall j :: 0 <= j < |ix| ==> ix[j] < |es| && picked[j] == es[ix[j]]
  }

  lemma ApplyStep(w: World, items: seq<Item>)
    requires items != [] && items[0].valid && Activated(w, items[0].entry).1 in {Up, Failed, Threw}
    ensures var (u, status) := Activated(w, items[0].entry); var a, rest := Apply(w, items, false), Apply(u, items[1..], false);
            a == if status == Threw then Applied(u, [], [], true)
                 else if status == Failed then rest.(reports := [ErrorReport] + rest.reports)
                 else rest.(reports := [Provisioned] + rest.reports, activated := [items[0].entry] + rest.activated)
  {
    hide Activated;
    var rest := Apply(Activated(w, items[0].entry).0, items[1..], false);
    assert [] + rest.activated == rest.activated;
  }

  lemma ApplyNone(w: World)
    ensures Apply(w, [], false) == Applied(w, [], [], false) && Acceptable([])
  {
  }

  lemma OneMore(r: Report, rs: seq<Report>)
    ensures Acceptable([r] + rs) <==> r != ErrorReport && Acceptable(rs)
  {
    assert ([r] + rs)[0] == r;
    assert forall i :: 0 <= i < |rs| ==> ([r] + rs)[i + 1] == rs[i];
  }

  /** What the loop leaves when at most one command fails: exactly the entries it lists are up. */
  lemma {:induction false} ApplyTries(b: World, es: seq<Entry>, ds: seq<Wdev>, cur: seq<Wdev>, up: set<nat>, w: World, items: seq<Item>, k: nat)
    returns (next: seq<Wdev>, ix: seq<nat>)
    requires Ready(b, es, ds) && Match(b, es, ds, cur, up, w) && ItemsOf(items, es) && k <= |es| && (forall i :: i in up ==> i < k)
    requires OneFailure(w.verdicts) && !LateDelete(w, items[k..])
    ensures var a := Apply(w, items[k..], false);
            && Listed(es, ix, a.activated) && Match(b, es, ds, next, up + Indices(ix), a.world)
            && (a.threw || !Acceptable(a.reports) ==> a.world.verdicts == [])
            && (!a.threw && Acceptable(a.reports) ==> forall j :: k <= j < |es| ==> j in ix)
            && (w.verdicts == [] ==> !a.threw && Acceptable(a.reports) && a.world.verdicts == [])
    decreases |es| - k
  {
    hide Match, Ready, Activated, OneFailure, DeleteFailsLate, Fits, Acceptable, Apply;
    if k == |es| {
      ApplyNone(w);
      next, ix := cur, [];
      assert up + Indices(ix) == up;
    } else {
      assert items[k..][1..] == items[k + 1..] && items[k..][0] == items[k];
      var (u, status) := Activated(w, es[k]);
      var mid := TriesUp(b, es, ds, cur, up, w, k);
      ApplyStep(w, items[k..]);
      if status == Threw {
        next, ix := mid, [];
        assert up + Indices(ix) == up;
      } else if status == Failed {
        next, ix := ApplyTries(b, es, ds, mid, up, u, items, k + 1);
        OneMore(ErrorReport, Apply(u, items[k + 1..], false).reports);
      } else {
        var later: seq<nat>;
        next, later := ApplyTries(b, es, ds, mid, up + {k}, u, items, k + 1);
        ix := [k] + later;
        assert up + Indices(ix) == up + {k} + Indices(later);
        OneMore(Provisioned, Apply(u, items[k + 1..], false).reports);
      }
    }
  }

  /** A rollback takes down exactly the listed entries. */
  lemma {:induction false} RollsBack(b: World, es: seq<Entry>, ds: seq<Wdev>, cur: seq<Wdev>, up: set<nat>, w: World, ix: seq<nat>, picked: seq<Entry>)
    returns (next: seq<Wdev>)
    requires Ready(b, es, ds) && Match(b, es, ds, cur, up, w) && Listed(es, ix, picked) && w.verdicts == []
    ensures Match(b, es, ds, next, up - Indices(ix), DeactivatedAll(w, picked)) && DeactivatedAll(w, picked).verdicts == []
    decreases |ix|
  {
    hide Match, Ready, Deactivated, Fits;
    if ix == [] {
      next := cur;
      assert up - Indices(ix) == up;
    } else {
      var i := ix[0];
      var mid := cur;
      if i in up {
        var x := GoesDown(b, es, ds, cur, up, w, i);
        mid := cur[i := x];
      } else {
        StaysDown(b, es, ds, cur, up, w, i);
        assert up - {i} == up;
      }
      next := RollsBack(b, es, ds, mid, up - {i}, Deactivated(w, es[i]).0, ix[1..], picked[1..]);
      assert up - Indices(ix) == up - {i} - Indices(ix[1..]);
    }
  }

  // ---------------------------------------------------------------- the whole activation

  lemma DownIsBase(b: World, es: seq<Entry>, ds: seq<Wdev>, cur: seq<Wdev>, w: World)
    requires Ready(b, es, ds) && Match(b, es, ds, cur, {}, w)
    ensures Shown(w.net) == Shown(b.net) && w.spaces == b.spaces && w.markers == map[] && w.owned == map[]
  {
    StartsMatched(b, es, ds);
    hide WF, Fits, Placed, Peopled, Aged, NoTargets, Kinds, Wanted;
    StandsWanted(b.net, es, ds, cur, {}, w.net);
    StandsWanted(b.net, es, ds, ds, {}, b.net);
    SamePlaces(b.net, es, ds, {}, w.net, b.net);
    assert forall s :: !Held(es, {}, s);
    assert w.spaces == b.spaces;
  }

  /** With nothing of Core's around, tearing a profile down changes nothing. */
  lemma NothingToTearDown(w: World, items: seq<Item>)
    requires w.markers == map[] && w.owned == map[]
    ensures TornDown(w, items) == w
  {
    NothingToDeactivate(w, Entries(items));
    NothingSwept(w);
    assert CoreSpaces(w) == {};
    hide Swept;
  }

  lemma NothingSwept(w: World)
    requires w.markers == map[]
    ensures Swept(w) == w
  {
    assert Swept(w).markers == map[];
  }

  lemma {:induction false} NothingToDeactivate(w: World, es: seq<Entry>)
    requires w.markers == map[] && w.owned == map[]
    ensures DeactivatedAll(w, es) == w
    decreases |es|
  {
    if es != [] {
      NothingSwept(w);
      hide Swept, FindLive, Reverted, Rekeyed;
      assert Deactivated(w, es[0]).0 == w;
      NothingToDeactivate(w, es[1..]);
    }
  }

  function Everyone(n: nat): (all: set<nat>)
    ensures forall j: nat :: j in all <==> j < n
  {
    if n == 0 then {} else Everyone(n - 1) + {n - 1}
  }

  /** Every entry is up, in the state that determines. */
  ghost predicate AllUp(b: World, es: seq<Entry>, ds: seq<Wdev>, w: World)
    requires Ready(b, es, ds)
  {
    exists cur :: Match(b, es, ds, cur, Everyone(|es|), w)
  }

  /** As before, identifiers aside, with nothing of Core's around; a netdev that is in use is the same one. */
  ghost predicate AsBefore(b: World, w: World) {
    && WF(w) && Shown(w.net) == Shown(b.net) && w.spaces == b.spaces && w.markers == map[] && w.owned == map[]
    && w.busy == b.busy && w.used == b.used && b.nextWdev <= w.nextWdev
    && forall x :: x in w.net.devs && x in b.used ==> x in b.net.devs && b.net.devs[x] == w.net.devs[x]
  }

  lemma CommittedAtomic(s: Site, id: Id, items: seq<Item>, es: seq<Entry>, ds: seq<Wdev>)
    requires id != DEFAULT && ItemsOf(items, es) && Ready(s.world, es, ds) && OneFailure(s.world.verdicts) && !LateDelete(s.world, items)
    ensures var (t, answer) := Committed(s, id, items);
            && (answer.Answered? && answer.ok ==> t.current == Some(id) && AllUp(s.world, es, ds, t.world))
            && (!(answer.Answered? && answer.ok) ==> t.current == Some(DEFAULT) && AsBefore(s.world, t.world))
            && (s.world.verdicts == [] ==> answer.Answered? && answer.ok && t.world.verdicts == [])
            && t.files == s.files && t.fallback == s.fallback
  {
    hide Ready, Match, Apply, OneFailure, LateDelete, Fits, Acceptable, DeactivatedAll, AsBefore, AllUp, Everyone, Indices;
    var b := s.world;
    StartsMatched(b, es, ds);
    assert items[0..] == items;
    var cur, ix := ApplyTries(b, es, ds, ds, {}, b, items, 0);
    var a := Apply(b, items, false);
    if !a.threw && Acceptable(a.reports) {
      EveryoneIn(es, ix, a.activated);
      AllAreUp(b, es, ds, cur, a.world);
    } else {
      var next := RollsBack(b, es, ds, cur, {} + Indices(ix), a.world, ix, a.activated);
      assert {} + Indices(ix) - Indices(ix) == {};
      TakenBack(b, es, ds, next, DeactivatedAll(a.world, a.activated));
    }
  }

  lemma EveryoneIn(es: seq<Entry>, ix: seq<nat>, picked: seq<Entry>)
    requires Listed(es, ix, picked) && forall j :: 0 <= j < |es| ==> j in ix
    ensures {} + Indices(ix) == Everyone(|es|)
  {
  }

  lemma AllAreUp(b: World, es: seq<Entry>, ds: seq<Wdev>, cur: seq<Wdev>, w: World)
    requires Ready(b, es, ds) && Match(b, es, ds, cur, Everyone(|es|), w)
    ensures AllUp(b, es, ds, w)
  {
    hide Match;
  }

  lemma TakenBack(b: World, es: seq<Entry>, ds: seq<Wdev>, cur: seq<Wdev>, w: World)
    requires Ready(b, es, ds) && Match(b, es, ds, cur, {}, w)
    ensures AsBefore(b, w)
  {
    DownIsBase(b, es, ds, cur, w);
    hide WF, Fits, Placed, SpaceBooks, OwnedBooks, NoTargets;
    assert forall i :: 0 <= i < |cur| ==> cur[i] !in b.used;
    assert forall x :: x in w.net.devs && x in b.used ==> x !in cur;
  }

  /** With nothing of Core's around, activating a valid profile is committing it. */
  lemma JustCommitted(s: Site, id: Id, force: bool)
    requires id != DEFAULT && id in s.files && !Current(s).Malformed? && !Declined(s, id, force)
    requires s.world.markers == map[] && s.world.owned == map[] && !exists item :: item in All(s.files[id]) && !item.valid
    ensures ActivateConfig(s, id, force) == Committed(s, id, All(s.files[id]))
  {
    hide Committed, TornDown, Invalid, All;
    InvalidSeen(s.world, All(s.files[id]));
    var last := GetConfig(s, ActiveId(s));
    NothingToTearDown(s.world, if last.Some? then All(last.value) else []);
  }

  lemma AllValid(items: seq<Item>, es: seq<Entry>)
    requires ItemsOf(items, es)
    ensures !exists item :: item in items && !item.valid
  {
  }

  // ---------------------------------------------------------------- an example

  /** One radio in root, and a profile that takes it into a namespace; the move there will fail. */
  const PLUGGED := World(Net(map[0 := Root], map[10 := Dev(Given(0), 0, Managed)]), map[], 11, 0, {}, {}, map[], map[], [true, true, true, false], {})

  const NAMESPACED := Entry(In(7), Given(0), Given(5), Monitor, true)

  lemma ReadyExample()
    ensures Ready(PLUGGED, [NAMESPACED], [10])
  {
    assert Named(PLUGGED.net, 10, Root, Given(0));
  }

  /** The site of the example: nothing of Core's around, perhaps with another profile recorded. */
  ghost predicate Plugged(s: Site) {
    && s.world == PLUGGED && 1 in s.files && s.files[1] == Profile([Item(NAMESPACED, true)], [])
    && !Current(s).Malformed? && ActiveId(s) != 1
  }

  /** It meets the conditions, and it fails: so its radio is back in root, and nothing else is left. */
  lemma ExampleRollsBack(s: Site)
    requires Plugged(s)
    ensures var (t, answer) := ActivateConfig(s, 1, true);
            !(answer.Answered? && answer.ok) && t.current == Some(DEFAULT) && AsBefore(PLUGGED, t.world)
  {
    hide AsBefore, AllUp, Activated, ActivateConfig, Committed;
    ReadyExample();
    var items := [Item(NAMESPACED, true)];
    assert All(s.files[1]) == items;
    assert ItemsOf(items, [NAMESPACED]);
    assert items[1..] == [];
    assert OneFailure([true, true, true, false]) by {
      assert [true, true, true, false][1..] == [true, true, false];
      assert [true, true, false][1..] == [true, false];
      assert [true, false][1..] == [false];
    }
    assert !LateDelete(PLUGGED, items);
    JustCommitted(s, 1, true);
    CommittedAtomic(s, 1, items, [NAMESPACED], [10]);
    ExampleFails(s);
  }

  /** So current.txt does not survive it: the profile that was recorded before is forgotten. */
  lemma ExampleForgets(s: Site)
    requires Plugged(s) && s.current == Some(2) && 2 in s.files
    ensures Current(s) == Active(2)
    ensures var (t, answer) := ActivateConfig(s, 1, true); !(answer.Answered? && answer.ok) && t.current == Some(DEFAULT)
  {
    hide AsBefore, ActivateConfig;
    ExampleRollsBack(s);
  }

  lemma ExampleFails(s: Site)
    requires Plugged(s)
    ensures var answer := Committed(s, 1, [Item(NAMESPACED, true)]).1; !(answer.Answered? && answer.ok)
  {
    var items := [Item(NAMESPACED, true)];
    ExampleActivates();
    hide Activated;
    assert items[1..] == [];
    OneMore(ErrorReport, []);
  }

  lemma ExampleActivates()
    ensures Activated(PLUGGED, NAMESPACED).1 == Failed
  {
    ReadyExample();
    StartsMatched(PLUGGED, [NAMESPACED], [10]);
    FindsCur(PLUGGED, [NAMESPACED], [10], [10], {}, PLUGGED, 0);
    hide FindLive, Swept, Restored, Without, Carried;
    var live := LiveOf(PLUGGED, 10);
    ActivatedCases(PLUGGED, NAMESPACED, 10);
    var (w1, ready, created) := SpaceReady(PLUGGED, 7);
    assert [true, true, true, false][1..] == [true, true, false];
    assert [true, true, false][1..] == [true, false];
    assert [true, false][1..] == [false];
    assert ready == Done && w1.verdicts == [true, false];
    var (w2, ok2) := DeleteDev(w1, Root, Given(0));
    assert ok2 && w2.verdicts == [false];
    assert Prepared(PLUGGED, NAMESPACED, live).1 == Refused;
  }
}
