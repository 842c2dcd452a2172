/**
 Activating and deactivating the entries of a validated profile, in any order: which entries are up
 determines the whole layout, and with none up it is the one before.
 */
module RoundTrip {
  import opened Bytes
  import opened Netns
  import opened NetnsLaws
  import opened Service
  import opened ServiceLaws
  import opened UndoLaws
  import opened EntryLaws
  import opened Ownership
  import opened Layout

  // ---------------------------------------------------------------- a profile on a clean system

  /** Each entry's radio starts as the managed root netdev `interface`, and its display name is nobody else's. */
  ghost predicate Fits(n: Net, es: seq<Entry>, ds: seq<Wdev>) {
    && |ds| == |es|
    && (forall i :: 0 <= i < |es| ==> Plain(es[i]) && Named(n, ds[i], Root, es[i].interface) && n.devs[ds[i]].mode == Managed)
    && (forall i, j :: 0 <= i < |es| && 0 <= j < |es| && n.devs[ds[i]].phy == n.devs[ds[j]].phy ==> i == j)
    && (forall i, d :: 0 <= i < |es| && d in n.devs && n.devs[d].name == es[i].display ==> d == ds[i])
    && (forall i, j :: 0 <= i < |es| && 0 <= j < |es| && es[i].place == es[j].place && es[i].display == es[j].display ==> i == j)
  }

  /** Target namespaces are absent. */
  ghost predicate NoTargets(b: World, es: seq<Entry>) {
    forall i :: 0 <= i < |es| && es[i].place.In? ==> es[i].place.space !in b.spaces && es[i].place.space !in b.busy
  }

  /** No Core namespaces or records, and the radios are free. */
  ghost predicate Ready(b: World, es: seq<Entry>, ds: seq<Wdev>) {
    && WF(b) && b.markers == map[] && b.owned == map[] && Fits(b.net, es, ds) && NoTargets(b, es)
    && (forall i :: 0 <= i < |es| ==> es[i].mode != Foreign && ds[i] !in b.used)
    && (forall d :: d in b.used ==> d < b.nextWdev)
  }

  function Radio(n: Net, ds: seq<Wdev>, i: nat): Phy
    requires i < |ds| && ds[i] in n.devs
  {
    n.devs[ds[i]].phy
  }

  // ---------------------------------------------------------------- what the entries that are up determine

  /** The netdev of entry `i`. */
  function Kind(e: Entry, p: Phy, isUp: bool): Dev { if isUp then Dev(e.display, p, e.mode) else Dev(e.interface, p, Managed) }

  function Spot(e: Entry, isUp: bool): Place { if isUp then e.place else Root }

  /** Where the radios are when the entries in `up` are up; those of no entry are as in `b`. */
  ghost predicate Placed(b: Net, es: seq<Entry>, ds: seq<Wdev>, up: set<nat>, n: Net)
    requires Fits(b, es, ds)
  {
    && n.phys.Keys == b.phys.Keys
    && (forall i :: 0 <= i < |es| ==> n.phys[Radio(b, ds, i)] == Spot(es[i], i in up))
    && (forall p :: p in b.phys && (forall i :: 0 <= i < |es| ==> Radio(b, ds, i) != p) ==> n.phys[p] == b.phys[p])
  }

  /** `cur` are the entries' netdevs; the other netdevs are as in `b`. */
  ghost predicate Peopled(b: Net, es: seq<Entry>, ds: seq<Wdev>, cur: seq<Wdev>, up: set<nat>, n: Net)
    requires Fits(b, es, ds)
  {
    && |cur| == |es|
    && (forall i :: 0 <= i < |es| ==> cur[i] in n.devs && n.devs[cur[i]] == Kind(es[i], Radio(b, ds, i), i in up))
    && (forall d :: d in n.devs && d !in cur ==> d in b.devs && d !in ds && n.devs[d] == b.devs[d])
    && (forall d :: d in b.devs && d !in ds ==> d in n.devs && n.devs[d] == b.devs[d])
  }

  ghost predicate Stands(b: Net, es: seq<Entry>, ds: seq<Wdev>, cur: seq<Wdev>, up: set<nat>, n: Net)
    requires Fits(b, es, ds)
  {
    Placed(b, es, ds, up, n) && Peopled(b, es, ds, cur, up, n)
  }

  // ---------------------------------------------------------------- who has which name

  /** A netdev of the base that is no entry's: where it is, and that its name is nobody's. */
  lemma BystanderPlace(b: World, es: seq<Entry>, ds: seq<Wdev>, cur: seq<Wdev>, up: set<nat>, n: Net, d: Wdev)
    requires WF(b) && Fits(b.net, es, ds) && Stands(b.net, es, ds, cur, up, n) && d in b.net.devs && d !in ds
    ensures b.net.devs[d].phy in n.phys && d in n.devs
    ensures n.phys[b.net.devs[d].phy] == b.net.phys[b.net.devs[d].phy] ||
            (b.net.phys[b.net.devs[d].phy] == Root && exists i :: 0 <= i < |es| && Radio(b.net, ds, i) == b.net.devs[d].phy)
  {
    hide Uniq, Picks, Housed, Distinct, Recorded;
    var p := b.net.devs[d].phy;
    if i :| 0 <= i < |es| && Radio(b.net, ds, i) == p {
      assert Named(b.net, ds[i], Root, es[i].interface);
    }
  }

  /** No bystander in root has an entry's interface name, and none anywhere has a display name. */
  lemma BystanderName(b: Net, es: seq<Entry>, ds: seq<Wdev>, d: Wdev, i: nat)
    requires Uniq(b) && Fits(b, es, ds) && d in b.devs && d !in ds && i < |es|
    ensures b.devs[d].name != es[i].display
    ensures Sits(b, d, Root) ==> b.devs[d].name != es[i].interface
  {
    assert Named(b, ds[i], Root, es[i].interface);
    assert Sits(b, d, Root) ==> Named(b, d, Root, b.devs[d].name);
  }

  /** Entries do not share names: neither interfaces, nor one's display with another's interface. */
  lemma EntryNames(b: Net, es: seq<Entry>, ds: seq<Wdev>, i: nat, j: nat)
    requires Uniq(b) && Fits(b, es, ds) && i < |es| && j < |es| && i != j
    ensures es[i].interface != es[j].interface && es[i].display != es[j].interface
  {
    assert Named(b, ds[i], Root, es[i].interface) && Named(b, ds[j], Root, es[j].interface);
    assert ds[i] != ds[j] && b.devs[ds[j]].name == es[j].interface;
  }

  /** An entry's netdev is its own: no two are the same, and none is a bystander. */
  lemma CurDistinct(b: World, es: seq<Entry>, ds: seq<Wdev>, cur: seq<Wdev>, up: set<nat>, n: Net, i: nat)
    requires WF(b) && Fits(b.net, es, ds) && Stands(b.net, es, ds, cur, up, n) && i < |es|
    ensures forall j :: 0 <= j < |es| && cur[j] == cur[i] ==> j == i
    ensures cur[i] in b.net.devs ==> cur[i] in ds
  {
    hide Uniq, Picks, Housed, Distinct, Recorded;
    WFUniq(b);
    forall j | 0 <= j < |es| && cur[j] == cur[i]
      ensures j == i
    {
      assert Radio(b.net, ds, j) == Radio(b.net, ds, i);
    }
    if cur[i] in b.net.devs && cur[i] !in ds {
      BystanderName(b.net, es, ds, cur[i], i);
      assert false;
    }
  }

  /** What carries a given name at a place where entry `i` looks. */
  lemma NameHolder(b: World, es: seq<Entry>, ds: seq<Wdev>, cur: seq<Wdev>, up: set<nat>, n: Net, i: nat, x: Wdev)
    requires WF(b) && Fits(b.net, es, ds) && Stands(b.net, es, ds, cur, up, n) && NoTargets(b, es) && i < |es| && x in n.devs && x != cur[i]
    ensures n.devs[x].name == es[i].interface ==>
              x !in cur && b.net.phys[b.net.devs[x].phy].In? && n.phys[n.devs[x].phy] == b.net.phys[b.net.devs[x].phy]
    ensures n.devs[x].name == es[i].display ==> x in cur && !Sits(n, x, es[i].place)
  {
    WFUniq(b);
    hide WF, Uniq;
    if x in cur {
      var j :| 0 <= j < |cur| && cur[j] == x;
      EntryNames(b.net, es, ds, i, j);
      EntryNames(b.net, es, ds, j, i);
    } else {
      BystanderName(b.net, es, ds, x, i);
      BystanderPlace(b, es, ds, cur, up, n, x);
    }
  }

  // ---------------------------------------------------------------- Core's records

  predicate Held(es: seq<Entry>, up: set<nat>, s: Label) { exists i :: 0 <= i < |es| && i in up && es[i].place == In(s) }

  function Key(e: Entry): (Place, Name) { (e.place, e.display) }

  /** Exactly the namespaces that the entries that are up need were added, and marked as Core's. */
  ghost predicate SpaceBooks(b: World, es: seq<Entry>, up: set<nat>, w: World) {
    && (forall s :: s in w.spaces <==> s in b.spaces || Held(es, up, s))
    && (forall s :: s in b.spaces ==> s in w.spaces && w.spaces[s] == b.spaces[s])
    && (forall s :: s in w.markers <==> Held(es, up, s))
    && (forall s :: s in w.markers ==> s in w.spaces && w.markers[s] == w.spaces[s])
  }

  /** Exactly the netdevs of the entries that are up are recorded. */
  ghost predicate OwnedBooks(es: seq<Entry>, cur: seq<Wdev>, up: set<nat>, owned: map<(Place, Name), Wdev>)
    requires |cur| == |es|
  {
    && (forall k :: k in owned ==> exists i :: 0 <= i < |es| && i in up && k == Key(es[i]))
    && (forall i :: 0 <= i < |es| && i in up ==> Key(es[i]) in owned && owned[Key(es[i])] == cur[i])
  }

  ghost predicate Books(b: World, es: seq<Entry>, cur: seq<Wdev>, up: set<nat>, w: World) {
    |cur| == |es| && SpaceBooks(b, es, up, w) && OwnedBooks(es, cur, up, w.owned)
  }

  /** The entries' netdevs are those of the base or newer. */
  ghost predicate Aged(b: World, es: seq<Entry>, ds: seq<Wdev>, cur: seq<Wdev>, w: World) {
    |ds| == |es| == |cur| && b.nextWdev <= w.nextWdev && forall i :: 0 <= i < |es| ==> cur[i] == ds[i] || cur[i] >= b.nextWdev
  }

  /** The whole state when the entries in `up` are up. */
  ghost predicate Match(b: World, es: seq<Entry>, ds: seq<Wdev>, cur: seq<Wdev>, up: set<nat>, w: World)
    requires Fits(b.net, es, ds)
  {
    && WF(w) && w.used == b.used && w.busy == b.busy && (forall i :: i in up ==> i < |es|)
    && Stands(b.net, es, ds, cur, up, w.net) && Books(b, es, cur, up, w) && Aged(b, es, ds, cur, w)
  }

  lemma SweptMatch(w: World)
    requires forall s :: s in w.markers ==> s in w.spaces && w.markers[s] == w.spaces[s]
    ensures Swept(w) == w
    ensures forall s :: IsCore(w, s) <==> s in w.markers
  {
    assert Swept(w).markers == w.markers;
  }

  lemma OutOfSight(w: World, e: Entry, x: Wdev, t: Label)
    requires Sits(w.net, x, In(t)) && e.place != In(t) && !IsCore(w, t)
    ensures !Candidate(w, e, x)
  {
  }

  /** The namespaces of the base are neither an entry's nor Core's. */
  lemma OldSpace(b: World, es: seq<Entry>, cur: seq<Wdev>, up: set<nat>, w: World, t: Label, i: nat)
    requires NoTargets(b, es) && Books(b, es, cur, up, w) && t in b.spaces && i < |es|
    ensures es[i].place != In(t) && !IsCore(w, t)
  {
  }

  lemma BaseSpace(b: World, d: Wdev)
    requires WF(b) && d in b.net.devs && b.net.devs[d].phy in b.net.phys && b.net.phys[b.net.devs[d].phy].In?
    ensures b.net.phys[b.net.devs[d].phy].space in b.spaces
  {
  }

  /** Nothing but the entry's netdev has its interface name where the entry looks. */
  lemma OnlyCandidate(b: World, es: seq<Entry>, ds: seq<Wdev>, cur: seq<Wdev>, up: set<nat>, w: World, i: nat, x: Wdev)
    requires Ready(b, es, ds) && Match(b, es, ds, cur, up, w) && i < |es| && Candidate(w, es[i], x)
    ensures x == cur[i]
  {
    StandsPhys(b.net, es, ds, cur, up, w.net);
    hide WF, Stands, Books, Visible, IsCore;
    if x != cur[i] {
      NameHolder(b, es, ds, cur, up, w.net, i, x);
      Leftover(b.net, es, ds, cur, up, w.net, x);
      BaseKnown(b, x);
      BaseSpace(b, x);
      var t := b.net.phys[b.net.devs[x].phy].space;
      OldSpace(b, es, cur, up, w, t, i);
      OutOfSight(w, es[i], x, t);
      assert false;
    }
  }

  lemma BaseKnown(b: World, d: Wdev)
    requires WF(b) && d in b.net.devs
    ensures b.net.devs[d].phy in b.net.phys && d < b.nextWdev
  {
  }

  lemma StandsPhys(b: Net, es: seq<Entry>, ds: seq<Wdev>, cur: seq<Wdev>, up: set<nat>, n: Net)
    requires Fits(b, es, ds) && Stands(b, es, ds, cur, up, n)
    ensures n.phys.Keys == b.phys.Keys && |cur| == |es|
  {
  }

  lemma Leftover(b: Net, es: seq<Entry>, ds: seq<Wdev>, cur: seq<Wdev>, up: set<nat>, n: Net, x: Wdev)
    requires Fits(b, es, ds) && Stands(b, es, ds, cur, up, n) && x in n.devs && x !in cur
    ensures x in b.devs && x !in ds && n.devs[x] == b.devs[x]
  {
  }

  /** With no namesake in sight, the netdev under the interface name, or the display name at the entry's place, is found. */
  lemma FoundAlone(w: World, e: Entry, c: Wdev)
    requires Uniq(w.net) && forall x :: Candidate(w, e, x) ==> x == c
    requires Named(w.net, c, Root, e.interface) || Named(w.net, c, e.place, e.display)
    ensures FindLive(w, e) == Some(c)
  {
    hide Uniq;
    assert IsLive(w, e, c) by {
      if Candidate(w, e, c) {
        assert c in w.net.devs && Candidate(w, e, c);
      }
    }
    FoundIs(w, e, c);
  }

  lemma CurIs(b: Net, es: seq<Entry>, ds: seq<Wdev>, cur: seq<Wdev>, up: set<nat>, n: Net, i: nat)
    requires Fits(b, es, ds) && Stands(b, es, ds, cur, up, n) && i < |es|
    ensures |cur| == |es| && cur[i] in n.devs && n.devs[cur[i]] == Kind(es[i], Radio(b, ds, i), i in up)
    ensures Named(n, cur[i], Spot(es[i], i in up), Kind(es[i], Radio(b, ds, i), i in up).name)
  {
    assert Named(b, ds[i], Root, es[i].interface);
  }

  /** The lookup finds the entry's own netdev, whether the entry is up or not. */
  lemma FindsCur(b: World, es: seq<Entry>, ds: seq<Wdev>, cur: seq<Wdev>, up: set<nat>, w: World, i: nat)
    requires Ready(b, es, ds) && Match(b, es, ds, cur, up, w) && i < |es|
    ensures Swept(w) == w && FindLive(w, es[i]) == Some(cur[i])
  {
    SweptMatch(w);
    WFUniq(w);
    CurIs(b.net, es, ds, cur, up, w.net, i);
    hide WF, Uniq, Stands, Books, Candidate, Fits, FindLive;
    forall x | Candidate(w, es[i], x)
      ensures x == cur[i]
    {
      OnlyCandidate(b, es, ds, cur, up, w, i, x);
    }
    FoundAlone(w, es[i], cur[i]);
  }

  // ---------------------------------------------------------------- one radio's travels

  /** Nobody at root or at the entry's place has the name of a netdev that travels with its radio. */
  lemma QuietTravel(b: World, es: seq<Entry>, ds: seq<Wdev>, cur: seq<Wdev>, up: set<nat>, n: Net, i: nat, to: Place)
    requires WF(b) && Fits(b.net, es, ds) && NoTargets(b, es) && Stands(b.net, es, ds, cur, up, n) && i < |es|
    requires to == Root || to == es[i].place
    ensures Quiet(n, Radio(b.net, ds, i), cur[i], to)
  {
    var p := Radio(b.net, ds, i);
    forall x, y | x in n.devs && x != cur[i] && n.devs[x].phy == p && y in n.devs && n.devs[y].phy != p && Named(n, y, to, n.devs[x].name)
      ensures false
    {
      NoNamesake(b, es, ds, cur, up, n, i, to, x, y);
    }
    hide WF, Stands, Fits, Named;
    forall x | x in n.devs && x != cur[i] && n.devs[x].phy == p
      ensures !Clashes(n, x, to)
    {
    }
  }

  lemma NoNamesake(b: World, es: seq<Entry>, ds: seq<Wdev>, cur: seq<Wdev>, up: set<nat>, n: Net, i: nat, to: Place, x: Wdev, y: Wdev)
    requires WF(b) && Fits(b.net, es, ds) && NoTargets(b, es) && Stands(b.net, es, ds, cur, up, n) && i < |es|
    requires to == Root || to == es[i].place
    requires x in n.devs && x != cur[i] && n.devs[x].phy == Radio(b.net, ds, i) && y in n.devs && n.devs[y].phy != Radio(b.net, ds, i)
    ensures !Named(n, y, to, n.devs[x].name)
  {
    WFUniq(b);
    SiblingIs(b, es, ds, cur, up, n, i, x);
    if y in cur {
      var j :| 0 <= j < |cur| && cur[j] == y;
      CurIs(b.net, es, ds, cur, up, n, j);
      BystanderName(b.net, es, ds, x, j);
    } else if Named(n, y, to, n.devs[x].name) {
      Leftover(b.net, es, ds, cur, up, n, y);
      BystanderPlace(b, es, ds, cur, up, n, y);
      BaseKnown(b, y);
      if b.net.phys[b.net.devs[y].phy].In? {
        BaseSpace(b, y);
      }
      hide WF, Stands, Fits;
      assert Sits(b.net, y, Root);
      SameName(b.net, x, y, Root, b.net.devs[x].name);
      assert false;
    }
  }

  /** Other netdevs of an entry's radio are the base's, and stood in root with it. */
  lemma SiblingIs(b: World, es: seq<Entry>, ds: seq<Wdev>, cur: seq<Wdev>, up: set<nat>, n: Net, i: nat, x: Wdev)
    requires WF(b) && Fits(b.net, es, ds) && Stands(b.net, es, ds, cur, up, n) && i < |es|
    requires x in n.devs && x != cur[i] && n.devs[x].phy == Radio(b.net, ds, i)
    ensures x !in cur && x in b.net.devs && x !in ds && n.devs[x] == b.net.devs[x] && Sits(b.net, x, Root)
  {
    assert Named(b.net, ds[i], Root, es[i].interface);
    hide WF;
    forall j | 0 <= j < |cur| && j != i
      ensures cur[j] != x
    {
      assert Radio(b.net, ds, j) != Radio(b.net, ds, i);
    }
  }

  /** Neither the display name at the entry's place nor the interface name in root is anybody else's. */
  lemma FreeNames(b: World, es: seq<Entry>, ds: seq<Wdev>, cur: seq<Wdev>, up: set<nat>, n: Net, i: nat)
    requires WF(b) && Fits(b.net, es, ds) && NoTargets(b, es) && Stands(b.net, es, ds, cur, up, n) && i < |es|
    ensures !Elsewhere(n, cur[i], es[i].place, es[i].display) && !Elsewhere(n, cur[i], Root, es[i].interface)
    ensures forall x :: x in n.devs && x != cur[i] && n.devs[x].phy == Radio(b.net, ds, i) ==> n.devs[x].name != es[i].display
  {
    hide WF;
    forall x | x in n.devs && x != cur[i]
      ensures !Named(n, x, es[i].place, es[i].display) && !Named(n, x, Root, es[i].interface)
      ensures n.devs[x].phy == Radio(b.net, ds, i) ==> n.devs[x].name != es[i].display
    {
      NameHolder(b, es, ds, cur, up, n, i, x);
      if n.devs[x].phy == Radio(b.net, ds, i) {
        SiblingIs(b, es, ds, cur, up, n, i, x);
      }
    }
  }

  /** Entry `i` changes over: its netdev is replaced, and its radio goes to its new place. */
  function Changed(n: Net, d: Wdev, x: Wdev, p: Phy, to: Place, dev: Dev): Net { With(At(Minus(n, d), p, to), x, dev) }

  lemma PlacedOver(b: Net, es: seq<Entry>, ds: seq<Wdev>, up: set<nat>, n: Net, i: nat, now: set<nat>, d: Wdev, x: Wdev, dev: Dev)
    requires Fits(b, es, ds) && Placed(b, es, ds, up, n) && i < |es| && (now == up + {i} || now == up - {i})
    ensures Placed(b, es, ds, now, Changed(n, d, x, Radio(b, ds, i), Spot(es[i], i in now), dev))
  {
    var p := Radio(b, ds, i);
    var m := Changed(n, d, x, p, Spot(es[i], i in now), dev);
    assert Named(b, ds[i], Root, es[i].interface);
    forall j | 0 <= j < |es|
      ensures m.phys[Radio(b, ds, j)] == Spot(es[j], j in now)
    {
      if j != i {
        assert Radio(b, ds, j) != p;
      }
    }
  }

  lemma CursOver(b: Net, es: seq<Entry>, ds: seq<Wdev>, cur: seq<Wdev>, up: set<nat>, n: Net, i: nat, x: Wdev, now: set<nat>, to: Place, j: nat)
    requires Fits(b, es, ds) && Peopled(b, es, ds, cur, up, n) && i < |es| && (now == up + {i} || now == up - {i})
    requires x !in n.devs && j < |es| && (cur[j] == cur[i] ==> j == i)
    ensures var p := Radio(b, ds, i); var m := Changed(n, cur[i], x, p, to, Kind(es[i], p, i in now));
            cur[i := x][j] in m.devs && m.devs[cur[i := x][j]] == Kind(es[j], Radio(b, ds, j), j in now)
  {
  }

  lemma LeftOver(cur: seq<Wdev>, i: nat, x: Wdev, d: Wdev)
    requires i < |cur| && d !in cur[i := x] && d != cur[i]
    ensures d !in cur && d != x
  {
    var next := cur[i := x];
    assert next[i] == x;
    forall j | 0 <= j < |cur|
      ensures cur[j] != d
    {
      assert j != i ==> next[j] == cur[j];
    }
  }

  lemma PeopledOver(b: Net, es: seq<Entry>, ds: seq<Wdev>, cur: seq<Wdev>, up: set<nat>, n: Net, i: nat, x: Wdev, now: set<nat>, to: Place)
    requires Fits(b, es, ds) && Peopled(b, es, ds, cur, up, n) && i < |es| && (now == up + {i} || now == up - {i})
    requires x !in n.devs && (forall j :: 0 <= j < |es| && cur[j] == cur[i] ==> j == i) && (cur[i] in b.devs ==> cur[i] in ds)
    ensures var p := Radio(b, ds, i);
            Peopled(b, es, ds, cur[i := x], now, Changed(n, cur[i], x, p, to, Kind(es[i], p, i in now)))
  {
    FitsIn(b, es, ds);
    hide Fits, Named, Kind;
    var p := Radio(b, ds, i);
    var m := Changed(n, cur[i], x, p, to, Kind(es[i], p, i in now));
    var next := cur[i := x];
    forall j | 0 <= j < |es|
      ensures next[j] in m.devs && m.devs[next[j]] == Kind(es[j], Radio(b, ds, j), j in now)
    {
      CursOver(b, es, ds, cur, up, n, i, x, now, to, j);
    }
    forall d | d in m.devs && d !in next
      ensures d in b.devs && d !in ds && m.devs[d] == b.devs[d]
    {
      LeftOver(cur, i, x, d);
    }
    forall d | d in b.devs && d !in ds
      ensures d in m.devs && m.devs[d] == b.devs[d]
    {
    }
  }

  lemma FitsIn(b: Net, es: seq<Entry>, ds: seq<Wdev>)
    requires Fits(b, es, ds)
    ensures |ds| == |es| && forall j :: 0 <= j < |es| ==> ds[j] in b.devs && Named(b, ds[j], Root, es[j].interface)
  {
  }

  lemma ChangeOver(b: World, es: seq<Entry>, ds: seq<Wdev>, cur: seq<Wdev>, up: set<nat>, n: Net, i: nat, x: Wdev, now: set<nat>)
    requires WF(b) && Fits(b.net, es, ds) && Stands(b.net, es, ds, cur, up, n) && i < |es| && x !in n.devs
    requires now == up + {i} || now == up - {i}
    ensures var p := Radio(b.net, ds, i);
            Stands(b.net, es, ds, cur[i := x], now, Changed(n, cur[i], x, p, Spot(es[i], i in now), Kind(es[i], p, i in now)))
  {
    CurDistinct(b, es, ds, cur, up, n, i);
    hide WF, Placed, Peopled, Fits;
    var p := Radio(b.net, ds, i);
    PlacedOver(b.net, es, ds, up, n, i, now, cur[i], x, Kind(es[i], p, i in now));
    PeopledOver(b.net, es, ds, cur, up, n, i, x, now, Spot(es[i], i in now));
  }

  // ---------------------------------------------------------------- an entry goes up

  lemma SetUpSucceeds(w: World, e: Entry, live: Live, created: Option<Label>)
    requires w.verdicts == [] && live.phy in w.net.phys && w.net.phys[live.phy] == e.place
    ensures SetUp(w, e, live, created).1 == Done && SetUp(w, e, live, created).0.verdicts == []
  {
    hide Taken, Claim, Restored;
  }

  lemma MoveSucceeds(w: World, p: Phy, from: Place, to: Place)
    requires w.verdicts == [] && p in w.net.phys && w.net.phys[p] == from && (to.In? ==> to.space in w.spaces)
    ensures var (v, ok) := MovePhy(w, p, from, to);
            ok && v.verdicts == [] && p in v.net.phys && v.net.phys[p] == to && v.spaces == w.spaces
  {
  }

  lemma DeleteSucceeds(w: World, place: Place, name: Name)
    requires w.verdicts == []
    ensures var (v, ok) := DeleteDev(w, place, name); ok && v.verdicts == [] && v.net.phys == w.net.phys && v.spaces == w.spaces
  {
  }

  /** With every command succeeding, a preparation of a radio in root or in place is done. */
  lemma PrepareSucceeds(w: World, e: Entry, live: Live)
    requires w.verdicts == [] && live.phy in w.net.phys && w.net.phys[live.phy] == live.place && (live.place == Root || live.place == e.place)
    ensures Prepared(w, e, live).1 == Done && Prepared(w, e, live).0.verdicts == []
  {
    hide SetUp, MovePhy, DeleteDev, Restored;
    var s := if e.place.In? then e.place.space else 0;
    var w1 := if e.place.In? then SpaceReady(w, s).0 else w;
    DeleteSucceeds(w1, live.place, live.name);
    var (w2, ok2) := DeleteDev(w1, live.place, live.name);
    if e.place == live.place {
      SetUpSucceeds(w2, e, live, if e.place.In? then SpaceReady(w, s).2 else None);
    } else {
      MoveSucceeds(w2, live.phy, Root, e.place);
      SetUpSucceeds(MovePhy(w2, live.phy, Root, e.place).0, e, live, SpaceReady(w, s).2);
    }
  }

  /** What such a preparation leaves, when nobody's name is in the way. */
  lemma PreparedLayout(w: World, d: Wdev, e: Entry, live: Live)
    requires WF(w) && Plain(e) && (live.place == Root || live.place == e.place) && Backs(w, d, live) && Prepared(w, e, live).1 == Done
    requires Quiet(w.net, live.phy, d, e.place) && !Elsewhere(w.net, d, e.place, e.display) && !Sibling(w.net, d, live, e.display)
    ensures var (v, out) := Prepared(w, e, live);
            && WF(v) && v.used == w.used && v.busy == w.busy && v.nextWdev == w.nextWdev + 1
            && v.net == Changed(w.net, d, w.nextWdev, live.phy, e.place, Dev(e.display, live.phy, e.mode))
            && v.owned == w.owned[Key(e) := w.nextWdev]
            && (if e.place.In? then Readied(w, v, e.place.space) else SameSpaces(w, v))
  {
    var v := Prepared(w, e, live).0;
    hide WF, Prepared, Carried, Without, Quiet, Claim, Uniq, Elsewhere, Sibling, Readied, SameSpaces, OffRadio, Taken;
    PreparedWorks(w, d, e, live);
    PreparedLands(w, e, live);
    ClaimExactly(w, d, e, live);
    PreparedSpaces(w, e, live);
    WFUniq(w);
    ArrivedTaken(w.net, d, e, live);
    WithoutOne(w.net, d, live.place, live.name);
    if e.place != live.place {
      MinusMoved(w.net, live.phy, d, e.place);
    } else {
      assert At(Minus(w.net, d), live.phy, live.place) == Minus(w.net, d);
    }
  }

  lemma KeysDiffer(b: Net, es: seq<Entry>, ds: seq<Wdev>)
    requires Fits(b, es, ds)
    ensures forall i, j :: 0 <= i < |es| && 0 <= j < |es| && Key(es[i]) == Key(es[j]) ==> i == j
  {
  }

  lemma HeldMore(es: seq<Entry>, up: set<nat>, i: nat, s: Label)
    requires i < |es|
    ensures Held(es, up + {i}, s) <==> Held(es, up, s) || es[i].place == In(s)
  {
  }

  lemma SpaceBooksGo(b: World, es: seq<Entry>, up: set<nat>, w: World, v: World, i: nat)
    requires i < |es| && SpaceBooks(b, es, up, w) && NoTargets(b, es)
    requires if es[i].place.In? then Readied(w, v, es[i].place.space) else SameSpaces(w, v)
    ensures SpaceBooks(b, es, up + {i}, v)
  {
    forall s
      ensures Held(es, up + {i}, s) <==> Held(es, up, s) || es[i].place == In(s)
    {
      HeldMore(es, up, i, s);
    }
    hide Held;
  }

  lemma OwnedBooksGo(es: seq<Entry>, cur: seq<Wdev>, up: set<nat>, owned: map<(Place, Name), Wdev>, i: nat, x: Wdev)
    requires |cur| == |es| && i < |es| && OwnedBooks(es, cur, up, owned)
    requires forall i, j :: 0 <= i < |es| && 0 <= j < |es| && Key(es[i]) == Key(es[j]) ==> i == j
    ensures OwnedBooks(es, cur[i := x], up + {i}, owned[Key(es[i]) := x])
  {
    var o := owned[Key(es[i]) := x];
    forall k | k in o
      ensures exists j :: 0 <= j < |es| && j in up + {i} && k == Key(es[j])
    {
      if k == Key(es[i]) {
        assert i in up + {i};
      } else {
        var j :| 0 <= j < |es| && j in up && k == Key(es[j]);
        assert j in up + {i};
      }
    }
  }

  lemma BooksGo(b: World, es: seq<Entry>, ds: seq<Wdev>, cur: seq<Wdev>, up: set<nat>, w: World, v: World, i: nat, x: Wdev)
    requires Fits(b.net, es, ds) && NoTargets(b, es) && i < |es| && Books(b, es, cur, up, w) && v.owned == w.owned[Key(es[i]) := x]
    requires if es[i].place.In? then Readied(w, v, es[i].place.space) else SameSpaces(w, v)
    ensures Books(b, es, cur[i := x], up + {i}, v)
  {
    KeysDiffer(b.net, es, ds);
    hide Fits, SpaceBooks, OwnedBooks, NoTargets, Readied, SameSpaces;
    SpaceBooksGo(b, es, up, w, v, i);
    OwnedBooksGo(es, cur, up, w.owned, i, x);
  }

  lemma ActivatedIs(w: World, e: Entry, d: Wdev)
    requires Swept(w) == w && FindLive(w, e) == Some(d) && !InUse(w, d)
    requires Prepared(w, e, LiveOf(w, d)).1 == Done && Prepared(w, e, LiveOf(w, d)).0.verdicts == []
    ensures Activated(w, e) == (Prepared(w, e, LiveOf(w, d)).0, Up)
  {
    hide Prepared, Swept, FindLive, InUse;
  }

  // ---------------------------------------------------------------- an entry goes up

  /** The netdev of an entry as a lookup finds it. */
  function LiveNow(e: Entry, p: Phy, isUp: bool): Live {
    var k := Kind(e, p, isUp); Live(k.name, p, Spot(e, isUp), k.mode)
  }

  lemma CurLive(b: World, es: seq<Entry>, ds: seq<Wdev>, cur: seq<Wdev>, up: set<nat>, w: World, i: nat)
    requires Ready(b, es, ds) && Match(b, es, ds, cur, up, w) && i < |es|
    ensures |cur| == |es| && cur[i] in w.net.devs && w.net.devs[cur[i]].phy in w.net.phys && !InUse(w, cur[i]) && Plain(es[i])
    ensures LiveOf(w, cur[i]) == LiveNow(es[i], Radio(b.net, ds, i), i in up) && Backs(w, cur[i], LiveOf(w, cur[i]))
  {
    CurIs(b.net, es, ds, cur, up, w.net, i);
    hide WF, Stands, Books;
  }

  lemma GoesUpTo(b: World, es: seq<Entry>, ds: seq<Wdev>, cur: seq<Wdev>, up: set<nat>, w: World, i: nat, d: Wdev, live: Live)
    requires Ready(b, es, ds) && Match(b, es, ds, cur, up, w) && i < |es| && d == cur[i] && d in w.net.devs && Plain(es[i])
    requires live == LiveNow(es[i], Radio(b.net, ds, i), i in up) && Backs(w, d, live) && Prepared(w, es[i], live).1 == Done
    ensures var (v, out) := Prepared(w, es[i], live); var e := es[i];
            && WF(v) && v.used == w.used && v.busy == w.busy && v.nextWdev == w.nextWdev + 1
            && v.net == Changed(w.net, d, w.nextWdev, live.phy, e.place, Dev(e.display, live.phy, e.mode))
            && v.owned == w.owned[Key(e) := w.nextWdev]
            && (if e.place.In? then Readied(w, v, e.place.space) else SameSpaces(w, v))
  {
    hide WF, Plain, Stands, Prepared, Quiet, Elsewhere, Sibling, Readied, Changed, SameSpaces, Books, NoTargets, Fits;
    QuietTravel(b, es, ds, cur, up, w.net, i, es[i].place);
    FreeNames(b, es, ds, cur, up, w.net, i);
    NoSibling(w.net, d, live, es[i].display);
    PreparedLayout(w, d, es[i], live);
  }

  lemma NextIsNew(w: World)
    requires WF(w)
    ensures w.nextWdev !in w.net.devs
  {
  }

  lemma AgedUp(b: World, es: seq<Entry>, ds: seq<Wdev>, cur: seq<Wdev>, w: World, i: nat, v: World)
    requires Aged(b, es, ds, cur, w) && i < |es| && v.nextWdev >= w.nextWdev
    ensures Aged(b, es, ds, cur[i := w.nextWdev], v)
  {
  }

  lemma MatchUp(b: World, es: seq<Entry>, ds: seq<Wdev>, cur: seq<Wdev>, up: set<nat>, w: World, i: nat, v: World)
    requires Ready(b, es, ds) && Match(b, es, ds, cur, up, w) && i < |es|
    requires WF(v) && v.used == w.used && v.busy == w.busy && v.nextWdev == w.nextWdev + 1
    requires var p := Radio(b.net, ds, i); var e := es[i];
             v.net == Changed(w.net, cur[i], w.nextWdev, p, e.place, Dev(e.display, p, e.mode))
    requires v.owned == w.owned[Key(es[i]) := w.nextWdev]
    requires if es[i].place.In? then Readied(w, v, es[i].place.space) else SameSpaces(w, v)
    ensures Match(b, es, ds, cur[i := w.nextWdev], up + {i}, v)
  {
    hide Aged, WF, Stands, Readied, SameSpaces, Books, Fits, NoTargets, Changed;
    NextIsNew(w);
    AgedUp(b, es, ds, cur, w, i, v);
    ChangeOver(b, es, ds, cur, up, w.net, i, w.nextWdev, up + {i});
    BooksGo(b, es, ds, cur, up, w, v, i, w.nextWdev);
  }

  /** A preparation that is done brings exactly its entry up. */
  lemma PreparedUp(b: World, es: seq<Entry>, ds: seq<Wdev>, cur: seq<Wdev>, up: set<nat>, w: World, i: nat, live: Live)
    requires Ready(b, es, ds) && Match(b, es, ds, cur, up, w) && i < |es|
    requires live == LiveNow(es[i], Radio(b.net, ds, i), i in up) && Prepared(w, es[i], live).1 == Done
    ensures i < |cur| && Match(b, es, ds, cur[i := w.nextWdev], up + {i}, Prepared(w, es[i], live).0)
  {
    CurLive(b, es, ds, cur, up, w, i);
    hide Match, Ready, WF, Plain, Prepared, Readied, SameSpaces, InUse, Fits, Changed;
    GoesUpTo(b, es, ds, cur, up, w, i, cur[i], live);
    MatchUp(b, es, ds, cur, up, w, i, Prepared(w, es[i], live).0);
  }

  /** With every command succeeding, activating an entry leaves exactly that entry up besides the others. */
  lemma GoesUp(b: World, es: seq<Entry>, ds: seq<Wdev>, cur: seq<Wdev>, up: set<nat>, w: World, i: nat)
    requires Ready(b, es, ds) && Match(b, es, ds, cur, up, w) && i < |es| && w.verdicts == []
    ensures i < |cur| && Activated(w, es[i]).1 == Up && Activated(w, es[i]).0.verdicts == []
    ensures Match(b, es, ds, cur[i := w.nextWdev], up + {i}, Activated(w, es[i]).0)
  {
    CurLive(b, es, ds, cur, up, w, i);
    FindsCur(b, es, ds, cur, up, w, i);
    hide Match, Ready, WF, Plain, FindLive, Prepared, Activated, InUse, Swept, Fits;
    var live := LiveOf(w, cur[i]);
    PrepareSucceeds(w, es[i], live);
    PreparedUp(b, es, ds, cur, up, w, i, live);
    ActivatedIs(w, es[i], cur[i]);
  }

  lemma NoSibling(n: Net, d: Wdev, live: Live, k: Name)
    requires forall x :: x in n.devs && x != d && n.devs[x].phy == live.phy ==> n.devs[x].name != k
    ensures !Sibling(n, d, live, k)
  {
  }

  // ---------------------------------------------------------------- an entry goes down

  /** With every command succeeding, the netdev is replaced by a managed `name` in root, and its record is gone. */
  lemma RecreateLayout(w: World, d: Wdev, live: Live, name: Name)
    requires WF(w) && w.verdicts == [] && name.Given? && Backs(w, d, live)
    requires Quiet(w.net, live.phy, d, Root) && !Elsewhere(w.net, d, Root, name) && !Sibling(w.net, d, live, name)
    ensures var (u, out) := RecreateInRoot(w, live, name);
            && out == Done && WF(u)
            && u == Released(w, live.place, live.name).(
                      net := Changed(w.net, d, w.nextWdev, live.phy, Root, Dev(name, live.phy, Managed)),
                      nextWdev := w.nextWdev + 1, made := w.made + {w.nextWdev})
  {
    hide WF, Uniq, Carried, Without, Quiet, Restored, OffRadio, Elsewhere, Sibling, Taken;
    RecreateWorks(w, live, name);
    WFUniq(w);
    WithoutOne(w.net, d, live.place, live.name);
    var p := live.phy;
    assert live.place == Root ==> At(Minus(w.net, d), p, Root) == Minus(w.net, d);
    var w1 := Released(w, live.place, live.name).(net := Minus(w.net, d));
    if live.place.In? {
      AllMoves(w1, p, live.place, Root);
      MinusMoved(w.net, p, d, Root);
    }
    FreeInRoot(w.net, d, live, name);
  }

  lemma FreeInRoot(n: Net, d: Wdev, live: Live, name: Name)
    requires !Elsewhere(n, d, Root, name) && !Sibling(n, d, live, name)
    ensures !Taken(At(Minus(n, d), live.phy, Root), Root, name)
  {
    var m := At(Minus(n, d), live.phy, Root);
    forall x | x in m.devs
      ensures !Named(m, x, Root, name)
    {
      assert x in n.devs && x != d;
      assert n.devs[x].phy != live.phy ==> (Named(m, x, Root, name) <==> Named(n, x, Root, name));
    }
  }

  lemma UpRecords(b: World, es: seq<Entry>, ds: seq<Wdev>, cur: seq<Wdev>, up: set<nat>, w: World, i: nat)
    requires Ready(b, es, ds) && Match(b, es, ds, cur, up, w) && i < |es| && i in up
    ensures es[i].place.In? ==> IsCore(w, es[i].place.space)
    ensures |cur| == |es| && Key(es[i]) in w.owned && w.owned[Key(es[i])] == cur[i]
  {
    if es[i].place.In? {
      assert Held(es, up, es[i].place.space);
    }
    hide WF, Stands;
  }

  /** The siblings of an entry's netdev do not have its interface name. */
  lemma NoSiblingInterface(b: World, es: seq<Entry>, ds: seq<Wdev>, cur: seq<Wdev>, up: set<nat>, n: Net, i: nat)
    requires WF(b) && Fits(b.net, es, ds) && Stands(b.net, es, ds, cur, up, n) && i < |es|
    ensures forall x :: x in n.devs && x != cur[i] && n.devs[x].phy == Radio(b.net, ds, i) ==> n.devs[x].name != es[i].interface
  {
    WFUniq(b);
    hide WF, Uniq, Stands, Fits;
    StandsPhys(b.net, es, ds, cur, up, n);
    forall x | x in n.devs && x != cur[i] && n.devs[x].phy == Radio(b.net, ds, i)
      ensures n.devs[x].name != es[i].interface
    {
      SiblingIs(b, es, ds, cur, up, n, i, x);
      BystanderName(b.net, es, ds, x, i);
    }
  }

  lemma OwnedBooksDown(es: seq<Entry>, cur: seq<Wdev>, up: set<nat>, owned: map<(Place, Name), Wdev>, i: nat, x: Wdev)
    requires |cur| == |es| && i < |es| && OwnedBooks(es, cur, up, owned)
    requires forall i, j :: 0 <= i < |es| && 0 <= j < |es| && Key(es[i]) == Key(es[j]) ==> i == j
    ensures OwnedBooks(es, cur[i := x], up - {i}, owned - {Key(es[i])})
  {
    var o := owned - {Key(es[i])};
    forall k | k in o
      ensures exists j :: 0 <= j < |es| && j in up - {i} && k == Key(es[j])
    {
      var j :| 0 <= j < |es| && j in up && k == Key(es[j]);
      assert j in up - {i};
    }
  }

  lemma HeldLess(es: seq<Entry>, up: set<nat>, i: nat, s: Label)
    requires i < |es| && i in up
    ensures Held(es, up, s) <==> Held(es, up - {i}, s) || es[i].place == In(s)
  {
    assert up == (up - {i}) + {i};
    HeldMore(es, up - {i}, i, s);
  }

  lemma OldHouse(b: World, p: Phy, s: Label)
    requires WF(b) && p in b.net.phys && b.net.phys[p] == In(s)
    ensures s in b.spaces
  {
  }

  lemma RadioThere(b: Net, es: seq<Entry>, ds: seq<Wdev>, up: set<nat>, n: Net, s: Label)
    requires Fits(b, es, ds) && Placed(b, es, ds, up, n) && Held(es, up, s)
    ensures exists p :: p in n.phys && n.phys[p] == In(s)
  {
    var i :| 0 <= i < |es| && i in up && es[i].place == In(s);
    assert Named(b, ds[i], Root, es[i].interface);
    assert n.phys[Radio(b, ds, i)] == In(s);
  }

  lemma ThereByRadio(b: World, es: seq<Entry>, ds: seq<Wdev>, up: set<nat>, n: Net, s: Label, p: Phy)
    requires WF(b) && Fits(b.net, es, ds) && Placed(b.net, es, ds, up, n) && s !in b.spaces && p in n.phys && n.phys[p] == In(s)
    ensures Held(es, up, s)
  {
    hide WF;
    if i :| 0 <= i < |es| && Radio(b.net, ds, i) == p {
      assert Spot(es[i], i in up) == In(s);
    } else {
      OldHouse(b, p, s);
      assert false;
    }
  }

  /** A namespace of the profile holds a radio exactly while some entry in it is up. */
  lemma LinksAreHeld(b: World, es: seq<Entry>, ds: seq<Wdev>, cur: seq<Wdev>, up: set<nat>, w: World, s: Label)
    requires WF(b) && Fits(b.net, es, ds) && Stands(b.net, es, ds, cur, up, w.net) && s !in b.spaces && s !in w.busy
    ensures HoldsLinks(w, s) <==> Held(es, up, s)
  {
    hide WF, Fits, Placed, Peopled, Held;
    if Held(es, up, s) {
      RadioThere(b.net, es, ds, up, w.net, s);
    }
    if p :| p in w.net.phys && w.net.phys[p] == In(s) {
      ThereByRadio(b, es, ds, up, w.net, s, p);
    }
  }

  lemma SpaceBooksDown(b: World, es: seq<Entry>, up: set<nat>, w: World, u: World, i: nat, s: Label)
    requires i < |es| && i in up && es[i].place == In(s) && s !in b.spaces
    requires SpaceBooks(b, es, up, w) && SameSpaces(w, u) && u.verdicts == [] && (HoldsLinks(u, s) <==> Held(es, up - {i}, s))
    ensures SpaceBooks(b, es, up - {i}, DropSpaceIfEmpty(u, s))
  {
    forall t
      ensures Held(es, up, t) <==> Held(es, up - {i}, t) || t == s
    {
      HeldLess(es, up, i, t);
    }
    hide Held, HoldsLinks;
  }

  lemma SpaceBooksRoot(b: World, es: seq<Entry>, up: set<nat>, w: World, u: World, i: nat)
    requires i < |es| && i in up && es[i].place == Root && SpaceBooks(b, es, up, w) && SameSpaces(w, u)
    ensures SpaceBooks(b, es, up - {i}, u)
  {
    forall t
      ensures Held(es, up, t) <==> Held(es, up - {i}, t)
    {
      HeldLess(es, up, i, t);
    }
    hide Held;
  }

  /** What taking an entry down leaves, once its netdev is replaced in root. */
  lemma MatchDown(b: World, es: seq<Entry>, ds: seq<Wdev>, cur: seq<Wdev>, up: set<nat>, w: World, i: nat, x: Wdev, v: World)
    requires Ready(b, es, ds) && Match(b, es, ds, cur, up, w) && i < |es| && i in up
    requires WF(v) && v.used == w.used && v.busy == w.busy && v.nextWdev >= w.nextWdev
    requires v.owned == w.owned - {Key(es[i])} && SpaceBooks(b, es, up - {i}, v)
    requires (x == w.nextWdev && Stands(b.net, es, ds, cur[i := x], up - {i}, v.net)) ||
             (x == cur[i] && Stands(b.net, es, ds, cur, up - {i}, v.net))
    ensures Match(b, es, ds, cur[i := x], up - {i}, v)
  {
    hide Aged, WF, Stands, SpaceBooks, OwnedBooks, Fits, NoTargets;
    KeysDiffer(b.net, es, ds);
    AgedDown(b, es, ds, cur, w, i, x, v);
    OwnedBooksDown(es, cur, up, w.owned, i, x);
    assert x == cur[i] ==> cur[i := x] == cur;
  }

  lemma AgedDown(b: World, es: seq<Entry>, ds: seq<Wdev>, cur: seq<Wdev>, w: World, i: nat, x: Wdev, v: World)
    requires Aged(b, es, ds, cur, w) && i < |es| && v.nextWdev >= w.nextWdev && (x == w.nextWdev || x == cur[i])
    ensures Aged(b, es, ds, cur[i := x], v)
  {
  }

  lemma RevertedCore(w: World, e: Entry, d: Wdev, live: Live, u: World)
    requires Swept(w) == w && FindLive(w, e) == Some(d) && live == LiveOf(w, d) && live.place.In? && IsCore(w, live.place.space)
    requires RecreateInRoot(w, live, e.interface) == (u, Done) && u.spaces == w.spaces && u.markers == w.markers
    ensures Reverted(w, e) == (DropSpaceIfEmpty(u, live.place.space), Done) && Deactivated(w, e) == Reverted(w, e)
  {
    hide Swept, FindLive, RecreateInRoot, DropSpaceIfEmpty;
  }

  lemma RevertedRoot(w: World, e: Entry, d: Wdev, live: Live)
    requires Swept(w) == w && FindLive(w, e) == Some(d) && live == LiveOf(w, d) && live.place == Root && !InUse(w, d)
    requires (Root, live.name) in w.owned && w.owned[(Root, live.name)] == d
    ensures Deactivated(w, e) == Reverted(w, e)
    ensures Reverted(w, e) ==
            if live.name != e.interface || live.mode != Managed then RecreateInRoot(w, live, e.interface)
            else (Released(Ask(w).0, Root, live.name), Done)
  {
    assert IsOwned(w, d) by { assert (Root, live.name) in w.owned; }
    assert RecordOf(w, d) == (Root, live.name);
    assert (w.owned - {(Root, live.name)})[(Root, live.name) := d] == w.owned;
    assert Rekeyed(w, d) == w;
    hide Swept, FindLive, RecreateInRoot, Rekeyed, InUse, IsOwned;
  }

  lemma RecreatedUp(b: World, es: seq<Entry>, ds: seq<Wdev>, cur: seq<Wdev>, up: set<nat>, w: World, i: nat, d: Wdev, live: Live)
    requires Ready(b, es, ds) && Match(b, es, ds, cur, up, w) && i < |es| && w.verdicts == [] && i in up && d == cur[i] && Plain(es[i])
    requires live == Live(es[i].display, Radio(b.net, ds, i), es[i].place, es[i].mode) && Backs(w, d, live)
    ensures var (u, out) := RecreateInRoot(w, live, es[i].interface);
            && out == Done && WF(u) && SameSpaces(w, u) && u.verdicts == [] && u.used == w.used && u.busy == w.busy
            && u.owned == w.owned - {Key(es[i])} && u.nextWdev == w.nextWdev + 1
            && Stands(b.net, es, ds, cur[i := w.nextWdev], up - {i}, u.net)
  {
    hide WF, Stands, Quiet, Elsewhere, Sibling, Changed, Books, NoTargets, Fits, RecreateInRoot;
    QuietTravel(b, es, ds, cur, up, w.net, i, Root);
    FreeNames(b, es, ds, cur, up, w.net, i);
    NoSiblingInterface(b, es, ds, cur, up, w.net, i);
    NoSibling(w.net, d, live, es[i].interface);
    RecreateLayout(w, d, live, es[i].interface);
    NextIsNew(w);
    ChangeOver(b, es, ds, cur, up, w.net, i, w.nextWdev, up - {i});
  }

  lemma SpaceDown(b: World, es: seq<Entry>, ds: seq<Wdev>, cur: seq<Wdev>, up: set<nat>, w: World, i: nat, s: Label, u: World)
    requires Ready(b, es, ds) && Match(b, es, ds, cur, up, w) && i < |es| && i in up && es[i].place == In(s)
    requires WF(u) && SameSpaces(w, u) && u.verdicts == [] && u.used == w.used && u.busy == w.busy
    requires u.owned == w.owned - {Key(es[i])} && u.nextWdev == w.nextWdev + 1
    requires Stands(b.net, es, ds, cur[i := w.nextWdev], up - {i}, u.net)
    ensures Match(b, es, ds, cur[i := w.nextWdev], up - {i}, DropSpaceIfEmpty(u, s))
  {
    assert s !in b.spaces && s !in b.busy;
    hide WF, Stands, SpaceBooks, OwnedBooks, Fits, NoTargets, Aged, HoldsLinks, Held;
    LinksAreHeld(b, es, ds, cur[i := w.nextWdev], up - {i}, u, s);
    SpaceBooksDown(b, es, up, w, u, i, s);
    DropWorks(u, s);
    DropAsks(u, s);
    MatchDown(b, es, ds, cur, up, w, i, w.nextWdev, DropSpaceIfEmpty(u, s));
  }

  lemma DropAsks(u: World, s: Label)
    requires u.verdicts == []
    ensures DropSpaceIfEmpty(u, s).verdicts == []
  {
  }

  predicate Indifferent(e: Entry) { e.place == Root && e.display == e.interface && e.mode == Managed }

  lemma KeptPlaced(b: Net, es: seq<Entry>, ds: seq<Wdev>, up: set<nat>, n: Net, i: nat)
    requires Fits(b, es, ds) && Placed(b, es, ds, up, n) && i < |es| && Indifferent(es[i])
    ensures Placed(b, es, ds, up - {i}, n)
  {
    forall j | 0 <= j < |es|
      ensures Spot(es[j], j in up) == Spot(es[j], j in up - {i})
    {
    }
  }

  lemma KeptPeopled(b: Net, es: seq<Entry>, ds: seq<Wdev>, cur: seq<Wdev>, up: set<nat>, n: Net, i: nat)
    requires Fits(b, es, ds) && Peopled(b, es, ds, cur, up, n) && i < |es| && Indifferent(es[i])
    ensures Peopled(b, es, ds, cur, up - {i}, n)
  {
    FitsIn(b, es, ds);
    hide Fits;
    forall j | 0 <= j < |es|
      ensures Kind(es[j], Radio(b, ds, j), j in up) == Kind(es[j], Radio(b, ds, j), j in up - {i})
    {
    }
    hide Kind;
  }

  /** In root a managed netdev under the interface name is only taken down: it is already what it was before. */
  lemma KeptDown(b: World, es: seq<Entry>, ds: seq<Wdev>, cur: seq<Wdev>, up: set<nat>, w: World, i: nat)
    requires Ready(b, es, ds) && Match(b, es, ds, cur, up, w) && i < |es| && i in up && Indifferent(es[i])
    ensures Stands(b.net, es, ds, cur, up - {i}, w.net)
  {
    hide WF, Books, Aged, Fits, Placed, Peopled;
    KeptPlaced(b.net, es, ds, up, w.net, i);
    KeptPeopled(b.net, es, ds, cur, up, w.net, i);
  }

  /** Deactivating an entry that is up, or reverting it, takes exactly that entry down. */
  lemma GoesDown(b: World, es: seq<Entry>, ds: seq<Wdev>, cur: seq<Wdev>, up: set<nat>, w: World, i: nat) returns (x: Wdev)
    requires Ready(b, es, ds) && Match(b, es, ds, cur, up, w) && i < |es| && w.verdicts == [] && i in up
    ensures i < |cur| && Deactivated(w, es[i]).1 == Done && Deactivated(w, es[i]).0.verdicts == []
    ensures Match(b, es, ds, cur[i := x], up - {i}, Deactivated(w, es[i]).0) && Reverted(w, es[i]) == Deactivated(w, es[i])
  {
    var e := es[i];
    CurLive(b, es, ds, cur, up, w, i);
    UpRecords(b, es, ds, cur, up, w, i);
    var d := cur[i];
    FindsCur(b, es, ds, cur, up, w, i);
    hide Match, Ready, WF, Plain, FindLive, Deactivated, Reverted, InUse, Swept, Fits, RecreateInRoot, DropSpaceIfEmpty, IsCore, Stands, SpaceBooks;
    var live := LiveOf(w, d);
    RecreatedUp(b, es, ds, cur, up, w, i, d, live);
    var u := RecreateInRoot(w, live, e.interface).0;
    x := w.nextWdev;
    if e.place.In? {
      RevertedCore(w, e, d, live, u);
      SpaceDown(b, es, ds, cur, up, w, i, e.place.space, u);
      DropAsks(u, e.place.space);
    } else {
      RevertedRoot(w, e, d, live);
      if live.name != e.interface || live.mode != Managed {
        RootDown(b, es, ds, cur, up, w, i, x, u);
      } else {
        x := d;
        KeptDown(b, es, ds, cur, up, w, i);
        ReleasedSame(w, live.name);
        RootDown(b, es, ds, cur, up, w, i, x, Released(Ask(w).0, Root, live.name));
      }
    }
  }

  lemma ReleasedSame(w: World, name: Name)
    requires WF(w)
    ensures var v := Released(Ask(w).0, Root, name);
            WF(v) && v == w.(owned := w.owned - {(Root, name)}, verdicts := v.verdicts) && (w.verdicts == [] ==> v.verdicts == [])
  {
    hide Uniq, Known, Picks, Housed;
  }

  lemma RootDown(b: World, es: seq<Entry>, ds: seq<Wdev>, cur: seq<Wdev>, up: set<nat>, w: World, i: nat, x: Wdev, u: World)
    requires Ready(b, es, ds) && Match(b, es, ds, cur, up, w) && i < |es| && i in up && es[i].place == Root
    requires WF(u) && SameSpaces(w, u) && u.used == w.used && u.busy == w.busy
    requires u.owned == w.owned - {Key(es[i])} && u.nextWdev >= w.nextWdev
    requires (x == w.nextWdev && Stands(b.net, es, ds, cur[i := x], up - {i}, u.net)) ||
             (x == cur[i] && Stands(b.net, es, ds, cur, up - {i}, u.net))
    ensures Match(b, es, ds, cur[i := x], up - {i}, u)
  {
    hide WF, Stands, SpaceBooks, OwnedBooks, Fits, NoTargets, Aged;
    SpaceBooksRoot(b, es, up, w, u, i);
    MatchDown(b, es, ds, cur, up, w, i, x, u);
  }

  /** Deactivating an entry that is down changes nothing: its netdev is not Core's. */
  lemma StaysDown(b: World, es: seq<Entry>, ds: seq<Wdev>, cur: seq<Wdev>, up: set<nat>, w: World, i: nat)
    requires Ready(b, es, ds) && Match(b, es, ds, cur, up, w) && i < |es| && i !in up
    ensures Deactivated(w, es[i]) == (w, Done)
  {
    CurLive(b, es, ds, cur, up, w, i);
    FindsCur(b, es, ds, cur, up, w, i);
    CurDistinct(b, es, ds, cur, up, w.net, i);
    hide WF, FindLive, Swept, Fits, Stands, InUse, Reverted, Rekeyed, SpaceBooks;
    forall k | k in w.owned
      ensures w.owned[k] != cur[i]
    {
      var j :| 0 <= j < |es| && j in up && k == Key(es[j]);
    }
  }

  // ---------------------------------------------------------------- any sequence

  datatype Move = Bring(i: nat) | Take(i: nat)

  ghost function Played(w: World, es: seq<Entry>, moves: seq<Move>): World
    requires forall m :: m in moves ==> m.i < |es|
    decreases |moves|
  {
    if moves == [] then w
    else
      var v := Played(w, es, moves[..|moves| - 1]);
      match moves[|moves| - 1]
      case Bring(i) => Activated(v, es[i]).0
      case Take(i) => Deactivated(v, es[i]).0
  }

  function UpAfter(moves: seq<Move>): set<nat>
    decreases |moves|
  {
    if moves == [] then {}
    else
      var up := UpAfter(moves[..|moves| - 1]);
      match moves[|moves| - 1]
      case Bring(i) => up + {i}
      case Take(i) => up - {i}
  }

  lemma StartsMatched(b: World, es: seq<Entry>, ds: seq<Wdev>)
    requires Ready(b, es, ds)
    ensures Match(b, es, ds, ds, {}, b)
  {
    hide Uniq, Picks, Housed, Distinct, Recorded;
  }

  /** Whatever was activated and deactivated before, in any order, the state is the one of the entries now up. */
  lemma {:induction false} AnyOrder(b: World, es: seq<Entry>, ds: seq<Wdev>, moves: seq<Move>) returns (cur: seq<Wdev>)
    requires Ready(b, es, ds) && b.verdicts == [] && forall m :: m in moves ==> m.i < |es|
    ensures Match(b, es, ds, cur, UpAfter(moves), Played(b, es, moves)) && Played(b, es, moves).verdicts == []
    decreases |moves|
  {
    hide Ready, Match, Activated, Deactivated, Fits;
    if moves == [] {
      cur := ds;
      StartsMatched(b, es, ds);
    } else {
      var before := moves[..|moves| - 1];
      cur := AnyOrder(b, es, ds, before);
      var v := Played(b, es, before);
      var m := moves[|moves| - 1];
      var up := UpAfter(before);
      match m {
        case Bring(i) =>
          GoesUp(b, es, ds, cur, up, v, i);
          cur := cur[i := v.nextWdev];
        case Take(i) =>
          if i in up {
            var x := GoesDown(b, es, ds, cur, up, v, i);
            cur := cur[i := x];
          } else {
            StaysDown(b, es, ds, cur, up, v, i);
            assert up - {i} == up;
          }
      }
    }
  }

  /** The netdevs there should be, identifiers left out. */
  ghost function Wanted(b: Net, es: seq<Entry>, ds: seq<Wdev>, up: set<nat>): set<Dev>
    requires Fits(b, es, ds)
  {
    (set i | 0 <= i < |es| :: Kind(es[i], Radio(b, ds, i), i in up)) + (set d | d in b.devs && d !in ds :: b.devs[d])
  }

  lemma StandsWanted(b: Net, es: seq<Entry>, ds: seq<Wdev>, cur: seq<Wdev>, up: set<nat>, n: Net)
    requires Fits(b, es, ds) && Stands(b, es, ds, cur, up, n)
    ensures Kinds(n) == Wanted(b, es, ds, up)
  {
    FitsIn(b, es, ds);
    hide Fits, Placed, Kind;
    forall k | k in Kinds(n)
      ensures k in Wanted(b, es, ds, up)
    {
      var d :| d in n.devs && n.devs[d] == k;
      if d in cur {
        var i :| 0 <= i < |cur| && cur[i] == d;
        assert k == Kind(es[i], Radio(b, ds, i), i in up);
      }
    }
    forall k | k in Wanted(b, es, ds, up)
      ensures k in Kinds(n)
    {
      if i :| 0 <= i < |es| && k == Kind(es[i], Radio(b, ds, i), i in up) {
        assert cur[i] in n.devs && n.devs[cur[i]] == k;
      } else {
        var d :| d in b.devs && d !in ds && b.devs[d] == k;
        assert d in n.devs && n.devs[d] == k;
      }
    }
  }

  lemma SamePlaces(b: Net, es: seq<Entry>, ds: seq<Wdev>, up: set<nat>, n: Net, m: Net)
    requires Fits(b, es, ds) && Placed(b, es, ds, up, n) && Placed(b, es, ds, up, m)
    ensures n.phys == m.phys
  {
    forall p | p in n.phys
      ensures m.phys[p] == n.phys[p]
    {
      if i :| 0 <= i < |es| && Radio(b, ds, i) == p {
        assert n.phys[p] == Spot(es[i], i in up);
      }
    }
  }

  /** What every history leaves, in terms of the entries that are up. */
  lemma Outcome(b: World, es: seq<Entry>, ds: seq<Wdev>, moves: seq<Move>) returns (cur: seq<Wdev>)
    requires Ready(b, es, ds) && b.verdicts == [] && forall m :: m in moves ==> m.i < |es|
    ensures var v, up := Played(b, es, moves), UpAfter(moves);
            && Placed(b.net, es, ds, up, v.net) && Kinds(v.net) == Wanted(b.net, es, ds, up)
            && SpaceBooks(b, es, up, v) && |cur| == |es| && OwnedBooks(es, cur, up, v.owned)
  {
    hide WF, Fits, Placed, Peopled, Played, SpaceBooks, OwnedBooks, Aged, Wanted, Kinds;
    cur := AnyOrder(b, es, ds, moves);
    StandsWanted(b.net, es, ds, cur, UpAfter(moves), Played(b, es, moves).net);
  }

  /** Only which entries are up matters: two histories that agree on it end in the same layout, namespaces and records. */
  lemma OnlyUpMatters(b: World, es: seq<Entry>, ds: seq<Wdev>, xs: seq<Move>, ys: seq<Move>)
    requires Ready(b, es, ds) && b.verdicts == [] && (forall m :: m in xs ==> m.i < |es|) && (forall m :: m in ys ==> m.i < |es|)
    requires UpAfter(xs) == UpAfter(ys)
    ensures var v, u := Played(b, es, xs), Played(b, es, ys);
            && Shown(v.net) == Shown(u.net) && v.spaces.Keys == u.spaces.Keys
            && v.markers.Keys == u.markers.Keys && v.owned.Keys == u.owned.Keys
  {
    hide WF, Fits, Placed, Played, Held, Wanted, Kinds, OwnedBooks, NoTargets;
    var up := UpAfter(xs);
    var cx := Outcome(b, es, ds, xs);
    var cy := Outcome(b, es, ds, ys);
    var v, u := Played(b, es, xs), Played(b, es, ys);
    SamePlaces(b.net, es, ds, up, v.net, u.net);
    SameOwned(es, cx, cy, up, v.owned, u.owned);
    assert v.spaces.Keys == u.spaces.Keys;
  }

  lemma SameOwned(es: seq<Entry>, cx: seq<Wdev>, cy: seq<Wdev>, up: set<nat>, o: map<(Place, Name), Wdev>, q: map<(Place, Name), Wdev>)
    requires |cx| == |es| == |cy| && OwnedBooks(es, cx, up, o) && OwnedBooks(es, cy, up, q)
    ensures o.Keys == q.Keys
  {
    forall k
      ensures k in o <==> k in q
    {
    }
  }

  /**
   Activate then deactivate is the identity: once every entry that was activated is deactivated again, in any
   order, every radio is where it was, with the same netdevs, and neither namespaces nor records are left.
   */
  lemma BackToBase(b: World, es: seq<Entry>, ds: seq<Wdev>, moves: seq<Move>)
    requires Ready(b, es, ds) && b.verdicts == [] && (forall m :: m in moves ==> m.i < |es|) && UpAfter(moves) == {}
    ensures var v := Played(b, es, moves);
            Shown(v.net) == Shown(b.net) && v.spaces == b.spaces && v.markers == map[] && v.owned == map[]
  {
    OnlyUpMatters(b, es, ds, moves, []);
    hide WF, Fits, Placed, Played, Wanted, Kinds, NoTargets;
    var cur := Outcome(b, es, ds, moves);
    var v := Played(b, es, moves);
    assert forall s :: !Held(es, {}, s);
    assert v.spaces == b.spaces;
  }

  /** While it lasts, a namespace of the profile exists exactly as long as some entry in it is up. */
  lemma SharedNamespace(b: World, es: seq<Entry>, ds: seq<Wdev>, moves: seq<Move>, s: Label)
    requires Ready(b, es, ds) && b.verdicts == [] && (forall m :: m in moves ==> m.i < |es|) && s !in b.spaces
    ensures s in Played(b, es, moves).spaces <==> Held(es, UpAfter(moves), s)
    ensures IsCore(Played(b, es, moves), s) <==> Held(es, UpAfter(moves), s)
  {
    hide WF, Fits, Placed, Played, Held, Wanted, Kinds, OwnedBooks, NoTargets;
    var cur := Outcome(b, es, ds, moves);
  }
}
