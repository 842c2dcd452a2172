/**
 Radios, netdevs and network namespaces, and what the namespace service does to
 them for one profile entry: find the live netdev, prepare, restore, revert.
 */
module Netns {
  import opened Bytes

  type Phy = nat
  type Wdev = nat

  /** Names are only ever compared. */
  type Label = nat

  /** A netdev name: one somebody gave, or one the kernel picked for a traveller whose name was taken. */
  datatype Name = Given(id: Label) | Picked(wdev: Wdev)

  datatype Place = Root | In(space: Label)

  /** Foreign stands for every mode Core never sets. */
  datatype Mode = Managed | Monitor | Foreign

  datatype Dev = Dev(name: Name, phy: Phy, mode: Mode)

  /** One profile entry, as far as the radio layout is concerned. */
  datatype Entry = Entry(place: Place, interface: Name, display: Name, mode: Mode, services: bool)

  /** Where every radio is, and every netdev; a netdev is where its radio is. */
  datatype Net = Net(phys: map<Phy, Place>, devs: map<Wdev, Dev>)

  /**
   The kernel (`net` to `nextSpace`), the environment's in-use verdicts (`busy`, `used`), Core's files
   (`markers`, `owned`), the outcomes of the commands still to come (`verdicts`; none left means success),
   and as history the netdevs Core's own commands created (`made`).
   */
  datatype World = World(
    net: Net,
    spaces: map<Label, nat>,
    nextWdev: Wdev,
    nextSpace: nat,
    busy: set<Label>,
    used: set<Wdev>,
    markers: map<Label, nat>,
    owned: map<(Place, Name), Wdev>,
    verdicts: seq<bool>,
    made: set<Wdev>)

  // ---------------------------------------------------------------- the kernel

  predicate Sits(n: Net, d: Wdev, place: Place) {
    d in n.devs && n.devs[d].phy in n.phys && n.phys[n.devs[d].phy] == place
  }

  predicate Named(n: Net, d: Wdev, place: Place, name: Name) { Sits(n, d, place) && n.devs[d].name == name }

  predicate Taken(n: Net, place: Place, name: Name) { exists d :: d in n.devs && Named(n, d, place, name) }

  ghost predicate Uniq(n: Net) {
    forall x, y, place, name :: Named(n, x, place, name) && Named(n, y, place, name) ==> x == y
  }

  /** Every netdev is on a known radio; identifiers and kernel-picked names are old. */
  ghost predicate Known(n: Net, nextWdev: Wdev) {
    forall d :: d in n.devs ==>
      n.devs[d].phy in n.phys && d < nextWdev && (n.devs[d].name.Picked? ==> n.devs[d].name.wdev < nextWdev)
  }

  /** A name the kernel picked for a live netdev is on that netdev only. */
  ghost predicate Picks(n: Net) {
    forall d, x :: d in n.devs && x in n.devs && n.devs[d].name == Picked(x) ==> d == x
  }

  ghost predicate Housed(n: Net, spaces: map<Label, nat>) {
    forall p :: p in n.phys && n.phys[p].In? ==> n.phys[p].space in spaces
  }

  ghost predicate Distinct(spaces: map<Label, nat>, nextSpace: nat) {
    && (forall s :: s in spaces ==> spaces[s] < nextSpace)
    && (forall s, t :: s in spaces && t in spaces && spaces[s] == spaces[t] ==> s == t)
  }

  ghost predicate Recorded(markers: map<Label, nat>, owned: map<(Place, Name), Wdev>, nextSpace: nat, nextWdev: Wdev) {
    (forall s :: s in markers ==> markers[s] < nextSpace) && (forall k :: k in owned ==> owned[k] < nextWdev)
  }

  /** What the kernel guarantees, and the freshness of its identifiers. */
  ghost predicate WF(w: World) {
    && Uniq(w.net) && Known(w.net, w.nextWdev) && Picks(w.net) && Housed(w.net, w.spaces)
    && Distinct(w.spaces, w.nextSpace) && Recorded(w.markers, w.owned, w.nextSpace, w.nextWdev)
  }

  /** The next command's outcome. */
  function Ask(w: World): (World, bool) {
    if w.verdicts == [] then (w, true) else (w.(verdicts := w.verdicts[1..]), w.verdicts[0])
  }

  function Without(n: Net, place: Place, name: Name): Net {
    n.(devs := n.devs - set d | d in n.devs && Named(n, d, place, name))
  }

  function DeleteDev(w: World, place: Place, name: Name): (World, bool) {
    var (v, ok) := Ask(w);
    if ok then (v.(net := Without(v.net, place, name)), true) else (v, false)
  }

  /** Add a netdev; an existing name counts as success and is left as it is. */
  function CreateDev(w: World, phy: Phy, place: Place, name: Name, mode: Mode): (World, bool) {
    var (v, ok) := Ask(w);
    if !ok || phy !in v.net.phys || v.net.phys[phy] != place then (v, false)
    else if Taken(v.net, place, name) then (v, true)
    else
      (v.(net := v.net.(devs := v.net.devs[v.nextWdev := Dev(name, phy, mode)]),
          nextWdev := v.nextWdev + 1,
          made := v.made + {v.nextWdev}),
       true)
  }

  /** A netdev of another radio already has this traveller's name at `to`. */
  predicate Clashes(n: Net, d: Wdev, to: Place) {
    d in n.devs && exists x :: x in n.devs && n.devs[x].phy != n.devs[d].phy && Named(n, x, to, n.devs[d].name)
  }

  /** A radio arrives with all its netdevs; one whose name is taken there is renamed. */
  function Carried(n: Net, phy: Phy, to: Place): Net {
    Net(n.phys[phy := to],
        map d | d in n.devs :: if n.devs[d].phy == phy && Clashes(n, d, to) then n.devs[d].(name := Picked(d)) else n.devs[d])
  }

  function MovePhy(w: World, phy: Phy, from: Place, to: Place): (World, bool) {
    var (v, ok) := Ask(w);
    if !ok || phy !in v.net.phys || v.net.phys[phy] != from || (to.In? && to.space !in v.spaces) then (v, false)
    else (v.(net := Carried(v.net, phy, to)), true)
  }

  function CreateSpace(w: World, s: Label): (World, bool) {
    var (v, ok) := Ask(w);
    if !ok || s in v.spaces then (v, false)
    else (v.(spaces := v.spaces[s := v.nextSpace], nextSpace := v.nextSpace + 1), true)
  }

  function DeleteSpace(w: World, s: Label): World {
    var (v, ok) := Ask(w);
    if ok then v.(spaces := v.spaces - {s}) else v
  }

  // ---------------------------------------------------------------- Core's records

  /** Namespaces Core created: the marker still names the namespace's identity. */
  predicate IsCore(w: World, s: Label) { s in w.markers && s in w.spaces && w.markers[s] == w.spaces[s] }

  function CoreSpaces(w: World): set<Label> { set s: Label | s in w.markers && IsCore(w, s) }

  /** Stale markers are dropped whenever the list is read. */
  function Swept(w: World): World {
    w.(markers := map s | s in w.markers && IsCore(w, s) :: w.markers[s])
  }

  /** Core created this netdev: some record of its name holds its wdev id. */
  predicate IsOwned(w: World, d: Wdev) {
    d in w.net.devs && exists k :: k in w.owned && k.1 == w.net.devs[d].name && w.owned[k] == d
  }

  /** Where the netdev's record belongs now. */
  function Here(w: World, d: Wdev): (Place, Name)
    requires d in w.net.devs && w.net.devs[d].phy in w.net.phys
  {
    (w.net.phys[w.net.devs[d].phy], w.net.devs[d].name)
  }

  /** The order in which records are looked through. */
  predicate Before(a: Place, b: Place) { (a == Root && b != Root) || (a.In? && b.In? && a.space < b.space) }

  ghost function Least(ps: set<Place>): (p: Place)
    requires ps != {}
    ensures p in ps && forall q :: q in ps ==> q == p || Before(p, q)
    decreases |ps|
  {
    var x :| x in ps;
    var rest := ps - {x};
    assert forall q :: q in ps ==> q == x || q in rest;
    if rest == {} then x
    else
      var y := Least(rest);
      if Before(y, x) then y else x
  }

  /** The places whose record under `d`'s name names `d`. */
  function Claimants(w: World, d: Wdev): (ps: set<Place>)
    requires d in w.net.devs
    ensures forall p :: p in ps <==> (p, w.net.devs[d].name) in w.owned && w.owned[(p, w.net.devs[d].name)] == d
  {
    set k | k in w.owned && k.1 == w.net.devs[d].name && w.owned[k] == d :: k.0
  }

  /** The record that makes `d` Core's: the one where `d` is now, or else the first one left behind elsewhere. */
  ghost function RecordOf(w: World, d: Wdev): (k: (Place, Name))
    requires IsOwned(w, d) && w.net.devs[d].phy in w.net.phys
    ensures k in w.owned && w.owned[k] == d && k.1 == w.net.devs[d].name
  {
    var ps := Claimants(w, d);
    if Here(w, d).0 in ps then Here(w, d)
    else
      assert ps != {} by {
        var k :| k in w.owned && k.1 == w.net.devs[d].name && w.owned[k] == d;
        assert k.0 in ps;
      }
      (Least(ps), w.net.devs[d].name)
  }

  /** Reading ownership moves a record found elsewhere to where the netdev is now, over any record there. */
  ghost function Rekeyed(w: World, d: Wdev): World {
    if !IsOwned(w, d) || w.net.devs[d].phy !in w.net.phys then w
    else w.(owned := (w.owned - {RecordOf(w, d)})[Here(w, d) := d])
  }

  /** Record the netdev that carries `name` at `place` as Core's. */
  ghost function Claim(n: Net, owned: map<(Place, Name), Wdev>, place: Place, name: Name): map<(Place, Name), Wdev> {
    if !Taken(n, place, name) then owned
    else
      var d :| d in n.devs && Named(n, d, place, name);
      owned[(place, name) := d]
  }

  ghost function Claimed(w: World, place: Place, name: Name): World { w.(owned := Claim(w.net, w.owned, place, name)) }

  function Released(w: World, place: Place, name: Name): World { w.(owned := w.owned - {(place, name)}) }

  predicate InUse(w: World, d: Wdev) { d in w.net.devs && (w.net.devs[d].mode == Foreign || d in w.used) }

  // ---------------------------------------------------------------- finding the live netdev

  predicate Visible(w: World, e: Entry, d: Wdev) {
    Sits(w.net, d, Root) || Sits(w.net, d, e.place) || exists s :: s in w.markers && IsCore(w, s) && Sits(w.net, d, In(s))
  }

  /** The entry's own place first, then root, then Core's other namespaces. */
  function Rank(w: World, e: Entry, d: Wdev): nat {
    if Sits(w.net, d, e.place) then 0 else if Sits(w.net, d, Root) then 1 else 2
  }

  predicate Candidate(w: World, e: Entry, d: Wdev) { d in w.net.devs && w.net.devs[d].name == e.interface && Visible(w, e, d) }

  predicate Preferred(w: World, e: Entry, a: Wdev, b: Wdev) {
    Rank(w, e, a) < Rank(w, e, b) || (Rank(w, e, a) == Rank(w, e, b) && a <= b)
  }

  ghost predicate IsLive(w: World, e: Entry, d: Wdev) {
    if exists x :: x in w.net.devs && Candidate(w, e, x) then
      Candidate(w, e, d) && forall x :: x in w.net.devs && Candidate(w, e, x) ==> Preferred(w, e, d, x)
    else e.display != e.interface && Named(w.net, d, e.place, e.display)
  }

  /** The netdev backing an entry, or None when its radio is not present. */
  ghost function FindLive(w: World, e: Entry): (r: Option<Wdev>)
    ensures r.Some? ==> r.value in w.net.devs && IsLive(w, e, r.value) && w.net.devs[r.value].phy in w.net.phys
    ensures r.None? ==> forall d :: d in w.net.devs ==> !IsLive(w, e, d)
  {
    if d: Wdev :| d in w.net.devs && IsLive(w, e, d) then Some(d) else None
  }
}
