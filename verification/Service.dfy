/** The namespace service's operations on one profile entry, as functions of the world. */
module Service {
  import opened Bytes
  import opened Sorting
  import opened Netns

  /** A netdev as it was found before anything changed. */
  datatype Live = Live(name: Name, phy: Phy, place: Place, mode: Mode)

  /** Done; returned False after undoing; or raised. */
  datatype Outcome = Done | Refused | Raised

  datatype Status = Absent | Busy | Up | Failed | Threw

  function LiveOf(w: World, d: Wdev): Live
    requires d in w.net.devs && w.net.devs[d].phy in w.net.phys
  {
    Live(w.net.devs[d].name, w.net.devs[d].phy, w.net.phys[w.net.devs[d].phy], w.net.devs[d].mode)
  }

  // ---------------------------------------------------------------- undoing a prepare

  predicate HoldsLinks(w: World, s: Label) { s in w.busy || exists p :: p in w.net.phys && w.net.phys[p] == In(s) }

  /** Delete a Core namespace once nothing is left in it; a failed delete keeps the marker. */
  function DropSpaceIfEmpty(w: World, s: Label): World {
    if HoldsLinks(w, s) then w
    else
      var v := if s in w.spaces then DeleteSpace(w, s) else w;
      if s in v.spaces then v else v.(markers := v.markers - {s})
  }

  predicate HalfMade(w: World, live: Live, newName: Name, movedTo: Place) {
    exists d :: d in w.net.devs && Named(w.net, d, movedTo, newName) && w.net.devs[d].phy == live.phy
  }

  /** Remove a half-made `newName`, move the radio back and recreate the original; stops at a failing command. */
  function PutBack(w: World, live: Live, newName: Name, movedTo: Place): World {
    var (w1, ok1) := if HalfMade(w, live, newName, movedTo) then DeleteDev(w, movedTo, newName) else (w, true);
    if !ok1 then w1 else
    var (w2, ok2) := if movedTo != live.place && movedTo.In? then MovePhy(w1, live.phy, movedTo, Root) else (w1, true);
    if !ok2 then w2 else
    var (w3, ok3) := if movedTo != live.place && live.place.In? then MovePhy(w2, live.phy, Root, live.place) else (w2, true);
    if !ok3 then w3 else
    CreateDev(w3, live.phy, live.place, live.name, live.mode).0
  }

  function Restored(w: World, live: Live, newName: Name, movedTo: Place, created: Option<Label>): World {
    var v := PutBack(w, live, newName, movedTo);
    if created.Some? then DropSpaceIfEmpty(v, created.value) else v
  }

  // ---------------------------------------------------------------- preparing

  /** Create the entry's netdev where the radio is now and bring it up. */
  ghost function SetUp(w: World, e: Entry, live: Live, created: Option<Label>): (World, Outcome) {
    var (w1, ok1) := CreateDev(w, live.phy, e.place, e.display, e.mode);
    if !ok1 then (Restored(w1, live, e.display, e.place, created), Raised)
    else
      var (w2, ok2) := Ask(w1);
      if !ok2 then (Restored(w2, live, e.display, e.place, created), Raised)
      else (Claimed(w2, e.place, e.display), Done)
  }

  ghost function PrepareRoot(w: World, e: Entry, live: Live): (World, Outcome)
    requires e.place == Root
  {
    var (w1, ok1) := DeleteDev(w, live.place, live.name);
    if !ok1 then (w1, Raised)
    else if live.place == Root then SetUp(w1, e, live, None)
    else
      var (w2, ok2) := MovePhy(w1, live.phy, live.place, Root);
      if !ok2 then (Restored(w2, live, e.display, live.place, None), Refused)
      else SetUp(w2, e, live, None)
  }

  /** The entry's namespace, created and marked as Core's when it did not exist. */
  function SpaceReady(w: World, s: Label): (World, Outcome, Option<Label>) {
    if s in w.spaces then (w, Done, None)
    else
      var (w1, ok1) := CreateSpace(w, s);
      if !ok1 then (w1, Raised, None)
      else
        var (w2, ok2) := Ask(w1);
        if !ok2 then
          var w3 := DeleteSpace(w2, s);
          (w3.(markers := w3.markers - {s}), Raised, None)
        else (w2.(markers := w2.markers[s := w2.spaces[s]]), Done, Some(s))
  }

  /** Move the radio into the entry's namespace, by way of root when it is in another one. */
  ghost function Relocate(w: World, e: Entry, live: Live, created: Option<Label>): (World, Outcome)
    requires e.place.In? && live.place != e.place
  {
    var (w1, ok1) := if live.place.In? then MovePhy(w, live.phy, live.place, Root) else (w, true);
    if !ok1 then (Restored(w1, live, e.display, live.place, created), Refused)
    else
      var (w2, ok2) := MovePhy(w1, live.phy, Root, e.place);
      if !ok2 then (Restored(w2, live, e.display, Root, created), Refused)
      else SetUp(w2, e, live, created)
  }

  ghost function PrepareSpace(w: World, e: Entry, live: Live): (World, Outcome)
    requires e.place.In?
  {
    var (w1, ready, created) := SpaceReady(w, e.place.space);
    if ready != Done then (w1, ready)
    else
      var (w2, ok2) := DeleteDev(w1, live.place, live.name);
      if !ok2 then (w2, Raised)
      else if live.place == e.place then SetUp(w2, e, live, created)
      else Relocate(w2, e, live, created)
  }

  ghost function Prepared(w: World, e: Entry, live: Live): (World, Outcome) {
    if e.place.In? then PrepareSpace(w, e, live) else PrepareRoot(w, e, live)
  }

  // ---------------------------------------------------------------- reverting

  /** Delete the netdev, return its radio to root and recreate it as managed `name`, unowned. */
  function RecreateInRoot(w: World, live: Live, name: Name): (World, Outcome) {
    var w0 := Released(w, live.place, live.name);
    var (w1, ok1) := DeleteDev(w0, live.place, live.name);
    if !ok1 then (w1, Raised)
    else
      var (w2, ok2) := if live.place.In? then MovePhy(w1, live.phy, live.place, Root) else (w1, true);
      if !ok2 then (Restored(w2, live, name, live.place, None), Raised)
      else
        var (w3, ok3) := CreateDev(w2, live.phy, Root, name, Managed);
        if !ok3 then (Restored(w3, live, name, Root, None), Raised) else (w3, Done)
  }

  ghost function Reverted(w: World, e: Entry): (World, Outcome)
  {
    var v := Swept(w);
    var found := FindLive(v, e);
    if found.None? then (v, Done)
    else
      var live := LiveOf(v, found.value);
      if live.place == Root then
        if live.name != e.interface || live.mode != Managed then RecreateInRoot(v, live, e.interface)
        else (Released(Ask(v).0, Root, live.name), Done)
      else
        var (u, out) := RecreateInRoot(v, live, e.interface);
        if out == Done && IsCore(u, live.place.space) then (DropSpaceIfEmpty(u, live.place.space), Done) else (u, out)
  }

  // ---------------------------------------------------------------- entry operations

  /** Stop Core's processes, then revert the radio if it is Core's to undo. */
  ghost function Deactivated(w: World, e: Entry): (World, Outcome)
  {
    var v := Swept(w);
    var found := FindLive(v, e);
    if found.None? then (v, Done)
    else
      var d := found.value;
      var place := v.net.phys[v.net.devs[d].phy];
      if place.In? then
        if IsCore(v, place.space) then Reverted(v, e) else (v, Done)
      else if !IsOwned(v, d) then (v, Done)
      else
        var u := Rekeyed(v, d);
        if InUse(u, d) then (Released(u, Root, u.net.devs[d].name), Done)
        else Reverted(u, e)
  }

  /** Whether automatic changes may touch the entry's radio. */
  ghost function Automatic(w: World, e: Entry): (World, bool) {
    var v := Swept(w);
    var found := FindLive(v, e);
    if found.None? then (v, true)
    else
      match v.net.phys[v.net.devs[found.value].phy]
      case In(s) => (v, IsCore(v, s))
      case Root => (Rekeyed(v, found.value), IsOwned(v, found.value))
  }

  ghost function Activated(w: World, e: Entry): (World, Status)
  {
    var v := Swept(w);
    var found := FindLive(v, e);
    if found.None? then (v, Absent)
    else if InUse(v, found.value) then (v, Busy)
    else
      var (u, out) := Prepared(v, e, LiveOf(v, found.value));
      match out
      case Refused => (u, Failed)
      case Raised => (u, Threw)
      case Done =>
        if !e.services then (u, Up)
        else
          var (t, started) := Ask(u);
          if started then (t, Up) else (Reverted(t, e).0, Threw)
  }

  // ---------------------------------------------------------------- returning whole namespaces

  /** The netdevs about to travel home with radio `p`. */
  function Travellers(n: Net, s: Label, p: Phy): set<Wdev> { set d | d in n.devs && Sits(n, d, In(s)) && n.devs[d].phy == p }

  /** Ask of each netdev whether it is Core's; list the names of those that are. */
  ghost function Checked(w: World, ds: seq<Wdev>): (World, seq<Name>)
    requires forall d :: d in ds ==> d in w.net.devs
    decreases |ds|
  {
    if ds == [] then (w, [])
    else
      var (v, names) := Checked(Rekeyed(w, ds[0]), ds[1..]);
      (v, if IsOwned(w, ds[0]) then [w.net.devs[ds[0]].name] + names else names)
  }

  function ReleasedAll(w: World, s: Label, names: seq<Name>): World
    decreases |names|
  {
    if names == [] then w else ReleasedAll(Released(w, In(s), names[0]), s, names[1..])
  }

  /** Move one radio home; Core's netdevs that travel with it are handed back. */
  ghost function Homeward(w: World, s: Label, p: Phy): World {
    var (v, names) := Checked(w, Sorted(Travellers(w.net, s, p)));
    var (u, ok) := MovePhy(v, p, In(s), Root);
    if ok then ReleasedAll(u, s, names) else u
  }

  /** Move every radio in namespace `s` to root; one that will not move is left. */
  ghost function ReturnPhys(w: World, s: Label, radios: seq<Phy>): World
    decreases |radios|
  {
    if radios == [] then w
    else
      var p := radios[0];
      ReturnPhys(if p in w.net.phys && w.net.phys[p] == In(s) then Homeward(w, s, p) else w, s, radios[1..])
  }

  /** Return the radios of each listed namespace, and delete it once empty. */
  ghost function ReturnAll(w: World, names: seq<Label>, radios: seq<Phy>): World
    decreases |names|
  {
    if names == [] then w
    else ReturnAll(DropSpaceIfEmpty(ReturnPhys(w, names[0], radios), names[0]), names[1..], radios)
  }

  /** Return every namespace of Core's, whatever is recorded. */
  ghost function Homecoming(w: World): World {
    var v := Swept(w);
    ReturnAll(v, Sorted(CoreSpaces(v)), Sorted(v.net.phys.Keys))
  }

  /** `names` lists Core's namespaces, each once. */
  ghost predicate ListsCore(w: World, names: seq<Label>) {
    && (forall i :: 0 <= i < |names| ==> IsCore(w, names[i]))
    && (forall i, j :: 0 <= i < j < |names| ==> names[i] != names[j])
  }

  /** Deactivate entries in order, each best effort. */
  ghost function DeactivatedAll(w: World, es: seq<Entry>): World
    decreases |es|
  {
    if es == [] then w else DeactivatedAll(Deactivated(w, es[0]).0, es[1..])
  }
}
