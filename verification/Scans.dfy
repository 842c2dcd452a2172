/** Active scans as concurrent threads: what each claims, and the links it changes on the way. */
module Scans {
  import opened Bytes

  type Space = nat
  type Label = nat
  type Link = (Space, Label)

  /** The extra name every scan on an iwlwifi radio claims. */
  const IWLWIFI: Label := 0

  /** Where a scan is, up to the next statement that touches shared state. */
  datatype Phase = Listed | Claimed | Pausing(k: nat) | Scanning | Lowering | Restoring(k: nat) | Over(refused: bool)

  /** `paused` is read before the claim; `found` is, as history, which of the claimed links were up when it succeeded. */
  datatype Scan = Scan(space: Space, iface: Label, iwlwifi: bool, paused: seq<Label>, phase: Phase, wasUp: bool, found: set<Link>)

  datatype State = State(active: set<Link>, scans: map<nat, Scan>, up: set<Link>)

  const IDLE := State({}, map[], {})

  function Monitors(sc: Scan): set<Link> { set m | m in sc.paused :: (sc.space, m) }

  function Keys(sc: Scan): set<Link> {
    {(sc.space, sc.iface)} + Monitors(sc) + if sc.iwlwifi then {(sc.space, IWLWIFI)} else {}
  }

  predicate InFlight(sc: Scan) { !sc.phase.Listed? && !sc.phase.Over? }

  /** A scan begins, its pause list read; a scan's thread goes on, its next command succeeding or not; another tool sets a link. */
  datatype Step = Begin(id: nat, space: Space, iface: Label, iwlwifi: bool, paused: seq<Label>) | Go(id: nat, ok: bool) | Tool(link: Link, on: bool)

  function Put(s: State, id: nat, sc: Scan): State { s.(scans := s.scans[id := sc]) }

  function Set(up: set<Link>, link: Link, on: bool, ok: bool): set<Link> {
    if !ok then up else if on then up + {link} else up - {link}
  }

  /** One step of a scan's thread. */
  function Advance(s: State, id: nat, ok: bool): State
    requires id in s.scans
  {
    var sc := s.scans[id];
    match sc.phase
    case Listed =>
      if Keys(sc) * s.active != {} then Put(s, id, sc.(phase := Over(true)))
      else Put(s.(active := s.active + Keys(sc)), id, sc.(phase := Claimed, found := Keys(sc) * s.up))
    case Claimed => Put(s, id, sc.(phase := Pausing(0), wasUp := (sc.space, sc.iface) in s.up))
    case Pausing(k) =>
      if k < |sc.paused| then
        Put(s.(up := Set(s.up, (sc.space, sc.paused[k]), false, ok)), id, sc.(phase := if ok then Pausing(k + 1) else Lowering))
      else if !sc.wasUp then
        Put(s.(up := Set(s.up, (sc.space, sc.iface), true, ok)), id, sc.(phase := if ok then Scanning else Lowering))
      else Put(s, id, sc.(phase := Scanning))
    case Scanning => Put(s, id, sc.(phase := Lowering))
    case Lowering =>
      Put(if sc.wasUp then s else s.(up := Set(s.up, (sc.space, sc.iface), false, ok)), id, sc.(phase := Restoring(0)))
    case Restoring(k) =>
      if k < |sc.paused| then
        Put(s.(up := Set(s.up, (sc.space, sc.paused[k]), true, ok)), id, sc.(phase := Restoring(k + 1)))
      else Put(s.(active := s.active - Keys(sc)), id, sc.(phase := Over(false)))
    case Over(_) => s
  }

  /** The pause list holds monitors that are up now, each once, and only an iwlwifi scan has one. */
  predicate Enabled(s: State, t: Step) {
    match t
    case Begin(id, space, iface, iwlwifi, paused) =>
      && id !in s.scans && iface !in paused && (!iwlwifi ==> paused == [])
      && (forall m :: m in paused ==> (space, m) in s.up)
      && (forall i, j :: 0 <= i < j < |paused| ==> paused[i] != paused[j])
    case Go(id, ok) => id in s.scans
    case Tool(_, _) => true
  }

  function Next(s: State, t: Step): State
    requires Enabled(s, t)
  {
    match t
    case Begin(id, space, iface, iwlwifi, paused) => Put(s, id, Scan(space, iface, iwlwifi, paused, Listed, false, {}))
    case Go(id, ok) => Advance(s, id, ok)
    case Tool(link, on) => s.(up := Set(s.up, link, on, true))
  }

  /** The shared set of claims: all or nothing. */
  class ActiveScans {
    var active: set<Link>

    constructor ()
      ensures active == {}
    {
      active := {};
    }

    method Claim(keys: set<Link>) returns (ok: bool)
      modifies this
      ensures ok == (keys * old(active) == {})
      ensures active == if ok then old(active) + keys else old(active)
    {
      if keys * active != {} {
        return false;
      }
      active := active + keys;
      return true;
    }

    method Release(keys: set<Link>)
      modifies this
      ensures active == old(active) - keys
    {
      active := active - keys;
    }
  }
}
