/** Profiles on disk, the record of the active one, and the operations that change it. */
module Profiles {
  import opened Bytes
  import opened Sorting
  import opened Netns
  import opened Service

  type Id = nat

  const DEFAULT: Id := 0

  /** An entry, and whether it passes the checks made before anything is touched. */
  datatype Item = Item(entry: Entry, valid: bool)

  datatype Profile = Profile(namespaces: seq<Item>, roots: seq<Item>)

  /** The radios, the profile files, and current.txt; `fallback` is what the default is when it has no file. */
  datatype Site = Site(world: World, files: map<Id, Profile>, current: Option<Id>, fallback: Profile)

  datatype Recorded = NoFile | Malformed | Active(id: Id)

  /** One entry's outcome; Provisioned stands for connected too. */
  datatype Report = Provisioned | InUseReport | Skipped | ErrorReport

  datatype Answer = NotFound | Conflict | Answered(ok: bool, reports: seq<Report>) | Rethrown

  /** All entries, namespaces first. */
  function All(p: Profile): seq<Item> { p.namespaces + p.roots }

  function Entries(items: seq<Item>): (es: seq<Entry>)
    ensures |es| == |items| && forall i :: 0 <= i < |items| ==> es[i] == items[i].entry
  {
    if items == [] then [] else [items[0].entry] + Entries(items[1..])
  }

  function GetConfig(s: Site, id: Id): Option<Profile> {
    if id in s.files then Some(s.files[id]) else if id == DEFAULT then Some(s.fallback) else None
  }

  /** What current.txt says; a profile that is gone makes it malformed. */
  function Current(s: Site): Recorded {
    if s.current.None? then NoFile else if GetConfig(s, s.current.value).None? then Malformed else Active(s.current.value)
  }

  function Record(s: Site, id: Id): Site { s.(current := Some(id)) }

  /** Deactivate entries, best effort, and return Core's namespaces. */
  ghost function TornDown(w: World, items: seq<Item>): World { Homecoming(DeactivatedAll(w, Entries(items))) }

  // ---------------------------------------------------------------- applying

  /** What is known when the loop over the entries stops. */
  datatype Applied = Applied(world: World, reports: seq<Report>, activated: seq<Entry>, threw: bool)

  /** One entry: its report, and whether it raised instead. */
  ghost function Applying(w: World, item: Item, onlyCore: bool): (World, Report, bool) {
    var (v, mine) := if onlyCore then Automatic(w, item.entry) else (w, true);
    if !mine then (v, Skipped, false)
    else if !item.valid then (v, ErrorReport, false)
    else
      var (u, status) := Activated(v, item.entry);
      (u, if status == Failed then ErrorReport else if status == Busy then InUseReport else Provisioned, status == Threw)
  }

  function CameUpIf(r: Report, e: Entry): seq<Entry> { if r == Provisioned then [e] else [] }

  /** Activate entries in order; an error goes on to the next one, an exception stops. */
  ghost function Apply(w: World, items: seq<Item>, onlyCore: bool): Applied
    decreases |items|
  {
    if items == [] then Applied(w, [], [], false)
    else
      var (u, r, threw) := Applying(w, items[0], onlyCore);
      if threw then Applied(u, [], [], true)
      else
        var rest := Apply(u, items[1..], onlyCore);
        rest.(reports := [r] + rest.reports, activated := CameUpIf(r, items[0].entry) + rest.activated)
  }

  /** Whether some entry that would be applied is invalid; asking about ownership may tidy Core's records. */
  ghost function Invalid(w: World, items: seq<Item>, onlyCore: bool): (World, bool)
    decreases |items|
  {
    if items == [] then (w, false)
    else
      var (v, mine) := if onlyCore then Automatic(w, items[0].entry) else (w, true);
      var (u, more) := Invalid(v, items[1..], onlyCore);
      (u, more || (mine && !items[0].valid))
  }

  predicate Acceptable(rs: seq<Report>) { ErrorReport !in rs }

  /** The part of an activation after all checks: apply, and record or roll back. */
  ghost function Committed(s: Site, id: Id, items: seq<Item>): (Site, Answer) {
    var a := Apply(s.world, items, id == DEFAULT);
    if a.threw then (Record(s.(world := DeactivatedAll(a.world, a.activated)), DEFAULT), Rethrown)
    else if Acceptable(a.reports) then (Record(s.(world := a.world), id), Answered(true, a.reports))
    else (Record(s.(world := DeactivatedAll(a.world, a.activated)), DEFAULT), Answered(false, a.reports))
  }

  ghost function ActivateConfig(s: Site, id: Id, force: bool): (Site, Answer) {
    var cfg := GetConfig(s, id);
    if cfg.None? then (s, NotFound)
    else
      var was := Current(s);
      var t := if was.Malformed? then Record(s, DEFAULT) else s;
      var active := if was.Active? then was.id else DEFAULT;
      if !force && (active != DEFAULT || active == id) then (t, Conflict)
      else
        var items := All(cfg.value);
        var (v, bad) := Invalid(t.world, items, id == DEFAULT);
        if bad then
          if active == id then (Record(t.(world := TornDown(v, items)), DEFAULT), Answered(false, []))
          else (t.(world := v), Answered(false, []))
        else
          var last := GetConfig(t, active);
          Committed(t.(world := TornDown(v, if last.Some? then All(last.value) else [])), id, items)
  }

  // ---------------------------------------------------------------- deactivating, deleting

  /** Deactivate entries in order until one raises. */
  ghost function DeactivatedUntil(w: World, es: seq<Entry>): (World, bool)
    decreases |es|
  {
    if es == [] then (w, true)
    else
      var (v, out) := Deactivated(w, es[0]);
      if out == Done then DeactivatedUntil(v, es[1..]) else (v, false)
  }

  ghost function DeactivateConfig(s: Site, id: Id, force: bool): (Site, Answer) {
    var cfg := GetConfig(s, id);
    if cfg.None? || (!force && Current(s).NoFile?) then (s, NotFound)
    else if !force && Current(s) != Active(id) then (s, Conflict)
    else
      var (v, ok) := DeactivatedUntil(s.world, Entries(All(cfg.value)));
      (Record(s.(world := Homecoming(v)), DEFAULT), if ok then Answered(true, []) else Rethrown)
  }

  /** The active profile is refused unless `force`, and then deactivated first; if that raises, its file stays. */
  ghost function DeleteConfig(s: Site, id: Id, force: bool): (Site, Answer) {
    if Current(s).NoFile? then (s, NotFound)
    else if Current(s) == Active(id) && !force then (s, Conflict)
    else
      var (t, answer) := if Current(s) == Active(id) then DeactivateConfig(s, id, false) else (s, Answered(true, []));
      if answer == Rethrown then (t, Rethrown)
      else if id !in s.files && Current(s) != Active(id) then (t, NotFound)
      else (t.(files := t.files - {id}), Answered(true, []))
  }

  /** A new profile; reserved and taken names are refused. */
  function AddConfig(s: Site, id: Id, p: Profile): (Site, Answer) {
    if id == DEFAULT || id in s.files then (s, Conflict) else (s.(files := s.files[id := p]), Answered(true, []))
  }

  /** Replace a profile that is not active. */
  function EditConfig(s: Site, id: Id, p: Profile): (Site, Answer) {
    if GetConfig(s, id).None? || Current(s).NoFile? then (s, NotFound)
    else if Current(s) == Active(id) then (s, Conflict)
    else (s.(files := s.files[id := p]), Answered(true, []))
  }

  ghost function RevertAll(s: Site): Site {
    var active := if Current(s).Active? then Current(s).id else DEFAULT;
    var last := GetConfig(s, active);
    Record(s.(world := TornDown(s.world, if last.Some? then All(last.value) else [])), DEFAULT)
  }
}
