/** Activating, deactivating and deleting profiles as it runs: entry by entry, with the files rewritten on the way. */
module ConfigStore {
  import opened Bytes
  import opened Netns
  import opened Service
  import opened UndoLaws
  import opened EntryLaws
  import opened Profiles
  import opened ProfileLaws
  import opened Host
  import LeftAlone

  class NetworkConfig {
    const ns: NetworkNamespaceService
    var files: map<Id, Profile>
    var current: Option<Id>
    const fallback: Profile

    constructor (ns: NetworkNamespaceService, files: map<Id, Profile>, current: Option<Id>, fallback: Profile)
      ensures this.ns == ns && Now() == Site(ns.Now(), files, current, fallback)
    {
      this.ns, this.files, this.current, this.fallback := ns, files, current, fallback;
    }

    function Now(): Site
      reads this, ns
    {
      Site(ns.Now(), files, current, fallback)
    }

    ghost predicate Valid()
      reads this, ns
    {
      WF(ns.Now()) && PlainFiles(Now())
    }

    method WriteCurrent(id: Id)
      modifies this`current
      ensures Now() == Record(old(Now()), id)
    {
      current := Some(id);
    }

    /** Deactivate entries applied before a failed activation, best effort. */
    method RollBack(activated: seq<Entry>)
      requires WF(ns.Now()) && forall e :: e in activated ==> Plain(e)
      modifies ns
      ensures ns.Now() == DeactivatedAll(old(ns.Now()), activated) && WF(ns.Now()) && Unharmed(old(ns.Now()), ns.Now())
    {
      AllUndoSafe(ns.Now(), activated);
      hide WF, Deactivated, Unharmed;
      ghost var was := ns.Now();
      for i := 0 to |activated|
        invariant WF(ns.Now()) && DeactivatedAll(was, activated) == DeactivatedAll(ns.Now(), activated[i..])
      {
        assert activated[i..][1..] == activated[i + 1..] && activated[i..][0] == activated[i];
        var out := ns.DeactivateConfig(activated[i]);
      }
    }

    /** Whether an entry that would be applied is invalid. */
    method InvalidEntries(items: seq<Item>, onlyCore: bool) returns (bad: bool)
      requires WF(ns.Now())
      modifies ns
      ensures (ns.Now(), bad) == Invalid(old(ns.Now()), items, onlyCore) && WF(ns.Now())
    {
      hide WF, Automatic;
      ghost var was := ns.Now();
      bad := false;
      for i := 0 to |items|
        invariant WF(ns.Now())
        invariant Invalid(was, items, onlyCore).0 == Invalid(ns.Now(), items[i..], onlyCore).0
        invariant Invalid(was, items, onlyCore).1 == (bad || Invalid(ns.Now(), items[i..], onlyCore).1)
      {
        assert items[i..][1..] == items[i + 1..] && items[i..][0] == items[i];
        var mine := true;
        if onlyCore {
          mine := ns.IsCoreManaged(items[i].entry);
        }
        if mine && !items[i].valid {
          bad := true;
        }
      }
      assert items[|items|..] == [];
    }

    /** Activate one entry, unless it is left alone or invalid. */
    method ApplyEntry(item: Item, onlyCore: bool) returns (report: Report, threw: bool)
      requires WF(ns.Now()) && Plain(item.entry)
      modifies ns
      ensures (ns.Now(), report, threw) == Applying(old(ns.Now()), item, onlyCore) && WF(ns.Now())
    {
      hide WF, Automatic, Activated;
      var mine := true;
      if onlyCore {
        mine := ns.IsCoreManaged(item.entry);
      }
      if !mine {
        return Skipped, false;
      }
      if !item.valid {
        return ErrorReport, false;
      }
      var status := ns.ActivateConfig(item.entry);
      report := if status == Failed then ErrorReport else if status == Busy then InUseReport else Provisioned;
      threw := status == Threw;
    }

    /** Activate every entry, collecting outcomes and what came up; an exception ends it. */
    method ApplyEntries(items: seq<Item>, onlyCore: bool) returns (reports: seq<Report>, activated: seq<Entry>, threw: bool)
      requires WF(ns.Now()) && AllPlain(items)
      modifies ns
      ensures Applied(ns.Now(), reports, activated, threw) == Apply(old(ns.Now()), items, onlyCore) && WF(ns.Now())
    {
      hide WF, Applying, Apply, Onto;
      ghost var was := ns.Now();
      reports, activated, threw := [], [], false;
      OntoNothing(Apply(was, items, onlyCore));
      assert items[0..] == items;
      for i := 0 to |items|
        invariant WF(ns.Now()) && !threw
        invariant Apply(was, items, onlyCore) == Onto(reports, activated, Apply(ns.Now(), items[i..], onlyCore))
      {
        var e := items[i].entry;
        ApplyOnce(ns.Now(), items[i..], onlyCore);
        assert items[i..][1..] == items[i + 1..] && items[i..][0] == items[i];
        assert Plain(e);
        var report: Report;
        report, threw := ApplyEntry(items[i], onlyCore);
        if threw {
          OntoEnd(reports, activated, ns.Now(), true);
          return;
        }
        OntoOnto(reports, activated, report, e, Apply(ns.Now(), items[i + 1..], onlyCore));
        reports := reports + [report];
        activated := activated + CameUpIf(report, e);
      }
      ApplyNothing(ns.Now(), items[|items|..], onlyCore);
      OntoEnd(reports, activated, ns.Now(), false);
    }

    /** Best effort: deactivate a profile's entries and return Core's namespaces. */
    method TearDown(items: seq<Item>)
      requires WF(ns.Now()) && AllPlain(items)
      modifies ns
      ensures ns.Now() == TornDown(old(ns.Now()), items) && WF(ns.Now()) && Unharmed(old(ns.Now()), ns.Now())
    {
      TornDownSafe(ns.Now(), items);
      hide WF, DeactivatedAll, Homecoming, Unharmed;
      RollBack(Entries(items));
      ns.ReturnHome();
    }

    method ActivateLocked(id: Id, force: bool) returns (answer: Answer)
      requires Valid()
      modifies this`current, ns
      ensures (Now(), answer) == ActivateConfig(old(Now()), id, force) && WF(ns.Now())
      ensures RightlyActivated(old(Now()), id, force, Now(), answer)
    {
      ActivatesRightly(Now(), id, force);
      hide RightlyActivated, Unharmed, Committed, All, AllPlain;
      hide WF, Invalid, TornDown, Apply, DeactivatedAll, Acceptable;
      var cfg := GetConfig(Now(), id);
      if cfg.None? {
        return NotFound;
      }
      var was := Profiles.Current(Now());
      if was.Malformed? {
        WriteCurrent(DEFAULT);
      }
      var active := if was.Active? then was.id else DEFAULT;
      if !force && (active != DEFAULT || active == id) {
        return Conflict;
      }
      var items := All(cfg.value);
      var bad := InvalidEntries(items, id == DEFAULT);
      if bad {
        if active == id {
          TearDown(items);
          WriteCurrent(DEFAULT);
        }
        return Answered(false, []);
      }
      var last := GetConfig(Now(), active);
      TearDown(if last.Some? then All(last.value) else []);
      answer := Commit(id, items);
    }

    /** Apply the entries; record the profile, or roll back and record the default. */
    method Commit(id: Id, items: seq<Item>) returns (answer: Answer)
      requires WF(ns.Now()) && AllPlain(items)
      modifies this`current, ns
      ensures (Now(), answer) == Committed(old(Now()), id, items) && WF(ns.Now())
    {
      hide WF, Apply, DeactivatedAll, Acceptable;
      ghost var was := ns.Now();
      var reports, activated, threw := ApplyEntries(items, id == DEFAULT);
      ActivatedIsCameUp(was, items, id == DEFAULT);
      CameUpPlain(items, reports);
      if !threw && Acceptable(reports) {
        WriteCurrent(id);
        return Answered(true, reports);
      }
      RollBack(activated);
      WriteCurrent(DEFAULT);
      answer := if threw then Rethrown else Answered(false, reports);
    }

    /** Deactivate entries until one raises. */
    method DeactivateUntil(es: seq<Entry>) returns (ok: bool)
      requires WF(ns.Now()) && forall e :: e in es ==> Plain(e)
      modifies ns
      ensures (ns.Now(), ok) == DeactivatedUntil(old(ns.Now()), es) && WF(ns.Now())
    {
      hide WF, Deactivated;
      ghost var was := ns.Now();
      var i := 0;
      ok := true;
      assert es[0..] == es;
      while i < |es| && ok
        invariant i <= |es| && WF(ns.Now())
        invariant DeactivatedUntil(was, es) == if ok then DeactivatedUntil(ns.Now(), es[i..]) else (ns.Now(), false)
      {
        assert es[i..][1..] == es[i + 1..] && es[i..][0] == es[i];
        var out := ns.DeactivateConfig(es[i]);
        i, ok := i + 1, out == Done;
      }
    }

    method DeactivateLocked(id: Id, force: bool) returns (answer: Answer)
      requires Valid()
      modifies this`current, ns
      ensures (Now(), answer) == DeactivateConfig(old(Now()), id, force) && WF(ns.Now())
      ensures Unharmed(old(ns.Now()), ns.Now())
    {
      DeactivateSafe(Now(), id, force);
      hide Unharmed;
      hide WF, DeactivatedUntil, Homecoming;
      var cfg := GetConfig(Now(), id);
      if cfg.None? || (!force && Profiles.Current(Now()).NoFile?) {
        return NotFound;
      }
      if !force && Profiles.Current(Now()) != Active(id) {
        return Conflict;
      }
      var es := Entries(All(cfg.value));
      assert forall e :: e in es ==> Plain(e);
      var ok := DeactivateUntil(es);
      WriteCurrent(DEFAULT);
      ns.ReturnHome();
      answer := if ok then Answered(true, []) else Rethrown;
    }

    method Delete(id: Id, force: bool) returns (answer: Answer)
      requires Valid()
      modifies this, ns
      ensures (Now(), answer) == DeleteConfig(old(Now()), id, force) && WF(ns.Now()) && Unharmed(old(ns.Now()), ns.Now())
    {
      UnharmedSelf(ns.Now());
      hide Unharmed;
      hide WF, DeactivateConfig;
      if Profiles.Current(Now()).NoFile? {
        return NotFound;
      }
      if Profiles.Current(Now()) == Active(id) {
        if !force {
          return Conflict;
        }
        answer := DeactivateLocked(id, false);
        if answer == Rethrown {
          return;
        }
      } else if id !in files {
        return NotFound;
      }
      files := files - {id};
      answer := Answered(true, []);
    }

    method Revert()
      requires Valid()
      modifies this`current, ns
      ensures Now() == RevertAll(old(Now())) && WF(ns.Now()) && Unharmed(old(ns.Now()), ns.Now())
    {
      hide Unharmed;
      hide WF, TornDown;
      var active := if Profiles.Current(Now()).Active? then Profiles.Current(Now()).id else DEFAULT;
      var last := GetConfig(Now(), active);
      TearDown(if last.Some? then All(last.value) else []);
      WriteCurrent(DEFAULT);
    }
  }

  /** What an activation leaves in current.txt, and that the default profile leaves alone what is not Core's. */
  ghost predicate RightlyActivated(s: Site, id: Id, force: bool, t: Site, answer: Answer) {
    && (if answer.Answered? && answer.ok then t.current == Some(id)
        else (t.current == s.current <==> LeavesRecord(s, id, force)) && t.current in {s.current, Some(DEFAULT)})
    && (id == DEFAULT && LeftAlone.FairDefault(s, force) ==> LeftAlone.LeavesAlone(s, force, t.world))
  }

  lemma ActivatesRightly(s: Site, id: Id, force: bool)
    requires WF(s.world) && PlainFiles(s)
    ensures RightlyActivated(s, id, force, ActivateConfig(s, id, force).0, ActivateConfig(s, id, force).1)
  {
    hide WF, PlainFiles, ActivateConfig, LeftAlone.LeavesAlone, LeavesRecord;
    RecordAfter(s, id, force);
    if id == DEFAULT && LeftAlone.FairDefault(s, force) {
      LeftAlone.DefaultLeavesAllAlone(s, force);
    }
  }

  /** What was collected so far, followed by what the rest of the loop collects. */
  function Onto(reports: seq<Report>, activated: seq<Entry>, a: Applied): Applied {
    a.(reports := reports + a.reports, activated := activated + a.activated)
  }

  lemma OntoNothing(a: Applied)
    ensures Onto([], [], a) == a
  {
  }

  lemma OntoEnd(reports: seq<Report>, activated: seq<Entry>, w: World, threw: bool)
    ensures Onto(reports, activated, Applied(w, [], [], threw)) == Applied(w, reports, activated, threw)
  {
  }

  lemma OntoOnto(reports: seq<Report>, activated: seq<Entry>, r: Report, e: Entry, rest: Applied)
    ensures Onto(reports, activated, Onto([r], CameUpIf(r, e), rest)) == Onto(reports + [r], activated + CameUpIf(r, e), rest)
  {
    assert reports + ([r] + rest.reports) == reports + [r] + rest.reports;
    assert activated + (CameUpIf(r, e) + rest.activated) == activated + CameUpIf(r, e) + rest.activated;
  }

  lemma ApplyOnce(w: World, items: seq<Item>, onlyCore: bool)
    requires items != []
    ensures var (u, r, threw) := Applying(w, items[0], onlyCore);
            Apply(w, items, onlyCore) ==
            if threw then Applied(u, [], [], true) else Onto([r], CameUpIf(r, items[0].entry), Apply(u, items[1..], onlyCore))
  {
    hide Applying;
  }

  lemma ApplyNothing(w: World, items: seq<Item>, onlyCore: bool)
    requires items == []
    ensures Apply(w, items, onlyCore) == Applied(w, [], [], false)
  {
  }
}
