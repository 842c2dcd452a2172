/** Activation as a transaction on the record of the active profile. */
module ProfileLaws {
  import opened Bytes
  import opened Sorting
  import opened Netns
  import opened NetnsLaws
  import opened Service
  import opened ServiceLaws
  import opened UndoLaws
  import opened EntryLaws
  import opened Profiles

  // ---------------------------------------------------------------- runs

  /** A request, or anything other tools do to the radios. */
  datatype Deed =
    | Activate(id: Id, force: bool)
    | Deactivate(id: Id, force: bool)
    | Delete(id: Id, force: bool)
    | Add(id: Id, profile: Profile)
    | Edit(id: Id, profile: Profile)
    | Revert
    | Others(world: World)

  ghost function Did(s: Site, d: Deed): (Site, Answer) {
    match d
    case Activate(id, force) => ActivateConfig(s, id, force)
    case Deactivate(id, force) => DeactivateConfig(s, id, force)
    case Delete(id, force) => DeleteConfig(s, id, force)
    case Add(id, p) => AddConfig(s, id, p)
    case Edit(id, p) => EditConfig(s, id, p)
    case Revert => (RevertAll(s), Answered(true, []))
    case Others(w) => (s.(world := w), Answered(true, []))
  }

  ghost predicate History(ss: seq<Site>, deeds: seq<Deed>) {
    |ss| == |deeds| + 1 && forall i :: 0 <= i < |deeds| ==> ss[i + 1] == Did(ss[i], deeds[i]).0
  }

  /** The recorded profile exists; the default always does. */
  predicate Sound(s: Site) { s.current.Some? && s.current.value != DEFAULT ==> s.current.value in s.files }

  lemma DidSound(s: Site, d: Deed)
    requires Sound(s)
    ensures Sound(Did(s, d).0)
  {
    hide Apply, TornDown, Invalid, DeactivatedAll, Homecoming, DeactivatedUntil;
  }

  /** No run of requests ever leaves a profile recorded that is not there. */
  lemma {:induction false} NeverDangling(ss: seq<Site>, deeds: seq<Deed>, j: nat)
    requires History(ss, deeds) && Sound(ss[0]) && j < |ss|
    ensures Sound(ss[j]) && !Current(ss[j]).Malformed?
  {
    hide Did;
    if j > 0 {
      NeverDangling(ss, deeds, j - 1);
      DidSound(ss[j - 1], deeds[j - 1]);
    }
  }

  /** Only a successful activation of `id` makes `id` the recorded profile. */
  lemma WhoRecords(s: Site, d: Deed)
    ensures var (t, answer) := Did(s, d);
            t.current != s.current ==>
              t.current == Some(DEFAULT) ||
              (d.Activate? && t.current == Some(d.id) && answer.Answered? && answer.ok && Acceptable(answer.reports))
  {
    hide Apply, TornDown, Invalid, DeactivatedAll, Homecoming, DeactivatedUntil;
  }

  /** Recorded by deed `i`, an activation all of whose entries were acceptable, and kept since. */
  ghost predicate RecordedBy(ss: seq<Site>, deeds: seq<Deed>, id: Id, i: nat, j: nat)
    requires History(ss, deeds) && j < |ss|
  {
    && i < j && deeds[i].Activate? && deeds[i].id == id
    && Did(ss[i], deeds[i]).1.Answered? && Did(ss[i], deeds[i]).1.ok && Acceptable(Did(ss[i], deeds[i]).1.reports)
    && forall k :: i < k <= j ==> ss[k].current == Some(id)
  }

  /** A profile other than the default is recorded only while the last write was its own successful activation. */
  lemma {:induction false} RecordedMeansActivated(ss: seq<Site>, deeds: seq<Deed>, id: Id, j: nat)
    requires History(ss, deeds) && j < |ss| && id != DEFAULT && ss[0].current != Some(id) && ss[j].current == Some(id)
    ensures exists i :: RecordedBy(ss, deeds, id, i, j)
  {
    hide Did;
    if j > 0 {
      var t := ss[j - 1];
      WhoRecords(t, deeds[j - 1]);
      if t.current == Some(id) {
        RecordedMeansActivated(ss, deeds, id, j - 1);
        var i :| RecordedBy(ss, deeds, id, i, j - 1);
        assert RecordedBy(ss, deeds, id, i, j);
      } else {
        assert RecordedBy(ss, deeds, id, j - 1, j);
      }
    }
  }

  // ---------------------------------------------------------------- one activation

  /** The profile that counts as active. */
  function ActiveId(s: Site): Id { if Current(s).Active? then Current(s).id else DEFAULT }

  /** Another profile, or this one, is active, and nothing is forced. */
  predicate Declined(s: Site, id: Id, force: bool) { !force && (ActiveId(s) != DEFAULT || ActiveId(s) == id) }

  /** A failed activation leaves current.txt as it is. */
  ghost predicate LeavesRecord(s: Site, id: Id, force: bool) {
    || GetConfig(s, id).None?
    || s.current == Some(DEFAULT)
    || (!Current(s).Malformed? &&
        (Declined(s, id, force) || (ActiveId(s) != id && Invalid(s.world, All(GetConfig(s, id).value), id == DEFAULT).1)))
  }

  /**
   What an activation leaves in current.txt. A failed one leaves it unchanged exactly if the profile is not there, it
   was declined, or was found invalid while another one was active, or the default was recorded already; in every
   other case the record of what was active is replaced by the default.
   */
  lemma RecordAfter(s: Site, id: Id, force: bool)
    ensures var (t, answer) := ActivateConfig(s, id, force);
            if answer.Answered? && answer.ok then t.current == Some(id)
            else (t.current == s.current <==> LeavesRecord(s, id, force)) && (t.current == s.current || t.current == Some(DEFAULT))
  {
    hide Apply, TornDown, Invalid, DeactivatedAll;
  }

  /** Asking about ownership, and dropping stale markers, is all that checking the entries does. */
  lemma AutomaticTidies(w: World, e: Entry)
    requires WF(w)
    ensures var v := Automatic(w, e).0; WF(v) && v == w.(owned := v.owned, markers := v.markers) && Unharmed(w, v)
  {
    hide WF, Unharmed, IsLive, Rekeyed, IsCore, IsOwned, Swept, Shrinks, Protected;
    SweptIsSame(w);
    SweptWorks(w, 0);
    var v := Swept(w);
    var found := FindLive(v, e);
    if found.Some? {
      RekeyedTidies(v, found.value);
      SameNetUnharmed(v, Rekeyed(v, found.value));
      UnharmedTrans(w, v, Rekeyed(v, found.value));
    }
  }

  lemma SameNetUnharmed(w: World, v: World)
    requires v.net == w.net && Shrinks(w, v) && WF(w)
    ensures Unharmed(w, v)
  {
    hide IsOwned, Uniq, Known, Picks;
  }

  lemma {:induction false} InvalidTidies(w: World, items: seq<Item>, onlyCore: bool)
    requires WF(w)
    ensures var v := Invalid(w, items, onlyCore).0; WF(v) && v == w.(owned := v.owned, markers := v.markers) && Unharmed(w, v)
    decreases |items|
  {
    hide WF, Unharmed, Automatic;
    UnharmedSelf(w);
    if items != [] {
      AutomaticTidies(w, items[0].entry);
      var v := if onlyCore then Automatic(w, items[0].entry).0 else w;
      InvalidTidies(v, items[1..], onlyCore);
      UnharmedTrans(w, v, Invalid(v, items[1..], onlyCore).0);
    }
  }

  /**
   A profile, the default included, that is found invalid while another one is active: the radios, the namespaces,
   the profile files and current.txt stay as they are. Only the default's check may tidy Core's records.
   */
  lemma InvalidChangesNothing(s: Site, id: Id, force: bool)
    requires GetConfig(s, id).Some? && ActiveId(s) != id && !Current(s).Malformed? && WF(s.world)
    requires Invalid(s.world, All(GetConfig(s, id).value), id == DEFAULT).1
    ensures var (t, answer) := ActivateConfig(s, id, force);
            && t == s.(world := t.world) && t.world == s.world.(owned := t.world.owned, markers := t.world.markers)
            && Unharmed(s.world, t.world) && (id != DEFAULT ==> t == s)
            && answer == if Declined(s, id, force) then Conflict else Answered(false, [])
  {
    var items := All(GetConfig(s, id).value);
    InvalidTidies(s.world, items, id == DEFAULT);
    UnharmedSelf(s.world);
    if id != DEFAULT {
      InvalidSeen(s.world, items);
    }
    hide Invalid, TornDown, Unharmed, WF, All, Apply;
  }

  lemma {:induction false} InvalidSeen(w: World, items: seq<Item>)
    ensures Invalid(w, items, false) == (w, exists item :: item in items && !item.valid)
    decreases |items|
  {
    if items != [] {
      InvalidSeen(w, items[1..]);
      assert items == [items[0]] + items[1..];
    }
  }

  /** The entries whose report is Provisioned, in order. */
  function CameUp(items: seq<Item>, reports: seq<Report>): seq<Entry>
    requires |reports| <= |items|
  {
    if reports == [] then [] else CameUpIf(reports[0], items[0].entry) + CameUp(items[1..], reports[1..])
  }

  lemma CameUpFirst(items: seq<Item>, r: Report, rs: seq<Report>)
    requires |rs| < |items|
    ensures CameUp(items, [r] + rs) == CameUpIf(r, items[0].entry) + CameUp(items[1..], rs)
  {
    assert ([r] + rs)[1..] == rs;
  }

  /** What a rollback takes down is exactly what came up; only an exception leaves entries without a report. */
  lemma {:induction false} ActivatedIsCameUp(w: World, items: seq<Item>, onlyCore: bool)
    ensures var a := Apply(w, items, onlyCore);
            && |a.reports| <= |items| && a.activated == CameUp(items, a.reports) && (a.threw <==> |a.reports| < |items|)
    decreases |items|
  {
    hide Applying, CameUpIf;
    if items != [] {
      var (u, r, threw) := Applying(w, items[0], onlyCore);
      ActivatedIsCameUp(u, items[1..], onlyCore);
      CameUpFirst(items, r, Apply(u, items[1..], onlyCore).reports);
    }
  }

  // ---------------------------------------------------------------- undo safety of whole requests

  predicate AllPlain(items: seq<Item>) { forall i :: 0 <= i < |items| ==> items[i].entry.interface.Given? && items[i].entry.display.Given? }

  predicate PlainFiles(s: Site) { AllPlain(All(s.fallback)) && forall id :: id in s.files ==> AllPlain(All(s.files[id])) }

  lemma TornDownSafe(w: World, items: seq<Item>)
    requires WF(w) && AllPlain(items)
    ensures WF(TornDown(w, items)) && Unharmed(w, TornDown(w, items))
  {
    hide WF, Unharmed, DeactivatedAll, Homecoming;
    var v := DeactivatedAll(w, Entries(items));
    AllUndoSafe(w, Entries(items));
    HomecomingSafe(v);
    UnharmedTrans(w, v, Homecoming(v));
  }

  lemma {:induction false} UntilSafe(w: World, es: seq<Entry>)
    requires WF(w) && forall e :: e in es ==> Plain(e)
    ensures WF(DeactivatedUntil(w, es).0) && Unharmed(w, DeactivatedUntil(w, es).0)
    decreases |es|
  {
    hide WF, Unharmed, Deactivated;
    UnharmedSelf(w);
    if es != [] {
      var v := Deactivated(w, es[0]).0;
      UndoSafe(w, es[0]);
      UntilSafe(v, es[1..]);
      UnharmedTrans(w, v, DeactivatedUntil(v, es[1..]).0);
    }
  }

  lemma DeactivateSafe(s: Site, id: Id, force: bool)
    requires WF(s.world) && PlainFiles(s)
    ensures var w := DeactivateConfig(s, id, force).0.world; WF(w) && Unharmed(s.world, w)
  {
    hide WF, Unharmed, DeactivatedUntil, Homecoming;
    UnharmedSelf(s.world);
    var cfg := GetConfig(s, id);
    if cfg.Some? {
      var es := Entries(All(cfg.value));
      var v := DeactivatedUntil(s.world, es).0;
      UntilSafe(s.world, es);
      HomecomingSafe(v);
      UnharmedTrans(s.world, v, Homecoming(v));
    }
  }

  /** Deactivating or deleting a profile, or reverting everything, harms nothing that is not Core's, whatever fails. */
  lemma RequestUndoSafe(s: Site, d: Deed)
    requires WF(s.world) && PlainFiles(s) && (d.Deactivate? || d.Delete? || d.Revert?)
    ensures WF(Did(s, d).0.world) && Unharmed(s.world, Did(s, d).0.world)
  {
    hide WF, Unharmed, DeactivateConfig, TornDown;
    UnharmedSelf(s.world);
    match d
    case Deactivate(id, force) => DeactivateSafe(s, id, force);
    case Delete(id, force) => DeactivateSafe(s, id, false);
    case Revert =>
      var active := if Current(s).Active? then Current(s).id else DEFAULT;
      var last := GetConfig(s, active);
      TornDownSafe(s.world, if last.Some? then All(last.value) else []);
    case _ =>
  }

  /** The radios when the entries are about to be applied: checked, and the old profile torn down. */
  ghost function BeforeApply(s: Site, id: Id): World
    requires GetConfig(s, id).Some?
  {
    var last := GetConfig(s, ActiveId(s));
    TornDown(Invalid(s.world, All(GetConfig(s, id).value), id == DEFAULT).0, if last.Some? then All(last.value) else [])
  }

  /** A record of a profile that is gone is read as the default's. */
  function Mended(s: Site): Site { if Current(s).Malformed? then Record(s, DEFAULT) else s }

  /** The profile is there, is not declined, and is valid. */
  ghost predicate Applies(s: Site, id: Id, force: bool) {
    GetConfig(s, id).Some? && !Declined(s, id, force) && !Invalid(s.world, All(GetConfig(s, id).value), id == DEFAULT).1
  }

  /**
   Up to the point where the entries are applied, an activation harms nothing that is not Core's either: neither the
   checks, nor tearing down the old profile, nor tearing down an active profile that went invalid.
   */
  lemma ActivationTeardownSafe(s: Site, id: Id, force: bool)
    requires WF(s.world) && PlainFiles(s)
    ensures GetConfig(s, id).Some? ==> WF(BeforeApply(s, id)) && Unharmed(s.world, BeforeApply(s, id))
    ensures var (t, answer) := ActivateConfig(s, id, force);
            if Applies(s, id, force) then (t, answer) == Committed(Mended(s).(world := BeforeApply(s, id)), id, All(GetConfig(s, id).value))
            else WF(t.world) && Unharmed(s.world, t.world)
  {
    UnharmedSelf(s.world);
    var cfg := GetConfig(s, id);
    if cfg.Some? {
      var items := All(cfg.value);
      var v := Invalid(s.world, items, id == DEFAULT).0;
      InvalidTidies(s.world, items, id == DEFAULT);
      var last := GetConfig(s, ActiveId(s));
      var before := if last.Some? then All(last.value) else [];
      TornDownSafe(v, before);
      UnharmedTrans(s.world, v, TornDown(v, before));
      TornDownSafe(v, items);
      UnharmedTrans(s.world, v, TornDown(v, items));
      hide WF, Unharmed, TornDown, Invalid, Committed, AllPlain;
      ActivationEnds(s, id, force);
    }
  }

  /** The ways in which an activation goes. */
  lemma ActivationEnds(s: Site, id: Id, force: bool)
    requires GetConfig(s, id).Some?
    ensures var (t, answer) := ActivateConfig(s, id, force); var items := All(GetConfig(s, id).value);
            var (v, bad) := Invalid(s.world, items, id == DEFAULT);
            if Declined(s, id, force) then t == Mended(s) && answer == Conflict
            else if bad && ActiveId(s) == id then t == Record(Mended(s).(world := TornDown(v, items)), DEFAULT) && answer == Answered(false, [])
            else if bad then t == Mended(s).(world := v) && answer == Answered(false, [])
            else (t, answer) == Committed(Mended(s).(world := BeforeApply(s, id)), id, items)
  {
    hide TornDown, Invalid, Committed, All;
  }

  /** And the rollback of a failed activation harms nothing that is not Core's after the entries were applied. */
  lemma RollbackSafe(s: Site, id: Id, items: seq<Item>)
    requires AllPlain(items)
    ensures var a := Apply(s.world, items, id == DEFAULT); var (t, answer) := Committed(s, id, items);
            if answer.Answered? && answer.ok then t.world == a.world
            else WF(a.world) ==> WF(t.world) && Unharmed(a.world, t.world)
  {
    hide WF, Unharmed, Apply, DeactivatedAll, Acceptable;
    var a := Apply(s.world, items, id == DEFAULT);
    ActivatedIsCameUp(s.world, items, id == DEFAULT);
    CameUpPlain(items, a.reports);
    if WF(a.world) {
      AllUndoSafe(a.world, a.activated);
    }
  }

  lemma {:induction false} CameUpPlain(items: seq<Item>, reports: seq<Report>)
    requires AllPlain(items) && |reports| <= |items|
    ensures forall e :: e in CameUp(items, reports) ==> Plain(e)
  {
    if reports != [] {
      CameUpPlain(items[1..], reports[1..]);
    }
  }
}
