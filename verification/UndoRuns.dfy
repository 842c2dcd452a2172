/** Undo safety over whole runs, with other tools' steps in between. */
module UndoRuns {
  import opened Bytes
  import opened Sorting
  import opened Netns
  import opened NetnsLaws
  import opened Service
  import opened ServiceLaws
  import opened UndoLaws
  import opened EntryLaws
  import opened Ownership
  import opened Records
  import opened StartFailure

  // ---------------------------------------------------------------- runs

  /** An entry operation, the return of Core's namespaces, or a step of another tool. */
  datatype Act = Activate(entry: Entry) | Deactivate(entry: Entry) | ReturnHome(names: seq<Label>, radios: seq<Phy>) | Outside

  /** Another tool may do anything to the kernel and to its own use of it, but not to Core's files. */
  ghost predicate Foreign(w: World, v: World) {
    WF(v) && v.owned == w.owned && v.markers == w.markers && w.nextWdev <= v.nextWdev && w.nextSpace <= v.nextSpace
  }

  ghost predicate Follows(w: World, a: Act, v: World) {
    match a
    case Activate(e) => Plain(e) && Fair(w, e) && v == Activated(w, e).0
    case Deactivate(e) => Plain(e) && v == Deactivated(w, e).0
    case ReturnHome(names, radios) => ListsCore(Swept(w), names) && v == ReturnAll(Swept(w), names, radios)
    case Outside => Foreign(w, v)
  }

  ghost predicate Trace(ws: seq<World>, acts: seq<Act>) {
    |ws| == |acts| + 1 && WF(ws[0]) && forall i :: 0 <= i < |acts| ==> Follows(ws[i], acts[i], ws[i + 1])
  }

  lemma StepKeeps(w: World, a: Act, v: World)
    requires WF(w) && Follows(w, a, v)
    ensures WF(v) && Estranged(w, v)
  {
    hide WF, Estranged, Activated, Deactivated, ReturnAll, Swept, Fair, ListsCore, Fewer, OffRadio;
    match a
    case Activate(e) =>
      ActivatedWorks(w, e);
      ActivatedEstranged(w, e);
    case Deactivate(e) =>
      UndoSafe(w, e);
      DeactivatedEstranged(w, e);
    case ReturnHome(names, radios) =>
      SweptWorks(w, 0);
      SweptFewer(w);
      FewerEstranged(w, Swept(w));
      ReturnAllSafe(Swept(w), names, radios);
      ReturnAllEstranged(Swept(w), names, radios);
      EstrangedTrans(w, Swept(w), v);
    case Outside =>
      OutsideEstranged(w, v);
  }

  lemma OutsideEstranged(w: World, v: World)
    requires Foreign(w, v)
    ensures Estranged(w, v)
  {
  }

  lemma TraceKeeps(ws: seq<World>, acts: seq<Act>, i: nat, j: nat)
    requires Trace(ws, acts) && i <= j < |ws|
    ensures WF(ws[i]) && WF(ws[j]) && Estranged(ws[i], ws[j])
  {
    hide WF, Estranged, Follows;
    if j == 0 {
      EstrangedSelf(ws[0]);
    } else {
      if i < j {
        TraceKeeps(ws, acts, i, j - 1);
        StepKeeps(ws[j - 1], acts[j - 1], ws[j]);
        EstrangedTrans(ws[i], ws[j - 1], ws[j]);
      } else {
        TraceKeeps(ws, acts, 0, j - 1);
        StepKeeps(ws[j - 1], acts[j - 1], ws[j]);
        EstrangedSelf(ws[j]);
      }
    }
  }

  lemma UndoStepUnharmed(w: World, a: Act, v: World)
    requires WF(w) && Follows(w, a, v) && (a.Deactivate? || a.ReturnHome?)
    ensures Unharmed(w, v)
  {
    hide WF, Unharmed, Deactivated, ReturnAll, Swept, ListsCore, IsCore, IsOwned, Protected;
    if a.Deactivate? {
      UndoSafe(w, a.entry);
    } else {
      SweptIsSame(w);
      ReturnAllSafe(Swept(w), a.names, a.radios);
      UnharmedTrans(w, Swept(w), v);
    }
  }

  /** An operation of Core's that has no business with `d`: an undo, or the activation of another radio. */
  ghost predicate Spares(w: World, a: Act, d: Wdev) {
    match a
    case Activate(e) => !OnRadio(w, e, d) && !Harms(w, e, d)
    case Outside => false
    case _ => true
  }

  /**
   In every run, with any steps of other tools in between: once a netdev exists that Core has no record of
   (it never created it, or has let it go), no later undo step deletes, moves or changes it while it is in root,
   and neither does activating an entry on another radio, save for the one case that HarmExactly describes.
   */
  lemma StrangersSpared(ws: seq<World>, acts: seq<Act>, i: nat, j: nat, d: Wdev)
    requires Trace(ws, acts) && i <= j < |acts| && Spares(ws[j], acts[j], d)
    requires Stranger(ws[i], d) && Sits(ws[j].net, d, Root)
    ensures Sits(ws[j + 1].net, d, Root) && ws[j + 1].net.devs[d] == ws[j].net.devs[d] && Stranger(ws[j + 1], d)
  {
    TraceKeeps(ws, acts, i, j);
    StrangerProtected(ws[j], d);
    StepKeeps(ws[j], acts[j], ws[j + 1]);
    hide WF, Harms, OnRadio, Protected, Activated, Fair, Unharmed;
    if acts[j].Activate? {
      HarmExactly(ws[j], acts[j].entry, d);
    } else {
      UndoStepUnharmed(ws[j], acts[j], ws[j + 1]);
      UnharmedSpares(ws[j], ws[j + 1], d);
    }
  }

  lemma StrangerProtected(w: World, d: Wdev)
    requires Stranger(w, d) && Sits(w.net, d, Root)
    ensures Protected(w, d)
  {
  }

  lemma UnharmedSpares(w: World, v: World, d: Wdev)
    requires Unharmed(w, v) && Protected(w, d)
    ensures Spared(w, v, d)
  {
    hide Protected;
    ProtectedIn(w, d);
  }

  /** The run condition cannot be dropped: one activation whose services do not start deletes a stranger in root. */
  lemma StartFailureLosesStranger()
    ensures var after := Activated(SEATED, RENAMING).0;
            && Trace([SEATED, after], [Activate(RENAMING)])
            && Stranger(SEATED, 10) && Sits(SEATED.net, 10, Root) && !OnRadio(SEATED, RENAMING, 10) && 10 !in after.net.devs
  {
    StartFailureLosesForeign();
    hide WF, Activated, Fair, OnRadio, Protected;
  }

  /**
   And once a namespace exists that Core has no marker for, no operation of Core's removes it, whatever name it
   has; no undo takes a radio out of it or changes a netdev in it, and no activation does but on the entry's radio.
   */
  lemma OutsidersSpared(ws: seq<World>, acts: seq<Act>, i: nat, j: nat, s: Label)
    requires Trace(ws, acts) && i <= j < |acts| && !acts[j].Outside?
    requires s in ws[j].spaces && Outsider(ws[i], ws[j].spaces[s])
    ensures s in ws[j + 1].spaces && ws[j + 1].spaces[s] == ws[j].spaces[s] && !IsCore(ws[j + 1], s)
    ensures forall p :: p in ws[j].net.phys && ws[j].net.phys[p] == In(s) && !Works(ws[j], acts[j], p) ==>
              p in ws[j + 1].net.phys && ws[j + 1].net.phys[p] == In(s)
    ensures forall d :: Sits(ws[j].net, d, In(s)) && !Works(ws[j], acts[j], ws[j].net.devs[d].phy) ==>
              Sits(ws[j + 1].net, d, In(s)) && ws[j + 1].net.devs[d] == ws[j].net.devs[d]
  {
    hide WF, Follows, Unharmed, Stranger, IsCore;
    TraceKeeps(ws, acts, i, j);
    OutsiderIsNotCore(ws[j], s);
    if acts[j].Activate? {
      ActivationLeavesSpace(ws[j], acts[j], ws[j + 1], s);
    } else {
      UndoStepUnharmed(ws[j], acts[j], ws[j + 1]);
      SpaceUnharmed(ws[j], ws[j + 1], s);
    }
  }

  /** The radio an activation works on. */
  ghost predicate Works(w: World, a: Act, p: Phy) { a.Activate? && RadioOf(w, a.entry) == Some(p) }

  lemma ActivationLeavesSpace(w: World, a: Act, v: World, s: Label)
    requires WF(w) && a.Activate? && Follows(w, a, v) && s in w.spaces && !IsCore(w, s)
    ensures s in v.spaces && v.spaces[s] == w.spaces[s] && !IsCore(v, s)
    ensures forall p :: p in w.net.phys && w.net.phys[p] == In(s) && !Works(w, a, p) ==> p in v.net.phys && v.net.phys[p] == In(s)
    ensures forall d :: Sits(w.net, d, In(s)) && !Works(w, a, w.net.devs[d].phy) ==> Sits(v.net, d, In(s)) && v.net.devs[d] == w.net.devs[d]
  {
    var e := a.entry;
    hide WF, Activated, IsCore, Fair, RadioOf, StartFails;
    ForeignSpaceStays(w, e, s, 0);
    forall p | p in w.net.phys && w.net.phys[p] == In(s) && !Works(w, a, p)
      ensures p in v.net.phys && v.net.phys[p] == In(s)
    {
      ForeignSpaceStays(w, e, s, p);
    }
    forall d | Sits(w.net, d, In(s)) && !Works(w, a, w.net.devs[d].phy)
      ensures Sits(v.net, d, In(s)) && v.net.devs[d] == w.net.devs[d]
    {
      SitterProtected(w, d, s);
      NotExposed(w, e, d, s);
      ActivationSpares(w, e, d);
    }
  }

  lemma SitterProtected(w: World, d: Wdev, s: Label)
    requires Sits(w.net, d, In(s)) && !IsCore(w, s)
    ensures Protected(w, d)
  {
  }

  lemma NotExposed(w: World, e: Entry, d: Wdev, s: Label)
    requires Sits(w.net, d, In(s))
    ensures !Exposed(w, e, d)
  {
  }

  lemma OutsiderIsNotCore(w: World, s: Label)
    requires s in w.spaces && Outsider(w, w.spaces[s])
    ensures !IsCore(w, s)
  {
  }

  lemma SpaceUnharmed(w: World, v: World, s: Label)
    requires Unharmed(w, v) && s in w.spaces && !IsCore(w, s)
    ensures s in v.spaces && v.spaces[s] == w.spaces[s] && !IsCore(v, s)
    ensures forall p :: p in w.net.phys && w.net.phys[p] == In(s) ==> p in v.net.phys && v.net.phys[p] == In(s)
    ensures forall d :: Sits(w.net, d, In(s)) ==> Sits(v.net, d, In(s)) && v.net.devs[d] == w.net.devs[d]
  {
    hide IsCore;
    forall d | Sits(w.net, d, In(s))
      ensures Protected(w, d)
    {
    }
  }

  // ---------------------------------------------------------------- ownership out of band

  /** From `i` to `j`, every step is another tool's. */
  predicate OutsideOnly(acts: seq<Act>, i: nat, j: nat)
    requires i <= j <= |acts|
  {
    forall k :: i <= k < j ==> acts[k].Outside?
  }

  lemma OutsideKeepsRecords(ws: seq<World>, acts: seq<Act>, i: nat, j: nat)
    requires Trace(ws, acts) && i <= j <= |acts| && OutsideOnly(acts, i, j)
    ensures WF(ws[i]) && WF(ws[j]) && ws[j].owned == ws[i].owned && ws[j].markers == ws[i].markers
    ensures ws[i].nextWdev <= ws[j].nextWdev && ws[i].nextSpace <= ws[j].nextSpace
    decreases j - i
  {
    TraceKeeps(ws, acts, i, j);
    hide WF, Estranged;
    if i < j {
      assert Follows(ws[i], acts[i], ws[i + 1]);
      assert acts[i].Outside?;
      OutsideKeepsRecords(ws, acts, i + 1, j);
    }
  }

  /**
   Ownership over any number of other tools' steps: what Core created and still has its name is Core's wherever it
   was moved, and however often; a netdev or a namespace that came to exist since, under whatever name, is not
   Core's; and a namespace is Core's after them exactly if it was and still has the same identity.
   */
  lemma OwnershipFollows(ws: seq<World>, acts: seq<Act>, i: nat, j: nat)
    requires Trace(ws, acts) && i <= j <= |acts| && OutsideOnly(acts, i, j)
    ensures forall d :: d in ws[i].net.devs && d in ws[j].net.devs && ws[j].net.devs[d].name == ws[i].net.devs[d].name ==>
              (IsOwned(ws[j], d) <==> IsOwned(ws[i], d))
    ensures forall d :: d >= ws[i].nextWdev ==> !IsOwned(ws[j], d)
    ensures forall s :: s in ws[j].spaces && ws[j].spaces[s] >= ws[i].nextSpace ==> !IsCore(ws[j], s)
    ensures forall s :: s in ws[i].spaces && s in ws[j].spaces && ws[j].spaces[s] == ws[i].spaces[s] ==> (IsCore(ws[j], s) <==> IsCore(ws[i], s))
  {
    OutsideKeepsRecords(ws, acts, i, j);
    RecordsAreOld(ws[i]);
    hide WF, Trace;
  }

  lemma RecordsAreOld(w: World)
    requires WF(w)
    ensures Recorded(w.markers, w.owned, w.nextSpace, w.nextWdev)
  {
  }
}
