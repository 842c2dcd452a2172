/** What the claims keep apart, for any number of scans in any interleaving. */
module ScanLaws {
  import opened Bytes
  import opened Scans

  /** The held set is the disjoint union of the claims in flight. */
  ghost predicate Exclusive(s: State) {
    && (forall i :: i in s.scans && InFlight(s.scans[i]) ==> Keys(s.scans[i]) <= s.active)
    && (forall l :: l in s.active ==> exists i :: i in s.scans && InFlight(s.scans[i]) && l in Keys(s.scans[i]))
    && (forall i, j :: i in s.scans && j in s.scans && i != j && InFlight(s.scans[i]) && InFlight(s.scans[j]) ==>
          Keys(s.scans[i]) !! Keys(s.scans[j]))
  }

  lemma PutKeeps(s: State, id: nat, sc: Scan)
    requires Exclusive(s) && id in s.scans && InFlight(sc) && InFlight(s.scans[id]) && Keys(sc) == Keys(s.scans[id])
    ensures Exclusive(Put(s, id, sc))
  {
    hide Keys, InFlight;
    var t := Put(s, id, sc);
    forall l | l in t.active
      ensures exists i :: i in t.scans && InFlight(t.scans[i]) && l in Keys(t.scans[i])
    {
      var i :| i in s.scans && InFlight(s.scans[i]) && l in Keys(s.scans[i]);
      assert i in t.scans && InFlight(t.scans[i]) && l in Keys(t.scans[i]);
    }
  }

  lemma ClaimKeeps(s: State, id: nat, sc: Scan)
    requires Exclusive(s) && id in s.scans && !InFlight(s.scans[id]) && InFlight(sc) && Keys(sc) !! s.active
    ensures Exclusive(Put(s.(active := s.active + Keys(sc)), id, sc))
  {
    hide Keys, InFlight;
    var t := Put(s.(active := s.active + Keys(sc)), id, sc);
    forall l | l in t.active
      ensures exists i :: i in t.scans && InFlight(t.scans[i]) && l in Keys(t.scans[i])
    {
      if l in s.active {
        var i :| i in s.scans && InFlight(s.scans[i]) && l in Keys(s.scans[i]);
        assert i in t.scans && InFlight(t.scans[i]) && l in Keys(t.scans[i]);
      } else {
        assert id in t.scans && InFlight(t.scans[id]) && l in Keys(t.scans[id]);
      }
    }
  }

  lemma ReleaseKeeps(s: State, id: nat, sc: Scan)
    requires Exclusive(s) && id in s.scans && InFlight(s.scans[id]) && !InFlight(sc)
    ensures Exclusive(Put(s.(active := s.active - Keys(s.scans[id])), id, sc))
  {
    hide Keys, InFlight;
    var t := Put(s.(active := s.active - Keys(s.scans[id])), id, sc);
    forall l | l in t.active
      ensures exists i :: i in t.scans && InFlight(t.scans[i]) && l in Keys(t.scans[i])
    {
      var i :| i in s.scans && InFlight(s.scans[i]) && l in Keys(s.scans[i]);
      assert i in t.scans && InFlight(t.scans[i]) && l in Keys(t.scans[i]);
    }
  }

  lemma OutsideKeeps(s: State, id: nat, sc: Scan)
    requires Exclusive(s) && (id in s.scans ==> !InFlight(s.scans[id])) && !InFlight(sc)
    ensures Exclusive(Put(s, id, sc))
  {
    hide Keys, InFlight;
    var t := Put(s, id, sc);
    forall l | l in t.active
      ensures exists i :: i in t.scans && InFlight(t.scans[i]) && l in Keys(t.scans[i])
    {
      var i :| i in s.scans && InFlight(s.scans[i]) && l in Keys(s.scans[i]);
      assert i in t.scans && InFlight(t.scans[i]) && l in Keys(t.scans[i]);
    }
  }

  lemma UpIsFree(s: State, up: set<Link>)
    requires Exclusive(s)
    ensures Exclusive(s.(up := up))
  {
    hide Keys, InFlight;
  }

  lemma NextKeeps(s: State, t: Step)
    requires Exclusive(s) && Enabled(s, t)
    ensures Exclusive(Next(s, t))
  {
    hide Exclusive;
    match t
    case Begin(id, space, iface, iwlwifi, paused) => OutsideKeeps(s, id, Scan(space, iface, iwlwifi, paused, Listed, false, {}));
    case Tool(link, on) => UpIsFree(s, Set(s.up, link, on, true));
    case Go(id, ok) => GoKeeps(s, id, ok);
  }

  /** A step in flight, short of the release, keeps the scan in flight with the same keys. */
  lemma InFlightStep(s: State, id: nat, ok: bool)
    requires id in s.scans && InFlight(s.scans[id])
    ensures var u := Advance(s, id, ok);
            && id in u.scans && Keys(u.scans[id]) == Keys(s.scans[id])
            && (if u.scans[id].phase.Over? then u == Put(s.(active := s.active - Keys(s.scans[id])), id, u.scans[id])
                else InFlight(u.scans[id]) && u == Put(s.(up := u.up), id, u.scans[id]))
  {
    hide Set;
    var sc := s.scans[id];
    assert forall phase, was :: Keys(sc.(phase := phase, wasUp := was)) == Keys(sc);
    hide Keys;
  }

  lemma GoKeeps(s: State, id: nat, ok: bool)
    requires Exclusive(s) && id in s.scans
    ensures Exclusive(Advance(s, id, ok))
  {
    hide Exclusive;
    var u, sc := Advance(s, id, ok), s.scans[id];
    if sc.phase.Listed? {
      hide Keys;
      if Keys(sc) * s.active != {} {
        OutsideKeeps(s, id, u.scans[id]);
      } else {
        SameKeys(sc, u.scans[id]);
        ClaimKeeps(s, id, u.scans[id]);
      }
    } else if !sc.phase.Over? {
      InFlightStep(s, id, ok);
      hide Advance, Keys;
      if u.scans[id].phase.Over? {
        ReleaseKeeps(s, id, u.scans[id]);
      } else {
        UpIsFree(s, u.up);
        PutKeeps(s.(up := u.up), id, u.scans[id]);
      }
    }
  }

  lemma SameKeys(a: Scan, b: Scan)
    requires a == b.(phase := a.phase, wasUp := a.wasUp, found := a.found)
    ensures Keys(a) == Keys(b)
  {
  }

  // ---------------------------------------------------------------- runs

  ghost predicate Run(ss: seq<State>, ts: seq<Step>) {
    |ss| == |ts| + 1 && ss[0] == IDLE && forall i :: 0 <= i < |ts| ==> Enabled(ss[i], ts[i]) && ss[i + 1] == Next(ss[i], ts[i])
  }

  /** At every point of every run the held set is the disjoint union of the claims in flight. */
  lemma {:induction false} AlwaysExclusive(ss: seq<State>, ts: seq<Step>, i: nat)
    requires Run(ss, ts) && i < |ss|
    ensures Exclusive(ss[i])
  {
    hide Exclusive, Next, Enabled;
    if i == 0 {
      IdleExclusive();
    } else {
      AlwaysExclusive(ss, ts, i - 1);
      NextKeeps(ss[i - 1], ts[i - 1]);
    }
  }

  lemma IdleExclusive()
    ensures Exclusive(IDLE)
  {
  }

  lemma {:induction false} ListedIdle(ss: seq<State>, ts: seq<Step>, n: nat, id: nat)
    requires Run(ss, ts) && n < |ss| && (id in ss[n].scans ==> ss[n].scans[id].phase.Listed?)
    ensures forall k :: 0 <= k < n ==> !(ts[k].Go? && ts[k].id == id)
  {
    if n > 0 {
      var s, t := ss[n - 1], ts[n - 1];
      assert Enabled(s, t) && ss[n] == Next(s, t);
      if id in s.scans && !s.scans[id].phase.Listed? {
        LeftForGood(s, t, id);
      }
      ListedIdle(ss, ts, n - 1, id);
    }
  }

  /** A scan whose claim was decided is never back before it. */
  lemma LeftForGood(s: State, t: Step, id: nat)
    requires Enabled(s, t) && id in s.scans && !s.scans[id].phase.Listed?
    ensures id in Next(s, t).scans && !Next(s, t).scans[id].phase.Listed?
  {
    hide Set, Keys;
  }

  /** Whoever ends refused was refused just now, or before. */
  lemma RefusedNow(s: State, t: Step, id: nat)
    requires Enabled(s, t) && id in Next(s, t).scans && Next(s, t).scans[id].phase == Over(true)
    ensures id in s.scans
    ensures if s.scans[id].phase == Over(true) then Quiet(s, t, Next(s, t), id)
            else s.scans[id].phase.Listed? && t.Go? && t.id == id && Keys(s.scans[id]) * s.active != {} && Quiet(s, t, Next(s, t), id)
  {
    hide Set;
  }

  /** The step does nothing on the scan's behalf. */
  ghost predicate Quiet(s: State, t: Step, u: State, id: nat) {
    (t.Begin? || t.Go?) && t.id == id ==> u.active == s.active && u.up == s.up
  }

  /** Another scan is in flight and holds one of the names. */
  ghost predicate Blocked(s: State, id: nat) {
    id in s.scans && exists j :: j in s.scans && j != id && InFlight(s.scans[j]) && Keys(s.scans[j]) * Keys(s.scans[id]) != {}
  }

  lemma HeldBySomeone(s: State, id: nat)
    requires Exclusive(s) && id in s.scans && s.scans[id].phase.Listed? && Keys(s.scans[id]) * s.active != {}
    ensures Blocked(s, id)
  {
    hide Keys;
    var l :| l in Keys(s.scans[id]) * s.active;
    var j :| j in s.scans && InFlight(s.scans[j]) && l in Keys(s.scans[j]);
    assert l in Keys(s.scans[j]) * Keys(s.scans[id]);
  }

  /**
   A scan that ends refused was refused because at some point another scan in flight held one of its names, and
   from its beginning to its end it never claimed anything and never set a link.
   */
  lemma {:induction false} RefusedTouchesNothing(ss: seq<State>, ts: seq<Step>, n: nat, id: nat)
    requires Run(ss, ts) && n < |ss| && id in ss[n].scans && ss[n].scans[id].phase == Over(true)
    ensures exists k :: 0 <= k < n && Blocked(ss[k], id)
    ensures forall k :: 0 <= k < n ==> Quiet(ss[k], ts[k], ss[k + 1], id)
  {
    hide Quiet, Blocked, Keys, Exclusive;
    var s, t := ss[n - 1], ts[n - 1];
    assert Enabled(s, t) && ss[n] == Next(s, t);
    RefusedNow(s, t, id);
    if s.scans[id].phase == Over(true) {
      RefusedTouchesNothing(ss, ts, n - 1, id);
    } else {
      AlwaysExclusive(ss, ts, n - 1);
      HeldBySomeone(s, id);
      ListedIdle(ss, ts, n - 1, id);
      forall k | 0 <= k < n - 1
        ensures Quiet(ss[k], ts[k], ss[k + 1], id)
      {
        NotGone(ss[k], ts[k], ss[k + 1], id);
      }
    }
  }

  lemma NotGone(s: State, t: Step, u: State, id: nat)
    requires Enabled(s, t) && u == Next(s, t) && !(t.Go? && t.id == id)
    ensures Quiet(s, t, u, id)
  {
  }

  /** Two iwlwifi scans in flight are in different namespaces: their radios are never the same. */
  lemma IwlwifiApart(ss: seq<State>, ts: seq<Step>, n: nat, i: nat, j: nat)
    requires Run(ss, ts) && n < |ss| && i in ss[n].scans && j in ss[n].scans && i != j
    requires InFlight(ss[n].scans[i]) && InFlight(ss[n].scans[j]) && ss[n].scans[i].iwlwifi && ss[n].scans[j].iwlwifi
    ensures ss[n].scans[i].space != ss[n].scans[j].space
  {
    AlwaysExclusive(ss, ts, n);
    assert (ss[n].scans[i].space, IWLWIFI) in Keys(ss[n].scans[i]);
    assert (ss[n].scans[j].space, IWLWIFI) in Keys(ss[n].scans[j]);
  }

  /** The link a thread's next step sets, if it sets one. */
  function Touched(sc: Scan): Option<Link> {
    match sc.phase
    case Pausing(k) => if k < |sc.paused| then Some((sc.space, sc.paused[k])) else if !sc.wasUp then Some((sc.space, sc.iface)) else None
    case Lowering => if !sc.wasUp then Some((sc.space, sc.iface)) else None
    case Restoring(k) => if k < |sc.paused| then Some((sc.space, sc.paused[k])) else None
    case _ => None
  }

  lemma OnlyTouched(s: State, id: nat, ok: bool, l: Link)
    requires id in s.scans && Touched(s.scans[id]) != Some(l)
    ensures l in Advance(s, id, ok).up <==> l in s.up
  {
  }

  lemma TouchedIsClaimed(sc: Scan)
    requires Touched(sc).Some?
    ensures InFlight(sc) && Touched(sc).value in Keys(sc)
  {
    if sc.phase.Pausing? && sc.phase.k < |sc.paused| {
      assert sc.paused[sc.phase.k] in sc.paused;
    }
    if sc.phase.Restoring? {
      assert sc.paused[sc.phase.k] in sc.paused;
    }
  }

  /** No scan pauses, raises, lowers or restores a link inside another scan's claimed section. */
  lemma NoneInsideAnother(ss: seq<State>, ts: seq<Step>, n: nat, i: nat, j: nat, ok: bool)
    requires Run(ss, ts) && n < |ss| && i in ss[n].scans && j in ss[n].scans && i != j && InFlight(ss[n].scans[j])
    ensures forall l :: l in Keys(ss[n].scans[j]) ==> (l in Advance(ss[n], i, ok).up <==> l in ss[n].up)
  {
    AlwaysExclusive(ss, ts, n);
    var s := ss[n];
    forall l | l in Keys(s.scans[j])
      ensures l in Advance(s, i, ok).up <==> l in s.up
    {
      if Touched(s.scans[i]) == Some(l) {
        TouchedIsClaimed(s.scans[i]);
        assert false;
      }
      OnlyTouched(s, i, ok, l);
    }
  }

  // ---------------------------------------------------------------- what a scan leaves behind

  ghost predicate WellListed(sc: Scan) {
    sc.iface !in sc.paused && forall i, j :: 0 <= i < j < |sc.paused| ==> sc.paused[i] != sc.paused[j]
  }

  lemma {:induction false} AlwaysListed(ss: seq<State>, ts: seq<Step>, n: nat, id: nat)
    requires Run(ss, ts) && n < |ss| && id in ss[n].scans
    ensures WellListed(ss[n].scans[id])
  {
    if n > 0 && id in ss[n - 1].scans {
      AlwaysListed(ss, ts, n - 1, id);
      hide WellListed;
      SameList(ss[n - 1], ts[n - 1], id);
    }
  }

  lemma SameList(s: State, t: Step, id: nat)
    requires Enabled(s, t) && id in s.scans
    ensures var u := Next(s, t);
            id in u.scans && (WellListed(s.scans[id]) ==> WellListed(u.scans[id]))
  {
  }

  /** While its clean-up succeeds: the scan's own link, and the monitors paused or restored so far. */
  ghost predicate Tracks(sc: Scan, up: set<Link>) {
    var iface := (sc.space, sc.iface);
    && (!sc.phase.Claimed? && !sc.phase.Listed? ==> (sc.wasUp <==> iface in sc.found))
    && (iface in sc.found || sc.phase.Scanning? ==> iface in up)
    && (sc.phase.Claimed? || sc.phase.Restoring? || sc.phase.Over? ==> (iface in up ==> iface in sc.found))
    && (forall j :: 0 <= j < |sc.paused| && (sc.phase.Over? || (sc.phase.Restoring? && j < sc.phase.k)) ==> (sc.space, sc.paused[j]) in up)
    && (forall j :: 0 <= j < |sc.paused| && (sc.phase.Scanning? || (sc.phase.Pausing? && j < sc.phase.k)) ==> (sc.space, sc.paused[j]) !in up)
  }

  lemma ClaimTracks(s: State, id: nat, ok: bool)
    requires id in s.scans && s.scans[id].phase.Listed? && Keys(s.scans[id]) * s.active == {}
    ensures Tracks(Advance(s, id, ok).scans[id], Advance(s, id, ok).up)
  {
    var sc := s.scans[id];
    forall j | 0 <= j < |sc.paused|
      ensures (sc.space, sc.paused[j]) in Keys(sc)
    {
      assert sc.paused[j] in sc.paused;
    }
  }

  lemma OwnStepTracks(s: State, id: nat, ok: bool)
    requires id in s.scans && (s.scans[id].phase.Lowering? || s.scans[id].phase.Restoring? ==> ok)
    requires InFlight(s.scans[id]) && WellListed(s.scans[id]) && Tracks(s.scans[id], s.up)
    requires s.scans[id].phase.Pausing? ==> s.scans[id].phase.k <= |s.scans[id].paused|
    requires s.scans[id].phase.Restoring? ==> s.scans[id].phase.k <= |s.scans[id].paused|
    ensures var t := Advance(s, id, ok);
            && Tracks(t.scans[id], t.up) && WellListed(t.scans[id])
            && (t.scans[id].phase.Pausing? ==> t.scans[id].phase.k <= |t.scans[id].paused|)
            && (t.scans[id].phase.Restoring? ==> t.scans[id].phase.k <= |t.scans[id].paused|)
  {
    var sc := s.scans[id];
    forall j | 0 <= j < |sc.paused|
      ensures sc.paused[j] != sc.iface
    {
      assert sc.paused[j] in sc.paused;
    }
  }

  /** Nobody else sets this scan's links, and the commands of its clean-up succeed; any other may fail. */
  predicate Fair(s: State, t: Step, id: nat)
    requires id in s.scans
  {
    match t
    case Begin(_, _, _, _, _) => true
    case Go(i, ok) => i == id && (s.scans[id].phase.Lowering? || s.scans[id].phase.Restoring?) ==> ok
    case Tool(link, _) => link !in Keys(s.scans[id])
  }

  ghost predicate Sane(s: State, id: nat) {
    id in s.scans && WellListed(s.scans[id]) && Tracks(s.scans[id], s.up)
    && (s.scans[id].phase.Pausing? ==> s.scans[id].phase.k <= |s.scans[id].paused|)
    && (s.scans[id].phase.Restoring? ==> s.scans[id].phase.k <= |s.scans[id].paused|)
  }

  lemma SameLinksTrack(sc: Scan, a: set<Link>, b: set<Link>)
    requires Tracks(sc, a) && forall l :: l in Keys(sc) ==> (l in b <==> l in a)
    ensures Tracks(sc, b)
  {
    forall j | 0 <= j < |sc.paused|
      ensures (sc.space, sc.paused[j]) in Keys(sc)
    {
      assert sc.paused[j] in sc.paused;
    }
  }

  /** Other scans' steps and other tools leave it on track. */
  lemma StepTracks(ss: seq<State>, ts: seq<Step>, n: nat, id: nat)
    requires Run(ss, ts) && n < |ts| && id in ss[n].scans && InFlight(ss[n].scans[id]) && Sane(ss[n], id) && Fair(ss[n], ts[n], id)
    ensures Sane(ss[n + 1], id)
  {
    hide Exclusive, Tracks, WellListed;
    var s, t := ss[n], ts[n];
    if t.Go? && t.id == id {
      OwnStepTracks(s, id, t.ok);
    } else {
      if t.Go? {
        NoneInsideAnother(ss, ts, n, t.id, id, t.ok);
      }
      SameLinksTrack(s.scans[id], s.up, ss[n + 1].up);
    }
  }

  /** From the claim at step `a` to the release at step `b`, in flight throughout and fairly treated. */
  ghost predicate Span(ss: seq<State>, ts: seq<Step>, id: nat, a: nat, b: nat)
    requires Run(ss, ts)
  {
    && a < b < |ts| && id in ss[a].scans && ss[a].scans[id].phase.Listed?
    && ts[a] == Go(id, true) && Keys(ss[a].scans[id]) * ss[a].active == {}
    && forall n :: a < n <= b ==> id in ss[n].scans && InFlight(ss[n].scans[id]) && Fair(ss[n], ts[n], id)
  }

  lemma {:induction false} SpanTracks(ss: seq<State>, ts: seq<Step>, id: nat, a: nat, b: nat, n: nat)
    requires Run(ss, ts) && Span(ss, ts, id, a, b) && a < n <= b + 1
    ensures Sane(ss[n], id) && ss[n].scans[id].found == Keys(ss[a].scans[id]) * ss[a].up
    ensures ss[n].scans[id].paused == ss[a].scans[id].paused && ss[n].scans[id].iface == ss[a].scans[id].iface
    ensures ss[n].scans[id].space == ss[a].scans[id].space
    decreases n
  {
    if n == a + 1 {
      AlwaysListed(ss, ts, a, id);
      ClaimTracks(ss[a], id, true);
    } else {
      SpanTracks(ss, ts, id, a, b, n - 1);
      hide Tracks, WellListed;
      StepTracks(ss, ts, n - 1, id);
    }
  }

  /**
   A scan whose clean-up commands succeed, whichever others fail, leaves its own link as it found it, and every monitor on
   its list up. So it leaves everything as it found it exactly if all the monitors on its list were still up when its claim succeeded.
   */
  lemma LeavesAsFound(ss: seq<State>, ts: seq<Step>, id: nat, a: nat, b: nat)
    requires Run(ss, ts) && Span(ss, ts, id, a, b) && id in ss[b + 1].scans && ss[b + 1].scans[id].phase == Over(false)
    ensures var sc, before, after := ss[a].scans[id], ss[a].up, ss[b + 1].up;
            && ((sc.space, sc.iface) in after <==> (sc.space, sc.iface) in before)
            && (forall m :: m in sc.paused ==> (sc.space, m) in after)
            && ((forall m :: m in sc.paused ==> ((sc.space, m) in after <==> (sc.space, m) in before)) <==>
                (forall m :: m in sc.paused ==> (sc.space, m) in before))
  {
    SpanTracks(ss, ts, id, a, b, b + 1);
    var sc := ss[a].scans[id];
    forall m | m in sc.paused
      ensures (sc.space, m) in ss[b + 1].up
    {
      var j :| 0 <= j < |sc.paused| && sc.paused[j] == m;
    }
  }

  /** While a scan is scanning, its link is up and every monitor on its list is down. */
  lemma WhileScanning(ss: seq<State>, ts: seq<Step>, id: nat, a: nat, b: nat, n: nat)
    requires Run(ss, ts) && Span(ss, ts, id, a, b) && a < n <= b && ss[n].scans[id].phase.Scanning?
    ensures var sc := ss[n].scans[id]; (sc.space, sc.iface) in ss[n].up && forall m :: m in sc.paused ==> (sc.space, m) !in ss[n].up
  {
    SpanTracks(ss, ts, id, a, b, n);
    var sc := ss[n].scans[id];
    forall m | m in sc.paused
      ensures (sc.space, m) !in ss[n].up
    {
      var j :| 0 <= j < |sc.paused| && sc.paused[j] == m;
    }
  }

  /** The command a thread's next step issues, if any: a link, and whether it is set up or down. */
  function Issues(sc: Scan): Option<(Link, bool)> {
    match sc.phase
    case Pausing(k) =>
      if k < |sc.paused| then Some(((sc.space, sc.paused[k]), false)) else if !sc.wasUp then Some(((sc.space, sc.iface), true)) else None
    case Lowering => if !sc.wasUp then Some(((sc.space, sc.iface), false)) else None
    case Restoring(k) => if k < |sc.paused| then Some(((sc.space, sc.paused[k]), true)) else None
    case _ => None
  }

  /** A step does to the links what its command does when it succeeds, and nothing else. */
  lemma IssuesIs(s: State, id: nat, ok: bool)
    requires id in s.scans
    ensures var c := Issues(s.scans[id]);
            Advance(s, id, ok).up ==
            if c.None? || !ok then s.up else if c.value.1 then s.up + {c.value.0} else s.up - {c.value.0}
  {
  }

  /** At step `k`, the scan issues this command. */
  predicate IssuedAt(ss: seq<State>, ts: seq<Step>, k: nat, id: nat, link: Link, on: bool) {
    k < |ts| && k < |ss| && ts[k].Go? && ts[k].id == id && id in ss[k].scans && Issues(ss[k].scans[id]) == Some((link, on))
  }

  ghost predicate Issued(ss: seq<State>, ts: seq<Step>, n: nat, id: nat, link: Link, on: bool) {
    exists k :: 0 <= k < n && IssuedAt(ss, ts, k, id, link, on)
  }

  /** Which clean-up commands a scan has issued by now. */
  ghost predicate CleanedUp(ss: seq<State>, ts: seq<Step>, n: nat, id: nat, sc: Scan) {
    && (sc.phase.Restoring? ==> sc.phase.k <= |sc.paused|)
    && (sc.phase.Restoring? || sc.phase == Over(false) ==> sc.wasUp || Issued(ss, ts, n, id, (sc.space, sc.iface), false))
    && forall j :: 0 <= j < |sc.paused| && (sc.phase == Over(false) || (sc.phase.Restoring? && j < sc.phase.k)) ==>
         Issued(ss, ts, n, id, (sc.space, sc.paused[j]), true)
  }

  lemma IssuedLater(ss: seq<State>, ts: seq<Step>, n: nat, id: nat, link: Link, on: bool)
    requires Issued(ss, ts, n, id, link, on)
    ensures Issued(ss, ts, n + 1, id, link, on)
  {
    hide IssuedAt;
    var k :| 0 <= k < n && IssuedAt(ss, ts, k, id, link, on);
    assert 0 <= k < n + 1 && IssuedAt(ss, ts, k, id, link, on);
  }

  lemma CleanedLater(ss: seq<State>, ts: seq<Step>, n: nat, id: nat, sc: Scan)
    requires CleanedUp(ss, ts, n, id, sc)
    ensures CleanedUp(ss, ts, n + 1, id, sc)
  {
    hide Issued;
    forall link, on | Issued(ss, ts, n, id, link, on)
      ensures Issued(ss, ts, n + 1, id, link, on)
    {
      IssuedLater(ss, ts, n, id, link, on);
    }
  }

  /** One step of the scan's own thread. */
  lemma CleansOn(ss: seq<State>, ts: seq<Step>, n: nat, id: nat)
    requires Run(ss, ts) && n < |ts| && ts[n].Go? && ts[n].id == id && id in ss[n].scans && CleanedUp(ss, ts, n + 1, id, ss[n].scans[id])
    ensures id in ss[n + 1].scans && CleanedUp(ss, ts, n + 1, id, ss[n + 1].scans[id])
  {
    var sc := ss[n].scans[id];
    if Issues(sc).Some? {
      var c := Issues(sc).value;
      assert IssuedAt(ss, ts, n, id, c.0, c.1);
      assert Issued(ss, ts, n + 1, id, c.0, c.1);
    }
    hide Set, Keys, Issued;
  }

  lemma {:induction false} AlwaysCleansUp(ss: seq<State>, ts: seq<Step>, n: nat, id: nat)
    requires Run(ss, ts) && n < |ss| && id in ss[n].scans
    ensures CleanedUp(ss, ts, n, id, ss[n].scans[id])
  {
    hide CleanedUp;
    if n > 0 && id in ss[n - 1].scans {
      AlwaysCleansUp(ss, ts, n - 1, id);
      CleanedLater(ss, ts, n - 1, id, ss[n - 1].scans[id]);
      if ts[n - 1].Go? && ts[n - 1].id == id {
        CleansOn(ss, ts, n - 1, id);
      }
    } else if n > 0 {
      JustBegun(ss, ts, n, id);
    } else {
      assert false;
    }
  }

  lemma JustBegun(ss: seq<State>, ts: seq<Step>, n: nat, id: nat)
    requires Run(ss, ts) && 0 < n < |ss| && id in ss[n].scans && id !in ss[n - 1].scans
    ensures CleanedUp(ss, ts, n, id, ss[n].scans[id])
  {
    assert Enabled(ss[n - 1], ts[n - 1]) && ss[n] == Next(ss[n - 1], ts[n - 1]);
  }

  /**
   On every run, before a scan that was not refused ends, and whichever of its commands failed, it has issued the restore
   of every monitor on its list, and has had its own link set down again unless it found it up.
   */
  lemma AlwaysRestores(ss: seq<State>, ts: seq<Step>, n: nat, id: nat)
    requires Run(ss, ts) && n < |ss| && id in ss[n].scans && ss[n].scans[id].phase == Over(false)
    ensures var sc := ss[n].scans[id];
            && (forall m :: m in sc.paused ==> Issued(ss, ts, n, id, (sc.space, m), true))
            && (sc.wasUp || Issued(ss, ts, n, id, (sc.space, sc.iface), false))
  {
    AlwaysCleansUp(ss, ts, n, id);
    var sc := ss[n].scans[id];
    hide Issued;
    forall m | m in sc.paused
      ensures Issued(ss, ts, n, id, (sc.space, m), true)
    {
      var j :| 0 <= j < |sc.paused| && sc.paused[j] == m;
    }
  }

  // ---------------------------------------------------------------- two things the claims do not give

  lemma Extend(ss: seq<State>, ts: seq<Step>, t: Step)
    requires Run(ss, ts) && Enabled(ss[|ts|], t)
    ensures Run(ss + [Next(ss[|ts|], t)], ts + [t])
  {
  }

  /** Play steps that are all enabled. */
  ghost predicate Plays(s: State, ts: seq<Step>, u: State)
    decreases |ts|
  {
    if ts == [] then u == s else Enabled(s, ts[0]) && Plays(Next(s, ts[0]), ts[1..], u)
  }

  lemma {:induction false} PlayRuns(ss: seq<State>, ts: seq<Step>, more: seq<Step>, u: State) returns (all: seq<State>)
    requires Run(ss, ts) && Plays(ss[|ts|], more, u)
    ensures Run(all, ts + more) && all[|ts + more|] == u && ss <= all
    decreases |more|
  {
    if more == [] {
      all := ss;
      assert ts + more == ts;
    } else {
      Extend(ss, ts, more[0]);
      var next := ss + [Next(ss[|ts|], more[0])];
      assert ts + [more[0]] + more[1..] == ts + more;
      all := PlayRuns(next, ts + [more[0]], more[1..], u);
    }
  }

  /** What an iwlwifi scan is asked for, and the monitors it will pause. */
  datatype Asked = Asked(space: Space, iface: Label, paused: seq<Label>)

  predicate Sensible(a: Asked) {
    a.iface !in a.paused && forall i, j :: 0 <= i < j < |a.paused| ==> a.paused[i] != a.paused[j]
  }

  ghost predicate Flies(s: State, id: nat, a: Asked) {
    && id in s.scans && InFlight(s.scans[id]) && s.scans[id].iwlwifi
    && s.scans[id].space == a.space && s.scans[id].iface == a.iface && s.scans[id].paused == a.paused
  }

  function Begun(a: Asked): Scan { Scan(a.space, a.iface, true, a.paused, Listed, false, {}) }

  /** Other tools bring up the monitors, one after the other. */
  lemma {:induction false} RaisingRuns(ss: seq<State>, ts: seq<Step>, a: Asked, k: nat) returns (all: seq<State>, more: seq<Step>)
    requires Run(ss, ts) && k <= |a.paused|
    ensures Run(all, more) && all[|more|].active == ss[|ts|].active && all[|more|].scans == ss[|ts|].scans && ss[|ts|].up <= all[|more|].up
    ensures forall i :: k <= i < |a.paused| ==> (a.space, a.paused[i]) in all[|more|].up
    decreases |a.paused| - k
  {
    if k == |a.paused| {
      all, more := ss, ts;
    } else {
      var t := Tool((a.space, a.paused[k]), true);
      Extend(ss, ts, t);
      all, more := RaisingRuns(ss + [Next(ss[|ts|], t)], ts + [t], a, k + 1);
    }
  }

  /** A scan that finds its namespace free begins and claims. */
  lemma Launch(ss: seq<State>, ts: seq<Step>, id: nat, a: Asked) returns (all: seq<State>, more: seq<Step>)
    requires Run(ss, ts) && Sensible(a) && id !in ss[|ts|].scans && forall l :: l in ss[|ts|].active ==> l.0 != a.space
    ensures Run(all, more) && Flies(all[|more|], id, a)
    ensures forall l :: l in all[|more|].active ==> l in ss[|ts|].active || l.0 == a.space
    ensures forall i :: i in ss[|ts|].scans ==> i in all[|more|].scans && all[|more|].scans[i] == ss[|ts|].scans[i]
    ensures all[|more|].scans.Keys == ss[|ts|].scans.Keys + {id}
  {
    all, more := RaisingRuns(ss, ts, a, 0);
    var s := all[|more|];
    var t := Begin(id, a.space, a.iface, true, a.paused);
    Extend(all, more, t);
    all, more := all + [Next(s, t)], more + [t];
    assert forall l :: l in Keys(Begun(a)) ==> l.0 == a.space;
    assert Keys(Begun(a)) * s.active == {};
    Extend(all, more, Go(id, true));
    all, more := all + [Next(all[|more|], Go(id, true))], more + [Go(id, true)];
  }

  /** Scans on iwlwifi radios can overlap exactly if they are in different namespaces, whatever they pause. */
  lemma OverlapExactly(a: Asked, b: Asked)
    requires Sensible(a) && Sensible(b)
    ensures a.space != b.space <==>
            exists ss, ts, i, j :: Run(ss, ts) && i != j && Flies(ss[|ts|], i, a) && Flies(ss[|ts|], j, b)
  {
    if a.space != b.space {
      var ss, ts := Launch([IDLE], [], 1, a);
      var first := ss[|ts|];
      ss, ts := Launch(ss, ts, 2, b);
      assert Run(ss, ts) && Flies(ss[|ts|], 1, a) && Flies(ss[|ts|], 2, b);
    }
    if ss, ts, i, j :| Run(ss, ts) && i != j && Flies(ss[|ts|], i, a) && Flies(ss[|ts|], j, b) {
      IwlwifiApart(ss, ts, |ts|, i, j);
    }
  }

  /** A scan on monitor 5 itself, and one on interface 6 whose list was read while that scan had 5 up. */
  function FirstScan(phase: Phase): Scan { Scan(0, 5, true, [], phase, false, {}) }

  function SecondScan(phase: Phase): Scan { Scan(0, 6, true, [5], phase, false, {}) }

  const FIRST_KEYS: set<Link> := {(0, 5), (0, IWLWIFI)}

  const SECOND_KEYS: set<Link> := {(0, 6), (0, 5), (0, IWLWIFI)}

  lemma KeysAre(phase: Phase)
    ensures Keys(FirstScan(phase)) == FIRST_KEYS && Keys(SecondScan(phase)) == SECOND_KEYS
  {
    assert Monitors(FirstScan(phase)) == {};
    assert 5 in SecondScan(phase).paused;
    assert Monitors(SecondScan(phase)) == {(0, 5)};
  }

  lemma PlayOne(s: State, t: Step, v: State, rest: seq<Step>, u: State)
    requires Enabled(s, t) && Next(s, t) == v && Plays(v, rest, u)
    ensures Plays(s, [t] + rest, u)
  {
    assert ([t] + rest)[1..] == rest;
  }

  /** The stages of the run, in order. */
  function Stage(n: nat): State {
    match n
    case 0 => IDLE
    case 1 => State({}, map[1 := FirstScan(Listed)], {})
    case 2 => State(FIRST_KEYS, map[1 := FirstScan(Claimed)], {})
    case 3 => State(FIRST_KEYS, map[1 := FirstScan(Pausing(0))], {})
    case 4 => State(FIRST_KEYS, map[1 := FirstScan(Scanning)], {(0, 5)})
    case 5 => State(FIRST_KEYS, map[1 := FirstScan(Scanning), 2 := SecondScan(Listed)], {(0, 5)})
    case 6 => State(FIRST_KEYS, map[1 := FirstScan(Lowering), 2 := SecondScan(Listed)], {(0, 5)})
    case 7 => State(FIRST_KEYS, map[1 := FirstScan(Restoring(0)), 2 := SecondScan(Listed)], {})
    case 8 => State({}, map[1 := FirstScan(Over(false)), 2 := SecondScan(Listed)], {})
    case 9 => State(SECOND_KEYS, map[1 := FirstScan(Over(false)), 2 := SecondScan(Claimed)], {})
    case 10 => State(SECOND_KEYS, map[1 := FirstScan(Over(false)), 2 := SecondScan(Pausing(0))], {})
    case 11 => State(SECOND_KEYS, map[1 := FirstScan(Over(false)), 2 := SecondScan(Pausing(1))], {})
    case 12 => State(SECOND_KEYS, map[1 := FirstScan(Over(false)), 2 := SecondScan(Scanning)], {(0, 6)})
    case 13 => State(SECOND_KEYS, map[1 := FirstScan(Over(false)), 2 := SecondScan(Lowering)], {(0, 6)})
    case 14 => State(SECOND_KEYS, map[1 := FirstScan(Over(false)), 2 := SecondScan(Restoring(0))], {})
    case 15 => State(SECOND_KEYS, map[1 := FirstScan(Over(false)), 2 := SecondScan(Restoring(1))], {(0, 5)})
    case _ => State({}, map[1 := FirstScan(Over(false)), 2 := SecondScan(Over(false))], {(0, 5)})
  }

  function Turn(n: nat): Step {
    match n
    case 0 => Begin(1, 0, 5, true, [])
    case 4 => Begin(2, 0, 6, true, [5])
    case _ => Go(if n < 8 then 1 else 2, true)
  }

  lemma StageFollows(n: nat)
    requires n < 16
    ensures Enabled(Stage(n), Turn(n)) && Next(Stage(n), Turn(n)) == Stage(n + 1)
  {
    KeysAre(Listed);
    KeysAre(Restoring(0));
    KeysAre(Restoring(1));
    hide Keys;
    if n == 3 || n == 6 {
      assert Set({}, (0, 5), true, true) == {(0, 5)} && Set({(0, 5)}, (0, 5), false, true) == {};
    } else if n == 11 || n == 13 {
      assert Set({}, (0, 6), true, true) == {(0, 6)} && Set({(0, 6)}, (0, 6), false, true) == {};
    } else if n == 10 || n == 14 {
      assert Set({}, (0, 5), true, true) == {(0, 5)} && Set({}, (0, 5), false, true) == {};
    }
  }

  function Turns(n: nat, m: nat): seq<Step>
    requires n <= m
  {
    seq(m - n, i requires 0 <= i < m - n => Turn(n + i))
  }

  lemma {:induction false} StagesPlay(n: nat, m: nat)
    requires n <= m <= 16
    ensures Plays(Stage(n), Turns(n, m), Stage(m))
    decreases m - n
  {
    hide Stage, Turn;
    if n < m {
      StageFollows(n);
      StagesPlay(n + 1, m);
      PlayOne(Stage(n), Turn(n), Stage(n + 1), Turns(n + 1, m), Stage(m));
      assert Turns(n, m) == [Turn(n)] + Turns(n + 1, m);
    }
  }

  lemma StageFacts()
    ensures Stage(0) == IDLE && Stage(8).up == {} && Stage(8).scans.Keys == {1, 2} && Stage(8).scans[2].phase == Listed
    ensures Stage(9).scans.Keys == {1, 2} && Stage(9).scans[2].phase == Claimed
    ensures Stage(16).up == {(0, 5)} && Stage(16).scans.Keys == {1, 2}
    ensures Stage(16).scans[1].phase == Over(false) && Stage(16).scans[2].phase == Over(false)
  {
  }

  lemma AllTurns()
    ensures var ts := [] + Turns(0, 8) + Turns(8, 9) + Turns(9, 16);
            |ts| == 16 && ts[8] == Go(2, true) && forall t :: t in ts ==> t.Begin? || (t.Go? && t.ok)
  {
    var ts := [] + Turns(0, 8) + Turns(8, 9) + Turns(9, 16);
    forall t | t in ts
      ensures t.Begin? || (t.Go? && t.ok)
    {
      var i :| 0 <= i < 16 && ts[i] == t;
      assert ts[i] == Turn(i);
    }
  }

  /**
   The pause list is read before the claim, so it can be stale: in this run every command succeeds, monitor 5 is
   down at the start and again when the second scan claims it, and that scan leaves it up.
   */
  lemma StaleListLeavesMonitorUp() returns (ss: seq<State>, ts: seq<Step>)
    ensures Run(ss, ts) && |ts| == 16 && ss[0].up == {} && ss[16].up == {(0, 5)}
    ensures ts[8] == Go(2, true) && ss[8].up == {} && ss[8].scans[2].phase == Listed && ss[9].scans[2].phase == Claimed
    ensures ss[16].scans.Keys == {1, 2} && ss[16].scans[1].phase == Over(false) && ss[16].scans[2].phase == Over(false)
    ensures forall t :: t in ts ==> t.Begin? || (t.Go? && t.ok)
  {
    hide Plays, Stage, Turns;
    StageFacts();
    AllTurns();
    StagesPlay(0, 8);
    StagesPlay(8, 9);
    StagesPlay(9, 16);
    ss := PlayRuns([IDLE], [], Turns(0, 8), Stage(8));
    var a := ss;
    ss := PlayRuns(ss, [] + Turns(0, 8), Turns(8, 9), Stage(9));
    var b := ss;
    ss := PlayRuns(ss, [] + Turns(0, 8) + Turns(8, 9), Turns(9, 16), Stage(16));
    ts := [] + Turns(0, 8) + Turns(8, 9) + Turns(9, 16);
    TurnLengths();
    assert a[8] == b[8] == ss[8] && b[9] == ss[9];
  }

  lemma TurnLengths()
    ensures |Turns(0, 8)| == 8 && |Turns(8, 9)| == 1 && |Turns(9, 16)| == 7
  {
  }
}
