/** The uniqueness check on a profile's entries, and that it keeps the entries out of each other's way. */
module Isolation {
  import opened Bytes
  import opened Netns
  import opened NetnsLaws
  import opened Service
  import opened ServiceLaws
  import opened UndoLaws
  import opened EntryLaws
  import opened Ownership

  // ---------------------------------------------------------------- the validator

  datatype Complaint = Accepted | SharedInterface | ForeignDisplay | SharedName

  function Repeated<T(==)>(s: seq<T>): set<T> { set x | x in s && multiset(s)[x] > 1 }

  function Interfaces(es: seq<Entry>): seq<Name> { seq(|es|, i requires 0 <= i < |es| => es[i].interface) }

  function Names(es: seq<Entry>): seq<(Place, Name)> { seq(|es|, i requires 0 <= i < |es| => (es[i].place, es[i].display)) }

  /** The three checks, in the order in which they are made. */
  function Validate(es: seq<Entry>): Complaint {
    if Repeated(Interfaces(es)) != {} then SharedInterface
    else if exists e :: e in es && e.display != e.interface && e.display in Interfaces(es) then ForeignDisplay
    else if Repeated(Names(es)) != {} then SharedName
    else Accepted
  }

  lemma {:induction false} CountSplit<T>(s: seq<T>, i: nat)
    requires i < |s|
    ensures multiset(s)[s[i]] == multiset(s[..i])[s[i]] + 1 + multiset(s[i + 1..])[s[i]]
  {
    assert s == s[..i] + [s[i]] + s[i + 1..];
  }

  lemma RepeatedIff<T>(s: seq<T>)
    ensures Repeated(s) == {} <==> forall i, j :: 0 <= i < |s| && 0 <= j < |s| && s[i] == s[j] ==> i == j
  {
    if i, j :| 0 <= i < j < |s| && s[i] == s[j] {
      CountSplit(s, i);
      assert s[i + 1..][j - i - 1] == s[i];
      assert s[i] in s[i + 1..];
      assert s[i] in Repeated(s);
    }
    if x :| x in Repeated(s) {
      var i :| 0 <= i < |s| && s[i] == x;
      CountSplit(s, i);
      if x in s[..i] {
        var j :| 0 <= j < i && s[..i][j] == x;
        assert s[j] == s[i];
      } else {
        assert x in s[i + 1..];
        var j :| 0 <= j < |s[i + 1..]| && s[i + 1..][j] == x;
        assert s[i + 1 + j] == s[i];
      }
    }
  }

  /** Two entries do not get in each other's way. */
  predicate Distinguished(a: Entry, b: Entry) {
    a.interface != b.interface && a.display != b.interface && b.display != a.interface
    && !(a.place == b.place && a.display == b.display)
  }

  /** The check accepts exactly the profiles whose entries are pairwise distinguished. */
  lemma AcceptedExactly(es: seq<Entry>)
    ensures Validate(es) == Accepted <==> forall i, j :: 0 <= i < |es| && 0 <= j < |es| && i != j ==> Distinguished(es[i], es[j])
  {
    var ifaces, names := Interfaces(es), Names(es);
    RepeatedIff(ifaces);
    RepeatedIff(names);
    hide Repeated;
    if Validate(es) == Accepted {
      forall i, j | 0 <= i < |es| && 0 <= j < |es| && i != j
        ensures Distinguished(es[i], es[j])
      {
        assert ifaces[i] == es[i].interface && ifaces[j] == es[j].interface;
        assert names[i] == (es[i].place, es[i].display) && names[j] == (es[j].place, es[j].display);
        assert es[i] in es && es[j] in es && ifaces[i] in ifaces && ifaces[j] in ifaces;
      }
    }
    if forall i, j :: 0 <= i < |es| && 0 <= j < |es| && i != j ==> Distinguished(es[i], es[j]) {
      forall i, j | 0 <= i < |es| && 0 <= j < |es| && (ifaces[i] == ifaces[j] || names[i] == names[j])
        ensures i == j
      {
        assert i != j ==> Distinguished(es[i], es[j]);
      }
      forall e | e in es && e.display in ifaces
        ensures e.display == e.interface
      {
        var i :| 0 <= i < |es| && es[i] == e;
        var j :| 0 <= j < |es| && ifaces[j] == e.display;
        assert i != j ==> Distinguished(es[i], es[j]);
      }
    }
  }

  // ---------------------------------------------------------------- whose netdev a lookup finds

  /** A lookup for one entry never returns the netdev standing under another one's name, whatever else there is. */
  lemma FindsNoOther(w: World, a: Entry, b: Entry, x: Wdev)
    requires Distinguished(a, b) && Named(w.net, x, a.place, a.display)
    ensures FindLive(w, b) != Some(x)
  {
  }

  /** No netdev of radio `p` answers to the entry's names. */
  ghost predicate Shuns(n: Net, b: Entry, p: Phy) {
    forall y :: y in n.devs && n.devs[y].phy == p ==> n.devs[y].name != b.interface && !(Sits(n, y, b.place) && n.devs[y].name == b.display)
  }

  /** Radio `p` and its netdevs are exactly as they were. */
  ghost predicate SameRadio(n: Net, m: Net, p: Phy) {
    && (p in n.phys <==> p in m.phys) && (p in n.phys ==> m.phys[p] == n.phys[p])
    && (forall d :: d in n.devs && n.devs[d].phy == p ==> d in m.devs && m.devs[d] == n.devs[d])
    && (forall d :: d in m.devs && m.devs[d].phy == p ==> d in n.devs && m.devs[d] == n.devs[d])
  }

  lemma ShunsFind(w: World, b: Entry, p: Phy)
    requires Shuns(w.net, b, p)
    ensures FindLive(w, b).Some? ==> w.net.devs[FindLive(w, b).value].phy != p
  {
  }

  lemma OffIsSame(n: Net, m: Net, q: Phy, p: Phy)
    requires OffRadio(n, m, q) && p != q
    ensures SameRadio(n, m, p)
  {
  }

  lemma ShunsStays(n: Net, m: Net, b: Entry, p: Phy)
    requires Shuns(n, b, p) && SameRadio(n, m, p)
    ensures Shuns(m, b, p)
  {
  }

  /** The radio a lookup finds, or another one. */
  ghost function Target(w: World, b: Entry, p: Phy): (q: Phy)
    requires WF(w) && Shuns(w.net, b, p)
    ensures q != p && (FindLive(Swept(w), b).Some? ==> Finds(w, b, q))
  {
    SweptWorks(w, 0);
    ShunsFind(Swept(w), b, p);
    var found := FindLive(Swept(w), b);
    if found.Some? then w.net.devs[found.value].phy else p + 1
  }

  /** Whatever fails, deactivating an entry leaves a radio that does not answer to it alone. */
  lemma DeactivationApart(w: World, b: Entry, p: Phy)
    requires WF(w) && Plain(b) && Shuns(w.net, b, p)
    ensures var v := Deactivated(w, b).0; WF(v) && SameRadio(w.net, v.net, p) && Shuns(v.net, b, p)
  {
    hide WF, Shuns, Deactivated, Finds, OffRadio, SameRadio;
    var q := Target(w, b, p);
    DeactivatedWorks(w, b, q);
    OffIsSame(w.net, Deactivated(w, b).0.net, q, p);
    ShunsStays(w.net, Deactivated(w, b).0.net, b, p);
  }

  lemma SameRadioTrans(n: Net, m: Net, k: Net, p: Phy)
    requires SameRadio(n, m, p) && SameRadio(m, k, p)
    ensures SameRadio(n, k, p)
  {
  }

  /** And so does activating one, even when its services fail to start and it is reverted. */
  lemma ActivationApart(w: World, b: Entry, p: Phy)
    requires WF(w) && Plain(b) && Shuns(w.net, b, p)
    ensures var v := Activated(w, b).0; WF(v) && SameRadio(w.net, v.net, p) && Shuns(v.net, b, p)
  {
    hide WF, Shuns, Finds, OffRadio, SameRadio, Prepared, Reverted, Swept, IsLive, InUse;
    var q := Target(w, b, p);
    ActivatedWorks(w, b);
    SweptWorks(w, q);
    var v := Swept(w);
    OffIsSame(w.net, v.net, q, p);
    ShunsStays(w.net, v.net, b, p);
    var found := FindLive(v, b);
    if found.Some? && !InUse(v, found.value) {
      var live := LiveOf(v, found.value);
      FoundRadio(w, b, q);
      assert Backs(v, found.value, live);
      var (u, out) := Prepared(v, b, live);
      PreparedWorks(v, found.value, b, live);
      WorkedTrans(w, v, u, q);
      OffIsSame(w.net, u.net, q, p);
      ShunsStays(w.net, u.net, b, p);
      if out == Done && b.services {
        var (t, started) := Ask(u);
        AskWorks(u, q);
        if !started {
          var r := Target(t, b, p);
          RevertedWorks(t, b, r);
          OffIsSame(t.net, Reverted(t, b).0.net, r, p);
          SameRadioTrans(w.net, t.net, Reverted(t, b).0.net, p);
          ShunsStays(w.net, Reverted(t, b).0.net, b, p);
        }
      }
    }
  }

  lemma FoundRadio(w: World, b: Entry, q: Phy)
    requires Finds(w, b, q) && WF(w)
    ensures var found := FindLive(Swept(w), b);
            found.Some? && found.value in w.net.devs && w.net.devs[found.value].phy == q
  {
    SweptWorks(w, 0);
  }

  // ---------------------------------------------------------------- a whole profile

  datatype Op = Op(up: bool, entry: Entry)

  ghost function Operated(w: World, ops: seq<Op>): World
    decreases |ops|
  {
    if ops == [] then w
    else Operated(if ops[0].up then Activated(w, ops[0].entry).0 else Deactivated(w, ops[0].entry).0, ops[1..])
  }

  /** Any operations on entries a radio does not answer to, whichever commands fail, leave it exactly as it is. */
  lemma OperationsApart(w: World, ops: seq<Op>, p: Phy)
    requires WF(w) && forall o :: o in ops ==> Plain(o.entry) && Shuns(w.net, o.entry, p)
    ensures WF(Operated(w, ops)) && SameRadio(w.net, Operated(w, ops).net, p)
    decreases |ops|
  {
    hide WF, Shuns, Activated, Deactivated;
    if ops != [] {
      var b := ops[0].entry;
      var v := if ops[0].up then Activated(w, b).0 else Deactivated(w, b).0;
      if ops[0].up {
        ActivationApart(w, b, p);
      } else {
        DeactivationApart(w, b, p);
      }
      forall o | o in ops[1..]
        ensures Plain(o.entry) && Shuns(v.net, o.entry, p)
      {
        ShunsStays(w.net, v.net, o.entry, p);
      }
      OperationsApart(v, ops[1..], p);
      SameRadioTrans(w.net, v.net, Operated(v, ops[1..]).net, p);
    }
  }

  /**
   In an accepted profile, once entry `a`'s netdev stands on a radio whose other netdevs have none of the
   profile's names, no operations on other entries delete, move or rename it, whichever commands fail.
   */
  lemma EntriesIsolated(w: World, es: seq<Entry>, a: nat, x: Wdev, ops: seq<Op>)
    requires WF(w) && Validate(es) == Accepted && a < |es| && Named(w.net, x, es[a].place, es[a].display)
    requires forall y, i :: y in w.net.devs && y != x && w.net.devs[y].phy == w.net.devs[x].phy && 0 <= i < |es| ==>
               w.net.devs[y].name != es[i].interface && w.net.devs[y].name != es[i].display
    requires forall o :: o in ops ==> Plain(o.entry) && exists i :: 0 <= i < |es| && i != a && es[i] == o.entry
    ensures var v := Operated(w, ops);
            Named(v.net, x, es[a].place, es[a].display) && v.net.devs[x] == w.net.devs[x]
    ensures forall i :: 0 <= i < |es| && i != a ==> FindLive(Operated(w, ops), es[i]) != Some(x)
  {
    AcceptedExactly(es);
    var p := w.net.devs[x].phy;
    forall o | o in ops
      ensures Shuns(w.net, o.entry, p)
    {
      var i :| 0 <= i < |es| && i != a && es[i] == o.entry;
      assert Distinguished(es[a], es[i]);
    }
    hide WF, Validate;
    OperationsApart(w, ops, p);
    forall i | 0 <= i < |es| && i != a
      ensures FindLive(Operated(w, ops), es[i]) != Some(x)
    {
      FindsNoOther(Operated(w, ops), es[a], es[i], x);
    }
  }

  // ---------------------------------------------------------------- reverting after a failed start

  /** Off its radio, a preparation changes nobody's visibility. */
  lemma StillVisible(w: World, v: World, e: Entry, p: Phy, x: Wdev)
    requires OffRadio(w.net, v.net, p) && x in w.net.devs && w.net.devs[x].phy != p && WF(w)
    requires if e.place.In? then Readied(w, v, e.place.space) else SameSpaces(w, v)
    ensures x in v.net.devs && (Candidate(v, e, x) <==> Candidate(w, e, x))
  {
    hide Uniq, Picks, Housed, Recorded, Known;
    if s :| s in w.markers && IsCore(w, s) && Sits(w.net, x, In(s)) {
      assert s in v.markers && IsCore(v, s) && Sits(v.net, x, In(s));
    }
    if s :| s in v.markers && IsCore(v, s) && Sits(v.net, x, In(s)) {
      assert e.place == In(s) || (s in w.markers && IsCore(w, s) && Sits(w.net, x, In(s)));
    }
  }

  /** No other netdev of the radio has the interface name. */
  lemma NoSiblingCandidate(w: World, e: Entry, d: Wdev, x: Wdev)
    requires WF(w) && FindLive(w, e) == Some(d) && x in w.net.devs && x != d && w.net.devs[x].phy == w.net.devs[d].phy
    ensures w.net.devs[x].name != e.interface
  {
    hide Picks, Housed, Distinct, Recorded, Known;
    assert IsLive(w, e, d);
    var place := w.net.phys[w.net.devs[d].phy];
    assert Candidate(w, e, d) ==> Named(w.net, d, place, e.interface);
    assert !Candidate(w, e, d) ==> place == e.place;
    assert w.net.devs[x].name == e.interface ==> Named(w.net, x, place, e.interface) && (place == e.place ==> Candidate(w, e, x));
  }

  lemma ArrivedName(n: Net, d: Wdev, e: Entry, live: Live, x: Wdev)
    requires Uniq(n) && Named(n, d, live.place, live.name) && x in Arrived(n, e, live).devs
    ensures x in n.devs && x != d && Arrived(n, e, live).devs[x].phy == n.devs[x].phy
    ensures Arrived(n, e, live).devs[x] == n.devs[x] || Arrived(n, e, live).devs[x].name == Picked(x)
  {
    WithoutKeeps(n, live.place, live.name);
    hide Uniq, Clashes;
  }

  /** After a preparation that created its netdev, who answers to the interface name. */
  lemma CandidatesAfter(w: World, d: Wdev, e: Entry, live: Live, x: Wdev)
    requires WF(w) && Plain(e) && FindLive(w, e) == Some(d) && live == LiveOf(w, d) && Prepared(w, e, live).1 == Done
    requires !Clashing(w.net, d, e, live)
    ensures var v := Prepared(w, e, live).0;
            Candidate(v, e, x) <==> if x == w.nextWdev then e.display == e.interface else x != d && Candidate(w, e, x)
  {
    var v := Prepared(w, e, live).0;
    assert Backs(w, d, live);
    WFUniq(w);
    hide WF, Uniq, Prepared, Clashing, OffRadio, Candidate, Arrived, FindLive;
    ClaimExactly(w, d, e, live);
    PreparedLands(w, e, live);
    PreparedWorks(w, d, e, live);
    PreparedSpaces(w, e, live);
    ArrivedTaken(w.net, d, e, live);
    if x == w.nextWdev {
      NewCandidate(v, e, x);
    } else if x in w.net.devs && w.net.devs[x].phy != live.phy {
      StillVisible(w, v, e, live.phy, x);
    } else {
      if x in w.net.devs && x != d {
        NoSiblingCandidate(w, e, d, x);
      }
      if x in Arrived(w.net, e, live).devs {
        ArrivedName(w.net, d, e, live, x);
      }
      NotCandidate(w, e, x);
      NotCandidate(v, e, x);
    }
  }

  lemma NewCandidate(v: World, e: Entry, x: Wdev)
    requires Named(v.net, x, e.place, e.display)
    ensures Candidate(v, e, x) <==> e.display == e.interface
  {
  }

  lemma NotCandidate(w: World, e: Entry, x: Wdev)
    ensures Candidate(w, e, x) ==> x in w.net.devs && w.net.devs[x].name == e.interface
  {
  }

  /**
   When the services of a prepared entry fail to start, the revert finds the netdev just created exactly if
   the entry keeps its interface name, or no other netdev of that name is in sight. Otherwise it finds one of
   another radio.
   */
  lemma RevertFindsOwn(w: World, d: Wdev, e: Entry, live: Live)
    requires WF(w) && Plain(e) && FindLive(w, e) == Some(d) && live == LiveOf(w, d) && Prepared(w, e, live).1 == Done
    requires !Clashing(w.net, d, e, live)
    ensures var v := Prepared(w, e, live).0;
            FindLive(v, e) == Some(w.nextWdev) <==>
            e.display == e.interface || forall x :: x in w.net.devs && x != d ==> !Candidate(w, e, x)
  {
    var v := Prepared(w, e, live).0;
    var made := w.nextWdev;
    assert Backs(w, d, live);
    PreparedWorks(w, d, e, live);
    WFUniq(v);
    forall x
      ensures Candidate(v, e, x) <==> if x == made then e.display == e.interface else x != d && Candidate(w, e, x)
    {
      CandidatesAfter(w, d, e, live, x);
    }
    hide WF, Uniq, Prepared, Clashing, OffRadio, Candidate, FindLive, Rank;
    ClaimExactly(w, d, e, live);
    forall x
      ensures Candidate(w, e, x) ==> x in w.net.devs
      ensures Candidate(v, e, x) ==> x in v.net.devs
    {
      NotCandidate(w, e, x);
      NotCandidate(v, e, x);
    }
    if e.display == e.interface {
      forall x | x in v.net.devs && Candidate(v, e, x)
        ensures Preferred(v, e, made, x)
      {
        FirstChoice(v, e, made, x);
      }
      FoundIs(v, e, made);
    } else if forall x :: x in w.net.devs && x != d ==> !Candidate(w, e, x) {
      FoundIs(v, e, made);
    } else {
      LiveWhenFound(v, e);
    }
  }

  lemma FirstChoice(v: World, e: Entry, made: Wdev, x: Wdev)
    requires Uniq(v.net) && Named(v.net, made, e.place, e.interface) && Candidate(v, e, x)
    ensures Preferred(v, e, made, x)
  {
    assert Sits(v.net, x, e.place) ==> Named(v.net, x, e.place, e.interface);
  }

  lemma LiveWhenFound(w: World, e: Entry)
    ensures FindLive(w, e).Some? ==> FindLive(w, e).value in w.net.devs && IsLive(w, e, FindLive(w, e).value)
  {
  }
}
