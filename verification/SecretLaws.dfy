/** What a client may rely on when it reads, edits and writes back a profile. */
module SecretLaws {
  import opened Bytes
  import opened Secrets

  /** A key finds the one entry that has it. */
  lemma {:induction false} LookupFinds(es: seq<Item<Security>>, i: nat)
    requires i < |es| && forall a, b :: 0 <= a < b < |es| ==> es[a].iface != es[b].iface
    ensures Lookup(es, KeyOf(es[i])) == Some(es[i])
    decreases |es|
  {
    if i < |es| - 1 {
      LookupFinds(es[..|es| - 1], i);
    }
  }

  lemma {:induction false} LookupHas(es: seq<Item<Security>>, k: Key)
    ensures Lookup(es, k).Some? ==> Lookup(es, k).value in es && KeyOf(Lookup(es, k).value) == k
    ensures Lookup(es, k).None? <==> forall e :: e in es ==> KeyOf(e) != k
    decreases |es|
  {
    if es != [] {
      LookupHas(es[..|es| - 1], k);
      assert es == es[..|es| - 1] + [es[|es| - 1]];
    }
  }

  /** No secret is stored as the empty string. */
  ghost predicate NoEmptySecrets(c: Stored) {
    forall e :: e in All(c) && e.security.Some? ==> e.security.value.psk != Some([]) && e.security.value.password != Some([])
  }

  function RoundTripped(past: seq<Item<Security>>, e: Item<Security>): Item<Security> { KeptItem(past, SentItem(PublicItem(e))) }

  /** One entry, read and sent back unedited, is stored unchanged exactly if it has no empty secret. */
  lemma ItemBack(es: seq<Item<Security>>, i: nat)
    requires i < |es| && forall a, b :: 0 <= a < b < |es| ==> es[a].iface != es[b].iface
    ensures RoundTripped(es, es[i]) == es[i] <==>
            (es[i].security.Some? ==> es[i].security.value.psk != Some([]) && es[i].security.value.password != Some([]))
  {
    LookupFinds(es, i);
  }

  lemma SentIs(es: seq<Item<Security>>)
    ensures |SentItems(PublicItems(es))| == |es|
    ensures forall i :: 0 <= i < |es| ==> SentItems(PublicItems(es))[i] == SentItem(PublicItem(es[i]))
  {
  }

  lemma SentIsValid(c: Stored)
    requires Valid(c)
    ensures Valid(Merged(c, SentBack(FromConfig(c))))
  {
    var m := Merged(c, SentBack(FromConfig(c)));
    SentIs(Listed(c.namespaces));
    SentIs(Listed(c.roots));
    assert |All(m)| == |All(c)|;
    forall i | 0 <= i < |All(c)|
      ensures All(m)[i].iface == All(c)[i].iface
    {
    }
    forall e | e in Listed(m.namespaces)
      ensures e.space.Some?
    {
      var i :| 0 <= i < |Listed(m.namespaces)| && Listed(m.namespaces)[i] == e;
      assert Listed(c.namespaces)[i] in Listed(c.namespaces);
    }
    forall e | e in Listed(m.roots)
      ensures e.space.None?
    {
      var i :| 0 <= i < |Listed(m.roots)| && Listed(m.roots)[i] == e;
      assert Listed(c.roots)[i] in Listed(c.roots);
    }
  }

  /** Every entry of the list comes back as it was. */
  ghost predicate Back(past: seq<Item<Security>>, es: seq<Item<Security>>) {
    forall i :: 0 <= i < |es| ==> RoundTripped(past, es[i]) == es[i]
  }

  lemma BackList(past: seq<Item<Security>>, es: seq<Item<Security>>)
    ensures KeptItems(past, SentItems(PublicItems(es))) == es <==> Back(past, es)
  {
    var r := KeptItems(past, SentItems(PublicItems(es)));
    SentIs(es);
    assert forall i :: 0 <= i < |es| ==> r[i] == RoundTripped(past, es[i]);
    hide RoundTripped, KeptItem;
  }

  lemma BackBoth(c: Stored)
    requires Valid(c)
    ensures Back(All(c), Listed(c.namespaces)) && Back(All(c), Listed(c.roots)) <==> NoEmptySecrets(c)
  {
    var all, n := All(c), |Listed(c.namespaces)|;
    forall i | 0 <= i < |all|
      ensures RoundTripped(all, all[i]) == all[i] <==>
              (all[i].security.Some? ==> all[i].security.value.psk != Some([]) && all[i].security.value.password != Some([]))
    {
      ItemBack(all, i);
    }
    hide RoundTripped;
    assert forall i :: 0 <= i < n ==> all[i] == Listed(c.namespaces)[i];
    assert forall i :: 0 <= i < |Listed(c.roots)| ==> all[n + i] == Listed(c.roots)[i];
    if NoEmptySecrets(c) {
      assert forall i :: 0 <= i < |all| ==> all[i] in all;
    }
    if Back(all, Listed(c.namespaces)) && Back(all, Listed(c.roots)) {
      forall e | e in all
        ensures RoundTripped(all, e) == e
      {
        var i :| 0 <= i < |all| && all[i] == e;
        assert i < n || all[i] == Listed(c.roots)[i - n];
      }
    }
  }

  /**
   Reading a profile and writing the public view back unedited stores the same profile, missing lists as empty
   ones, exactly if no secret was stored as the empty string; such a secret is lost.
   */
  lemma ReadEditWrite(c: Stored)
    requires Valid(c)
    ensures Edited(c, SentBack(FromConfig(c))) == Some(Normal(c)) <==> NoEmptySecrets(c)
  {
    SentIsValid(c);
    BackList(All(c), Listed(c.namespaces));
    BackList(All(c), Listed(c.roots));
    BackBoth(c);
    hide Back, NoEmptySecrets, Valid, KeptItems, SentItems, PublicItems;
  }

  // ---------------------------------------------------------------- what an update does

  /** One secret after an update: what was sent, or else the same entry's stored one, unless that is empty. */
  predicate Follows(was: Option<Text>, sent: Option<Text>, got: Option<Text>) {
    got == if sent.Some? then sent else if was.Some? && |was.value| > 0 then was else None
  }

  /**
   One entry after an update, against what was sent for it: everything sent is stored; a secret that was not sent is
   that of the stored entry with the same namespace and interface, if both have security; nobody else's ever.
   */
  ghost predicate Entered(stored: seq<Item<Security>>, sent: Item<Security>, got: Item<Security>) {
    && got.space == sent.space && got.iface == sent.iface && got.rest == sent.rest && (got.security.None? <==> sent.security.None?)
    && (sent.security.Some? ==>
          var t, g := sent.security.value, got.security.value;
          && g.rest == t.rest
          && (forall e :: e in stored && e.space == sent.space && e.iface == sent.iface && e.security.Some? ==>
                Follows(e.security.value.psk, t.psk, g.psk) && Follows(e.security.value.password, t.password, g.password))
          && ((forall e :: e in stored && e.space == sent.space && e.iface == sent.iface ==> e.security.None?) ==>
                g.psk == t.psk && g.password == t.password))
  }

  ghost predicate EnteredAll(stored: seq<Item<Security>>, sent: seq<Item<Security>>, got: seq<Item<Security>>) {
    |got| == |sent| && forall i :: 0 <= i < |sent| ==> Entered(stored, sent[i], got[i])
  }

  lemma EntersItem(stored: seq<Item<Security>>, e: Item<Security>)
    requires forall a, b :: 0 <= a < b < |stored| ==> stored[a].iface != stored[b].iface
    ensures Entered(stored, e, KeptItem(stored, e))
  {
    LookupHas(stored, KeyOf(e));
    forall x | x in stored && x.space == e.space && x.iface == e.iface
      ensures Lookup(stored, KeyOf(e)) == Some(x)
    {
      var i :| 0 <= i < |stored| && stored[i] == x;
      LookupFinds(stored, i);
    }
    hide Lookup;
  }

  lemma EntersItems(stored: seq<Item<Security>>, es: seq<Item<Security>>)
    requires forall a, b :: 0 <= a < b < |stored| ==> stored[a].iface != stored[b].iface
    ensures EnteredAll(stored, es, KeptItems(stored, es))
  {
    forall i | 0 <= i < |es|
      ensures Entered(stored, es[i], KeptItems(stored, es)[i])
    {
      EntersItem(stored, es[i]);
    }
  }

  /** A list the update leaves out is stored as it was. */
  lemma StaysAsStored(stored: seq<Item<Security>>, es: seq<Item<Security>>)
    requires (forall a, b :: 0 <= a < b < |stored| ==> stored[a].iface != stored[b].iface) && forall e :: e in es ==> e in stored
    ensures KeptItems(stored, es) == es
  {
    forall i | 0 <= i < |es|
      ensures KeptItem(stored, es[i]) == es[i]
    {
      assert es[i] in stored;
      var j :| 0 <= j < |stored| && stored[j] == es[i];
      LookupFinds(stored, j);
    }
  }

  /**
   What an edit stores: a list that the update has replaces the stored one, entry by entry as sent, secrets that were
   not sent filled in; a list that it has not stays. It is refused exactly if the result would not be valid.
   */
  lemma EditStores(c: Stored, u: Update)
    requires Valid(c)
    ensures var lists := Config(c.id, if u.namespaces.Some? then u.namespaces else c.namespaces, if u.roots.Some? then u.roots else c.roots);
            Edited(c, u).Some? <==> Valid(lists)
    ensures Edited(c, u).Some? ==>
              var r := Edited(c, u).value;
              && r.id == c.id
              && (if u.namespaces.None? then r.namespaces == c.namespaces
                  else r.namespaces.Some? && EnteredAll(All(c), u.namespaces.value, r.namespaces.value))
              && (if u.roots.None? then r.roots == c.roots else r.roots.Some? && EnteredAll(All(c), u.roots.value, r.roots.value))
  {
    EntersItems(All(c), Listed(u.namespaces));
    EntersItems(All(c), Listed(u.roots));
    StaysAsStored(All(c), Listed(c.namespaces));
    StaysAsStored(All(c), Listed(c.roots));
    hide KeptItems, EnteredAll, Valid;
  }

  /** What a client sees of an entry: all but its secrets, and of those only whether they are there. */
  lemma ViewShows(c: Stored)
    ensures var p := FromConfig(c);
            && p.id == c.id && p.namespaces.Some? && p.roots.Some?
            && Shown(Listed(c.namespaces), p.namespaces.value) && Shown(Listed(c.roots), p.roots.value)
  {
  }

  ghost predicate Shown(es: seq<Item<Security>>, vs: seq<Item<PublicSecurity>>) {
    |vs| == |es| && forall i :: 0 <= i < |es| ==>
      && vs[i].space == es[i].space && vs[i].iface == es[i].iface && vs[i].rest == es[i].rest
      && (vs[i].security.None? <==> es[i].security.None?)
      && (es[i].security.Some? ==>
            var s, v := es[i].security.value, vs[i].security.value;
            && v.rest == s.rest && (v.pskSet <==> s.psk.Some? && |s.psk.value| > 0) && (v.passwordSet <==> s.password.Some? && |s.password.value| > 0))
  }

  // ---------------------------------------------------------------- whatever was stored

  lemma EditedEntry(c: Stored, u: Update, i: nat)
    requires Edited(c, u).Some? && i < |All(Merged(c, u))|
    ensures |All(Edited(c, u).value)| == |All(Merged(c, u))|
    ensures All(Edited(c, u).value)[i] == KeptItem(All(c), All(Merged(c, u))[i])
  {
    hide Valid, KeptItem;
  }

  /**
   For any update: entry by entry the result is what was sent, except for secrets the update omits; and a
   secret that was kept is the stored one of the entry with the same namespace and interface, never another's.
   */
  lemma KeptFromSameKey(c: Stored, u: Update, i: nat)
    requires Edited(c, u).Some? && i < |All(Merged(c, u))|
    ensures var sent := All(Merged(c, u))[i]; var r := Edited(c, u).value;
            && |All(r)| == |All(Merged(c, u))| && All(r)[i].(security := sent.security) == sent
            && (sent.security.None? ==> All(r)[i] == sent)
            && (sent.security.Some? && All(r)[i] != sent ==>
                  exists e :: e in All(c) && KeyOf(e) == KeyOf(sent) && e.security.Some? && All(r)[i].security.Some?
                    && All(r)[i].security.value.rest == sent.security.value.rest
                    && Follows(e.security.value.psk, sent.security.value.psk, All(r)[i].security.value.psk)
                    && Follows(e.security.value.password, sent.security.value.password, All(r)[i].security.value.password))
  {
    var sent := All(Merged(c, u))[i];
    EditedEntry(c, u, i);
    LookupHas(All(c), KeyOf(sent));
  }

  /** An entry the stored profile does not have gets no secret but those sent with it. */
  lemma NewEntryGetsNone(c: Stored, u: Update, i: nat)
    requires Edited(c, u).Some? && i < |All(Merged(c, u))|
    requires forall e :: e in All(c) ==> KeyOf(e) != KeyOf(All(Merged(c, u))[i])
    ensures |All(Edited(c, u).value)| == |All(Merged(c, u))| && All(Edited(c, u).value)[i] == All(Merged(c, u))[i]
  {
    LookupHas(All(c), KeyOf(All(Merged(c, u))[i]));
    EditedEntry(c, u, i);
  }
}
