/** Stored profiles, their public view without secrets, and an edit that keeps secrets the client could not send. */
module Secrets {
  import opened Bytes

  type Text = seq<Byte>

  /** `rest` stands for the fields that the public view returns as they are. */
  datatype Security = Security(rest: nat, psk: Option<Text>, password: Option<Text>)

  datatype PublicSecurity = PublicSecurity(rest: nat, pskSet: bool, passwordSet: bool)

  /** An entry; a root entry has no namespace. */
  datatype Item<S> = Item(space: Option<nat>, iface: nat, rest: nat, security: Option<S>)

  datatype Config<S> = Config(id: nat, namespaces: Option<seq<Item<S>>>, roots: Option<seq<Item<S>>>)

  type Stored = Config<Security>

  type Public = Config<PublicSecurity>

  type Key = (Option<nat>, nat)

  function KeyOf<S>(e: Item<S>): Key { (e.space, e.iface) }

  function Listed<S>(items: Option<seq<Item<S>>>): seq<Item<S>> { if items.Some? then items.value else [] }

  function All<S>(c: Config<S>): seq<Item<S>> { Listed(c.namespaces) + Listed(c.roots) }

  /** Namespace entries name a namespace and root entries do not, and no interface is used twice. */
  ghost predicate Valid<S>(c: Config<S>) {
    && (forall e :: e in Listed(c.namespaces) ==> e.space.Some?)
    && (forall e :: e in Listed(c.roots) ==> e.space.None?)
    && (forall i, j :: 0 <= i < j < |All(c)| ==> All(c)[i].iface != All(c)[j].iface)
  }

  // ---------------------------------------------------------------- the public view

  predicate IsSet(t: Option<Text>) { t.Some? && t.value != [] }

  function FromSecurity(s: Security): PublicSecurity { PublicSecurity(s.rest, IsSet(s.psk), IsSet(s.password)) }

  function PublicItem(e: Item<Security>): Item<PublicSecurity> {
    Item(e.space, e.iface, e.rest, if e.security.None? then None else Some(FromSecurity(e.security.value)))
  }

  function PublicItems(es: seq<Item<Security>>): (r: seq<Item<PublicSecurity>>)
    ensures |r| == |es| && forall i :: 0 <= i < |es| ==> r[i] == PublicItem(es[i])
  {
    if es == [] then [] else [PublicItem(es[0])] + PublicItems(es[1..])
  }

  /** The view a client gets; missing lists come as empty ones. */
  function FromConfig(c: Stored): Public {
    Config(c.id, Some(PublicItems(Listed(c.namespaces))), Some(PublicItems(Listed(c.roots))))
  }

  /** The entry a client sends back unedited: it has no secrets to send. */
  function SentItem(e: Item<PublicSecurity>): Item<Security> {
    Item(e.space, e.iface, e.rest, if e.security.None? then None else Some(Security(e.security.value.rest, None, None)))
  }

  function SentItems(es: seq<Item<PublicSecurity>>): (r: seq<Item<Security>>)
    ensures |r| == |es| && forall i :: 0 <= i < |es| ==> r[i] == SentItem(es[i])
  {
    if es == [] then [] else [SentItem(es[0])] + SentItems(es[1..])
  }

  datatype Update = Update(namespaces: Option<seq<Item<Security>>>, roots: Option<seq<Item<Security>>>)

  function SentBack(p: Public): Update {
    Update(Some(SentItems(Listed(p.namespaces))), Some(SentItems(Listed(p.roots))))
  }

  // ---------------------------------------------------------------- editing

  /** The last stored entry with this key. */
  function Lookup(es: seq<Item<Security>>, k: Key): Option<Item<Security>> {
    if es == [] then None else if KeyOf(es[|es| - 1]) == k then Some(es[|es| - 1]) else Lookup(es[..|es| - 1], k)
  }

  /** A secret the update omits is the stored one, unless that is empty. */
  function KeptSecret(stored: Option<Text>, sent: Option<Text>): Option<Text> {
    if sent.None? && IsSet(stored) then stored else sent
  }

  function KeptItem(past: seq<Item<Security>>, e: Item<Security>): Item<Security> {
    var was := Lookup(past, KeyOf(e));
    if was.None? || was.value.security.None? || e.security.None? then e
    else
      var s, t := was.value.security.value, e.security.value;
      e.(security := Some(t.(psk := KeptSecret(s.psk, t.psk), password := KeptSecret(s.password, t.password))))
  }

  function KeptItems(past: seq<Item<Security>>, es: seq<Item<Security>>): (r: seq<Item<Security>>)
    ensures |r| == |es| && forall i :: 0 <= i < |es| ==> r[i] == KeptItem(past, es[i])
  {
    if es == [] then [] else [KeptItem(past, es[0])] + KeptItems(past, es[1..])
  }

  function Kept(stored: Stored, c: Stored): Stored {
    c.(namespaces := if c.namespaces.None? then None else Some(KeptItems(All(stored), c.namespaces.value)),
       roots := if c.roots.None? then None else Some(KeptItems(All(stored), c.roots.value)))
  }

  /** The fields the update has replace the stored ones. */
  function Merged(stored: Stored, u: Update): Stored {
    stored.(namespaces := if u.namespaces.Some? then u.namespaces else stored.namespaces,
            roots := if u.roots.Some? then u.roots else stored.roots)
  }

  ghost function Edited(stored: Stored, u: Update): Option<Stored> {
    if Valid(Merged(stored, u)) then Some(Kept(stored, Merged(stored, u))) else None
  }

  /** The same profile, with missing lists as empty ones. */
  function Normal(c: Stored): Stored { c.(namespaces := Some(Listed(c.namespaces)), roots := Some(Listed(c.roots))) }

  // ---------------------------------------------------------------- as it runs

  /** The entries by key; a later one with the same key replaces an earlier one. */
  method ByKey(c: Stored) returns (entries: map<Key, Item<Security>>)
    ensures forall k :: k in entries <==> Lookup(All(c), k).Some?
    ensures forall k :: k in entries ==> Lookup(All(c), k) == Some(entries[k])
  {
    var all := All(c);
    entries := map[];
    assert all[..0] == [];
    for i := 0 to |all|
      invariant forall k :: k in entries <==> Lookup(all[..i], k).Some?
      invariant forall k :: k in entries ==> Lookup(all[..i], k) == Some(entries[k])
    {
      assert all[..i + 1][..i] == all[..i];
      entries := entries[KeyOf(all[i]) := all[i]];
    }
    assert all[..|all|] == all;
  }

  /** Go through the updated entries and put back what the update omitted. */
  method KeepIn(past: map<Key, Item<Security>>, ghost stored: Stored, items: seq<Item<Security>>) returns (r: seq<Item<Security>>)
    requires forall k :: k in past <==> Lookup(All(stored), k).Some?
    requires forall k :: k in past ==> Lookup(All(stored), k) == Some(past[k])
    ensures r == KeptItems(All(stored), items)
  {
    r := items;
    for i := 0 to |items|
      invariant |r| == |items|
      invariant forall j :: 0 <= j < |items| ==> r[j] == if j < i then KeptItem(All(stored), items[j]) else items[j]
    {
      var e := r[i];
      if KeyOf(e) in past && past[KeyOf(e)].security.Some? && e.security.Some? {
        var was, now := past[KeyOf(e)].security.value, e.security.value;
        if now.psk.None? && IsSet(was.psk) {
          now := now.(psk := was.psk);
        }
        if now.password.None? && IsSet(was.password) {
          now := now.(password := was.password);
        }
        r := r[i := e.(security := Some(now))];
      }
    }
  }

  method KeepStoredSecrets(stored: Stored, updated: Stored) returns (r: Stored)
    ensures r == Kept(stored, updated)
  {
    var past := ByKey(stored);
    r := updated;
    if updated.namespaces.Some? {
      var items := KeepIn(past, stored, updated.namespaces.value);
      r := r.(namespaces := Some(items));
    }
    if updated.roots.Some? {
      var items := KeepIn(past, stored, updated.roots.value);
      r := r.(roots := Some(items));
    }
  }
}
