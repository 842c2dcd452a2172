/** The commands keep the kernel's guarantees, and touch only the radio they name. */
module NetnsLaws {
  import opened Bytes
  import opened Netns

  /** Everything that is not on radio `p` is as it was. */
  ghost predicate OffRadio(n: Net, m: Net, p: Phy) {
    && m.phys.Keys == n.phys.Keys && (forall q :: q in n.phys && q != p ==> m.phys[q] == n.phys[q])
    && (forall d :: d in n.devs && n.devs[d].phy != p ==> d in m.devs && m.devs[d] == n.devs[d])
    && (forall d :: d in m.devs && m.devs[d].phy != p ==> d in n.devs && m.devs[d] == n.devs[d])
  }

  lemma OffRadioTrans(n: Net, m: Net, k: Net, p: Phy)
    requires OffRadio(n, m, p) && OffRadio(m, k, p)
    ensures OffRadio(n, k, p)
  {
  }

  lemma OffRadioSelf(n: Net, p: Phy)
    ensures OffRadio(n, n, p)
  {
  }

  // ---------------------------------------------------------------- deleting a netdev

  lemma WithoutKeeps(n: Net, place: Place, name: Name)
    ensures var m := Without(n, place, name);
            && m.phys == n.phys && m.devs.Keys <= n.devs.Keys && (forall d :: d in m.devs ==> m.devs[d] == n.devs[d])
            && (forall d :: d in n.devs ==> (d in m.devs <==> !Named(n, d, place, name)))
            && !Taken(m, place, name)
            && (Uniq(n) ==> Uniq(m)) && (Picks(n) ==> Picks(m))
            && (forall next :: Known(n, next) ==> Known(m, next))
  {
    var m := Without(n, place, name);
    forall x, l, k | Named(m, x, l, k)
      ensures Named(n, x, l, k)
    {
    }
  }

  lemma DeleteDevKeeps(w: World, place: Place, name: Name)
    requires WF(w)
    ensures var (v, ok) := DeleteDev(w, place, name);
            && WF(v) && v == w.(net := v.net, verdicts := v.verdicts)
            && v.net == (if ok then Without(w.net, place, name) else w.net)
  {
    hide Uniq, Picks, Known, Without;
    WithoutKeeps(w.net, place, name);
  }

  lemma WithoutOffRadio(n: Net, place: Place, name: Name, p: Phy)
    requires forall d :: Named(n, d, place, name) ==> n.devs[d].phy == p
    ensures OffRadio(n, Without(n, place, name), p)
  {
    WithoutKeeps(n, place, name);
    hide Without, Named;
  }

  // ---------------------------------------------------------------- adding a netdev

  function With(n: Net, d: Wdev, dev: Dev): Net { n.(devs := n.devs[d := dev]) }

  lemma WithNames(n: Net, d: Wdev, dev: Dev, x: Wdev, l: Place, k: Name)
    requires d !in n.devs
    ensures Named(With(n, d, dev), x, l, k) <==>
            if x == d then dev.phy in n.phys && n.phys[dev.phy] == l && dev.name == k else Named(n, x, l, k)
  {
  }

  lemma WithKeeps(n: Net, d: Wdev, dev: Dev)
    requires d !in n.devs && dev.phy in n.phys && !Taken(n, n.phys[dev.phy], dev.name)
    requires Uniq(n)
    ensures Uniq(With(n, d, dev)) && OffRadio(n, With(n, d, dev), dev.phy)
    ensures Named(With(n, d, dev), d, n.phys[dev.phy], dev.name) && Taken(With(n, d, dev), n.phys[dev.phy], dev.name)
  {
    var m := With(n, d, dev);
    forall x, l, k
      ensures Named(m, x, l, k) <==> if x == d then n.phys[dev.phy] == l && dev.name == k else Named(n, x, l, k)
    {
      WithNames(n, d, dev, x, l, k);
    }
    assert Named(m, d, n.phys[dev.phy], dev.name);
  }

  lemma CreateDevKeeps(w: World, p: Phy, place: Place, name: Name, mode: Mode)
    requires WF(w) && (name.Picked? ==> name.wdev < w.nextWdev && name.wdev !in w.net.devs)
    ensures var (v, ok) := CreateDev(w, p, place, name, mode);
            && WF(v) && v == w.(net := v.net, verdicts := v.verdicts, nextWdev := v.nextWdev, made := v.made)
            && OffRadio(w.net, v.net, p)
            && (ok ==> p in w.net.phys && w.net.phys[p] == place && Taken(v.net, place, name))
            && (if ok && !Taken(w.net, place, name)
                then v.net == With(w.net, w.nextWdev, Dev(name, p, mode)) && v.nextWdev == w.nextWdev + 1 && v.made == w.made + {w.nextWdev}
                else v.net == w.net && v.nextWdev == w.nextWdev && v.made == w.made)
  {
    hide Uniq, Taken, Picks, Known, OffRadio;
    var (v, ok) := CreateDev(w, p, place, name, mode);
    OffRadioSelf(w.net, p);
    FreshKeeps(w.net, w.nextWdev, Dev(name, p, mode));
    if ok && !Taken(w.net, place, name) {
      WithKeeps(w.net, w.nextWdev, Dev(name, p, mode));
    }
  }

  /** A netdev with a new identifier and a name no live one has as a kernel-picked name. */
  lemma FreshKeeps(n: Net, next: Wdev, dev: Dev)
    requires Known(n, next) && Picks(n) && (dev.name.Picked? ==> dev.name.wdev < next && dev.name.wdev !in n.devs)
    ensures next !in n.devs
    ensures dev.phy in n.phys ==> Known(With(n, next, dev), next + 1) && Picks(With(n, next, dev))
    ensures With(n, next, dev).phys == n.phys
  {
  }

  // ---------------------------------------------------------------- moving a radio

  lemma CarriedNames(n: Net, p: Phy, to: Place, x: Wdev, y: Wdev, l: Place, k: Name)
    requires Uniq(n) && Picks(n) && p in n.phys
    requires Named(Carried(n, p, to), x, l, k) && Named(Carried(n, p, to), y, l, k)
    ensures x == y
  {
    var m := Carried(n, p, to);
    var a, b := n.devs[x], n.devs[y];
    if a.phy == p && b.phy == p {
      assert Named(n, x, n.phys[p], a.name) && Named(n, y, n.phys[p], b.name);
    } else if a.phy != p && b.phy != p {
      assert Named(n, x, l, k) && Named(n, y, l, k);
    } else if a.phy == p {
      assert Named(n, y, to, b.name);
    } else {
      assert Named(n, x, to, a.name);
    }
  }

  lemma CarriedKeeps(n: Net, p: Phy, to: Place)
    requires Uniq(n) && Picks(n) && p in n.phys
    ensures Uniq(Carried(n, p, to)) && Picks(Carried(n, p, to)) && OffRadio(n, Carried(n, p, to), p)
    ensures Carried(n, p, to).devs.Keys == n.devs.Keys
    ensures forall next :: Known(n, next) ==> Known(Carried(n, p, to), next)
  {
    var m := Carried(n, p, to);
    forall x, y, l, k | Named(m, x, l, k) && Named(m, y, l, k)
      ensures x == y
    {
      CarriedNames(n, p, to, x, y, l, k);
    }
    hide Uniq, Clashes, Named;
  }

  lemma MovePhyKeeps(w: World, p: Phy, from: Place, to: Place)
    requires WF(w)
    ensures var (v, ok) := MovePhy(w, p, from, to);
            && WF(v) && v == w.(net := v.net, verdicts := v.verdicts) && OffRadio(w.net, v.net, p)
            && (ok ==> p in w.net.phys && w.net.phys[p] == from && v.net == Carried(w.net, p, to))
            && (!ok ==> v.net == w.net)
  {
    var (v, ok) := MovePhy(w, p, from, to);
    hide Uniq, Picks, Known, OffRadio;
    OffRadioSelf(w.net, p);
    if ok {
      CarriedKeeps(w.net, p, to);
    }
  }

  // ---------------------------------------------------------------- namespaces

  predicate Vacant(n: Net, s: Label) { forall p :: p in n.phys ==> n.phys[p] != In(s) }

  lemma SpacesKeep(w: World, s: Label)
    requires WF(w)
    ensures WF(CreateSpace(w, s).0)
    ensures Vacant(w.net, s) ==> WF(DeleteSpace(w, s))
  {
    hide Uniq, Picks, Known;
  }
}
