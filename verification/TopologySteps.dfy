/** Every call that `Ensure` makes keeps `Inv`. */
module TopologySteps {
  import opened Wrappers
  import opened Kernel
  import opened ApplySpec
  import opened Topology

  /** Host macvtaps of `b` are macvtaps of `a`, above links of the same kind. */
  ghost predicate DevicesFrom(a: map<Key, Link>, b: map<Key, Link>) {
    forall k, w :: Above(b, k, w) && w in b && k.ns.Host? ==> Above(a, k, w) && w in a && a[w].kind == b[w].kind
  }

  lemma DevicesInherit(a: map<Key, Link>, b: map<Key, Link>)
    requires DevicesOk(a) && DevicesFrom(a, b)
    ensures DevicesOk(b)
  {
    hide LowerFits;
  }

  /** New links that nothing refers to yet. */
  lemma DevicesWithNew(lans: Lans, n: Net, m: map<Key, Link>)
    requires Inv(lans, n) && n.links.Keys <= m.Keys
    requires forall k :: k in m ==> if k in n.links then m[k].kind == n.links[k].kind else !m[k].kind.Macvtap?
    ensures DevicesOk(m)
  {
    hide LowerFits, Placed;
    forall k, w | Above(m, k, w) && w in m && k.ns.Host? ensures Above(n.links, k, w) && w in n.links {
      assert LinkOk(lans, n.links, k);
    }
    hide Inv;
    DevicesInherit(n.links, m);
  }

  /** A change to one link's up flag, master or mask keeps Inv if the new master is right. */
  lemma FlagsKeepInv(lans: Lans, n: Net, k: Key, l: Link)
    requires Inv(lans, n) && k in n.links
    requires l.kind == n.links[k].kind && l.index == n.links[k].index
    requires l.master == n.links[k].master
             || (l.master.Some? && k.ns.Lan? && SetMaster(n, k, l.master.value).Some?
                 && !(k.name in lans[k.ns.name].spokes))
    ensures Inv(lans, n.(links := n.links[k := l]))
  {
    hide LinkOk, SetMaster, DevicesOk;
    var m := n.links[k := l];
    DevicesWithNew(lans, n, m);
    assert forall x :: x in m ==> m[x].kind == n.links[x].kind;
    forall x | x in m ensures LinkOk(lans, m, x) {
      FlagsKeepLink(lans, n, k, l, x);
    }
    forall a, b, w | IsVeth(m, w) && Above(m, a, w) && Above(m, b, w) ensures a == b {
      assert IsVeth(n.links, w) && Above(n.links, a, w) && Above(n.links, b, w);
    }
    assert NsOk(n.(links := m));
  }

  lemma FlagsKeepLink(lans: Lans, n: Net, k: Key, l: Link, x: Key)
    requires LinksOk(lans, n.links) && k in n.links && x in n.links
    requires l.kind == n.links[k].kind && l.index == n.links[k].index
    requires l.master == n.links[k].master
             || (l.master.Some? && k.ns.Lan? && SetMaster(n, k, l.master.value).Some?
                 && !(k.name in lans[k.ns.name].spokes))
    ensures LinkOk(lans, n.links[k := l], x)
  {
    assert LinkOk(lans, n.links, x);
  }

  /** A new link without references keeps Inv where its name is right for its kind. */
  lemma AddKeepsInv(lans: Lans, n: Net, k: Key, kind: Kind)
    requires Inv(lans, n) && Add(n, k, kind).Some?
    requires k.ns.Lan? ==> IsMounted(n, k.ns.name)
    requires kind.Bridge? || kind.Vxlan? || kind.Dummy?
    requires Placed(lans, k, Fresh(n, kind))
    ensures Inv(lans, Add(n, k, kind).value)
  {
    hide DevicesOk;
    var m := Add(n, k, kind).value;
    DevicesWithNew(lans, n, m.links);
    forall x | x in m.links ensures LinkOk(lans, m.links, x) {
      AddedLink(lans, n, k, kind, x);
    }
    hide LinkOk;
    forall a, b, w | IsVeth(m.links, w) && Above(m.links, a, w) && Above(m.links, b, w) ensures a == b {
      assert IsVeth(n.links, w) && Above(n.links, a, w) && Above(n.links, b, w);
    }
  }

  lemma AddedLink(lans: Lans, n: Net, k: Key, kind: Kind, x: Key)
    requires LinksOk(lans, n.links) && Add(n, k, kind).Some? && Placed(lans, k, Fresh(n, kind))
    requires kind.Bridge? || kind.Vxlan? || kind.Dummy?
    requires x in Add(n, k, kind).value.links
    ensures LinkOk(lans, Add(n, k, kind).value.links, x)
  {
    if x != k { assert LinkOk(lans, n.links, x); }
  }

  lemma PeerNameStem(lans: Lans, lan: LanSpec, spoke: string)
    requires NoClash(lans) && lan.ns in lans && lans[lan.ns] == lan && spoke in lan.spokes
    ensures IsPeerName(lan, PeerName(spoke)) && Stem(PeerName(spoke), "p") == spoke
    ensures PeerName(spoke) !in lan.spokes && spoke in AllSpokes(lans)
    ensures spoke != "lo" && spoke != lan.bridge && spoke != lan.vxlan
    ensures PeerName(spoke) != "lo" && PeerName(spoke) != lan.bridge && PeerName(spoke) != lan.vxlan
  {
    var q := PeerName(spoke);
    assert q[..|q| - 1] == spoke && q[|q| - 1..] == "p";
    OwnApart(lans, lan);
    if q in lan.spokes { PeerIsNoSpoke(lans, lan, q, spoke); }
    PeerIsNoSpoke(lans, lan, spoke, spoke);
    hide NoClash, AllSpokes;
  }

  lemma OwnApart(lans: Lans, lan: LanSpec)
    requires NoClash(lans) && lan.ns in lans && lans[lan.ns] == lan
    ensures OwnNamesApart(lan)
  {
  }

  lemma PeerIsNoSpoke(lans: Lans, lan: LanSpec, s: string, t: string)
    requires NoClash(lans) && lan.ns in lans && lans[lan.ns] == lan && s in lan.spokes && t in lan.spokes
    ensures s in AllSpokes(lans) && s != PeerName(t)
  {
    hide OwnNamesApart, Reserved;
  }

  /** The pair for a spoke, both ends in the LAN namespace. */
  lemma AddVethKeepsInv(lans: Lans, n: Net, lan: LanSpec, spoke: string)
    requires NoClash(lans) && Inv(lans, n) && lan.ns in lans && lans[lan.ns] == lan && spoke in lan.spokes
    requires IsMounted(n, lan.ns)
    requires AddVeth(n, NewSpokeKey(lan, spoke), PeerKey(lan, spoke)).Some?
    ensures Inv(lans, AddVeth(n, NewSpokeKey(lan, spoke), PeerKey(lan, spoke)).value)
  {
    var s, p := NewSpokeKey(lan, spoke), PeerKey(lan, spoke);
    var m := AddVeth(n, s, p).value;
    AddVethLinks(lans, n, lan, spoke);
    AddVethRest(lans, n, lan, spoke);
    DevicesWithNew(lans, n, m.links);
    hide LinksOk, OneMacvtap, DevicesOk, NsOk, IndexOk, NoClash, AddVeth;
  }

  lemma AddVethRest(lans: Lans, n: Net, lan: LanSpec, spoke: string)
    requires Inv(lans, n) && IsMounted(n, lan.ns)
    requires AddVeth(n, NewSpokeKey(lan, spoke), PeerKey(lan, spoke)).Some?
    ensures var m := AddVeth(n, NewSpokeKey(lan, spoke), PeerKey(lan, spoke)).value;
            OneMacvtap(m.links) && NsOk(m) && IndexOk(m)
  {
    var m := AddVeth(n, NewSpokeKey(lan, spoke), PeerKey(lan, spoke)).value;
    forall a, w | IsVeth(m.links, w) && Above(m.links, a, w) ensures IsVeth(n.links, w) && Above(n.links, a, w) {
      assert LinkOk(lans, n.links, a);
    }
  }

  lemma AddVethLinks(lans: Lans, n: Net, lan: LanSpec, spoke: string)
    requires NoClash(lans) && Inv(lans, n) && lan.ns in lans && lans[lan.ns] == lan && spoke in lan.spokes
    requires AddVeth(n, NewSpokeKey(lan, spoke), PeerKey(lan, spoke)).Some?
    ensures LinksOk(lans, AddVeth(n, NewSpokeKey(lan, spoke), PeerKey(lan, spoke)).value.links)
  {
    var s, p := NewSpokeKey(lan, spoke), PeerKey(lan, spoke);
    var m := AddVeth(n, s, p).value;
    PeerNameStem(lans, lan, spoke);
    forall x | x in m.links ensures LinkOk(lans, m.links, x) {
      if x == s || x == p {
        assert RefsOk(m.links, x);
        assert PlacedInLan(lan, x, m.links[x]);
      } else {
        assert LinkOk(lans, n.links, x);
      }
    }
  }

  lemma EraseLink(lans: Lans, links: map<Key, Link>, roots: set<Key>, x: Key)
    requires LinksOk(lans, links)
    requires x in links && x !in Doomed(links, roots)
    ensures x in Erase(Net(links, 0, map[]), roots).links
    ensures LinkOk(lans, Erase(Net(links, 0, map[]), roots).links, x)
  {
    var gone := Doomed(links, roots);
    var m := Erase(Net(links, 0, map[]), roots).links;
    assert LinkOk(lans, links, x);
    var l := links[x];
    assert m[x] == Unslave(l, gone);
    if l.kind.Veth? {
      assert LinkOk(lans, links, l.kind.peer);
      assert l.kind.peer !in gone;
    } else if l.kind.Macvtap? {
      assert l.kind.lower !in gone;
    }
    assert RefsOk(m, x);
    assert Placed(lans, x, m[x]);
  }

  lemma EraseKeepsInv(lans: Lans, n: Net, roots: set<Key>)
    requires LinksOk(lans, n.links) && OneMacvtap(n.links) && DevicesOk(n.links) && IndexOk(n)
    ensures var m := Erase(n, roots); LinksOk(lans, m.links) && OneMacvtap(m.links) && DevicesOk(m.links) && IndexOk(m)
    ensures forall k :: k in Erase(n, roots).links ==> k in n.links && Erase(n, roots).links[k].kind == n.links[k].kind
  {
    hide LinkOk, OneMacvtap, DevicesOk, IndexOk;
    var m := Erase(n, roots);
    forall x | x in m.links ensures LinkOk(lans, m.links, x) {
      EraseLink(lans, n.links, roots, x);
    }
    EraseRest(n, roots);
    assert DevicesFrom(n.links, m.links);
    DevicesInherit(n.links, m.links);
  }

  lemma EraseRest(n: Net, roots: set<Key>)
    requires OneMacvtap(n.links) && IndexOk(n)
    ensures OneMacvtap(Erase(n, roots).links) && IndexOk(Erase(n, roots))
    ensures forall k :: k in Erase(n, roots).links ==> k in n.links && Erase(n, roots).links[k].kind == n.links[k].kind
  {
    hide Doomed;
    var m := Erase(n, roots);
    forall a, w | IsVeth(m.links, w) && Above(m.links, a, w) ensures IsVeth(n.links, w) && Above(n.links, a, w) {
    }
  }

  lemma LinkDeleteKeepsInv(lans: Lans, n: Net, k: Key, c: Call, faults: set<Call>)
    requires Inv(lans, n)
    ensures Inv(lans, LinkDelete(n, k, c, faults).net)
    ensures LinkDelete(n, k, c, faults).net.mounts == n.mounts
  {
    hide LinksOk, OneMacvtap, DevicesOk, IndexOk, Erase;
    if c !in faults && k in n.links && !n.links[k].kind.Loopback? {
      EraseKeepsInv(lans, n, {k});
      EraseMountsKept(n, {k});
      var m := Erase(n, {k});
      forall x | IsMounted(m, x) ensures LoKey(x) in m.links {
        LoIsLoopback(lans, n, x);
        LoStays(lans, n, {k}, x);
      }
      assert NsOk(m);
    }
  }

  lemma EraseMountsKept(n: Net, roots: set<Key>)
    ensures Erase(n, roots).mounts == n.mounts && Erase(n, roots).next == n.next
  {
  }

  lemma LoStays(lans: Lans, n: Net, roots: set<Key>, x: string)
    requires Inv(lans, n) && IsMounted(n, x) && LoKey(x) !in roots
    ensures LoKey(x) in Erase(n, roots).links
  {
    assert LinkOk(lans, n.links, LoKey(x));
  }

  /** Where a link may be moved to: a new spoke end to the host, a host or pod link into a pod. */
  predicate MoveAllowed(lans: Lans, n: Net, k: Key, to: Key)
  {
    && Move(n, k, to).Some? && !n.links[k].kind.Vxlan?
    && (match k.ns
        case Lan(m) => m in lans && k.name in lans[m].spokes && to == HostKey(k.name)
        case _ => to.ns.Pod?)
  }

  lemma MoveKeepsInv(lans: Lans, n: Net, k: Key, to: Key)
    requires NoClash(lans) && Inv(lans, n) && MoveAllowed(lans, n, k, to)
    ensures Inv(lans, Move(n, k, to).value)
  {
    hide LinkOk, NoClash, DevicesOk;
    var m := Move(n, k, to).value;
    MovedDevices(lans, n, k, to);
    forall x | x in m.links ensures LinkOk(lans, m.links, x) {
      MovedLink(lans, n, k, to, x);
    }
    forall a, b, w | IsVeth(m.links, w) && Above(m.links, a, w) && Above(m.links, b, w) ensures a == b {
      MovedAbove(lans, n, k, to, a, w);
      MovedAbove(lans, n, k, to, b, w);
    }
    forall x | IsMounted(m, x) ensures LoKey(x) in m.links {
      LoIsLoopback(lans, n, x);
    }
    MovedIndex(n, k, to);
  }

  /** A moved device is still above its own spoke's end, wherever that is. */
  lemma MovedDevices(lans: Lans, n: Net, k: Key, to: Key)
    requires NoClash(lans) && Inv(lans, n) && MoveAllowed(lans, n, k, to)
    ensures DevicesOk(Move(n, k, to).value.links)
  {
    var m := Move(n, k, to).value.links;
    hide NoClash, LowerFits, Inv, Move, MoveAllowed;
    forall x, w | Above(m, x, w) && w in m && x.ns.Host? ensures LowerFits(x.name, m[w].kind) {
      MovedDevice(lans, n, k, to, x, w);
      DeviceFits(lans, n, x, Renamed(w, to, k));
      EndNotMoved(lans, n, k, to, x, Renamed(w, to, k));
    }
  }

  lemma DeviceFits(lans: Lans, n: Net, x: Key, v: Key)
    requires Inv(lans, n) && Above(n.links, x, v) && v in n.links && x.ns.Host?
    ensures LowerFits(x.name, n.links[v].kind)
  {
    hide LowerFits, LinkOk;
  }

  /** Either the lower device is as it was, or its veth peer is the link that moves. */
  lemma MovedDevice(lans: Lans, n: Net, k: Key, to: Key, x: Key, w: Key)
    requires Inv(lans, n) && MoveAllowed(lans, n, k, to)
    requires var m := Move(n, k, to).value.links; Above(m, x, w) && w in m && x.ns.Host?
    ensures var v := Renamed(w, to, k);
            && Above(n.links, x, v) && v in n.links
            && (n.links[v].kind == Move(n, k, to).value.links[w].kind || n.links[v].kind == Veth(k))
  {
    MovedRefs(lans, n, k, to, x);
    SpokeMoves(lans, n, k, to);
    RefsHere(lans, n, Renamed(x, to, k));
    hide Inv;
  }

  lemma RefsHere(lans: Lans, n: Net, x: Key)
    requires Inv(lans, n)
    ensures x in n.links ==> RefsOk(n.links, x)
  {
    if x in n.links { assert LinkOk(lans, n.links, x); }
  }

  /** A link that leaves a LAN namespace is the spoke end of a pair whose other end stays there. */
  lemma SpokeMoves(lans: Lans, n: Net, k: Key, to: Key)
    requires Inv(lans, n) && MoveAllowed(lans, n, k, to)
    ensures to.ns.Host? ==> k.ns.Lan?
    ensures k.ns.Lan? ==> n.links[k].kind.Veth? && n.links[k].kind.peer.ns == k.ns
    ensures to !in n.links && k in n.links
  {
    assert LinkOk(lans, n.links, k);
  }

  /** A host device is above a link that stays a spoke's end: the other end of that pair is not the link that moves. */
  lemma EndNotMoved(lans: Lans, n: Net, k: Key, to: Key, x: Key, v: Key)
    requires Inv(lans, n) && MoveAllowed(lans, n, k, to) && Above(n.links, x, v) && v in n.links && x.ns.Host?
    ensures n.links[v].kind != Veth(k)
  {
    SpokeMoves(lans, n, k, to);
    RefsHere(lans, n, x);
    RefsHere(lans, n, v);
    DeviceFits(lans, n, x, v);
    HostDevice(lans, n, x);
    hide Inv;
  }

  lemma HostDevice(lans: Lans, n: Net, x: Key)
    requires Inv(lans, n) && x in n.links && x.ns.Host? && n.links[x].kind.Macvtap?
    ensures EndsIn(x.name, "M0") || EndsIn(x.name, "V0")
  {
    assert LinkOk(lans, n.links, x);
  }

  lemma LoIsLoopback(lans: Lans, n: Net, x: string)
    requires Inv(lans, n) && IsMounted(n, x)
    ensures LoKey(x) in n.links && n.links[LoKey(x)].kind.Loopback?
  {
    assert LinkOk(lans, n.links, LoKey(x));
  }

  lemma MovedIndex(n: Net, k: Key, to: Key)
    requires IndexOk(n) && Move(n, k, to).Some?
    ensures IndexOk(Move(n, k, to).value)
  {
    var m := Move(n, k, to).value;
    forall i | i in m.links
      ensures Renamed(i, to, k) in n.links && m.links[i].index == n.links[Renamed(i, to, k)].index && m.next == n.next
    {
    }
    hide Move;
  }

  lemma MovedAbove(lans: Lans, n: Net, k: Key, to: Key, a: Key, w: Key)
    requires Inv(lans, n) && Move(n, k, to).Some?
    requires var m := Move(n, k, to).value; IsVeth(m.links, w) && Above(m.links, a, w)
    ensures IsVeth(n.links, Renamed(w, to, k)) && Above(n.links, Renamed(a, to, k), Renamed(w, to, k))
  {
    assert LinkOk(lans, n.links, Renamed(a, to, k));
  }

  lemma MovedLink(lans: Lans, n: Net, k: Key, to: Key, x: Key)
    requires NoClash(lans) && Inv(lans, n) && MoveAllowed(lans, n, k, to)
    requires x in Move(n, k, to).value.links
    ensures LinkOk(lans, Move(n, k, to).value.links, x)
  {
    var m := Move(n, k, to).value;
    MovedRefs(lans, n, k, to, x);
    var y := Renamed(x, to, k);
    assert LinkOk(lans, n.links, y) && LinkOk(lans, n.links, k);
    if y == k {
      MovedEnd(lans, n, k, to);
    } else if n.links[y].kind.Veth? && n.links[y].kind.peer == k {
      MovedPeer(lans, n, k, to, y);
    } else {
      assert m.links[x] == n.links[y] || n.links[y].kind.Macvtap?;
    }
  }

  lemma SpokeName(lans: Lans, s: string)
    requires NoClash(lans) && s in AllSpokes(lans)
    ensures !IsDeviceName(lans, s) && s != DUMMY_IF_NAME
  {
    hide NoClash, AllSpokes;
    if IsDeviceName(lans, s) {
      var m := EndsIn(s, "M0") && Stem(s, "M0") in AllSpokes(lans);
      var t := Stem(s, if m then "M0" else "V0");
      assert s == t + if m then "M0" else "V0";
      SpokesApart(lans, s, t);
    }
    SpokesApart(lans, s, s);
  }

  lemma SpokesApart(lans: Lans, s: string, t: string)
    requires NoClash(lans) && s in AllSpokes(lans) && t in AllSpokes(lans)
    ensures s != t + "M0" && s != t + "V0" && s != DUMMY_IF_NAME
  {
    assert s != DeviceName(t, false) && s != DeviceName(t, true);
    hide AllSpokes, OwnNamesApart, Reserved;
  }

  lemma MovedEnd(lans: Lans, n: Net, k: Key, to: Key)
    requires NoClash(lans) && MoveAllowed(lans, n, k, to) && LinkOk(lans, n.links, k)
    ensures Placed(lans, to, Move(n, k, to).value.links[to])
  {
    if k.ns.Lan? {
      PeerNameStem(lans, lans[k.ns.name], k.name);
      SpokeName(lans, k.name);
    }
  }

  lemma MovedPeer(lans: Lans, n: Net, k: Key, to: Key, y: Key)
    requires NoClash(lans) && MoveAllowed(lans, n, k, to) && LinkOk(lans, n.links, k) && y in n.links
    requires LinkOk(lans, n.links, y) && y != k && n.links[y].kind == Veth(k)
    ensures y != to && Placed(lans, y, Move(n, k, to).value.links[y])
  {
    if k.ns.Lan? {
      PeerNameStem(lans, lans[k.ns.name], k.name);
    }
  }

  lemma MovedRefs(lans: Lans, n: Net, k: Key, to: Key, x: Key)
    requires Inv(lans, n) && Move(n, k, to).Some? && !to.ns.Lan?
    requires x in Move(n, k, to).value.links
    ensures RefsOk(Move(n, k, to).value.links, x)
  {
    var y := Renamed(x, to, k);
    RefsHere(lans, n, y);
    RefsHere(lans, n, k);
    hide Inv, RefsOk;
    MovedFrom(n, k, to, x);
    RefsMove(n, k, to, y);
  }

  lemma MovedFrom(n: Net, k: Key, to: Key, x: Key)
    requires Move(n, k, to).Some? && x in Move(n, k, to).value.links
    ensures Renamed(x, to, k) in n.links && Renamed(Renamed(x, to, k), k, to) == x
  {
  }

  lemma RefsMove(n: Net, k: Key, to: Key, y: Key)
    requires Move(n, k, to).Some? && !to.ns.Lan? && y in n.links && RefsOk(n.links, y) && RefsOk(n.links, k)
    ensures var m := Move(n, k, to).value.links; Renamed(y, k, to) in m && RefsOk(m, Renamed(y, k, to))
  {
  }
}
