/**
 What one `Ensure` touches, on success and on failure, and what it has made when it succeeds.
 A failed open of a mounted namespace (`NsOpen`) is left aside here: it makes Ensure recreate
 the namespace, and everything in it goes (`EnsureInv` covers it).
 */
module EnsureFrame {
  import opened Wrappers
  import opened Kernel
  import opened ApplySpec
  import opened Topology
  import opened TopologySteps
  import opened EnsureInv

  predicate Same(a: Net, b: Net, k: Key) {
    (k in a.links <==> k in b.links) && (k in a.links ==> a.links[k] == b.links[k])
  }

  /** `a` and `b` have the same links outside `f`. */
  ghost predicate AgreeOff(a: Net, b: Net, f: set<Key>) {
    forall k :: k !in f ==> Same(a, b, k)
  }

  lemma AgreeChain(a: Net, b: Net, c: Net, f: set<Key>, g: set<Key>)
    requires AgreeOff(a, b, f) && AgreeOff(b, c, g)
    ensures AgreeOff(a, c, f + g)
  {
    forall k | k !in f + g ensures Same(a, c, k) {
      assert Same(a, b, k) && Same(b, c, k);
    }
  }

  // ----- deletions -----

  /** Deleting a link deletes its veth peer and what is above the pair, and nothing else changes. */
  lemma EraseOneFrame(lans: Lans, n: Net, k: Key)
    requires Inv(lans, n) && (k in n.links ==> !n.links[k].kind.Bridge?)
    ensures AgreeOff(n, Erase(n, {k}), Doomed(n.links, {k}))
    ensures forall x :: x in Doomed(n.links, {k}) ==> x !in Erase(n, {k}).links
    ensures k !in Erase(n, {k}).links
  {
    var gone := Doomed(n.links, {k});
    forall x | x !in gone ensures Same(n, Erase(n, {k}), x) {
      if x in n.links {
        assert LinkOk(lans, n.links, x);
        assert n.links[x].master.Some? ==> n.links[n.links[x].master.value].kind.Bridge?;
      }
    }
  }

  /** A link that is not a veth and has nothing above it goes alone. */
  lemma DoomedAlone(lans: Lans, n: Net, k: Key)
    requires Inv(lans, n) && k in n.links && (n.links[k].kind.Vxlan? || n.links[k].kind.Macvtap?)
    ensures Doomed(n.links, {k}) == {k}
  {
    assert LinkOk(lans, n.links, k);
    hide Inv, LinkOk, Placed;
    assert n.links[k].kind.Vxlan? ==> k.ns.Lan?;
    forall x | x in n.links ensures x in Doomed(n.links, {k}) <==> x == k {
      RefFacts(lans, n, x);
    }
  }

  /** The spoke's pair and the macvtaps above its outer end. */
  function OldPair(n: Net, lan: LanSpec, spoke: string): set<Key> {
    Doomed(n.links, {PeerKey(lan, spoke)})
  }

  /** Which links go with a spoke's pair. */
  lemma OldPairIs(lans: Lans, n: Net, lan: LanSpec, spoke: string, k: Key)
    requires Ctx(lans, lan, spoke) && Inv(lans, n)
    ensures var p := PeerKey(lan, spoke);
            k in OldPair(n, lan, spoke) <==>
              p in n.links && n.links[p].kind.Veth? && k in n.links
              && (k == p || k == n.links[p].kind.peer || Above(n.links, k, n.links[p].kind.peer))
  {
    hide NoClash, Inv;
    var p := PeerKey(lan, spoke);
    if k in n.links {
      RefFacts(lans, n, k);
      if n.links[k].kind.Macvtap? { RefFacts(lans, n, n.links[k].kind.lower); }
      if n.links[k].kind.Veth? { RefFacts(lans, n, n.links[k].kind.peer); }
    }
    if p in n.links { PeerEnd(lans, n, lan, spoke); }
  }

  lemma RefFacts(lans: Lans, n: Net, k: Key)
    requires Inv(lans, n) && k in n.links
    ensures RefsOk(n.links, k)
  {
    assert LinkOk(lans, n.links, k);
  }

  lemma PeerEnd(lans: Lans, n: Net, lan: LanSpec, spoke: string)
    requires Ctx(lans, lan, spoke) && Inv(lans, n) && PeerKey(lan, spoke) in n.links
    ensures var p := PeerKey(lan, spoke); n.links[p].kind.Veth? && RefsOk(n.links, p)
  {
    PeerNameStem(lans, lan, spoke);
    assert LinkOk(lans, n.links, PeerKey(lan, spoke));
  }

  // ----- the prologue -----

  function BasePrint(lan: LanSpec): set<Key> {
    {LoKey(lan.ns), BridgeKey(lan)}
  }

  lemma EnsureNsFrame(lans: Lans, n: Net, lan: string, faults: set<Call>)
    requires Inv(lans, n) && (NsOpen in faults ==> !IsMounted(n, lan))
    ensures var r := EnsureNs(n, lan, faults);
            && AgreeOff(n, r.net, {LoKey(lan)}) && n.next <= r.net.next
            && (forall x :: x != lan ==> (IsMounted(n, x) <==> IsMounted(r.net, x)))
            && (IsMounted(n, lan) ==> r == Ok(n))
            && (r.Ok? ==> IsMounted(r.net, lan) && LoKey(lan) in r.net.links)
            && (r.Ok? && !IsMounted(n, lan) ==> r.net.links[LoKey(lan)] == Fresh(n, Loopback))
  {
    hide Erase;
  }

  lemma EnsureBridgeFrame(n: Net, lan: LanSpec, faults: set<Call>)
    ensures var r, b := EnsureBridge(n, lan, faults), BridgeKey(lan);
            && AgreeOff(n, r.net, {b}) && n.next <= r.net.next && r.net.mounts == n.mounts
            && (r.Ok? ==> b in r.net.links && r.net.links[b].kind.Bridge?)
            && (b in n.links ==> r.net == n)
            && (r.Ok? && b !in n.links ==> r.net.links[b] == Link(n.next, Bridge, true, None, 0))
  {
  }

  /** The loopback that Ensure leaves in the LAN namespace. */
  predicate LoAfter(n: Net, m: Net, lan: string) {
    && LoKey(lan) in m.links
    && m.links[LoKey(lan)].(index := 0)
       == if LoKey(lan) in n.links then n.links[LoKey(lan)].(index := 0, up := true)
          else Link(0, Loopback, true, None, 0)
  }

  /** An existing bridge stays as it is; a new one is up. */
  predicate BridgeAfter(n: Net, m: Net, lan: LanSpec) {
    var b := BridgeKey(lan);
    && b in m.links && m.links[b].kind.Bridge?
    && (b in n.links ==> m.links[b] == n.links[b])
    && (b !in n.links ==> m.links[b].(index := 0) == Link(0, Bridge, true, None, 0))
  }

  lemma PrologueFrame(lans: Lans, n: Net, lan: LanSpec, hostname: string, faults: set<Call>)
    requires NoClash(lans) && lan.ns in lans && lans[lan.ns] == lan && Inv(lans, n)
    requires NsOpen in faults ==> !IsMounted(n, lan.ns)
    ensures var r := Prologue(n, lan, hostname, faults);
            && AgreeOff(n, r.net, BasePrint(lan)) && n.next <= r.net.next
            && (r.Ok? ==> BridgeAfter(n, r.net, lan) && LoAfter(n, r.net, lan.ns) && IsMounted(r.net, lan.ns))
  {
    hide NoClash, Inv, EnsureNs, EnsureBridge, AgreeOff, SetUp, BridgeAfter, LoAfter, Same, VxFound;
    EnsureNsFrame(lans, n, lan.ns, faults);
    var n1 := EnsureNs(n, lan.ns, faults).net;
    AgreeMore(n, n1, {LoKey(lan.ns)}, BasePrint(lan));
    if SetUp(n1, LoKey(lan.ns)).Some? { BaseFrame(lans, n, lan, faults); }
  }

  /** Loopback up, and the bridge. */
  lemma BaseFrame(lans: Lans, n: Net, lan: LanSpec, faults: set<Call>)
    requires NoClash(lans) && lan.ns in lans && lans[lan.ns] == lan && Inv(lans, n)
    requires NsOpen in faults ==> !IsMounted(n, lan.ns)
    requires SetUp(EnsureNs(n, lan.ns, faults).net, LoKey(lan.ns)).Some?
    ensures var ns := EnsureNs(n, lan.ns, faults);
            var n2 := SetUp(ns.net, LoKey(lan.ns)).value;
            var r := EnsureBridge(n2, lan, faults);
            && AgreeOff(n, n2, BasePrint(lan)) && AgreeOff(n, r.net, BasePrint(lan))
            && n.next <= n2.next <= r.net.next
            && (ns.Ok? && r.Ok? ==> BridgeAfter(n, r.net, lan) && LoAfter(n, r.net, lan.ns) && IsMounted(r.net, lan.ns))
  {
    var lo, b := LoKey(lan.ns), BridgeKey(lan);
    LoNeedsMount(lans, n, lan.ns);
    LoNotBridge(lans, lan);
    hide NoClash, Inv, EnsureNs, EnsureBridge, AgreeOff, SetUp;
    EnsureNsFrame(lans, n, lan.ns, faults);
    var n1 := EnsureNs(n, lan.ns, faults).net;
    LoUpFrame(n1, lo);
    var n2 := SetUp(n1, lo).value;
    AgreeChain(n, n1, n2, {lo}, {lo});
    EnsureBridgeFrame(n2, lan, faults);
    var n3 := EnsureBridge(n2, lan, faults).net;
    AgreeChain(n, n2, n3, {lo} + {lo}, {b});
    assert {lo} + {lo} + {b} == BasePrint(lan);
    AgreeAt(n, n2, {lo} + {lo}, b);
    AgreeAt(n2, n3, {b}, lo);
    AgreeMore(n, n2, {lo} + {lo}, BasePrint(lan));
  }

  lemma LoNotBridge(lans: Lans, lan: LanSpec)
    requires NoClash(lans) && lan.ns in lans && lans[lan.ns] == lan
    ensures LoKey(lan.ns) != BridgeKey(lan)
  {
  }

  lemma AgreeAt(a: Net, b: Net, f: set<Key>, k: Key)
    requires AgreeOff(a, b, f) && k !in f
    ensures Same(a, b, k)
  {
  }

  lemma AgreeMore(a: Net, b: Net, f: set<Key>, g: set<Key>)
    requires AgreeOff(a, b, f) && f <= g
    ensures AgreeOff(a, b, g)
  {
  }

  lemma LoUpFrame(n: Net, lo: Key)
    ensures var r := SetUp(n, lo);
            && (r.Some? <==> lo in n.links)
            && (r.Some? ==> AgreeOff(n, r.value, {lo}) && r.value.next == n.next && r.value.mounts == n.mounts
                            && lo in r.value.links && r.value.links[lo] == n.links[lo].(up := true))
  {
  }

  lemma LoNeedsMount(lans: Lans, n: Net, lan: string)
    requires Inv(lans, n)
    ensures IsMounted(n, lan) <==> LoKey(lan) in n.links
  {
  }

  // ----- the veth pair -----

  function VethPrint(n: Net, lan: LanSpec, spoke: string): set<Key> {
    OldPair(n, lan, spoke) + {PeerKey(lan, spoke), NewSpokeKey(lan, spoke), HostKey(spoke)}
  }

  /** What replaces the old pair: the bridge end on the bridge, the outer end in the host. */
  predicate VethAfter(n: Net, m: Net, lan: LanSpec, spoke: string) {
    var p, s, h := PeerKey(lan, spoke), NewSpokeKey(lan, spoke), HostKey(spoke);
    && s !in m.links && p in m.links && h in m.links
    && m.links[p] == Link(n.next + 1, Veth(h), true, Some(BridgeKey(lan)), BR_SLAVE_GRP_FWD_MASK)
    && m.links[h] == Link(n.next, Veth(p), false, None, 0)
    && (forall k :: k in OldPair(n, lan, spoke) && k != p && k != h ==> k !in m.links)
  }

  lemma VethFrame(lans: Lans, n: Net, lan: LanSpec, spoke: string, faults: set<Call>)
    requires Ctx(lans, lan, spoke) && Inv(lans, n)
    ensures var r := EnsureVeth(n, lan, spoke, faults);
            && AgreeOff(n, r.net, VethPrint(n, lan, spoke)) && n.next <= r.net.next
            && (r.Ok? ==> VethAfter(n, r.net, lan, spoke))
  {
    hide Inv, NoClash, EnsureVeth, OldPair, LinkDelete;
    PeerNameStem(lans, lan, spoke);
    LinkDeletePair(lans, n, lan, spoke, faults);
    VethRemade(lans, n, lan, spoke, faults);
    var p, s, h := PeerKey(lan, spoke), NewSpokeKey(lan, spoke), HostKey(spoke);
    var n0 := LinkDelete(n, p, DelPeer, faults).net;
    AgreeChain(n, n0, EnsureVeth(n, lan, spoke, faults).net, OldPair(n, lan, spoke), {p, s, h});
    if EnsureVeth(n, lan, spoke, faults).Ok? {
      forall k | k in OldPair(n, lan, spoke) && k != p && k != h
        ensures k !in EnsureVeth(n, lan, spoke, faults).net.links
      {
        assert k == s || Same(n0, EnsureVeth(n, lan, spoke, faults).net, k);
      }
    }
  }

  /** After the old pair is deleted: what is remade, and that nothing else is touched. */
  lemma VethRemade(lans: Lans, n: Net, lan: LanSpec, spoke: string, faults: set<Call>)
    requires Ctx(lans, lan, spoke) && Inv(lans, LinkDelete(n, PeerKey(lan, spoke), DelPeer, faults).net)
    ensures var p, s, h, b := PeerKey(lan, spoke), NewSpokeKey(lan, spoke), HostKey(spoke), BridgeKey(lan);
            var n0, r := LinkDelete(n, p, DelPeer, faults).net, EnsureVeth(n, lan, spoke, faults);
            && AgreeOff(n0, r.net, {p, s, h}) && n0.next <= r.net.next
            && (r.Ok? ==>
                  && p !in n0.links && s !in r.net.links && p in r.net.links && h in r.net.links
                  && r.net.links[p] == Link(n0.next + 1, Veth(h), true, Some(b), BR_SLAVE_GRP_FWD_MASK)
                  && r.net.links[h] == Link(n0.next, Veth(p), false, None, 0))
  {
    hide Inv, Erase, NoClash, IsPeerName, Stem, Doomed, LinkDelete;
    var p, s := PeerKey(lan, spoke), NewSpokeKey(lan, spoke);
    PeerNameStem(lans, lan, spoke);
    var n0 := LinkDelete(n, p, DelPeer, faults).net;
    if AddVeth(n0, s, p).Some? { VethMoved(lans, n0, lan, spoke, faults); }
  }

  lemma LinkDeletePair(lans: Lans, n: Net, lan: LanSpec, spoke: string, faults: set<Call>)
    requires Ctx(lans, lan, spoke) && Inv(lans, n)
    ensures var m := LinkDelete(n, PeerKey(lan, spoke), DelPeer, faults).net;
            && AgreeOff(n, m, OldPair(n, lan, spoke)) && m.next == n.next && Inv(lans, m)
            && (PeerKey(lan, spoke) !in m.links ==> forall k :: k in OldPair(n, lan, spoke) ==> k !in m.links)
  {
    var p := PeerKey(lan, spoke);
    PeerNameStem(lans, lan, spoke);
    LinkDeleteKeepsInv(lans, n, p, DelPeer, faults);
    if p in n.links { assert LinkOk(lans, n.links, p); }
    EraseOneFrame(lans, n, p);
    forall k | k in OldPair(n, lan, spoke) ensures p in n.links {
      OldPairIs(lans, n, lan, spoke, k);
    }
  }

  /** From a state without the pair: each early return leaves it unfinished, the last one delivers it. */
  lemma VethMoved(lans: Lans, n0: Net, lan: LanSpec, spoke: string, faults: set<Call>)
    requires Ctx(lans, lan, spoke) && Inv(lans, n0)
    requires AddVeth(n0, NewSpokeKey(lan, spoke), PeerKey(lan, spoke)).Some?
    ensures var p, s, h, b := PeerKey(lan, spoke), NewSpokeKey(lan, spoke), HostKey(spoke), BridgeKey(lan);
            var n2 := SetUp(AddVeth(n0, s, p).value, s).value;
            && AgreeOff(n0, n2, {p, s})
            && (SetMaster(n2, p, b).Some? ==>
                  var n3 := SetMaster(n2, p, b).value;
                  var n4 := SetMask(n3, p, BR_SLAVE_GRP_FWD_MASK).value;
                  var n5 := SetUp(n4, p).value;
                  && AgreeOff(n0, n3, {p, s}) && AgreeOff(n0, n4, {p, s}) && AgreeOff(n0, n5, {p, s})
                  && (Move(n5, s, h).Some? ==>
                        var n6 := Move(n5, s, h).value;
                        && AgreeOff(n0, n6, {p, s, h})
                        && n6.links[p] == Link(n0.next + 1, Veth(h), true, Some(b), BR_SLAVE_GRP_FWD_MASK)
                        && n6.links[h] == Link(n0.next, Veth(p), false, None, 0)
                        && s !in n6.links))
  {
    hide Inv, NoClash, IsPeerName, Stem;
    var p, s, h, b := PeerKey(lan, spoke), NewSpokeKey(lan, spoke), HostKey(spoke), BridgeKey(lan);
    PeerNameStem(lans, lan, spoke);
    var n2 := SetUp(AddVeth(n0, s, p).value, s).value;
    if SetMaster(n2, p, b).Some? {
      var n3 := SetMaster(n2, p, b).value;
      var n4 := SetMask(n3, p, BR_SLAVE_GRP_FWD_MASK).value;
      var n5 := SetUp(n4, p).value;
      assert n5 == Built(n0, lan, spoke);
      VethDelivered(lans, n0, lan, spoke);
    }
  }

  /** The finished pair, still in the LAN namespace. */
  function Built(n0: Net, lan: LanSpec, spoke: string): Net {
    var p, s := PeerKey(lan, spoke), NewSpokeKey(lan, spoke);
    n0.(links := n0.links[s := Link(n0.next, Veth(p), true, None, 0)]
                         [p := Link(n0.next + 1, Veth(s), true, Some(BridgeKey(lan)), BR_SLAVE_GRP_FWD_MASK)],
        next := n0.next + 2)
  }

  lemma VethDelivered(lans: Lans, n0: Net, lan: LanSpec, spoke: string)
    requires Inv(lans, n0) && NewSpokeKey(lan, spoke) !in n0.links && PeerKey(lan, spoke) !in n0.links
    ensures var p, s, h := PeerKey(lan, spoke), NewSpokeKey(lan, spoke), HostKey(spoke);
            var n5 := Built(n0, lan, spoke);
            Move(n5, s, h).Some? ==>
              var n6 := Move(n5, s, h).value;
              && AgreeOff(n0, n6, {p, s, h})
              && n6.links[p] == Link(n0.next + 1, Veth(h), true, Some(BridgeKey(lan)), BR_SLAVE_GRP_FWD_MASK)
              && n6.links[h] == Link(n0.next, Veth(p), false, None, 0)
              && s !in n6.links
  {
    var p, s, h := PeerKey(lan, spoke), NewSpokeKey(lan, spoke), HostKey(spoke);
    assert p.name != s.name;
    var n5 := Built(n0, lan, spoke);
    if Move(n5, s, h).Some? {
      var n6 := Move(n5, s, h).value;
      forall k | k !in {p, s, h} ensures Same(n0, n6, k) {
        if k in n0.links { assert LinkOk(lans, n0.links, k); }
      }
    }
  }

  // ----- the vxlan -----

  /** The calls whose failure the attach step keeps to itself. */
  const HIDDEN_CALLS := {FindVxAgain, FindBrAgain, MasterVx, MaskVx, UpVx}

  /** Those after which the vxlan is not put on the bridge. */
  const OFF_BRIDGE_CALLS := {FindVxAgain, FindBrAgain, MasterVx}

  function NewVx(index: nat, lan: LanSpec, dev: nat): Link {
    Link(index, Vxlan(WantedConf(lan, dev)), false, None, 0)
  }

  /** How far the attach step gets with a vxlan. */
  function AttachLink(l: Link, lan: LanSpec, faults: set<Call>): Link {
    if !(faults !! OFF_BRIDGE_CALLS) then l
    else if MaskVx in faults then Enslaved(l, BridgeKey(lan))
    else if UpVx in faults then l.(master := Some(BridgeKey(lan)), mask := BR_SLAVE_GRP_FWD_MASK)
    else l.(master := Some(BridgeKey(lan)), mask := BR_SLAVE_GRP_FWD_MASK, up := true)
  }

  lemma DropVxFrame(lans: Lans, n: Net, lan: LanSpec, need: bool, faults: set<Call>)
    requires NoClash(lans) && lan.ns in lans && lans[lan.ns] == lan && Inv(lans, n)
    ensures var m, v := DropVx(n, lan, need, faults), VxKey(lan);
            && AgreeOff(n, m, {v}) && m.next == n.next && m.mounts == n.mounts && Inv(lans, m)
            && (if need && DelVx !in faults then v !in m.links else m == n)
  {
    var v := VxKey(lan);
    LinkDeleteKeepsInv(lans, n, v, DelVx, faults);
    if v in n.links {
      assert LinkOk(lans, n.links, v);
      DoomedAlone(lans, n, v);
      EraseOneFrame(lans, n, v);
    } else {
      assert AgreeOff(n, n, {v});
    }
  }

  lemma EnsureVxFrame(n: Net, lan: LanSpec, dev: nat, faults: set<Call>)
    requires lan.bridge != lan.vxlan && BridgeKey(lan) in n.links && n.links[BridgeKey(lan)].kind.Bridge?
    requires VxKey(lan) in n.links ==> n.links[VxKey(lan)].kind.Vxlan?
    ensures var r, v := EnsureVx(n, lan, dev, faults), VxKey(lan);
            && AgreeOff(n, r.net, {v}) && n.next <= r.net.next
            && (r.Ok? ==>
                  && v in r.net.links
                  && r.net.links[v]
                     == AttachLink(if v in n.links then n.links[v] else NewVx(n.next, lan, dev), lan, faults))
  {
  }

  // ----- the macvtap -----

  function MacvtapLower(spoke: string, dummy: bool): Key {
    if dummy then HostKey(DUMMY_IF_NAME) else HostKey(spoke)
  }

  function MacvtapMode(mode: string, dummy: bool): Option<Mode> {
    if dummy then Some(Private) else ModeFromString(mode)
  }

  lemma RecreateFrame(lans: Lans, n: Net, mac: string, lower: string, mode: string, faults: set<Call>)
    requires Inv(lans, n) && (HostKey(mac) in n.links ==> n.links[HostKey(mac)].kind.Macvtap?)
    requires HostKey(lower) in n.links ==> !n.links[HostKey(lower)].kind.Macvtap?
    ensures var r, k, w := RecreateMacvtap(n, mac, lower, mode, faults), HostKey(mac), HostKey(lower);
            && AgreeOff(n, r.net, {k})
            && (r.Ok? ==>
                  && ModeFromString(mode).Some? && k in r.net.links
                  && r.net.links[k].(index := 0) == Link(0, Macvtap(w, ModeFromString(mode).value), true, None, 0)
                  && n.next <= r.net.links[k].index)
  {
    hide Inv, Erase, Doomed, ModeFromString;
    var k := HostKey(mac);
    if k in n.links {
      DoomedAlone(lans, n, k);
      EraseOneFrame(lans, n, k);
      EraseMountsKept(n, {k});
    }
  }

  lemma MacvtapFrame(lans: Lans, n: Net, spoke: string, mode: string, dummy: bool, faults: set<Call>)
    requires NoClash(lans) && Inv(lans, n) && spoke in AllSpokes(lans)
    ensures var r := EnsureMacvtap(n, DeviceName(spoke, dummy), spoke, mode, dummy, faults);
            var k, d := HostKey(DeviceName(spoke, dummy)), HostKey(DUMMY_IF_NAME);
            && AgreeOff(n, r.net, {k, d})
            && (!dummy || d in n.links ==> Same(n, r.net, d))
            && (r.Ok? ==>
                  && MacvtapMode(mode, dummy).Some? && k in r.net.links
                  && r.net.links[k].(index := 0)
                     == Link(0, Macvtap(MacvtapLower(spoke, dummy), MacvtapMode(mode, dummy).value), true, None, 0)
                  && n.next <= r.net.links[k].index
                  && (dummy && d !in n.links ==>
                        d in r.net.links && r.net.links[d].(index := 0) == Link(0, Dummy, false, None, 0)))
  {
    hide Inv, NoClash, IsDeviceName, RecreateMacvtap;
    var mac, d := DeviceName(spoke, dummy), HostKey(DUMMY_IF_NAME);
    DeviceNameFacts(lans, spoke, dummy);
    HostKinds(lans, n, mac);
    HostKinds(lans, n, spoke);
    HostKinds(lans, n, DUMMY_IF_NAME);
    if !dummy {
      RecreateFrame(lans, n, mac, spoke, mode, faults);
    } else if d in n.links {
      RecreateFrame(lans, n, mac, DUMMY_IF_NAME, "private", faults);
    } else {
      DummyPlaced(lans, n);
      AddKeepsInv(lans, n, d, Dummy);
      var n1 := Add(n, d, Dummy).value;
      RecreateFrame(lans, n1, mac, DUMMY_IF_NAME, "private", faults);
      assert Same(n1, RecreateMacvtap(n1, mac, DUMMY_IF_NAME, "private", faults).net, d);
    }
  }

  /** What the names of host links say about their kinds. */
  lemma HostKinds(lans: Lans, n: Net, name: string)
    requires Inv(lans, n)
    ensures HostKey(name) in n.links ==> HostNameOk(lans, name, n.links[HostKey(name)])
  {
    if HostKey(name) in n.links { assert LinkOk(lans, n.links, HostKey(name)); }
  }
}
