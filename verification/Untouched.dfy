/** What an Ensure leaves alone, whatever fails: every other spoke with its macvtap, and every other LAN. */
module Untouched {
  import opened Wrappers
  import opened Kernel
  import opened ApplySpec
  import opened Topology
  import opened TopologySteps
  import opened EnsureInv
  import opened Isolation
  import opened EnsureFrame
  import opened EnsureOutcome
  import opened Refinement

  /** The links of a spoke: its pair, what is above it, and the names it has in the host, there or not. */
  function OwnLinks(n: Net, lan: LanSpec, spoke: string): set<Key> {
    OldPair(n, lan, spoke) + Names(lan, spoke)
  }

  function Names(lan: LanSpec, spoke: string): set<Key> {
    {PeerKey(lan, spoke), NewSpokeKey(lan, spoke), HostKey(spoke), Device(spoke, false), Device(spoke, true)}
  }

  function Device(spoke: string, dummy: bool): Key { HostKey(DeviceName(spoke, dummy)) }

  lemma DeviceStem(spoke: string, dummy: bool)
    ensures EndsIn(DeviceName(spoke, dummy), if dummy then "V0" else "M0")
    ensures Stem(DeviceName(spoke, dummy), if dummy then "V0" else "M0") == spoke
  {
    var d := DeviceName(spoke, dummy);
    assert d[..|d| - 2] == spoke;
  }

  lemma PeerNameInjective(s: string, t: string)
    ensures PeerName(s) == PeerName(t) ==> s == t
  {
    assert PeerName(s)[..|PeerName(s)| - 1] == s && PeerName(t)[..|PeerName(t)| - 1] == t;
  }

  /** A device that goes with a spoke's pair is the one named after the spoke. */
  lemma DeviceInPair(lans: Lans, n: Net, lan: LanSpec, spoke: string, t: string, dummy: bool)
    requires Ctx(lans, lan, spoke) && Inv(lans, n) && t in AllSpokes(lans) && Device(t, dummy) in OldPair(n, lan, spoke)
    ensures t == spoke && !dummy
  {
    var k, p := Device(t, dummy), PeerKey(lan, spoke);
    OldPairIs(lans, n, lan, spoke, k);
    DeviceNameFacts(lans, t, dummy);
    HostKinds(lans, n, DeviceName(t, dummy));
    OldPairPeer(lans, n, lan, spoke);
    DeviceStem(t, dummy);
    hide NoClash, Inv, OldPair, IsDeviceName;
    assert Above(n.links, k, n.links[p].kind.peer);
    DeviceFits(lans, n, k, n.links[p].kind.peer);
    PeerNameInjective(t, spoke);
  }

  /** Two spokes' pairs, with what is above them, have nothing in common. */
  lemma PairsApart(lans: Lans, n: Net, lan: LanSpec, spoke: string, m: string, t: string, k: Key)
    requires Ctx(lans, lan, spoke) && Inv(lans, n) && m in lans && t in lans[m].spokes && (m, t) != (lan.ns, spoke)
    requires k in OldPair(n, lan, spoke)
    ensures k !in OldPair(n, lans[m], t)
  {
    CtxOther(lans, m, t);
    OtherSpokeApart(lans, n, lan, spoke, false, m, t);
    hide *;
    OldPairIs(lans, n, lan, spoke, k);
    OldPairIs(lans, n, lans[m], t, k);
    var p, q := PeerKey(lan, spoke), PeerKey(lans[m], t);
    PairInPrint(n, lan, spoke, k);
    if q in n.links && n.links[q].kind.Veth? {
      var f := n.links[q].kind.peer;
      OldPairIs(lans, n, lan, spoke, f);
      PairInPrint(n, lan, spoke, f);
      AboveEither(n, k, n.links[p].kind.peer, f);
    }
  }

  lemma PairInPrint(n: Net, lan: LanSpec, spoke: string, k: Key)
    ensures k in OldPair(n, lan, spoke) ==> k in Footprint(n, lan, spoke, false)
  {
    hide OldPair;
  }

  lemma AboveEither(n: Net, k: Key, e: Key, f: Key)
    ensures Above(n.links, k, f) ==> k in n.links && n.links[k].kind.Macvtap? && (Above(n.links, k, e) ==> e == f)
  {
  }

  lemma CtxOther(lans: Lans, m: string, t: string)
    requires NoClash(lans) && m in lans && t in lans[m].spokes
    ensures Ctx(lans, lans[m], t) && lans[m].ns == m
  {
  }

  /** None of a spoke's names is in another's pair. */
  lemma NamesNotInPair(lans: Lans, n: Net, lan: LanSpec, spoke: string, m: string, t: string, k: Key)
    requires Ctx(lans, lan, spoke) && Inv(lans, n) && m in lans && t in lans[m].spokes && (m, t) != (lan.ns, spoke)
    requires k in OldPair(n, lan, spoke)
    ensures k !in Names(lans[m], t)
  {
    hide NoClash, Inv, OldPair, AllSpokes;
    OtherNames(lans, lan, spoke, false, m, t);
    PeerNamesDiffer(lan, spoke, m, t, lans[m]);
    SpokeInAll(lans, m, t);
    OldPairApart(lans, n, lan, spoke, k);
    HostKinds(lans, n, t);
    if k == Device(t, false) { DeviceInPair(lans, n, lan, spoke, t, false); }
    if k == Device(t, true) { DeviceInPair(lans, n, lan, spoke, t, true); }
    OldPairIs(lans, n, lan, spoke, k);
  }

  /** The names of two spokes, and what Ensure shares between spokes, are all different. */
  lemma NamesDiffer(lans: Lans, lan: LanSpec, spoke: string, m: string, t: string)
    requires Ctx(lans, lan, spoke) && m in lans && t in lans[m].spokes && (m, t) != (lan.ns, spoke)
    ensures Names(lans[m], t) !! Names(lan, spoke)
    ensures {LoKey(lan.ns), BridgeKey(lan), VxKey(lan), HostKey(DUMMY_IF_NAME)} !! Names(lans[m], t)
  {
    hide NoClash, AllSpokes, IsDeviceName, DeviceName, PeerName;
    OtherNames(lans, lan, spoke, false, m, t);
    OtherNames(lans, lan, spoke, true, m, t);
    CtxOther(lans, m, t);
    OtherNames(lans, lans[m], t, false, lan.ns, spoke);
    OtherNames(lans, lans[m], t, true, lan.ns, spoke);
    PeerNamesDiffer(lan, spoke, m, t, lans[m]);
    SpokeInAll(lans, m, t);
    DevicesDiffer(t, spoke);
    DeviceNameFacts(lans, t, false);
    DeviceNameFacts(lans, t, true);
  }

  lemma DevicesDiffer(s: string, t: string)
    requires s != t
    ensures forall a, b :: DeviceName(s, a) != DeviceName(t, b)
  {
    forall a, b ensures DeviceName(s, a) != DeviceName(t, b) {
      assert DeviceName(s, a)[..|DeviceName(s, a)| - 2] == s && DeviceName(t, b)[..|DeviceName(t, b)| - 2] == t;
    }
  }

  /** Nothing of another spoke is in the footprint. */
  lemma OwnLinksApart(lans: Lans, n: Net, lan: LanSpec, spoke: string, dummy: bool, m: string, t: string, k: Key)
    requires Ctx(lans, lan, spoke) && Inv(lans, n) && m in lans && t in lans[m].spokes && (m, t) != (lan.ns, spoke)
    requires k in OwnLinks(n, lans[m], t)
    ensures k !in Footprint(n, lan, spoke, dummy)
  {
    CtxOther(lans, m, t);
    NamesDiffer(lans, lan, spoke, m, t);
    hide NoClash, Inv, OldPair, AllSpokes;
    if k in OldPair(n, lan, spoke) {
      PairsApart(lans, n, lan, spoke, m, t, k);
      NamesNotInPair(lans, n, lan, spoke, m, t, k);
    }
    if k in OldPair(n, lans[m], t) {
      NamesNotInPair(lans, n, lans[m], t, lan.ns, spoke, k);
      SharedNotInPair(lans, n, lans[m], t, lan);
    }
  }

  lemma SharedNotInPair(lans: Lans, n: Net, lan: LanSpec, spoke: string, other: LanSpec)
    requires Ctx(lans, lan, spoke) && Inv(lans, n) && other.ns in lans && lans[other.ns] == other
    ensures {LoKey(other.ns), BridgeKey(other), VxKey(other), HostKey(DUMMY_IF_NAME)} !! OldPair(n, lan, spoke)
  {
    DummyUntouched(lans, n, lan, spoke);
    BridgeUntouched(lans, n, lan, spoke);
    hide NoClash, Inv, OldPair;
    forall k | k in OldPair(n, lan, spoke) && k.ns.Lan? ensures k.ns == Lan(lan.ns) {
      OldPairApart(lans, n, lan, spoke, k);
    }
  }

  // ----- a namespace that is lost and made again -----

  lemma RemovedHome(lans: Lans, n: Net, lan: LanSpec, m: string, t: string, k: Key)
    requires NoClash(lans) && Inv(lans, n) && m in lans && t in lans[m].spokes && m != lan.ns
    requires k in OwnLinks(n, lans[m], t) && k in n.links
    ensures Home(n.links, k) != Some(lan.ns)
  {
    hide NoClash, Inv, OldPair;
    CtxOther(lans, m, t);
    if k in OldPair(n, lans[m], t) {
      RefsHere(lans, n, k);
      OldPairIs(lans, n, lans[m], t, k);
      OldPairPeer(lans, n, lans[m], t);
      OldPairApart(lans, n, lans[m], t, k);
    } else {
      hide Home, Names;
      NameHome(lans, n, m, t, k);
    }
  }

  lemma NameHome(lans: Lans, n: Net, m: string, t: string, k: Key)
    requires NoClash(lans) && Inv(lans, n) && m in lans && t in lans[m].spokes
    requires k in Names(lans[m], t) && k in n.links
    ensures Home(n.links, k) == Some(m) || Home(n.links, k) == None
  {
    CtxOther(lans, m, t);
    hide NoClash, Inv, AllSpokes;
    if k == HostKey(t) {
      EndBelongs(lans, n, m, t, k);
    } else if k == Device(t, false) {
      DeviceHome(lans, n, m, t, false);
    } else if k == Device(t, true) {
      DeviceHome(lans, n, m, t, true);
    } else {
      LanNoMacvtapHere(lans, n, k);
    }
  }

  lemma DeviceHome(lans: Lans, n: Net, m: string, t: string, dummy: bool)
    requires NoClash(lans) && Inv(lans, n) && m in lans && t in lans[m].spokes && Device(t, dummy) in n.links
    ensures Home(n.links, Device(t, dummy)) == (if dummy then None else Some(m))
  {
    SpokeInAll(lans, m, t);
    var k := Device(t, dummy);
    DeviceNameFacts(lans, t, dummy);
    HostKinds(lans, n, DeviceName(t, dummy));
    RefsHere(lans, n, k);
    var w := n.links[k].kind.lower;
    DeviceFits(lans, n, k, w);
    DeviceStem(t, dummy);
    hide NoClash, Inv, AllSpokes, IsDeviceName;
    if !dummy { EndBelongs(lans, n, m, t, w); }
  }

  lemma LanNoMacvtapHere(lans: Lans, n: Net, k: Key)
    requires Inv(lans, n) && k in n.links && k.ns.Lan?
    ensures !n.links[k].kind.Macvtap?
  {
    assert LinkOk(lans, n.links, k);
  }

  /** A veth end outside the LAN namespaces whose peer has the name of `t`'s bridge end belongs to `t`'s LAN. */
  lemma EndBelongs(lans: Lans, n: Net, m: string, t: string, w: Key)
    requires NoClash(lans) && Inv(lans, n) && m in lans && t in lans[m].spokes && w in n.links && !w.ns.Lan?
    requires w == HostKey(t)
             || (n.links[w].kind.Veth? && n.links[w].kind.peer.ns.Lan? && n.links[w].kind.peer.name == PeerName(t))
    ensures n.links[w].kind.Veth? && n.links[w].kind.peer.ns == Lan(m)
  {
    SpokeInAll(lans, m, t);
    if w == HostKey(t) { assert LinkOk(lans, n.links, w); }
    var q := n.links[w].kind.peer;
    assert LinkOk(lans, n.links, w);
    assert q.ns.name in lans && IsPeerName(lans[q.ns.name], q.name);
    assert q.name[..|q.name| - 1] == t;
    OneLan(lans, q.ns.name, m, t);
  }

  lemma Unmounts(n: Net, m: string, faults: set<Call>)
    requires NsUnmount !in faults
    ensures !IsMounted(Remove(n, m, faults), m)
  {
  }

  /** The removal leaves another LAN's spoke as it is. */
  lemma RemoveLeaves(lans: Lans, n: Net, lan: LanSpec, faults: set<Call>, m: string, t: string, k: Key)
    requires NoClash(lans) && Inv(lans, n) && m in lans && t in lans[m].spokes && m != lan.ns
    requires IsMounted(n, lan.ns) && NsUnmount !in faults && k in OwnLinks(n, lans[m], t)
    ensures var r := Remove(n, lan.ns, faults); Same(n, r, k) && k in OwnLinks(r, lans[m], t)
  {
    hide NoClash, Inv, Home, Remove, OldPair;
    var r := Remove(n, lan.ns, faults);
    RemoveIsExact(lans, n, lan.ns, faults);
    if k in n.links { RemovedHome(lans, n, lan, m, t, k); }
    DeleteNamedKeepsInv(lans, n, lan.ns, faults);
    assert Inv(lans, r) by { RemoveIs(n, lan.ns, faults); }
    if k in OldPair(n, lans[m], t) {
      CtxOther(lans, m, t);
      OldPairIs(lans, n, lans[m], t, k);
      OldPairIs(lans, r, lans[m], t, k);
      PeerSurvives(lans, n, lan, m, t);
    }
  }

  lemma RemoveIs(n: Net, m: string, faults: set<Call>)
    ensures Remove(n, m, faults) == DeleteNamed(n, m, faults).net
  {
  }

  lemma PeerSurvives(lans: Lans, n: Net, lan: LanSpec, m: string, t: string)
    requires NoClash(lans) && Inv(lans, n) && m in lans && t in lans[m].spokes && m != lan.ns
    requires PeerKey(lans[m], t) in n.links
    ensures Home(n.links, PeerKey(lans[m], t)) != Some(lan.ns)
  {
    hide NoClash, Inv, Home, OldPair;
    RemovedHome(lans, n, lan, m, t, PeerKey(lans[m], t));
  }

  lemma RemoveLeavesNs(lans: Lans, n: Net, lan: LanSpec, faults: set<Call>, k: Key)
    requires NoClash(lans) && Inv(lans, n) && IsMounted(n, lan.ns) && NsUnmount !in faults
    requires k.ns.Lan? && k.ns.name != lan.ns
    ensures Same(n, Remove(n, lan.ns, faults), k)
  {
    hide Remove;
    RemoveIsExact(lans, n, lan.ns, faults);
    if k in n.links { LanNoMacvtapHere(lans, n, k); }
    hide NoClash, Inv;
  }

  // ----- the theorem -----

  /** The mounted namespace could not be opened: Ensure unmounts it and makes a new one. */
  predicate Lost(n: Net, lan: LanSpec, faults: set<Call>) {
    NsOpen in faults && IsMounted(n, lan.ns)
  }

  /**
   Whatever fails, an Ensure for one spoke leaves every other spoke's pair, the macvtaps above it and
   its names in the host unchanged, unless the namespace they share was lost.
   */
  lemma OtherSpokesUntouched(lans: Lans, n: Net, spoke: string, lan: LanSpec, hostname: string, mode: string,
                             dummy: bool, faults: set<Call>, m: string, t: string, k: Key)
    requires Ctx(lans, lan, spoke) && Inv(lans, n) && m in lans && t in lans[m].spokes && (m, t) != (lan.ns, spoke)
    requires m == lan.ns ==> !Lost(n, lan, faults)
    requires k in OwnLinks(n, lans[m], t)
    ensures Same(n, Ensure(n, DeviceName(spoke, dummy), spoke, lan, hostname, mode, dummy, faults).net, k)
  {
    hide Inv, Ensure, Footprint, OwnLinks;
    if Lost(n, lan, faults) {
      var f := faults - {NsUnmount};
      var r := Remove(n, lan.ns, f);
      LostNamespace(n, DeviceName(spoke, dummy), spoke, lan, hostname, mode, dummy, faults);
      RemoveLeaves(lans, n, lan, f, m, t, k);
      DeleteNamedKeepsInv(lans, n, lan.ns, f);
      Unmounts(n, lan.ns, f);
      EnsureEffect(lans, r, spoke, lan, hostname, mode, dummy, faults);
      OwnLinksApart(lans, r, lan, spoke, dummy, m, t, k);
    } else {
      EnsureEffect(lans, n, spoke, lan, hostname, mode, dummy, faults);
      OwnLinksApart(lans, n, lan, spoke, dummy, m, t, k);
    }
    hide NoClash;
  }

  /** Whatever fails, an Ensure changes nothing in the namespace of another LAN. */
  lemma OtherLansUntouched(lans: Lans, n: Net, spoke: string, lan: LanSpec, hostname: string, mode: string, dummy: bool,
                           faults: set<Call>, k: Key)
    requires Ctx(lans, lan, spoke) && Inv(lans, n) && k.ns.Lan? && k.ns.name != lan.ns
    ensures Same(n, Ensure(n, DeviceName(spoke, dummy), spoke, lan, hostname, mode, dummy, faults).net, k)
  {
    hide Inv, Ensure, Footprint;
    if Lost(n, lan, faults) {
      var f := faults - {NsUnmount};
      var r := Remove(n, lan.ns, f);
      LostNamespace(n, DeviceName(spoke, dummy), spoke, lan, hostname, mode, dummy, faults);
      RemoveLeavesNs(lans, n, lan, f, k);
      DeleteNamedKeepsInv(lans, n, lan.ns, f);
      Unmounts(n, lan.ns, f);
      EnsureEffect(lans, r, spoke, lan, hostname, mode, dummy, faults);
      OtherNsApart(lans, r, lan, spoke, dummy, k);
    } else {
      EnsureEffect(lans, n, spoke, lan, hostname, mode, dummy, faults);
      OtherNsApart(lans, n, lan, spoke, dummy, k);
    }
    hide NoClash;
  }

  lemma OtherNsApart(lans: Lans, n: Net, lan: LanSpec, spoke: string, dummy: bool, k: Key)
    requires Ctx(lans, lan, spoke) && Inv(lans, n) && k.ns.Lan? && k.ns.name != lan.ns
    ensures k !in Footprint(n, lan, spoke, dummy)
  {
    hide Inv, NoClash, OldPair;
    if k in OldPair(n, lan, spoke) { OldPairApart(lans, n, lan, spoke, k); }
  }
}
