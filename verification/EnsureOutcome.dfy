/** The frame of a whole `Ensure`, and the exact state after one that succeeds. */
module EnsureOutcome {
  import opened Wrappers
  import opened Kernel
  import opened ApplySpec
  import opened Topology
  import opened TopologySteps
  import opened EnsureInv
  import opened EnsureFrame

  /** Every link an Ensure for `spoke` may create, change or delete. */
  function Footprint(n: Net, lan: LanSpec, spoke: string, dummy: bool): set<Key> {
    {LoKey(lan.ns), BridgeKey(lan), VxKey(lan)} + VethPrint(n, lan, spoke)
    + {HostKey(DeviceName(spoke, dummy)), HostKey(DUMMY_IF_NAME)}
  }

  /** The links of the spoke itself after a successful Ensure: both ends of the pair, and the macvtap. */
  predicate SpokeAfter(n: Net, m: Net, lan: LanSpec, spoke: string, mode: string, dummy: bool) {
    var p, h, d := PeerKey(lan, spoke), HostKey(spoke), HostKey(DeviceName(spoke, dummy));
    && MacvtapMode(mode, dummy).Some?
    && {p, h, d} <= m.links.Keys
    && m.links[p].(index := 0) == Link(0, Veth(h), true, Some(BridgeKey(lan)), BR_SLAVE_GRP_FWD_MASK)
    && m.links[h].(index := 0) == Link(0, Veth(p), true, None, 0)
    && m.links[d].(index := 0)
       == Link(0, Macvtap(MacvtapLower(spoke, dummy), MacvtapMode(mode, dummy).value), true, None, 0)
    && n.next <= m.links[p].index && n.next <= m.links[h].index && n.next <= m.links[d].index
  }

  /** The half-made end and what hung on the old pair are gone. */
  ghost predicate OldGone(n: Net, m: Net, lan: LanSpec, spoke: string, dummy: bool) {
    && NewSpokeKey(lan, spoke) !in m.links
    && (forall k :: k in OldPair(n, lan, spoke)
                         - {PeerKey(lan, spoke), HostKey(spoke), HostKey(DeviceName(spoke, dummy))}
          ==> k !in m.links)
  }

  /** The dummy device is made when it is needed and missing, and otherwise left alone. */
  predicate DummyAfter(n: Net, m: Net, dummy: bool) {
    var d := HostKey(DUMMY_IF_NAME);
    if d in n.links || !dummy then Same(n, m, d)
    else d in m.links && m.links[d].(index := 0) == Link(0, Dummy, false, None, 0)
  }

  /** The old vxlan could not be deleted, so it is still there under its old settings. */
  predicate StaleVx(n: Net, lan: LanSpec, need: bool, faults: set<Call>) {
    need && DelVx in faults && VxKey(lan) in n.links
  }

  /** The vxlan after a successful Ensure that found it as `need` says. */
  predicate VxAfter(n: Net, m: Net, lan: LanSpec, dev: nat, need: bool, faults: set<Call>) {
    var v := VxKey(lan);
    && v in m.links
    && (!need ==> Same(n, m, v))
    && (StaleVx(n, lan, need, faults) ==> v in n.links && m.links[v] == AttachLink(n.links[v], lan, faults))
    && (need && !StaleVx(n, lan, need, faults) ==>
          n.next <= m.links[v].index && m.links[v] == AttachLink(NewVx(m.links[v].index, lan, dev), lan, faults))
  }

  /** The old pair holds no link of the namespace but its own bridge end and a half-made spoke end. */
  lemma OldPairApart(lans: Lans, n: Net, lan: LanSpec, spoke: string, k: Key)
    requires Ctx(lans, lan, spoke) && Inv(lans, n) && k in OldPair(n, lan, spoke)
    ensures k.ns.Lan? ==> k == PeerKey(lan, spoke) || k == NewSpokeKey(lan, spoke)
    ensures k.ns.Host? ==> k == HostKey(spoke) || n.links[k].kind.Macvtap?
  {
    var p := PeerKey(lan, spoke);
    PeerNameStem(lans, lan, spoke);
    OldPairIs(lans, n, lan, spoke, k);
    assert LinkOk(lans, n.links, p) && LinkOk(lans, n.links, k);
  }

  /** The old pair is the same before and after the prologue. */
  lemma OldPairStable(lans: Lans, a: Net, b: Net, lan: LanSpec, spoke: string)
    requires Ctx(lans, lan, spoke) && Inv(lans, a) && Inv(lans, b)
    requires AgreeOff(a, b, {LoKey(lan.ns), BridgeKey(lan), VxKey(lan)})
    ensures OldPair(a, lan, spoke) == OldPair(b, lan, spoke)
  {
    forall k ensures k in OldPair(a, lan, spoke) <==> k in OldPair(b, lan, spoke) {
      OldPairSub(lans, a, b, lan, spoke, k);
      OldPairSub(lans, b, a, lan, spoke, k);
    }
  }

  lemma OldPairSub(lans: Lans, a: Net, b: Net, lan: LanSpec, spoke: string, k: Key)
    requires Ctx(lans, lan, spoke) && Inv(lans, a) && Inv(lans, b)
    requires AgreeOff(a, b, {LoKey(lan.ns), BridgeKey(lan), VxKey(lan)})
    ensures k in OldPair(a, lan, spoke) ==> k in OldPair(b, lan, spoke)
  {
    hide Inv, NoClash, IsPeerName, Stem, OldPair;
    var p := PeerKey(lan, spoke);
    PeerNameStem(lans, lan, spoke);
    OldPairIs(lans, a, lan, spoke, k);
    OldPairIs(lans, b, lan, spoke, k);
    if k in OldPair(a, lan, spoke) {
      OldPairApart(lans, a, lan, spoke, k);
      assert Same(a, b, p) && Same(a, b, k);
    }
  }

  /** After the pair is in place. */
  ghost predicate AfterVeth(n: Net, m: Net, lan: LanSpec, spoke: string) {
    var p, h := PeerKey(lan, spoke), HostKey(spoke);
    && {p, h} <= m.links.Keys && NewSpokeKey(lan, spoke) !in m.links
    && m.links[p].(index := 0) == Link(0, Veth(h), true, Some(BridgeKey(lan)), BR_SLAVE_GRP_FWD_MASK)
    && m.links[h].(index := 0, up := false) == Link(0, Veth(p), false, None, 0)
    && n.next <= m.links[p].index && n.next <= m.links[h].index
    && (forall k :: k in OldPair(n, lan, spoke) - {p, h} ==> k !in m.links)
  }

  function PairPrint(n: Net, lan: LanSpec, spoke: string): set<Key> {
    {VxKey(lan)} + VethPrint(n, lan, spoke)
  }

  lemma VethStep(lans: Lans, n: Net, lan: LanSpec, spoke: string, need: bool, faults: set<Call>)
    requires Ctx(lans, lan, spoke) && Inv(lans, n) && IsMounted(n, lan.ns)
    ensures var r := EnsureVeth(DropVx(n, lan, need, faults), lan, spoke, faults);
            && AgreeOff(n, r.net, PairPrint(n, lan, spoke)) && n.next <= r.net.next
            && Inv(lans, r.net) && IsMounted(r.net, lan.ns)
            && (r.Ok? ==>
                  && AfterVeth(n, r.net, lan, spoke)
                  && (if need && DelVx !in faults then VxKey(lan) !in r.net.links else Same(n, r.net, VxKey(lan))))
  {
    hide Inv, NoClash, IsPeerName, Stem, OldPair, EnsureVeth;
    var v := VxKey(lan);
    DropVxFrame(lans, n, lan, need, faults);
    var n0 := DropVx(n, lan, need, faults);
    hide DropVx;
    PeerNameStem(lans, lan, spoke);
    assert AgreeOff(n, n0, {LoKey(lan.ns), BridgeKey(lan), VxKey(lan)});
    OldPairStable(lans, n, n0, lan, spoke);
    VethFrame(lans, n0, lan, spoke, faults);
    VethKeepsInv(lans, n0, lan, spoke, faults);
    var r := EnsureVeth(n0, lan, spoke, faults);
    AgreeChain(n, n0, r.net, {v}, VethPrint(n, lan, spoke));
    if v in OldPair(n0, lan, spoke) { OldPairApart(lans, n0, lan, spoke, v); }
    assert Same(n0, r.net, v);
  }

  lemma VxStep(lans: Lans, n: Net, lan: LanSpec, dev: nat, need: bool, faults: set<Call>)
    requires NoClash(lans) && lan.ns in lans && lans[lan.ns] == lan && Inv(lans, n) && IsMounted(n, lan.ns)
    requires BridgeKey(lan) in n.links
    ensures var r := if need then EnsureVx(n, lan, dev, faults) else Ok(n);
            && AgreeOff(n, r.net, {VxKey(lan)}) && n.next <= r.net.next && Inv(lans, r.net)
  {
    assert LinkOk(lans, n.links, BridgeKey(lan));
    if VxKey(lan) in n.links { assert LinkOk(lans, n.links, VxKey(lan)); }
    EnsureVxFrame(n, lan, dev, faults);
    CreateVxKeepsInv(lans, n, lan, dev, faults);
    AttachVxKeepsInv(lans, CreateVx(n, lan, dev, faults).net, lan, faults);
    hide Inv;
  }

  /** Bringing the spoke up and putting its macvtap in place. */
  lemma MacvtapStep(lans: Lans, n: Net, n2: Net, spoke: string, lan: LanSpec, mode: string, dummy: bool,
                    faults: set<Call>)
    requires Ctx(lans, lan, spoke) && Inv(lans, n) && Inv(lans, n2)
    requires AgreeOff(n, n2, PairPrint(n, lan, spoke)) && n.next <= n2.next && AfterVeth(n, n2, lan, spoke)
    ensures var n3 := SetUp(n2, HostKey(spoke)).value;
            var r := EnsureMacvtap(n3, DeviceName(spoke, dummy), spoke, mode, dummy, faults);
            && AgreeOff(n2, n3, {HostKey(spoke)})
            && AgreeOff(n2, r.net, {HostKey(spoke), HostKey(DeviceName(spoke, dummy)), HostKey(DUMMY_IF_NAME)})
            && (r.Ok? ==> SpokeAfter(n, r.net, lan, spoke, mode, dummy) && OldGone(n, r.net, lan, spoke, dummy)
                          && DummyAfter(n, r.net, dummy))
  {
    hide Inv, NoClash, OldPair, EnsureMacvtap, IsDeviceName;
    var h, k, d := HostKey(spoke), HostKey(DeviceName(spoke, dummy)), HostKey(DUMMY_IF_NAME);
    PeerNameStem(lans, lan, spoke);
    SpokeName(lans, spoke);
    DeviceNameFacts(lans, spoke, dummy);
    SetUpKeepsInv(lans, n2, h);
    var n3 := SetUp(n2, h).value;
    MacvtapFrame(lans, n3, spoke, mode, dummy, faults);
    var r := EnsureMacvtap(n3, DeviceName(spoke, dummy), spoke, mode, dummy, faults);
    AgreeChain(n2, n3, r.net, {h}, {k, d});
    assert {h} + {k, d} == {h, k, d};
    DummyUntouched(lans, n, lan, spoke);
    assert Same(n, n2, d) && Same(n2, n3, d);
    assert Same(n3, r.net, h) && Same(n3, r.net, PeerKey(lan, spoke)) && Same(n3, r.net, NewSpokeKey(lan, spoke));
    if r.Ok? {
      forall x | x in OldPair(n, lan, spoke) - {PeerKey(lan, spoke), h, k} ensures x !in r.net.links {
        assert x != d;
        assert Same(n3, r.net, x);
      }
    }
  }

  lemma DummyUntouched(lans: Lans, n: Net, lan: LanSpec, spoke: string)
    requires Ctx(lans, lan, spoke) && Inv(lans, n)
    ensures HostKey(DUMMY_IF_NAME) !in PairPrint(n, lan, spoke)
  {
    var d := HostKey(DUMMY_IF_NAME);
    PeerNameStem(lans, lan, spoke);
    SpokeName(lans, spoke);
    if d in OldPair(n, lan, spoke) {
      OldPairApart(lans, n, lan, spoke, d);
      assert LinkOk(lans, n.links, d);
    }
  }

  lemma EpilogueFrame(lans: Lans, n: Net, spoke: string, lan: LanSpec, dev: nat, mode: string, dummy: bool,
                      need: bool, faults: set<Call>)
    requires Ctx(lans, lan, spoke) && Inv(lans, n) && IsMounted(n, lan.ns)
    requires BridgeKey(lan) in n.links && (!need ==> VxKey(lan) in n.links)
    ensures var r := Epilogue(n, DeviceName(spoke, dummy), spoke, lan, dev, mode, dummy, need, faults);
            && AgreeOff(n, r.net,
                        PairPrint(n, lan, spoke) + {HostKey(DeviceName(spoke, dummy)), HostKey(DUMMY_IF_NAME)})
            && (r.Ok? ==> SpokeAfter(n, r.net, lan, spoke, mode, dummy) && OldGone(n, r.net, lan, spoke, dummy)
                          && DummyAfter(n, r.net, dummy) && VxAfter(n, r.net, lan, dev, need, faults))
  {
    hide Inv, NoClash, OldPair, EnsureMacvtap, IsDeviceName, EnsureVeth, DropVx, EnsureVx, SpokeAfter, OldGone,
      DummyAfter;
    var h, k, d, v := HostKey(spoke), HostKey(DeviceName(spoke, dummy)), HostKey(DUMMY_IF_NAME), VxKey(lan);
    var f := PairPrint(n, lan, spoke);
    VethStep(lans, n, lan, spoke, need, faults);
    var r1 := EnsureVeth(DropVx(n, lan, need, faults), lan, spoke, faults);
    if r1.Ok? {
      var n1 := r1.net;
      BridgeUntouched(lans, n, lan, spoke);
      assert Same(n, n1, BridgeKey(lan));
      VxStep(lans, n1, lan, dev, need, faults);
      var r2 := if need then EnsureVx(n1, lan, dev, faults) else Ok(n1);
      AgreeChain(n, n1, r2.net, f, {v});
      assert f + {v} == f;
      if r2.Ok? {
        AfterVethStays(lans, n, n1, r2.net, lan, spoke);
        MacvtapStep(lans, n, r2.net, spoke, lan, mode, dummy, faults);
        var n3 := SetUp(r2.net, h).value;
        var r := EnsureMacvtap(n3, DeviceName(spoke, dummy), spoke, mode, dummy, faults);
        AgreeChain(n, r2.net, n3, f, {h});
        AgreeChain(n, r2.net, r.net, f, {h, k, d});
        assert f + {h} == f && f + {h, k, d} == f + {k, d};
        assert Same(r2.net, r.net, v);
        VxOutcome(lans, n, n1, r2.net, lan, dev, need, faults);
      }
    }
  }

  lemma BridgeUntouched(lans: Lans, n: Net, lan: LanSpec, spoke: string)
    requires Ctx(lans, lan, spoke) && Inv(lans, n)
    ensures BridgeKey(lan) !in PairPrint(n, lan, spoke) && LoKey(lan.ns) !in PairPrint(n, lan, spoke)
    ensures VxKey(lan) !in VethPrint(n, lan, spoke)
  {
    hide Inv, NoClash, OldPair;
    PeerNameStem(lans, lan, spoke);
    var lo, b, v := LoKey(lan.ns), BridgeKey(lan), VxKey(lan);
    if lo in OldPair(n, lan, spoke) { OldPairApart(lans, n, lan, spoke, lo); }
    if b in OldPair(n, lan, spoke) { OldPairApart(lans, n, lan, spoke, b); }
    if v in OldPair(n, lan, spoke) { OldPairApart(lans, n, lan, spoke, v); }
    assert lan.bridge != lan.vxlan && lan.vxlan != "lo" by { BaseNamesApart(lans, lan); }
  }

  lemma BaseNamesApart(lans: Lans, lan: LanSpec)
    requires NoClash(lans) && lan.ns in lans && lans[lan.ns] == lan
    ensures lan.bridge != lan.vxlan && lan.bridge != "lo" && lan.vxlan != "lo"
  {
  }

  lemma AfterVethStays(lans: Lans, n: Net, a: Net, b: Net, lan: LanSpec, spoke: string)
    requires Ctx(lans, lan, spoke) && Inv(lans, n)
    requires AfterVeth(n, a, lan, spoke) && AgreeOff(a, b, {VxKey(lan)})
    ensures AfterVeth(n, b, lan, spoke)
  {
    hide Inv, OldPair;
    PeerNameStem(lans, lan, spoke);
    BridgeUntouched(lans, n, lan, spoke);
    assert Same(a, b, PeerKey(lan, spoke)) && Same(a, b, HostKey(spoke)) && Same(a, b, NewSpokeKey(lan, spoke));
    forall k | k in OldPair(n, lan, spoke) - {PeerKey(lan, spoke), HostKey(spoke)} ensures k !in b.links {
      assert k in VethPrint(n, lan, spoke);
      assert Same(a, b, k);
    }
  }

  lemma VxOutcome(lans: Lans, n: Net, n1: Net, n2: Net, lan: LanSpec, dev: nat, need: bool, faults: set<Call>)
    requires NoClash(lans) && lan.ns in lans && lans[lan.ns] == lan && Inv(lans, n) && Inv(lans, n1)
             && n.next <= n1.next
    requires BridgeKey(lan) in n1.links && (!need ==> VxKey(lan) in n.links)
    requires if need && DelVx !in faults then VxKey(lan) !in n1.links else Same(n, n1, VxKey(lan))
    requires (if need then EnsureVx(n1, lan, dev, faults) else Ok(n1)) == Ok(n2)
    ensures VxAfter(n, n2, lan, dev, need, faults)
  {
    assert LinkOk(lans, n1.links, BridgeKey(lan));
    if VxKey(lan) in n1.links { assert LinkOk(lans, n1.links, VxKey(lan)); }
    EnsureVxFrame(n1, lan, dev, faults);
    hide Inv, NoClash, EnsureVx;
  }

  /** `needToAdd` as it can be read off the state before the call. */
  predicate WrongVx(n: Net, lan: LanSpec, hostname: string, faults: set<Call>) {
    var v, d := VxKey(lan), HostKey(DevName(lan, hostname));
    !(FindVx !in faults && v in n.links && d in n.links && n.links[v].kind.Vxlan?)
    || !(lan.group.zone == "" && lan.group.bytes == n.links[v].kind.conf.group)
    || n.links[v].kind.conf.vni != lan.vni
    || n.links[v].kind.conf.dev != n.links[d].index
    || n.links[v].kind.conf.port != lan.port
  }

  /** What a successful Ensure has made of every link in its footprint, given the state before it. */
  ghost predicate Ensured(n: Net, m: Net, lan: LanSpec, spoke: string, hostname: string, mode: string, dummy: bool,
                          faults: set<Call>)
  {
    && HostKey(DevName(lan, hostname)) in n.links
    && LoAfter(n, m, lan.ns) && BridgeAfter(n, m, lan)
    && VxAfter(n, m, lan, n.links[HostKey(DevName(lan, hostname))].index, WrongVx(n, lan, hostname, faults), faults)
    && SpokeAfter(n, m, lan, spoke, mode, dummy) && OldGone(n, m, lan, spoke, dummy) && DummyAfter(n, m, dummy)
  }

  /**
   Whatever fails, an Ensure touches only the loopback, bridge and vxlan of its own LAN, the pair
   and macvtaps of its own spoke, and the shared dummy device; when it succeeds, `Ensured` says
   what it made of each of them.
   */
  lemma EnsureEffect(lans: Lans, n: Net, spoke: string, lan: LanSpec, hostname: string, mode: string, dummy: bool,
                      faults: set<Call>)
    requires Ctx(lans, lan, spoke) && Inv(lans, n) && (NsOpen in faults ==> !IsMounted(n, lan.ns))
    ensures var r := Ensure(n, DeviceName(spoke, dummy), spoke, lan, hostname, mode, dummy, faults);
            && AgreeOff(n, r.net, Footprint(n, lan, spoke, dummy))
            && (r.Ok? ==> Ensured(n, r.net, lan, spoke, hostname, mode, dummy, faults))
  {
    hide Inv, NoClash, Prologue, Epilogue;
    PrologueFrame(lans, n, lan, hostname, faults);
    PrologueKeepsInv(lans, n, lan, hostname, faults);
    var r := Prologue(n, lan, hostname, faults);
    if r.Ok? {
      var d := HostKey(DevName(lan, hostname));
      BaseNamesApart(lans, lan);
      assert Same(n, r.net, d) && Same(n, r.net, VxKey(lan));
      var dev := r.net.links[d].index;
      NeedIsWrong(lans, n, r.net, lan, hostname, faults);
      var need := WrongVx(n, lan, hostname, faults);
      EpilogueFrame(lans, r.net, spoke, lan, dev, mode, dummy, need, faults);
      Assemble(lans, n, r.net, Epilogue(r.net, DeviceName(spoke, dummy), spoke, lan, dev, mode, dummy, need, faults),
               spoke, lan, hostname, mode, dummy, faults);
    }
  }

  lemma NeedIsWrong(lans: Lans, n: Net, n1: Net, lan: LanSpec, hostname: string, faults: set<Call>)
    requires NoClash(lans) && lan.ns in lans && lans[lan.ns] == lan && Inv(lans, n) && Inv(lans, n1)
    requires HostKey(DevName(lan, hostname)) in n1.links
    requires Same(n, n1, HostKey(DevName(lan, hostname))) && Same(n, n1, VxKey(lan))
    ensures VxKey(lan) in n1.links ==> n1.links[VxKey(lan)].kind.Vxlan?
    ensures NeedVx(n1, lan, n1.links[HostKey(DevName(lan, hostname))].index, faults)
            == WrongVx(n, lan, hostname, faults)
  {
    if VxKey(lan) in n1.links { assert LinkOk(lans, n1.links, VxKey(lan)); }
  }

  /** Prologue and epilogue together. */
  lemma Assemble(lans: Lans, n: Net, n1: Net, r: Out, spoke: string, lan: LanSpec, hostname: string, mode: string,
                 dummy: bool, faults: set<Call>)
    requires Ctx(lans, lan, spoke) && Inv(lans, n) && Inv(lans, n1) && HostKey(DevName(lan, hostname)) in n1.links
    requires AgreeOff(n, n1, BasePrint(lan)) && n.next <= n1.next && BridgeAfter(n, n1, lan) && LoAfter(n, n1, lan.ns)
    requires AgreeOff(n1, r.net,
                      PairPrint(n1, lan, spoke) + {HostKey(DeviceName(spoke, dummy)), HostKey(DUMMY_IF_NAME)})
    requires r.Ok? ==> SpokeAfter(n1, r.net, lan, spoke, mode, dummy) && OldGone(n1, r.net, lan, spoke, dummy)
                       && DummyAfter(n1, r.net, dummy)
                       && VxAfter(n1, r.net, lan, n1.links[HostKey(DevName(lan, hostname))].index,
                                  WrongVx(n, lan, hostname, faults), faults)
    ensures AgreeOff(n, r.net, Footprint(n, lan, spoke, dummy))
    ensures r.Ok? ==> Ensured(n, r.net, lan, spoke, hostname, mode, dummy, faults)
  {
    hide Inv, NoClash, OldPair, WrongVx;
    var f := PairPrint(n1, lan, spoke) + {HostKey(DeviceName(spoke, dummy)), HostKey(DUMMY_IF_NAME)};
    BaseNamesApart(lans, lan);
    assert AgreeOff(n, n1, {LoKey(lan.ns), BridgeKey(lan), VxKey(lan)});
    OldPairStable(lans, n, n1, lan, spoke);
    AgreeChain(n, n1, r.net, BasePrint(lan), f);
    assert BasePrint(lan) + f == Footprint(n, lan, spoke, dummy);
    BridgeUntouched(lans, n1, lan, spoke);
    assert Same(n1, r.net, BridgeKey(lan)) && Same(n1, r.net, LoKey(lan.ns));
    assert Same(n, n1, VxKey(lan)) && Same(n, n1, HostKey(DUMMY_IF_NAME))
           && Same(n, n1, HostKey(DevName(lan, hostname)));
  }
}
