/** When Ensure succeeds, what its success is worth, and how Ensures combine. */
module Guarantees {
  import opened Wrappers
  import opened Kernel
  import opened ApplySpec
  import opened Topology
  import opened TopologySteps
  import opened EnsureInv
  import opened Isolation
  import opened EnsureFrame
  import opened EnsureOutcome
  import opened Success

  // ----- success -----

  /** The attach calls are not needed. */
  lemma AttachNotNeeded(n: Net, lan: LanSpec, spoke: string, dummy: bool, need: bool, faults: set<Call>)
    requires faults <= HIDDEN_CALLS
    ensures faults !! NeededCalls(n, lan, spoke, dummy, need) && NsOpen !in faults
  {
    hide BaseCalls, PairCalls;
    LateCalls(n, lan, spoke, faults);
    NeededSplit(n, lan, spoke, dummy, need, faults);
    hide NeededCalls;
  }

  /** If only attaching the vxlan can go wrong, success depends on what is found. */
  lemma EnsureSucceedsIff(lans: Lans, n: Net, spoke: string, lan: LanSpec, hostname: string, mode: string, dummy: bool,
                          faults: set<Call>)
    requires Ctx(lans, lan, spoke) && Inv(lans, n) && faults <= HIDDEN_CALLS
    ensures Ensure(n, DeviceName(spoke, dummy), spoke, lan, hostname, mode, dummy, faults).Ok? <==>
              && (hostname in lan.devMap ==> HostKey(lan.devMap[hostname]) in n.links)
              && (hostname !in lan.devMap ==> HostKey(lan.defaultDev) in n.links)
              && (dummy || mode in {"", "bridge", "private", "vepa", "passthru"})
              && (WrongVx(n, lan, hostname, faults) ==> IsMulticast(lan.group))
  {
    hide NoClash, Inv, Ensure, NeededCalls, IsMulticast, WrongVx;
    AttachNotNeeded(n, lan, spoke, dummy, WrongVx(n, lan, hostname, faults), faults);
    EnsureOkIff(lans, n, spoke, lan, hostname, mode, dummy, faults);
  }

  // ----- what success is worth -----

  /**
   The spoke of a successful Ensure is attached, with its end up in the host.  Whether it can be heard depends
   on the rest: the bridge works unless an earlier one was left down, and a vxlan made in this call works
   exactly if none of the calls of the attach step failed, which the result does not tell.
   */
  lemma SuccessIsConnectedIff(lans: Lans, n: Net, spoke: string, lan: LanSpec, hostname: string, mode: string,
                              dummy: bool, faults: set<Call>)
    requires Ctx(lans, lan, spoke) && Inv(lans, n) && (NsOpen in faults ==> !IsMounted(n, lan.ns))
    requires Ensure(n, DeviceName(spoke, dummy), spoke, lan, hostname, mode, dummy, faults).Ok?
    ensures var m := Ensure(n, DeviceName(spoke, dummy), spoke, lan, hostname, mode, dummy, faults).net;
            var need := WrongVx(n, lan, hostname, faults);
            && Attached(m, lan, spoke) && SpokeEnd(m, lan, spoke) == HostKey(spoke) && EndUp(m, lan, spoke)
            && (BridgeUp(m, lan) <==> (BridgeKey(lan) in n.links ==> BridgeUp(n, lan)))
            && (Uplink(m, lan) <==>
                  if !need then Uplink(n, lan)
                  else || faults !! HIDDEN_CALLS
                       || (StaleVx(n, lan, need, faults) && n.links[VxKey(lan)].up
                           && (faults !! OFF_BRIDGE_CALLS || n.links[VxKey(lan)].master == Some(BridgeKey(lan)))))
  {
    hide Inv, NoClash, Ensure, WrongVx, OldPair;
    EnsureEffect(lans, n, spoke, lan, hostname, mode, dummy, faults);
  }

  /**
   The attach step's error is lost for good: with the vxlan to be made and any of its attach calls
   failing, Ensure still reports success without an uplink, and so does a retry in which nothing fails.
   */
  lemma AttachErrorIsLost(lans: Lans, n: Net, spoke: string, lan: LanSpec, hostname: string, mode: string,
                          dummy: bool, faults: set<Call>)
    requires Ctx(lans, lan, spoke) && Inv(lans, n) && HostKey(DevName(lan, hostname)) in n.links
    requires MacvtapMode(mode, dummy).Some? && IsMulticast(lan.group) && PlainGroup(lan.group)
    requires WrongVx(n, lan, hostname, {}) && faults <= HIDDEN_CALLS && faults != {}
    ensures var mac := DeviceName(spoke, dummy);
            var r := Ensure(n, mac, spoke, lan, hostname, mode, dummy, faults);
            var again := Ensure(r.net, mac, spoke, lan, hostname, mode, dummy, {});
            r.Ok? && !Uplink(r.net, lan) && again.Ok? && !Uplink(again.net, lan)
  {
    hide Inv, NoClash, Ensure, OldPair, IsMulticast, MacvtapMode;
    assert WrongVx(n, lan, hostname, faults);
    KnownModes(mode, dummy);
    EnsureSucceedsIff(lans, n, spoke, lan, hostname, mode, dummy, faults);
    SuccessIsConnectedIff(lans, n, spoke, lan, hostname, mode, dummy, faults);
    EnsureEffect(lans, n, spoke, lan, hostname, mode, dummy, faults);
    var m := Ensure(n, DeviceName(spoke, dummy), spoke, lan, hostname, mode, dummy, faults).net;
    assert !(faults !! HIDDEN_CALLS) by {
      var c :| c in faults;
      assert c in HIDDEN_CALLS;
    }
    EnsureKeepsInv(lans, n, spoke, lan, hostname, mode, dummy, faults);
    NeedSettled(lans, n, spoke, lan, hostname, mode, dummy, faults);
    EnsureSucceedsIff(lans, m, spoke, lan, hostname, mode, dummy, {});
    SuccessIsConnectedIff(lans, m, spoke, lan, hostname, mode, dummy, {});
  }

  /**
   A new bridge that could not be brought up makes that Ensure fail, and is left down; the next Ensure,
   in which nothing fails, finds it there, reports success, and leaves it down.
   */
  lemma BridgeStaysDown(lans: Lans, n: Net, spoke: string, lan: LanSpec, hostname: string, mode: string, dummy: bool)
    requires Ctx(lans, lan, spoke) && Inv(lans, n) && HostKey(DevName(lan, hostname)) in n.links
    requires BridgeKey(lan) !in n.links && MacvtapMode(mode, dummy).Some? && IsMulticast(lan.group)
    ensures var mac := DeviceName(spoke, dummy);
            var r := Ensure(n, mac, spoke, lan, hostname, mode, dummy, {UpBr});
            var again := Ensure(r.net, mac, spoke, lan, hostname, mode, dummy, {});
            && r.Fail? && Inv(lans, r.net) && BridgeKey(lan) in r.net.links && !BridgeUp(r.net, lan)
            && again.Ok? && !BridgeUp(again.net, lan)
  {
    hide Inv, NoClash, Epilogue, OldPair, IsMulticast, MacvtapMode, Footprint, WrongVx;
    BridgeLeftDown(lans, n, lan, hostname);
    var r := Ensure(n, DeviceName(spoke, dummy), spoke, lan, hostname, mode, dummy, {UpBr});
    hide Prologue;
    assert r == Prologue(n, lan, hostname, {UpBr});
    EnsureEffect(lans, n, spoke, lan, hostname, mode, dummy, {UpBr});
    EnsureKeepsInv(lans, n, spoke, lan, hostname, mode, dummy, {UpBr});
    DevApart(lans, n, lan, spoke, hostname, dummy, lan);
    assert Same(n, r.net, HostKey(DevName(lan, hostname)));
    KnownModes(mode, dummy);
    EnsureSucceedsIff(lans, r.net, spoke, lan, hostname, mode, dummy, {});
    SuccessIsConnectedIff(lans, r.net, spoke, lan, hostname, mode, dummy, {});
  }

  lemma BridgeLeftDown(lans: Lans, n: Net, lan: LanSpec, hostname: string)
    requires NoClash(lans) && lan.ns in lans && lans[lan.ns] == lan && Inv(lans, n)
    requires HostKey(DevName(lan, hostname)) in n.links && BridgeKey(lan) !in n.links
    ensures var r := Prologue(n, lan, hostname, {UpBr});
            r.Fail? && BridgeKey(lan) in r.net.links && !r.net.links[BridgeKey(lan)].up
  {
    hide NoClash, Inv, EnsureNs;
    BaseNamesApart(lans, lan);
    EnsureNsFrame(lans, n, lan.ns, {UpBr});
    NsSucceeds(n, lan.ns, {UpBr});
    var n1 := EnsureNs(n, lan.ns, {UpBr}).net;
    EnsureNsKeepsInv(lans, n, lan.ns, {UpBr});
    LoNeedsMount(lans, n1, lan.ns);
    assert Same(n, n1, BridgeKey(lan)) && Same(n, n1, HostKey(DevName(lan, hostname)));
  }

  /** The underlay is never touched. */
  lemma DevApart(lans: Lans, n: Net, lan: LanSpec, spoke: string, hostname: string, dummy: bool, other: LanSpec)
    requires Ctx(lans, lan, spoke) && Inv(lans, n) && other.ns in lans && lans[other.ns] == other
    ensures HostKey(DevName(other, hostname)) !in Footprint(n, lan, spoke, dummy)
  {
    hide Inv, OldPair, NoClash, IsDeviceName, AllSpokes;
    var d := HostKey(DevName(other, hostname));
    PeerNameStem(lans, lan, spoke);
    DeviceNameFacts(lans, spoke, dummy);
    DevNotReserved(lans, other, hostname);
    if d in OldPair(n, lan, spoke) {
      OldPairApart(lans, n, lan, spoke, d);
      OldPairIs(lans, n, lan, spoke, d);
      HostKinds(lans, n, DevName(other, hostname));
    }
  }

  lemma DevNotReserved(lans: Lans, lan: LanSpec, hostname: string)
    requires NoClash(lans) && lan.ns in lans && lans[lan.ns] == lan
    ensures !Reserved(lans, DevName(lan, hostname))
  {
  }

  /** After a success with a plain group the vxlan is right, so the next Ensure keeps it. */
  lemma NeedSettled(lans: Lans, n: Net, spoke: string, lan: LanSpec, hostname: string, mode: string, dummy: bool,
                    faults: set<Call>)
    requires Ctx(lans, lan, spoke) && Inv(lans, n) && (NsOpen in faults ==> !IsMounted(n, lan.ns))
    requires Ensure(n, DeviceName(spoke, dummy), spoke, lan, hostname, mode, dummy, faults).Ok?
    ensures var m := Ensure(n, DeviceName(spoke, dummy), spoke, lan, hostname, mode, dummy, faults).net;
            && Same(n, m, HostKey(DevName(lan, hostname)))
            && (WrongVx(m, lan, hostname, {}) <==>
                  if StaleVx(n, lan, WrongVx(n, lan, hostname, faults), faults) then WrongVx(n, lan, hostname, {})
                  else !PlainGroup(lan.group))
  {
    hide Inv, NoClash, Ensure, OldPair, Footprint;
    EnsureEffect(lans, n, spoke, lan, hostname, mode, dummy, faults);
    DevApart(lans, n, lan, spoke, hostname, dummy, lan);
    var m := Ensure(n, DeviceName(spoke, dummy), spoke, lan, hostname, mode, dummy, faults).net;
    assert Same(n, m, HostKey(DevName(lan, hostname)));
    BridgeKind(lans, n, lan);
    assert PlainGroup(lan.group) <==> lan.group.zone == "" && ReadBack(lan.group.bytes) == lan.group.bytes;
  }

  /**
   Whatever vxlan was there, of any group, vni, port and underlay: after a success it has exactly the
   settings of the spec, unless one that should go could not be deleted; then it still has its own.
   */
  lemma EnsureRepairsVx(lans: Lans, n: Net, spoke: string, lan: LanSpec, hostname: string, mode: string, dummy: bool,
                        faults: set<Call>)
    requires Ctx(lans, lan, spoke) && Inv(lans, n) && (NsOpen in faults ==> !IsMounted(n, lan.ns))
    requires Ensure(n, DeviceName(spoke, dummy), spoke, lan, hostname, mode, dummy, faults).Ok?
    ensures hostname in lan.devMap ==> HostKey(lan.devMap[hostname]) in n.links
    ensures hostname !in lan.devMap ==> HostKey(lan.defaultDev) in n.links
    ensures var m := Ensure(n, DeviceName(spoke, dummy), spoke, lan, hostname, mode, dummy, faults).net;
            var v := VxKey(lan);
            var card := if hostname in lan.devMap then lan.devMap[hostname] else lan.defaultDev;
            var dev := n.links[HostKey(card)].index;
            && v in m.links && Same(n, m, HostKey(card))
            && m.links[v].kind == (if StaleVx(n, lan, WrongVx(n, lan, hostname, faults), faults) then n.links[v].kind
                                   else Vxlan(Conf(ReadBack(lan.group.bytes), lan.vni, dev, lan.port)))
            && (DelVx !in faults ==> IsVxOf(lan, m.links[v].kind) && m.links[v].kind.conf.dev == dev)
  {
    hide Inv, NoClash, Ensure, OldPair, Footprint;
    EnsureEffect(lans, n, spoke, lan, hostname, mode, dummy, faults);
    DevApart(lans, n, lan, spoke, hostname, dummy, lan);
    BridgeKind(lans, n, lan);
  }

  /** The device of a success, in the words of the call: above what, in which mode, and up. */
  lemma DeviceAsAsked(lans: Lans, n: Net, spoke: string, lan: LanSpec, hostname: string, mode: string, dummy: bool,
                      faults: set<Call>)
    requires Ctx(lans, lan, spoke) && Inv(lans, n) && (NsOpen in faults ==> !IsMounted(n, lan.ns))
    requires Ensure(n, DeviceName(spoke, dummy), spoke, lan, hostname, mode, dummy, faults).Ok?
    ensures var m := Ensure(n, DeviceName(spoke, dummy), spoke, lan, hostname, mode, dummy, faults).net;
            var k := Key(Host, spoke + if dummy then "V0" else "M0");
            && k in m.links && m.links[k].up && m.links[k].kind.Macvtap?
            && var got := m.links[k].kind;
            && (dummy ==> got == Macvtap(Key(Host, "k8slan-dummy"), Private))
            && (!dummy ==>
                  && mode in {"", "bridge", "private", "vepa", "passthru"} && got.lower == Key(Host, spoke)
                  && (mode == "" || mode == "bridge" ==> got.mode == BridgeMode)
                  && (mode == "private" ==> got.mode == Private)
                  && (mode == "vepa" ==> got.mode == Vepa)
                  && (mode == "passthru" ==> got.mode == Passthru))
  {
    hide Inv, NoClash, Ensure, OldPair, Footprint;
    EnsureEffect(lans, n, spoke, lan, hostname, mode, dummy, faults);
  }

  /** An existing vxlan is replaced exactly when its group, vni, underlay or port is not the wanted one. */
  lemma ReplacedIff(lans: Lans, n: Net, spoke: string, lan: LanSpec, hostname: string, mode: string, dummy: bool)
    requires Ctx(lans, lan, spoke) && Inv(lans, n) && VxKey(lan) in n.links
    requires Ensure(n, DeviceName(spoke, dummy), spoke, lan, hostname, mode, dummy, {}).Ok?
    ensures HostKey(DevName(lan, hostname)) in n.links && n.links[VxKey(lan)].kind.Vxlan?
    ensures var m := Ensure(n, DeviceName(spoke, dummy), spoke, lan, hostname, mode, dummy, {}).net;
            var v, conf := VxKey(lan), n.links[VxKey(lan)].kind.conf;
            && v in m.links
            && (m.links[v].index != n.links[v].index <==>
                  || !(lan.group.zone == "" && lan.group.bytes == conf.group) || conf.vni != lan.vni
                  || conf.dev != n.links[HostKey(DevName(lan, hostname))].index || conf.port != lan.port)
  {
    hide NoClash, Ensure, OldPair, Footprint;
    EnsureEffect(lans, n, spoke, lan, hostname, mode, dummy, {});
    BridgeKind(lans, n, lan);
    assert n.links[VxKey(lan)].index < n.next;
    hide Inv;
  }
}
