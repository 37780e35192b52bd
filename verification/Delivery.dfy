/** What a successful Ensure leaves on its host, in the words of the LAN's resource and of the call. */
module Delivery {
  import opened Wrappers
  import opened Kernel
  import opened ApplySpec
  import opened LanTypes
  import opened Topology
  import opened EnsureInv
  import opened EnsureFrame
  import opened EnsureOutcome
  import opened Refinement
  import opened Guarantees
  import opened Untouched

  /**
   The spoke's pair on the LAN's bridge with its end up in the host, its device, and the LAN's vxlan over the
   card of this host; only an old vxlan that could not be deleted may have other settings.
   */
  predicate Delivered(m: Net, spec: LANSpec, spoke: string, isVeth: bool, hostname: string, stuck: bool)
    requires Resolvable(spec)
  {
    var ns := Lan(spec.ns.value);
    var bridge, vxlan, peer := Key(ns, spec.bridge.value), Key(ns, spec.vxlan.value), Key(ns, spoke + "p");
    var end, device := Key(Host, spoke), Key(Host, spoke + if isVeth then "V0" else "M0");
    var card := Key(Host, if hostname in spec.devMap then spec.devMap[hostname] else spec.defaultDev);
    && {bridge, vxlan, peer, end, device, card} <= m.links.Keys
    && m.links[bridge].kind.Bridge?
    && m.links[peer].(index := 0) == Link(0, Veth(end), true, Some(bridge), 65533)
    && m.links[end].(index := 0) == Link(0, Veth(peer), true, None, 0)
    && m.links[device].(index := 0)
       == Link(0, if isVeth then Macvtap(Key(Host, "k8slan-dummy"), Private) else Macvtap(end, Passthru), true, None, 0)
    && m.links[vxlan].kind.Vxlan?
    && (!stuck ==>
          m.links[vxlan].kind == Vxlan(Conf(ReadBack(spec.group.value.addr.bytes), spec.vni.value as int,
                                            m.links[card].index, spec.port.value as int)))
  }

  /** The spec is one of the cluster's, and has the spoke. */
  ghost predicate Serves(lans: Lans, spec: LANSpec, spoke: string) {
    && NoClash(lans) && Resolvable(spec) && spoke in spec.spokes
    && spec.ns.value in lans && lans[spec.ns.value] == Resolve(spec)
  }

  lemma ServesCtx(lans: Lans, spec: LANSpec, spoke: string)
    requires Serves(lans, spec, spoke)
    ensures Ctx(lans, Resolve(spec), spoke) && Resolve(spec).ns == spec.ns.value
  {
    hide NoClash;
  }

  lemma EnsureDelivers(lans: Lans, n: Net, spec: LANSpec, spoke: string, isVeth: bool, hostname: string,
                       faults: set<Call>)
    requires Serves(lans, spec, spoke) && Inv(lans, n)
    requires var id := spoke + if isVeth then "V0" else "M0";
             Ensure(n, id, spoke, Resolve(spec), hostname, "passthru", isVeth, faults).Ok?
    ensures var id := spoke + if isVeth then "V0" else "M0";
            Delivered(Ensure(n, id, spoke, Resolve(spec), hostname, "passthru", isVeth, faults).net,
                      spec, spoke, isVeth, hostname, DelVx in faults)
  {
    var lan, mac := Resolve(spec), DeviceName(spoke, isVeth);
    ServesCtx(lans, spec, spoke);
    hide NoClash, Inv, Ensure, Serves, Resolve;
    if Lost(n, lan, faults) {
      var f := faults - {NsUnmount};
      LostNamespace(n, mac, spoke, lan, hostname, "passthru", isVeth, faults);
      DeleteNamedKeepsInv(lans, n, lan.ns, f);
      Unmounts(n, lan.ns, f);
      hide Remove;
      DeliversHere(lans, Remove(n, lan.ns, f), spec, spoke, isVeth, hostname, faults);
    } else {
      DeliversHere(lans, n, spec, spoke, isVeth, hostname, faults);
    }
  }

  lemma DeliversHere(lans: Lans, n: Net, spec: LANSpec, spoke: string, isVeth: bool, hostname: string,
                     faults: set<Call>)
    requires Resolvable(spec) && Ctx(lans, Resolve(spec), spoke) && Inv(lans, n)
    requires NsOpen in faults ==> !IsMounted(n, Resolve(spec).ns)
    requires Ensure(n, DeviceName(spoke, isVeth), spoke, Resolve(spec), hostname, "passthru", isVeth, faults).Ok?
    ensures var id := DeviceName(spoke, isVeth);
            Delivered(Ensure(n, id, spoke, Resolve(spec), hostname, "passthru", isVeth, faults).net,
                      spec, spoke, isVeth, hostname, DelVx in faults)
  {
    var lan := Resolve(spec);
    hide *;
    PairDelivered(lans, n, spoke, lan, hostname, "passthru", isVeth, faults);
    EnsureRepairsVx(lans, n, spoke, lan, hostname, "passthru", isVeth, faults);
    DeviceAsAsked(lans, n, spoke, lan, hostname, "passthru", isVeth, faults);
    Assembled(n, Ensure(n, DeviceName(spoke, isVeth), spoke, lan, hostname, "passthru", isVeth, faults).net,
              spec, spoke, isVeth, hostname, faults);
  }

  lemma PairDelivered(lans: Lans, n: Net, spoke: string, lan: LanSpec, hostname: string, mode: string, dummy: bool,
                      faults: set<Call>)
    requires Ctx(lans, lan, spoke) && Inv(lans, n) && (NsOpen in faults ==> !IsMounted(n, lan.ns))
    requires Ensure(n, DeviceName(spoke, dummy), spoke, lan, hostname, mode, dummy, faults).Ok?
    ensures var m := Ensure(n, DeviceName(spoke, dummy), spoke, lan, hostname, mode, dummy, faults).net;
            var bridge, peer, end := Key(Lan(lan.ns), lan.bridge), Key(Lan(lan.ns), spoke + "p"), Key(Host, spoke);
            var device := Key(Host, spoke + if dummy then "V0" else "M0");
            && {bridge, peer, end, device} <= m.links.Keys && m.links[bridge].kind.Bridge?
            && m.links[peer].(index := 0) == Link(0, Veth(end), true, Some(bridge), 65533)
            && m.links[end].(index := 0) == Link(0, Veth(peer), true, None, 0)
            && m.links[device].master.None? && m.links[device].mask == 0
    ensures VxKey(lan) in n.links ==> n.links[VxKey(lan)].kind.Vxlan?
  {
    hide NoClash, Inv, Ensure, Footprint, OldPair;
    EnsureEffect(lans, n, spoke, lan, hostname, mode, dummy, faults);
    VxStays(lans, n, lan);
    hide WrongVx, VxAfter;
  }

  /** The same facts, in the fields of the resource. */
  lemma Assembled(n: Net, m: Net, spec: LANSpec, spoke: string, isVeth: bool, hostname: string, faults: set<Call>)
    requires Resolvable(spec)
    requires var lan := Resolve(spec);
             var bridge, peer, end := Key(Lan(lan.ns), lan.bridge), Key(Lan(lan.ns), spoke + "p"), Key(Host, spoke);
             var device := Key(Host, spoke + if isVeth then "V0" else "M0");
             var card := HostKey(if hostname in lan.devMap then lan.devMap[hostname] else lan.defaultDev);
             && {bridge, peer, end, device} <= m.links.Keys && m.links[bridge].kind.Bridge?
             && m.links[peer].(index := 0) == Link(0, Veth(end), true, Some(bridge), 65533)
             && m.links[end].(index := 0) == Link(0, Veth(peer), true, None, 0)
             && m.links[device].master.None? && m.links[device].mask == 0 && m.links[device].up
             && m.links[device].kind
                == (if isVeth then Macvtap(Key(Host, "k8slan-dummy"), Private) else Macvtap(end, Passthru))
             && card in n.links && Same(n, m, card)
             && VxKey(lan) in m.links && m.links[VxKey(lan)].kind.Vxlan?
             && (DelVx !in faults ==>
                   m.links[VxKey(lan)].kind
                   == Vxlan(Conf(ReadBack(lan.group.bytes), lan.vni, n.links[card].index, lan.port)))
    ensures Delivered(m, spec, spoke, isVeth, hostname, DelVx in faults)
  {
    hide ReadBack;
  }

  lemma VxStays(lans: Lans, n: Net, lan: LanSpec)
    requires NoClash(lans) && lan.ns in lans && lans[lan.ns] == lan && Inv(lans, n)
    ensures VxKey(lan) in n.links ==> n.links[VxKey(lan)].kind.Vxlan?
  {
    if VxKey(lan) in n.links { assert LinkOk(lans, n.links, VxKey(lan)); }
  }

  // ----- decimal text -----

  /** The number that a text of digits stands for. */
  function Number(text: string): nat
    requires IsDigits(text)
  {
    if text == "" then 0 else Number(text[..|text| - 1]) * 10 + (text[|text| - 1] as int - '0' as int)
  }

  predicate IsDigits(text: string) {
    forall i :: 0 <= i < |text| ==> '0' <= text[i] <= '9'
  }

  /** The path of a tap: its prefix, then the index as it is usually written. */
  predicate IsTapOf(path: string, index: nat) {
    && 8 < |path| && path[..8] == "/dev/tap"
    && IsDigits(path[8..]) && (path[8] == '0' ==> |path| == 9) && Number(path[8..]) == index
  }
}
