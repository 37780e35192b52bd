/** `Ensure`, `Remove`, the CNI move and a pod's teardown keep `Inv`, whatever calls fail. */
module EnsureInv {
  import opened Wrappers
  import opened Kernel
  import opened ApplySpec
  import opened Topology
  import opened TopologySteps

  /** The LAN and spoke that an `Ensure` is about. */
  ghost predicate Ctx(lans: Lans, lan: LanSpec, spoke: string) {
    NoClash(lans) && lan.ns in lans && lans[lan.ns] == lan && spoke in lan.spokes
  }

  /** No macvtap is above `k`. */
  ghost predicate Bare(links: map<Key, Link>, k: Key) {
    forall a :: !Above(links, a, k)
  }

  // ----- namespaces -----

  lemma MountKeepsInv(lans: Lans, n: Net, lan: string)
    requires Inv(lans, n) && !IsMounted(n, lan) && lan in lans && lans[lan].ns == lan
    ensures Inv(lans, MountNs(n, lan))
  {
    hide DevicesOk;
    var m := MountNs(n, lan);
    assert LoKey(lan) !in n.links;
    DevicesWithNew(lans, n, m.links);
    forall x | x in m.links ensures LinkOk(lans, m.links, x) {
      if x != LoKey(lan) { assert LinkOk(lans, n.links, x); }
    }
    forall a, w | IsVeth(m.links, w) && Above(m.links, a, w) ensures IsVeth(n.links, w) && Above(n.links, a, w) {
      assert LinkOk(lans, n.links, a);
    }
  }

  lemma DeleteNamedKeepsInv(lans: Lans, n: Net, lan: string, faults: set<Call>)
    requires Inv(lans, n)
    ensures Inv(lans, DeleteNamed(n, lan, faults).net)
  {
    hide LinksOk, OneMacvtap, DevicesOk;
    if IsMounted(n, lan) && NsUnmount !in faults {
      var roots := KeysIn(n.links, Lan(lan));
      EraseKeepsInv(lans, n, roots);
      var m := DeleteNamed(n, lan, faults).net;
      forall x | IsMounted(m, x) ensures LoKey(x) in m.links {
        LoStays(lans, n, roots, x);
      }
      forall k | k in m.links && k.ns.Lan? ensures IsMounted(m, k.ns.name) {
        assert k !in roots;
      }
    }
  }

  lemma NewNsKeepsInv(lans: Lans, n: Net, lan: string, faults: set<Call>)
    requires Inv(lans, n) && !IsMounted(n, lan) && lan in lans && lans[lan].ns == lan
    ensures Inv(lans, NewNs(n, lan, faults).net)
    ensures NewNs(n, lan, faults).Ok? ==> IsMounted(NewNs(n, lan, faults).net, lan)
  {
    MountKeepsInv(lans, n, lan);
  }

  lemma EnsureNsKeepsInv(lans: Lans, n: Net, lan: string, faults: set<Call>)
    requires Inv(lans, n) && lan in lans && lans[lan].ns == lan
    ensures Inv(lans, EnsureNs(n, lan, faults).net)
    ensures EnsureNs(n, lan, faults).Ok? ==> IsMounted(EnsureNs(n, lan, faults).net, lan)
  {
    if !IsMounted(n, lan) || NsOpen in faults {
      var m := if lan in n.mounts then DeleteNamed(n, lan, faults - {NsUnmount}).net else n;
      DeleteNamedKeepsInv(lans, n, lan, faults - {NsUnmount});
      NewNsKeepsInv(lans, m, lan, faults);
    }
  }

  // ----- bridge and vxlan -----

  lemma SetUpKeepsInv(lans: Lans, n: Net, k: Key)
    requires Inv(lans, n)
    ensures SetUp(n, k).Some? ==> Inv(lans, SetUp(n, k).value)
  {
    if k in n.links { FlagsKeepInv(lans, n, k, n.links[k].(up := true)); }
  }

  lemma BridgePlaced(lans: Lans, n: Net, lan: LanSpec)
    requires NoClash(lans) && lan.ns in lans && lans[lan.ns] == lan
    ensures Placed(lans, BridgeKey(lan), Fresh(n, Bridge))
  {
    OwnApart(lans, lan);
    hide NoClash, IsPeerName;
  }

  lemma BridgeKeepsInv(lans: Lans, n: Net, lan: LanSpec, faults: set<Call>)
    requires NoClash(lans) && lan.ns in lans && lans[lan.ns] == lan && Inv(lans, n) && IsMounted(n, lan.ns)
    ensures Inv(lans, EnsureBridge(n, lan, faults).net)
    ensures EnsureBridge(n, lan, faults).net.mounts == n.mounts
  {
    hide Inv, NoClash, Placed, SetUp, Add;
    var k := BridgeKey(lan);
    BridgePlaced(lans, n, lan);
    MountsOf(n, k, Bridge);
    if Add(n, k, Bridge).Some? {
      AddKeepsInv(lans, n, k, Bridge);
      SetUpKeepsInv(lans, Add(n, k, Bridge).value, k);
    }
  }

  lemma MountsOf(n: Net, k: Key, kind: Kind)
    ensures var r := Add(n, k, kind);
            r.Some? ==> r.value.mounts == n.mounts
                        && (SetUp(r.value, k).Some? ==> SetUp(r.value, k).value.mounts == n.mounts)
  {
  }

  lemma CreateVxKeepsInv(lans: Lans, n: Net, lan: LanSpec, dev: nat, faults: set<Call>)
    requires NoClash(lans) && lan.ns in lans && lans[lan.ns] == lan && Inv(lans, n) && IsMounted(n, lan.ns)
    ensures Inv(lans, CreateVx(n, lan, dev, faults).net)
  {
    var kind := Vxlan(WantedConf(lan, dev));
    if Add(n, VxKey(lan), kind).Some? {
      AddKeepsInv(lans, n, VxKey(lan), kind);
    }
  }

  lemma SetMasterKeepsInv(lans: Lans, n: Net, k: Key, b: Key)
    requires NoClash(lans) && Inv(lans, n)
    requires k.ns.Lan? && k.ns.name in lans && k.name !in lans[k.ns.name].spokes
    ensures SetMaster(n, k, b).Some? ==> Inv(lans, SetMaster(n, k, b).value)
  {
    if SetMaster(n, k, b).Some? {
      FlagsKeepInv(lans, n, k, Enslaved(n.links[k], b));
    }
  }

  lemma SetMaskKeepsInv(lans: Lans, n: Net, k: Key, mask: nat)
    requires Inv(lans, n)
    ensures SetMask(n, k, mask).Some? ==> Inv(lans, SetMask(n, k, mask).value)
  {
    if k in n.links { FlagsKeepInv(lans, n, k, n.links[k].(mask := mask)); }
  }

  lemma VxNoSpoke(lans: Lans, lan: LanSpec)
    requires NoClash(lans) && lan.ns in lans && lans[lan.ns] == lan
    ensures lan.vxlan !in lan.spokes
  {
    OwnApart(lans, lan);
  }

  lemma AttachVxKeepsInv(lans: Lans, n: Net, lan: LanSpec, faults: set<Call>)
    requires NoClash(lans) && lan.ns in lans && lans[lan.ns] == lan && Inv(lans, n)
    ensures Inv(lans, AttachVx(n, lan, faults).net)
  {
    hide Inv, NoClash, SetUp;
    var v, b := VxKey(lan), BridgeKey(lan);
    VxNoSpoke(lans, lan);
    SetMasterKeepsInv(lans, n, v, b);
    if SetMaster(n, v, b).Some? {
      var n1 := SetMaster(n, v, b).value;
      SetMaskKeepsInv(lans, n1, v, BR_SLAVE_GRP_FWD_MASK);
      SetUpKeepsInv(lans, SetMask(n1, v, BR_SLAVE_GRP_FWD_MASK).value, v);
    }
  }

  // ----- the veth pair -----

  lemma AddVethBare(lans: Lans, n: Net, s: Key, p: Key)
    requires Inv(lans, n) && AddVeth(n, s, p).Some?
    ensures Bare(AddVeth(n, s, p).value.links, s)
  {
    forall a ensures !Above(AddVeth(n, s, p).value.links, a, s) {
      if a in n.links { assert LinkOk(lans, n.links, a); }
    }
  }

  lemma MoveBare(lans: Lans, n: Net, k: Key, to: Key)
    requires Inv(lans, n) && Move(n, k, to).Some? && Bare(n.links, k)
    ensures Bare(Move(n, k, to).value.links, to)
  {
    var m := Move(n, k, to).value;
    forall a ensures !Above(m.links, a, to) {
      if a in m.links {
        assert LinkOk(lans, n.links, Renamed(a, to, k));
        assert !Above(n.links, Renamed(a, to, k), k);
      }
    }
  }

  lemma VethKeepsInv(lans: Lans, n: Net, lan: LanSpec, spoke: string, faults: set<Call>)
    requires Ctx(lans, lan, spoke) && Inv(lans, n) && IsMounted(n, lan.ns)
    ensures var r := EnsureVeth(n, lan, spoke, faults);
            && Inv(lans, r.net) && r.net.mounts == n.mounts
            && (r.Ok? ==> Bare(r.net.links, HostKey(spoke)))
  {
    hide Inv, Erase, Move, SetMaster, SetMask, IsPeerName, NoClash, Stem;
    var p, s, b := PeerKey(lan, spoke), NewSpokeKey(lan, spoke), BridgeKey(lan);
    VethMounts(n, lan, spoke, faults);
    PeerNameStem(lans, lan, spoke);
    LinkDeleteKeepsInv(lans, n, p, DelPeer, faults);
    var n0 := LinkDelete(n, p, DelPeer, faults).net;
    if AddVeth(n0, s, p).Some? {
      AddVethKeepsInv(lans, n0, lan, spoke);
      AddVethBare(lans, n0, s, p);
      var n1 := AddVeth(n0, s, p).value;
      SetUpKeepsInv(lans, n1, s);
      var n2 := SetUp(n1, s).value;
      assert forall a :: Above(n2.links, a, s) ==> Above(n1.links, a, s);
      VethTail(lans, n2, lan, spoke, faults);
    }
  }

  lemma VethMounts(n: Net, lan: LanSpec, spoke: string, faults: set<Call>)
    ensures EnsureVeth(n, lan, spoke, faults).net.mounts == n.mounts
  {
    hide Erase, Redirect;
    EraseMountsKept(n, {PeerKey(lan, spoke)});
  }

  lemma VethTail(lans: Lans, n2: Net, lan: LanSpec, spoke: string, faults: set<Call>)
    requires Ctx(lans, lan, spoke) && Inv(lans, n2)
    requires NewSpokeKey(lan, spoke) in n2.links && n2.links[NewSpokeKey(lan, spoke)].kind.Veth?
    requires Bare(n2.links, NewSpokeKey(lan, spoke))
    ensures var p, s, b := PeerKey(lan, spoke), NewSpokeKey(lan, spoke), BridgeKey(lan);
            SetMaster(n2, p, b).Some? ==>
              var n3 := SetMaster(n2, p, b).value;
              var n4 := SetMask(n3, p, BR_SLAVE_GRP_FWD_MASK).value;
              var n5 := SetUp(n4, p).value;
              && Inv(lans, n3) && Inv(lans, n4) && Inv(lans, n5)
              && (Move(n5, s, HostKey(spoke)).Some? ==>
                    var n6 := Move(n5, s, HostKey(spoke)).value;
                    Inv(lans, n6) && Bare(n6.links, HostKey(spoke)))
  {
    hide Inv;
    var p, s, b := PeerKey(lan, spoke), NewSpokeKey(lan, spoke), BridgeKey(lan);
    PeerNameStem(lans, lan, spoke);
    SetMasterKeepsInv(lans, n2, p, b);
    if SetMaster(n2, p, b).Some? {
      var n3 := SetMaster(n2, p, b).value;
      SetMaskKeepsInv(lans, n3, p, BR_SLAVE_GRP_FWD_MASK);
      var n4 := SetMask(n3, p, BR_SLAVE_GRP_FWD_MASK).value;
      SetUpKeepsInv(lans, n4, p);
      var n5 := SetUp(n4, p).value;
      assert forall a :: Above(n5.links, a, s) ==> Above(n2.links, a, s);
      if Move(n5, s, HostKey(spoke)).Some? {
        MoveKeepsInv(lans, n5, s, HostKey(spoke));
        MoveBare(lans, n5, s, HostKey(spoke));
      }
    }
  }

  // ----- the macvtap -----

  lemma DeviceNameFacts(lans: Lans, spoke: string, dummy: bool)
    requires NoClash(lans) && spoke in AllSpokes(lans)
    ensures IsDeviceName(lans, DeviceName(spoke, dummy))
    ensures DeviceName(spoke, dummy) !in AllSpokes(lans) && DeviceName(spoke, dummy) != DUMMY_IF_NAME
  {
    var d := DeviceName(spoke, dummy);
    assert d[..|d| - 2] == spoke;
    assert d[|d| - 1] == '0' && DUMMY_IF_NAME[|DUMMY_IF_NAME| - 1] == 'y';
    if d in AllSpokes(lans) { SpokeName(lans, d); }
  }

  lemma AddMacvtapKeepsInv(lans: Lans, n: Net, mac: string, lower: string, mode: Mode)
    requires NoClash(lans) && Inv(lans, n) && IsDeviceName(lans, mac) && mac !in AllSpokes(lans) && mac != DUMMY_IF_NAME
    requires HostKey(lower) in n.links && !n.links[HostKey(lower)].kind.Macvtap?
    requires LowerFits(mac, n.links[HostKey(lower)].kind)
    requires n.links[HostKey(lower)].kind.Veth? ==> Bare(n.links, HostKey(lower))
    ensures AddMacvtap(n, HostKey(mac), HostKey(lower), mode).Some? ==>
              Inv(lans, AddMacvtap(n, HostKey(mac), HostKey(lower), mode).value)
  {
    var k, w := HostKey(mac), HostKey(lower);
    if AddMacvtap(n, k, w, mode).Some? {
      var m := AddMacvtap(n, k, w, mode).value;
      NewDevice(lans, n, m.links, k, w);
      AddedMacvtapRest(lans, n, k, w, mode);
      hide LowerFits, DevicesOk, IsDeviceName, AllSpokes, NoClash, OneMacvtap, NsOk, IndexOk;
      forall x | x in m.links ensures LinkOk(lans, m.links, x) {
        AddedMacvtapLink(lans, n, mac, w, mode, x);
      }
      hide LinkOk, AddMacvtap;
    }
  }

  lemma AddedMacvtapRest(lans: Lans, n: Net, k: Key, w: Key, mode: Mode)
    requires Inv(lans, n) && k.ns.Host? && w in n.links && !n.links[w].kind.Macvtap?
    requires n.links[w].kind.Veth? ==> Bare(n.links, w)
    requires AddMacvtap(n, k, w, mode).Some?
    ensures var m := AddMacvtap(n, k, w, mode).value; OneMacvtap(m.links) && NsOk(m) && IndexOk(m)
  {
    hide LinksOk, DevicesOk;
    var m := AddMacvtap(n, k, w, mode).value;
    forall a, b, v | IsVeth(m.links, v) && Above(m.links, a, v) && Above(m.links, b, v) ensures a == b {
      if v in n.links {
        assert a != k ==> Above(n.links, a, v);
        assert b != k ==> Above(n.links, b, v);
      }
    }
  }

  lemma AddedMacvtapLink(lans: Lans, n: Net, mac: string, w: Key, mode: Mode, x: Key)
    requires Inv(lans, n) && IsDeviceName(lans, mac) && mac !in AllSpokes(lans) && mac != DUMMY_IF_NAME
    requires w in n.links && !n.links[w].kind.Macvtap? && w.ns.Host? && AddMacvtap(n, HostKey(mac), w, mode).Some?
    requires x in AddMacvtap(n, HostKey(mac), w, mode).value.links
    ensures LinkOk(lans, AddMacvtap(n, HostKey(mac), w, mode).value.links, x)
  {
    if x != HostKey(mac) { assert LinkOk(lans, n.links, x); }
  }

  lemma NewDevice(lans: Lans, n: Net, m: map<Key, Link>, k: Key, w: Key)
    requires Inv(lans, n) && k !in n.links && w in n.links && LowerFits(k.name, n.links[w].kind)
    requires m.Keys == n.links.Keys + {k} && m[k].kind.Macvtap? && m[k].kind.lower == w
    requires forall x :: x in n.links ==> m[x] == n.links[x]
    ensures DevicesOk(m)
  {
    hide LowerFits;
    forall x, v | Above(m, x, v) && v in m && x.ns.Host? ensures LowerFits(x.name, m[v].kind) {
      if x != k {
        RefsHere(lans, n, x);
        DeviceFits(lans, n, x, v);
      }
    }
  }

  lemma RecreateKeepsInv(lans: Lans, n: Net, mac: string, lower: string, mode: string, faults: set<Call>)
    requires NoClash(lans) && Inv(lans, n) && IsDeviceName(lans, mac) && mac !in AllSpokes(lans) && mac != DUMMY_IF_NAME
    requires HostKey(lower) in n.links ==>
               !n.links[HostKey(lower)].kind.Macvtap? && LowerFits(mac, n.links[HostKey(lower)].kind)
    requires IsVeth(n.links, HostKey(lower)) ==> Bare(n.links, HostKey(lower))
    ensures Inv(lans, RecreateMacvtap(n, mac, lower, mode, faults).net)
  {
    hide Inv, NoClash, IsDeviceName, AllSpokes, LowerFits;
    LinkDeleteKeepsInv(lans, n, HostKey(mac), DelMac, faults);
    LinkDeleteShrinks(n, HostKey(mac), DelMac, faults);
    var n1 := LinkDelete(n, HostKey(mac), DelMac, faults).net;
    assert forall a :: Above(n1.links, a, HostKey(lower)) ==> Above(n.links, a, HostKey(lower));
    if HostKey(lower) in n1.links && ModeFromString(mode).Some? {
      hide LinkDelete, ModeFromString;
      var md := ModeFromString(mode).value;
      AddMacvtapKeepsInv(lans, n1, mac, lower, md);
      if AddMacvtap(n1, HostKey(mac), HostKey(lower), md).Some? {
        SetUpKeepsInv(lans, AddMacvtap(n1, HostKey(mac), HostKey(lower), md).value, HostKey(mac));
      }
    }
  }

  lemma LinkDeleteShrinks(n: Net, k: Key, c: Call, faults: set<Call>)
    ensures var m := LinkDelete(n, k, c, faults).net;
            forall x :: x in m.links ==> x in n.links && m.links[x].kind == n.links[x].kind
  {
  }

  lemma MacvtapKeepsInv(lans: Lans, n: Net, spoke: string, mode: string, dummy: bool, faults: set<Call>)
    requires NoClash(lans) && Inv(lans, n) && spoke in AllSpokes(lans) && Bare(n.links, HostKey(spoke))
    ensures Inv(lans, EnsureMacvtap(n, DeviceName(spoke, dummy), spoke, mode, dummy, faults).net)
  {
    var mac := DeviceName(spoke, dummy);
    DeviceNameFacts(lans, spoke, dummy);
    LowerOfDevice(lans, n, spoke, dummy);
    hide LowerFits;
    if !dummy {
      if HostKey(spoke) in n.links { assert LinkOk(lans, n.links, HostKey(spoke)); }
      RecreateKeepsInv(lans, n, mac, spoke, mode, faults);
    } else {
      var d := HostKey(DUMMY_IF_NAME);
      if d in n.links {
        assert LinkOk(lans, n.links, d);
        RecreateKeepsInv(lans, n, mac, DUMMY_IF_NAME, "private", faults);
      } else {
        DummyPlaced(lans, n);
        AddKeepsInv(lans, n, d, Dummy);
        RecreateKeepsInv(lans, Add(n, d, Dummy).value, mac, DUMMY_IF_NAME, "private", faults);
      }
    }
  }

  /** The lower device that Ensure uses fits the macvtap's name. */
  lemma LowerOfDevice(lans: Lans, n: Net, spoke: string, dummy: bool)
    requires Inv(lans, n) && spoke in AllSpokes(lans)
    ensures if dummy then LowerFits(DeviceName(spoke, true), Dummy)
            else HostKey(spoke) in n.links ==> LowerFits(DeviceName(spoke, false), n.links[HostKey(spoke)].kind)
    ensures HostKey(DUMMY_IF_NAME) in n.links ==> n.links[HostKey(DUMMY_IF_NAME)].kind.Dummy?
  {
    var d := DeviceName(spoke, dummy);
    assert d[..|d| - 2] == spoke && d[|d| - 2] == (if dummy then 'V' else 'M');
    assert EndsIn(d, "M0") ==> d[|d| - 2..][0] == 'M';
    assert EndsIn(d, "V0") ==> d[|d| - 2..][0] == 'V';
    if HostKey(spoke) in n.links { assert LinkOk(lans, n.links, HostKey(spoke)); }
    if HostKey(DUMMY_IF_NAME) in n.links { assert LinkOk(lans, n.links, HostKey(DUMMY_IF_NAME)); }
  }

  lemma DummyPlaced(lans: Lans, n: Net)
    requires NoClash(lans)
    ensures Placed(lans, HostKey(DUMMY_IF_NAME), Fresh(n, Dummy))
  {
    var d := DUMMY_IF_NAME;
    assert d[|d| - 1] == 'y';
  }

  // ----- Ensure -----

  lemma PrologueKeepsInv(lans: Lans, n: Net, lan: LanSpec, hostname: string, faults: set<Call>)
    requires NoClash(lans) && lan.ns in lans && lans[lan.ns] == lan && Inv(lans, n)
    ensures var r := Prologue(n, lan, hostname, faults);
            Inv(lans, r.net) && (r.Ok? ==> IsMounted(r.net, lan.ns))
  {
    hide Inv, NoClash, EnsureNs, EnsureBridge, VxFound;
    EnsureNsKeepsInv(lans, n, lan.ns, faults);
    var n1 := EnsureNs(n, lan.ns, faults).net;
    SetUpKeepsInv(lans, n1, LoKey(lan.ns));
    if SetUp(n1, LoKey(lan.ns)).Some? && IsMounted(n1, lan.ns) {
      BridgeKeepsInv(lans, SetUp(n1, LoKey(lan.ns)).value, lan, faults);
    }
  }

  lemma EpilogueKeepsInv(lans: Lans, n: Net, spoke: string, lan: LanSpec, dev: nat, mode: string, dummy: bool,
                         need: bool, faults: set<Call>)
    requires Ctx(lans, lan, spoke) && Inv(lans, n) && IsMounted(n, lan.ns)
    ensures Inv(lans, Epilogue(n, DeviceName(spoke, dummy), spoke, lan, dev, mode, dummy, need, faults).net)
  {
    hide Inv, NoClash, EnsureVeth, CreateVx, AttachVx, EnsureMacvtap, Erase;
    LinkDeleteKeepsInv(lans, n, VxKey(lan), DelVx, faults);
    var n0 := DropVx(n, lan, need, faults);
    VethKeepsInv(lans, n0, lan, spoke, faults);
    var n1 := EnsureVeth(n0, lan, spoke, faults);
    if n1.Ok? {
      CreateVxKeepsInv(lans, n1.net, lan, dev, faults);
      CreateVxBare(n1.net, lan, dev, faults, HostKey(spoke));
      var c := CreateVx(n1.net, lan, dev, faults).net;
      AttachVxKeepsInv(lans, c, lan, faults);
      AttachVxBare(c, lan, faults, HostKey(spoke));
      var n2 := if need then EnsureVx(n1.net, lan, dev, faults) else n1;
      if n2.Ok? {
        SetUpKeepsInv(lans, n2.net, HostKey(spoke));
        if SetUp(n2.net, HostKey(spoke)).Some? {
          var n3 := SetUp(n2.net, HostKey(spoke)).value;
          assert forall a :: Above(n3.links, a, HostKey(spoke)) ==> Above(n2.net.links, a, HostKey(spoke));
          PeerNameStem(lans, lan, spoke);
          MacvtapKeepsInv(lans, n3, spoke, mode, dummy, faults);
        }
      }
    }
  }

  lemma CreateVxBare(n: Net, lan: LanSpec, dev: nat, faults: set<Call>, k: Key)
    requires Bare(n.links, k)
    ensures Bare(CreateVx(n, lan, dev, faults).net.links, k)
  {
    assert forall a :: Above(CreateVx(n, lan, dev, faults).net.links, a, k) ==> Above(n.links, a, k);
  }

  lemma AttachVxBare(n: Net, lan: LanSpec, faults: set<Call>, k: Key)
    requires Bare(n.links, k)
    ensures Bare(AttachVx(n, lan, faults).net.links, k)
  {
    assert forall a :: Above(AttachVx(n, lan, faults).net.links, a, k) ==> Above(n.links, a, k);
  }

  /** Whatever calls fail and wherever Ensure returns, the state it leaves satisfies the invariant. */
  lemma EnsureKeepsInv(lans: Lans, n: Net, spoke: string, lan: LanSpec, hostname: string, mode: string, dummy: bool,
                       faults: set<Call>)
    requires Ctx(lans, lan, spoke) && Inv(lans, n)
    ensures Inv(lans, Ensure(n, DeviceName(spoke, dummy), spoke, lan, hostname, mode, dummy, faults).net)
  {
    PrologueKeepsInv(lans, n, lan, hostname, faults);
    var r := Prologue(n, lan, hostname, faults);
    if r.Ok? {
      var dev := r.net.links[HostKey(DevName(lan, hostname))].index;
      EpilogueKeepsInv(lans, r.net, spoke, lan, dev, mode, dummy, NeedVx(r.net, lan, dev, faults), faults);
    }
  }

  // ----- the other steps -----

  lemma CniAddKeepsInv(lans: Lans, n: Net, spoke: string, pod: nat, ifname: string)
    requires NoClash(lans) && Inv(lans, n)
    ensures Inv(lans, CniAdd(n, spoke, pod, ifname).net)
  {
    var k, moved := HostKey(spoke), Key(Pod(pod), spoke);
    if k in n.links && Move(n, k, moved).Some? {
      assert LinkOk(lans, n.links, k);
      MoveKeepsInv(lans, n, k, moved);
      var m := Move(n, k, moved).value;
      if Move(m, moved, Key(Pod(pod), ifname)).Some? {
        MoveKeepsInv(lans, m, moved, Key(Pod(pod), ifname));
      }
    }
  }

  lemma TeardownKeepsInv(lans: Lans, n: Net, pod: nat)
    requires Inv(lans, n)
    ensures Inv(lans, DestroyNs(n, Pod(pod)))
  {
    hide LinksOk, OneMacvtap, DevicesOk, IndexOk, Erase;
    var roots := KeysIn(n.links, Pod(pod));
    EraseKeepsInv(lans, n, roots);
    EraseMountsKept(n, roots);
    forall x | IsMounted(DestroyNs(n, Pod(pod)), x) ensures LoKey(x) in DestroyNs(n, Pod(pod)).links {
      LoStays(lans, n, roots, x);
    }
  }
}
