/**
 Where vxlans come from: every step of the system leaves them as they are, deletes them, or makes one with its
 LAN's settings.
 */
module VxOrigin {
  import opened Wrappers
  import opened Kernel
  import opened ApplySpec
  import opened Topology
  import opened EnsureInv

  /**
   Every vxlan of `m` was in `n` under the same key with the same settings, or is `lan`'s own with the wanted
   ones.
   */
  ghost predicate VxFrom(n: Net, m: Net, lan: LanSpec) {
    forall k :: k in m.links && m.links[k].kind.Vxlan? ==>
      || (k in n.links && n.links[k].kind == m.links[k].kind)
      || (k == VxKey(lan) && IsVxOf(lan, m.links[k].kind))
  }

  lemma VxChain(a: Net, b: Net, c: Net, lan: LanSpec)
    requires VxFrom(a, b, lan) && VxFrom(b, c, lan)
    ensures VxFrom(a, c, lan)
  {
    hide IsVxOf;
  }

  lemma VxRightFrom(lans: Lans, n: Net, m: Net, lan: LanSpec)
    requires NoClash(lans) && lan.ns in lans && lans[lan.ns] == lan && VxRight(lans, n) && VxFrom(n, m, lan)
    ensures VxRight(lans, m)
  {
    hide IsVxOf, OwnNamesApart, Reserved, AllSpokes;
  }

  // ----- single calls -----

  lemma EraseVx(n: Net, roots: set<Key>, lan: LanSpec)
    ensures VxFrom(n, Erase(n, roots), lan)
  {
    hide Doomed, IsVxOf;
  }

  lemma LinkDeleteVx(n: Net, k: Key, c: Call, faults: set<Call>, lan: LanSpec)
    ensures VxFrom(n, LinkDelete(n, k, c, faults).net, lan)
  {
    EraseVx(n, {k}, lan);
    hide Erase, IsVxOf;
  }

  lemma FlagsVx(n: Net, k: Key, b: Key, mask: nat, lan: LanSpec)
    ensures SetUp(n, k).Some? ==> VxFrom(n, SetUp(n, k).value, lan)
    ensures SetMaster(n, k, b).Some? ==> VxFrom(n, SetMaster(n, k, b).value, lan)
    ensures SetMask(n, k, mask).Some? ==> VxFrom(n, SetMask(n, k, mask).value, lan)
  {
    hide IsVxOf;
  }

  lemma MoveVx(n: Net, k: Key, to: Key, lan: LanSpec)
    requires k in n.links ==> !n.links[k].kind.Vxlan?
    ensures Move(n, k, to).Some? ==> VxFrom(n, Move(n, k, to).value, lan)
  {
    hide IsVxOf;
  }

  lemma AddVx(n: Net, k: Key, kind: Kind, lan: LanSpec)
    requires kind.Vxlan? ==> k == VxKey(lan) && IsVxOf(lan, kind)
    ensures Add(n, k, kind).Some? ==> VxFrom(n, Add(n, k, kind).value, lan)
  {
  }

  // ----- the phases of Ensure -----

  lemma DeleteNamedVx(n: Net, ns: string, faults: set<Call>, lan: LanSpec)
    ensures VxFrom(n, DeleteNamed(n, ns, faults).net, lan)
  {
    EraseVx(n, KeysIn(n.links, Lan(ns)), lan);
    hide Erase, IsVxOf;
  }

  lemma PrologueVx(n: Net, lan: LanSpec, hostname: string, faults: set<Call>)
    ensures VxFrom(n, Prologue(n, lan, hostname, faults).net, lan)
  {
    hide IsVxOf, DeleteNamed, SetUp;
    var d := DeleteNamed(n, lan.ns, faults - {NsUnmount}).net;
    DeleteNamedVx(n, lan.ns, faults - {NsUnmount}, lan);
    var n1 := EnsureNs(n, lan.ns, faults).net;
    assert VxFrom(n, n1, lan);
    hide EnsureNs;
    FlagsVx(n1, LoKey(lan.ns), LoKey(lan.ns), 0, lan);
    var r2 := SetUp(n1, LoKey(lan.ns));
    if r2.Some? {
      VxChain(n, n1, r2.value, lan);
      BridgeVx(r2.value, lan, faults);
      hide EnsureBridge;
      VxChain(n, r2.value, EnsureBridge(r2.value, lan, faults).net, lan);
    }
  }

  lemma BridgeVx(n: Net, lan: LanSpec, faults: set<Call>)
    ensures VxFrom(n, EnsureBridge(n, lan, faults).net, lan)
  {
    var k := BridgeKey(lan);
    AddVx(n, k, Bridge, lan);
    if Add(n, k, Bridge).Some? {
      var n1 := Add(n, k, Bridge).value;
      FlagsVx(n1, k, k, 0, lan);
      if SetUp(n1, k).Some? { VxChain(n, n1, SetUp(n1, k).value, lan); }
    }
    hide IsVxOf, Add, SetUp;
  }

  lemma VethVx(n: Net, lan: LanSpec, spoke: string, faults: set<Call>)
    ensures VxFrom(n, EnsureVeth(n, lan, spoke, faults).net, lan)
  {
    hide IsVxOf, Erase;
    var p, s := PeerKey(lan, spoke), NewSpokeKey(lan, spoke);
    LinkDeleteVx(n, p, DelPeer, faults, lan);
    var n0 := LinkDelete(n, p, DelPeer, faults).net;
    hide LinkDelete, SetUp, SetMaster, SetMask, Move, AddVeth;
    if AddVeth(n0, s, p).Some? {
      PairVx(n0, lan, spoke, faults);
      VxChain(n, n0, EnsureVeth(n, lan, spoke, faults).net, lan);
    }
  }

  /** The pair being made, up to its move. */
  lemma PairVx(n0: Net, lan: LanSpec, spoke: string, faults: set<Call>)
    requires AddVeth(n0, NewSpokeKey(lan, spoke), PeerKey(lan, spoke)).Some?
    ensures var p, s, b, h := PeerKey(lan, spoke), NewSpokeKey(lan, spoke), BridgeKey(lan), HostKey(spoke);
            var n1 := AddVeth(n0, s, p).value;
            var n2 := SetUp(n1, s).value;
            && VxFrom(n0, n1, lan) && VxFrom(n0, n2, lan)
            && (SetMaster(n2, p, b).Some? ==>
                  var n3 := SetMaster(n2, p, b).value;
                  var n4 := SetMask(n3, p, BR_SLAVE_GRP_FWD_MASK).value;
                  var n5 := SetUp(n4, p).value;
                  && VxFrom(n0, n3, lan) && VxFrom(n0, n4, lan) && VxFrom(n0, n5, lan)
                  && (Move(n5, s, h).Some? ==> VxFrom(n0, Move(n5, s, h).value, lan)))
  {
    hide IsVxOf;
    var p, s, b, h := PeerKey(lan, spoke), NewSpokeKey(lan, spoke), BridgeKey(lan), HostKey(spoke);
    var n2 := SetUp(AddVeth(n0, s, p).value, s).value;
    if SetMaster(n2, p, b).Some? {
      var n5 := SetUp(SetMask(SetMaster(n2, p, b).value, p, BR_SLAVE_GRP_FWD_MASK).value, p).value;
      MoveVx(n5, s, h, lan);
      hide Move;
      if Move(n5, s, h).Some? { VxChain(n0, n5, Move(n5, s, h).value, lan); }
    }
  }

  lemma EnsureVxVx(n: Net, lan: LanSpec, dev: nat, faults: set<Call>)
    ensures VxFrom(n, EnsureVx(n, lan, dev, faults).net, lan)
  {
    AddVx(n, VxKey(lan), Vxlan(WantedConf(lan, dev)), lan);
    var c := CreateVx(n, lan, dev, faults).net;
    assert VxFrom(n, c, lan);
    hide CreateVx, IsVxOf;
    AttachVxVx(c, lan, faults);
    VxChain(n, c, AttachVx(c, lan, faults).net, lan);
  }

  lemma AttachVxVx(n: Net, lan: LanSpec, faults: set<Call>)
    ensures VxFrom(n, AttachVx(n, lan, faults).net, lan)
  {
    hide IsVxOf;
  }

  lemma MacvtapVx(n: Net, mac: string, spoke: string, mode: string, dummy: bool, faults: set<Call>, lan: LanSpec)
    ensures VxFrom(n, EnsureMacvtap(n, mac, spoke, mode, dummy, faults).net, lan)
  {
    var d := HostKey(DUMMY_IF_NAME);
    AddVx(n, d, Dummy, lan);
    hide Add, IsVxOf, RecreateMacvtap;
    RecreateVx(n, mac, spoke, mode, faults, lan);
    RecreateVx(n, mac, DUMMY_IF_NAME, "private", faults, lan);
    if Add(n, d, Dummy).Some? {
      var m := Add(n, d, Dummy).value;
      RecreateVx(m, mac, DUMMY_IF_NAME, "private", faults, lan);
      VxChain(n, m, RecreateMacvtap(m, mac, DUMMY_IF_NAME, "private", faults).net, lan);
    }
  }

  lemma RecreateVx(n: Net, mac: string, lower: string, mode: string, faults: set<Call>, lan: LanSpec)
    ensures VxFrom(n, RecreateMacvtap(n, mac, lower, mode, faults).net, lan)
  {
    hide IsVxOf, Erase, ModeFromString;
    LinkDeleteVx(n, HostKey(mac), DelMac, faults, lan);
    hide LinkDelete;
    var n1 := LinkDelete(n, HostKey(mac), DelMac, faults).net;
    CreateMacvtapVx(n1, mac, lower, mode, faults, lan);
    hide CreateMacvtap;
    VxChain(n, n1, CreateMacvtap(n1, mac, lower, mode, faults).net, lan);
  }

  lemma CreateMacvtapVx(n: Net, mac: string, lower: string, mode: string, faults: set<Call>, lan: LanSpec)
    ensures VxFrom(n, CreateMacvtap(n, mac, lower, mode, faults).net, lan)
  {
    hide IsVxOf, ModeFromString;
  }

  lemma EpilogueVx(n: Net, mac: string, spoke: string, lan: LanSpec, dev: nat, mode: string, dummy: bool, need: bool,
                   faults: set<Call>)
    ensures VxFrom(n, Epilogue(n, mac, spoke, lan, dev, mode, dummy, need, faults).net, lan)
  {
    hide IsVxOf, LinkDelete, EnsureVeth, EnsureVx, EnsureMacvtap, SetUp;
    var h := HostKey(spoke);
    LinkDeleteVx(n, VxKey(lan), DelVx, faults, lan);
    var n0 := DropVx(n, lan, need, faults);
    VethVx(n0, lan, spoke, faults);
    var n1 := EnsureVeth(n0, lan, spoke, faults).net;
    VxChain(n, n0, n1, lan);
    EnsureVxVx(n1, lan, dev, faults);
    VxChain(n, n1, EnsureVx(n1, lan, dev, faults).net, lan);
    var n2 := if need then EnsureVx(n1, lan, dev, faults).net else n1;
    FlagsVx(n2, h, h, 0, lan);
    if SetUp(n2, h).Some? {
      var n3 := SetUp(n2, h).value;
      VxChain(n, n2, n3, lan);
      MacvtapVx(n3, mac, spoke, mode, dummy, faults, lan);
      VxChain(n, n3, EnsureMacvtap(n3, mac, spoke, mode, dummy, faults).net, lan);
    }
    hide VxFrom, DropVx;
  }

  // ----- the steps of the system -----

  /** Whatever fails, an Ensure makes no vxlan but its LAN's, with the settings of the spec. */
  lemma EnsureVxFrom(n: Net, mac: string, spoke: string, lan: LanSpec, hostname: string, mode: string, dummy: bool,
                     faults: set<Call>)
    ensures VxFrom(n, Ensure(n, mac, spoke, lan, hostname, mode, dummy, faults).net, lan)
  {
    PrologueVx(n, lan, hostname, faults);
    var r := Prologue(n, lan, hostname, faults);
    hide VxFrom, Prologue, Epilogue;
    if r.Ok? {
      var dev := r.net.links[HostKey(DevName(lan, hostname))].index;
      var need := NeedVx(r.net, lan, dev, faults);
      EpilogueVx(r.net, mac, spoke, lan, dev, mode, dummy, need, faults);
      VxChain(n, r.net, Epilogue(r.net, mac, spoke, lan, dev, mode, dummy, need, faults).net, lan);
    }
  }

  lemma EnsureKeepsVxRight(lans: Lans, n: Net, mac: string, spoke: string, lan: LanSpec, hostname: string, mode: string,
                           dummy: bool, faults: set<Call>)
    requires Ctx(lans, lan, spoke) && VxRight(lans, n)
    ensures VxRight(lans, Ensure(n, mac, spoke, lan, hostname, mode, dummy, faults).net)
  {
    hide Ensure, NoClash, VxRight, VxFrom;
    EnsureVxFrom(n, mac, spoke, lan, hostname, mode, dummy, faults);
    VxRightFrom(lans, n, Ensure(n, mac, spoke, lan, hostname, mode, dummy, faults).net, lan);
  }

  /** A vxlan that was there, as it was. */
  ghost predicate VxKept(n: Net, m: Net) {
    forall k :: k in m.links && m.links[k].kind.Vxlan? ==> k in n.links && n.links[k].kind == m.links[k].kind
  }

  lemma KeptRight(lans: Lans, n: Net, m: Net)
    requires VxRight(lans, n) && VxKept(n, m)
    ensures VxRight(lans, m)
  {
    hide IsVxOf;
  }

  lemma EraseKept(n: Net, roots: set<Key>)
    ensures VxKept(n, Erase(n, roots))
  {
    hide Doomed;
  }

  lemma RemoveKeepsVxRight(lans: Lans, n: Net, ns: string, faults: set<Call>)
    requires VxRight(lans, n)
    ensures VxRight(lans, Remove(n, ns, faults))
  {
    EraseKept(n, KeysIn(n.links, Lan(ns)));
    hide Erase, VxRight;
    KeptRight(lans, n, Remove(n, ns, faults));
  }

  lemma TeardownKeepsVxRight(lans: Lans, n: Net, pod: nat)
    requires VxRight(lans, n)
    ensures VxRight(lans, DestroyNs(n, Pod(pod)))
  {
    EraseKept(n, KeysIn(n.links, Pod(pod)));
    hide Erase, VxRight;
    KeptRight(lans, n, DestroyNs(n, Pod(pod)));
  }

  lemma MoveKept(n: Net, k: Key, to: Key)
    requires Move(n, k, to).Some? && !n.links[k].kind.Vxlan?
    ensures VxKept(n, Move(n, k, to).value) && !Move(n, k, to).value.links[to].kind.Vxlan?
  {
  }

  lemma CniAddKeepsVxRight(lans: Lans, n: Net, name: string, pod: nat, ifname: string)
    requires Inv(lans, n) && VxRight(lans, n)
    ensures VxRight(lans, CniAdd(n, name, pod, ifname).net)
  {
    var k, moved, fin := HostKey(name), Key(Pod(pod), name), Key(Pod(pod), ifname);
    if k in n.links && Move(n, k, moved).Some? {
      assert LinkOk(lans, n.links, k);
      hide Inv, Move, VxRight, VxKept;
      MoveKept(n, k, moved);
      var m := Move(n, k, moved).value;
      KeptRight(lans, n, m);
      if Move(m, moved, fin).Some? {
        MovedIn(n, k, moved);
        MoveKept(m, moved, fin);
        KeptRight(lans, m, Move(m, moved, fin).value);
      }
    }
  }

  lemma MovedIn(n: Net, k: Key, to: Key)
    requires Move(n, k, to).Some?
    ensures to in Move(n, k, to).value.links
  {
  }

  lemma PristineVxRight(lans: Lans, n: Net)
    requires Pristine(lans, n)
    ensures VxRight(lans, n)
  {
    hide IsVxOf, Reserved;
  }
}
