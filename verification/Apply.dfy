/**
 The procedures of pkg/interfaces as they are written: one host's network state, changed call by
 call.  Each is proved to do what its function in `ApplySpec` says.
 */
module Apply {
  import opened Wrappers
  import opened Kernel
  import Spec = ApplySpec

  type Call = Spec.Call
  type LanSpec = Spec.LanSpec

  class HostStack {
    var links: map<Key, Link>
    var next: nat
    var mounts: map<string, Mount>

    function State(): Net
      reads this
    {
      Net(links, next, mounts)
    }

    constructor (links: map<Key, Link>, next: nat, mounts: map<string, Mount>)
      ensures State() == Net(links, next, mounts)
    {
      this.links := links;
      this.next := next;
      this.mounts := mounts;
    }

    method Become(n: Net)
      modifies this
      ensures State() == n
    {
      links := n.links;
      next := n.next;
      mounts := n.mounts;
    }

    /** One call into the kernel: it fails on its own terms, or for a reason of its own. */
    method Try(r: Option<Net>, c: Call, faults: set<Call>) returns (ok: bool)
      modifies this
      ensures ok == Spec.Try(old(State()), r, c, faults).Ok?
      ensures State() == Spec.Try(old(State()), r, c, faults).net
    {
      ok := c !in faults && r.Some?;
      if ok {
        Become(r.value);
      }
    }

    // ----- ns.go -----

    method NewNs(lan: string, faults: set<Call>) returns (ok: bool)
      requires !Spec.IsMounted(State(), lan)
      modifies this
      ensures ok == Spec.NewNs(old(State()), lan, faults).Ok?
      ensures State() == Spec.NewNs(old(State()), lan, faults).net
    {
      if Spec.NsPrep in faults || Spec.NsCreate in faults {
        return false;
      }
      var before := mounts;
      mounts := mounts[lan := File];
      if Spec.NsMount in faults {
        // the deferred removal finds a file that is not in use
        mounts := mounts - {lan};
        return false;
      }
      links := links[LoKey(lan) := Link(next, Loopback, false, None, 0)];
      next := next + 1;
      mounts := mounts[lan := Mounted];
      assert mounts == before[lan := Mounted];
      return Spec.NsReopen !in faults;
    }

    method DeleteNamed(lan: string, faults: set<Call>) returns (ok: bool)
      modifies this
      ensures ok == Spec.DeleteNamed(old(State()), lan, faults).Ok?
      ensures State() == Spec.DeleteNamed(old(State()), lan, faults).net
    {
      if !(lan in mounts && mounts[lan].Mounted?) || Spec.NsUnmount in faults {
        return false;
      }
      Become(DestroyNs(State(), Lan(lan)).(mounts := mounts[lan := File]));
      if Spec.NsUnlink in faults {
        return false;
      }
      mounts := mounts - {lan};
      assert mounts == old(mounts) - {lan};
      return true;
    }

    method Remove(lan: string, faults: set<Call>)
      modifies this
      ensures State() == Spec.Remove(old(State()), lan, faults)
    {
      var _ := DeleteNamed(lan, faults);
    }

    // ----- apply.go -----

    method LinkDelete(k: Key, c: Call, faults: set<Call>) returns (ok: bool)
      modifies this
      ensures ok == Spec.LinkDelete(old(State()), k, c, faults).Ok?
      ensures State() == Spec.LinkDelete(old(State()), k, c, faults).net
    {
      if c in faults {
        return false;
      }
      if k !in links {
        return true;
      }
      if links[k].kind.Loopback? {
        return false;
      }
      Become(Erase(State(), {k}));
      return true;
    }

    method CreateMacvtap(mac: string, lower: string, mode: string, faults: set<Call>) returns (ok: bool, ifindex: int)
      modifies this
      ensures ok == Spec.CreateMacvtap(old(State()), mac, lower, mode, faults).Ok?
      ensures State() == Spec.CreateMacvtap(old(State()), mac, lower, mode, faults).net
      ensures ok ==> Spec.HostKey(mac) in links && ifindex == links[Spec.HostKey(mac)].index
      ensures ok ==> links[Spec.HostKey(mac)].kind.Macvtap? && links[Spec.HostKey(mac)].up
                     && Spec.Asks(mode, links[Spec.HostKey(mac)].kind.mode)
      ensures (forall m :: !Spec.Asks(mode, m)) ==> !ok
    {
      ifindex := 0;
      var k, m := Spec.HostKey(mac), Spec.HostKey(lower);
      if Spec.FindLower in faults || m !in links {
        return false, ifindex;
      }
      var nlmode := Spec.ModeFromString(mode);
      if nlmode.None? {
        return false, ifindex;
      }
      ok := Try(AddMacvtap(State(), k, m, nlmode.value), Spec.AddMac, faults);
      if !ok {
        return false, ifindex;
      }
      ok := Try(SetUp(State(), k), Spec.UpMac, faults);
      if !ok {
        return false, ifindex;
      }
      ifindex := links[k].index;
    }

    method RecreateMacvtap(mac: string, lower: string, mode: string, faults: set<Call>) returns (ok: bool, ifindex: int)
      modifies this
      ensures ok == Spec.RecreateMacvtap(old(State()), mac, lower, mode, faults).Ok?
      ensures State() == Spec.RecreateMacvtap(old(State()), mac, lower, mode, faults).net
      ensures ok ==> Spec.HostKey(mac) in links && ifindex == links[Spec.HostKey(mac)].index
    {
      var deleted := LinkDelete(Spec.HostKey(mac), Spec.DelMac, faults);
      if !deleted {
        return false, 0;
      }
      ok, ifindex := CreateMacvtap(mac, lower, mode, faults);
    }

    /** The namespace: stat, open, and if that fails delete and make anew. */
    method EnsureNs(lan: string, faults: set<Call>) returns (ok: bool)
      modifies this
      ensures ok == Spec.EnsureNs(old(State()), lan, faults).Ok?
      ensures State() == Spec.EnsureNs(old(State()), lan, faults).net
    {
      hide DestroyNs;
      if lan !in mounts {
        ok := NewNs(lan, faults);
      } else if mounts[lan].Mounted? && Spec.NsOpen !in faults {
        ok := true;
      } else {
        var _ := DeleteNamed(lan, faults - {Spec.NsUnmount});
        ok := NewNs(lan, faults);
      }
    }

    /** Namespace, loopback, underlay, bridge: the part of Ensure before the vxlan check. */
    method PrepareLan(lan: LanSpec, hostname: string, faults: set<Call>) returns (ok: bool, vxDev: nat)
      modifies this
      ensures ok == Spec.Prologue(old(State()), lan, hostname, faults).Ok?
      ensures State() == Spec.Prologue(old(State()), lan, hostname, faults).net
      ensures ok && hostname in lan.devMap ==>
                Spec.HostKey(lan.devMap[hostname]) in links && vxDev == links[Spec.HostKey(lan.devMap[hostname])].index
      ensures ok && hostname !in lan.devMap ==>
                Spec.HostKey(lan.defaultDev) in links && vxDev == links[Spec.HostKey(lan.defaultDev)].index
    {
      hide Spec.EnsureNs;
      vxDev := 0;
      ok := EnsureNs(lan.ns, faults);
      if !ok { return; }
      ok := Try(SetUp(State(), LoKey(lan.ns)), Spec.LoUp, faults);
      if !ok { return; }
      var dev := Spec.HostKey(Spec.DevName(lan, hostname));
      if Spec.FindDev in faults || dev !in links { return false, 0; }
      vxDev := links[dev].index;
      var br := Spec.BridgeKey(lan);
      var needToAdd := Spec.FindBr in faults || br !in links;
      if !needToAdd {
        if !links[br].kind.Bridge? { return false, vxDev; }
      } else {
        ok := Try(Add(State(), br, Bridge), Spec.AddBr, faults);
        if !ok { return; }
        ok := Try(SetUp(State(), br), Spec.UpBr, faults);
        if !ok { return; }
      }
      var vx := Spec.VxKey(lan);
      if Spec.FindVx !in faults && vx in links && !links[vx].kind.Vxlan? {
        return false, vxDev;
      }
      ok := true;
    }

    /** The pair: both ends made in the LAN namespace, one put on the bridge, the other moved to the host. */
    method BuildVeth(lan: LanSpec, spoke: string, faults: set<Call>) returns (ok: bool)
      modifies this
      ensures ok == Spec.EnsureVeth(old(State()), lan, spoke, faults).Ok?
      ensures State() == Spec.EnsureVeth(old(State()), lan, spoke, faults).net
    {
      var p, s := Spec.PeerKey(lan, spoke), Spec.NewSpokeKey(lan, spoke);
      var _ := LinkDelete(p, Spec.DelPeer, faults);
      ok := Try(AddVeth(State(), s, p), Spec.AddPair, faults);
      if !ok { return; }
      ok := Try(SetUp(State(), s), Spec.UpSpoke, faults);
      if !ok { return; }
      ok := Try(SetMaster(State(), p, Spec.BridgeKey(lan)), Spec.MasterPeer, faults);
      if !ok { return; }
      ok := Try(SetMask(State(), p, Spec.BR_SLAVE_GRP_FWD_MASK), Spec.MaskPeer, faults);
      if !ok { return; }
      ok := Try(SetUp(State(), p), Spec.UpPeer, faults);
      if !ok { return; }
      ok := Try(Move(State(), s, Spec.HostKey(spoke)), Spec.MoveSpoke, faults);
    }

    method CreateVx(lan: LanSpec, vxDev: nat, faults: set<Call>) returns (ok: bool)
      modifies this
      ensures ok == Spec.CreateVx(old(State()), lan, vxDev, faults).Ok?
      ensures State() == Spec.CreateVx(old(State()), lan, vxDev, faults).net
    {
      if !Spec.IsMulticast(lan.group) || Spec.AddVx in faults {
        return false;
      }
      var r := Add(State(), Spec.VxKey(lan), Vxlan(Spec.WantedConf(lan, vxDev)));
      if r.Some? {
        Become(r.value);
      }
      return true;
    }

    method AttachVx(lan: LanSpec, faults: set<Call>) returns (ok: bool)
      modifies this
      ensures ok == Spec.AttachVx(old(State()), lan, faults).Ok?
      ensures State() == Spec.AttachVx(old(State()), lan, faults).net
    {
      var vx, br := Spec.VxKey(lan), Spec.BridgeKey(lan);
      if Spec.FindVxAgain in faults || vx !in links { return false; }
      if Spec.FindBrAgain in faults || br !in links { return false; }
      ok := Try(SetMaster(State(), vx, br), Spec.MasterVx, faults);
      if !ok { return; }
      ok := Try(SetMask(State(), vx, Spec.BR_SLAVE_GRP_FWD_MASK), Spec.MaskVx, faults);
      if !ok { return; }
      ok := Try(SetUp(State(), vx), Spec.UpVx, faults);
    }

    method EnsureMacvtap(mac: string, spoke: string, mode: string, dummy: bool, faults: set<Call>)
      returns (ok: bool, ifindex: int)
      modifies this
      ensures ok == Spec.EnsureMacvtap(old(State()), mac, spoke, mode, dummy, faults).Ok?
      ensures State() == Spec.EnsureMacvtap(old(State()), mac, spoke, mode, dummy, faults).net
      ensures ok ==> Spec.HostKey(mac) in links && ifindex == links[Spec.HostKey(mac)].index
    {
      hide Spec.RecreateMacvtap;
      ifindex := -1;
      if !dummy {
        ok, ifindex := RecreateMacvtap(mac, spoke, mode, faults);
      } else {
        var d := Spec.HostKey(Spec.DUMMY_IF_NAME);
        if Spec.FindDummy in faults || d !in links {
          ok := Try(Add(State(), d, Dummy), Spec.AddDummy, faults);
          if !ok { return; }
        }
        ok, ifindex := RecreateMacvtap(mac, Spec.DUMMY_IF_NAME, "private", faults);
      }
    }

    /** The part of Ensure after the vxlan check. */
    method Attach(mac: string, spoke: string, lan: LanSpec, vxDev: nat, mode: string, dummy: bool, needToAdd: bool,
                  faults: set<Call>)
      returns (ok: bool, ifindex: int)
      modifies this
      ensures ok == Spec.Epilogue(old(State()), mac, spoke, lan, vxDev, mode, dummy, needToAdd, faults).Ok?
      ensures State() == Spec.Epilogue(old(State()), mac, spoke, lan, vxDev, mode, dummy, needToAdd, faults).net
      ensures ok ==> Spec.HostKey(mac) in links && ifindex == links[Spec.HostKey(mac)].index
    {
      hide Spec.EnsureVeth, Spec.CreateVx, Spec.AttachVx, Spec.EnsureMacvtap, Spec.LinkDelete;
      ifindex := -1;
      if needToAdd {
        var _ := LinkDelete(Spec.VxKey(lan), Spec.DelVx, faults);
      }
      ok := BuildVeth(lan, spoke, faults);
      if !ok { return; }
      if needToAdd {
        ok := CreateVx(lan, vxDev, faults);
        if !ok { return; }
        // the error goes to a variable that no later check reads
        var _ := AttachVx(lan, faults);
      }
      ok := Try(SetUp(State(), Spec.HostKey(spoke)), Spec.UpSpokeHost, faults);
      if !ok { return; }
      ok, ifindex := EnsureMacvtap(mac, spoke, mode, dummy, faults);
    }

    /** Creates all objects to match the LAN's spec; the index is the macvtap's. */
    method Ensure(mac: string, spoke: string, lan: LanSpec, hostname: string, mode: string, dummy: bool,
                  faults: set<Call>)
      returns (ok: bool, ifindex: int)
      modifies this
      ensures ok == Spec.Ensure(old(State()), mac, spoke, lan, hostname, mode, dummy, faults).Ok?
      ensures State() == Spec.Ensure(old(State()), mac, spoke, lan, hostname, mode, dummy, faults).net
      ensures ok ==> Spec.HostKey(mac) in links && ifindex == links[Spec.HostKey(mac)].index
    {
      hide Spec.Prologue, Spec.Epilogue;
      ifindex := -1;
      var vxDev: nat;
      ok, vxDev := PrepareLan(lan, hostname, faults);
      if !ok { return; }
      var vx := Spec.VxKey(lan);
      var needToAdd := false;
      if Spec.FindVx in faults || vx !in links {
        needToAdd := true;
      } else {
        var conf := links[vx].kind.conf;
        if !(lan.group.zone == "" && lan.group.bytes == conf.group) { needToAdd := true; }
        if conf.vni != lan.vni { needToAdd := true; }
        if conf.dev != vxDev { needToAdd := true; }
        if conf.port != lan.port { needToAdd := true; }
      }
      ok, ifindex := Attach(mac, spoke, lan, vxDev, mode, dummy, needToAdd, faults);
    }

    // ----- the CNI plugin's ADD -----

    method CniAdd(spoke: string, pod: nat, ifname: string) returns (ok: bool)
      modifies this
      ensures ok == Spec.CniAdd(old(State()), spoke, pod, ifname).Ok?
      ensures State() == Spec.CniAdd(old(State()), spoke, pod, ifname).net
    {
      hide Move;
      var k, moved := Spec.HostKey(spoke), Key(Pod(pod), spoke);
      if k !in links { return false; }
      ok := Try(Move(State(), k, moved), Spec.MoveSpoke, {});
      if !ok || ifname == spoke { return; }
      ok := Try(Move(State(), moved, Key(Pod(pod), ifname)), Spec.MoveSpoke, {});
    }
  }
}
