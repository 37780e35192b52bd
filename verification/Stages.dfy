/** How far an Ensure gets with its own spoke, whatever fails, and what it leaves of it. */
module Stages {
  import opened Kernel
  import opened ApplySpec
  import opened Topology
  import opened TopologySteps
  import opened EnsureInv
  import opened Isolation
  import opened EnsureFrame
  import opened EnsureOutcome
  import opened Refinement

  /** Where an Ensure returned: before the pair, in it, before the end is brought up in the host, or after. */
  datatype Stage = NotTried | PairFailed | LeftDown | BroughtUp

  /** Whether the device is made after `BroughtUp` does not matter to the spoke. */
  function StageOf(n: Net, spoke: string, lan: LanSpec, hostname: string, faults: set<Call>): Stage {
    var r := Prologue(n, lan, hostname, faults);
    if r.Fail? then NotTried
    else
      var dev := r.net.links[HostKey(DevName(lan, hostname))].index;
      var need := NeedVx(r.net, lan, dev, faults);
      var pair := EnsureVeth(DropVx(r.net, lan, need, faults), lan, spoke, faults);
      if pair.Fail? then PairFailed
      else if (need && EnsureVx(pair.net, lan, dev, faults).Fail?) || UpSpokeHost in faults then LeftDown
      else BroughtUp
  }

  /** The spoke is as it was, its end included. */
  predicate OwnSame(a: Net, b: Net, lan: LanSpec, spoke: string) {
    && (Outside(a, lan, spoke) <==> Outside(b, lan, spoke))
    && (Outside(a, lan, spoke) ==>
          Same(a, b, PeerKey(lan, spoke)) && Same(a, b, a.links[PeerKey(lan, spoke)].kind.peer))
  }

  /** The spoke is attached with its end in the host, up or down. */
  predicate OwnInHost(m: Net, lan: LanSpec, spoke: string, up: bool) {
    && Attached(m, lan, spoke) && SpokeEnd(m, lan, spoke) == HostKey(spoke)
    && HostKey(spoke) in m.links && m.links[HostKey(spoke)].up == up
  }

  lemma OwnStays(a: Net, b: Net, lan: LanSpec, spoke: string, up: bool)
    requires OwnInHost(a, lan, spoke, up) && Same(a, b, PeerKey(lan, spoke)) && Same(a, b, HostKey(spoke))
    ensures OwnInHost(b, lan, spoke, up)
  {
  }

  /** A pair that could not be finished is the old one, if that could not be deleted, or has not left the namespace. */
  lemma VethFailed(n: Net, lan: LanSpec, spoke: string, faults: set<Call>)
    requires EnsureVeth(n, lan, spoke, faults).Fail?
    ensures var r, p := EnsureVeth(n, lan, spoke, faults).net, PeerKey(lan, spoke);
            if p in n.links && (DelPeer in faults || n.links[p].kind.Loopback?) then r == n
            else !Outside(r, lan, spoke)
  {
    hide Erase;
    ErasedKey(n, PeerKey(lan, spoke));
    hide Move;
  }

  lemma ErasedKey(n: Net, k: Key)
    ensures k !in Erase(n, {k}).links
  {
  }

  lemma PairFails(lans: Lans, n: Net, n1: Net, spoke: string, lan: LanSpec, need: bool, faults: set<Call>)
    requires Ctx(lans, lan, spoke) && Inv(lans, n) && Inv(lans, n1) && AgreeOff(n, n1, BasePrint(lan))
    requires EnsureVeth(DropVx(n1, lan, need, faults), lan, spoke, faults).Fail?
    ensures var r := EnsureVeth(DropVx(n1, lan, need, faults), lan, spoke, faults).net;
            if DelPeer in faults then OwnSame(n, r, lan, spoke) else !Outside(r, lan, spoke)
  {
    hide NoClash, Inv, EnsureVeth, DropVx;
    DropVxFrame(lans, n1, lan, need, faults);
    var n0 := DropVx(n1, lan, need, faults);
    AgreeChain(n, n1, n0, BasePrint(lan), {VxKey(lan)});
    OwnOffBase(lans, n, n0, lan, spoke);
    VethFailed(n0, lan, spoke, faults);
    if PeerKey(lan, spoke) in n0.links { PeerKind(lans, n0, lan, spoke); }
  }

  lemma PeerKind(lans: Lans, n: Net, lan: LanSpec, spoke: string)
    requires Ctx(lans, lan, spoke) && Inv(lans, n) && PeerKey(lan, spoke) in n.links
    ensures n.links[PeerKey(lan, spoke)].kind.Veth?
  {
    OtherEnd(lans, n, lan.ns, spoke);
  }

  /** The spoke is apart from loopback, bridge and vxlan. */
  lemma OwnOffBase(lans: Lans, a: Net, b: Net, lan: LanSpec, spoke: string)
    requires Ctx(lans, lan, spoke) && AgreeOff(a, b, BasePrint(lan) + {VxKey(lan)})
    ensures OwnSame(a, b, lan, spoke) && Same(a, b, PeerKey(lan, spoke))
  {
    PeerNameStem(lans, lan, spoke);
    hide NoClash, IsPeerName, Stem;
    assert Same(a, b, PeerKey(lan, spoke));
  }

  lemma PairMade(lans: Lans, n: Net, spoke: string, lan: LanSpec, need: bool, faults: set<Call>)
    requires Ctx(lans, lan, spoke) && Inv(lans, n)
    requires EnsureVeth(DropVx(n, lan, need, faults), lan, spoke, faults).Ok?
    ensures OwnInHost(EnsureVeth(DropVx(n, lan, need, faults), lan, spoke, faults).net, lan, spoke, false)
  {
    hide NoClash, Inv, EnsureVeth, DropVx, OldPair;
    DropVxFrame(lans, n, lan, need, faults);
    VethFrame(lans, DropVx(n, lan, need, faults), lan, spoke, faults);
  }

  /** After the pair: the vxlan, the end brought up, the device. */
  lemma TailEffect(lans: Lans, n: Net, n1: Net, spoke: string, lan: LanSpec, dev: nat, mode: string, dummy: bool,
                   need: bool, faults: set<Call>)
    requires Ctx(lans, lan, spoke) && Inv(lans, n) && IsMounted(n, lan.ns) && BridgeKey(lan) in n.links
    requires EnsureVeth(DropVx(n, lan, need, faults), lan, spoke, faults) == Ok(n1)
    ensures var r := Epilogue(n, DeviceName(spoke, dummy), spoke, lan, dev, mode, dummy, need, faults);
            var down := (need && EnsureVx(n1, lan, dev, faults).Fail?) || UpSpokeHost in faults;
            OwnInHost(r.net, lan, spoke, !down) && (down ==> r.Fail?)
  {
    hide NoClash, Inv, EnsureVeth, EnsureVx, EnsureMacvtap, DropVx, OldPair, OwnInHost;
    var p, h := PeerKey(lan, spoke), HostKey(spoke);
    PairMade(lans, n, spoke, lan, need, faults);
    VethStep(lans, n, lan, spoke, need, faults);
    BridgeUntouched(lans, n, lan, spoke);
    assert Same(n, n1, BridgeKey(lan));
    VxStep(lans, n1, lan, dev, need, faults);
    var r2 := if need then EnsureVx(n1, lan, dev, faults) else Ok(n1);
    PeerNameStem(lans, lan, spoke);
    assert Same(n1, r2.net, p) && Same(n1, r2.net, h);
    OwnStays(n1, r2.net, lan, spoke, false);
    EndInHost(r2.net, lan, spoke);
    BroughtUpEffect(lans, r2.net, spoke, lan, mode, dummy, faults);
  }

  lemma EndInHost(m: Net, lan: LanSpec, spoke: string)
    requires OwnInHost(m, lan, spoke, false)
    ensures HostKey(spoke) in m.links && SetUp(m, HostKey(spoke)).Some?
  {
  }

  lemma BroughtUpEffect(lans: Lans, n: Net, spoke: string, lan: LanSpec, mode: string, dummy: bool, faults: set<Call>)
    requires Ctx(lans, lan, spoke) && Inv(lans, n) && OwnInHost(n, lan, spoke, false) && HostKey(spoke) in n.links
    ensures var n3 := SetUp(n, HostKey(spoke)).value;
            OwnInHost(EnsureMacvtap(n3, DeviceName(spoke, dummy), spoke, mode, dummy, faults).net, lan, spoke, true)
  {
    hide NoClash, Inv, EnsureMacvtap, IsDeviceName;
    PeerNameStem(lans, lan, spoke);
    SpokeName(lans, spoke);
    DeviceNameFacts(lans, spoke, dummy);
    SetUpKeepsInv(lans, n, HostKey(spoke));
    var n3 := SetUp(n, HostKey(spoke)).value;
    assert OwnInHost(n3, lan, spoke, true);
    MacvtapFrame(lans, n3, spoke, mode, dummy, faults);
    var r := EnsureMacvtap(n3, DeviceName(spoke, dummy), spoke, mode, dummy, faults).net;
    assert Same(n3, r, PeerKey(lan, spoke)) && Same(n3, r, HostKey(spoke));
    OwnStays(n3, r, lan, spoke, true);
  }

  /**
   What an Ensure leaves of its own spoke, exactly: before the pair it is as it was; a pair that fails
   leaves none, unless the old one could not be deleted; then that stays.  A pair that is made is
   attached, whatever fails later, and its end is down until it has been brought up in the host.
   */
  lemma StageEffect(lans: Lans, n: Net, spoke: string, lan: LanSpec, hostname: string, mode: string, dummy: bool,
                    faults: set<Call>)
    requires Ctx(lans, lan, spoke) && Inv(lans, n) && (NsOpen in faults ==> !IsMounted(n, lan.ns))
    ensures var r := Ensure(n, DeviceName(spoke, dummy), spoke, lan, hostname, mode, dummy, faults);
            var stage := StageOf(n, spoke, lan, hostname, faults);
            && (r.Ok? ==> stage.BroughtUp?)
            && match stage
               case NotTried => OwnSame(n, r.net, lan, spoke)
               case PairFailed => if DelPeer in faults then OwnSame(n, r.net, lan, spoke)
                                  else !Outside(r.net, lan, spoke)
               case LeftDown => OwnInHost(r.net, lan, spoke, false)
               case BroughtUp => OwnInHost(r.net, lan, spoke, true)
  {
    hide NoClash, Inv, Prologue, EnsureVeth, EnsureVx, EnsureMacvtap, DropVx, OwnInHost, OwnSame, Outside, NeedVx;
    PrologueFrame(lans, n, lan, hostname, faults);
    PrologueKeepsInv(lans, n, lan, hostname, faults);
    var r := Prologue(n, lan, hostname, faults);
    if r.Fail? {
      OwnOffBase(lans, n, r.net, lan, spoke);
    } else {
      var dev := r.net.links[HostKey(DevName(lan, hostname))].index;
      var need := NeedVx(r.net, lan, dev, faults);
      var pair := EnsureVeth(DropVx(r.net, lan, need, faults), lan, spoke, faults);
      if pair.Fail? {
        PairFails(lans, n, r.net, spoke, lan, need, faults);
      } else {
        TailEffect(lans, r.net, pair.net, spoke, lan, dev, mode, dummy, need, faults);
        hide Epilogue;
      }
    }
  }
}
