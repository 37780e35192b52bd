/**
 Runs in which certain calls do not fail: those whose failure leaves a bridge or vxlan behind that
 later Ensures take for finished.  In such runs every attached spoke can be heard by its LAN.
 */
module CleanRuns {
  import opened Wrappers
  import opened Kernel
  import opened ApplySpec
  import opened Topology
  import opened TopologySteps
  import opened EnsureInv
  import opened Isolation
  import opened EnsureFrame
  import opened EnsureOutcome
  import opened Refinement
  import opened Stages
  import opened Ends
  import opened Success
  import opened Guarantees
  import opened Runs
  import opened Untouched

  /** A failure of one of these is not repaired by a later Ensure, or leaves attached spokes without a vxlan. */
  const LASTING_CALLS: set<Call> := HIDDEN_CALLS + {UpBr, FindVx, AddVx}

  predicate Clean(e: Event) {
    e.EnsureEvent? ==> e.faults !! LASTING_CALLS
  }

  /** Every LAN's group is multicast, as Validate demands, and reads back as it is written. */
  predicate PlainGroups(lans: Lans) {
    forall m :: m in lans ==> IsMulticast(lans[m].group) && PlainGroup(lans[m].group)
  }

  function DevOf(lan: LanSpec, hostname: string): Key { HostKey(DevName(lan, hostname)) }

  /** If the bridge is there it is up; if the vxlan is there it is right and on the bridge. */
  predicate PlantOk(n: Net, lan: LanSpec, hostname: string) {
    var b, v, d := BridgeKey(lan), VxKey(lan), DevOf(lan, hostname);
    && (b in n.links ==> n.links[b].up)
    && (v in n.links ==> Uplink(n, lan) && b in n.links && IsVxOf(lan, n.links[v].kind)
                         && (d in n.links ==> n.links[v].kind.conf.dev == n.links[d].index))
  }

  /** ... and where a spoke is attached the vxlan is there. */
  ghost predicate LanWhole(n: Net, lan: LanSpec, hostname: string) {
    && PlantOk(n, lan, hostname)
    && (forall s :: Attached(n, lan, s) ==> VxKey(lan) in n.links)
  }

  ghost predicate Whole(lans: Lans, n: Net, hostname: string) {
    forall m :: m in lans ==> LanWhole(n, lans[m], hostname)
  }

  // ----- Ensure, on success and on failure -----

  lemma WholeNeed(lans: Lans, n: Net, lan: LanSpec, hostname: string, faults: set<Call>)
    requires NoClash(lans) && lan.ns in lans && lans[lan.ns] == lan && Inv(lans, n)
    requires PlainGroups(lans) && PlantOk(n, lan, hostname) && FindVx !in faults && DevOf(lan, hostname) in n.links
    ensures WrongVx(n, lan, hostname, faults) <==> VxKey(lan) !in n.links
  {
    BridgeKind(lans, n, lan);
    hide Inv, NoClash;
  }

  lemma PrologueWhole(lans: Lans, n: Net, lan: LanSpec, hostname: string, faults: set<Call>)
    requires NoClash(lans) && lan.ns in lans && lans[lan.ns] == lan && Inv(lans, n) && PlainGroups(lans)
    requires LanWhole(n, lan, hostname) && faults !! LASTING_CALLS && (NsOpen in faults ==> !IsMounted(n, lan.ns))
    ensures LanWhole(Prologue(n, lan, hostname, faults).net, lan, hostname)
  {
    hide Inv, NoClash, EnsureNs;
    EnsureNsFrame(lans, n, lan.ns, faults);
    BaseNamesApart(lans, lan);
    var n1 := EnsureNs(n, lan.ns, faults).net;
    var b, v, d := BridgeKey(lan), VxKey(lan), DevOf(lan, hostname);
    assert Same(n, n1, b) && Same(n, n1, v) && Same(n, n1, d);
    forall s ensures Attached(n1, lan, s) ==> VxKey(lan) in n1.links {
      if Attached(n1, lan, s) { LoNotPeer(lans, lan, s); assert Same(n, n1, PeerKey(lan, s)) && Attached(n, lan, s); }
    }
    hide EnsureNs;
    assert LanWhole(n1, lan, hostname);
    AfterNsWhole(lans, n, n1, lan, hostname, faults);
  }

  lemma AfterNsWhole(lans: Lans, n: Net, n1: Net, lan: LanSpec, hostname: string, faults: set<Call>)
    requires NoClash(lans) && lan.ns in lans && lans[lan.ns] == lan && faults !! LASTING_CALLS
    requires n1 == EnsureNs(n, lan.ns, faults).net && LanWhole(n1, lan, hostname)
    ensures LanWhole(Prologue(n, lan, hostname, faults).net, lan, hostname)
  {
    hide NoClash, EnsureNs, EnsureBridge, LanWhole, SetUp;
    var lo := SetUp(n1, LoKey(lan.ns));
    if lo.Some? {
      LoUpWhole(lans, n1, lan, hostname);
      BridgeWhole(lans, lo.value, lan, hostname, faults);
    }
  }

  lemma LoUpWhole(lans: Lans, n: Net, lan: LanSpec, hostname: string)
    requires NoClash(lans) && lan.ns in lans && lans[lan.ns] == lan
    requires LanWhole(n, lan, hostname) && SetUp(n, LoKey(lan.ns)).Some?
    ensures LanWhole(SetUp(n, LoKey(lan.ns)).value, lan, hostname)
  {
    BaseNamesApart(lans, lan);
    hide NoClash;
    var r := SetUp(n, LoKey(lan.ns)).value;
    forall s ensures Attached(r, lan, s) ==> Attached(n, lan, s) {
      if Attached(r, lan, s) { LoNotPeer(lans, lan, s); }
    }
  }

  lemma BridgeWhole(lans: Lans, n: Net, lan: LanSpec, hostname: string, faults: set<Call>)
    requires NoClash(lans) && lan.ns in lans && lans[lan.ns] == lan && faults !! LASTING_CALLS
    requires LanWhole(n, lan, hostname)
    ensures LanWhole(EnsureBridge(n, lan, faults).net, lan, hostname)
  {
    BaseNamesApart(lans, lan);
    hide NoClash;
    var r := EnsureBridge(n, lan, faults).net;
    forall s ensures Attached(r, lan, s) ==> Attached(n, lan, s) {
      if Attached(r, lan, s) { LoNotPeer(lans, lan, s); }
    }
  }

  lemma LoNotPeer(lans: Lans, lan: LanSpec, s: string)
    requires NoClash(lans) && lan.ns in lans && lans[lan.ns] == lan && s in lan.spokes
    ensures PeerKey(lan, s) != LoKey(lan.ns) && PeerKey(lan, s) != BridgeKey(lan) && PeerKey(lan, s) != VxKey(lan)
  {
    PeerNameStem(lans, lan, s);
  }

  /** Links in the LAN namespace that the rest of an Ensure leaves alone keep the LAN whole. */
  lemma WholeStays(n: Net, m: Net, lan: LanSpec, hostname: string)
    requires LanWhole(n, lan, hostname) && VxKey(lan) in n.links
    requires Same(n, m, BridgeKey(lan)) && Same(n, m, VxKey(lan)) && Same(n, m, DevOf(lan, hostname))
    ensures LanWhole(m, lan, hostname)
  {
  }

  lemma EpilogueWhole(lans: Lans, n: Net, spoke: string, lan: LanSpec, hostname: string, mode: string, dummy: bool,
                      need: bool, faults: set<Call>)
    requires Ctx(lans, lan, spoke) && Inv(lans, n) && IsMounted(n, lan.ns) && PlainGroups(lans)
    requires BridgeKey(lan) in n.links && LanWhole(n, lan, hostname) && DevOf(lan, hostname) in n.links
    requires faults !! LASTING_CALLS && need == (VxKey(lan) !in n.links)
    ensures var dev := n.links[DevOf(lan, hostname)].index;
            LanWhole(Epilogue(n, DeviceName(spoke, dummy), spoke, lan, dev, mode, dummy, need, faults).net,
                     lan, hostname)
  {
    hide Inv, NoClash, OldPair, EnsureVeth, EnsureVx, EnsureMacvtap, IsMulticast, AfterVeth, LanWhole, PlantOk;
    var dv := DevOf(lan, hostname);
    var dev := n.links[dv].index;
    assert DropVx(n, lan, need, faults) == n;
    VethStep(lans, n, lan, spoke, need, faults);
    VethFrame(lans, n, lan, spoke, faults);
    var r1 := EnsureVeth(n, lan, spoke, faults);
    BridgeUntouched(lans, n, lan, spoke);
    assert Same(n, r1.net, BridgeKey(lan)) && Same(n, r1.net, VxKey(lan));
    DevUntouched(lans, n, lan, spoke, hostname, dummy);
    assert Same(n, r1.net, dv);
    if r1.Fail? {
      VethFailedWhole(lans, n, spoke, lan, hostname, dummy, faults);
    } else {
      VxWhole(lans, n, r1.net, lan, spoke, hostname, faults);
      VxStep(lans, r1.net, lan, dev, need, faults);
      var r2 := if need then EnsureVx(r1.net, lan, dev, faults) else Ok(r1.net);
      AgreeChain(n, r1.net, r2.net, PairPrint(n, lan, spoke), {VxKey(lan)});
      assert PairPrint(n, lan, spoke) + {VxKey(lan)} == PairPrint(n, lan, spoke);
      AfterVethStays(lans, n, r1.net, r2.net, lan, spoke);
      EndThere(n, r2.net, lan, spoke);
      MacvtapStep(lans, n, r2.net, spoke, lan, mode, dummy, faults);
      var n3 := SetUp(r2.net, HostKey(spoke)).value;
      var r := EnsureMacvtap(n3, DeviceName(spoke, dummy), spoke, mode, dummy, faults);
      assert Same(r2.net, n3, dv) && Same(r2.net, r.net, dv);
      WholeStays(r2.net, n3, lan, hostname);
      WholeStays(r2.net, r.net, lan, hostname);
    }
  }

  lemma EndThere(n: Net, m: Net, lan: LanSpec, spoke: string)
    requires AfterVeth(n, m, lan, spoke)
    ensures HostKey(spoke) in m.links
  {
  }

  lemma DevUntouched(lans: Lans, n: Net, lan: LanSpec, spoke: string, hostname: string, dummy: bool)
    requires Ctx(lans, lan, spoke) && Inv(lans, n)
    ensures DevOf(lan, hostname) !in PairPrint(n, lan, spoke)
    ensures DevOf(lan, hostname) !in {HostKey(spoke), HostKey(DeviceName(spoke, dummy)), HostKey(DUMMY_IF_NAME)}
  {
    hide Inv, NoClash, OldPair;
    DevApart(lans, n, lan, spoke, hostname, dummy, lan);
  }

  lemma VethFailedWhole(lans: Lans, n: Net, spoke: string, lan: LanSpec, hostname: string, dummy: bool,
                        faults: set<Call>)
    requires Ctx(lans, lan, spoke) && Inv(lans, n) && LanWhole(n, lan, hostname)
    requires EnsureVeth(n, lan, spoke, faults).Fail?
    requires AgreeOff(n, EnsureVeth(n, lan, spoke, faults).net, PairPrint(n, lan, spoke))
    requires Same(n, EnsureVeth(n, lan, spoke, faults).net, BridgeKey(lan))
    requires Same(n, EnsureVeth(n, lan, spoke, faults).net, VxKey(lan))
    requires Same(n, EnsureVeth(n, lan, spoke, faults).net, DevOf(lan, hostname))
    ensures LanWhole(EnsureVeth(n, lan, spoke, faults).net, lan, hostname)
  {
    hide Inv, NoClash, OldPair, EnsureVeth;
    var r := EnsureVeth(n, lan, spoke, faults).net;
    if VxKey(lan) in n.links {
      WholeStays(n, r, lan, hostname);
    } else {
      assert AgreeOff(n, r, Footprint(n, lan, spoke, dummy));
      VethFailed(n, lan, spoke, faults);
      NsOfLan(lans, lan.ns);
      forall t ensures !Attached(r, lan, t) {
        if t in lan.spokes && t != spoke { AttachedStays(lans, n, r, lan, spoke, dummy, lan.ns, t); }
      }
    }
  }

  lemma VxWhole(lans: Lans, n: Net, n1: Net, lan: LanSpec, spoke: string, hostname: string, faults: set<Call>)
    requires Ctx(lans, lan, spoke) && Inv(lans, n1) && PlainGroups(lans) && LanWhole(n, lan, hostname)
    requires Same(n, n1, BridgeKey(lan)) && Same(n, n1, VxKey(lan)) && Same(n, n1, DevOf(lan, hostname))
    requires BridgeKey(lan) in n.links && DevOf(lan, hostname) in n.links && faults !! LASTING_CALLS
    ensures var need := VxKey(lan) !in n.links;
            var r := if need then EnsureVx(n1, lan, n.links[DevOf(lan, hostname)].index, faults) else Ok(n1);
            && r.Ok? && VxKey(lan) in r.net.links && LanWhole(r.net, lan, hostname)
            && AgreeOff(n1, r.net, {VxKey(lan)})
  {
    hide Inv, NoClash, EnsureVx;
    BridgeKind(lans, n1, lan);
    BaseNamesApart(lans, lan);
    var v, dev := VxKey(lan), n.links[DevOf(lan, hostname)].index;
    EnsureVxFrame(n1, lan, dev, faults);
    VxCreated(n1, lan, dev, faults);
    var need := v !in n.links;
    var r := if need then EnsureVx(n1, lan, dev, faults) else Ok(n1);
    assert Same(n1, r.net, BridgeKey(lan)) && Same(n1, r.net, DevOf(lan, hostname));
    if need {
      assert r.net.links[v].(index := 0, kind := Foreign)
             == Link(0, Foreign, true, Some(BridgeKey(lan)), BR_SLAVE_GRP_FWD_MASK);
    } else {
      WholeStays(n, n1, lan, hostname);
    }
  }

  lemma VxCreated(n: Net, lan: LanSpec, dev: nat, faults: set<Call>)
    requires IsMulticast(lan.group) && AddVx !in faults
    ensures EnsureVx(n, lan, dev, faults).Ok?
  {
  }

  /** Under clean failures Ensure keeps its own LAN whole, wherever it returns. */
  lemma EnsureKeepsOwn(lans: Lans, n: Net, spoke: string, lan: LanSpec, hostname: string, mode: string, dummy: bool,
                       faults: set<Call>)
    requires Ctx(lans, lan, spoke) && Inv(lans, n) && PlainGroups(lans) && LanWhole(n, lan, hostname)
    requires faults !! LASTING_CALLS && (NsOpen in faults ==> !IsMounted(n, lan.ns))
    ensures LanWhole(Ensure(n, DeviceName(spoke, dummy), spoke, lan, hostname, mode, dummy, faults).net, lan, hostname)
  {
    hide Inv, NoClash, Prologue, Epilogue, LanWhole;
    PrologueWhole(lans, n, lan, hostname, faults);
    PrologueFrame(lans, n, lan, hostname, faults);
    PrologueKeepsInv(lans, n, lan, hostname, faults);
    var r := Prologue(n, lan, hostname, faults);
    if r.Ok? {
      WholePlant(r.net, lan, hostname);
      WholeNeed(lans, r.net, lan, hostname, faults);
      NeedIsWrong(lans, r.net, r.net, lan, hostname, faults);
      EpilogueWhole(lans, r.net, spoke, lan, hostname, mode, dummy, VxKey(lan) !in r.net.links, faults);
    }
  }

  lemma WholePlant(n: Net, lan: LanSpec, hostname: string)
    requires LanWhole(n, lan, hostname)
    ensures PlantOk(n, lan, hostname)
  {
  }

  /** Another LAN, on the same host, is not affected. */
  lemma OtherLanWhole(lans: Lans, n: Net, r: Net, lan: LanSpec, spoke: string, dummy: bool, other: LanSpec,
                      hostname: string)
    requires Ctx(lans, lan, spoke) && Inv(lans, n) && AgreeOff(n, r, Footprint(n, lan, spoke, dummy))
    requires other.ns in lans && lans[other.ns] == other && other.ns != lan.ns && LanWhole(n, other, hostname)
    ensures LanWhole(r, other, hostname)
  {
    hide Inv, NoClash, OldPair, Footprint;
    DevApart(lans, n, lan, spoke, hostname, dummy, other);
    OtherNsApart(lans, n, lan, spoke, dummy, BridgeKey(other));
    OtherNsApart(lans, n, lan, spoke, dummy, VxKey(other));
    assert Same(n, r, BridgeKey(other)) && Same(n, r, VxKey(other)) && Same(n, r, DevOf(other, hostname));
    forall s ensures Attached(r, other, s) ==> Attached(n, other, s) {
      OtherNsApart(lans, n, lan, spoke, dummy, PeerKey(other, s));
      assert Same(n, r, PeerKey(other, s));
    }
  }

  lemma EnsureKeepsWhole(lans: Lans, n: Net, spoke: string, lan: LanSpec, hostname: string, mode: string, dummy: bool,
                         faults: set<Call>)
    requires Ctx(lans, lan, spoke) && Inv(lans, n) && PlainGroups(lans) && Whole(lans, n, hostname)
    requires faults !! LASTING_CALLS && (NsOpen in faults ==> !IsMounted(n, lan.ns))
    ensures Whole(lans, Ensure(n, DeviceName(spoke, dummy), spoke, lan, hostname, mode, dummy, faults).net, hostname)
  {
    hide Inv, Ensure, LanWhole, Footprint, OwnNamesApart, Reserved;
    EnsureEffect(lans, n, spoke, lan, hostname, mode, dummy, faults);
    EnsureKeepsOwn(lans, n, spoke, lan, hostname, mode, dummy, faults);
    var r := Ensure(n, DeviceName(spoke, dummy), spoke, lan, hostname, mode, dummy, faults).net;
    forall m | m in lans ensures LanWhole(r, lans[m], hostname) {
      NsOfLan(lans, m);
      if m != lan.ns { OtherLanWhole(lans, n, r, lan, spoke, dummy, lans[m], hostname); }
    }
  }

  // ----- the other steps -----

  /** Links go, but not from under what stays; the rest is unchanged. */
  ghost predicate OnlyGone(n: Net, r: Net) {
    forall k :: k in r.links ==> k in n.links && r.links[k] == n.links[k]
  }

  /** Deleting links keeps a LAN whole if its bridge and vxlan stay, or if all of it goes. */
  lemma GoneKeepsWhole(n: Net, r: Net, lan: LanSpec, hostname: string)
    requires LanWhole(n, lan, hostname) && OnlyGone(n, r)
    requires ((forall s :: !Attached(r, lan, s)) && VxKey(lan) !in r.links)
             || (Same(n, r, BridgeKey(lan)) && Same(n, r, VxKey(lan)))
    ensures LanWhole(r, lan, hostname)
  {
    forall s | Attached(r, lan, s) ensures Attached(n, lan, s) {
    }
  }

  lemma RemoveFails(n: Net, m: string, f: set<Call>)
    requires !IsMounted(n, m) || NsUnmount in f
    ensures Remove(n, m, f) == n
  {
  }

  lemma RemoveKeepsWhole(lans: Lans, n: Net, m: string, faults: set<Call>, hostname: string)
    requires NoClash(lans) && Inv(lans, n) && Whole(lans, n, hostname)
    ensures Whole(lans, Remove(n, m, faults), hostname)
  {
    hide LanWhole, Reserved, OwnNamesApart;
    var r := Remove(n, m, faults);
    if IsMounted(n, m) && NsUnmount !in faults {
      RemoveIsExact(lans, n, m, faults);
      HomeInLan(lans, n);
      hide Inv, Remove, Home;
      forall l | l in lans ensures LanWhole(r, lans[l], hostname) {
        NsOfLan(lans, l);
        RemovedLan(n, r, m, lans[l], hostname);
      }
    } else {
      RemoveFails(n, m, faults);
    }
  }

  lemma HomeInLan(lans: Lans, n: Net)
    requires Inv(lans, n)
    ensures forall k :: k in n.links && k.ns.Lan? ==> Home(n.links, k) == Some(k.ns.name)
  {
    forall k | k in n.links && k.ns.Lan? ensures Home(n.links, k) == Some(k.ns.name) {
      assert LinkOk(lans, n.links, k);
    }
  }

  lemma RemovedLan(n: Net, r: Net, m: string, lan: LanSpec, hostname: string)
    requires LanWhole(n, lan, hostname)
    requires forall k :: k in n.links && k.ns.Lan? ==> Home(n.links, k) == Some(k.ns.name)
    requires r.links == map k | k in n.links && Home(n.links, k) != Some(m) :: n.links[k]
    ensures LanWhole(r, lan, hostname)
  {
    hide LanWhole, Home;
    if lan.ns == m {
      assert forall s :: PeerKey(lan, s) !in r.links;
    }
    GoneKeepsWhole(n, r, lan, hostname);
  }

  lemma TeardownKeepsWhole(lans: Lans, n: Net, pod: nat, hostname: string)
    requires NoClash(lans) && Inv(lans, n) && Whole(lans, n, hostname)
    ensures Whole(lans, DestroyNs(n, Pod(pod)), hostname)
  {
    hide LanWhole, Reserved, OwnNamesApart, Inv;
    var r := DestroyNs(n, Pod(pod));
    forall l | l in lans ensures LanWhole(r, lans[l], hostname) {
      NsOfLan(lans, l);
      TeardownFrame(lans, n, pod, lans[l], hostname);
    }
    hide DestroyNs;
  }

  lemma TeardownFrame(lans: Lans, n: Net, pod: nat, lan: LanSpec, hostname: string)
    requires NoClash(lans) && lan.ns in lans && lans[lan.ns] == lan && Inv(lans, n) && LanWhole(n, lan, hostname)
    ensures LanWhole(DestroyNs(n, Pod(pod)), lan, hostname)
  {
    var r := DestroyNs(n, Pod(pod));
    BridgeKind(lans, n, lan);
    PodErase(lans, n, pod, BridgeKey(lan));
    PodErase(lans, n, pod, VxKey(lan));
    hide Inv, NoClash, Doomed;
    forall s | Attached(r, lan, s) ensures Attached(n, lan, s) {
    }
  }

  /** A bridge or vxlan of a LAN is not affected by a pod. */
  lemma PodErase(lans: Lans, n: Net, pod: nat, k: Key)
    requires Inv(lans, n) && k.ns.Lan? && (k in n.links ==> n.links[k].kind.Bridge? || n.links[k].kind.Vxlan?)
    ensures Same(n, DestroyNs(n, Pod(pod)), k)
  {
    if k in n.links {
      assert LinkOk(lans, n.links, k);
      if n.links[k].master.Some? { assert LinkOk(lans, n.links, n.links[k].master.value); }
    }
  }

  lemma CniKeepsWhole(lans: Lans, n: Net, x: string, pod: nat, ifname: string, hostname: string)
    requires NoClash(lans) && Inv(lans, n) && Whole(lans, n, hostname)
    requires x in AllSpokes(lans) || IsDeviceName(lans, x)
    ensures Whole(lans, CniAdd(n, x, pod, ifname).net, hostname)
  {
    hide Whole, NoClash, Inv, Move, IsDeviceName, AllSpokes;
    var k, moved, fin := HostKey(x), Key(Pod(pod), x), Key(Pod(pod), ifname);
    if k in n.links && Move(n, k, moved).Some? {
      MoveKeepsWhole(lans, n, k, moved, hostname);
      var m := Move(n, k, moved).value;
      if Move(m, moved, fin).Some? { MoveKeepsWhole(lans, m, moved, fin, hostname); }
    }
  }

  lemma MoveKeepsWhole(lans: Lans, n: Net, k: Key, to: Key, hostname: string)
    requires NoClash(lans) && Whole(lans, n, hostname) && Move(n, k, to).Some? && to.ns.Pod?
    requires k.ns.Pod? || (k.ns.Host? && Reserved(lans, k.name))
    ensures Whole(lans, Move(n, k, to).value, hostname)
  {
    hide Reserved, OwnNamesApart, Move;
    forall l | l in lans ensures LanWhole(Move(n, k, to).value, lans[l], hostname) {
      NsOfLan(lans, l);
      DevNotReserved(lans, lans[l], hostname);
      MoveLanWhole(n, k, to, lans[l], hostname);
    }
  }

  lemma MoveLanWhole(n: Net, k: Key, to: Key, lan: LanSpec, hostname: string)
    requires LanWhole(n, lan, hostname) && Move(n, k, to).Some? && to.ns.Pod? && !k.ns.Lan? && k != DevOf(lan, hostname)
    ensures LanWhole(Move(n, k, to).value, lan, hostname)
  {
    var r := Move(n, k, to).value;
    forall s | Attached(r, lan, s) ensures Attached(n, lan, s) {
    }
  }

  lemma PodUpKeepsWhole(lans: Lans, n: Net, pod: nat, ifname: string, hostname: string)
    requires Whole(lans, n, hostname)
    ensures Whole(lans, PodUp(n, pod, ifname), hostname)
  {
    hide LanWhole;
    forall m | m in lans ensures LanWhole(PodUp(n, pod, ifname), lans[m], hostname) {
      PodUpLan(n, pod, ifname, lans[m], hostname);
    }
  }

  lemma PodUpLan(n: Net, pod: nat, ifname: string, lan: LanSpec, hostname: string)
    requires LanWhole(n, lan, hostname)
    ensures LanWhole(PodUp(n, pod, ifname), lan, hostname)
  {
    var r := PodUp(n, pod, ifname);
    forall s | Attached(r, lan, s) ensures Attached(n, lan, s) {
    }
  }

  lemma StepKeepsWhole(lans: Lans, n: Net, e: Event)
    requires NoClash(lans) && Inv(lans, n) && Proper(lans, e) && PlainGroups(lans) && Clean(e) && Whole(lans, n, e.host)
    ensures Whole(lans, HostStep(lans, n, e), e.host)
  {
    hide Inv, NoClash, Whole, Ensure, Remove, CniAdd, DestroyNs, PodUp;
    match e
    case EnsureEvent(h, m, s, mode, dummy, f) =>
      NsOfLan(lans, m);
      if NsOpen in f && IsMounted(n, m) {
        LostNamespace(n, DeviceName(s, dummy), s, lans[m], h, mode, dummy, f);
        var r := Remove(n, m, f - {NsUnmount});
        RemoveKeepsWhole(lans, n, m, f - {NsUnmount}, h);
        RemoveKeepsInv(lans, n, m, f - {NsUnmount});
        Unmounts(n, m, f - {NsUnmount});
        EnsureKeepsWhole(lans, r, s, lans[m], h, mode, dummy, f);
      } else {
        EnsureKeepsWhole(lans, n, s, lans[m], h, mode, dummy, f);
      }
    case CniEvent(h, x, pod, ifname) => CniKeepsWhole(lans, n, x, pod, ifname, h);
    case PodUpEvent(h, pod, ifname) => PodUpKeepsWhole(lans, n, pod, ifname, h);
    case TeardownEvent(h, pod) => TeardownKeepsWhole(lans, n, pod, h);
    case RemoveEvent(h, m, f) => RemoveKeepsWhole(lans, n, m, f, h);
  }

  lemma PristineWhole(lans: Lans, n: Net, hostname: string)
    requires Pristine(lans, n)
    ensures Whole(lans, n, hostname)
  {
  }

  lemma {:induction false} CleanRunWhole(lans: Lans, c: Cluster, es: seq<Event>, h: string)
    requires Start(lans, c) && PlainGroups(lans) && (forall e :: e in es ==> Clean(e)) && h in c
    ensures h in Run(lans, c, es) && Whole(lans, Run(lans, c, es)[h], h)
  {
    hide Inv, Pristine, NoClash, Whole, HostStep, Clean;
    if es == [] {
      PristineWhole(lans, c[h], h);
    } else {
      var pre, e := es[..|es| - 1], es[|es| - 1];
      CleanRunWhole(lans, c, pre, h);
      RunKeepsInv(lans, c, pre);
      if Proper(lans, e) && e.host == h {
        assert e in es;
        StepKeepsWhole(lans, Run(lans, c, pre)[h], e);
      }
    }
  }

  /**
   Connectivity: after any run in which no call of `LASTING_CALLS` fails, two attached spokes, on any hosts,
   share a broadcast domain exactly if they belong to the same LAN and both their ends are up.
   `Hearing.EndUpIff` says when an end is.
   */
  lemma CleanRunDomains(lans: Lans, c: Cluster, es: seq<Event>, h: string, m: string, s: string, g: string, l: string,
                        t: string)
    requires Start(lans, c) && PlainGroups(lans) && (forall e :: e in es ==> Clean(e)) && h in c && g in c
    requires AttachedAt(lans, Run(lans, c, es), h, m, s) && AttachedAt(lans, Run(lans, c, es), g, l, t)
    ensures var d := Run(lans, c, es);
            SameDomain(d, EndNode(lans, d, h, m, s), EndNode(lans, d, g, l, t)) <==>
              m == l && ((h == g && s == t) || (EndUp(d[h], lans[m], s) && EndUp(d[g], lans[l], t)))
  {
    var d := Run(lans, c, es);
    RunDomains(lans, c, es, h, m, s, g, l, t);
    CleanSide(lans, c, es, h, m, s);
    CleanSide(lans, c, es, g, l, t);
    hide *;
    ReachUnfolds(lans, d, h, m, s, g, l, t);
  }

  lemma ReachUnfolds(lans: Lans, d: Cluster, h: string, m: string, s: string, g: string, l: string, t: string)
    requires AttachedAt(lans, d, h, m, s) && AttachedAt(lans, d, g, l, t)
    requires BridgeUp(d[h], lans[m]) && Uplink(d[h], lans[m]) && BridgeUp(d[g], lans[l]) && Uplink(d[g], lans[l])
    ensures Reach(lans, d, h, m, s, g, l, t) <==>
              m == l && ((h == g && s == t) || (EndUp(d[h], lans[m], s) && EndUp(d[g], lans[l], t)))
  {
  }

  /** In a clean run an attached spoke has its bridge up and its uplink working. */
  lemma CleanSide(lans: Lans, c: Cluster, es: seq<Event>, h: string, m: string, s: string)
    requires Start(lans, c) && PlainGroups(lans) && (forall e :: e in es ==> Clean(e)) && h in c
    requires AttachedAt(lans, Run(lans, c, es), h, m, s)
    ensures BridgeUp(Run(lans, c, es)[h], lans[m]) && Uplink(Run(lans, c, es)[h], lans[m])
  {
    CleanRunWhole(lans, c, es, h);
    hide Inv, Pristine, NoClash, Run, Clean;
    assert LanWhole(Run(lans, c, es)[h], lans[m], h);
  }
}
