/** Exactly when Ensure succeeds: what it needs to find, and which of its calls may not fail. */
module Success {
  import opened Wrappers
  import opened Kernel
  import opened ApplySpec
  import opened Topology
  import opened TopologySteps
  import opened EnsureInv
  import opened EnsureFrame
  import opened EnsureOutcome
  import opened Stages

  // ----- the calls that an Ensure cannot do without -----

  /** Up to the vxlan check: a bridge or namespace that is there is looked up, one that is not is made. */
  function BaseCalls(n: Net, lan: LanSpec): set<Call> {
    {LoUp, FindDev}
    + (if IsMounted(n, lan.ns) then {} else {NsPrep, NsCreate, NsMount, NsReopen})
    + (if BridgeKey(lan) in n.links then {FindBr} else {AddBr, UpBr})
  }

  /** Deleting the old pair matters only where there is one. */
  function PairCalls(n: Net, lan: LanSpec, spoke: string): set<Call> {
    {AddPair, UpSpoke, MasterPeer, MaskPeer, UpPeer, MoveSpoke}
    + (if PeerKey(lan, spoke) in n.links then {DelPeer} else {})
  }

  function VxCalls(need: bool): set<Call> {
    if need then {AddVx} else {}
  }

  function DeviceCalls(n: Net, dummy: bool): set<Call> {
    {DelMac, FindLower, AddMac, UpMac}
    + (if !dummy then {} else if HostKey(DUMMY_IF_NAME) in n.links then {FindDummy} else {AddDummy})
  }

  // ----- success, phase by phase -----

  lemma NsSucceeds(n: Net, lan: string, faults: set<Call>)
    requires NsOpen in faults ==> !IsMounted(n, lan)
    ensures EnsureNs(n, lan, faults).Ok? <==> IsMounted(n, lan) || faults !! {NsPrep, NsCreate, NsMount, NsReopen}
  {
    hide DestroyNs;
    MakingSplit(faults);
  }

  lemma MakingSplit(faults: set<Call>)
    ensures faults !! {NsPrep, NsCreate, NsMount, NsReopen}
            <==> NsPrep !in faults && NsCreate !in faults && NsMount !in faults && NsReopen !in faults
  {
  }

  lemma BridgeSucceeds(n: Net, lan: LanSpec, faults: set<Call>)
    requires BridgeKey(lan) in n.links ==> n.links[BridgeKey(lan)].kind.Bridge?
    ensures EnsureBridge(n, lan, faults).Ok?
            <==> faults !! (if BridgeKey(lan) in n.links then {FindBr} else {AddBr, UpBr})
  {
    if !(faults !! {AddBr, UpBr}) { assert AddBr in faults || UpBr in faults; }
    if !(faults !! {FindBr}) { assert FindBr in faults; }
  }

  lemma PrologueSucceeds(lans: Lans, n: Net, lan: LanSpec, hostname: string, faults: set<Call>)
    requires NoClash(lans) && lan.ns in lans && lans[lan.ns] == lan && Inv(lans, n)
    requires NsOpen in faults ==> !IsMounted(n, lan.ns)
    ensures Prologue(n, lan, hostname, faults).Ok?
            <==> HostKey(DevName(lan, hostname)) in n.links && faults !! BaseCalls(n, lan)
  {
    hide NoClash, Inv, EnsureNs, EnsureBridge;
    NsSucceeds(n, lan.ns, faults);
    EnsureNsFrame(lans, n, lan.ns, faults);
    EnsureNsKeepsInv(lans, n, lan.ns, faults);
    var n1 := EnsureNs(n, lan.ns, faults).net;
    BaseNamesApart(lans, lan);
    assert Same(n, n1, HostKey(DevName(lan, hostname))) && Same(n, n1, BridgeKey(lan));
    if EnsureNs(n, lan.ns, faults).Ok? {
      SetUpKeepsInv(lans, n1, LoKey(lan.ns));
      var n2 := SetUp(n1, LoKey(lan.ns)).value;
      BridgeKind(lans, n2, lan);
      BridgeSucceeds(n2, lan, faults);
      BridgeKeepsInv(lans, n2, lan, faults);
      BridgeKind(lans, EnsureBridge(n2, lan, faults).net, lan);
    }
    BaseSplit(n, lan, faults);
    hide BaseCalls;
  }

  lemma BaseSplit(n: Net, lan: LanSpec, faults: set<Call>)
    ensures faults !! BaseCalls(n, lan)
            <==> && LoUp !in faults && FindDev !in faults
                 && (IsMounted(n, lan.ns) || faults !! {NsPrep, NsCreate, NsMount, NsReopen})
                 && faults !! (if BridgeKey(lan) in n.links then {FindBr} else {AddBr, UpBr})
  {
  }

  lemma BridgeKind(lans: Lans, n: Net, lan: LanSpec)
    requires NoClash(lans) && lan.ns in lans && lans[lan.ns] == lan && Inv(lans, n)
    ensures BridgeKey(lan) in n.links ==> n.links[BridgeKey(lan)].kind.Bridge?
    ensures VxKey(lan) in n.links ==> SomeVx(n.links[VxKey(lan)].kind)
  {
    if BridgeKey(lan) in n.links { assert LinkOk(lans, n.links, BridgeKey(lan)); }
    if VxKey(lan) in n.links { assert LinkOk(lans, n.links, VxKey(lan)); }
  }

  /** A spoke end in the namespace or in the host is never without its bridge end. */
  lemma EndsHavePair(lans: Lans, n: Net, lan: LanSpec, spoke: string)
    requires Ctx(lans, lan, spoke) && Inv(lans, n)
    ensures NewSpokeKey(lan, spoke) in n.links || HostKey(spoke) in n.links ==> PeerKey(lan, spoke) in n.links
  {
    hide NoClash, Inv;
    if NewSpokeKey(lan, spoke) in n.links { NewEndHasPair(lans, n, lan, spoke); }
    if HostKey(spoke) in n.links { HostEndHasPair(lans, n, lan, spoke); }
  }

  lemma NewEndHasPair(lans: Lans, n: Net, lan: LanSpec, spoke: string)
    requires Ctx(lans, lan, spoke) && Inv(lans, n) && NewSpokeKey(lan, spoke) in n.links
    ensures PeerKey(lan, spoke) in n.links
  {
    PeerNameStem(lans, lan, spoke);
    assert LinkOk(lans, n.links, NewSpokeKey(lan, spoke));
  }

  lemma HostEndHasPair(lans: Lans, n: Net, lan: LanSpec, spoke: string)
    requires Ctx(lans, lan, spoke) && Inv(lans, n) && HostKey(spoke) in n.links
    ensures PeerKey(lan, spoke) in n.links
  {
    PeerNameStem(lans, lan, spoke);
    assert LinkOk(lans, n.links, HostKey(spoke));
    var q := n.links[HostKey(spoke)].kind.peer;
    assert q.name[..|q.name| - 1] == spoke;
    hide Inv, OwnNamesApart, Reserved, AllSpokes, PeerName;
    assert q.ns.name in lans && spoke in lans[q.ns.name].spokes;
  }

  /** With both names free and the bridge there, every call for the pair works. */
  lemma PairCallsWork(n0: Net, lan: LanSpec, spoke: string)
    requires {PeerKey(lan, spoke), NewSpokeKey(lan, spoke), HostKey(spoke)} !! n0.links.Keys
    requires BridgeKey(lan) in n0.links && n0.links[BridgeKey(lan)].kind.Bridge?
    ensures var p, s, b := PeerKey(lan, spoke), NewSpokeKey(lan, spoke), BridgeKey(lan);
            && AddVeth(n0, s, p).Some?
            && var n1 := AddVeth(n0, s, p).value;
            && SetUp(n1, s).Some?
            && var n2 := SetUp(n1, s).value;
            && SetMaster(n2, p, b).Some?
            && var n3 := SetMaster(n2, p, b).value;
            && SetMask(n3, p, BR_SLAVE_GRP_FWD_MASK).Some?
            && var n4 := SetMask(n3, p, BR_SLAVE_GRP_FWD_MASK).value;
            && SetUp(n4, p).Some?
            && Move(SetUp(n4, p).value, s, HostKey(spoke)).Some?
  {
    assert |PeerKey(lan, spoke).name| == |NewSpokeKey(lan, spoke).name| + 1;
  }

  /** Deleting the old pair, where there is one, frees all three names, and leaves the bridge. */
  lemma PairDeleted(lans: Lans, n: Net, lan: LanSpec, spoke: string, faults: set<Call>)
    requires Ctx(lans, lan, spoke) && Inv(lans, n) && BridgeKey(lan) in n.links
    requires DelPeer in faults ==> PeerKey(lan, spoke) !in n.links
    ensures var n0 := LinkDelete(n, PeerKey(lan, spoke), DelPeer, faults).net;
            && {PeerKey(lan, spoke), NewSpokeKey(lan, spoke), HostKey(spoke)} !! n0.links.Keys
            && BridgeKey(lan) in n0.links && n0.links[BridgeKey(lan)].kind.Bridge?
  {
    hide NoClash, IsPeerName, Stem, Inv, Erase, Doomed;
    var p := PeerKey(lan, spoke);
    LinkDeletePair(lans, n, lan, spoke, faults);
    PairDeletable(lans, n, lan, spoke);
    ErasedKey(n, p);
    var n0 := LinkDelete(n, p, DelPeer, faults).net;
    EndsHavePair(lans, n0, lan, spoke);
    BridgeUntouched(lans, n, lan, spoke);
    assert Same(n, n0, BridgeKey(lan));
    BridgeKind(lans, n0, lan);
  }

  lemma VethSucceeds(lans: Lans, n: Net, lan: LanSpec, spoke: string, faults: set<Call>)
    requires Ctx(lans, lan, spoke) && Inv(lans, n) && BridgeKey(lan) in n.links
    ensures EnsureVeth(n, lan, spoke, faults).Ok? <==> faults !! PairCalls(n, lan, spoke)
  {
    hide NoClash, Inv, AddVeth, SetUp, SetMaster, SetMask, Move, Erase;
    var p := PeerKey(lan, spoke);
    PairSplit(n, lan, spoke, faults);
    PairDeletable(lans, n, lan, spoke);
    if DelPeer in faults && p in n.links {
      PairTaken(n, lan, spoke);
    } else {
      PairDeleted(lans, n, lan, spoke, faults);
      hide LinkDelete, PairCalls;
      PairCallsWork(LinkDelete(n, p, DelPeer, faults).net, lan, spoke);
    }
  }

  lemma PairSplit(n: Net, lan: LanSpec, spoke: string, faults: set<Call>)
    ensures faults !! PairCalls(n, lan, spoke)
            <==> && AddPair !in faults && UpSpoke !in faults && MasterPeer !in faults && MaskPeer !in faults
                 && UpPeer !in faults && MoveSpoke !in faults
                 && (DelPeer in faults ==> PeerKey(lan, spoke) !in n.links)
  {
  }

  lemma PairTaken(n: Net, lan: LanSpec, spoke: string)
    requires PeerKey(lan, spoke) in n.links
    ensures AddVeth(n, NewSpokeKey(lan, spoke), PeerKey(lan, spoke)).None?
  {
  }

  lemma PairDeletable(lans: Lans, n: Net, lan: LanSpec, spoke: string)
    requires Ctx(lans, lan, spoke) && Inv(lans, n)
    ensures PeerKey(lan, spoke) in n.links ==> n.links[PeerKey(lan, spoke)].kind.Veth?
  {
    PeerNameStem(lans, lan, spoke);
    if PeerKey(lan, spoke) in n.links { assert LinkOk(lans, n.links, PeerKey(lan, spoke)); }
  }

  lemma VxSucceeds(n: Net, lan: LanSpec, dev: nat, faults: set<Call>)
    ensures EnsureVx(n, lan, dev, faults).Ok? <==> AddVx !in faults && IsMulticast(lan.group)
  {
    hide IsMulticast, AttachVx;
  }

  lemma RecreateSucceeds(lans: Lans, n: Net, mac: string, lower: string, mode: string, faults: set<Call>)
    requires Inv(lans, n) && (HostKey(mac) in n.links ==> n.links[HostKey(mac)].kind.Macvtap?)
    requires HostKey(lower) in n.links && lower != mac
    ensures RecreateMacvtap(n, mac, lower, mode, faults).Ok?
            <==> ModeFromString(mode).Some? && faults !! {DelMac, FindLower, AddMac, UpMac}
  {
    hide ModeFromString, Inv, Erase, Doomed;
    if HostKey(mac) in n.links {
      DoomedAlone(lans, n, HostKey(mac));
      EraseOneFrame(lans, n, HostKey(mac));
      assert Same(n, Erase(n, {HostKey(mac)}), HostKey(lower));
    }
    var n1 := LinkDelete(n, HostKey(mac), DelMac, faults).net;
    assert DelMac !in faults ==> HostKey(mac) !in n1.links && HostKey(lower) in n1.links;
    MacSplit(faults);
  }

  lemma MacSplit(faults: set<Call>)
    ensures faults !! {DelMac, FindLower, AddMac, UpMac}
            <==> DelMac !in faults && FindLower !in faults && AddMac !in faults && UpMac !in faults
  {
  }

  lemma MacvtapSucceeds(lans: Lans, n: Net, spoke: string, mode: string, dummy: bool, faults: set<Call>)
    requires NoClash(lans) && Inv(lans, n) && spoke in AllSpokes(lans) && HostKey(spoke) in n.links
    ensures EnsureMacvtap(n, DeviceName(spoke, dummy), spoke, mode, dummy, faults).Ok?
            <==> MacvtapMode(mode, dummy).Some? && faults !! DeviceCalls(n, dummy)
  {
    hide NoClash, IsDeviceName;
    var mac, d := DeviceName(spoke, dummy), HostKey(DUMMY_IF_NAME);
    DeviceNameFacts(lans, spoke, dummy);
    HostKinds(lans, n, mac);
    if dummy && d !in n.links {
      DummyPlaced(lans, n);
      AddKeepsInv(lans, n, d, Dummy);
      RecreateSucceeds(lans, Add(n, d, Dummy).value, mac, DUMMY_IF_NAME, "private", faults);
    } else if dummy {
      RecreateSucceeds(lans, n, mac, DUMMY_IF_NAME, "private", faults);
    } else {
      RecreateSucceeds(lans, n, mac, spoke, mode, faults);
    }
    hide Inv, RecreateMacvtap;
    DeviceSplit(n, dummy, faults);
    hide DeviceCalls;
  }

  lemma DeviceSplit(n: Net, dummy: bool, faults: set<Call>)
    ensures faults !! DeviceCalls(n, dummy)
            <==> && faults !! {DelMac, FindLower, AddMac, UpMac}
                 && (dummy && HostKey(DUMMY_IF_NAME) in n.links ==> FindDummy !in faults)
                 && (dummy && HostKey(DUMMY_IF_NAME) !in n.links ==> AddDummy !in faults)
  {
  }

  // ----- the whole of Ensure -----

  /** Where an Ensure stops, exactly, by what it finds and which of its calls fail. */
  lemma StageIff(lans: Lans, n: Net, spoke: string, lan: LanSpec, hostname: string, faults: set<Call>)
    requires Ctx(lans, lan, spoke) && Inv(lans, n) && (NsOpen in faults ==> !IsMounted(n, lan.ns))
    ensures StageOf(n, spoke, lan, hostname, faults)
            == if HostKey(DevName(lan, hostname)) !in n.links || !(faults !! BaseCalls(n, lan)) then NotTried
               else if !(faults !! PairCalls(n, lan, spoke)) then PairFailed
               else if UpSpokeHost in faults
                       || (WrongVx(n, lan, hostname, faults) && (AddVx in faults || !IsMulticast(lan.group)))
               then LeftDown
               else BroughtUp
  {
    hide NoClash, Inv, Prologue, EnsureVeth, EnsureVx, DropVx, IsMulticast, OldPair, BaseCalls, PairCalls;
    PrologueSucceeds(lans, n, lan, hostname, faults);
    PrologueFrame(lans, n, lan, hostname, faults);
    PrologueKeepsInv(lans, n, lan, hostname, faults);
    if Prologue(n, lan, hostname, faults).Ok? {
      var n1 := Prologue(n, lan, hostname, faults).net;
      PrologueLeaves(lans, n, n1, lan, spoke, hostname);
      NeedIsWrong(lans, n, n1, lan, hostname, faults);
      hide WrongVx, NeedVx;
      var need := WrongVx(n, lan, hostname, faults);
      PairSucceeds(lans, n, n1, lan, spoke, need, faults);
      VxSucceeds(EnsureVeth(DropVx(n1, lan, need, faults), lan, spoke, faults).net, lan,
                 n1.links[HostKey(DevName(lan, hostname))].index, faults);
    }
  }

  lemma PrologueLeaves(lans: Lans, n: Net, n1: Net, lan: LanSpec, spoke: string, hostname: string)
    requires Ctx(lans, lan, spoke) && Inv(lans, n) && AgreeOff(n, n1, BasePrint(lan))
    ensures Same(n, n1, HostKey(DevName(lan, hostname))) && Same(n, n1, VxKey(lan)) && Same(n, n1, PeerKey(lan, spoke))
    ensures Same(n, n1, HostKey(DUMMY_IF_NAME))
  {
    hide Inv, OldPair;
    BaseNamesApart(lans, lan);
    PeerNameStem(lans, lan, spoke);
  }

  /** The pair, after the prologue and with the old vxlan dropped or not. */
  lemma PairSucceeds(lans: Lans, n: Net, n1: Net, lan: LanSpec, spoke: string, need: bool, faults: set<Call>)
    requires Ctx(lans, lan, spoke) && Inv(lans, n1) && BridgeKey(lan) in n1.links
    requires Same(n, n1, PeerKey(lan, spoke))
    ensures EnsureVeth(DropVx(n1, lan, need, faults), lan, spoke, faults).Ok? <==> faults !! PairCalls(n, lan, spoke)
  {
    hide NoClash, Inv, EnsureVeth, DropVx;
    var n0 := DropVx(n1, lan, need, faults);
    DropVxFrame(lans, n1, lan, need, faults);
    BaseNamesApart(lans, lan);
    PeerNameStem(lans, lan, spoke);
    assert Same(n1, n0, BridgeKey(lan)) && Same(n1, n0, PeerKey(lan, spoke));
    VethSucceeds(lans, n0, lan, spoke, faults);
  }

  /** Calls after the bridge, and after the pair, that the earlier phases do not make. */
  lemma LateCalls(n: Net, lan: LanSpec, spoke: string, faults: set<Call>)
    requires faults <= HIDDEN_CALLS + {FindVx, AddPair, AddVx, UpSpokeHost}
    ensures faults !! BaseCalls(n, lan) && NsOpen !in faults
    ensures AddPair !in faults ==> faults !! PairCalls(n, lan, spoke)
  {
  }

  /** Every call whose failure makes this Ensure fail. */
  function NeededCalls(n: Net, lan: LanSpec, spoke: string, dummy: bool, need: bool): set<Call> {
    BaseCalls(n, lan) + PairCalls(n, lan, spoke) + VxCalls(need) + {UpSpokeHost} + DeviceCalls(n, dummy)
  }

  /**
   Exactly when Ensure reports success, for any set of failing calls: the underlay of this host is there, the mode
   is known, a vxlan to be made has a multicast group, and none of the calls it needs fails.  In particular a
   state left by any sequence of failures is repaired.
   */
  lemma EnsureOkIff(lans: Lans, n: Net, spoke: string, lan: LanSpec, hostname: string, mode: string, dummy: bool,
                    faults: set<Call>)
    requires Ctx(lans, lan, spoke) && Inv(lans, n) && (NsOpen in faults ==> !IsMounted(n, lan.ns))
    ensures var need := WrongVx(n, lan, hostname, faults);
            Ensure(n, DeviceName(spoke, dummy), spoke, lan, hostname, mode, dummy, faults).Ok? <==>
              && (hostname in lan.devMap ==> HostKey(lan.devMap[hostname]) in n.links)
              && (hostname !in lan.devMap ==> HostKey(lan.defaultDev) in n.links)
              && (dummy || mode in {"", "bridge", "private", "vepa", "passthru"})
              && (need ==> IsMulticast(lan.group))
              && faults !! NeededCalls(n, lan, spoke, dummy, need)
  {
    StageIff(lans, n, spoke, lan, hostname, faults);
    PrologueFrame(lans, n, lan, hostname, faults);
    PrologueKeepsInv(lans, n, lan, hostname, faults);
    NeededSplit(n, lan, spoke, dummy, WrongVx(n, lan, hostname, faults), faults);
    KnownModes(mode, dummy);
    var r := Prologue(n, lan, hostname, faults);
    hide NoClash, Inv, Prologue, NeededCalls, BaseCalls, PairCalls, DeviceCalls, EnsureVeth, EnsureVx, EnsureMacvtap,
      DropVx, IsMulticast, OldPair, MacvtapMode;
    if r.Ok? {
      PrologueLeaves(lans, n, r.net, lan, spoke, hostname);
      NeedIsWrong(lans, n, r.net, lan, hostname, faults);
      hide WrongVx, NeedVx, DevName;
      DeviceSucceeds(lans, n, r.net, spoke, lan, r.net.links[HostKey(DevName(lan, hostname))].index, mode, dummy,
                     WrongVx(n, lan, hostname, faults), faults);
    }
  }

  lemma NeededSplit(n: Net, lan: LanSpec, spoke: string, dummy: bool, need: bool, faults: set<Call>)
    ensures faults !! NeededCalls(n, lan, spoke, dummy, need)
            <==> && faults !! BaseCalls(n, lan) && faults !! PairCalls(n, lan, spoke)
                 && (need ==> AddVx !in faults) && UpSpokeHost !in faults && faults !! DeviceCalls(n, dummy)
  {
    hide BaseCalls, PairCalls, DeviceCalls;
  }

  lemma KnownModes(mode: string, dummy: bool)
    ensures MacvtapMode(mode, dummy).Some? <==> dummy || mode in {"", "bridge", "private", "vepa", "passthru"}
  {
  }

  /** What follows the pair: the vxlan, the end brought up, the device. */
  lemma DeviceSucceeds(lans: Lans, n: Net, n1: Net, spoke: string, lan: LanSpec, dev: nat, mode: string, dummy: bool,
                       need: bool, faults: set<Call>)
    requires Ctx(lans, lan, spoke) && Inv(lans, n) && Inv(lans, n1) && IsMounted(n1, lan.ns)
    requires BridgeKey(lan) in n1.links && Same(n, n1, HostKey(DUMMY_IF_NAME))
    ensures var pair := EnsureVeth(DropVx(n1, lan, need, faults), lan, spoke, faults);
            Epilogue(n1, DeviceName(spoke, dummy), spoke, lan, dev, mode, dummy, need, faults).Ok? <==>
              && pair.Ok? && (need ==> EnsureVx(pair.net, lan, dev, faults).Ok?) && UpSpokeHost !in faults
              && MacvtapMode(mode, dummy).Some? && faults !! DeviceCalls(n, dummy)
  {
    hide NoClash, Inv, EnsureVeth, EnsureVx, EnsureMacvtap, DropVx, MacvtapMode, OldPair, DeviceCalls;
    VethStep(lans, n1, lan, spoke, need, faults);
    var pair := EnsureVeth(DropVx(n1, lan, need, faults), lan, spoke, faults);
    if pair.Ok? {
      var n2 := pair.net;
      BridgeUntouched(lans, n1, lan, spoke);
      assert Same(n1, n2, BridgeKey(lan));
      VxStep(lans, n2, lan, dev, need, faults);
      var r2 := if need then EnsureVx(n2, lan, dev, faults) else Ok(n2);
      assert Same(n2, r2.net, HostKey(spoke)) && Same(n2, r2.net, HostKey(DUMMY_IF_NAME));
      DummyUntouched(lans, n1, lan, spoke);
      assert Same(n1, n2, HostKey(DUMMY_IF_NAME));
      SetUpKeepsInv(lans, r2.net, HostKey(spoke));
      PeerNameStem(lans, lan, spoke);
      SpokeName(lans, spoke);
      var n3 := SetUp(r2.net, HostKey(spoke)).value;
      MacvtapSucceeds(lans, n3, spoke, mode, dummy, faults);
      DeviceCallsSame(n, n3, dummy);
    }
  }

  lemma DeviceCallsSame(a: Net, b: Net, dummy: bool)
    requires HostKey(DUMMY_IF_NAME) in a.links <==> HostKey(DUMMY_IF_NAME) in b.links
    ensures DeviceCalls(a, dummy) == DeviceCalls(b, dummy)
  {
  }
}
