/** Inputs at which the code does not do what one would expect of it. */
module Findings {
  import opened Wrappers
  import opened Kernel
  import opened ApplySpec
  import opened Topology
  import opened EnsureInv
  import opened EnsureOutcome
  import opened Isolation
  import opened Guarantees
  import opened EnsureTwice
  import opened Runs
  import opened CleanRuns
  import opened LastingCalls
  import opened Silent
  import opened Example
  import Codec
  import LanTypes
  import NadController
  import Webhook

  // ----- groups that do not read back -----

  /** A link-local group with a zone, and an IPv4 group written as an IPv6 address. */
  const ZONED := Addr([255, 2, 0, 0, 0, 0, 0, 0, 0, 0, 0, 0, 0, 0, 0, 20], "eth0")
  const MAPPED := Addr([0, 0, 0, 0, 0, 0, 0, 0, 0, 0, 255, 255, 239, 0, 0, 1], "")

  function GroupText(g: Addr): string {
    if g == ZONED then "ff02::14%eth0" else "::ffff:239.0.0.1"
  }

  lemma OddGroups(g: Addr)
    requires g in {ZONED, MAPPED}
    ensures IsMulticast(g) && !PlainGroup(g)
  {
    assert MAPPED.bytes[..10] == [0, 0, 0, 0, 0, 0, 0, 0, 0, 0];
    assert MAPPED.bytes[12..] == [239, 0, 0, 1];
    assert ZONED.bytes[10] == 0;
  }

  lemma OddGroupsAdmitted(g: Addr)
    requires g in {ZONED, MAPPED}
    ensures var spec := SomeSpec().(group := Some(LanTypes.Address(GroupText(g), g)));
            && Webhook.CreateAccepted(spec) && LanTypes.Admissible(Webhook.Defaulted(spec))
            && LanTypes.Resolve(Webhook.Defaulted(spec)).group == g && !PlainGroup(g)
  {
    OddGroups(g);
    hide IsMulticast, PlainGroup;
    assert LanTypes.HasText("red") by { assert "red"[0] as int > 32; }
  }

  /** On an untouched host: the second of two identical Ensures makes the vxlan anew. */
  lemma OddGroupReplaced(g: Addr)
    requires g in {ZONED, MAPPED}
    ensures var o := Op(Red(g), "a", "w1", "passthru", false);
            var m := Do(PlainHost(), o);
            && m.Ok? && Do(m.net, o).Ok? && VxKey(o.lan) in m.net.links && VxKey(o.lan) in Do(m.net, o).net.links
            && Do(m.net, o).net.links[VxKey(o.lan)].index != m.net.links[VxKey(o.lan)].index
  {
    OddGroups(g);
    var o := Op(Red(g), "a", "w1", "passthru", false);
    RedReady(g);
    hide NoClash, Inv, Ensure, IsMulticast, PlainGroup, WrongVx;
    EnsureSucceedsIff(TwoLans(g), PlainHost(), "a", o.lan, "w1", "passthru", false, {});
    EnsureIdempotent(TwoLans(g), PlainHost(), o);
  }

  lemma RedReady(g: Addr)
    ensures Ctx(TwoLans(g), Red(g), "a") && Inv(TwoLans(g), PlainHost()) && Pristine(TwoLans(g), PlainHost())
    ensures DevOf(Red(g), "w1") in PlainHost().links
    ensures VxKey(Red(g)) !in PlainHost().links && BridgeKey(Red(g)) !in PlainHost().links
  {
    TwoLansNoClash(g);
    PlainHostPristine(g);
    PristineInv(TwoLans(g), PlainHost());
    LanIs(g, "red");
    hide NoClash, Inv, Pristine;
    assert "red" in TwoLans(g);
  }

  // ----- a bridge left down -----

  lemma BridgeDownHere()
    ensures var lan := Red(PLAIN);
            var r := Done(PlainHost(), lan, "a", "w1", {UpBr});
            var again := Done(r.net, lan, "a", "w1", {});
            r.Fail? && again.Ok? && Attached(again.net, lan, "a") && !BridgeUp(again.net, lan)
  {
    RedReady(PLAIN);
    PlainIsMulticast();
    var lans, lan := TwoLans(PLAIN), Red(PLAIN);
    hide NoClash, Inv, Ensure, IsMulticast, Pristine, Attached, WrongVx;
    BridgeStaysDown(lans, PlainHost(), "a", lan, "w1", "passthru", false);
    SuccessIsConnectedIff(lans, Done(PlainHost(), lan, "a", "w1", {UpBr}).net, "a", lan, "w1", "passthru", false, {});
  }

  lemma PlainIsMulticast()
    ensures IsMulticast(PLAIN) && PlainGroup(PLAIN)
  {
  }

  /** Every call that clean runs exclude, on two untouched hosts. */
  lemma EachCallMattersHere(call: Call) returns (es: seq<Event>)
    requires call in LASTING_CALLS
    ensures forall e :: e in es && e.EnsureEvent? ==> e.faults * LASTING_CALLS <= {call}
    ensures Apart(TwoLans(PLAIN), Run(TwoLans(PLAIN), TwoHostsPlain(), es), "w1", "w2", "red", "a", "b")
  {
    HostsReady(PLAIN);
    TwoLansPlain();
    assert "w1" != "w2" && "a" != "b";
    hide *;
    es := EachCallMatters(TwoLans(PLAIN), TwoHostsPlain(), "w1", "w2", "red", "a", "b", "b", 0, call);
  }

  lemma HostsReady(g: Addr)
    ensures var lans, c := TwoLans(g), TwoHostsPlain();
            && Start(lans, c) && "w1" in c && "w2" in c && "red" in lans && lans["red"].group == g
            && {"a", "b", "b"} <= (set x | x in lans["red"].spokes)
            && DevOf(lans["red"], "w1") in c["w1"].links && DevOf(lans["red"], "w2") in c["w2"].links
            && forall pod :: EmptyPod(c["w1"], pod)
  {
    TwoLansNoClash(g);
    PlainHostPristine(g);
    RedHere(g);
    hide NoClash, Pristine, TwoLans, DevName;
  }

  lemma RedHere(g: Addr)
    ensures "red" in TwoLans(g) && TwoLans(g)["red"] == Red(g) && DevOf(Red(g), "w1") == HostKey("eth0")
    ensures DevOf(Red(g), "w2") == HostKey("eth0") && {"a", "b", "b"} <= (set x | x in Red(g).spokes)
  {
    LanIs(g, "red");
  }

  /** The same with a group that does not read back, and one pair that cannot be made. */
  lemma OddGroupStrands(g: Addr) returns (es: seq<Event>)
    requires g in {ZONED, MAPPED}
    ensures forall e :: e in es ==> Clean(e)
    ensures Apart(TwoLans(g), Run(TwoLans(g), TwoHostsPlain(), es), "w1", "w2", "red", "a", "b")
  {
    OddGroups(g);
    HostsReady(g);
    assert "w1" != "w2" && "a" != "b";
    hide *;
    es := PlainGroupMatters(TwoLans(g), TwoHostsPlain(), "w1", "w2", "red", "a", "b", "b");
  }

  // ----- attached and not heard -----

  /** On two untouched hosts: the CNI's move silences a spoke until its pod brings the end up. */
  lemma MoveSilencesHere(pod: nat, ifname: string)
    ensures var lans, c, es := TwoLans(PLAIN), TwoHostsPlain(), Silent.Pair("w1", "w2", "red", "a", "b", {});
            var move, up := CniEvent("w1", "a", pod, ifname), PodUpEvent("w1", pod, ifname);
            && Hear(lans, Run(lans, c, es), "w1", "w2", "red", "a", "b")
            && FirstSilent(lans, Run(lans, c, es + [move]), "w1", "w2", "red", "a", "b")
            && Hear(lans, Run(lans, c, es + [move, up]), "w1", "w2", "red", "a", "b")
  {
    PairReady();
    hide *;
    MoveSilences(TwoLans(PLAIN), TwoHostsPlain(), "w1", "w2", "red", "a", "b", pod, ifname);
  }

  /** ... and so does an Ensure that cannot bring the end up in the host. */
  lemma FailedUpSilencesHere()
    ensures Done(PlainHost(), Red(PLAIN), "a", "w1", {UpSpokeHost}).Fail?
    ensures FirstSilent(TwoLans(PLAIN),
                        Run(TwoLans(PLAIN), TwoHostsPlain(), Silent.Pair("w1", "w2", "red", "a", "b", {UpSpokeHost})),
                        "w1", "w2", "red", "a", "b")
  {
    PairReady();
    hide *;
    FailedUpSilences(TwoLans(PLAIN), TwoHostsPlain(), "w1", "w2", "red", "a", "b");
  }

  lemma PairReady()
    ensures TwoReady(TwoLans(PLAIN), TwoHostsPlain(), "w1", "w2", "red", "a", "b")
    ensures TwoLans(PLAIN)["red"] == Red(PLAIN) && TwoHostsPlain()["w1"] == PlainHost()
    ensures forall pod :: EmptyPod(TwoHostsPlain()["w1"], pod)
  {
    HostsReady(PLAIN);
    TwoLansPlain();
    LanIs(PLAIN, "red");
    assert "w1" != "w2";
    hide Start, PlainGroups;
  }

  function TwoHostsPlain(): Cluster { map["w1" := PlainHost(), "w2" := PlainHost()] }

  // ----- a vxlan left over, which is repaired -----

  /** The namespace, the bridge, and a vxlan of other settings on it. */
  function LeftoverHost(): Net {
    var b := Key(Lan("red"), "br");
    Net(PlainHost().links[LoKey("red") := Link(3, Loopback, true, None, 0)][b := Link(4, Bridge, true, None, 0)]
        [Key(Lan("red"), "vx") :=
           Link(5, Vxlan(Conf([239, 9, 9, 9], 77, 2, 8472)), true, Some(b), BR_SLAVE_GRP_FWD_MASK)],
        6, map["red" := Mounted])
  }

  lemma LeftoverLink(k: Key)
    requires k in LeftoverHost().links
    ensures LinkOk(TwoLans(PLAIN), LeftoverHost().links, k)
  {
    if k in PlainHost().links {
      RedReady(PLAIN);
      assert LinkOk(TwoLans(PLAIN), PlainHost().links, k);
      hide NoClash, Pristine, TwoLans;
    } else {
      RedHere(PLAIN);
      hide TwoLans;
      assert |Conf([239, 9, 9, 9], 77, 2, 8472).group| == 4;
    }
  }

  /** Each link by its index: no macvtap, every namespace key mounted, no index twice. */
  lemma LeftoverKey(k: Key)
    requires k in LeftoverHost().links
    ensures var l := LeftoverHost().links[k];
            && !l.kind.Macvtap? && 1 <= l.index < 6 && (k.ns.Lan? ==> k.ns.name == "red")
            && k == (if l.index == 1 then HostKey("lo") else if l.index == 2 then HostKey("eth0")
                     else if l.index == 3 then LoKey("red") else if l.index == 4 then Key(Lan("red"), "br")
                     else Key(Lan("red"), "vx"))
  {
  }

  lemma LeftoverRest()
    ensures var n := LeftoverHost(); OneMacvtap(n.links) && DevicesOk(n.links) && NsOk(n) && IndexOk(n)
  {
    var n := LeftoverHost();
    assert n.next == 6 && n.mounts == map["red" := Mounted] && LoKey("red") in n.links;
    hide LowerFits, LeftoverHost;
    forall k | k in n.links
      ensures !n.links[k].kind.Macvtap? && n.links[k].index < 6 && (k.ns.Lan? ==> k.ns.name == "red")
    {
      LeftoverKey(k);
    }
    forall j, k | j in n.links && k in n.links && n.links[j].index == n.links[k].index ensures j == k {
      LeftoverKey(j);
      LeftoverKey(k);
    }
  }

  lemma LeftoverInv()
    ensures Inv(TwoLans(PLAIN), LeftoverHost()) && !VxRight(TwoLans(PLAIN), LeftoverHost())
  {
    hide LinkOk, OneMacvtap, DevicesOk, NsOk, IndexOk;
    forall k | k in LeftoverHost().links ensures LinkOk(TwoLans(PLAIN), LeftoverHost().links, k) { LeftoverLink(k); }
    LeftoverRest();
    LeftoverWrong();
    hide LeftoverHost, TwoLans, VxRight;
  }

  lemma LeftoverWrong()
    ensures !VxRight(TwoLans(PLAIN), LeftoverHost())
  {
    LanIs(PLAIN, "red");
    assert "red" in TwoLans(PLAIN);
    var lan := TwoLans(PLAIN)["red"];
    assert VxKey(lan) in LeftoverHost().links;
    assert !IsVxOf(lan, LeftoverHost().links[VxKey(lan)].kind);
  }

  lemma LeftoverIsWrong()
    ensures var n, lan := LeftoverHost(), Red(PLAIN);
            && DevOf(lan, "w1") in n.links && WrongVx(n, lan, "w1", {})
            && VxKey(lan) in n.links && n.links[VxKey(lan)].index == 5
            && ModeFromString("passthru").Some? && lan.group == PLAIN
  {
    RedHere(PLAIN);
    hide TwoLans;
  }

  /** A vxlan of another group, vni and port is replaced, and has the settings of the spec in the end. */
  lemma LeftoverRepaired()
    ensures var lan := Red(PLAIN);
            var m := Done(LeftoverHost(), lan, "a", "w1", {});
            && m.Ok? && VxKey(lan) in m.net.links && m.net.links[VxKey(lan)].index != 5
            && IsVxOf(lan, m.net.links[VxKey(lan)].kind) && Uplink(m.net, lan)
  {
    LeftoverInv();
    RedReady(PLAIN);
    PlainIsMulticast();
    LeftoverIsWrong();
    var lans, lan := TwoLans(PLAIN), Red(PLAIN);
    hide NoClash, Inv, Ensure, IsMulticast, Pristine, Attached, LeftoverHost, TwoLans, Red, VxRight, EndUp,
      SpokeEnd;
    EnsureSucceedsIff(lans, LeftoverHost(), "a", lan, "w1", "passthru", false, {});
    EnsureRepairsVx(lans, LeftoverHost(), "a", lan, "w1", "passthru", false, {});
    ReplacedIff(lans, LeftoverHost(), "a", lan, "w1", "passthru", false);
    SuccessIsConnectedIff(lans, LeftoverHost(), "a", lan, "w1", "passthru", false, {});
  }

  // ----- a definition of the same name elsewhere -----

  /** A definition in another namespace keeps the LAN's own from being made. */
  lemma NameTakenElsewhere()
    ensures var name := LanTypes.DPResourceName("a", true);
            var nads := map[NadController.NadKey("theirs", name) := LanTypes.MakeNad(name, "theirs")];
            var names := Codec.DeviceKeys(SomeSpec());
            && name in names && NadController.KeyedByName(nads)
            && NadController.NadKey("ours", name) !in nads + NadController.Missing(nads, names, "ours")
  {
    hide LanTypes.DPResourceName, LanTypes.IsMacvtapResource, LanTypes.SpokeFromResource;
    var name := LanTypes.DPResourceName("a", true);
    var nads := map[NadController.NadKey("theirs", name) := LanTypes.MakeNad(name, "theirs")];
    Codec.KeyInIff(SomeSpec().spokes, "a", true);
    assert NadController.NadKey("theirs", name) in nads;
    assert name in NadController.NamesOf(nads);
    assert "theirs" != "ours";
  }
}
