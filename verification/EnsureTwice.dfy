/** Two Ensures in a row: the same one again, and different ones in either order. */
module EnsureTwice {
  import opened Wrappers
  import opened Kernel
  import opened ApplySpec
  import opened Topology
  import opened TopologySteps
  import opened EnsureInv
  import opened EnsureFrame
  import opened EnsureOutcome
  import opened Success
  import opened Guarantees

  /** The links up to their indices: a topology whatever order its links were made in. */
  function Shape(n: Net): map<Key, Link> {
    map k | k in n.links :: n.links[k].(index := 0)
  }

  predicate SameShape(a: Net, b: Net, k: Key) {
    (k in a.links <==> k in b.links) && (k in a.links ==> a.links[k].(index := 0) == b.links[k].(index := 0))
  }

  lemma ShapesEqual(a: Net, b: Net)
    requires forall k :: SameShape(a, b, k)
    ensures Shape(a) == Shape(b)
  {
    assert forall k :: k in Shape(a) <==> SameShape(a, b, k) && k in Shape(b);
    forall k | k in Shape(a) ensures Shape(a)[k] == Shape(b)[k] {
      assert SameShape(a, b, k);
    }
  }

  /** One Ensure that meets no failure. */
  datatype Op = Op(lan: LanSpec, spoke: string, hostname: string, mode: string, dummy: bool)

  function Do(n: Net, o: Op): Out {
    Ensure(n, DeviceName(o.spoke, o.dummy), o.spoke, o.lan, o.hostname, o.mode, o.dummy, {})
  }

  ghost predicate Fits(lans: Lans, n: Net, o: Op) {
    Ctx(lans, o.lan, o.spoke) && Inv(lans, n)
  }

  function Print(n: Net, o: Op): set<Key> {
    Footprint(n, o.lan, o.spoke, o.dummy)
  }

  function DevKey(o: Op): Key { HostKey(DevName(o.lan, o.hostname)) }

  /** The vxlan a successful Op ends up with: the old one if it is right, or else a new one. */
  function VxTarget(n: Net, o: Op): Link
    requires DevKey(o) in n.links
  {
    if WrongVx(n, o.lan, o.hostname, {})
    then Link(0, Vxlan(WantedConf(o.lan, n.links[DevKey(o)].index)), true, Some(BridgeKey(o.lan)),
              BR_SLAVE_GRP_FWD_MASK)
    else n.links[VxKey(o.lan)].(index := 0)
  }

  lemma DoEffect(lans: Lans, n: Net, o: Op)
    requires Fits(lans, n, o) && Do(n, o).Ok?
    ensures var m := Do(n, o).net;
            && Inv(lans, m) && AgreeOff(n, m, Print(n, o))
            && Ensured(n, m, o.lan, o.spoke, o.hostname, o.mode, o.dummy, {})
            && Same(n, m, DevKey(o)) && DevKey(o) in n.links
            && m.links[VxKey(o.lan)].(index := 0) == VxTarget(n, o)
  {
    hide Inv, NoClash, Ensure, Footprint, OldPair;
    EnsureEffect(lans, n, o.spoke, o.lan, o.hostname, o.mode, o.dummy, {});
    EnsureKeepsInv(lans, n, o.spoke, o.lan, o.hostname, o.mode, o.dummy, {});
    DevApart(lans, n, o.lan, o.spoke, o.hostname, o.dummy, o.lan);
  }

  // ----- the same again -----

  /** After an Ensure nothing but its own macvtap is above the spoke's outer end. */
  lemma OnlyOwnMacvtap(lans: Lans, n: Net, o: Op, k: Key)
    requires Fits(lans, n, o) && Do(n, o).Ok? && Above(Do(n, o).net.links, k, HostKey(o.spoke))
    ensures k == HostKey(DeviceName(o.spoke, o.dummy))
  {
    hide NoClash, Ensure, OldPair;
    DoEffect(lans, n, o);
    var m, h, d := Do(n, o).net, HostKey(o.spoke), HostKey(DeviceName(o.spoke, o.dummy));
    if k != d {
      if k in Print(n, o) {
        MacvtapInPrint(lans, n, m, o, k);
      } else {
        assert Same(n, m, k) && Above(n.links, k, h);
        assert LinkOk(lans, n.links, k);
        HostSpokeInPair(lans, n, o.lan, o.spoke);
        OldPairIs(lans, n, o.lan, o.spoke, k);
      }
    }
  }

  lemma MacvtapInPrint(lans: Lans, n: Net, m: Net, o: Op, k: Key)
    requires Fits(lans, n, o) && Inv(lans, m) && Ensured(n, m, o.lan, o.spoke, o.hostname, o.mode, o.dummy, {})
    requires k in Print(n, o) && k in m.links && m.links[k].kind.Macvtap?
    ensures k == HostKey(DeviceName(o.spoke, o.dummy))
  {
    hide NoClash, OldPair, Inv;
    HostKinds(lans, m, DUMMY_IF_NAME);
    BridgeKind(lans, m, o.lan);
    if k == LoKey(o.lan.ns) { LoKind(lans, m, o.lan.ns); }
  }

  lemma LoKind(lans: Lans, m: Net, lan: string)
    requires Inv(lans, m)
    ensures LoKey(lan) in m.links ==> m.links[LoKey(lan)].kind.Loopback?
  {
    if LoKey(lan) in m.links { assert LinkOk(lans, m.links, LoKey(lan)); }
  }

  lemma HostSpokeInPair(lans: Lans, n: Net, lan: LanSpec, spoke: string)
    requires Ctx(lans, lan, spoke) && Inv(lans, n)
    ensures HostKey(spoke) in n.links ==>
              PeerKey(lan, spoke) in n.links && n.links[PeerKey(lan, spoke)].kind == Veth(HostKey(spoke))
  {
    var h := HostKey(spoke);
    PeerNameStem(lans, lan, spoke);
    if h in n.links {
      assert LinkOk(lans, n.links, h);
      var q := n.links[h].kind.peer;
      assert q.name[..|q.name| - 1] == spoke;
      assert q.ns.name in lans && spoke in lans[q.ns.name].spokes;
    }
  }

  /**
   Ensure is idempotent: again succeeds, gives the same topology, and keeps the bridge itself.  It
   keeps the vxlan itself exactly if the group reads back from the kernel as the spec has it.
   */
  lemma EnsureIdempotent(lans: Lans, n: Net, o: Op)
    requires Fits(lans, n, o) && Do(n, o).Ok?
    ensures var m := Do(n, o).net;
            && Do(m, o).Ok?
            && Shape(Do(m, o).net) == Shape(m)
            && Same(m, Do(m, o).net, BridgeKey(o.lan))
            && VxKey(o.lan) in m.links && VxKey(o.lan) in Do(m, o).net.links
            && (Do(m, o).net.links[VxKey(o.lan)].index == m.links[VxKey(o.lan)].index <==> PlainGroup(o.lan.group))
  {
    hide *;
    var m := Do(n, o).net;
    AgainSucceeds(lans, n, o);
    var r := Do(m, o).net;
    forall k ensures SameShape(m, r, k) {
      AgainSameShape(lans, n, o, k);
    }
    ShapesEqual(m, r);
    AgainIdentity(lans, n, o);
  }

  lemma AgainSucceeds(lans: Lans, n: Net, o: Op)
    requires Fits(lans, n, o) && Do(n, o).Ok?
    ensures Fits(lans, Do(n, o).net, o) && Do(Do(n, o).net, o).Ok?
  {
    hide NoClash, Inv, Ensure, Footprint, OldPair, MacvtapMode, IsMulticast;
    DoEffect(lans, n, o);
    var m := Do(n, o).net;
    EnsureSucceedsIff(lans, n, o.spoke, o.lan, o.hostname, o.mode, o.dummy, {});
    EnsureSucceedsIff(lans, m, o.spoke, o.lan, o.hostname, o.mode, o.dummy, {});
    NeedSettled(lans, n, o.spoke, o.lan, o.hostname, o.mode, o.dummy, {});
    assert !WrongVx(n, o.lan, o.hostname, {}) ==> Same(n, m, VxKey(o.lan));
  }

  lemma AgainIdentity(lans: Lans, n: Net, o: Op)
    requires Fits(lans, n, o) && Do(n, o).Ok? && Do(Do(n, o).net, o).Ok?
    ensures var m := Do(n, o).net;
            var r := Do(m, o).net;
            && Same(m, r, BridgeKey(o.lan))
            && VxKey(o.lan) in m.links && VxKey(o.lan) in r.links
            && (r.links[VxKey(o.lan)].index == m.links[VxKey(o.lan)].index <==> PlainGroup(o.lan.group))
  {
    hide NoClash, Ensure, Footprint, OldPair;
    DoEffect(lans, n, o);
    var m := Do(n, o).net;
    DoEffect(lans, m, o);
    NeedSettled(lans, n, o.spoke, o.lan, o.hostname, o.mode, o.dummy, {});
    assert m.links[VxKey(o.lan)].index < m.next;
    hide Inv;
  }

  lemma AgainSameShape(lans: Lans, n: Net, o: Op, k: Key)
    requires Fits(lans, n, o) && Do(n, o).Ok? && Fits(lans, Do(n, o).net, o) && Do(Do(n, o).net, o).Ok?
    ensures SameShape(Do(n, o).net, Do(Do(n, o).net, o).net, k)
  {
    hide NoClash, Inv, Ensure, OldPair;
    DoEffect(lans, n, o);
    var m := Do(n, o).net;
    DoEffect(lans, m, o);
    var r := Do(m, o).net;
    var h, d := HostKey(o.spoke), HostKey(DeviceName(o.spoke, o.dummy));
    if k in OldPair(m, o.lan, o.spoke) - {PeerKey(o.lan, o.spoke), h, d} {
      OldPairIs(lans, m, o.lan, o.spoke, k);
      OnlyOwnMacvtap(lans, n, o, k);
    }
    if k == VxKey(o.lan) {
      NeedSettled(lans, n, o.spoke, o.lan, o.hostname, o.mode, o.dummy, {});
    }
    if k !in Print(m, o) {
      assert Same(m, r, k);
    }
  }
}
