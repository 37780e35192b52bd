/** Ensures of two different spokes give the same topology in either order. */
module EnsureCommute {
  import opened Wrappers
  import opened Kernel
  import opened ApplySpec
  import opened Topology
  import opened TopologySteps
  import opened EnsureInv
  import opened EnsureFrame
  import opened EnsureOutcome
  import opened Refinement
  import opened Guarantees
  import opened EnsureTwice

  ghost predicate TwoOps(lans: Lans, n: Net, o: Op, q: Op) {
    && Fits(lans, n, o) && Fits(lans, n, q)
    && o.hostname == q.hostname && (o.lan.ns, o.spoke) != (q.lan.ns, q.spoke)
    && Do(n, o).Ok?
  }

  function PKey(o: Op): Key { PeerKey(o.lan, o.spoke) }
  function HKey(o: Op): Key { HostKey(o.spoke) }
  function DKey(o: Op): Key { HostKey(DeviceName(o.spoke, o.dummy)) }
  function Pair(n: Net, o: Op): set<Key> { OldPair(n, o.lan, o.spoke) }

  /** The links of one spoke, made by any Ensure for it. */
  function Own(o: Op): set<Key> {
    {PKey(o), HKey(o), DKey(o), NewSpokeKey(o.lan, o.spoke)}
  }

  /** The links an Ensure shares with other spokes. */
  function Shared(o: Op): set<Key> {
    {LoKey(o.lan.ns), BridgeKey(o.lan), VxKey(o.lan), HostKey(DUMMY_IF_NAME)}
  }

  lemma PrintParts(n: Net, o: Op)
    ensures Print(n, o) == Own(o) + Shared(o) + Pair(n, o)
  {
    hide OldPair;
  }

  lemma NamesApart(lans: Lans, n: Net, o: Op, q: Op)
    requires Fits(lans, n, o) && Fits(lans, n, q) && (o.lan.ns, o.spoke) != (q.lan.ns, q.spoke)
    ensures Own(o) !! Own(q) && Own(o) !! Shared(q)
  {
    hide Inv, NoClash, AllSpokes, IsDeviceName, IsPeerName;
    OtherNames(lans, o.lan, o.spoke, o.dummy, q.lan.ns, q.spoke);
    OtherNames(lans, q.lan, q.spoke, q.dummy, o.lan.ns, o.spoke);
    PeerNamesDiffer(o.lan, o.spoke, q.lan.ns, q.spoke, q.lan);
    DeviceNamesDiffer(o, q);
    PeerNameStem(lans, o.lan, o.spoke);
    DeviceNameFacts(lans, o.spoke, o.dummy);
    SpokeName(lans, o.spoke);
  }

  lemma DeviceNamesDiffer(o: Op, q: Op)
    requires o.spoke != q.spoke
    ensures DKey(o) != DKey(q)
  {
    var a, b := DeviceName(o.spoke, o.dummy), DeviceName(q.spoke, q.dummy);
    assert a[..|a| - 2] == o.spoke && b[..|b| - 2] == q.spoke;
  }

  /** The old pair of one spoke is not touched by an Ensure of another, but for a macvtap with its name. */
  lemma PairKept(lans: Lans, n: Net, o: Op, q: Op, k: Key)
    requires TwoOps(lans, n, o, q) && k != DKey(o)
    ensures k in Pair(Do(n, o).net, q) <==> k in Pair(n, q)
    ensures k in Pair(n, q) ==> k !in Print(n, o)
  {
    hide NoClash, Inv, OldPair, Do, Footprint;
    var a, p := Do(n, o).net, PKey(q);
    DoEffect(lans, n, o);
    OldPairIs(lans, n, q.lan, q.spoke, k);
    OldPairIs(lans, a, q.lan, q.spoke, k);
    OtherSpokeApart(lans, n, o.lan, o.spoke, o.dummy, q.lan.ns, q.spoke);
    assert Same(n, a, p);
    if p in n.links {
      var e := n.links[p].kind.peer;
      assert Same(n, a, e);
      if Above(a.links, k, e) && k in Print(n, o) { MacvtapInPrint(lans, n, a, o, k); }
      if Above(n.links, k, e) && k in Print(n, o) { AboveOther(lans, n, o, q, k); }
      if k !in Print(n, o) { assert Same(n, a, k); }
    }
  }

  lemma AboveOther(lans: Lans, n: Net, o: Op, q: Op, k: Key)
    requires TwoOps(lans, n, o, q) && k in Print(n, o)
    requires PKey(q) in n.links && n.links[PKey(q)].kind.Veth? && Above(n.links, k, n.links[PKey(q)].kind.peer)
    ensures k == DKey(o)
  {
    hide NoClash, OldPair, Inv, Footprint;
    PrintParts(n, o);
    if k in Own(o) + Shared(o) { NotMacvtaps(lans, n, o, k); }
    if k in Pair(n, o) {
      OldPairIs(lans, n, o.lan, o.spoke, k);
      PeerNamesDiffer(o.lan, o.spoke, q.lan.ns, q.spoke, q.lan);
      OtherEnd(lans, n, q.lan.ns, q.spoke);
      OtherEnd(lans, n, o.lan.ns, o.spoke);
    }
  }

  lemma NotMacvtaps(lans: Lans, n: Net, o: Op, k: Key)
    requires Fits(lans, n, o) && k in n.links && n.links[k].kind.Macvtap? && k in Own(o) + Shared(o)
    ensures k == DKey(o)
  {
    hide Inv, NoClash, IsDeviceName;
    PeerNameStem(lans, o.lan, o.spoke);
    if k.ns.Lan? { LanNoMacvtap(lans, n, k); }
    HostKinds(lans, n, o.spoke);
    HostKinds(lans, n, DUMMY_IF_NAME);
  }

  lemma LanNoMacvtap(lans: Lans, n: Net, k: Key)
    requires Inv(lans, n) && k in n.links && k.ns.Lan?
    ensures !n.links[k].kind.Macvtap?
  {
    assert LinkOk(lans, n.links, k);
  }

  /** What an Ensure makes for its spoke is left alone by an Ensure for another. */
  lemma OwnKept(lans: Lans, n: Net, o: Op, q: Op, k: Key)
    requires TwoOps(lans, n, o, q) && k in Own(o)
    ensures k !in Print(Do(n, o).net, q)
  {
    hide NoClash, Inv, OldPair, Do, Footprint;
    var a := Do(n, o).net;
    DoEffect(lans, n, o);
    NamesApart(lans, a, o, q);
    PrintParts(a, q);
    HostKinds(lans, a, DUMMY_IF_NAME);
    if k in Pair(a, q) {
      OldPairIs(lans, a, q.lan, q.spoke, k);
      PeerNamesDiffer(q.lan, q.spoke, o.lan.ns, o.spoke, o.lan);
      OtherEnd(lans, a, q.lan.ns, q.spoke);
      OtherEnd(lans, a, o.lan.ns, o.spoke);
    }
  }

  /** The loopback and bridge that a sequence of Ensures leaves, and the dummy device. */
  function BaseShape(n: Net, o: Op, dummy: bool, k: Key): Option<Link> {
    if k in n.links then Some(n.links[k].(index := 0, up := n.links[k].up || k == LoKey(o.lan.ns)))
    else if k == LoKey(o.lan.ns) then Some(Link(0, Loopback, true, None, 0))
    else if k == BridgeKey(o.lan) then Some(Link(0, Bridge, true, None, 0))
    else if k == HostKey(DUMMY_IF_NAME) && dummy then Some(Link(0, Dummy, false, None, 0))
    else None
  }

  function ShapeAt(n: Net, k: Key): Option<Link> {
    if k in n.links then Some(n.links[k].(index := 0)) else None
  }

  lemma BaseAfter(lans: Lans, n: Net, o: Op, k: Key)
    requires Fits(lans, n, o) && Do(n, o).Ok? && k in Shared(o) && k != VxKey(o.lan)
    ensures ShapeAt(Do(n, o).net, k) == BaseShape(n, o, o.dummy, k)
  {
    hide NoClash, Inv, OldPair, Do, Footprint;
    DoEffect(lans, n, o);
    BaseNamesApart(lans, o.lan);
  }

  /** A shared link of `o` after `o` and then `q` is what it is after `q` and then `o`. */
  lemma SharedSame(lans: Lans, n: Net, o: Op, q: Op, k: Key)
    requires TwoOps(lans, n, o, q) && TwoOps(lans, n, q, o) && k in Shared(o)
    requires Do(Do(n, o).net, q).Ok? && Do(Do(n, q).net, o).Ok?
    ensures SameShape(Do(Do(n, o).net, q).net, Do(Do(n, q).net, o).net, k)
  {
    if k == VxKey(o.lan) { VxSame(lans, n, o, q); } else { BaseSame(lans, n, o, q, k); }
    hide *;
  }

  lemma BaseSame(lans: Lans, n: Net, o: Op, q: Op, k: Key)
    requires TwoOps(lans, n, o, q) && TwoOps(lans, n, q, o) && k in Shared(o) && k != VxKey(o.lan)
    requires Do(Do(n, o).net, q).Ok? && Do(Do(n, q).net, o).Ok?
    ensures SameShape(Do(Do(n, o).net, q).net, Do(Do(n, q).net, o).net, k)
  {
    hide NoClash, Inv, OldPair, Do, Footprint, Ensured, VxAfter, SpokeAfter, OldGone, DummyAfter;
    var a, c := Do(n, o).net, Do(n, q).net;
    DoEffect(lans, n, o);
    DoEffect(lans, n, q);
    var b, d := Do(a, q).net, Do(c, o).net;
    DoEffect(lans, a, q);
    DoEffect(lans, c, o);
    BaseAfter(lans, n, o, k);
    BaseAfter(lans, c, o, k);
    if k in Shared(q) {
      BaseAfter(lans, n, q, k);
      BaseAfter(lans, a, q, k);
    } else {
      SharedApart(lans, n, o, q, k);
      SharedApart(lans, a, o, q, k);
      assert Same(n, c, k) && Same(a, b, k);
    }
    assert ShapeAt(b, k) == ShapeAt(d, k);
  }

  lemma SharedApart(lans: Lans, n: Net, o: Op, q: Op, k: Key)
    requires Fits(lans, n, o) && Fits(lans, n, q) && (o.lan.ns, o.spoke) != (q.lan.ns, q.spoke)
    requires k in Shared(o) && k !in Shared(q)
    ensures k !in Print(n, q)
  {
    hide NoClash, Inv, OldPair, Footprint;
    NamesApart(lans, n, q, o);
    PrintParts(n, q);
    BaseNamesApart(lans, o.lan);
    if k in Pair(n, q) {
      OldPairApart(lans, n, q.lan, q.spoke, k);
      PeerNameStem(lans, q.lan, q.spoke);
    }
  }

  lemma VxSame(lans: Lans, n: Net, o: Op, q: Op)
    requires TwoOps(lans, n, o, q) && TwoOps(lans, n, q, o)
    requires Do(Do(n, o).net, q).Ok? && Do(Do(n, q).net, o).Ok?
    ensures SameShape(Do(Do(n, o).net, q).net, Do(Do(n, q).net, o).net, VxKey(o.lan))
  {
    hide NoClash, Inv, OldPair, Do, Footprint;
    var a, c, v := Do(n, o).net, Do(n, q).net, VxKey(o.lan);
    DoEffect(lans, n, o);
    DoEffect(lans, n, q);
    DoEffect(lans, a, q);
    DoEffect(lans, c, o);
    DevApart(lans, n, q.lan, q.spoke, o.hostname, q.dummy, o.lan);
    assert Same(n, c, DevKey(o));
    if o.lan.ns == q.lan.ns {
      SettledOp(lans, n, o);
      SettledOp(lans, n, q);
    } else {
      assert v !in Shared(q);
      SharedApart(lans, n, o, q, v);
      SharedApart(lans, a, o, q, v);
      assert Same(n, c, v) && Same(a, Do(a, q).net, v);
    }
  }

  lemma SettledOp(lans: Lans, n: Net, o: Op)
    requires Fits(lans, n, o) && Do(n, o).Ok?
    ensures WrongVx(Do(n, o).net, o.lan, o.hostname, {}) <==> !PlainGroup(o.lan.group)
    ensures !WrongVx(n, o.lan, o.hostname, {}) ==> PlainGroup(o.lan.group)
  {
    hide NoClash, Inv, OldPair, Ensure, Footprint;
    NeedSettled(lans, n, o.spoke, o.lan, o.hostname, o.mode, o.dummy, {});
    DoEffect(lans, n, o);
    assert !WrongVx(n, o.lan, o.hostname, {}) ==> Same(n, Do(n, o).net, VxKey(o.lan));
  }

  lemma SecondSucceeds(lans: Lans, n: Net, o: Op, q: Op)
    requires TwoOps(lans, n, o, q) && Do(n, q).Ok?
    ensures Fits(lans, Do(n, o).net, q) && Do(Do(n, o).net, q).Ok?
  {
    hide NoClash, Inv, OldPair, Ensure, Footprint, MacvtapMode, IsMulticast;
    DoEffect(lans, n, o);
    var a := Do(n, o).net;
    DevApart(lans, n, o.lan, o.spoke, o.hostname, o.dummy, q.lan);
    assert Same(n, a, DevKey(q));
    EnsureSucceedsIff(lans, n, q.spoke, q.lan, q.hostname, q.mode, q.dummy, {});
    EnsureSucceedsIff(lans, n, o.spoke, o.lan, o.hostname, o.mode, o.dummy, {});
    EnsureSucceedsIff(lans, a, q.spoke, q.lan, q.hostname, q.mode, q.dummy, {});
    if o.lan.ns == q.lan.ns {
      SettledOp(lans, n, o);
    } else {
      assert VxKey(q.lan) in Shared(q) && VxKey(q.lan) !in Shared(o);
      SharedApart(lans, n, q, o, VxKey(q.lan));
      assert Same(n, a, VxKey(q.lan));
    }
  }

  /** A link that belongs to `o`'s spoke, before or after, in both orders. */
  lemma OwnSame(lans: Lans, n: Net, o: Op, q: Op, k: Key)
    requires TwoOps(lans, n, o, q) && TwoOps(lans, n, q, o) && k in Own(o) + Pair(n, o) && k !in Own(q)
    requires Do(Do(n, o).net, q).Ok? && Do(Do(n, q).net, o).Ok?
    ensures SameShape(Do(Do(n, o).net, q).net, Do(Do(n, q).net, o).net, k)
  {
    hide NoClash, Inv, OldPair, Do, Footprint;
    var a, c := Do(n, o).net, Do(n, q).net;
    DoEffect(lans, n, o);
    DoEffect(lans, n, q);
    DoEffect(lans, a, q);
    DoEffect(lans, c, o);
    var b, d := Do(a, q).net, Do(c, o).net;
    if k in Own(o) {
      OwnKept(lans, n, o, q, k);
      assert Same(a, b, k);
    } else {
      // gone after o in either order, and not remade by q
      PairKept(lans, n, q, o, k);
      assert k !in a.links && k !in d.links;
      NotRemade(lans, n, o, q, k);
    }
  }

  lemma NotRemade(lans: Lans, n: Net, o: Op, q: Op, k: Key)
    requires TwoOps(lans, n, o, q) && k in Pair(n, o) && k !in Own(o) && k !in Own(q)
    requires Do(Do(n, o).net, q).Ok? && k !in Do(n, o).net.links
    ensures k !in Do(Do(n, o).net, q).net.links
  {
    hide NoClash, Inv, OldPair, Do, Footprint;
    var a := Do(n, o).net;
    DoEffect(lans, n, o);
    DoEffect(lans, a, q);
    PrintParts(a, q);
    PairMember(lans, n, o, k);
    if k in Pair(a, q) { OldPairIs(lans, a, q.lan, q.spoke, k); }
    if k !in Print(a, q) { assert Same(a, Do(a, q).net, k); }
  }

  /** A link of the old pair that is not one of the names Ensure gives is in a pod, or a macvtap. */
  lemma PairMember(lans: Lans, n: Net, o: Op, k: Key)
    requires Fits(lans, n, o) && k in Pair(n, o) && k !in Own(o)
    ensures !k.ns.Lan? && k != HostKey(DUMMY_IF_NAME)
  {
    hide NoClash, Inv, OldPair;
    OldPairApart(lans, n, o.lan, o.spoke, k);
    OldPairIs(lans, n, o.lan, o.spoke, k);
    HostKinds(lans, n, DUMMY_IF_NAME);
  }

  lemma OrderSame(lans: Lans, n: Net, o: Op, q: Op, k: Key)
    requires TwoOps(lans, n, o, q) && TwoOps(lans, n, q, o)
    requires Do(Do(n, o).net, q).Ok? && Do(Do(n, q).net, o).Ok?
    ensures SameShape(Do(Do(n, o).net, q).net, Do(Do(n, q).net, o).net, k)
  {
    hide NoClash, Inv, OldPair, Do, Footprint;
    NamesApart(lans, n, o, q);
    if k in Shared(o) {
      SharedSame(lans, n, o, q, k);
    } else if k in Shared(q) {
      SharedSame(lans, n, q, o, k);
    } else if k in Own(o) || (k in Pair(n, o) && k !in Own(q)) {
      OwnSame(lans, n, o, q, k);
    } else if k in Own(q) || k in Pair(n, q) {
      OwnSame(lans, n, q, o, k);
    } else {
      Untouched(lans, n, o, q, k);
      Untouched(lans, n, q, o, k);
    }
  }

  lemma Untouched(lans: Lans, n: Net, o: Op, q: Op, k: Key)
    requires TwoOps(lans, n, o, q) && Do(Do(n, o).net, q).Ok?
    requires k !in Own(o) + Shared(o) + Pair(n, o) + Own(q) + Shared(q) + Pair(n, q)
    ensures Same(n, Do(Do(n, o).net, q).net, k)
  {
    hide NoClash, Inv, OldPair, Do, Footprint;
    var a := Do(n, o).net;
    DoEffect(lans, n, o);
    DoEffect(lans, a, q);
    PrintParts(n, o);
    PrintParts(a, q);
    PairKept(lans, n, o, q, k);
    assert Same(n, a, k) && Same(a, Do(a, q).net, k);
  }

  /** Two Ensures that succeed, for different spokes of any LANs, succeed and agree in either order. */
  lemma EnsuresCommute(lans: Lans, n: Net, o: Op, q: Op)
    requires TwoOps(lans, n, o, q) && Do(n, q).Ok?
    ensures Do(Do(n, o).net, q).Ok? && Do(Do(n, q).net, o).Ok?
    ensures Shape(Do(Do(n, o).net, q).net) == Shape(Do(Do(n, q).net, o).net)
  {
    SecondSucceeds(lans, n, o, q);
    SecondSucceeds(lans, n, q, o);
    hide NoClash, Inv, Do, Shape;
    forall k ensures SameShape(Do(Do(n, o).net, q).net, Do(Do(n, q).net, o).net, k) {
      OrderSame(lans, n, o, q, k);
    }
    ShapesEqual(Do(Do(n, o).net, q).net, Do(Do(n, q).net, o).net);
  }
}
