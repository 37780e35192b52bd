/**
 The links of a host refine a set of attached spokes per LAN: each step of the system changes
 that set in the way its name promises, and nothing else of it.
 */
module Refinement {
  import opened Wrappers
  import opened Kernel
  import opened ApplySpec
  import opened Topology
  import opened TopologySteps
  import opened EnsureInv
  import opened Isolation
  import opened EnsureFrame
  import opened EnsureOutcome

  /** The attached spokes, each with its LAN. */
  function AttachedSet(lans: Lans, n: Net): set<(string, string)> {
    set m, s | m in lans && s in lans[m].spokes && Attached(n, lans[m], s) :: (m, s)
  }

  /** `m`'s attached spokes. */
  function SpokesOf(a: set<(string, string)>, m: string): set<(string, string)> {
    set x | x in a && x.0 == m
  }

  // ----- Ensure -----

  /** The pair of another spoke, and the macvtap above it, are outside the footprint. */
  lemma OtherSpokeApart(lans: Lans, n: Net, lan: LanSpec, spoke: string, dummy: bool, m: string, t: string)
    requires Ctx(lans, lan, spoke) && Inv(lans, n)
    requires m in lans && t in lans[m].spokes && (m, t) != (lan.ns, spoke)
    ensures PeerKey(lans[m], t) !in Footprint(n, lan, spoke, dummy)
    ensures PeerKey(lans[m], t) in n.links ==>
              var e := n.links[PeerKey(lans[m], t)].kind;
              e.Veth? && e.peer in n.links && e.peer !in Footprint(n, lan, spoke, dummy)
  {
    hide Inv, OldPair, NoClash;
    var p, q := PeerKey(lan, spoke), PeerKey(lans[m], t);
    OtherNames(lans, lan, spoke, dummy, m, t);
    PeerNamesDiffer(lan, spoke, m, t, lans[m]);
    if q in OldPair(n, lan, spoke) { OldPairApart(lans, n, lan, spoke, q); }
    if q in n.links {
      OtherEnd(lans, n, m, t);
      EndPlaced(lans, n, m, t);
      var e := n.links[q].kind.peer;
      OldPairIs(lans, n, lan, spoke, e);
      if e in OldPair(n, lan, spoke) {
        OldPairPeer(lans, n, lan, spoke);
      }
    }
  }

  lemma PeerNamesDiffer(lan: LanSpec, spoke: string, m: string, t: string, other: LanSpec)
    requires other.ns == m && (m, t) != (lan.ns, spoke)
    ensures PeerKey(other, t) != PeerKey(lan, spoke)
  {
    assert PeerName(t)[..|PeerName(t)| - 1] == t && PeerName(spoke)[..|PeerName(spoke)| - 1] == spoke;
  }

  lemma OtherNames(lans: Lans, lan: LanSpec, spoke: string, dummy: bool, m: string, t: string)
    requires Ctx(lans, lan, spoke)
    requires m in lans && t in lans[m].spokes && (m, t) != (lan.ns, spoke)
    ensures lans[m].ns == m && t != spoke && PeerName(t) != spoke && t != PeerName(spoke)
    ensures t != DeviceName(spoke, dummy) && t != DUMMY_IF_NAME
    ensures PeerName(t) != "lo" && (m == lan.ns ==> PeerName(t) != lan.bridge && PeerName(t) != lan.vxlan)
    ensures m == lan.ns ==> t != "lo" && t != lan.bridge && t != lan.vxlan
  {
    hide NoClash, AllSpokes, IsPeerName;
    SpokeInAll(lans, m, t);
    SpokeInAll(lans, lan.ns, spoke);
    TwoSpokes(lans, spoke, t);
    TwoSpokes(lans, t, spoke);
    if t == spoke { OneLan(lans, lan.ns, m, t); }
    PeerNameStem(lans, lans[m], t);
    SpokeName(lans, t);
    DeviceNameFacts(lans, spoke, dummy);
  }

  lemma SpokeInAll(lans: Lans, m: string, t: string)
    requires NoClash(lans) && m in lans && t in lans[m].spokes
    ensures t in AllSpokes(lans) && lans[m].ns == m
  {
  }

  lemma TwoSpokes(lans: Lans, s: string, t: string)
    requires NoClash(lans) && s in AllSpokes(lans) && t in AllSpokes(lans)
    ensures s != PeerName(t)
  {
    hide AllSpokes, OwnNamesApart, Reserved;
  }

  lemma OneLan(lans: Lans, m: string, l: string, t: string)
    requires NoClash(lans) && m in lans && l in lans && t in lans[l].spokes && t in lans[m].spokes
    ensures m == l
  {
  }

  lemma OtherEnd(lans: Lans, n: Net, m: string, t: string)
    requires NoClash(lans) && Inv(lans, n) && m in lans && t in lans[m].spokes && PeerKey(lans[m], t) in n.links
    ensures var q := PeerKey(lans[m], t);
            && n.links[q].kind.Veth? && n.links[q].kind.peer in n.links
            && n.links[n.links[q].kind.peer].kind == Veth(q)
  {
    PeerNameStem(lans, lans[m], t);
    assert LinkOk(lans, n.links, PeerKey(lans[m], t));
  }

  lemma EndPlaced(lans: Lans, n: Net, m: string, t: string)
    requires NoClash(lans) && Inv(lans, n) && m in lans && t in lans[m].spokes && PeerKey(lans[m], t) in n.links
    requires n.links[PeerKey(lans[m], t)].kind.Veth?
    ensures SpokePlace(lans[m], t, n.links[PeerKey(lans[m], t)].kind.peer)
  {
    PeerNameStem(lans, lans[m], t);
    assert LinkOk(lans, n.links, PeerKey(lans[m], t));
  }

  lemma OldPairPeer(lans: Lans, n: Net, lan: LanSpec, spoke: string)
    requires Ctx(lans, lan, spoke) && Inv(lans, n) && PeerKey(lan, spoke) in n.links
    ensures var p := PeerKey(lan, spoke);
            n.links[p].kind.Veth? && n.links[p].kind.peer in n.links && n.links[n.links[p].kind.peer].kind == Veth(p)
  {
    OtherEnd(lans, n, lan.ns, spoke);
  }

  lemma AttachedStays(lans: Lans, n: Net, r: Net, lan: LanSpec, spoke: string, dummy: bool, m: string, t: string)
    requires Ctx(lans, lan, spoke) && Inv(lans, n) && AgreeOff(n, r, Footprint(n, lan, spoke, dummy))
    requires m in lans && t in lans[m].spokes && (m, t) != (lan.ns, spoke)
    ensures Attached(n, lans[m], t) <==> Attached(r, lans[m], t)
    ensures Same(n, r, PeerKey(lans[m], t))
    ensures Attached(n, lans[m], t) ==> Same(n, r, SpokeEnd(n, lans[m], t))
  {
    hide Inv, Footprint;
    OtherSpokeApart(lans, n, lan, spoke, dummy, m, t);
    assert Same(n, r, PeerKey(lans[m], t));
  }

  /**
   Ensure inserts its spoke, and neither adds nor drops any other: on success exactly that, and
   on failure at most the spoke it was about is affected.
   */
  lemma EnsureInserts(lans: Lans, n: Net, spoke: string, lan: LanSpec, hostname: string, mode: string, dummy: bool,
                      faults: set<Call>)
    requires Ctx(lans, lan, spoke) && Inv(lans, n) && (NsOpen in faults ==> !IsMounted(n, lan.ns))
    ensures var r := Ensure(n, DeviceName(spoke, dummy), spoke, lan, hostname, mode, dummy, faults);
            var a, b := AttachedSet(lans, n), AttachedSet(lans, r.net);
            && b - {(lan.ns, spoke)} == a - {(lan.ns, spoke)}
            && (r.Ok? ==> b == a + {(lan.ns, spoke)} && SpokeEnd(r.net, lan, spoke) == HostKey(spoke))
  {
    hide Inv, NoClash, Ensure, Footprint;
    EnsureEffect(lans, n, spoke, lan, hostname, mode, dummy, faults);
    var r := Ensure(n, DeviceName(spoke, dummy), spoke, lan, hostname, mode, dummy, faults);
    var a, b := AttachedSet(lans, n), AttachedSet(lans, r.net);
    forall m, t | m in lans && t in lans[m].spokes && (m, t) != (lan.ns, spoke)
      ensures (m, t) in a <==> (m, t) in b
    {
      AttachedStays(lans, n, r.net, lan, spoke, dummy, m, t);
    }
    hide Attached;
    forall x ensures x in b - {(lan.ns, spoke)} <==> x in a - {(lan.ns, spoke)} {
      assert x in a + b ==> x == (x.0, x.1);
    }
  }

  /** A failed open of the mounted namespace acts as a Remove followed by the same Ensure. */
  lemma LostNamespace(n: Net, mac: string, spoke: string, lan: LanSpec, hostname: string, mode: string, dummy: bool,
                      faults: set<Call>)
    requires NsOpen in faults && IsMounted(n, lan.ns)
    ensures Ensure(n, mac, spoke, lan, hostname, mode, dummy, faults)
            == Ensure(Remove(n, lan.ns, faults - {NsUnmount}), mac, spoke, lan, hostname, mode, dummy, faults)
  {
    hide Epilogue, DestroyNs;
    var m := Remove(n, lan.ns, faults - {NsUnmount});
    assert EnsureNs(n, lan.ns, faults) == EnsureNs(m, lan.ns, faults);
    assert Prologue(n, lan, hostname, faults) == Prologue(m, lan, hostname, faults);
  }

  // ----- Remove -----

  /** Destroying a LAN namespace deletes exactly the links that belong to the LAN, wherever they are. */
  lemma RemoveIsExact(lans: Lans, n: Net, m: string, faults: set<Call>)
    requires NoClash(lans) && Inv(lans, n) && IsMounted(n, m) && NsUnmount !in faults
    ensures Remove(n, m, faults).links == map k | k in n.links && Home(n.links, k) != Some(m) :: n.links[k]
  {
    hide NoClash, Inv, Home, Doomed, KeysIn, Unslave;
    var roots := KeysIn(n.links, Lan(m));
    var r := Remove(n, m, faults);
    forall k | k in n.links
      ensures k in Doomed(n.links, roots) <==> Home(n.links, k) == Some(m)
      ensures Home(n.links, k) != Some(m) ==> Unslave(n.links[k], Doomed(n.links, roots)) == n.links[k]
    {
      RemovedOne(lans, n, m, k);
    }
  }

  lemma RemovedOne(lans: Lans, n: Net, m: string, k: Key)
    requires NoClash(lans) && Inv(lans, n) && k in n.links
    ensures var gone := Doomed(n.links, KeysIn(n.links, Lan(m)));
            && (k in gone <==> Home(n.links, k) == Some(m))
            && (Home(n.links, k) != Some(m) ==> Unslave(n.links[k], gone) == n.links[k])
  {
    hide NoClash, Inv, LinkOk;
    var l := n.links[k];
    HomeFacts(lans, n, k);
    if l.kind.Macvtap? {
      HomeFacts(lans, n, l.kind.lower);
    }
  }

  /** Both ends of a pair belong to one LAN; a master is in its port's namespace. */
  lemma HomeFacts(lans: Lans, n: Net, k: Key)
    requires NoClash(lans) && Inv(lans, n) && k in n.links
    ensures n.links[k].kind.Veth? ==>
              n.links[k].kind.peer in n.links
              && (k.ns.Lan? && n.links[k].kind.peer.ns.Lan? ==> k.ns == n.links[k].kind.peer.ns)
    ensures n.links[k].kind.Macvtap? ==>
              !k.ns.Lan? && n.links[k].kind.lower in n.links && !n.links[n.links[k].kind.lower].kind.Macvtap?
    ensures n.links[k].master.Some? ==>
              n.links[k].master.value.ns == k.ns && n.links[k].master.value in n.links
              && n.links[n.links[k].master.value].kind.Bridge?
  {
    assert LinkOk(lans, n.links, k);
    if n.links[k].kind.Veth? && k.ns.Lan? { LanVeth(lans, n, k); }
  }

  lemma LanVeth(lans: Lans, n: Net, k: Key)
    requires NoClash(lans) && Inv(lans, n) && k in n.links && k.ns.Lan? && n.links[k].kind.Veth?
    ensures n.links[k].kind.peer.ns.Lan? ==> n.links[k].kind.peer.ns == k.ns
  {
    assert LinkOk(lans, n.links, k);
  }

  /** Remove empties exactly that LAN; every other LAN's spokes stay attached where they are. */
  lemma RemoveEmpties(lans: Lans, n: Net, m: string, faults: set<Call>)
    requires NoClash(lans) && Inv(lans, n) && IsMounted(n, m) && NsUnmount !in faults
    ensures var a, b := AttachedSet(lans, n), AttachedSet(lans, Remove(n, m, faults));
            b == a - SpokesOf(a, m)
  {
    hide Attached, Home, Remove, Inv, NoClash;
    RemoveIsExact(lans, n, m, faults);
    var r := Remove(n, m, faults);
    var a, b := AttachedSet(lans, n), AttachedSet(lans, r);
    forall l, t | l in lans && t in lans[l].spokes ensures (l, t) in b <==> (l, t) in a && l != m {
      RemovedSpoke(lans, n, r, m, l, t);
    }
    forall x ensures x in b <==> x in a - SpokesOf(a, m) {
      assert x in a + b ==> x == (x.0, x.1);
    }
  }

  lemma RemovedSpoke(lans: Lans, n: Net, r: Net, m: string, l: string, t: string)
    requires NoClash(lans) && Inv(lans, n) && l in lans && t in lans[l].spokes
    requires r.links == map k | k in n.links && Home(n.links, k) != Some(m) :: n.links[k]
    ensures Attached(r, lans[l], t) <==> Attached(n, lans[l], t) && l != m
  {
    var q := PeerKey(lans[l], t);
    SpokeInAll(lans, l, t);
    hide NoClash;
    if q in n.links {
      OtherEnd(lans, n, l, t);
      assert Home(n.links, q) == Some(l);
    }
    hide Inv, Home;
  }

  // ----- the CNI move -----

  /** The move, with or without the rename after it, detaches and attaches nothing. */
  lemma MoveStutters(lans: Lans, n: Net, k: Key, to: Key)
    requires NoClash(lans) && Inv(lans, n) && MoveAllowed(lans, n, k, to) && !k.ns.Lan?
    ensures AttachedSet(lans, Move(n, k, to).value) == AttachedSet(lans, n)
    ensures forall m, t :: m in lans && t in lans[m].spokes && Attached(n, lans[m], t) ==>
              Attached(Move(n, k, to).value, lans[m], t)
              && SpokeEnd(Move(n, k, to).value, lans[m], t) == Renamed(SpokeEnd(n, lans[m], t), k, to)
  {
    var r := Move(n, k, to).value;
    forall m, t | m in lans && t in lans[m].spokes
      ensures Attached(n, lans[m], t) <==> Attached(r, lans[m], t)
      ensures Attached(n, lans[m], t) ==> SpokeEnd(r, lans[m], t) == Renamed(SpokeEnd(n, lans[m], t), k, to)
    {
      hide Inv;
      MoveOne(lans, n, k, to, m, t);
    }
    hide Attached, Move, MoveAllowed, Inv;
    var a, b := AttachedSet(lans, n), AttachedSet(lans, r);
    forall x ensures x in a <==> x in b {
      assert x in a + b ==> x == (x.0, x.1);
    }
  }

  lemma MoveOne(lans: Lans, n: Net, k: Key, to: Key, m: string, t: string)
    requires NoClash(lans) && MoveAllowed(lans, n, k, to) && !k.ns.Lan? && m in lans && lans[m].ns == m
    ensures var r := Move(n, k, to).value;
            && (Attached(n, lans[m], t) <==> Attached(r, lans[m], t))
            && (Attached(n, lans[m], t) ==> SpokeEnd(r, lans[m], t) == Renamed(SpokeEnd(n, lans[m], t), k, to))
  {
    hide NoClash;
    var q := PeerKey(lans[m], t);
    assert q != k && q != to;
  }

  lemma CniAddStutters(lans: Lans, n: Net, spoke: string, pod: nat, ifname: string)
    requires NoClash(lans) && Inv(lans, n)
    ensures var r := CniAdd(n, spoke, pod, ifname);
            && AttachedSet(lans, r.net) == AttachedSet(lans, n)
            && (r.Ok? ==> forall m :: m in lans && spoke in lans[m].spokes && Attached(n, lans[m], spoke)
                                      && SpokeEnd(n, lans[m], spoke) == HostKey(spoke) ==>
                            Attached(r.net, lans[m], spoke) && SpokeEnd(r.net, lans[m], spoke) == Key(Pod(pod), ifname))
  {
    hide NoClash, Attached, Move, AttachedSet, MoveAllowed;
    var k, moved, fin := HostKey(spoke), Key(Pod(pod), spoke), Key(Pod(pod), ifname);
    if k in n.links && Move(n, k, moved).Some? {
      PodMove(lans, n, k, moved);
      MoveStutters(lans, n, k, moved);
      MoveKeepsInv(lans, n, k, moved);
      var m := Move(n, k, moved).value;
      if ifname != spoke && Move(m, moved, fin).Some? {
        MoveGives(n, k, moved);
        PodMove(lans, m, moved, fin);
        MoveStutters(lans, m, moved, fin);
      }
    }
    hide Inv;
  }

  lemma PodMove(lans: Lans, n: Net, k: Key, to: Key)
    requires Inv(lans, n) && k in n.links && !k.ns.Lan? && to.ns.Pod? && Move(n, k, to).Some?
    ensures MoveAllowed(lans, n, k, to)
  {
    assert LinkOk(lans, n.links, k);
  }

  lemma MoveGives(n: Net, k: Key, to: Key)
    requires Move(n, k, to).Some?
    ensures to in Move(n, k, to).value.links
  {
  }

  // ----- a pod goes away -----

  /** Tearing down a pod detaches exactly the spokes whose end it held. */
  lemma TeardownDetaches(lans: Lans, n: Net, pod: nat)
    requires NoClash(lans) && Inv(lans, n)
    ensures AttachedSet(lans, DestroyNs(n, Pod(pod)))
            == set x | x in AttachedSet(lans, n) && SpokeEnd(n, lans[x.0], x.1).ns != Pod(pod)
  {
    var r := DestroyNs(n, Pod(pod));
    var a, b := AttachedSet(lans, n), AttachedSet(lans, r);
    forall m, t | m in lans && t in lans[m].spokes
      ensures (m, t) in b <==> (m, t) in a && SpokeEnd(n, lans[m], t).ns != Pod(pod)
    {
      TeardownOne(lans, n, pod, m, t);
    }
    hide Attached, DestroyNs;
    forall x ensures x in b <==> x in a && SpokeEnd(n, lans[x.0], x.1).ns != Pod(pod) {
      assert x in a + b ==> x == (x.0, x.1);
    }
  }

  lemma TeardownOne(lans: Lans, n: Net, pod: nat, m: string, t: string)
    requires NoClash(lans) && Inv(lans, n) && m in lans && t in lans[m].spokes
    ensures Attached(DestroyNs(n, Pod(pod)), lans[m], t)
            <==> Attached(n, lans[m], t) && SpokeEnd(n, lans[m], t).ns != Pod(pod)
  {
    var q := PeerKey(lans[m], t);
    if q in n.links {
      OtherEnd(lans, n, m, t);
      MasterStays(lans, n, pod, q);
    }
    hide Inv, NoClash;
  }

  lemma MasterStays(lans: Lans, n: Net, pod: nat, q: Key)
    requires Inv(lans, n) && q in n.links && q.ns.Lan? && n.links[q].kind.Veth?
    ensures var gone := Doomed(n.links, KeysIn(n.links, Pod(pod)));
            && (q in gone <==> n.links[q].kind.peer.ns == Pod(pod))
            && Unslave(n.links[q], gone) == n.links[q]
  {
    assert LinkOk(lans, n.links, q);
    if n.links[q].master.Some? { assert LinkOk(lans, n.links, n.links[q].master.value); }
  }
}
