/**
 The attached spokes of a host, each with where its end is and whether it is up, and what every step of the
 system does to them.
 */
module Ends {
  import opened Wrappers
  import opened Kernel
  import opened ApplySpec
  import opened Topology
  import opened TopologySteps
  import opened EnsureInv
  import opened EnsureFrame
  import opened EnsureOutcome
  import opened Isolation
  import opened Refinement
  import opened Stages

  datatype End = End(at: Key, up: bool)

  type View = map<(string, string), End>

  function EndsOf(lans: Lans, n: Net): View {
    map x | x in AttachedSet(lans, n) :: EndAt(lans, n, x)
  }

  function EndAt(lans: Lans, n: Net, x: (string, string)): End
    requires x in AttachedSet(lans, n)
  {
    End(SpokeEnd(n, lans[x.0], x.1), EndUp(n, lans[x.0], x.1))
  }

  /** The end that is at `k` is moved, which takes it down. */
  function Relocated(a: View, k: Key, to: Key): View {
    map x | x in a :: if a[x].at == k then End(to, false) else a[x]
  }

  function Without(a: View, m: string): View {
    map x | x in a && x.0 != m :: a[x]
  }

  function OutOfPod(a: View, pod: nat): View {
    map x | x in a && a[x].at.ns != Pod(pod) :: a[x]
  }

  /** The end that is at `k` is brought up. */
  function Raised(a: View, k: Key): View {
    map x | x in a :: if a[x].at == k then End(k, true) else a[x]
  }

  /** What an Ensure that got as far as `stage` does to its spoke. */
  function Tried(a: View, x: (string, string), stage: Stage, faults: set<Call>): View {
    match stage
    case NotTried => a
    case PairFailed => if DelPeer in faults then a else a - {x}
    case LeftDown => a[x := End(HostKey(x.1), false)]
    case BroughtUp => a[x := End(HostKey(x.1), true)]
  }

  lemma EndOf(lans: Lans, n: Net, m: string, t: string)
    ensures (m, t) in EndsOf(lans, n) <==> m in lans && t in lans[m].spokes && Attached(n, lans[m], t)
    ensures (m, t) in EndsOf(lans, n) ==>
              EndsOf(lans, n)[(m, t)] == End(SpokeEnd(n, lans[m], t), EndUp(n, lans[m], t))
  {
    hide Attached, SpokeEnd, EndUp;
  }

  lemma EndInLinks(lans: Lans, n: Net, x: (string, string))
    requires NoClash(lans) && Inv(lans, n) && x in EndsOf(lans, n)
    ensures EndsOf(lans, n)[x].at in n.links
    ensures n.links[EndsOf(lans, n)[x].at].kind == Veth(PeerKey(lans[x.0], x.1))
    ensures !EndsOf(lans, n)[x].at.ns.Lan?
  {
    EndOf(lans, n, x.0, x.1);
    hide NoClash, Inv;
    OtherEnd(lans, n, x.0, x.1);
  }

  // ----- attached is all there is outside -----

  /** Every spoke whose end has left the namespace is attached. */
  ghost predicate Finished(lans: Lans, n: Net) {
    forall m, s :: m in lans && s in lans[m].spokes && Outside(n, lans[m], s) ==> Attached(n, lans[m], s)
  }

  lemma FinishedFrom(lans: Lans, n: Net, r: Net, lan: LanSpec, spoke: string, dummy: bool)
    requires Ctx(lans, lan, spoke) && Inv(lans, n) && AgreeOff(n, r, Footprint(n, lan, spoke, dummy))
    requires Finished(lans, n) && (Outside(r, lan, spoke) ==> Attached(r, lan, spoke))
    ensures Finished(lans, r)
  {
    hide Inv, Footprint, NoClash, Attached;
    forall m, t | m in lans && t in lans[m].spokes && Outside(r, lans[m], t) ensures Attached(r, lans[m], t) {
      if (m, t) == (lan.ns, spoke) {
        assert lans[m] == lan;
      } else {
        AttachedStays(lans, n, r, lan, spoke, dummy, m, t);
        assert Outside(n, lans[m], t);
      }
    }
  }

  lemma EnsureFinishes(lans: Lans, n: Net, spoke: string, lan: LanSpec, hostname: string, mode: string, dummy: bool,
                       faults: set<Call>)
    requires Ctx(lans, lan, spoke) && Inv(lans, n) && (NsOpen in faults ==> !IsMounted(n, lan.ns))
             && Finished(lans, n)
    ensures Finished(lans, Ensure(n, DeviceName(spoke, dummy), spoke, lan, hostname, mode, dummy, faults).net)
  {
    var r := Ensure(n, DeviceName(spoke, dummy), spoke, lan, hostname, mode, dummy, faults).net;
    hide Inv, Ensure, Footprint, NoClash, StageOf, Finished;
    EnsureEffect(lans, n, spoke, lan, hostname, mode, dummy, faults);
    StageEffect(lans, n, spoke, lan, hostname, mode, dummy, faults);
    FinishedOwn(lans, n, lan, spoke);
    FinishedFrom(lans, n, r, lan, spoke, dummy);
  }

  lemma FinishedOwn(lans: Lans, n: Net, lan: LanSpec, spoke: string)
    requires Ctx(lans, lan, spoke) && Finished(lans, n)
    ensures Outside(n, lan, spoke) ==> Attached(n, lan, spoke)
  {
    hide NoClash, Attached, Outside;
  }

  // ----- Ensure -----

  /** Ensure changes its own spoke as its stage says, and no other. */
  lemma EnsureEnds(lans: Lans, n: Net, spoke: string, lan: LanSpec, hostname: string, mode: string, dummy: bool,
                   faults: set<Call>)
    requires Ctx(lans, lan, spoke) && Inv(lans, n) && (NsOpen in faults ==> !IsMounted(n, lan.ns))
    ensures var r := Ensure(n, DeviceName(spoke, dummy), spoke, lan, hostname, mode, dummy, faults);
            var stage := StageOf(n, spoke, lan, hostname, faults);
            && EndsOf(lans, r.net) == Tried(EndsOf(lans, n), (lan.ns, spoke), stage, faults)
            && (r.Ok? ==> stage.BroughtUp?)
  {
    var r := Ensure(n, DeviceName(spoke, dummy), spoke, lan, hostname, mode, dummy, faults);
    var a, b, x := EndsOf(lans, n), EndsOf(lans, r.net), (lan.ns, spoke);
    hide *;
    EnsureEffect(lans, n, spoke, lan, hostname, mode, dummy, faults);
    StageEffect(lans, n, spoke, lan, hostname, mode, dummy, faults);
    forall y | y != x ensures (y in a <==> y in b) && (y in a ==> a[y] == b[y]) {
      EndElsewhere(lans, n, r.net, lan, spoke, dummy, y);
    }
    OwnEnd(lans, n, r.net, lan, spoke);
    TriedIs(a, b, x, StageOf(n, spoke, lan, hostname, faults), faults);
  }

  lemma TriedIs(a: View, b: View, x: (string, string), stage: Stage, faults: set<Call>)
    requires forall y :: y != x ==> (y in a <==> y in b) && (y in a ==> a[y] == b[y])
    requires match stage
             case NotTried => (x in a <==> x in b) && (x in a ==> a[x] == b[x])
             case PairFailed => if DelPeer in faults then (x in a <==> x in b) && (x in a ==> a[x] == b[x])
                                else x !in b
             case LeftDown => x in b && b[x] == End(HostKey(x.1), false)
             case BroughtUp => x in b && b[x] == End(HostKey(x.1), true)
    ensures b == Tried(a, x, stage, faults)
  {
    hide HostKey;
  }

  /** What the view says of a spoke that is as it was, in the host, or not outside. */
  lemma OwnEnd(lans: Lans, n: Net, r: Net, lan: LanSpec, spoke: string)
    requires Ctx(lans, lan, spoke)
    ensures var a, b, x := EndsOf(lans, n), EndsOf(lans, r), (lan.ns, spoke);
            && (OwnSame(n, r, lan, spoke) ==> (x in a <==> x in b) && (x in a ==> a[x] == b[x]))
            && (!Outside(r, lan, spoke) ==> x !in b)
            && (forall up :: OwnInHost(r, lan, spoke, up) ==> x in b && b[x] == End(HostKey(spoke), up))
  {
    hide NoClash, EndsOf;
    EndOf(lans, n, lan.ns, spoke);
    EndOf(lans, r, lan.ns, spoke);
  }

  lemma EndElsewhere(lans: Lans, n: Net, r: Net, lan: LanSpec, spoke: string, dummy: bool, y: (string, string))
    requires Ctx(lans, lan, spoke) && Inv(lans, n) && AgreeOff(n, r, Footprint(n, lan, spoke, dummy))
             && y != (lan.ns, spoke)
    ensures var a, b := EndsOf(lans, n), EndsOf(lans, r); (y in a <==> y in b) && (y in a ==> a[y] == b[y])
  {
    hide Inv, Footprint, Attached, NoClash, EndsOf;
    var m, t := y.0, y.1;
    EndOf(lans, n, m, t);
    EndOf(lans, r, m, t);
    if m in lans && t in lans[m].spokes {
      AttachedStays(lans, n, r, lan, spoke, dummy, m, t);
      if Attached(n, lans[m], t) { SameEnd(n, r, lans[m], t); }
    }
  }

  lemma SameEnd(a: Net, b: Net, lan: LanSpec, t: string)
    requires Same(a, b, PeerKey(lan, t)) && Attached(a, lan, t) && Attached(b, lan, t)
    requires Same(a, b, SpokeEnd(a, lan, t))
    ensures SpokeEnd(a, lan, t) == SpokeEnd(b, lan, t) && EndUp(a, lan, t) == EndUp(b, lan, t)
  {
  }

  // ----- Remove -----

  /** A removal takes the LAN's spokes out, and touches no other. */
  lemma RemoveEnds(lans: Lans, n: Net, m: string, faults: set<Call>)
    requires NoClash(lans) && Inv(lans, n)
    ensures EndsOf(lans, Remove(n, m, faults))
            == if NsUnmount in faults then EndsOf(lans, n) else Without(EndsOf(lans, n), m)
    ensures Finished(lans, n) ==> Finished(lans, Remove(n, m, faults))
  {
    hide Inv, NoClash, AttachedSet, EndsOf;
    if IsMounted(n, m) && NsUnmount !in faults {
      RemoveIsExact(lans, n, m, faults);
      hide Remove;
      var r := Remove(n, m, faults);
      var a, b := EndsOf(lans, n), EndsOf(lans, r);
      forall y ensures (y in b <==> y in a && y.0 != m) && (y in b ==> a[y] == b[y]) {
        RemovedEnd(lans, n, r, m, y);
      }
      if Finished(lans, n) { RemovedFinished(lans, n, r, m); }
    } else {
      assert Remove(n, m, faults) == n;
      forall y | y in EndsOf(lans, n) && y.0 == m ensures IsMounted(n, m) { EndMounted(lans, n, y); }
    }
  }

  lemma RemovedEnd(lans: Lans, n: Net, r: Net, m: string, y: (string, string))
    requires NoClash(lans) && Inv(lans, n)
    requires r.links == map k | k in n.links && Home(n.links, k) != Some(m) :: n.links[k]
    ensures var a, b := EndsOf(lans, n), EndsOf(lans, r); (y in b <==> y in a && y.0 != m) && (y in b ==> a[y] == b[y])
  {
    hide Inv, NoClash, Home, AttachedSet, EndsOf;
    EndOf(lans, n, y.0, y.1);
    EndOf(lans, r, y.0, y.1);
    if y.0 in lans && y.1 in lans[y.0].spokes {
      RemovedSpoke(lans, n, r, m, y.0, y.1);
      if y in EndsOf(lans, n) && y.0 != m {
        EndInLinks(lans, n, y);
        EndAtHome(lans, n, y);
      }
    }
  }

  lemma EndAtHome(lans: Lans, n: Net, y: (string, string))
    requires NoClash(lans) && Inv(lans, n) && y in EndsOf(lans, n) && EndsOf(lans, n)[y].at in n.links
    ensures Home(n.links, EndsOf(lans, n)[y].at) == Some(y.0)
  {
    EndInLinks(lans, n, y);
    EndOf(lans, n, y.0, y.1);
    SpokeInAll(lans, y.0, y.1);
    hide NoClash, Inv, EndsOf;
  }

  lemma RemovedFinished(lans: Lans, n: Net, r: Net, m: string)
    requires NoClash(lans) && Inv(lans, n) && Finished(lans, n)
    requires r.links == map k | k in n.links && Home(n.links, k) != Some(m) :: n.links[k]
    ensures Finished(lans, r)
  {
    hide Home, Inv, NoClash;
    forall l, t | l in lans && t in lans[l].spokes && Outside(r, lans[l], t) ensures Attached(r, lans[l], t) {
      assert Same(n, r, PeerKey(lans[l], t));
    }
  }

  lemma EndMounted(lans: Lans, n: Net, y: (string, string))
    requires NoClash(lans) && Inv(lans, n) && y in EndsOf(lans, n)
    ensures IsMounted(n, y.0)
  {
    EndOf(lans, n, y.0, y.1);
    SpokeInAll(lans, y.0, y.1);
    assert PeerKey(lans[y.0], y.1) in n.links;
    hide LinksOk, NoClash;
  }

  // ----- a pod goes away -----

  /** Only the spokes that had their end in the pod are gone. */
  lemma TeardownEnds(lans: Lans, n: Net, pod: nat)
    requires NoClash(lans) && Inv(lans, n)
    ensures EndsOf(lans, DestroyNs(n, Pod(pod))) == OutOfPod(EndsOf(lans, n), pod)
    ensures Finished(lans, n) ==> Finished(lans, DestroyNs(n, Pod(pod)))
  {
    hide Inv, NoClash, AttachedSet, EndsOf, DestroyNs;
    var a, b := EndsOf(lans, n), EndsOf(lans, DestroyNs(n, Pod(pod)));
    forall y ensures (y in b <==> y in a && a[y].at.ns != Pod(pod)) && (y in b ==> a[y] == b[y]) {
      TeardownEnd(lans, n, pod, y);
    }
    if Finished(lans, n) { TeardownFinished(lans, n, pod); }
  }

  lemma TeardownFinished(lans: Lans, n: Net, pod: nat)
    requires Inv(lans, n) && Finished(lans, n)
    ensures Finished(lans, DestroyNs(n, Pod(pod)))
  {
    var r := DestroyNs(n, Pod(pod));
    forall l, t | l in lans && t in lans[l].spokes && Outside(r, lans[l], t) ensures Attached(r, lans[l], t) {
      MasterStays(lans, n, pod, PeerKey(lans[l], t));
    }
    hide Inv, Doomed;
  }

  lemma TeardownEnd(lans: Lans, n: Net, pod: nat, y: (string, string))
    requires NoClash(lans) && Inv(lans, n)
    ensures var a, b := EndsOf(lans, n), EndsOf(lans, DestroyNs(n, Pod(pod)));
            (y in b <==> y in a && a[y].at.ns != Pod(pod)) && (y in b ==> a[y] == b[y])
  {
    hide Inv, NoClash, AttachedSet, EndsOf;
    EndOf(lans, n, y.0, y.1);
    EndOf(lans, DestroyNs(n, Pod(pod)), y.0, y.1);
    if y.0 in lans && y.1 in lans[y.0].spokes { TeardownOne(lans, n, pod, y.0, y.1); }
    if y in EndsOf(lans, n) && EndsOf(lans, n)[y].at.ns != Pod(pod) {
      EndInLinks(lans, n, y);
      EndOutlives(n, pod, EndsOf(lans, n)[y].at);
      OtherEnd(lans, n, y.0, y.1);
    }
    hide Attached, DestroyNs, Doomed;
  }

  lemma EndOutlives(n: Net, pod: nat, e: Key)
    requires e in n.links && n.links[e].kind.Veth? && n.links[e].kind.peer.ns.Lan? && e.ns != Pod(pod)
    ensures IsUp(DestroyNs(n, Pod(pod)), e) == IsUp(n, e)
  {
  }

  // ----- the CNI move -----

  lemma MoveEnds(lans: Lans, n: Net, k: Key, to: Key)
    requires NoClash(lans) && Inv(lans, n) && MoveAllowed(lans, n, k, to) && !k.ns.Lan?
    ensures EndsOf(lans, Move(n, k, to).value) == Relocated(EndsOf(lans, n), k, to)
    ensures Finished(lans, n) ==> Finished(lans, Move(n, k, to).value)
  {
    var a, b := EndsOf(lans, n), EndsOf(lans, Move(n, k, to).value);
    hide *;
    forall y
      ensures (y in b <==> y in a) && (y in b ==> b[y] == if a[y].at == k then End(to, false) else a[y])
    {
      MoveEnd(lans, n, k, to, y);
    }
    RelocatedIs(a, b, k, to);
    if Finished(lans, n) { MoveFinished(lans, n, k, to); }
  }

  lemma RelocatedIs(a: View, b: View, k: Key, to: Key)
    requires forall y :: (y in b <==> y in a) && (y in b ==> b[y] == if a[y].at == k then End(to, false) else a[y])
    ensures b == Relocated(a, k, to)
  {
  }

  lemma MoveEnd(lans: Lans, n: Net, k: Key, to: Key, y: (string, string))
    requires NoClash(lans) && Inv(lans, n) && MoveAllowed(lans, n, k, to) && !k.ns.Lan?
    ensures var a, b := EndsOf(lans, n), EndsOf(lans, Move(n, k, to).value);
            (y in b <==> y in a) && (y in b ==> b[y] == if a[y].at == k then End(to, false) else a[y])
  {
    var r := Move(n, k, to).value;
    hide Inv, NoClash, MoveAllowed, Attached, SpokeEnd, AttachedSet, EndsOf;
    MoveStutters(lans, n, k, to);
    EndOf(lans, n, y.0, y.1);
    EndOf(lans, r, y.0, y.1);
    MemberOf(lans, n, y);
    MemberOf(lans, r, y);
    if y in EndsOf(lans, n) {
      EndInLinks(lans, n, y);
      MovedUp(n, k, to, EndsOf(lans, n)[y].at);
    }
    hide Move;
  }

  /** The link that moves goes down, every other stays as it was. */
  lemma MovedUp(n: Net, k: Key, to: Key, e: Key)
    requires Move(n, k, to).Some? && e in n.links
    ensures to !in n.links && IsUp(Move(n, k, to).value, Renamed(e, k, to)) == (e != k && IsUp(n, e))
  {
  }

  lemma MoveFinished(lans: Lans, n: Net, k: Key, to: Key)
    requires MoveAllowed(lans, n, k, to) && !k.ns.Lan? && Finished(lans, n)
    ensures Finished(lans, Move(n, k, to).value)
  {
  }

  lemma MemberOf(lans: Lans, n: Net, y: (string, string))
    ensures y in AttachedSet(lans, n) <==> y in EndsOf(lans, n)
  {
  }

  /** The first half of the CNI's move works. */
  predicate Moves(n: Net, name: string, pod: nat) {
    Move(n, HostKey(name), Key(Pod(pod), name)).Some?
  }

  /** The CNI's move puts the end where it is asked for; if only its first half works, under its own name in the pod. */
  lemma CniEnds(lans: Lans, n: Net, name: string, pod: nat, ifname: string)
    requires NoClash(lans) && Inv(lans, n)
    ensures var r, a := CniAdd(n, name, pod, ifname), EndsOf(lans, n);
            && EndsOf(lans, r.net)
               == (if !Moves(n, name, pod) then a
                   else Relocated(a, HostKey(name), Key(Pod(pod), if r.Ok? then ifname else name)))
            && (r.Ok? ==> Moves(n, name, pod))
            && (Finished(lans, n) ==> Finished(lans, r.net))
  {
    var k, moved, fin := HostKey(name), Key(Pod(pod), name), Key(Pod(pod), ifname);
    hide Inv, NoClash, Move, MoveAllowed, EndsOf, Finished;
    if k in n.links && Move(n, k, moved).Some? {
      PodMove(lans, n, k, moved);
      MoveEnds(lans, n, k, moved);
      MoveKeepsInv(lans, n, k, moved);
      var m := Move(n, k, moved).value;
      if ifname != name && Move(m, moved, fin).Some? {
        MoveGives(n, k, moved);
        PodMove(lans, m, moved, fin);
        MoveEnds(lans, m, moved, fin);
        MovedFree(n, k, moved);
        forall y | y in EndsOf(lans, n) ensures EndsOf(lans, n)[y].at != moved { EndInLinks(lans, n, y); }
      }
    } else {
      MoveNeedsLink(n, k, moved);
    }
  }

  lemma MovedFree(n: Net, k: Key, to: Key)
    requires Move(n, k, to).Some?
    ensures to !in n.links
  {
  }

  lemma MoveNeedsLink(n: Net, k: Key, to: Key)
    ensures Move(n, k, to).Some? ==> k in n.links
  {
  }

  // ----- a link in a pod is brought up -----

  /** A pod brings up a link of its own, if it has it. */
  function PodUp(n: Net, pod: nat, ifname: string): Net {
    var r := SetUp(n, Key(Pod(pod), ifname));
    if r.Some? then r.value else n
  }

  lemma PodUpEnds(lans: Lans, n: Net, pod: nat, ifname: string)
    requires NoClash(lans) && Inv(lans, n)
    ensures EndsOf(lans, PodUp(n, pod, ifname)) == Raised(EndsOf(lans, n), Key(Pod(pod), ifname))
    ensures Finished(lans, n) ==> Finished(lans, PodUp(n, pod, ifname))
  {
    var k := Key(Pod(pod), ifname);
    hide Inv, NoClash, EndsOf, AttachedSet;
    var a, b := EndsOf(lans, n), EndsOf(lans, PodUp(n, pod, ifname));
    forall y ensures (y in b <==> y in a) && (y in b ==> b[y] == if a[y].at == k then End(k, true) else a[y]) {
      EndOf(lans, n, y.0, y.1);
      EndOf(lans, PodUp(n, pod, ifname), y.0, y.1);
      if y in a { EndInLinks(lans, n, y); }
    }
  }
}
