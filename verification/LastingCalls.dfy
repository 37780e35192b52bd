/**
 Each of the calls that clean runs exclude is needed, and so are plain groups: otherwise spokes of one LAN can be
 attached, with their ends up, and not hear each other.
 */
module LastingCalls {
  import opened Kernel
  import opened ApplySpec
  import opened Topology
  import opened EnsureInv
  import opened EnsureFrame
  import opened EnsureOutcome
  import opened Isolation
  import opened Refinement
  import opened Success
  import opened Guarantees
  import opened Stages
  import opened Ends
  import opened Runs
  import opened CleanRuns
  import opened Hearing

  function Asked(h: string, m: string, s: string, faults: set<Call>): Event {
    EnsureEvent(h, m, s, "passthru", false, faults)
  }

  function Done(n: Net, lan: LanSpec, s: string, h: string, faults: set<Call>): Out {
    Ensure(n, DeviceName(s, false), s, lan, h, "passthru", false, faults)
  }

  /** Ready for an Ensure of `s`: the invariant, the underlay, a group that a vxlan can have. */
  ghost predicate Ready(lans: Lans, n: Net, lan: LanSpec, s: string, h: string) {
    Ctx(lans, lan, s) && Inv(lans, n) && DevOf(lan, h) in n.links && IsMulticast(lan.group)
  }

  /** The spoke is attached and its end is up, and nothing of it can leave the host. */
  predicate Stranded(n: Net, lan: LanSpec, s: string) {
    Attached(n, lan, s) && EndUp(n, lan, s) && !(BridgeUp(n, lan) && Uplink(n, lan))
  }

  lemma DoneAttaches(lans: Lans, n: Net, lan: LanSpec, s: string, h: string, faults: set<Call>)
    requires Ready(lans, n, lan, s, h) && faults <= HIDDEN_CALLS
    ensures var r := Done(n, lan, s, h, faults);
            && r.Ok? && Attached(r.net, lan, s) && EndUp(r.net, lan, s) && SpokeEnd(r.net, lan, s) == HostKey(s)
            && Ready(lans, r.net, lan, s, h)
  {
    hide NoClash, Inv, Ensure, Attached, WrongVx, IsMulticast, Footprint, OldPair;
    EnsureSucceedsIff(lans, n, s, lan, h, "passthru", false, faults);
    SuccessIsConnectedIff(lans, n, s, lan, h, "passthru", false, faults);
    EnsureKeepsInv(lans, n, s, lan, h, "passthru", false, faults);
    EnsureEffect(lans, n, s, lan, h, "passthru", false, faults);
    DevApart(lans, n, lan, s, h, false, lan);
    assert Same(n, Done(n, lan, s, h, faults).net, DevOf(lan, h));
  }

  // ----- the failures -----

  /** A call of the attach step, in the Ensure that makes the vxlan. */
  lemma AttachFails(lans: Lans, n: Net, lan: LanSpec, s: string, h: string, call: Call)
    requires Ready(lans, n, lan, s, h) && VxKey(lan) !in n.links && call in HIDDEN_CALLS
    ensures Stranded(Done(n, lan, s, h, {call}).net, lan, s)
  {
    hide NoClash, Inv, Ensure, Attached, IsMulticast, Footprint, OldPair;
    DoneAttaches(lans, n, lan, s, h, {call});
    SuccessIsConnectedIff(lans, n, s, lan, h, "passthru", false, {call});
    assert call in {call} * HIDDEN_CALLS;
  }

  /** The pod has no link yet. */
  ghost predicate EmptyPod(n: Net, pod: nat) {
    forall k :: k in n.links ==> k.ns != Pod(pod)
  }

  /** The spoke is moved into a pod, which brings it up. */
  function Podded(n: Net, s: string, pod: nat, ifname: string): Net {
    PodUp(CniAdd(n, s, pod, ifname).net, pod, ifname)
  }

  lemma CniWorks(n: Net, s: string, pod: nat, ifname: string)
    requires EmptyPod(n, pod) && HostKey(s) in n.links && n.links[HostKey(s)].kind.Veth?
    ensures CniAdd(n, s, pod, ifname).Ok?
  {
    var moved := Key(Pod(pod), s);
    assert moved !in n.links && Key(Pod(pod), ifname) !in n.links;
    assert Move(n, HostKey(s), moved).Some?;
    var m := Move(n, HostKey(s), moved).value;
    assert moved in m.links && m.links[moved].kind.Veth?;
    assert ifname != s ==> Key(Pod(pod), ifname) !in m.links;
  }

  /** A spoke in the host, up or down, that is moved into a pod and brought up there. */
  lemma PoddedUp(lans: Lans, n: Net, lan: LanSpec, s: string, pod: nat, ifname: string)
    requires Ctx(lans, lan, s) && Inv(lans, n) && EmptyPod(n, pod)
    requires Attached(n, lan, s) && SpokeEnd(n, lan, s) == HostKey(s)
    ensures Attached(Podded(n, s, pod, ifname), lan, s) && EndUp(Podded(n, s, pod, ifname), lan, s)
  {
    var r := CniAdd(n, s, pod, ifname).net;
    hide NoClash, Inv, CniAdd, EndsOf, EmptyPod, Attached, SpokeEnd, EndUp, PodUp, Moves;
    EndOf(lans, n, lan.ns, s);
    EndInLinks(lans, n, (lan.ns, s));
    CniWorks(n, s, pod, ifname);
    CniAddKeepsInv(lans, n, s, pod, ifname);
    CniEnds(lans, n, s, pod, ifname);
    PodUpEnds(lans, r, pod, ifname);
    EndOf(lans, Podded(n, s, pod, ifname), lan.ns, s);
  }

  lemma PoddedVx(lans: Lans, n: Net, s: string, pod: nat, ifname: string, v: Key)
    requires Inv(lans, n) && v.ns.Lan? && (v in n.links ==> n.links[v].kind.Vxlan?)
    ensures Same(n, Podded(n, s, pod, ifname), v)
  {
    CniKeepsVx(lans, n, s, pod, ifname, v);
    hide Inv, CniAdd;
  }

  lemma CniKeepsVx(lans: Lans, n: Net, s: string, pod: nat, ifname: string, v: Key)
    requires Inv(lans, n) && v.ns.Lan? && (v in n.links ==> n.links[v].kind.Vxlan?)
    ensures Same(n, CniAdd(n, s, pod, ifname).net, v)
  {
    hide Inv;
  }

  /** Making the vxlan: the pair is there already, and its end, left down, comes up in its pod. */
  lemma AddVxFails(lans: Lans, n: Net, lan: LanSpec, s: string, h: string, pod: nat, ifname: string)
    requires Ready(lans, n, lan, s, h) && VxKey(lan) !in n.links && PeerKey(lan, s) !in n.links && EmptyPod(n, pod)
    ensures Stranded(Podded(Done(n, lan, s, h, {AddVx}).net, s, pod, ifname), lan, s)
  {
    hide NoClash, Inv, Ensure, IsMulticast, Attached, EmptyPod, Footprint;
    var f: set<Call> := {AddVx};
    var r := Done(n, lan, s, h, f).net;
    LateCalls(n, lan, s, f);
    StageIff(lans, n, s, lan, h, f);
    StageEffect(lans, n, s, lan, h, "passthru", false, f);
    EnsureKeepsInv(lans, n, s, lan, h, "passthru", false, f);
    NoVxMade(lans, n, lan, s, h);
    PodStaysEmpty(lans, n, lan, s, h, f, pod);
    PoddedUp(lans, r, lan, s, pod, ifname);
    PoddedVx(lans, r, s, pod, ifname, VxKey(lan));
    hide Podded, StageOf;
    NoUplink(Podded(r, s, pod, ifname), lan);
  }

  /** Ensure touches no pod, if the spoke has no pair yet. */
  lemma PodStaysEmpty(lans: Lans, n: Net, lan: LanSpec, s: string, h: string, faults: set<Call>, pod: nat)
    requires Ctx(lans, lan, s) && Inv(lans, n) && (NsOpen in faults ==> !IsMounted(n, lan.ns))
    requires PeerKey(lan, s) !in n.links && EmptyPod(n, pod)
    ensures EmptyPod(Done(n, lan, s, h, faults).net, pod)
  {
    hide Ensure, NoClash, Inv;
    var r := Done(n, lan, s, h, faults).net;
    EnsureEffect(lans, n, s, lan, h, "passthru", false, faults);
    forall k | k in r.links ensures k.ns != Pod(pod) {
      OldPairIs(lans, n, lan, s, k);
      hide OldPair;
      assert k.ns == Pod(pod) ==> Same(n, r, k);
    }
  }

  lemma NoVxMade(lans: Lans, n: Net, lan: LanSpec, s: string, h: string)
    requires Ready(lans, n, lan, s, h) && VxKey(lan) !in n.links
    ensures VxKey(lan) !in Done(n, lan, s, h, {AddVx}).net.links
  {
    hide NoClash, Inv, Prologue, EnsureVeth, IsMulticast, Footprint, OldPair, DropVx;
    var f: set<Call> := {AddVx};
    LateCalls(n, lan, s, f);
    PrologueSucceeds(lans, n, lan, h, f);
    PrologueFrame(lans, n, lan, h, f);
    PrologueKeepsInv(lans, n, lan, h, f);
    BaseNamesApart(lans, lan);
    var n1 := Prologue(n, lan, h, f).net;
    assert Same(n, n1, VxKey(lan));
    DropsNothing(n1, lan, f);
    LateCalls(n1, lan, s, f);
    VethSucceeds(lans, n1, lan, s, f);
    VethStep(lans, n1, lan, s, true, f);
    var r := EnsureVeth(n1, lan, s, f);
    AddVxStops(r.net, lan, n1.links[DevOf(lan, h)].index, f);
    hide EnsureVx, NeedVx, AfterVeth, Attached;
    NeedsIt(n1, lan, n1.links[DevOf(lan, h)].index, f);
    assert Done(n, lan, s, h, f).net == r.net;
  }

  lemma NeedsIt(n: Net, lan: LanSpec, dev: nat, faults: set<Call>)
    requires !VxFound(n, lan, faults)
    ensures NeedVx(n, lan, dev, faults)
  {
  }

  lemma DropsNothing(n: Net, lan: LanSpec, faults: set<Call>)
    requires VxKey(lan) !in n.links
    ensures DropVx(n, lan, true, faults) == n
  {
  }

  lemma AddVxStops(n: Net, lan: LanSpec, dev: nat, faults: set<Call>)
    requires AddVx in faults
    ensures EnsureVx(n, lan, dev, faults) == Fail(n)
  {
  }

  /** An Ensure for another spoke that drops the vxlan, and then fails to make its pair. */
  lemma VxLost(lans: Lans, n: Net, lan: LanSpec, s: string, u: string, h: string, f: set<Call>)
    requires Ready(lans, n, lan, s, h) && Ready(lans, n, lan, u, h) && s != u && Attached(n, lan, s) && EndUp(n, lan, s)
    requires f <= {FindVx, AddPair} && AddPair in f && WrongVx(n, lan, h, f)
    ensures Stranded(Done(n, lan, u, h, f).net, lan, s)
  {
    hide NoClash, Inv, Prologue, IsMulticast, Footprint, OldPair, Attached, WrongVx;
    EnsureEffect(lans, n, u, lan, h, "passthru", false, f);
    AttachedStays(lans, n, Done(n, lan, u, h, f).net, lan, u, false, lan.ns, s);
    SameEnd(n, Done(n, lan, u, h, f).net, lan, s);
    LateCalls(n, lan, s, f);
    PrologueSucceeds(lans, n, lan, h, f);
    PrologueFrame(lans, n, lan, h, f);
    PrologueKeepsInv(lans, n, lan, h, f);
    BaseNamesApart(lans, lan);
    var n1 := Prologue(n, lan, h, f).net;
    assert Same(n, n1, DevOf(lan, h)) && Same(n, n1, VxKey(lan));
    NeedIsWrong(lans, n, n1, lan, h, f);
    var dev := n1.links[DevOf(lan, h)].index;
    BridgeKind(lans, n1, lan);
    VxDropped(n1, lan, u, f);
    hide EnsureVeth, NeedVx, DropVx, Ensure, Uplink, EndUp;
    assert Done(n, lan, u, h, f) == Epilogue(n1, DeviceName(u, false), u, lan, dev, "passthru", false, true, f) by {
      UnfoldEnsure(n, lan, u, h, f);
    }
    NoUplink(Done(n, lan, u, h, f).net, lan);
  }

  lemma UnfoldEnsure(n: Net, lan: LanSpec, u: string, h: string, f: set<Call>)
    requires Prologue(n, lan, h, f).Ok?
    ensures var n1 := Prologue(n, lan, h, f).net;
            var dev := n1.links[DevOf(lan, h)].index;
            Done(n, lan, u, h, f)
            == Epilogue(n1, DeviceName(u, false), u, lan, dev, "passthru", false, NeedVx(n1, lan, dev, f), f)
  {
    hide Prologue, Epilogue, NeedVx;
  }

  lemma NoUplink(n: Net, lan: LanSpec)
    requires VxKey(lan) !in n.links
    ensures !Uplink(n, lan)
  {
  }

  lemma VxDropped(n: Net, lan: LanSpec, u: string, faults: set<Call>)
    requires AddPair in faults && DelVx !in faults && (VxKey(lan) in n.links ==> n.links[VxKey(lan)].kind.Vxlan?)
    ensures var r := EnsureVeth(DropVx(n, lan, true, faults), lan, u, faults); r.Fail? && VxKey(lan) !in r.net.links
  {
    hide Doomed;
    ErasedGone(n, VxKey(lan));
    var n0 := DropVx(n, lan, true, faults);
    assert VxKey(lan) !in n0.links;
    ErasedSub(n0, {PeerKey(lan, u)});
    hide Erase;
  }

  lemma ErasedGone(n: Net, k: Key)
    ensures k !in Erase(n, {k}).links
  {
  }

  lemma ErasedSub(n: Net, roots: set<Key>)
    ensures Erase(n, roots).links.Keys <= n.links.Keys
  {
    hide Doomed;
  }

  // ----- the runs -----

  lemma StepAsked(lans: Lans, c: Cluster, h: string, m: string, s: string, faults: set<Call>)
    requires h in c && m in lans && s in lans[m].spokes
    ensures Step(lans, c, Asked(h, m, s, faults)) == c[h := Done(c[h], lans[m], s, h, faults).net]
  {
    hide Ensure;
  }

  lemma RunAsked(lans: Lans, c: Cluster, h: string, m: string, s: string, f: set<Call>)
    requires h in c && m in lans && s in lans[m].spokes
    ensures Run(lans, c, [Asked(h, m, s, f)]) == c[h := Done(c[h], lans[m], s, h, f).net]
  {
    hide Run, Step, Done;
    RunNext(lans, c, [], Asked(h, m, s, f));
    assert [] + [Asked(h, m, s, f)] == [Asked(h, m, s, f)];
    StepAsked(lans, c, h, m, s, f);
  }

  lemma RunAskedTwice(lans: Lans, c: Cluster, h: string, m: string, s: string, f: set<Call>, u: string, e: set<Call>)
    requires h in c && m in lans && s in lans[m].spokes && u in lans[m].spokes
    ensures var x := Done(c[h], lans[m], s, h, f).net;
            Run(lans, c, [Asked(h, m, s, f), Asked(h, m, u, e)]) == c[h := Done(x, lans[m], u, h, e).net]
  {
    hide Run, Step, Done;
    RunAsked(lans, c, h, m, s, f);
    RunNext(lans, c, [Asked(h, m, s, f)], Asked(h, m, u, e));
    assert [Asked(h, m, s, f)] + [Asked(h, m, u, e)] == [Asked(h, m, s, f), Asked(h, m, u, e)];
    StepAsked(lans, c[h := Done(c[h], lans[m], s, h, f).net], h, m, u, e);
  }

  lemma RunPodded(lans: Lans, c: Cluster, es: seq<Event>, h: string, m: string, s: string, pod: nat, ifname: string)
    requires m in lans && s in lans[m].spokes && h in Run(lans, c, es)
    ensures var d, move, up := Run(lans, c, es), CniEvent(h, s, pod, ifname), PodUpEvent(h, pod, ifname);
            && Run(lans, c, es + [move]) == d[h := CniAdd(d[h], s, pod, ifname).net]
            && Run(lans, c, es + [move, up]) == d[h := Podded(d[h], s, pod, ifname)]
  {
    var move, up := CniEvent(h, s, pod, ifname), PodUpEvent(h, pod, ifname);
    Asking(lans, m, s);
    hide Run, CniAdd, PodUp, AllSpokes;
    RunNext(lans, c, es, move);
    RunNext(lans, c, es + [move], up);
    assert es + [move] + [up] == es + [move, up];
  }

  /** An attached spoke that is stranded on its host does not hear one attached elsewhere. */
  lemma StrandedUnheard(lans: Lans, c: Cluster, h: string, g: string, m: string, s: string, t: string, es: seq<Event>,
                        x: Net)
    requires Start(lans, c) && h in c && g in c && h != g && m in lans && s in lans[m].spokes
    requires Run(lans, c, es) == c[h := x] && Stranded(x, lans[m], s) && Ready(lans, c[g], lans[m], t, g)
    ensures Apart(lans, Run(lans, c, es + [Asked(g, m, t, {})]), h, g, m, s, t)
  {
    hide Run, Step, Done, Attached, NoClash, Inv, IsMulticast, SameDomain, Uplink, Pristine, EndUp;
    var e := Asked(g, m, t, {});
    RunNext(lans, c, es, e);
    StepAsked(lans, c[h := x], g, m, t, {});
    DoneAttaches(lans, c[g], lans[m], t, g, {});
    RunDomains(lans, c, es + [e], h, m, s, g, m, t);
  }

  /** Both spokes of `m` are attached, with their ends up, and they do not hear each other. */
  ghost predicate Apart(lans: Lans, c: Cluster, h: string, g: string, m: string, s: string, t: string) {
    && AttachedAt(lans, c, h, m, s) && AttachedAt(lans, c, g, m, t)
    && EndUp(c[h], lans[m], s) && EndUp(c[g], lans[m], t)
    && !SameDomain(c, EndNode(lans, c, h, m, s), EndNode(lans, c, g, m, t))
  }

  lemma StartReady(lans: Lans, c: Cluster, h: string, m: string, s: string)
    requires Start(lans, c) && h in c && m in lans && IsMulticast(lans[m].group) && s in lans[m].spokes
             && DevOf(lans[m], h) in c[h].links
    ensures Ready(lans, c[h], lans[m], s, h)
    ensures {VxKey(lans[m]), BridgeKey(lans[m]), PeerKey(lans[m], s)} !! c[h].links.Keys
  {
    PristineInv(lans, c[h]);
    hide NoClash, Inv, Reserved;
    NsOfLan(lans, m);
  }

  /**
   For every excluded call, from any untouched cluster: a run in which no other excluded call fails ends
   with two spokes of one LAN attached on two hosts, with their ends up, and not hearing each other.
   */
  lemma EachCallMatters(lans: Lans, c: Cluster, h: string, g: string, m: string, s: string, u: string, t: string,
                        pod: nat, call: Call)
    returns (es: seq<Event>)
    requires Start(lans, c) && PlainGroups(lans) && h in c && g in c && h != g && call in LASTING_CALLS
    requires m in lans && {s, u, t} <= (set x | x in lans[m].spokes) && s != u && EmptyPod(c[h], pod)
    requires DevOf(lans[m], h) in c[h].links && DevOf(lans[m], g) in c[g].links
    ensures forall e :: e in es && e.EnsureEvent? ==> e.faults * LASTING_CALLS <= {call}
    ensures Apart(lans, Run(lans, c, es), h, g, m, s, t)
  {
    hide Run, Done, NoClash, Inv, IsMulticast, Pristine, Apart, Stranded, Podded, EmptyPod;
    var lan := lans[m];
    StartReady(lans, c, h, m, s);
    StartReady(lans, c, h, m, u);
    StartReady(lans, c, g, m, t);
    if call == UpBr {
      RunAskedTwice(lans, c, h, m, s, {UpBr}, s, {});
      BridgeFails(lans, c[h], lan, s, h);
      es := [Asked(h, m, s, {UpBr}), Asked(h, m, s, {})];
    } else if call == FindVx {
      DropsIt(lans, c, h, m, s, u, {FindVx, AddPair});
      es := [Asked(h, m, s, {}), Asked(h, m, u, {FindVx, AddPair})];
    } else if call == AddVx {
      RunAsked(lans, c, h, m, s, {AddVx});
      AddVxFails(lans, c[h], lan, s, h, pod, s);
      RunPodded(lans, c, [Asked(h, m, s, {AddVx})], h, m, s, pod, s);
      es := [Asked(h, m, s, {AddVx})] + [CniEvent(h, s, pod, s), PodUpEvent(h, pod, s)];
    } else {
      RunAsked(lans, c, h, m, s, {call});
      AttachFails(lans, c[h], lan, s, h, call);
      es := [Asked(h, m, s, {call})];
    }
    StrandedUnheard(lans, c, h, g, m, s, t, es, Run(lans, c, es)[h]);
    es := es + [Asked(g, m, t, {})];
  }

  /** The second of two Ensures drops the vxlan, because it could not look it up or finds its group wrong. */
  lemma DropsIt(lans: Lans, c: Cluster, h: string, m: string, s: string, u: string, f: set<Call>)
    requires Start(lans, c) && h in c && m in lans && s in lans[m].spokes && u in lans[m].spokes && s != u
    requires Ready(lans, c[h], lans[m], s, h)
    requires f <= {FindVx, AddPair} && AddPair in f && (FindVx in f || !PlainGroup(lans[m].group))
    ensures var es := [Asked(h, m, s, {}), Asked(h, m, u, f)];
            Run(lans, c, es).Keys == c.Keys && Run(lans, c, es) == c[h := Run(lans, c, es)[h]]
            && Stranded(Run(lans, c, es)[h], lans[m], s)
  {
    hide Run, NoClash, Inv, IsMulticast, Pristine, Stranded, Ensure, PlainGroup, Attached, WrongVx;
    var lan := lans[m];
    DoneAttaches(lans, c[h], lan, s, h, {});
    NeedSettled(lans, c[h], s, lan, h, "passthru", false, {});
    var n := Done(c[h], lan, s, h, {}).net;
    CtxAlso(lans, m, u);
    RunAskedTwice(lans, c, h, m, s, {}, u, f);
    WrongWith(n, lan, h, f);
    VxLost(lans, n, lan, s, u, h, f);
    hide Done;
  }

  lemma CtxAlso(lans: Lans, m: string, u: string)
    requires NoClash(lans) && m in lans && u in lans[m].spokes
    ensures Ctx(lans, lans[m], u)
  {
  }

  lemma WrongWith(n: Net, lan: LanSpec, h: string, f: set<Call>)
    ensures FindVx in f || WrongVx(n, lan, h, {}) ==> WrongVx(n, lan, h, f)
  {
  }

  /**
   Plain groups are needed too: with a group that does not read back, a clean run in which one pair could not
   be made ends with two spokes of one LAN attached on two hosts, with their ends up, and not hearing each other.
   */
  lemma PlainGroupMatters(lans: Lans, c: Cluster, h: string, g: string, m: string, s: string, u: string, t: string)
    returns (es: seq<Event>)
    requires Start(lans, c) && h in c && g in c && h != g
    requires m in lans && {s, u, t} <= (set x | x in lans[m].spokes) && s != u
    requires IsMulticast(lans[m].group) && !PlainGroup(lans[m].group)
    requires DevOf(lans[m], h) in c[h].links && DevOf(lans[m], g) in c[g].links
    ensures forall e :: e in es ==> Clean(e)
    ensures Apart(lans, Run(lans, c, es), h, g, m, s, t)
  {
    hide Run, NoClash, Inv, IsMulticast, PlainGroup, Pristine, Apart, Stranded;
    StartReady(lans, c, h, m, s);
    StartReady(lans, c, g, m, t);
    DropsIt(lans, c, h, m, s, u, {AddPair});
    es := [Asked(h, m, s, {}), Asked(h, m, u, {AddPair})];
    StrandedUnheard(lans, c, h, g, m, s, t, es, Run(lans, c, es)[h]);
    es := es + [Asked(g, m, t, {})];
  }

  /** Bringing up a new bridge. */
  lemma BridgeFails(lans: Lans, n: Net, lan: LanSpec, s: string, h: string)
    requires Ready(lans, n, lan, s, h) && BridgeKey(lan) !in n.links
    ensures Stranded(Done(Done(n, lan, s, h, {UpBr}).net, lan, s, h, {}).net, lan, s)
  {
    hide NoClash, Inv, Ensure, Attached, IsMulticast, WrongVx;
    BridgeStaysDown(lans, n, s, lan, h, "passthru", false);
    SuccessIsConnectedIff(lans, Done(n, lan, s, h, {UpBr}).net, s, lan, h, "passthru", false, {});
  }
}
