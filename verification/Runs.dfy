/**
 Whole runs of a cluster: any sequence of Ensures, moves into pods, links brought up in pods, teardowns and
 removals, on any hosts.
 */
module Runs {
  import opened Kernel
  import opened ApplySpec
  import opened Topology
  import opened EnsureInv
  import opened Isolation
  import opened Refinement
  import opened Stages
  import opened Ends
  import opened Untouched
  import opened VxOrigin

  datatype Event =
    | EnsureEvent(host: string, lan: string, spoke: string, mode: string, dummy: bool, faults: set<Call>)
    | CniEvent(host: string, name: string, pod: nat, ifname: string)
    | PodUpEvent(host: string, pod: nat, ifname: string)
    | TeardownEvent(host: string, pod: nat)
    | RemoveEvent(host: string, lan: string, faults: set<Call>)

  /** Only the spokes of a LAN are asked for, and only spokes and their macvtaps are moved. */
  predicate Proper(lans: Lans, e: Event) {
    match e
    case EnsureEvent(_, m, s, _, _, _) => m in lans && s in lans[m].spokes
    case CniEvent(_, x, _, _) => x in AllSpokes(lans) || IsDeviceName(lans, x)
    case _ => true
  }

  function HostStep(lans: Lans, n: Net, e: Event): Net
    requires Proper(lans, e)
  {
    match e
    case EnsureEvent(h, m, s, mode, dummy, f) => Ensure(n, DeviceName(s, dummy), s, lans[m], h, mode, dummy, f).net
    case CniEvent(_, x, pod, ifname) => CniAdd(n, x, pod, ifname).net
    case PodUpEvent(_, pod, ifname) => PodUp(n, pod, ifname)
    case TeardownEvent(_, pod) => DestroyNs(n, Pod(pod))
    case RemoveEvent(_, m, f) => Remove(n, m, f)
  }

  function Step(lans: Lans, c: Cluster, e: Event): Cluster {
    if Proper(lans, e) && e.host in c then c[e.host := HostStep(lans, c[e.host], e)] else c
  }

  function Run(lans: Lans, c: Cluster, es: seq<Event>): Cluster {
    if es == [] then c else Step(lans, Run(lans, c, es[..|es| - 1]), es[|es| - 1])
  }

  lemma RunNext(lans: Lans, c: Cluster, es: seq<Event>, e: Event)
    ensures Run(lans, c, []) == c && Run(lans, c, es + [e]) == Step(lans, Run(lans, c, es), e)
  {
    assert (es + [e])[..|es|] == es;
  }

  ghost predicate Start(lans: Lans, c: Cluster) {
    NoClash(lans) && forall h :: h in c ==> Pristine(lans, c[h])
  }

  lemma StepKeepsInv(lans: Lans, n: Net, e: Event)
    requires NoClash(lans) && Inv(lans, n) && VxRight(lans, n) && Proper(lans, e)
    ensures Inv(lans, HostStep(lans, n, e)) && VxRight(lans, HostStep(lans, n, e))
  {
    hide Inv, VxRight, Ensure, Remove, CniAdd, DestroyNs, PodUp;
    match e
    case EnsureEvent(h, m, s, mode, dummy, f) =>
      NsOfLan(lans, m);
      EnsureKeepsInv(lans, n, s, lans[m], h, mode, dummy, f);
      EnsureKeepsVxRight(lans, n, DeviceName(s, dummy), s, lans[m], h, mode, dummy, f);
    case CniEvent(_, x, pod, ifname) =>
      CniAddKeepsInv(lans, n, x, pod, ifname);
      CniAddKeepsVxRight(lans, n, x, pod, ifname);
    case PodUpEvent(_, pod, ifname) =>
      PodUpKeepsInv(lans, n, pod, ifname);
    case TeardownEvent(_, pod) =>
      TeardownKeepsInv(lans, n, pod);
      TeardownKeepsVxRight(lans, n, pod);
    case RemoveEvent(_, m, f) =>
      RemoveKeepsInv(lans, n, m, f);
      RemoveKeepsVxRight(lans, n, m, f);
  }

  lemma PodUpKeepsInv(lans: Lans, n: Net, pod: nat, ifname: string)
    requires Inv(lans, n) && VxRight(lans, n)
    ensures Inv(lans, PodUp(n, pod, ifname)) && VxRight(lans, PodUp(n, pod, ifname))
  {
    hide Inv, IsVxOf;
    SetUpKeepsInv(lans, n, Key(Pod(pod), ifname));
  }

  lemma RemoveKeepsInv(lans: Lans, n: Net, m: string, f: set<Call>)
    requires Inv(lans, n)
    ensures Inv(lans, Remove(n, m, f))
  {
    DeleteNamedKeepsInv(lans, n, m, f);
  }

  lemma NsOfLan(lans: Lans, m: string)
    requires NoClash(lans) && m in lans
    ensures lans[m].ns == m
  {
  }

  /** The invariant holds in every state of every run, whatever fails on the way. */
  lemma {:induction false} RunKeepsInv(lans: Lans, c: Cluster, es: seq<Event>)
    requires Start(lans, c)
    ensures ClusterInv(lans, Run(lans, c, es))
  {
    hide Inv, VxRight, Pristine, HostStep, Proper, NoClash;
    if es == [] {
      forall h | h in c ensures Inv(lans, c[h]) && VxRight(lans, c[h]) {
        PristineInv(lans, c[h]);
        PristineVxRight(lans, c[h]);
      }
    } else {
      var d, e := Run(lans, c, es[..|es| - 1]), es[|es| - 1];
      RunKeepsInv(lans, c, es[..|es| - 1]);
      if Proper(lans, e) && e.host in d { StepKeepsInv(lans, d[e.host], e); }
    }
  }

  // ----- what every run keeps about attached spokes -----

  lemma StepFinishes(lans: Lans, n: Net, e: Event)
    requires NoClash(lans) && Inv(lans, n) && Finished(lans, n) && Proper(lans, e)
    ensures Finished(lans, HostStep(lans, n, e))
  {
    hide Inv, NoClash, EndsOf, Ensure, CniAdd, DestroyNs, Remove, PodUp, Finished;
    match e
    case EnsureEvent(h, m, s, mode, dummy, f) =>
      NsOfLan(lans, m);
      if Lost(n, lans[m], f) {
        LostNamespace(n, DeviceName(s, dummy), s, lans[m], h, mode, dummy, f);
        RemoveEnds(lans, n, m, f - {NsUnmount});
        RemoveKeepsInv(lans, n, m, f - {NsUnmount});
        Unmounts(n, m, f - {NsUnmount});
        EnsureFinishes(lans, Remove(n, m, f - {NsUnmount}), s, lans[m], h, mode, dummy, f);
      } else {
        EnsureFinishes(lans, n, s, lans[m], h, mode, dummy, f);
      }
    case CniEvent(_, x, pod, ifname) => CniEnds(lans, n, x, pod, ifname);
    case PodUpEvent(_, pod, ifname) => PodUpEnds(lans, n, pod, ifname);
    case TeardownEvent(_, pod) => TeardownEnds(lans, n, pod);
    case RemoveEvent(_, m, f) => RemoveEnds(lans, n, m, f);
  }

  lemma PristineFinished(lans: Lans, n: Net)
    requires Pristine(lans, n)
    ensures Finished(lans, n)
  {
    hide Reserved;
  }

  /** A spoke whose end has left the namespace is attached, after any run and whatever failed in it. */
  lemma {:induction false} RunFinished(lans: Lans, c: Cluster, es: seq<Event>, h: string)
    requires Start(lans, c) && h in c
    ensures h in Run(lans, c, es) && Finished(lans, Run(lans, c, es)[h])
  {
    hide Inv, VxRight, Pristine, HostStep, Proper, NoClash, Finished;
    if es == [] {
      PristineFinished(lans, c[h]);
    } else {
      var pre, e := es[..|es| - 1], es[|es| - 1];
      RunFinished(lans, c, pre, h);
      RunKeepsInv(lans, c, pre);
      if Proper(lans, e) && e.host == h { StepFinishes(lans, Run(lans, c, pre)[h], e); }
    }
  }

  /** A veth end, in a host or a pod, whose other end is in a LAN namespace. */
  predicate IsEnd(c: Cluster, x: Node) {
    Exists(c, x) && !x.key.ns.Lan? && At(c, x).kind.Veth? && At(c, x).kind.peer.ns.Lan?
  }

  /** The LAN that an end leads into. */
  function LanOf(c: Cluster, x: Node): string
    requires IsEnd(c, x)
  {
    At(c, x).kind.peer.ns.name
  }

  function SpokeOf(c: Cluster, x: Node): string
    requires IsEnd(c, x)
  {
    var name := At(c, x).kind.peer.name;
    if name == "" then "" else name[..|name| - 1]
  }

  /** Every end that a host or a pod holds is the end of an attached spoke. */
  lemma EndIsAttached(lans: Lans, c: Cluster, es: seq<Event>, x: Node)
    requires Start(lans, c) && IsEnd(Run(lans, c, es), x)
    ensures var d := Run(lans, c, es);
            AttachedAt(lans, d, x.host, LanOf(d, x), SpokeOf(d, x))
            && EndNode(lans, d, x.host, LanOf(d, x), SpokeOf(d, x)) == x
  {
    var d := Run(lans, c, es);
    RunKeepsInv(lans, c, es);
    RunHosts(lans, c, es);
    RunFinished(lans, c, es, x.host);
    EndSpoke(lans, d, x);
    hide NoClash, Inv, VxRight, Pristine, Attached, Outside, SpokeOf;
  }

  lemma {:induction false} RunHosts(lans: Lans, c: Cluster, es: seq<Event>)
    ensures Run(lans, c, es).Keys == c.Keys
  {
    hide HostStep, Proper;
    if es != [] { RunHosts(lans, c, es[..|es| - 1]); }
  }

  lemma EndSpoke(lans: Lans, c: Cluster, x: Node)
    requires ClusterInv(lans, c) && IsEnd(c, x)
    ensures var m, s := LanOf(c, x), SpokeOf(c, x);
            && m in lans && s in lans[m].spokes && Outside(c[x.host], lans[m], s)
            && c[x.host].links[PeerKey(lans[m], s)].kind.peer == x.key
  {
    assert LinkOk(lans, c[x.host].links, x.key);
    var p := At(c, x).kind.peer;
    assert p.name == PeerName(SpokeOf(c, x));
    NsOfLan(lans, p.ns.name);
    hide NoClash;
  }

  // ----- domains -----

  /**
   Isolation and connectivity over all runs: after any run with any failures, two attached spokes
   share a broadcast domain exactly if they belong to one LAN, both spoke ends and the bridges are up and,
   between hosts, the uplinks are working.
   */
  lemma RunDomains(lans: Lans, c: Cluster, es: seq<Event>, h: string, m: string, s: string, g: string, l: string,
                   t: string)
    requires Start(lans, c)
    requires AttachedAt(lans, Run(lans, c, es), h, m, s) && AttachedAt(lans, Run(lans, c, es), g, l, t)
    ensures var d := Run(lans, c, es);
            SameDomain(d, EndNode(lans, d, h, m, s), EndNode(lans, d, g, l, t)) <==> Reach(lans, d, h, m, s, g, l, t)
  {
    RunKeepsInv(lans, c, es);
    SameDomainIff(lans, Run(lans, c, es), h, m, s, g, l, t);
  }

  /** The same without naming spokes: for any two links, in hosts or pods, that lead into LAN namespaces. */
  lemma RunEnds(lans: Lans, c: Cluster, es: seq<Event>, x: Node, y: Node)
    requires Start(lans, c) && IsEnd(Run(lans, c, es), x) && IsEnd(Run(lans, c, es), y)
    ensures var d := Run(lans, c, es);
            && LanOf(d, x) in lans
            && var lan := lans[LanOf(d, x)];
            SameDomain(d, x, y) <==>
              || x == y
              || (LanOf(d, x) == LanOf(d, y) && At(d, x).up && At(d, y).up
                  && BridgeUp(d[x.host], lan) && BridgeUp(d[y.host], lan)
                  && (x.host == y.host || (Uplink(d[x.host], lan) && Uplink(d[y.host], lan))))
  {
    var d := Run(lans, c, es);
    hide Start, Run, Uplink, SameDomain, SpokeOf, Attached, BridgeUp;
    EndIsAttached(lans, c, es, x);
    EndIsAttached(lans, c, es, y);
    RunDomains(lans, c, es, x.host, LanOf(d, x), SpokeOf(d, x), y.host, LanOf(d, y), SpokeOf(d, y));
  }

  // ----- the abstract machine -----

  /** What the caller of an event is told. */
  predicate Succeeds(lans: Lans, n: Net, e: Event)
    requires Proper(lans, e)
  {
    match e
    case EnsureEvent(h, m, s, mode, dummy, f) => Ensure(n, DeviceName(s, dummy), s, lans[m], h, mode, dummy, f).Ok?
    case CniEvent(_, x, pod, ifname) => CniAdd(n, x, pod, ifname).Ok?
    case _ => true
  }

  /** What happens in an event: its Ensure lost the namespace, and got how far; the CNI's move, and rename, worked. */
  datatype Outcome = Outcome(lost: bool, stage: Stage, moved: bool, renamed: bool)

  function OutcomeOf(lans: Lans, n: Net, e: Event): Outcome
    requires Proper(lans, e)
  {
    match e
    case EnsureEvent(h, m, s, _, _, f) =>
      Outcome(Lost(n, lans[m], f), StageOf(n, s, lans[m], h, f), false, false)
    case CniEvent(_, x, pod, ifname) =>
      Outcome(false, NotTried, Moves(n, x, pod), CniAdd(n, x, pod, ifname).Ok?)
    case _ => Outcome(false, NotTried, false, false)
  }

  /** What an event with this outcome does to one host's attached spokes and their ends. */
  function Effect(e: Event, o: Outcome, a: View): View {
    match e
    case EnsureEvent(_, m, s, _, _, f) => Tried(if o.lost then Without(a, m) else a, (m, s), o.stage, f)
    case CniEvent(_, x, pod, ifname) =>
      if !o.moved then a else Relocated(a, HostKey(x), Key(Pod(pod), if o.renamed then ifname else x))
    case PodUpEvent(_, pod, ifname) => Raised(a, Key(Pod(pod), ifname))
    case TeardownEvent(_, pod) => OutOfPod(a, pod)
    case RemoveEvent(_, m, f) => if NsUnmount in f then a else Without(a, m)
  }

  lemma StepRefines(lans: Lans, n: Net, e: Event)
    requires NoClash(lans) && Inv(lans, n) && Proper(lans, e)
    ensures var o := OutcomeOf(lans, n, e);
            && EndsOf(lans, HostStep(lans, n, e)) == Effect(e, o, EndsOf(lans, n))
            && (Succeeds(lans, n, e) ==>
                  (e.EnsureEvent? ==> o.stage.BroughtUp?) && (e.CniEvent? ==> o.moved && o.renamed))
  {
    hide Inv, NoClash, EndsOf, Ensure, CniAdd, DestroyNs, Remove, Relocated, OutOfPod, Without, Raised, Tried, StageOf,
      PodUp, Moves;
    match e
    case EnsureEvent(h, m, s, mode, dummy, f) =>
      NsOfLan(lans, m);
      if Lost(n, lans[m], f) {
        var r := Remove(n, m, f - {NsUnmount});
        LostNamespace(n, DeviceName(s, dummy), s, lans[m], h, mode, dummy, f);
        LostStage(n, s, lans[m], h, f);
        RemoveEnds(lans, n, m, f - {NsUnmount});
        RemoveKeepsInv(lans, n, m, f - {NsUnmount});
        Unmounts(n, m, f - {NsUnmount});
        EnsureEnds(lans, r, s, lans[m], h, mode, dummy, f);
      } else {
        EnsureEnds(lans, n, s, lans[m], h, mode, dummy, f);
      }
    case CniEvent(_, x, pod, ifname) => CniEnds(lans, n, x, pod, ifname);
    case PodUpEvent(_, pod, ifname) => PodUpEnds(lans, n, pod, ifname);
    case TeardownEvent(_, pod) => TeardownEnds(lans, n, pod);
    case RemoveEvent(_, m, f) => RemoveEnds(lans, n, m, f);
  }

  lemma LostStage(n: Net, spoke: string, lan: LanSpec, hostname: string, faults: set<Call>)
    requires Lost(n, lan, faults)
    ensures StageOf(n, spoke, lan, hostname, faults)
            == StageOf(Remove(n, lan.ns, faults - {NsUnmount}), spoke, lan, hostname, faults)
  {
    hide EnsureVeth, EnsureVx, DropVx, DestroyNs, NeedVx;
    var m := Remove(n, lan.ns, faults - {NsUnmount});
    assert EnsureNs(n, lan.ns, faults) == EnsureNs(m, lan.ns, faults);
    assert Prologue(n, lan, hostname, faults) == Prologue(m, lan, hostname, faults);
  }

  /**
   Every run of the links is a run of the views: what an event does to its own host is exact, whatever fails,
   and other hosts never change.
   */
  lemma RunRefines(lans: Lans, c: Cluster, es: seq<Event>, e: Event, h: string)
    requires Start(lans, c) && Proper(lans, e) && h in Run(lans, c, es)
    ensures var d, d' := Run(lans, c, es), Run(lans, c, es + [e]);
            && h in d'
            && (h == e.host ==>
                  var o := OutcomeOf(lans, d[h], e);
                  && EndsOf(lans, d'[h]) == Effect(e, o, EndsOf(lans, d[h]))
                  && (Succeeds(lans, d[h], e) ==>
                        (e.EnsureEvent? ==> o.stage.BroughtUp?) && (e.CniEvent? ==> o.moved && o.renamed)))
            && (h != e.host ==> d'[h] == d[h])
  {
    hide Inv, VxRight, HostStep, EndsOf, Effect, OutcomeOf, Pristine, NoClash, Proper, Succeeds;
    assert (es + [e])[..|es|] == es;
    RunKeepsInv(lans, c, es);
    if h == e.host { StepRefines(lans, Run(lans, c, es)[h], e); }
  }
}
