/** Spokes that are attached but not heard, their end being down: after the CNI's move, and after a failed Ensure. */
module Silent {
  import opened Kernel
  import opened ApplySpec
  import opened Topology
  import opened EnsureInv
  import opened Isolation
  import opened Stages
  import opened Success
  import opened Ends
  import opened Runs
  import opened CleanRuns
  import opened Hearing
  import opened LastingCalls

  /** One Ensure on each of two hosts, the first with these failures. */
  function Pair(h: string, g: string, m: string, s: string, t: string, faults: set<Call>): seq<Event> {
    [Asked(h, m, s, faults), Asked(g, m, t, {})]
  }

  ghost predicate Hear(lans: Lans, c: Cluster, h: string, g: string, m: string, s: string, t: string) {
    && AttachedAt(lans, c, h, m, s) && AttachedAt(lans, c, g, m, t)
    && SameDomain(c, EndNode(lans, c, h, m, s), EndNode(lans, c, g, m, t))
  }

  /** Both are attached, and the first is unheard by all others. */
  ghost predicate FirstSilent(lans: Lans, c: Cluster, h: string, g: string, m: string, s: string, t: string) {
    AttachedAt(lans, c, h, m, s) && AttachedAt(lans, c, g, m, t) && Unheard(lans, c, h, m, s)
  }

  ghost predicate TwoReady(lans: Lans, c: Cluster, h: string, g: string, m: string, s: string, t: string) {
    && Start(lans, c) && PlainGroups(lans) && h in c && g in c && h != g
    && m in lans && s in lans[m].spokes && t in lans[m].spokes
    && DevOf(lans[m], h) in c[h].links && DevOf(lans[m], g) in c[g].links
  }

  lemma RunPair(lans: Lans, c: Cluster, h: string, g: string, m: string, s: string, t: string, faults: set<Call>)
    requires h in c && g in c && h != g && m in lans && s in lans[m].spokes && t in lans[m].spokes
    ensures Run(lans, c, Pair(h, g, m, s, t, faults))
            == c[h := Done(c[h], lans[m], s, h, faults).net][g := Done(c[g], lans[m], t, g, {}).net]
  {
    hide Run, Step, Done;
    RunAsked(lans, c, h, m, s, faults);
    RunNext(lans, c, [Asked(h, m, s, faults)], Asked(g, m, t, {}));
    StepAsked(lans, c[h := Done(c[h], lans[m], s, h, faults).net], g, m, t, {});
    assert [Asked(h, m, s, faults)] + [Asked(g, m, t, {})] == Pair(h, g, m, s, t, faults);
  }

  lemma OneReady(lans: Lans, c: Cluster, h: string, m: string, s: string)
    requires Start(lans, c) && PlainGroups(lans) && h in c && m in lans && s in lans[m].spokes
             && DevOf(lans[m], h) in c[h].links
    ensures Ready(lans, c[h], lans[m], s, h) && PeerKey(lans[m], s) !in c[h].links
  {
    StartReady(lans, c, h, m, s);
    hide Start, Ready;
  }

  /** What an Ensure in which nothing fails gives on one of the hosts. */
  lemma HostDone(lans: Lans, c: Cluster, h: string, m: string, s: string, pod: nat, ifname: string)
    requires Start(lans, c) && PlainGroups(lans) && h in c && m in lans && s in lans[m].spokes
             && DevOf(lans[m], h) in c[h].links
    ensures var r := Done(c[h], lans[m], s, h, {}).net;
            && Attached(r, lans[m], s) && EndUp(r, lans[m], s) && SpokeEnd(r, lans[m], s) == HostKey(s)
            && Ctx(lans, lans[m], s) && Inv(lans, r)
            && (EmptyPod(c[h], pod) ==> EmptyPod(r, pod) && CniAdd(r, s, pod, ifname).Ok?)
  {
    hide Start, Ensure, Attached, EndUp, SpokeEnd, PlainGroups, NoClash, Inv, EmptyPod, CniAdd;
    OneReady(lans, c, h, m, s);
    DoneAttaches(lans, c[h], lans[m], s, h, {});
    NsOfLan(lans, m);
    if EmptyPod(c[h], pod) {
      var r := Done(c[h], lans[m], s, h, {}).net;
      PodStaysEmpty(lans, c[h], lans[m], s, h, {}, pod);
      EndThereHere(lans, r, m, s);
      CniWorks(r, s, pod, ifname);
    }
  }

  lemma EndThereHere(lans: Lans, n: Net, m: string, s: string)
    requires NoClash(lans) && Inv(lans, n) && m in lans && Attached(n, lans[m], s)
             && SpokeEnd(n, lans[m], s) == HostKey(s)
    ensures HostKey(s) in n.links && n.links[HostKey(s)].kind.Veth?
  {
    EndOf(lans, n, m, s);
    EndInLinks(lans, n, (m, s));
    hide NoClash, Inv, EndsOf;
  }

  /** After the two Ensures, and any events but Ensures on the first host. */
  lemma ListenerStays(lans: Lans, c: Cluster, h: string, g: string, m: string, s: string, t: string, es: seq<Event>)
    requires TwoReady(lans, c, h, g, m, s, t) && h in Run(lans, c, es)
    requires Run(lans, c, es)[h := c[h]] == c[g := Done(c[g], lans[m], t, g, {}).net]
    ensures AttachedAt(lans, Run(lans, c, es), g, m, t) && EndUp(Run(lans, c, es)[g], lans[m], t)
  {
    hide Start, Done, Attached, EndUp, SpokeEnd, PlainGroups, Run, NoClash, Inv;
    HostDone(lans, c, g, m, t, 0, "");
    var d := Run(lans, c, es);
    assert d[h := c[h]][g] == d[g];
    assert g in d[h := c[h]];
  }

  /** A clean run after which both are attached with their ends up. */
  lemma BothUpHear(lans: Lans, c: Cluster, h: string, g: string, m: string, s: string, t: string, es: seq<Event>)
    requires TwoReady(lans, c, h, g, m, s, t) && forall e :: e in es ==> Clean(e)
    requires var d := Run(lans, c, es);
             AttachedAt(lans, d, h, m, s) && AttachedAt(lans, d, g, m, t)
             && EndUp(d[h], lans[m], s) && EndUp(d[g], lans[m], t)
    ensures Hear(lans, Run(lans, c, es), h, g, m, s, t)
  {
    hide Start, PlainGroups, Run, Clean, Attached, EndUp, SameDomain, EndNode;
    CleanRunDomains(lans, c, es, h, m, s, g, m, t);
  }

  lemma CleanEvents(h: string, g: string, m: string, s: string, t: string, faults: set<Call>, more: seq<Event>)
    requires faults !! LASTING_CALLS && forall e :: e in more ==> !e.EnsureEvent?
    ensures forall e :: e in Pair(h, g, m, s, t, faults) + more ==> Clean(e)
  {
  }

  /**
   From any untouched cluster: two spokes of one LAN hear each other after their Ensures; when the CNI has
   moved one into a pod nobody hears it; when the pod has brought it up they hear each other again.
   */
  lemma MoveSilences(lans: Lans, c: Cluster, h: string, g: string, m: string, s: string, t: string, pod: nat,
                     ifname: string)
    requires TwoReady(lans, c, h, g, m, s, t) && EmptyPod(c[h], pod)
    ensures var es, move, up := Pair(h, g, m, s, t, {}), CniEvent(h, s, pod, ifname), PodUpEvent(h, pod, ifname);
            && Hear(lans, Run(lans, c, es), h, g, m, s, t)
            && FirstSilent(lans, Run(lans, c, es + [move]), h, g, m, s, t)
            && Hear(lans, Run(lans, c, es + [move, up]), h, g, m, s, t)
  {
    var es, move, up := Pair(h, g, m, s, t, {}), CniEvent(h, s, pod, ifname), PodUpEvent(h, pod, ifname);
    hide Run, Pair, Podded, CniAdd, Start, PlainGroups, Attached, SpokeEnd, EndUp, Unheard, EmptyPod, Done, Inv,
      NoClash, Hear, Clean;
    RunPair(lans, c, h, g, m, s, t, {});
    var d := Run(lans, c, es);
    HostDone(lans, c, h, m, s, pod, ifname);
    ListenerStays(lans, c, h, g, m, s, t, es);
    CleanEvents(h, g, m, s, t, {}, []);
    assert es + [] == es;
    BothUpHear(lans, c, h, g, m, s, t, es);
    RunPodded(lans, c, es, h, m, s, pod, ifname);
    ListenerStays(lans, c, h, g, m, s, t, es + [move]);
    MovedUnheard(lans, c, es, [], h, m, s, pod, ifname);
    MovedUpIff(lans, c, es, [], h, m, s, pod, ifname);
    assert es + [move] + [] == es + [move];
    ListenerStays(lans, c, h, g, m, s, t, es + [move, up]);
    PoddedUp(lans, d[h], lans[m], s, pod, ifname);
    CleanEvents(h, g, m, s, t, {}, [move, up]);
    BothUpHear(lans, c, h, g, m, s, t, es + [move, up]);
  }

  /**
   From any untouched cluster: an Ensure that cannot bring the end up in the host reports an error and leaves
   its spoke attached; nobody hears it.
   */
  lemma FailedUpSilences(lans: Lans, c: Cluster, h: string, g: string, m: string, s: string, t: string)
    requires TwoReady(lans, c, h, g, m, s, t)
    ensures Done(c[h], lans[m], s, h, {UpSpokeHost}).Fail?
    ensures forall e :: e in Pair(h, g, m, s, t, {UpSpokeHost}) ==> Clean(e)
    ensures FirstSilent(lans, Run(lans, c, Pair(h, g, m, s, t, {UpSpokeHost})), h, g, m, s, t)
  {
    hide Run, Start, PlainGroups, Attached, SpokeEnd, EndUp, Unheard, Ensure, Inv, NoClash, Clean, StageOf;
    var f: set<Call> := {UpSpokeHost};
    OneReady(lans, c, h, m, s);
    LateCalls(c[h], lans[m], s, f);
    StageIff(lans, c[h], s, lans[m], h, f);
    StageEffect(lans, c[h], s, lans[m], h, "passthru", false, f);
    LeftDownHere(Done(c[h], lans[m], s, h, f).net, lans[m], s);
    RunPair(lans, c, h, g, m, s, t, f);
    ListenerStays(lans, c, h, g, m, s, t, Pair(h, g, m, s, t, f));
    CleanEvents(h, g, m, s, t, f, []);
    assert Pair(h, g, m, s, t, f) + [] == Pair(h, g, m, s, t, f);
    hide Pair, Done;
    DownUnheard(lans, c, Pair(h, g, m, s, t, f), h, m, s);
  }

  lemma LeftDownHere(n: Net, lan: LanSpec, s: string)
    requires OwnInHost(n, lan, s, false)
    ensures Attached(n, lan, s) && !EndUp(n, lan, s)
  {
  }
}
