/** That the hypotheses of the theorems about runs can be met, and what they then say of the shortest run. */
module Example {
  import opened Wrappers
  import opened Kernel
  import opened ApplySpec
  import opened Topology
  import opened EnsureInv
  import opened EnsureOutcome
  import opened Isolation
  import opened Guarantees
  import opened Runs
  import opened CleanRuns
  import LanTypes
  import Protocol
  import Webhook

  function Added(h: string, m: string, s: string): Event {
    EnsureEvent(h, m, s, "passthru", false, {})
  }

  /** The underlay that a LAN uses on this host. */
  predicate HasUnderlay(lans: Lans, c: Cluster, h: string, m: string) {
    h in c && m in lans && DevOf(lans[m], h) in c[h].links
  }

  /** One Ensure in a state of the invariant, with its underlay there and nothing failing. */
  lemma FirstEnsure(lans: Lans, n: Net, h: string, m: string, s: string)
    requires NoClash(lans) && Inv(lans, n) && PlainGroups(lans)
    requires m in lans && s in lans[m].spokes && DevOf(lans[m], h) in n.links
    ensures var r := Ensure(n, DeviceName(s, false), s, lans[m], h, "passthru", false, {}).net;
            Attached(r, lans[m], s) && EndUp(r, lans[m], s)
  {
    NsOfLan(lans, m);
    var none: set<Call> := {};
    CtxOf(lans, m, s);
    hide NoClash, Inv, Ensure, Attached, WrongVx, IsMulticast, Ctx;
    assert lans[m] == lans[m];
    MulticastOf(lans, m);
    EnsureSucceedsIff(lans, n, s, lans[m], h, "passthru", false, none);
    SuccessIsConnectedIff(lans, n, s, lans[m], h, "passthru", false, none);
  }

  lemma CtxOf(lans: Lans, m: string, s: string)
    requires NoClash(lans) && m in lans && s in lans[m].spokes
    ensures Ctx(lans, lans[m], s)
  {
  }

  lemma MulticastOf(lans: Lans, m: string)
    requires PlainGroups(lans) && m in lans
    ensures IsMulticast(lans[m].group)
  {
  }

  /**
   From untouched hosts, one Ensure on each of two: the spokes are attached, and hear each other exactly if
   their LAN is the same.
   */
  lemma TwoHosts(lans: Lans, c: Cluster, h: string, m: string, s: string, g: string, l: string, t: string)
    requires Start(lans, c) && PlainGroups(lans) && h != g
    requires HasUnderlay(lans, c, h, m) && HasUnderlay(lans, c, g, l) && s in lans[m].spokes && t in lans[l].spokes
    ensures var d := Run(lans, c, [Added(h, m, s), Added(g, l, t)]);
            && AttachedAt(lans, d, h, m, s) && AttachedAt(lans, d, g, l, t)
            && (SameDomain(d, EndNode(lans, d, h, m, s), EndNode(lans, d, g, l, t)) <==> m == l)
  {
    var es := [Added(h, m, s), Added(g, l, t)];
    StartInv(lans, c, h);
    StartInv(lans, c, g);
    FirstEnsure(lans, c[h], h, m, s);
    FirstEnsure(lans, c[g], g, l, t);
    TwoSteps(lans, c, h, m, s, g, l, t);
    hide *;
    CleanPair(h, m, s, g, l, t);
    CleanRunDomains(lans, c, es, h, m, s, g, l, t);
  }

  lemma StartInv(lans: Lans, c: Cluster, h: string)
    requires Start(lans, c) && h in c
    ensures NoClash(lans) && Inv(lans, c[h])
  {
    hide NoClash, Inv;
    PristineInv(lans, c[h]);
  }

  lemma CleanPair(h: string, m: string, s: string, g: string, l: string, t: string)
    ensures forall e :: e in [Added(h, m, s), Added(g, l, t)] ==> Clean(e)
  {
  }

  lemma TwoSteps(lans: Lans, c: Cluster, h: string, m: string, s: string, g: string, l: string, t: string)
    requires h in c && g in c && h != g && m in lans && l in lans && s in lans[m].spokes && t in lans[l].spokes
    requires var r := Ensure(c[h], DeviceName(s, false), s, lans[m], h, "passthru", false, {}).net;
             Attached(r, lans[m], s) && EndUp(r, lans[m], s)
    requires var r := Ensure(c[g], DeviceName(t, false), t, lans[l], g, "passthru", false, {}).net;
             Attached(r, lans[l], t) && EndUp(r, lans[l], t)
    ensures var d := Run(lans, c, [Added(h, m, s), Added(g, l, t)]);
            && AttachedAt(lans, d, h, m, s) && AttachedAt(lans, d, g, l, t)
            && EndUp(d[h], lans[m], s) && EndUp(d[g], lans[l], t)
  {
    hide Ensure, Attached;
    var a, b := Added(h, m, s), Added(g, l, t);
    assert [a, b][..1] == [a] && [a][..0] == [];
    assert Run(lans, c, [a]) == Step(lans, c, a);
  }

  // ----- a cluster that meets the hypotheses -----

  const PLAIN := Addr([239, 0, 0, 1], "")

  function Red(g: Addr): LanSpec { LanSpec("red", "br", "vx", 1, g, 4789, "eth0", map[], ["a", "b"]) }

  const BLUE := LanSpec("blue", "br", "vx", 2, Addr([239, 0, 0, 2], ""), 4789, "eth0", map[], ["c"])

  /** Two LANs, the first with any group. */
  function TwoLans(g: Addr): Lans { map["red" := Red(g), "blue" := BLUE] }

  /** A host with its loopback and one card. */
  function PlainHost(): Net {
    Net(map[HostKey("lo") := Link(1, Loopback, true, None, 0), HostKey("eth0") := Link(2, Foreign, true, None, 0)],
        3, map[])
  }

  lemma SpokeNames(g: Addr, x: string)
    ensures x in AllSpokes(TwoLans(g)) <==> x in {"a", "b", "c"}
  {
    var lans := TwoLans(g);
    assert lans.Keys == {"red", "blue"};
    if x in {"a", "b"} { assert "red" in lans && x in lans["red"].spokes; }
    if x == "c" { assert "blue" in lans && x in lans["blue"].spokes; }
  }

  /** Spokes of one letter are never confused with a peer, a device, the dummy or a fixed name. */
  lemma ShortNames(s: string, t: string)
    requires s in {"a", "b", "c"} && t in {"a", "b", "c"}
    ensures s != t + "p" && s != t + "M0" && s != t + "V0" && s != DUMMY_IF_NAME
    ensures s != "br" && s != "vx" && s != "lo" && s != "eth0"
  {
    assert |s| == 1 && |t| == 1;
  }

  lemma FixedNames(x: string)
    requires x in {"br", "vx", "lo", "eth0"}
    ensures x != DUMMY_IF_NAME && !EndsIn(x, "p") && !EndsIn(x, "M0") && !EndsIn(x, "V0")
  {
  }

  lemma LanIs(g: Addr, n: string)
    requires n in TwoLans(g)
    ensures TwoLans(g)[n] == if n == "red" then Red(g) else BLUE
    ensures n == "red" || n == "blue"
  {
  }

  lemma NotReserved(g: Addr, n: string, h: string)
    requires n in TwoLans(g)
    ensures !Reserved(TwoLans(g), DevName(TwoLans(g)[n], h))
  {
    LanIs(g, n);
    assert DevName(TwoLans(g)[n], h) == "eth0";
    FixedNames("eth0");
    SpokeNames(g, "eth0");
    hide AllSpokes, TwoLans;
  }

  lemma LansApart(g: Addr, n: string, m: string)
    requires n in TwoLans(g) && m in TwoLans(g)
    ensures TwoLans(g)[n].ns == n && OwnNamesApart(TwoLans(g)[n])
    ensures n != m ==>
              && TwoLans(g)[n].vni != TwoLans(g)[m].vni
              && forall s :: s in TwoLans(g)[n].spokes ==> s !in TwoLans(g)[m].spokes
  {
    LanIs(g, n);
    LanIs(g, m);
    OwnApartHere(g, TwoLans(g)[n]);
    hide OwnNamesApart, TwoLans;
  }

  lemma TwoLansNoClash(g: Addr)
    ensures NoClash(TwoLans(g))
  {
    hide OwnNamesApart, Reserved, AllSpokes, TwoLans, DevName;
    var lans := TwoLans(g);
    forall s, t | s in AllSpokes(lans) && t in AllSpokes(lans)
      ensures s != t + "p" && s != t + "M0" && s != t + "V0" && s != DUMMY_IF_NAME
    {
      SpokeNames(g, s);
      SpokeNames(g, t);
      ShortNames(s, t);
    }
    forall n, m | n in lans && m in lans
      ensures lans[n].ns == n && OwnNamesApart(lans[n])
      ensures n != m ==> lans[n].vni != lans[m].vni && forall s :: s in lans[n].spokes ==> s !in lans[m].spokes
    {
      LansApart(g, n, m);
    }
    forall n, h | n in lans ensures !Reserved(lans, DevName(lans[n], h)) { NotReserved(g, n, h); }
  }

  lemma TwoLansPlain()
    ensures PlainGroups(TwoLans(PLAIN))
  {
    forall n | n in TwoLans(PLAIN) ensures IsMulticast(TwoLans(PLAIN)[n].group) && PlainGroup(TwoLans(PLAIN)[n].group) {
      LanIs(PLAIN, n);
    }
  }

  lemma OwnApartHere(g: Addr, lan: LanSpec)
    requires lan in {Red(g), BLUE}
    ensures OwnNamesApart(lan)
  {
    FixedNames("br");
    FixedNames("vx");
    FixedNames("lo");
    forall x | x in lan.spokes ensures x in {"a", "b", "c"} { }
    if "br" in lan.spokes { ShortNames("br", "a"); }
    if "vx" in lan.spokes { ShortNames("vx", "a"); }
    if "lo" in lan.spokes { ShortNames("lo", "a"); }
  }

  lemma PlainHostPristine(g: Addr)
    ensures Pristine(TwoLans(g), PlainHost())
  {
    FixedNames("lo");
    FixedNames("eth0");
    SpokeNames(g, "lo");
    SpokeNames(g, "eth0");
  }

  /**
   Two LANs on two hosts meet every hypothesis, and the runs do both things: spokes of one LAN hear each other,
   spokes of two do not.
   */
  lemma HypothesesCanBeMet()
    ensures var lans, c := TwoLans(PLAIN), map["w1" := PlainHost(), "w2" := PlainHost()];
            && Start(lans, c) && PlainGroups(lans)
            && (exists es :: AttachedAt(lans, Run(lans, c, es), "w1", "red", "a")
                             && AttachedAt(lans, Run(lans, c, es), "w2", "red", "b")
                             && SameDomain(Run(lans, c, es), EndNode(lans, Run(lans, c, es), "w1", "red", "a"),
                                           EndNode(lans, Run(lans, c, es), "w2", "red", "b")))
            && (exists es :: AttachedAt(lans, Run(lans, c, es), "w1", "red", "a")
                             && AttachedAt(lans, Run(lans, c, es), "w2", "blue", "c")
                             && !SameDomain(Run(lans, c, es), EndNode(lans, Run(lans, c, es), "w1", "red", "a"),
                                            EndNode(lans, Run(lans, c, es), "w2", "blue", "c")))
  {
    var lans, c := TwoLans(PLAIN), map["w1" := PlainHost(), "w2" := PlainHost()];
    TwoLansNoClash(PLAIN);
    TwoLansPlain();
    PlainHostPristine(PLAIN);
    hide NoClash, PlainGroups, Pristine, Run, AttachedAt, SameDomain, EndNode;
    assert "w1" != "w2" && "red" != "blue";
    TwoHosts(lans, c, "w1", "red", "a", "w2", "red", "b");
    TwoHosts(lans, c, "w1", "red", "a", "w2", "blue", "c");
  }

  // ----- a host with a card of its own in the map -----

  /** The first LAN again, with another card on w1. */
  const MAPPED_RED := LanSpec("red", "br", "vx", 1, PLAIN, 4789, "eth0", map["w1" := "eth1"], ["a", "b"])

  function MappedLans(): Lans { map["red" := MAPPED_RED] }

  /** A host with two cards, or without the first. */
  function CardHost(both: bool): Net {
    var lo, one := Link(1, Loopback, true, None, 0), Link(3, Foreign, true, None, 0);
    Net(if both
        then map[HostKey("lo") := lo, HostKey("eth0") := Link(2, Foreign, true, None, 0), HostKey("eth1") := one]
        else map[HostKey("lo") := lo, HostKey("eth1") := one],
        4, map[])
  }

  lemma MappedNames(x: string)
    ensures x in AllSpokes(MappedLans()) ==> x in {"a", "b"}
    ensures x in {"lo", "eth0", "eth1"} ==> !Reserved(MappedLans(), x)
  {
    hide AllSpokes, Stem;
    MappedSpokes(x);
    CardNames(x);
  }

  lemma MappedSpokes(x: string)
    ensures x in AllSpokes(MappedLans()) ==> x in {"a", "b"}
  {
    assert MappedLans().Keys == {"red"};
  }

  lemma CardNames(x: string)
    ensures x in {"lo", "eth0", "eth1"} ==>
              x != DUMMY_IF_NAME && !EndsIn(x, "M0") && !EndsIn(x, "V0") && x !in {"a", "b"}
  {
    if x in {"lo", "eth0", "eth1"} { assert |x| >= 2 && x[|x| - 2] !in {'M', 'V'}; }
  }

  lemma MappedNoClash()
    ensures NoClash(MappedLans())
  {
    hide OwnNamesApart, Reserved, AllSpokes, DevName;
    var lans := MappedLans();
    assert lans.Keys == {"red"} && lans["red"] == MAPPED_RED;
    MappedOwn();
    forall s, t | s in AllSpokes(lans) && t in AllSpokes(lans)
      ensures s != t + "p" && s != t + "M0" && s != t + "V0" && s != DUMMY_IF_NAME
    {
      MappedNames(s);
      MappedNames(t);
      ShortNames(s, t);
    }
    forall h ensures !Reserved(lans, DevName(MAPPED_RED, h)) {
      MappedCards(h);
      MappedNames(DevName(MAPPED_RED, h));
    }
  }

  lemma MappedOwn()
    ensures OwnNamesApart(MAPPED_RED)
  {
    OwnApartHere(PLAIN, Red(PLAIN));
  }

  lemma MappedCards(h: string)
    ensures DevName(MAPPED_RED, h) == if h == "w1" then "eth1" else "eth0"
  {
  }

  lemma CardHostPristine(both: bool)
    ensures Pristine(MappedLans(), CardHost(both))
  {
    MappedNames("lo");
    MappedNames("eth0");
    MappedNames("eth1");
    hide Reserved;
  }

  /**
   With w1 mapped to a card of its own: its vxlan runs over that card and another host's over the default one,
   and where the default card is missing w1 is served and another host is not.
   */
  lemma PerHostUnderlay(both: bool, h: string)
    requires h in {"w1", "w2"}
    ensures var r := Ensure(CardHost(both), DeviceName("a", false), "a", MAPPED_RED, h, "passthru", false, {});
            var v := Key(Lan("red"), "vx");
            && (r.Ok? <==> both || h == "w1")
            && (r.Ok? ==> v in r.net.links && r.net.links[v].kind.Vxlan?
                          && r.net.links[v].kind.conf.dev == if h == "w1" then 3 else 2)
  {
    var lans, n, lan := MappedLans(), CardHost(both), MAPPED_RED;
    MappedNoClash();
    CardHostPristine(both);
    PristineInv(lans, n);
    MappedCtx();
    CardsOf(both);
    hide NoClash, Inv, Ensure, IsMulticast, Pristine, WrongVx, CardHost, DevName;
    EnsureSucceedsIff(lans, n, "a", lan, h, "passthru", false, {});
    if Ensure(n, DeviceName("a", false), "a", lan, h, "passthru", false, {}).Ok? {
      EnsureRepairsVx(lans, n, "a", lan, h, "passthru", false, {});
    }
  }

  lemma MappedCtx()
    ensures NoClash(MappedLans()) ==> Ctx(MappedLans(), MAPPED_RED, "a")
    ensures IsMulticast(MAPPED_RED.group)
  {
    hide NoClash;
  }

  lemma CardsOf(both: bool)
    ensures HostKey("eth1") in CardHost(both).links && CardHost(both).links[HostKey("eth1")].index == 3
    ensures HostKey("eth0") in CardHost(both).links <==> both
    ensures both ==> CardHost(both).links[HostKey("eth0")].index == 2
    ensures MAPPED_RED.devMap == map["w1" := "eth1"] && MAPPED_RED.defaultDev == "eth0" && "w2" != "w1"
  {
  }

  // ----- the same for the finalizer protocol -----

  function SomeSpec(): LanTypes.LANSpec {
    LanTypes.LANSpec(Some("red"), Some("br"), Some("vx"), Some(1), Some(Webhook.DEFAULT_VX_GROUP), "eth0", map[],
                     Some(4789), ["a"])
  }

  /** Any set of hosts can start the protocol with an admitted LAN. */
  lemma ProtocolCanStart(hosts: set<string>) returns (s: Protocol.Sys)
    ensures Protocol.Initial(s) && s.hosts.Keys == hosts && s.hist[0].fins == []
  {
    s := Protocol.Sys([Protocol.Obj(SomeSpec(), false, [])], map h | h in hosts :: Protocol.FRESH);
    assert LanTypes.HasText("red") by { assert "red"[0] as int > 32; }
    assert Protocol.Stored(SomeSpec());
  }
}
