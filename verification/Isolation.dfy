/**
 Broadcast domains across a cluster: which spokes hear each other, from the links alone.
 */
module Isolation {
  import opened Wrappers
  import opened Kernel
  import opened ApplySpec
  import opened Topology

  /** One network state per host. */
  type Cluster = map<string, Net>

  datatype Node = Node(host: string, key: Key)

  predicate Exists(c: Cluster, x: Node) {
    x.host in c && x.key in c[x.host].links
  }

  function At(c: Cluster, x: Node): Link
    requires Exists(c, x)
  {
    c[x.host].links[x.key]
  }

  // ----- what carries a frame from one link to the next: both have to be up -----

  predicate VethHop(c: Cluster, x: Node, y: Node)
    requires Exists(c, x) && Exists(c, y)
  {
    x.host == y.host && At(c, x).kind == Veth(y.key) && At(c, x).up && At(c, y).up
  }

  predicate PortHop(c: Cluster, x: Node, y: Node)
    requires Exists(c, x) && Exists(c, y)
  {
    x.host == y.host && At(c, x).master == Some(y.key) && At(c, x).up && At(c, y).up
  }

  predicate MacvtapHop(c: Cluster, x: Node, y: Node)
    requires Exists(c, x) && Exists(c, y)
  {
    x.host == y.host && At(c, x).kind.Macvtap? && At(c, x).kind.lower == y.key && At(c, x).up && At(c, y).up
  }

  /** Vxlans with the same group, vni and port hear each other, on whatever hosts they are. */
  predicate VxHop(c: Cluster, x: Node, y: Node)
    requires Exists(c, x) && Exists(c, y)
  {
    var a, b := At(c, x), At(c, y);
    a.kind.Vxlan? && b.kind.Vxlan? && a.up && b.up
    && a.kind.conf.group == b.kind.conf.group && a.kind.conf.vni == b.kind.conf.vni
    && a.kind.conf.port == b.kind.conf.port
  }

  predicate Hop(c: Cluster, x: Node, y: Node) {
    && Exists(c, x) && Exists(c, y)
    && (VethHop(c, x, y) || PortHop(c, x, y) || MacvtapHop(c, x, y) || VxHop(c, x, y))
  }

  predicate Linked(c: Cluster, x: Node, y: Node) {
    Hop(c, x, y) || Hop(c, y, x)
  }

  predicate Path(c: Cluster, p: seq<Node>) {
    |p| > 0 && forall i :: 0 <= i < |p| - 1 ==> Linked(c, p[i], p[i + 1])
  }

  ghost predicate SameDomain(c: Cluster, x: Node, y: Node) {
    exists p :: Path(c, p) && p[0] == x && p[|p| - 1] == y
  }

  // ----- attached spokes -----

  /** The spoke has a bridge end, whose other end has left the namespace. */
  predicate Outside(n: Net, lan: LanSpec, spoke: string) {
    var p := PeerKey(lan, spoke);
    p in n.links && n.links[p].kind.Veth? && !n.links[p].kind.peer.ns.Lan?
  }

  /** ... and the bridge end is up on its LAN's bridge. */
  predicate Attached(n: Net, lan: LanSpec, spoke: string) {
    var p := PeerKey(lan, spoke);
    && spoke in lan.spokes && Outside(n, lan, spoke)
    && n.links[p].up && n.links[p].master == Some(BridgeKey(lan)) && n.links[p].mask == BR_SLAVE_GRP_FWD_MASK
  }

  /** Where the pod's end of an attached spoke is. */
  function SpokeEnd(n: Net, lan: LanSpec, spoke: string): Key
    requires Attached(n, lan, spoke)
  {
    n.links[PeerKey(lan, spoke)].kind.peer
  }

  predicate IsUp(n: Net, k: Key) {
    k in n.links && n.links[k].up
  }

  /** The other end of an attached spoke is up. */
  predicate EndUp(n: Net, lan: LanSpec, spoke: string)
    requires Attached(n, lan, spoke)
  {
    IsUp(n, SpokeEnd(n, lan, spoke))
  }

  predicate BridgeUp(n: Net, lan: LanSpec) {
    IsUp(n, BridgeKey(lan))
  }

  /** The LAN's vxlan is up on its bridge. */
  predicate Uplink(n: Net, lan: LanSpec) {
    var v := VxKey(lan);
    v in n.links && n.links[v].up && n.links[v].master == Some(BridgeKey(lan))
  }

  ghost predicate ClusterInv(lans: Lans, c: Cluster) {
    NoClash(lans) && forall h :: h in c ==> Inv(lans, c[h]) && VxRight(lans, c[h])
  }

  ghost predicate AttachedAt(lans: Lans, c: Cluster, h: string, m: string, spoke: string) {
    h in c && m in lans && Attached(c[h], lans[m], spoke)
  }

  function EndNode(lans: Lans, c: Cluster, h: string, m: string, spoke: string): Node
    requires AttachedAt(lans, c, h, m, spoke)
  {
    Node(h, SpokeEnd(c[h], lans[m], spoke))
  }

  // ----- paths -----

  /** No link joins a node of `s` to one outside. */
  ghost predicate Sealed(c: Cluster, s: set<Node>) {
    forall x, y :: Linked(c, x, y) && x in s ==> y in s
  }

  /** A path never leaves, or enters, a sealed set. */
  lemma {:induction false} PathStays(c: Cluster, p: seq<Node>, s: set<Node>)
    requires Path(c, p) && Sealed(c, s)
    ensures p[0] in s <==> p[|p| - 1] in s
  {
    if |p| > 1 {
      var q := p[1..];
      forall i | 0 <= i < |q| - 1 ensures Linked(c, q[i], q[i + 1]) {
        assert Linked(c, p[i + 1], p[i + 2]);
      }
      PathStays(c, q, s);
      assert Linked(c, p[0], p[1]) && Linked(c, p[1], p[0]);
    }
  }

  lemma SealedApart(c: Cluster, s: set<Node>, x: Node, y: Node)
    requires Sealed(c, s) && x in s && y !in s
    ensures !SameDomain(c, x, y)
  {
    forall p | Path(c, p) && p[0] == x ensures p[|p| - 1] != y {
      PathStays(c, p, s);
    }
  }

  lemma DomainSymmetric(c: Cluster, x: Node, y: Node)
    ensures SameDomain(c, x, y) ==> SameDomain(c, y, x)
  {
    if SameDomain(c, x, y) {
      var p :| Path(c, p) && p[0] == x && p[|p| - 1] == y;
      var q := seq(|p|, i requires 0 <= i < |p| => p[|p| - 1 - i]);
      assert Path(c, q);
    }
  }

  lemma DomainTransitive(c: Cluster, x: Node, y: Node, z: Node)
    requires SameDomain(c, x, y) && SameDomain(c, y, z)
    ensures SameDomain(c, x, z)
  {
    var p :| Path(c, p) && p[0] == x && p[|p| - 1] == y;
    var q :| Path(c, q) && q[0] == y && q[|q| - 1] == z;
    var r := p + q[1..];
    forall i | 0 <= i < |r| - 1 ensures Linked(c, r[i], r[i + 1]) {
      if i >= |p| - 1 { assert Linked(c, q[i - |p| + 1], q[i - |p| + 2]); }
    }
    assert Path(c, r);
  }

  lemma LinkedDomain(c: Cluster, x: Node, y: Node)
    requires Linked(c, x, y)
    ensures SameDomain(c, x, y) && SameDomain(c, y, x)
  {
    assert Path(c, [x, y]) && Path(c, [y, x]);
  }

  // ----- the LAN a link belongs to -----

  /** The LAN whose namespace holds the link or its veth peer. */
  function BaseHome(links: map<Key, Link>, k: Key): Option<string>
    requires k in links
  {
    if k.ns.Lan? then Some(k.ns.name)
    else if links[k].kind.Veth? && links[k].kind.peer.ns.Lan? then Some(links[k].kind.peer.ns.name)
    else None
  }

  /** The same, seen through a macvtap. */
  function Home(links: map<Key, Link>, k: Key): Option<string>
    requires k in links
  {
    if links[k].kind.Macvtap? && links[k].kind.lower in links then BaseHome(links, links[k].kind.lower)
    else BaseHome(links, k)
  }

  lemma HopKeepsHome(lans: Lans, c: Cluster, x: Node, y: Node)
    requires ClusterInv(lans, c) && Hop(c, x, y)
    ensures Home(c[x.host].links, x.key) == Home(c[y.host].links, y.key)
  {
    if VxHop(c, x, y) {
      VxHome(lans, c, x);
      VxHome(lans, c, y);
      VxOneLan(lans, At(c, x).kind, x.key.ns.name, y.key.ns.name);
      hide NoClash, Inv;
    } else {
      hide NoClash, Home;
      LocalHome(lans, c[x.host], x.key, y.key);
    }
  }

  lemma VxOneLan(lans: Lans, kind: Kind, m: string, l: string)
    requires NoClash(lans) && m in lans && l in lans && kind.Vxlan?
    requires kind.conf.vni == lans[m].vni && kind.conf.vni == lans[l].vni
    ensures m == l
  {
  }

  /** Peers, ports and their bridges, macvtaps and what they are above have one home. */
  lemma LocalHome(lans: Lans, n: Net, k: Key, j: Key)
    requires Inv(lans, n) && k in n.links && j in n.links
    requires n.links[k].kind == Veth(j) || n.links[k].master == Some(j)
             || (n.links[k].kind.Macvtap? && n.links[k].kind.lower == j)
    ensures Home(n.links, k) == Home(n.links, j)
  {
    assert LinkOk(lans, n.links, k) && LinkOk(lans, n.links, j);
    hide Inv, HostNameOk, IsPeerName, SomeVx;
  }

  lemma VxHome(lans: Lans, c: Cluster, x: Node)
    requires ClusterInv(lans, c) && Exists(c, x) && At(c, x).kind.Vxlan?
    ensures x.key.ns.Lan? && x.key.ns.name in lans
    ensures x.key == VxKey(lans[x.key.ns.name]) && IsVxOf(lans[x.key.ns.name], At(c, x).kind)
  {
    assert LinkOk(lans, c[x.host].links, x.key);
  }

  /** The nodes that belong to LAN `m`. */
  function HomeSet(c: Cluster, m: string): set<Node> {
    set h, k | h in c && k in c[h].links && Home(c[h].links, k) == Some(m) :: Node(h, k)
  }

  lemma HomeSealed(lans: Lans, c: Cluster, m: string)
    requires ClusterInv(lans, c)
    ensures Sealed(c, HomeSet(c, m))
  {
    forall x, y | Linked(c, x, y) && x in HomeSet(c, m) ensures y in HomeSet(c, m) {
      if Hop(c, x, y) { HopKeepsHome(lans, c, x, y); } else { HopKeepsHome(lans, c, y, x); }
    }
  }

  lemma EndHome(lans: Lans, c: Cluster, h: string, m: string, s: string)
    requires ClusterInv(lans, c) && AttachedAt(lans, c, h, m, s)
    ensures Exists(c, EndNode(lans, c, h, m, s))
    ensures At(c, EndNode(lans, c, h, m, s)).kind == Veth(PeerKey(lans[m], s))
    ensures Home(c[h].links, SpokeEnd(c[h], lans[m], s)) == Some(m)
    ensures BridgeKey(lans[m]) in c[h].links
  {
    assert LinkOk(lans, c[h].links, PeerKey(lans[m], s));
  }

  /** Isolation: links of different LANs are never in one broadcast domain. */
  lemma LansIsolated(lans: Lans, c: Cluster, x: Node, y: Node)
    requires ClusterInv(lans, c) && Exists(c, x) && Exists(c, y)
    requires Home(c[x.host].links, x.key).Some?
    requires Home(c[x.host].links, x.key) != Home(c[y.host].links, y.key)
    ensures !SameDomain(c, x, y)
  {
    var m := Home(c[x.host].links, x.key).value;
    HomeSealed(lans, c, m);
    SealedApart(c, HomeSet(c, m), x, y);
  }

  // ----- within a LAN -----

  /** A link that is down reaches nothing. */
  lemma DownApart(c: Cluster, x: Node, y: Node)
    requires Exists(c, x) && !At(c, x).up && x != y
    ensures !SameDomain(c, x, y)
  {
    SealedApart(c, {x}, x, y);
  }

  /** A spoke whose bridge is down reaches only its own pair and what is above it. */
  lemma BridgeDownApart(lans: Lans, c: Cluster, h: string, m: string, s: string, y: Node)
    requires ClusterInv(lans, c) && AttachedAt(lans, c, h, m, s) && !BridgeUp(c[h], lans[m])
    requires Exists(c, y) && At(c, y).kind.Veth? && !y.key.ns.Lan? && y != EndNode(lans, c, h, m, s)
    ensures !SameDomain(c, EndNode(lans, c, h, m, s), y)
  {
    hide ClusterInv, Hop, BridgeUp;
    EndHome(lans, c, h, m, s);
    var p, e := PeerKey(lans[m], s), SpokeEnd(c[h], lans[m], s);
    var links := c[h].links;
    var island := set k | k in links && (k == p || k == e || Above(links, k, e)) :: Node(h, k);
    forall a, b | Linked(c, a, b) && a in island ensures b in island {
      LinkedExist(c, a, b);
      if Hop(c, a, b) { HopKeepsIsland(lans, c, h, m, s, a, b); } else { HopKeepsIsland(lans, c, h, m, s, b, a); }
    }
    SealedApart(c, island, Node(h, e), y);
  }

  lemma LinkedExist(c: Cluster, a: Node, b: Node)
    requires Linked(c, a, b)
    ensures Exists(c, a) && Exists(c, b)
  {
  }

  lemma HopKeepsIsland(lans: Lans, c: Cluster, h: string, m: string, s: string, a: Node, b: Node)
    requires ClusterInv(lans, c) && AttachedAt(lans, c, h, m, s) && !BridgeUp(c[h], lans[m])
    requires Hop(c, a, b)
    ensures var p, e := PeerKey(lans[m], s), SpokeEnd(c[h], lans[m], s);
            (a.host == h && (a.key == p || a.key == e || Above(c[h].links, a.key, e)))
            <==> (b.host == h && (b.key == p || b.key == e || Above(c[h].links, b.key, e)))
  {
    hide NoClash, HostNameOk, IsVxOf, OneMacvtap, IndexOk;
    EndHome(lans, c, h, m, s);
    assert LinkOk(lans, c[a.host].links, a.key) && LinkOk(lans, c[b.host].links, b.key);
    assert LinkOk(lans, c[h].links, PeerKey(lans[m], s)) && LinkOk(lans, c[h].links, SpokeEnd(c[h], lans[m], s));
  }

  /** Without a working uplink nothing of the LAN leaves the host. */
  lemma NoUplinkApart(lans: Lans, c: Cluster, h: string, m: string, s: string, y: Node)
    requires ClusterInv(lans, c) && AttachedAt(lans, c, h, m, s) && !(BridgeUp(c[h], lans[m]) && Uplink(c[h], lans[m]))
    requires Exists(c, y) && y.host != h
    ensures !SameDomain(c, EndNode(lans, c, h, m, s), y)
  {
    EndHome(lans, c, h, m, s);
    var links := c[h].links;
    var inside := set k | k in links && Home(links, k) == Some(m) && k != VxKey(lans[m]) :: Node(h, k);
    forall a, b | Linked(c, a, b) && a in inside ensures b in inside {
      if Hop(c, a, b) { HopStaysInside(lans, c, h, m, a, b); } else { HopStaysInside(lans, c, h, m, b, a); }
    }
    SealedApart(c, inside, EndNode(lans, c, h, m, s), y);
  }

  lemma HopStaysInside(lans: Lans, c: Cluster, h: string, m: string, a: Node, b: Node)
    requires ClusterInv(lans, c) && h in c && m in lans && !(BridgeUp(c[h], lans[m]) && Uplink(c[h], lans[m]))
    requires Hop(c, a, b)
    ensures (a.host == h && Home(c[h].links, a.key) == Some(m) && a.key != VxKey(lans[m]))
            <==> (b.host == h && Home(c[h].links, b.key) == Some(m) && b.key != VxKey(lans[m]))
  {
    HopKeepsHome(lans, c, a, b);
    if VxHop(c, a, b) {
      VxHome(lans, c, a);
      VxHome(lans, c, b);
      hide NoClash, Inv;
    } else {
      OwnNames(lans, m);
      hide NoClash, Home;
      LocalVx(lans, c[a.host], m, a.key, b.key);
    }
  }

  /** Only as a port of its bridge is a LAN's vxlan next to a link of its host. */
  lemma LocalVx(lans: Lans, n: Net, m: string, k: Key, j: Key)
    requires Inv(lans, n) && k in n.links && j in n.links && m in lans && lans[m].ns == m && OwnNamesApart(lans[m])
    requires n.links[k].kind == Veth(j) || n.links[k].master == Some(j)
             || (n.links[k].kind.Macvtap? && n.links[k].kind.lower == j)
    ensures j != VxKey(lans[m]) && (k == VxKey(lans[m]) ==> j == BridgeKey(lans[m]))
  {
    assert LinkOk(lans, n.links, k) && LinkOk(lans, n.links, j);
    hide Inv, HostNameOk, IsPeerName;
  }

  lemma OwnNames(lans: Lans, m: string)
    requires NoClash(lans) && m in lans
    ensures lans[m].ns == m && OwnNamesApart(lans[m])
  {
  }

  lemma EndToBridge(lans: Lans, c: Cluster, h: string, m: string, s: string)
    requires ClusterInv(lans, c) && AttachedAt(lans, c, h, m, s) && EndUp(c[h], lans[m], s) && BridgeUp(c[h], lans[m])
    ensures SameDomain(c, EndNode(lans, c, h, m, s), Node(h, BridgeKey(lans[m])))
  {
    EndHome(lans, c, h, m, s);
    var e, p, b := EndNode(lans, c, h, m, s), Node(h, PeerKey(lans[m], s)), Node(h, BridgeKey(lans[m]));
    assert VethHop(c, e, p) && PortHop(c, p, b);
    LinkedDomain(c, e, p);
    LinkedDomain(c, p, b);
    DomainTransitive(c, e, p, b);
  }

  /** Two spokes on one bridge that is up. */
  lemma SameBridge(lans: Lans, c: Cluster, h: string, m: string, s: string, t: string)
    requires ClusterInv(lans, c) && AttachedAt(lans, c, h, m, s) && AttachedAt(lans, c, h, m, t)
    requires EndUp(c[h], lans[m], s) && EndUp(c[h], lans[m], t) && BridgeUp(c[h], lans[m])
    ensures SameDomain(c, EndNode(lans, c, h, m, s), EndNode(lans, c, h, m, t))
  {
    var x, y, b := EndNode(lans, c, h, m, s), EndNode(lans, c, h, m, t), Node(h, BridgeKey(lans[m]));
    EndToBridge(lans, c, h, m, s);
    EndToBridge(lans, c, h, m, t);
    DomainSymmetric(c, y, b);
    DomainTransitive(c, x, b, y);
  }

  lemma EndToUplink(lans: Lans, c: Cluster, h: string, m: string, s: string)
    requires ClusterInv(lans, c) && AttachedAt(lans, c, h, m, s) && EndUp(c[h], lans[m], s)
    requires BridgeUp(c[h], lans[m]) && Uplink(c[h], lans[m])
    ensures SameDomain(c, EndNode(lans, c, h, m, s), Node(h, VxKey(lans[m])))
  {
    EndHome(lans, c, h, m, s);
    EndToBridge(lans, c, h, m, s);
    var v, b := Node(h, VxKey(lans[m])), Node(h, BridgeKey(lans[m]));
    assert PortHop(c, v, b);
    LinkedDomain(c, v, b);
    DomainTransitive(c, EndNode(lans, c, h, m, s), b, v);
  }

  lemma UplinksHear(lans: Lans, c: Cluster, h: string, g: string, m: string)
    requires ClusterInv(lans, c) && h in c && g in c && m in lans && Uplink(c[h], lans[m]) && Uplink(c[g], lans[m])
    ensures Linked(c, Node(h, VxKey(lans[m])), Node(g, VxKey(lans[m])))
  {
    var v, w := Node(h, VxKey(lans[m])), Node(g, VxKey(lans[m]));
    VxOfLan(lans, c, h, m);
    VxOfLan(lans, c, g, m);
    hide ClusterInv;
    assert VxHop(c, v, w);
  }

  lemma VxOfLan(lans: Lans, c: Cluster, h: string, m: string)
    requires ClusterInv(lans, c) && h in c && m in lans && VxKey(lans[m]) in c[h].links
    ensures IsVxOf(lans[m], c[h].links[VxKey(lans[m])].kind)
  {
    assert LinkOk(lans, c[h].links, VxKey(lans[m]));
    hide LinkOk;
  }

  /** Two spokes on different hosts, each with a working uplink. */
  lemma AcrossHosts(lans: Lans, c: Cluster, h: string, g: string, m: string, s: string, t: string)
    requires ClusterInv(lans, c) && AttachedAt(lans, c, h, m, s) && AttachedAt(lans, c, g, m, t)
    requires EndUp(c[h], lans[m], s) && EndUp(c[g], lans[m], t)
    requires BridgeUp(c[h], lans[m]) && BridgeUp(c[g], lans[m]) && Uplink(c[h], lans[m]) && Uplink(c[g], lans[m])
    ensures SameDomain(c, EndNode(lans, c, h, m, s), EndNode(lans, c, g, m, t))
  {
    var x, y := EndNode(lans, c, h, m, s), EndNode(lans, c, g, m, t);
    var v, w := Node(h, VxKey(lans[m])), Node(g, VxKey(lans[m]));
    hide ClusterInv, SameDomain;
    EndToUplink(lans, c, h, m, s);
    EndToUplink(lans, c, g, m, t);
    UplinksHear(lans, c, h, g, m);
    LinkedDomain(c, v, w);
    DomainTransitive(c, x, v, w);
    DomainSymmetric(c, y, w);
    DomainTransitive(c, x, w, y);
  }

  /** Different spokes have different ends. */
  lemma EndsApart(lans: Lans, c: Cluster, h: string, m: string, s: string, g: string, t: string)
    requires ClusterInv(lans, c) && AttachedAt(lans, c, h, m, s) && AttachedAt(lans, c, g, m, t)
    requires EndNode(lans, c, h, m, s) == EndNode(lans, c, g, m, t)
    ensures h == g && s == t
  {
    EndHome(lans, c, h, m, s);
    EndHome(lans, c, g, m, t);
    assert PeerName(s)[..|PeerName(s)| - 1] == s && PeerName(t)[..|PeerName(t)| - 1] == t;
  }

  /** What two attached spokes need to hear each other. */
  predicate Reach(lans: Lans, c: Cluster, h: string, m: string, s: string, g: string, l: string, t: string)
    requires h in c && g in c && m in lans && l in lans
    requires Attached(c[h], lans[m], s) && Attached(c[g], lans[l], t)
  {
    m == l && ((h == g && s == t)
               || (EndUp(c[h], lans[m], s) && EndUp(c[g], lans[l], t)
                   && BridgeUp(c[h], lans[m]) && BridgeUp(c[g], lans[m])
                   && (h == g || (Uplink(c[h], lans[m]) && Uplink(c[g], lans[m])))))
  }

  lemma ReachHears(lans: Lans, c: Cluster, h: string, m: string, s: string, g: string, l: string, t: string)
    requires ClusterInv(lans, c) && AttachedAt(lans, c, h, m, s) && AttachedAt(lans, c, g, l, t)
    requires Reach(lans, c, h, m, s, g, l, t)
    ensures SameDomain(c, EndNode(lans, c, h, m, s), EndNode(lans, c, g, l, t))
  {
    hide ClusterInv, Linked, Attached, SameDomain;
    if h == g && s == t {
      PathHere(c, EndNode(lans, c, h, m, s));
    } else if h == g {
      SameBridge(lans, c, h, m, s, t);
    } else {
      AcrossHosts(lans, c, h, g, m, s, t);
    }
  }

  lemma PathHere(c: Cluster, x: Node)
    ensures SameDomain(c, x, x)
  {
    assert Path(c, [x]);
  }

  /** What one side lacks keeps it from hearing the other. */
  lemma OneSideApart(lans: Lans, c: Cluster, h: string, m: string, s: string, g: string, t: string)
    requires ClusterInv(lans, c) && AttachedAt(lans, c, h, m, s) && AttachedAt(lans, c, g, m, t) && !(h == g && s == t)
    requires !EndUp(c[h], lans[m], s) || !BridgeUp(c[h], lans[m]) || (h != g && !Uplink(c[h], lans[m]))
    ensures !SameDomain(c, EndNode(lans, c, h, m, s), EndNode(lans, c, g, m, t))
  {
    EndHome(lans, c, h, m, s);
    EndHome(lans, c, g, m, t);
    var x, y := EndNode(lans, c, h, m, s), EndNode(lans, c, g, m, t);
    hide ClusterInv, Linked, SameDomain, Uplink;
    if x == y { EndsApart(lans, c, h, m, s, g, t); }
    if !EndUp(c[h], lans[m], s) {
      DownApart(c, x, y);
    } else if !BridgeUp(c[h], lans[m]) {
      BridgeDownApart(lans, c, h, m, s, y);
    } else {
      NoUplinkApart(lans, c, h, m, s, y);
    }
  }

  /**
   Exactly when two attached spokes share a broadcast domain, in any state that satisfies the invariant: same
   LAN, both spoke ends and both bridges up and, on different hosts, both uplinks working.
   */
  lemma SameDomainIff(lans: Lans, c: Cluster, h: string, m: string, s: string, g: string, l: string, t: string)
    requires ClusterInv(lans, c) && AttachedAt(lans, c, h, m, s) && AttachedAt(lans, c, g, l, t)
    ensures SameDomain(c, EndNode(lans, c, h, m, s), EndNode(lans, c, g, l, t)) <==> Reach(lans, c, h, m, s, g, l, t)
  {
    EndHome(lans, c, h, m, s);
    EndHome(lans, c, g, l, t);
    hide ClusterInv, Attached, SameDomain, EndUp, BridgeUp, Uplink;
    var x, y := EndNode(lans, c, h, m, s), EndNode(lans, c, g, l, t);
    if m != l {
      LansIsolated(lans, c, x, y);
    } else if Reach(lans, c, h, m, s, g, l, t) {
      ReachHears(lans, c, h, m, s, g, l, t);
    } else if !EndUp(c[h], lans[m], s) || !BridgeUp(c[h], lans[m]) || (h != g && !Uplink(c[h], lans[m])) {
      OneSideApart(lans, c, h, m, s, g, t);
    } else {
      OneSideApart(lans, c, g, m, t, h, s);
      DomainSymmetric(c, x, y);
    }
  }
}
