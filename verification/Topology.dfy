/**
 What the links of one host look like while k8slan works on it: the invariant `Inv`, which
 holds between any two calls of `Ensure`, whatever fails.
 */
module Topology {
  import opened Wrappers
  import opened Kernel
  import opened ApplySpec

  /** The LANs of the cluster, by the namespace each is dedicated to. */
  type Lans = map<string, LanSpec>

  // ----- names -----

  function AllSpokes(lans: Lans): set<string> {
    set n, s | n in lans && s in lans[n].spokes :: s
  }

  predicate EndsIn(name: string, suffix: string) {
    |suffix| <= |name| && name[|name| - |suffix|..] == suffix
  }

  function Stem(name: string, suffix: string): string
    requires EndsIn(name, suffix)
  {
    name[..|name| - |suffix|]
  }

  /** `name` is the bridge-side name of a spoke of `lan`. */
  predicate IsPeerName(lan: LanSpec, name: string) {
    EndsIn(name, "p") && Stem(name, "p") in lan.spokes
  }

  function DeviceName(spoke: string, dummy: bool): string {
    spoke + (if dummy then "V0" else "M0")
  }

  predicate IsDeviceName(lans: Lans, name: string) {
    || (EndsIn(name, "M0") && Stem(name, "M0") in AllSpokes(lans))
    || (EndsIn(name, "V0") && Stem(name, "V0") in AllSpokes(lans))
  }

  /** The names k8slan creates in a host's own namespace. */
  predicate Reserved(lans: Lans, name: string) {
    name in AllSpokes(lans) || IsDeviceName(lans, name) || name == DUMMY_IF_NAME
  }

  /** The documented uniqueness of ns, spokes and vni across LANs, and no two names that k8slan would confuse. */
  ghost predicate NoClash(lans: Lans) {
    && (forall n :: n in lans ==> lans[n].ns == n)
    && (forall n, m :: n in lans && m in lans && n != m ==> lans[n].vni != lans[m].vni)
    && (forall n, m, s :: n in lans && m in lans && s in lans[n].spokes && s in lans[m].spokes ==> n == m)
    && (forall n :: n in lans ==> OwnNamesApart(lans[n]))
    && (forall s, t {:trigger s in AllSpokes(lans), PeerName(t)} :: s in AllSpokes(lans) && t in AllSpokes(lans) ==>
          s != PeerName(t))
    && (forall s, t, d {:trigger s in AllSpokes(lans), DeviceName(t, d)} ::
          s in AllSpokes(lans) && t in AllSpokes(lans) ==> s != DeviceName(t, d))
    && (forall s :: s in AllSpokes(lans) ==> s != DUMMY_IF_NAME)
    && (forall n, h :: n in lans ==> !Reserved(lans, DevName(lans[n], h)))
  }

  predicate OwnNamesApart(lan: LanSpec) {
    && lan.bridge != lan.vxlan && lan.bridge != "lo" && lan.vxlan != "lo"
    && lan.bridge !in lan.spokes && lan.vxlan !in lan.spokes && "lo" !in lan.spokes
    && !IsPeerName(lan, lan.bridge) && !IsPeerName(lan, lan.vxlan) && !IsPeerName(lan, "lo")
  }

  // ----- the invariant -----

  /** Every reference leads to a link of the right kind, and veth peering is symmetric. */
  predicate RefsOk(links: map<Key, Link>, k: Key)
    requires k in links
  {
    && (match links[k].kind
        case Veth(p) => p != k && p in links && links[p].kind == Veth(k)
        case Macvtap(w, _) => w in links && !links[w].kind.Macvtap? && !w.ns.Lan? && links[k].master.None?
        case _ => true)
    && (links[k].master.Some? ==>
          var b := links[k].master.value;
          b in links && b.ns == k.ns && links[b].kind.Bridge? && !links[k].kind.Bridge?)
  }

  /** Any vxlan, whatever its settings; an address that the kernel gives back is never IPv4-mapped. */
  predicate SomeVx(kind: Kind) {
    kind.Vxlan? && !Is4In6(kind.conf.group)
  }

  /** The spoke end of a pair: just made in the LAN namespace, in the host, or in a pod. */
  predicate SpokePlace(lan: LanSpec, spoke: string, at: Key) {
    at == NewSpokeKey(lan, spoke) || at == HostKey(spoke) || at.ns.Pod?
  }

  predicate PlacedInLan(lan: LanSpec, k: Key, l: Link)
    requires k.ns == Lan(lan.ns)
  {
    if k.name == "lo" then l.kind.Loopback?
    else if k.name == lan.bridge then l.kind.Bridge?
    else if k.name == lan.vxlan then SomeVx(l.kind)
    else if k.name in lan.spokes then l.kind == Veth(PeerKey(lan, k.name)) && l.master.None?
    else IsPeerName(lan, k.name) && l.kind.Veth? && SpokePlace(lan, Stem(k.name, "p"), l.kind.peer)
  }

  /** Outside LAN namespaces only spoke ends lead into one, and they are not on any bridge. */
  predicate SpokeEndOk(lans: Lans, l: Link) {
    l.kind.Veth? && l.kind.peer.ns.Lan? ==>
      var p := l.kind.peer;
      p.ns.name in lans && IsPeerName(lans[p.ns.name], p.name) && l.master.None?
  }

  predicate HostNameOk(lans: Lans, name: string, l: Link) {
    && (name in AllSpokes(lans) ==>
          l.kind.Veth? && l.kind.peer.ns.Lan? && l.kind.peer.name == PeerName(name))
    && (IsDeviceName(lans, name) <==> l.kind.Macvtap?)
    && (name == DUMMY_IF_NAME ==> l.kind.Dummy?)
  }

  predicate Placed(lans: Lans, k: Key, l: Link) {
    match k.ns
    case Lan(n) => n in lans && lans[n].ns == n && PlacedInLan(lans[n], k, l)
    case Host => !l.kind.Vxlan? && SpokeEndOk(lans, l) && HostNameOk(lans, k.name, l)
    case Pod(_) => !l.kind.Vxlan? && SpokeEndOk(lans, l)
  }

  predicate LinkOk(lans: Lans, links: map<Key, Link>, k: Key)
    requires k in links
  {
    RefsOk(links, k) && Placed(lans, k, links[k])
  }

  /** `w` is a veth end. */
  predicate IsVeth(links: map<Key, Link>, w: Key) {
    w in links && links[w].kind.Veth?
  }

  predicate Above(links: map<Key, Link>, k: Key, w: Key) {
    k in links && links[k].kind.Macvtap? && links[k].kind.lower == w
  }

  /** No two macvtaps share a veth. */
  ghost predicate OneMacvtap(links: map<Key, Link>) {
    forall a, b, w :: IsVeth(links, w) && Above(links, a, w) && Above(links, b, w) ==> a == b
  }

  /** What a macvtap of this name is above: its own spoke's end, or a dummy. */
  predicate LowerFits(name: string, lower: Kind) {
    && (EndsIn(name, "M0") ==> lower.Veth? && lower.peer.ns.Lan? && lower.peer.name == PeerName(Stem(name, "M0")))
    && (EndsIn(name, "V0") ==> lower.Dummy?)
  }

  /** A macvtap in the host is the device of the spoke it is named after. */
  ghost predicate DevicesOk(links: map<Key, Link>) {
    forall k, w :: Above(links, k, w) && w in links && k.ns.Host? ==> LowerFits(k.name, links[w].kind)
  }

  ghost predicate NsOk(n: Net) {
    && (forall k :: k in n.links && k.ns.Lan? ==> IsMounted(n, k.ns.name))
    && (forall m :: IsMounted(n, m) ==> LoKey(m) in n.links)
  }

  /** Indices are fresh and name one link each. */
  ghost predicate IndexOk(n: Net) {
    && (forall k :: k in n.links ==> n.links[k].index < n.next)
    && (forall j, k :: j in n.links && k in n.links && j != k ==> n.links[j].index != n.links[k].index)
  }

  ghost predicate LinksOk(lans: Lans, links: map<Key, Link>) {
    forall k :: k in links ==> LinkOk(lans, links, k)
  }

  ghost predicate Inv(lans: Lans, n: Net) {
    LinksOk(lans, n.links) && OneMacvtap(n.links) && DevicesOk(n.links) && NsOk(n) && IndexOk(n)
  }

  // ----- right vxlans -----

  /** A vxlan of this LAN; which underlay it runs over is not said. */
  predicate IsVxOf(lan: LanSpec, kind: Kind) {
    && kind.Vxlan?
    && kind.conf.group == ReadBack(lan.group.bytes) && kind.conf.vni == lan.vni && kind.conf.port == lan.port
  }

  /** Every LAN's vxlan has its settings; `Inv` alone lets an old one of any settings stand. */
  ghost predicate VxRight(lans: Lans, n: Net) {
    forall m :: m in lans && VxKey(lans[m]) in n.links && n.links[VxKey(lans[m])].kind.Vxlan? ==>
      IsVxOf(lans[m], n.links[VxKey(lans[m])].kind)
  }

  /** A state before k8slan did anything: nothing of its own, no LAN namespace mounted. */
  ghost predicate Pristine(lans: Lans, n: Net) {
    && (forall k :: k in n.links ==>
          !k.ns.Lan? && RefsOk(n.links, k) && !n.links[k].kind.Vxlan? && !n.links[k].kind.Macvtap?
          && (k.ns.Host? ==> !Reserved(lans, k.name)))
    && IndexOk(n)
    && (forall m :: m in n.mounts ==> n.mounts[m].File?)
  }

  lemma PristineInv(lans: Lans, n: Net)
    requires Pristine(lans, n)
    ensures Inv(lans, n)
  {
  }
}
