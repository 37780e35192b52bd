/**
 The part of a host's network stack that k8slan drives: named links in network
 namespaces, and the mount points under /var/run/netns that keep a LAN namespace alive.

 A link is found by its namespace and name, so names are unique per namespace by
 construction.  A reference from one link to another (veth peer, bridge master, lower
 device) is the key of the link referred to; `Move` rewrites it when that link moves.
 `index` is the link's identity: every created link gets a fresh one.
 */
module Kernel {
  import opened Wrappers

  datatype Ns = Host | Lan(name: string) | Pod(id: nat)
  datatype Key = Key(ns: Ns, name: string)

  type byte = x: int | 0 <= x < 256

  /** A vxlan's settings; `group` is the address as netlink reads it back. */
  datatype Conf = Conf(group: seq<byte>, vni: int, dev: nat, port: int)

  datatype Mode = BridgeMode | Private | Vepa | Passthru

  datatype Kind =
    | Loopback
    | Bridge
    | Dummy
    | Vxlan(conf: Conf)
    | Veth(peer: Key)
    | Macvtap(lower: Key, mode: Mode)
    | Foreign

  datatype Link = Link(index: nat, kind: Kind, up: bool, master: Option<Key>, mask: nat)

  /** A LAN mount point is absent (no entry), a plain file, or a mounted namespace. */
  datatype Mount = File | Mounted

  datatype Net = Net(links: map<Key, Link>, next: nat, mounts: map<string, Mount>)

  // ----- creating links -----

  function Fresh(n: Net, kind: Kind): Link {
    Link(n.next, kind, false, None, 0)
  }

  function Add(n: Net, k: Key, kind: Kind): Option<Net> {
    if k in n.links then None
    else Some(n.(links := n.links[k := Fresh(n, kind)], next := n.next + 1))
  }

  function AddVeth(n: Net, k: Key, peer: Key): Option<Net> {
    if k in n.links || peer in n.links || k == peer then None
    else Some(n.(links := n.links[k := Link(n.next, Veth(peer), false, None, 0)]
                                 [peer := Link(n.next + 1, Veth(k), false, None, 0)],
                 next := n.next + 2))
  }

  /** A macvtap asked for above another macvtap is put above that one's own lower device. */
  function RealLower(n: Net, lower: Key): Key
    requires lower in n.links
  {
    if n.links[lower].kind.Macvtap? then n.links[lower].kind.lower else lower
  }

  function AddMacvtap(n: Net, k: Key, lower: Key, mode: Mode): Option<Net> {
    if lower !in n.links then None else Add(n, k, Macvtap(RealLower(n, lower), mode))
  }

  // ----- changing links -----

  function SetUp(n: Net, k: Key): Option<Net> {
    if k !in n.links then None
    else Some(n.(links := n.links[k := n.links[k].(up := true)]))
  }

  /** A port that is on this bridge already is left alone; otherwise it starts without a mask. */
  function Enslaved(l: Link, b: Key): Link {
    if l.master == Some(b) then l else l.(master := Some(b), mask := 0)
  }

  function SetMaster(n: Net, k: Key, b: Key): Option<Net> {
    if k !in n.links || b !in n.links || k.ns != b.ns || !n.links[b].kind.Bridge? || n.links[k].kind.Bridge?
    then None
    else Some(n.(links := n.links[k := Enslaved(n.links[k], b)]))
  }

  /** Setting group_fwd_mask works on bridge ports only. */
  function SetMask(n: Net, k: Key, mask: nat): Option<Net> {
    if k !in n.links || n.links[k].master.None? then None
    else Some(n.(links := n.links[k := n.links[k].(mask := mask)]))
  }

  function Renamed(x: Key, from: Key, to: Key): Key {
    if x == from then to else x
  }

  function Redirect(l: Link, from: Key, to: Key): Link {
    match l.kind
    case Veth(p) => l.(kind := Veth(Renamed(p, from, to)))
    case Macvtap(w, m) => l.(kind := Macvtap(Renamed(w, from, to), m))
    case _ => l
  }

  /** Moving a link to another namespace takes it down and off its bridge. */
  function Move(n: Net, k: Key, to: Key): Option<Net> {
    if k !in n.links || to in n.links || n.links[k].kind.Bridge? || n.links[k].kind.Loopback? then None
    else Some(n.(links :=
                   map x | x in n.links.Keys - {k} + {to} ::
                     if x == to then n.links[k].(up := false, master := None, mask := 0)
                     else Redirect(n.links[x], k, to)))
  }

  // ----- deleting links -----

  /** `roots` and the other ends of the veth pairs among them. */
  function Pairs(links: map<Key, Link>, roots: set<Key>): set<Key> {
    set k | k in links && (k in roots || (links[k].kind.Veth? && links[k].kind.peer in roots))
  }

  /** Everything that goes when `roots` go: both ends of a veth pair, and macvtaps above them. */
  function Doomed(links: map<Key, Link>, roots: set<Key>): set<Key> {
    var d := Pairs(links, roots);
    set k | k in links && (k in d || (links[k].kind.Macvtap? && links[k].kind.lower in d))
  }

  function Unslave(l: Link, gone: set<Key>): Link {
    if l.master.Some? && l.master.value in gone then l.(master := None, mask := 0) else l
  }

  function Erase(n: Net, roots: set<Key>): Net {
    var gone := Doomed(n.links, roots);
    n.(links := map k | k in n.links && k !in gone :: Unslave(n.links[k], gone))
  }

  function KeysIn(links: map<Key, Link>, ns: Ns): set<Key> {
    set k | k in links && k.ns == ns
  }

  // ----- namespaces -----

  function LoKey(lan: string): Key { Key(Lan(lan), "lo") }

  function MountNs(n: Net, lan: string): Net {
    n.(links := n.links[LoKey(lan) := Fresh(n, Loopback)], next := n.next + 1, mounts := n.mounts[lan := Mounted])
  }

  function DestroyNs(n: Net, ns: Ns): Net {
    Erase(n, KeysIn(n.links, ns))
  }
}
