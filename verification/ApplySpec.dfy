/**
 `Ensure`, `NewNS`, `DeleteNamed` and their helpers as functions of the network state.

 Every call that the source makes into the operating system is a `Call`; a call fails when
 its own precondition fails (no such link, name taken, wrong kind) or when it is listed in
 `faults`, whatever the reason.  A lookup of a link made just before has no name of its own:
 its failure is that of the next call, which returns with the same state.  An early return of
 the source is `Fail`, with the state as that return leaves it.
 */
module ApplySpec {
  import opened Wrappers
  import opened Kernel

  const DUMMY_IF_NAME := "k8slan-dummy"
  const BR_SLAVE_GRP_FWD_MASK := 65533

  /** A group address as the spec spells it: 4 or 16 bytes and, for IPv6, perhaps a zone. */
  datatype Addr = Addr(bytes: seq<byte>, zone: string)

  /** A LAN spec with every pointer followed. */
  datatype LanSpec = LanSpec(
    ns: string, bridge: string, vxlan: string, vni: int, group: Addr, port: int,
    defaultDev: string, devMap: map<string, string>, spokes: seq<string>)

  datatype Call =
    | NsPrep | NsCreate | NsMount | NsReopen | NsOpen | NsUnmount | NsUnlink
    | LoUp | FindDev
    | FindBr | AddBr | UpBr
    | FindVx | DelVx
    | DelPeer | AddPair | UpSpoke | MasterPeer | MaskPeer | UpPeer | MoveSpoke
    | AddVx | FindVxAgain | FindBrAgain | MasterVx | MaskVx | UpVx
    | UpSpokeHost
    | FindDummy | AddDummy
    | DelMac | FindLower | AddMac | UpMac

  datatype Out = Ok(net: Net) | Fail(net: Net) {
    predicate IsFailure() { Fail? }
    function PropagateFailure(): Out requires Fail? { this }
    function Extract(): Net requires Ok? { net }
  }

  /** One call: on failure the state stays as it was. */
  function Try(n: Net, r: Option<Net>, c: Call, faults: set<Call>): Out {
    if c in faults || r.None? then Fail(n) else Ok(r.value)
  }

  // ----- addresses -----

  predicate Is4In6(b: seq<byte>) {
    |b| == 16 && b[..10] == [0, 0, 0, 0, 0, 0, 0, 0, 0, 0] && b[10] == 255 && b[11] == 255
  }

  /** How the kernel's copy of a group reads back: an IPv4-mapped address becomes IPv4, a zone is lost. */
  function ReadBack(b: seq<byte>): seq<byte> {
    if Is4In6(b) then b[12..] else b
  }

  predicate IsMulticast(a: Addr) {
    var b := ReadBack(a.bytes);
    if |b| == 4 then 224 <= b[0] < 240
    else |b| == 16 && b[0] == 255
  }

  /** The group survives the trip through the kernel unchanged. */
  predicate PlainGroup(a: Addr) {
    a.zone == "" && !Is4In6(a.bytes)
  }

  // ----- names -----

  function PeerName(spoke: string): string { spoke + "p" }
  function BridgeKey(lan: LanSpec): Key { Key(Lan(lan.ns), lan.bridge) }
  function VxKey(lan: LanSpec): Key { Key(Lan(lan.ns), lan.vxlan) }
  function PeerKey(lan: LanSpec, spoke: string): Key { Key(Lan(lan.ns), PeerName(spoke)) }
  function NewSpokeKey(lan: LanSpec, spoke: string): Key { Key(Lan(lan.ns), spoke) }
  function HostKey(name: string): Key { Key(Host, name) }

  // ----- ns.go -----

  predicate IsMounted(n: Net, lan: string) {
    lan in n.mounts && n.mounts[lan].Mounted?
  }

  function NewNs(n: Net, lan: string, faults: set<Call>): Out
    requires !IsMounted(n, lan)
  {
    if NsPrep in faults || NsCreate in faults then Fail(n)
    else if NsMount in faults then Fail(n.(mounts := n.mounts - {lan}))
    else
      var m := MountNs(n, lan);
      if NsReopen in faults then Fail(m) else Ok(m)
  }

  /** Only a mounted name can be unmounted; a plain file makes the unmount, and so the call, fail. */
  function DeleteNamed(n: Net, lan: string, faults: set<Call>): Out {
    if !IsMounted(n, lan) || NsUnmount in faults then Fail(n)
    else
      var m := DestroyNs(n, Lan(lan));
      if NsUnlink in faults then Fail(m.(mounts := m.mounts[lan := File]))
      else Ok(m.(mounts := m.mounts - {lan}))
  }

  /** A mounted name whose open fails is unmounted and recreated; the unmount itself is taken to work. */
  function EnsureNs(n: Net, lan: string, faults: set<Call>): Out {
    if lan !in n.mounts then NewNs(n, lan, faults)
    else if n.mounts[lan].Mounted? && NsOpen !in faults then Ok(n)
    else NewNs(DeleteNamed(n, lan, faults - {NsUnmount}).net, lan, faults)
  }

  // ----- apply.go: helpers -----

  function LinkDelete(n: Net, k: Key, c: Call, faults: set<Call>): Out {
    if c in faults then Fail(n)
    else if k !in n.links then Ok(n)
    else if n.links[k].kind.Loopback? then Fail(n)
    else Ok(Erase(n, {k}))
  }

  /** The texts that ask for a mode. */
  predicate Asks(text: string, mode: Mode) {
    match mode
    case BridgeMode => text == "" || text == "bridge"
    case Private => text == "private"
    case Vepa => text == "vepa"
    case Passthru => text == "passthru"
  }

  function ModeFromString(s: string): (r: Option<Mode>)
    ensures r.Some? ==> Asks(s, r.value)
    ensures r.None? ==> forall m :: !Asks(s, m)
  {
    if s == "" || s == "bridge" then Some(BridgeMode)
    else if s == "private" then Some(Private)
    else if s == "vepa" then Some(Vepa)
    else if s == "passthru" then Some(Passthru)
    else None
  }

  function CreateMacvtap(n: Net, mac: string, lower: string, mode: string, faults: set<Call>): Out {
    if FindLower in faults || HostKey(lower) !in n.links || ModeFromString(mode).None? then Fail(n)
    else
      var n1 :- Try(n, AddMacvtap(n, HostKey(mac), HostKey(lower), ModeFromString(mode).value), AddMac, faults);
      Try(n1, SetUp(n1, HostKey(mac)), UpMac, faults)
  }

  function RecreateMacvtap(n: Net, mac: string, lower: string, mode: string, faults: set<Call>): Out {
    var n1 :- LinkDelete(n, HostKey(mac), DelMac, faults);
    CreateMacvtap(n1, mac, lower, mode, faults)
  }

  // ----- apply.go: the phases of Ensure -----

  function DevName(lan: LanSpec, hostname: string): string {
    if hostname in lan.devMap then lan.devMap[hostname] else lan.defaultDev
  }

  function WantedConf(lan: LanSpec, dev: nat): Conf {
    Conf(ReadBack(lan.group.bytes), lan.vni, dev, lan.port)
  }

  function EnsureBridge(n: Net, lan: LanSpec, faults: set<Call>): Out {
    var k := BridgeKey(lan);
    if FindBr !in faults && k in n.links then
      if n.links[k].kind.Bridge? then Ok(n) else Fail(n)
    else
      var n1 :- Try(n, Add(n, k, Bridge), AddBr, faults);
      Try(n1, SetUp(n1, k), UpBr, faults)
  }

  predicate VxFound(n: Net, lan: LanSpec, faults: set<Call>) {
    FindVx !in faults && VxKey(lan) in n.links
  }

  /** `needToAdd` after the vxlan check: there is none, or its settings differ from the spec's. */
  predicate NeedVx(n: Net, lan: LanSpec, dev: nat, faults: set<Call>)
    requires VxFound(n, lan, faults) ==> n.links[VxKey(lan)].kind.Vxlan?
  {
    VxFound(n, lan, faults) ==>
      var conf := n.links[VxKey(lan)].kind.conf;
      || !(lan.group.zone == "" && lan.group.bytes == conf.group)
      || conf.vni != lan.vni
      || conf.dev != dev
      || conf.port != lan.port
  }

  function EnsureVeth(n: Net, lan: LanSpec, spoke: string, faults: set<Call>): Out {
    var p, s := PeerKey(lan, spoke), NewSpokeKey(lan, spoke);
    var n0 := LinkDelete(n, p, DelPeer, faults).net;
    var n1 :- Try(n0, AddVeth(n0, s, p), AddPair, faults);
    var n2 :- Try(n1, SetUp(n1, s), UpSpoke, faults);
    var n3 :- Try(n2, SetMaster(n2, p, BridgeKey(lan)), MasterPeer, faults);
    var n4 :- Try(n3, SetMask(n3, p, BR_SLAVE_GRP_FWD_MASK), MaskPeer, faults);
    var n5 :- Try(n4, SetUp(n4, p), UpPeer, faults);
    Try(n5, Move(n5, s, HostKey(spoke)), MoveSpoke, faults)
  }

  /** A taken name is not an error here. */
  function CreateVx(n: Net, lan: LanSpec, dev: nat, faults: set<Call>): Out {
    if !IsMulticast(lan.group) || AddVx in faults then Fail(n)
    else match Add(n, VxKey(lan), Vxlan(WantedConf(lan, dev)))
      case Some(m) => Ok(m)
      case None => Ok(n)
  }

  function AttachVx(n: Net, lan: LanSpec, faults: set<Call>): Out {
    var v := VxKey(lan);
    if FindVxAgain in faults || v !in n.links || FindBrAgain in faults || BridgeKey(lan) !in n.links then Fail(n)
    else
      var n1 :- Try(n, SetMaster(n, v, BridgeKey(lan)), MasterVx, faults);
      var n2 :- Try(n1, SetMask(n1, v, BR_SLAVE_GRP_FWD_MASK), MaskVx, faults);
      Try(n2, SetUp(n2, v), UpVx, faults)
  }

  /** The error of the attach step never reaches the check that follows it, so `AttachVx` counts as done. */
  function EnsureVx(n: Net, lan: LanSpec, dev: nat, faults: set<Call>): Out {
    var n1 :- CreateVx(n, lan, dev, faults);
    Ok(AttachVx(n1, lan, faults).net)
  }

  function EnsureMacvtap(n: Net, mac: string, spoke: string, mode: string, dummy: bool, faults: set<Call>): Out {
    if !dummy then RecreateMacvtap(n, mac, spoke, mode, faults)
    else
      var n1 :- if FindDummy !in faults && HostKey(DUMMY_IF_NAME) in n.links then Ok(n)
                else Try(n, Add(n, HostKey(DUMMY_IF_NAME), Dummy), AddDummy, faults);
      RecreateMacvtap(n1, mac, DUMMY_IF_NAME, "private", faults)
  }

  /** Everything up to and including the lookup of the vxlan: what the rest of Ensure starts from. */
  function Prologue(n: Net, lan: LanSpec, hostname: string, faults: set<Call>): (r: Out)
    ensures r.Ok? ==> HostKey(DevName(lan, hostname)) in r.net.links
    ensures r.Ok? && VxFound(r.net, lan, faults) ==> r.net.links[VxKey(lan)].kind.Vxlan?
  {
    var n1 :- EnsureNs(n, lan.ns, faults);
    var n2 :- Try(n1, SetUp(n1, LoKey(lan.ns)), LoUp, faults);
    if FindDev in faults || HostKey(DevName(lan, hostname)) !in n2.links then Fail(n2)
    else
      var n3 :- EnsureBridge(n2, lan, faults);
      if VxFound(n3, lan, faults) && !n3.links[VxKey(lan)].kind.Vxlan? then Fail(n3) else Ok(n3)
  }

  /** Dropping a wrong vxlan; the result of LinkDelete is ignored. */
  function DropVx(n: Net, lan: LanSpec, need: bool, faults: set<Call>): Net {
    if need then LinkDelete(n, VxKey(lan), DelVx, faults).net else n
  }

  /** Everything after the vxlan check. */
  function Epilogue(n: Net, mac: string, spoke: string, lan: LanSpec, dev: nat, mode: string, dummy: bool,
                    need: bool, faults: set<Call>): Out
  {
    var n1 :- EnsureVeth(DropVx(n, lan, need, faults), lan, spoke, faults);
    var n2 :- if need then EnsureVx(n1, lan, dev, faults) else Ok(n1);
    var n3 :- Try(n2, SetUp(n2, HostKey(spoke)), UpSpokeHost, faults);
    EnsureMacvtap(n3, mac, spoke, mode, dummy, faults)
  }

  function Ensure(n: Net, mac: string, spoke: string, lan: LanSpec, hostname: string, mode: string, dummy: bool,
                  faults: set<Call>): Out
  {
    var n1 :- Prologue(n, lan, hostname, faults);
    var dev := n1.links[HostKey(DevName(lan, hostname))].index;
    Epilogue(n1, mac, spoke, lan, dev, mode, dummy, NeedVx(n1, lan, dev, faults), faults)
  }

  // ----- del.go -----

  /** `Remove` ignores what DeleteNamed returns. */
  function Remove(n: Net, lan: string, faults: set<Call>): Net {
    DeleteNamed(n, lan, faults).net
  }

  // ----- the CNI plugin's ADD -----

  /** Locate the spoke in the host, move it into the pod, rename it there. */
  function CniAdd(n: Net, spoke: string, pod: nat, ifname: string): Out {
    var moved := Key(Pod(pod), spoke);
    if HostKey(spoke) !in n.links then Fail(n)
    else match Move(n, HostKey(spoke), moved)
      case None => Fail(n)
      case Some(m) =>
        if ifname == spoke then Ok(m)
        else match Move(m, moved, Key(Pod(pod), ifname))
          case None => Fail(m)
          case Some(r) => Ok(r)
  }
}
