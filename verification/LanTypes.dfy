/** api/v1beta1: the LAN spec, its validation, and the names derived from a spoke. */
module LanTypes {
  import opened Wrappers
  import ApplySpec

  newtype int32 = x: int | -0x8000_0000 <= x < 0x8000_0000

  type Addr = ApplySpec.Addr

  /** A group as written, with the address it parses to if it is one. */
  datatype Group = NotAnAddress(text: string) | Address(text: string, addr: Addr)

  /** Pointer fields of the resource are options. */
  datatype LANSpec = LANSpec(
    ns: Option<string>, bridge: Option<string>, vxlan: Option<string>, vni: Option<int32>, group: Option<Group>,
    defaultDev: string, devMap: map<string, string>, port: Option<int32>, spokes: seq<string>)

  const MAX_LINUX_IF_NAME_LEN := 13
  const MAX_VNI: int32 := 0xFFFFFF
  const MAX_SPOKES := 4095
  const FINALIZER_PREFIX := "finalizer.k8slan.io"

  // ----- validation -----

  datatype ValidationError =
    | BadBridgeName | BadVxlanName | NsNotSpecified | InvalidVni | GroupNotAnAddress | GroupNotMulticast
    | BadSpokeCount | BadSpokeName(index: nat)

  predicate NameLengthOk(name: string) {
    0 < |name| <= MAX_LINUX_IF_NAME_LEN
  }

  predicate IsSpace(c: char) {
    c in {' ', '\t', '\n', '\r', '\U{0B}', '\U{0C}'}
  }

  predicate Blank(s: string) {
    forall i :: 0 <= i < |s| ==> IsSpace(s[i])
  }

  /** Every pointer that Validate follows is set. */
  predicate Followable(spec: LANSpec) {
    spec.ns.Some? && spec.bridge.Some? && spec.vxlan.Some? && spec.vni.Some? && spec.group.Some?
  }

  /** Some character is not one of the ASCII blanks: tab to carriage return, and space. */
  predicate HasText(s: string) {
    exists i :: 0 <= i < |s| && !(9 <= s[i] as int <= 13 || s[i] as int == 32)
  }

  /** What an accepted spec promises, in the numbers of the documentation. */
  predicate Admissible(spec: LANSpec) {
    && Followable(spec)
    && 1 <= |spec.bridge.value| <= 13 && 1 <= |spec.vxlan.value| <= 13 && HasText(spec.ns.value)
    && 1 <= spec.vni.value <= 16777215
    && spec.group.value.Address? && ApplySpec.IsMulticast(spec.group.value.addr)
    && 1 <= |spec.spokes| <= 4095
    && (forall i :: 0 <= i < |spec.spokes| ==> 1 <= |spec.spokes[i]| <= 13)
  }

  /** The fault that an error names, and that all that is looked at before is right. */
  predicate Explains(spec: LANSpec, e: ValidationError)
    requires Followable(spec)
  {
    var bridge, vxlan, ns := 1 <= |spec.bridge.value| <= 13, 1 <= |spec.vxlan.value| <= 13, HasText(spec.ns.value);
    var vni, address := 1 <= spec.vni.value <= 16777215, spec.group.value.Address?;
    var group := address && ApplySpec.IsMulticast(spec.group.value.addr);
    match e
    case BadBridgeName => !bridge
    case BadVxlanName => bridge && !vxlan
    case NsNotSpecified => bridge && vxlan && !ns
    case InvalidVni => bridge && vxlan && ns && !vni
    case GroupNotAnAddress => bridge && vxlan && ns && vni && !address
    case GroupNotMulticast => bridge && vxlan && ns && vni && address && !group
    case BadSpokeCount => bridge && vxlan && ns && vni && group && !(1 <= |spec.spokes| <= 4095)
    case BadSpokeName(k) =>
      && bridge && vxlan && ns && vni && group && k < |spec.spokes| <= 4095
      && !(1 <= |spec.spokes[k]| <= 13) && forall i :: 0 <= i < k ==> 1 <= |spec.spokes[i]| <= 13
  }

  lemma BlankIff(s: string)
    ensures Blank(s) <==> !HasText(s)
  {
    assert forall c :: IsSpace(c) <==> 9 <= c as int <= 13 || c as int == 32;
  }

  /** Accepts exactly the admissible specs, and reports the first fault. */
  method Validate(spec: LANSpec) returns (err: Option<ValidationError>)
    requires Followable(spec)
    ensures err.None? <==> Admissible(spec)
    ensures err.Some? ==> Explains(spec, err.value)
  {
    if !NameLengthOk(spec.bridge.value) { return Some(BadBridgeName); }
    if !NameLengthOk(spec.vxlan.value) { return Some(BadVxlanName); }
    BlankIff(spec.ns.value);
    if Blank(spec.ns.value) { return Some(NsNotSpecified); }
    if spec.vni.value <= 0 || spec.vni.value > MAX_VNI { return Some(InvalidVni); }
    if !spec.group.value.Address? { return Some(GroupNotAnAddress); }
    if !ApplySpec.IsMulticast(spec.group.value.addr) { return Some(GroupNotMulticast); }
    if |spec.spokes| == 0 || |spec.spokes| > MAX_SPOKES { return Some(BadSpokeCount); }
    for i := 0 to |spec.spokes|
      invariant forall j :: 0 <= j < i ==> NameLengthOk(spec.spokes[j])
    {
      if !NameLengthOk(spec.spokes[i]) { return Some(BadSpokeName(i)); }
    }
    return None;
  }

  /** What Ensure follows is set, and the group is an address. */
  predicate Resolvable(spec: LANSpec) {
    Followable(spec) && spec.group.value.Address? && spec.port.Some?
  }

  /** The spec with its pointers followed, as Ensure uses it. */
  function Resolve(spec: LANSpec): ApplySpec.LanSpec
    requires Resolvable(spec)
  {
    ApplySpec.LanSpec(spec.ns.value, spec.bridge.value, spec.vxlan.value, spec.vni.value as int,
                      spec.group.value.addr, spec.port.value as int, spec.defaultDev, spec.devMap, spec.spokes)
  }

  // ----- resource names -----

  const MACVTAP_PREFIX := "k8slan-mac-"
  const VETH_PREFIX := "k8slan-veth-"

  predicate HasPrefix(s: string, prefix: string) {
    |prefix| <= |s| && s[..|prefix|] == prefix
  }

  predicate IsMacvtapResource(name: string) {
    HasPrefix(name, MACVTAP_PREFIX)
  }

  function Prefix(isVeth: bool): string {
    if isVeth then VETH_PREFIX else MACVTAP_PREFIX
  }

  function DPResourceName(spoke: string, isVeth: bool): string {
    Prefix(isVeth) + spoke
  }

  /** Every occurrence of `pat` taken out, from the left and without overlap. */
  function RemoveAll(s: string, pat: string): string
    requires pat != ""
  {
    if s == "" then ""
    else if HasPrefix(s, pat) then RemoveAll(s[|pat|..], pat)
    else [s[0]] + RemoveAll(s[1..], pat)
  }

  function SpokeFromResource(name: string): string {
    if HasPrefix(name, VETH_PREFIX) then RemoveAll(name, VETH_PREFIX)
    else if HasPrefix(name, MACVTAP_PREFIX) then RemoveAll(name, MACVTAP_PREFIX)
    else "badname"
  }

  // ----- network attachment definitions -----

  datatype NadConfig = MacvtapConfig(name: string) | VethConfig(name: string, veth: string)

  datatype Nad = Nad(name: string, namespace: string, resource: string, config: NadConfig)

  const RESOURCE_NAMESPACE := "macvtap.k8slan.io"

  function MakeNad(name: string, namespace: string): Nad {
    Nad(name, namespace, RESOURCE_NAMESPACE + "/" + name,
        if !IsMacvtapResource(name) then VethConfig(name, SpokeFromResource(name)) else MacvtapConfig(name))
  }

  /** The k-th definition of a spec: two per spoke, the veth one first. */
  function NadAt(spec: LANSpec, namespace: string, k: nat): Nad
    requires k / 2 < |spec.spokes|
  {
    MakeNad(DPResourceName(spec.spokes[k / 2], k % 2 == 0), namespace)
  }

  predicate AreNadsOf(spec: LANSpec, namespace: string, nads: seq<Nad>) {
    |nads| == 2 * |spec.spokes| && forall k: nat :: k < |nads| ==> nads[k] == NadAt(spec, namespace, k)
  }

  /** A definition of this name, annotated with the resource of the same name in k8slan's resource namespace. */
  predicate IsNad(nad: Nad, name: string, namespace: string) {
    nad.name == name && nad.namespace == namespace && nad.resource == "macvtap.k8slan.io/" + name
  }

  lemma MadeIsNad(name: string, namespace: string)
    ensures IsNad(MakeNad(name, namespace), name, namespace)
  {
    hide SpokeFromResource, IsMacvtapResource;
  }

  lemma NadsNamed(spec: LANSpec, namespace: string, nads: seq<Nad>, i: nat)
    requires AreNadsOf(spec, namespace, nads) && i < |spec.spokes|
    ensures IsNad(nads[2 * i], "k8slan-veth-" + spec.spokes[i], namespace)
    ensures IsNad(nads[2 * i + 1], "k8slan-mac-" + spec.spokes[i], namespace)
  {
    hide SpokeFromResource, IsMacvtapResource;
    assert nads[2 * i] == NadAt(spec, namespace, 2 * i) && nads[2 * i + 1] == NadAt(spec, namespace, 2 * i + 1);
  }

  method GetNads(spec: LANSpec, namespace: string) returns (nads: seq<Nad>)
    ensures AreNadsOf(spec, namespace, nads)
    ensures |nads| == 2 * |spec.spokes|
    ensures forall i :: 0 <= i < |spec.spokes| ==>
              && IsNad(nads[2 * i], "k8slan-veth-" + spec.spokes[i], namespace)
              && IsNad(nads[2 * i + 1], "k8slan-mac-" + spec.spokes[i], namespace)
  {
    hide SpokeFromResource, IsMacvtapResource, MakeNad, DPResourceName, IsNad;
    nads := [];
    for i := 0 to |spec.spokes|
      invariant |nads| == 2 * i
      invariant forall k: nat :: k < |nads| ==> nads[k] == NadAt(spec, namespace, k)
    {
      nads := nads + [MakeNad(DPResourceName(spec.spokes[i], true), namespace)];
      nads := nads + [MakeNad(DPResourceName(spec.spokes[i], false), namespace)];
    }
    forall i | 0 <= i < |spec.spokes|
      ensures IsNad(nads[2 * i], "k8slan-veth-" + spec.spokes[i], namespace)
      ensures IsNad(nads[2 * i + 1], "k8slan-mac-" + spec.spokes[i], namespace)
    {
      NadsNamed(spec, namespace, nads, i);
    }
  }
}
