/** The admission steps that every write of a LAN passes. */
module Webhook {
  import opened Wrappers
  import opened LanTypes
  import Addresses
  import ApplySpec
  import Codec

  const DEFAULT_VX_PORT: int32 := 4789
  const DEFAULT_VX_GROUP: Group :=
    Address("FF02:0:0:0:0:0:0:14", ApplySpec.Addr([255, 2, 0, 0, 0, 0, 0, 0, 0, 0, 0, 0, 0, 0, 0, 20], ""))

  /** A LAN object as the API server holds it. */
  class LAN {
    var spec: LANSpec
    var finalizers: seq<string>

    constructor (spec: LANSpec, finalizers: seq<string>)
      ensures this.spec == spec && this.finalizers == finalizers
    {
      this.spec := spec;
      this.finalizers := finalizers;
    }
  }

  datatype AdmissionError = SpecChanged | Invalid(error: ValidationError) | ForeignFinalizer(name: string)

  function SetDefault<T>(inval: Option<T>, defVal: T): (r: Option<T>)
    ensures r.Some? && (inval.Some? ==> r == inval)
  {
    if inval.Some? then inval else Some(defVal)
  }

  /** The spec with the port and the group filled in. */
  function Defaulted(spec: LANSpec): LANSpec {
    spec.(port := SetDefault(spec.port, DEFAULT_VX_PORT), group := SetDefault(spec.group, DEFAULT_VX_GROUP))
  }

  /** The link-local group ff02::14, which is used where none is given. */
  predicate IsDefaultGroup(group: Group) {
    && group.Address? && group.addr.zone == ""
    && group.addr.bytes == [0xff, 0x02, 0, 0, 0, 0, 0, 0, 0, 0, 0, 0, 0, 0, 0, 0x14]
  }

  /** What was given is kept; a missing port is 4789 and a missing group ff02::14; nothing else changes. */
  predicate FilledIn(given: LANSpec, spec: LANSpec) {
    && spec.port == (if given.port.Some? then given.port else Some(4789))
    && (given.group.Some? ==> spec.group == given.group)
    && (given.group.None? ==> spec.group.Some? && IsDefaultGroup(spec.group.value))
    && spec.ns == given.ns && spec.bridge == given.bridge && spec.vxlan == given.vxlan && spec.vni == given.vni
    && spec.defaultDev == given.defaultDev && spec.devMap == given.devMap && spec.spokes == given.spokes
  }

  lemma DefaultedFillsIn(given: LANSpec)
    ensures FilledIn(given, Defaulted(given))
  {
  }

  method Default(lan: LAN)
    modifies lan
    ensures lan.spec == Defaulted(old(lan.spec)) && lan.finalizers == old(lan.finalizers)
    ensures FilledIn(old(lan.spec), lan.spec)
  {
    lan.spec := lan.spec.(port := SetDefault(lan.spec.port, DEFAULT_VX_PORT));
    lan.spec := lan.spec.(group := SetDefault(lan.spec.group, DEFAULT_VX_GROUP));
  }

  method ValidateCreate(lan: LAN) returns (err: Option<AdmissionError>)
    requires Followable(lan.spec)
    ensures err.None? <==> Admissible(lan.spec)
    ensures err.Some? ==> err.value.Invalid? && Explains(lan.spec, err.value.error)
  {
    var e := Validate(lan.spec);
    err := if e.Some? then Some(Invalid(e.value)) else None;
  }

  method ValidateUpdate(oldLan: LAN, lan: LAN) returns (err: Option<AdmissionError>)
    requires Followable(lan.spec)
    ensures err.None? <==> lan.spec == oldLan.spec && Admissible(lan.spec)
    ensures err == Some(SpecChanged) <==> lan.spec != oldLan.spec
    ensures err.Some? && lan.spec == oldLan.spec ==> err.value.Invalid? && Explains(lan.spec, err.value.error)
  {
    if lan.spec != oldLan.spec { return Some(SpecChanged); }
    var e := Validate(lan.spec);
    err := if e.Some? then Some(Invalid(e.value)) else None;
  }

  /** A deletion is let through exactly if every finalizer is one of k8slan's. */
  predicate DeleteAccepted(finalizers: seq<string>) {
    forall i :: 0 <= i < |finalizers| ==> HasPrefix(finalizers[i], FINALIZER_PREFIX)
  }

  method ValidateDelete(lan: LAN) returns (err: Option<AdmissionError>)
    ensures err.None? <==> DeleteAccepted(lan.finalizers)
    ensures err.Some? ==>
              exists f :: f in lan.finalizers && !HasPrefix(f, FINALIZER_PREFIX) && err == Some(ForeignFinalizer(f))
  {
    for i := 0 to |lan.finalizers|
      invariant forall j :: 0 <= j < i ==> HasPrefix(lan.finalizers[j], FINALIZER_PREFIX)
    {
      if !HasPrefix(lan.finalizers[i], FINALIZER_PREFIX) {
        return Some(ForeignFinalizer(lan.finalizers[i]));
      }
    }
    return None;
  }

  // ----- the steps together -----

  /** The fields that the resource's schema requires. */
  predicate RequiredPresent(spec: LANSpec) {
    spec.bridge.Some? && spec.ns.Some? && spec.vni.Some? && spec.vxlan.Some? && spec.group.Some?
  }

  /** Default, then the schema, then validation. */
  predicate CreateAccepted(submitted: LANSpec) {
    RequiredPresent(Defaulted(submitted)) && Admissible(Defaulted(submitted))
  }

  predicate UpdateAccepted(stored: LANSpec, submitted: LANSpec) {
    RequiredPresent(Defaulted(submitted)) && Defaulted(submitted) == stored && Admissible(Defaulted(submitted))
  }

  /** Validate never follows a nil pointer behind Default and the schema. */
  lemma SchemaMakesValidateSafe(submitted: LANSpec)
    ensures RequiredPresent(Defaulted(submitted)) <==>
              submitted.bridge.Some? && submitted.ns.Some? && submitted.vni.Some? && submitted.vxlan.Some?
    ensures RequiredPresent(Defaulted(submitted)) ==>
              Followable(Defaulted(submitted)) && Defaulted(submitted).port.Some?
  {
  }

  /** Once stored, a spec can be written back and never changed: an update passes exactly if it defaults to it. */
  lemma SpecIsFrozen(created: LANSpec, submitted: LANSpec)
    requires CreateAccepted(created)
    ensures UpdateAccepted(Defaulted(created), submitted) <==> Defaulted(submitted) == Defaulted(created)
    ensures UpdateAccepted(Defaulted(created), Defaulted(created))
  {
    assert Defaulted(Defaulted(created)) == Defaulted(created);
  }

  /**
   An admitted spec is safe for Ensure: every pointer it follows is set, the group is an address and
   multicast, the vni fits 24 bits and is not zero (section 5 of RFC 7348), and every device name made
   from a spoke that survives the codec fits the 15 bytes of a Linux interface name.
   */
  lemma AdmittedIsSafe(created: LANSpec, k: nat, isVeth: bool)
    requires CreateAccepted(created) && k < |created.spokes|
    ensures var s := Defaulted(created);
            && Followable(s) && s.group.value.Address? && s.port.Some?
            && var lan := Resolve(s);
            && ApplySpec.IsMulticast(lan.group) && Addresses.InMulticastRange(lan.group.bytes)
            && 0 < lan.vni < 0x100_0000
            && 1 <= |lan.bridge| <= 15 && 1 <= |lan.vxlan| <= 15
            && (!Codec.Contains(created.spokes[k], Prefix(isVeth)) ==>
                  var spoke := SpokeFromResource(DPResourceName(created.spokes[k], isVeth));
                  && spoke in lan.spokes
                  && 1 <= |spoke| <= 15 && 1 <= |ApplySpec.PeerName(spoke)| <= 15
                  && 1 <= |spoke + "M0"| <= 15 && 1 <= |spoke + "V0"| <= 15)
  {
    Codec.RoundTripIff(created.spokes[k], isVeth);
    Addresses.MulticastIff(Defaulted(created).group.value.addr);
    hide Addresses.InMulticastRange;
    assert created.spokes[k] in Resolve(Defaulted(created)).spokes;
  }

  /** The vxlan port is admitted unseen: any value will do. */
  lemma PortIsNotChecked(created: LANSpec, port: int32)
    requires CreateAccepted(created)
    ensures CreateAccepted(created.(port := Some(port)))
  {
  }
}
