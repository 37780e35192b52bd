/** From a resource name to a device id, and from an Allocate call to Ensure. */
module Plugin {
  import opened Wrappers
  import opened LanTypes
  import opened Codec
  import opened Lister
  import opened Kernel
  import opened Apply
  import opened Delivery
  import EnsureInv
  import Spec = ApplySpec
  import Topology

  const DEFAULT_MODE := "passthru"
  const CAPACITY := 1

  datatype DevicePlugin = DevicePlugin(name: string, mode: string, lan: LANSpec, dummy: bool)

  function MakePlugin(resource: string, lan: LANSpec): DevicePlugin {
    DevicePlugin(SpokeFromResource(resource), DEFAULT_MODE, lan, HasPrefix(resource, VETH_PREFIX))
  }

  function NewPlugin(index: Index, resource: string): Option<DevicePlugin> {
    if resource in index then Some(MakePlugin(resource, index[resource])) else None
  }

  function Digit(d: nat): char
    requires d < 10
  {
    ['0', '1', '2', '3', '4', '5', '6', '7', '8', '9'][d]
  }

  function Decimal(n: nat): string {
    if n < 10 then [Digit(n)] else Decimal(n / 10) + [Digit(n % 10)]
  }

  /** The text reads back, in digits without a leading zero. */
  lemma {:induction false} DecimalReads(n: nat)
    ensures IsDigits(Decimal(n)) && Number(Decimal(n)) == n && Decimal(n) != ""
    ensures Decimal(n)[0] == '0' ==> n == 0 && |Decimal(n)| == 1
  {
    if n < 10 {
      DigitReads("", n);
      assert "" + [Digit(n)] == [Digit(n)];
    } else {
      DecimalReads(n / 10);
      DigitReads(Decimal(n / 10), n % 10);
    }
    hide Digit, Number;
  }

  /** One more digit. */
  lemma DigitReads(text: string, d: nat)
    requires IsDigits(text) && d < 10
    ensures IsDigits(text + [Digit(d)]) && Number(text + [Digit(d)]) == Number(text) * 10 + d
    ensures Digit(d) == '0' ==> d == 0
  {
    DigitIs(d);
    hide Digit;
    assert (text + [Digit(d)])[..|text|] == text;
  }

  lemma DigitIs(d: nat)
    requires d < 10
    ensures '0' <= Digit(d) <= '9' && Digit(d) as int == '0' as int + d
  {
  }

  function DeviceId(plugin: DevicePlugin, i: nat): string {
    plugin.name + (if plugin.dummy then "V" else "M") + Decimal(i)
  }

  method GenerateDevices(plugin: DevicePlugin) returns (ids: seq<string>)
    ensures ids == [DeviceId(plugin, 0)]
  {
    ids := [];
    for i := 0 to CAPACITY
      invariant |ids| == i && forall j :: 0 <= j < i ==> ids[j] == DeviceId(plugin, j)
    {
      ids := ids + [DeviceId(plugin, i)];
    }
  }

  /**
   A listed resource of a spoke that survives the codec is served under that spoke's name, and its device has
   the spoke's own device name.
   */
  lemma PluginServesSpoke(index: Index, spoke: string, isVeth: bool)
    requires DPResourceName(spoke, isVeth) in index && !Contains(spoke, Prefix(isVeth))
    ensures var p := NewPlugin(index, DPResourceName(spoke, isVeth));
            && p.Some? && p.value.name == spoke && p.value.dummy == isVeth
            && p.value.lan == index[DPResourceName(spoke, isVeth)]
            && DeviceId(p.value, 0) == Topology.DeviceName(spoke, isVeth)
  {
    RoundTripIff(spoke, isVeth);
    PrefixesApart(spoke);
    var r := DPResourceName(spoke, true);
    assert r[..|VETH_PREFIX|] == VETH_PREFIX;
    assert Decimal(0) == "0";
    assert spoke + "V" + "0" == spoke + "V0" && spoke + "M" + "0" == spoke + "M0";
  }

  /** The name under which the kubelet knows a listed plugin: the lister's resource namespace and the resource. */
  function RegisteredName(resource: string): string {
    RESOURCE_NAMESPACE + "/" + resource
  }

  /**
   The operator and the lister meet: once the LAN has been added, the resource in each of its definitions is
   registered, by the plugin of that definition's own name and no other, for this LAN; and every resource of
   the LAN that is registered has its definition.
   */
  lemma NadsAreServed(spec: LANSpec, namespace: string, nads: seq<Nad>, index: Index)
    requires AreNadsOf(spec, namespace, nads)
    ensures var after := Lister.Apply(index, AddMsg(spec));
            && (forall d :: d in nads ==>
                  && d.resource == "macvtap.k8slan.io/" + d.name && d.name in DeviceKeys(spec)
                  && d.name in after && after[d.name] == spec
                  && forall r :: RegisteredName(r) == d.resource <==> r == d.name)
            && (forall r :: r in DeviceKeys(spec) ==> exists d :: d in nads && d.resource == RegisteredName(r))
  {
    hide DeviceKeys, MakeNad, DPResourceName;
    NadsAreDeviceKeys(spec, namespace, nads);
    forall d | d in nads
      ensures d.resource == "macvtap.k8slan.io/" + d.name
      ensures d.name in DeviceKeys(spec) && forall r :: RegisteredName(r) == d.resource <==> r == d.name
    {
      var k: nat :| k < |nads| && nads[k] == d;
      assert d == NadAt(spec, namespace, k);
      MadeIsNad(d.name, namespace);
      assert MakeNad(DPResourceName(spec.spokes[k / 2], k % 2 == 0), namespace) == d;
      MadeIsNad(DPResourceName(spec.spokes[k / 2], k % 2 == 0), namespace);
      forall r ensures RegisteredName(r) == d.resource <==> r == d.name { RegisteredApart(r, d.name); }
    }
    forall r | r in DeviceKeys(spec) ensures exists d :: d in nads && d.resource == RegisteredName(r) {
      assert r in (set d | d in nads :: d.name);
      var d :| d in nads && d.name == r;
      assert d.resource == RegisteredName(r);
    }
    AddedIndex(index, spec);
  }

  lemma AddedIndex(index: Index, spec: LANSpec)
    ensures forall r :: r in DeviceKeys(spec) ==>
              r in Lister.Apply(index, AddMsg(spec)) && Lister.Apply(index, AddMsg(spec))[r] == spec
  {
    hide KeysOf;
  }

  lemma RegisteredApart(r: string, s: string)
    ensures RegisteredName(r) == "macvtap.k8slan.io/" + s <==> r == s
  {
    assert RegisteredName(r)[|RESOURCE_NAMESPACE| + 1..] == r;
    assert ("macvtap.k8slan.io/" + s)[|RESOURCE_NAMESPACE| + 1..] == s;
  }

  /** Different (spoke, kind) pairs that survive the codec have different device ids. */
  lemma DeviceIdsDistinct(index: Index, s: string, a: bool, t: string, b: bool)
    requires DPResourceName(s, a) in index && DPResourceName(t, b) in index && (s, a) != (t, b)
    requires !Contains(s, Prefix(a)) && !Contains(t, Prefix(b))
    ensures DeviceId(NewPlugin(index, DPResourceName(s, a)).value, 0)
            != DeviceId(NewPlugin(index, DPResourceName(t, b)).value, 0)
  {
    PluginServesSpoke(index, s, a);
    PluginServesSpoke(index, t, b);
    var x, y := Topology.DeviceName(s, a), Topology.DeviceName(t, b);
    assert x[..|x| - 2] == s && y[..|y| - 2] == t;
    assert x[|x| - 2] == (if a then 'V' else 'M') && y[|y| - 2] == (if b then 'V' else 'M');
  }

  // ----- Allocate -----

  /** A device asked for, and the calls that fail while it is made ready. */
  datatype Asked = Asked(id: string, faults: set<Call>)

  function EnsureFor(n: Net, d: Asked, plugin: DevicePlugin, hostname: string): Spec.Out
    requires Resolvable(plugin.lan)
  {
    Spec.Ensure(n, d.id, plugin.name, Resolve(plugin.lan), hostname, plugin.mode, plugin.dummy, d.faults)
  }

  /** One Ensure per requested device, up to the first that fails. */
  function EnsureAll(n: Net, asked: seq<Asked>, plugin: DevicePlugin, hostname: string): Spec.Out
    requires Resolvable(plugin.lan)
  {
    if asked == [] then Spec.Ok(n)
    else
      var m :- EnsureAll(n, asked[..|asked| - 1], plugin, hostname);
      EnsureFor(m, asked[|asked| - 1], plugin, hostname)
  }

  function Flat<T>(requests: seq<seq<T>>): seq<T> {
    if requests == [] then [] else Flat(requests[..|requests| - 1]) + requests[|requests| - 1]
  }

  /** The character device of the macvtap `id`. */
  function TapPath(n: Net, id: string): string {
    "/dev/tap" + if Spec.HostKey(id) in n.links then Decimal(n.links[Spec.HostKey(id)].index) else ""
  }

  /** For each device the tap of the macvtap that its own Ensure made. */
  function TapPaths(n: Net, asked: seq<Asked>, plugin: DevicePlugin, hostname: string): seq<string>
    requires Resolvable(plugin.lan)
  {
    if asked == [] then []
    else TapPaths(n, asked[..|asked| - 1], plugin, hostname)
         + [TapPath(EnsureAll(n, asked, plugin, hostname).net, asked[|asked| - 1].id)]
  }

  lemma TapPathsLast(n: Net, asked: seq<Asked>, d: Asked, plugin: DevicePlugin, hostname: string)
    requires Resolvable(plugin.lan)
    ensures TapPaths(n, asked + [d], plugin, hostname)
            == TapPaths(n, asked, plugin, hostname) + [TapPath(EnsureAll(n, asked + [d], plugin, hostname).net, d.id)]
  {
    hide EnsureAll, TapPath;
    assert (asked + [d])[..|asked|] == asked;
  }

  lemma FlatAppend<T>(requests: seq<seq<T>>, asked: seq<T>)
    ensures Flat(requests + [asked]) == Flat(requests) + asked
  {
    assert (requests + [asked])[..|requests|] == requests;
  }

  lemma FlatLast<T>(requests: seq<seq<T>>, i: nat)
    requires i < |requests|
    ensures Flat(requests[..i + 1]) == Flat(requests[..i]) + requests[i]
  {
    assert requests[..i + 1][..i] == requests[..i];
  }

  lemma EnsureAllLast(n: Net, asked: seq<Asked>, d: Asked, plugin: DevicePlugin, hostname: string)
    requires Resolvable(plugin.lan)
    ensures EnsureAll(n, asked + [d], plugin, hostname)
            == var r := EnsureAll(n, asked, plugin, hostname);
               if r.Ok? then EnsureFor(r.net, d, plugin, hostname) else r
  {
    assert (asked + [d])[..|asked|] == asked;
  }

  lemma {:induction false} EnsureAllStops(n: Net, asked: seq<Asked>, k: nat, plugin: DevicePlugin, hostname: string)
    requires Resolvable(plugin.lan) && k <= |asked| && EnsureAll(n, asked[..k], plugin, hostname).Fail?
    ensures EnsureAll(n, asked, plugin, hostname) == EnsureAll(n, asked[..k], plugin, hostname)
  {
    hide EnsureFor;
    if k == |asked| {
      assert asked[..k] == asked;
    } else {
      assert asked[..|asked| - 1][..k] == asked[..k];
      EnsureAllStops(n, asked[..|asked| - 1], k, plugin, hostname);
    }
  }

  lemma {:induction false} FlatPrefix<T>(requests: seq<seq<T>>, k: nat)
    requires k <= |requests|
    ensures Flat(requests[..k]) <= Flat(requests)
  {
    if k < |requests| {
      assert requests[..|requests| - 1][..k] == requests[..k];
      FlatPrefix(requests[..|requests| - 1], k);
    } else {
      assert requests[..k] == requests;
    }
  }

  lemma {:induction false} EnsureAllConcat(n: Net, a: seq<Asked>, b: seq<Asked>, plugin: DevicePlugin, hostname: string)
    requires Resolvable(plugin.lan) && EnsureAll(n, a, plugin, hostname).Ok?
    ensures var m := EnsureAll(n, a, plugin, hostname).net;
            && EnsureAll(n, a + b, plugin, hostname) == EnsureAll(m, b, plugin, hostname)
            && TapPaths(n, a + b, plugin, hostname)
               == TapPaths(n, a, plugin, hostname) + TapPaths(m, b, plugin, hostname)
    decreases |b|
  {
    hide EnsureFor, TapPath;
    if b == [] {
      assert a + b == a;
    } else {
      assert (a + b)[..|a + b| - 1] == a + b[..|b| - 1];
      EnsureAllConcat(n, a, b[..|b| - 1], plugin, hostname);
    }
  }

  // ----- what an allocation delivers -----

  /** The plugin of a listed resource whose spoke survives the codec, asked for its own device. */
  ghost predicate Entitled(lans: Topology.Lans, index: Index, n: Net, asked: seq<Asked>, plugin: DevicePlugin,
                           spoke: string, isVeth: bool)
  {
    var resource := (if isVeth then "k8slan-veth-" else "k8slan-mac-") + spoke;
    && resource in index && NewPlugin(index, resource) == Some(plugin) && !Contains(spoke, Prefix(isVeth))
    && Serves(lans, index[resource], spoke) && Topology.Inv(lans, n)
    && forall d :: d in asked ==> d.id == spoke + if isVeth then "V0" else "M0"
  }

  /** The last device asked for is there, with all that belongs to it, and the last path is its tap. */
  ghost predicate Given(index: Index, m: Net, asked: seq<Asked>, spoke: string, isVeth: bool, hostname: string,
                        paths: seq<string>)
    requires asked != []
  {
    var resource := (if isVeth then "k8slan-veth-" else "k8slan-mac-") + spoke;
    var device := Key(Host, spoke + if isVeth then "V0" else "M0");
    && resource in index && Resolvable(index[resource])
    && Delivered(m, index[resource], spoke, isVeth, hostname, Spec.DelVx in asked[|asked| - 1].faults)
    && |paths| == |asked| && device in m.links && IsTapOf(paths[|paths| - 1], m.links[device].index)
  }

  ghost predicate Promise(n: Net, m: Net, asked: seq<Asked>, plugin: DevicePlugin, hostname: string,
                          paths: seq<string>)
  {
    asked != [] ==>
      forall lans, index, spoke, isVeth ::
        Entitled(lans, index, n, asked, plugin, spoke, isVeth) ==>
          Given(index, m, asked, spoke, isVeth, hostname, paths)
  }

  lemma EntitledPlugin(lans: Topology.Lans, index: Index, n: Net, asked: seq<Asked>, plugin: DevicePlugin,
                       spoke: string, isVeth: bool)
    requires Entitled(lans, index, n, asked, plugin, spoke, isVeth)
    ensures var resource := (if isVeth then "k8slan-veth-" else "k8slan-mac-") + spoke;
            && plugin.name == spoke && plugin.dummy == isVeth && plugin.mode == "passthru"
            && plugin.lan == index[resource] && Resolvable(plugin.lan)
  {
    PluginServesSpoke(index, spoke, isVeth);
    hide SpokeFromResource, Contains;
  }

  lemma {:induction false} AllKeepsInv(lans: Topology.Lans, index: Index, n: Net, asked: seq<Asked>,
                                       plugin: DevicePlugin, hostname: string, spoke: string, isVeth: bool)
    requires Entitled(lans, index, n, asked, plugin, spoke, isVeth)
    ensures Resolvable(plugin.lan) && Topology.Inv(lans, EnsureAll(n, asked, plugin, hostname).net)
  {
    EntitledPlugin(lans, index, n, asked, plugin, spoke, isVeth);
    if asked != [] {
      var most, d := asked[..|asked| - 1], asked[|asked| - 1];
      AllKeepsInv(lans, index, n, most, plugin, hostname, spoke, isVeth);
      ServesCtx(lans, plugin.lan, spoke);
      var m := EnsureAll(n, most, plugin, hostname).net;
      assert d.id == Topology.DeviceName(spoke, isVeth);
      EnsureInv.EnsureKeepsInv(lans, m, spoke, Resolve(plugin.lan), hostname, "passthru", isVeth, d.faults);
      hide Topology.Inv, Spec.Ensure, Topology.NoClash, NewPlugin, Contains;
    }
  }

  lemma LastDelivers(lans: Topology.Lans, index: Index, n: Net, asked: seq<Asked>, plugin: DevicePlugin,
                     hostname: string, spoke: string, isVeth: bool)
    requires Entitled(lans, index, n, asked, plugin, spoke, isVeth) && asked != [] && Resolvable(plugin.lan)
    requires EnsureAll(n, asked, plugin, hostname).Ok?
    ensures Given(index, EnsureAll(n, asked, plugin, hostname).net, asked, spoke, isVeth, hostname,
                  TapPaths(n, asked, plugin, hostname))
  {
    EntitledPlugin(lans, index, n, asked, plugin, spoke, isVeth);
    var most, d := asked[..|asked| - 1], asked[|asked| - 1];
    AllKeepsInv(lans, index, n, most, plugin, hostname, spoke, isVeth);
    hide Topology.Inv, Spec.Ensure, Topology.NoClash, NewPlugin, Contains, Resolve, TapPath;
    EnsureDelivers(lans, EnsureAll(n, most, plugin, hostname).net, plugin.lan, spoke, isVeth, hostname, d.faults);
    TapPathsCount(n, asked, plugin, hostname);
    LastTap(EnsureAll(n, asked, plugin, hostname).net, d.id);
    assert d.id == spoke + if isVeth then "V0" else "M0";
  }

  lemma {:induction false} TapPathsCount(n: Net, asked: seq<Asked>, plugin: DevicePlugin, hostname: string)
    requires Resolvable(plugin.lan)
    ensures |TapPaths(n, asked, plugin, hostname)| == |asked|
  {
    hide EnsureAll, TapPath;
    if asked != [] { TapPathsCount(n, asked[..|asked| - 1], plugin, hostname); }
  }

  lemma LastTap(m: Net, id: string)
    ensures Key(Host, id) in m.links ==> IsTapOf(TapPath(m, id), m.links[Key(Host, id)].index)
  {
    if Key(Host, id) in m.links {
      var k := m.links[Key(Host, id)].index;
      DecimalReads(k);
      assert TapPath(m, id)[8..] == Decimal(k);
    }
  }

  lemma PromiseKept(n: Net, asked: seq<Asked>, plugin: DevicePlugin, hostname: string)
    requires Resolvable(plugin.lan) && EnsureAll(n, asked, plugin, hostname).Ok?
    ensures Promise(n, EnsureAll(n, asked, plugin, hostname).net, asked, plugin, hostname,
                    TapPaths(n, asked, plugin, hostname))
  {
    hide EnsureAll, TapPaths, Entitled, Given;
    if asked != [] {
      forall lans, index, spoke, isVeth | Entitled(lans, index, n, asked, plugin, spoke, isVeth)
        ensures Given(index, EnsureAll(n, asked, plugin, hostname).net, asked, spoke, isVeth, hostname,
                      TapPaths(n, asked, plugin, hostname))
      {
        LastDelivers(lans, index, n, asked, plugin, hostname, spoke, isVeth);
      }
    }
  }

  /** The inner loop: the devices of one container. */
  method AllocateContainer(host: HostStack, plugin: DevicePlugin, asked: seq<Asked>, hostname: string)
    returns (ok: bool, devices: seq<string>)
    requires Resolvable(plugin.lan)
    modifies host
    ensures host.State() == EnsureAll(old(host.State()), asked, plugin, hostname).net
    ensures ok <==> EnsureAll(old(host.State()), asked, plugin, hostname).Ok?
    ensures ok ==> |devices| == |asked| && devices == TapPaths(old(host.State()), asked, plugin, hostname)
  {
    hide EnsureFor, Spec.Ensure, Decimal;
    ghost var n := host.State();
    devices := [];
    for j := 0 to |asked|
      invariant |devices| == j && devices == TapPaths(n, asked[..j], plugin, hostname)
      invariant EnsureAll(n, asked[..j], plugin, hostname) == Spec.Ok(host.State())
    {
      EnsureAllLast(n, asked[..j], asked[j], plugin, hostname);
      TapPathsLast(n, asked[..j], asked[j], plugin, hostname);
      assert asked[..j] + [asked[j]] == asked[..j + 1];
      var done, index := EnsureOne(host, asked[j], plugin, hostname);
      if !done {
        EnsureAllStops(n, asked, j + 1, plugin, hostname);
        return false, [];
      }
      devices := devices + ["/dev/tap" + Decimal(index)];
    }
    assert asked[..|asked|] == asked;
    ok := true;
  }

  /** Ensures the requested devices in order; the responses are the taps, in the requests' order and grouping. */
  method Allocate(host: HostStack, plugin: DevicePlugin, requests: seq<seq<Asked>>, hostname: string)
    returns (response: Option<seq<seq<string>>>)
    requires Resolvable(plugin.lan)
    modifies host
    ensures host.State() == EnsureAll(old(host.State()), Flat(requests), plugin, hostname).net
    ensures response.Some? <==> EnsureAll(old(host.State()), Flat(requests), plugin, hostname).Ok?
    ensures response.Some? ==> Flat(response.value) == TapPaths(old(host.State()), Flat(requests), plugin, hostname)
    ensures response.Some? ==> |response.value| == |requests|
                               && forall i :: 0 <= i < |requests| ==> |response.value[i]| == |requests[i]|
    ensures response.Some? ==>
              Promise(old(host.State()), host.State(), Flat(requests), plugin, hostname, Flat(response.value))
  {
    var all: seq<seq<string>> := [];
    ghost var n := host.State();
    ServedNone(n, requests, plugin, hostname);
    hide *;
    for i := 0 to |requests|
      invariant Served(n, host.State(), requests, all, i, plugin, hostname)
    {
      ghost var before := host.State();
      var ok, devices := AllocateContainer(host, plugin, requests[i], hostname);
      ServedNext(n, before, requests, all, i, devices, plugin, hostname);
      if !ok { return None; }
      all := all + [devices];
    }
    ServedAll(n, host.State(), requests, all, plugin, hostname);
    PromiseKept(n, Flat(requests), plugin, hostname);
    return Some(all);
  }

  /** The first `i` requests are served, and `all` is what was made for them. */
  predicate Served(n: Net, m: Net, requests: seq<seq<Asked>>, all: seq<seq<string>>, i: nat, plugin: DevicePlugin,
                   hostname: string)
  {
    && Resolvable(plugin.lan) && i <= |requests| && EnsureAll(n, Flat(requests[..i]), plugin, hostname) == Spec.Ok(m)
    && Flat(all) == TapPaths(n, Flat(requests[..i]), plugin, hostname)
    && |all| == i && forall k :: 0 <= k < i ==> |all[k]| == |requests[k]|
  }

  lemma ServedNone(n: Net, requests: seq<seq<Asked>>, plugin: DevicePlugin, hostname: string)
    requires Resolvable(plugin.lan)
    ensures Served(n, n, requests, [], 0, plugin, hostname)
  {
    assert requests[..0] == [];
  }

  lemma ServedNext(n: Net, m: Net, requests: seq<seq<Asked>>, all: seq<seq<string>>, i: nat, devices: seq<string>,
                   plugin: DevicePlugin, hostname: string)
    requires Served(n, m, requests, all, i, plugin, hostname) && i < |requests| && Resolvable(plugin.lan)
    ensures var r := EnsureAll(m, requests[i], plugin, hostname);
            && (r.Ok? && |devices| == |requests[i]| && devices == TapPaths(m, requests[i], plugin, hostname) ==>
                  Served(n, r.net, requests, all + [devices], i + 1, plugin, hostname))
            && (r.Fail? ==> EnsureAll(n, Flat(requests), plugin, hostname) == r)
  {
    hide EnsureAll, TapPaths, Resolvable;
    FlatLast(requests, i);
    FlatAppend(all, devices);
    FlatPrefix(requests, i + 1);
    EnsureAllConcat(n, Flat(requests[..i]), requests[i], plugin, hostname);
    if EnsureAll(m, requests[i], plugin, hostname).Fail? {
      var done := Flat(requests[..i + 1]);
      assert Flat(requests)[..|done|] == done;
      EnsureAllStops(n, Flat(requests), |done|, plugin, hostname);
    }
    hide Flat;
  }

  lemma ServedAll(n: Net, m: Net, requests: seq<seq<Asked>>, all: seq<seq<string>>, plugin: DevicePlugin,
                  hostname: string)
    requires Served(n, m, requests, all, |requests|, plugin, hostname)
    ensures Resolvable(plugin.lan) && EnsureAll(n, Flat(requests), plugin, hostname) == Spec.Ok(m)
    ensures Flat(all) == TapPaths(n, Flat(requests), plugin, hostname)
    ensures |all| == |requests| && forall k :: 0 <= k < |requests| ==> |all[k]| == |requests[k]|
  {
    assert requests[..|requests|] == requests;
  }

  method EnsureOne(host: HostStack, d: Asked, plugin: DevicePlugin, hostname: string)
    returns (ok: bool, index: nat)
    requires Resolvable(plugin.lan)
    modifies host
    ensures ok == EnsureFor(old(host.State()), d, plugin, hostname).Ok?
    ensures host.State() == EnsureFor(old(host.State()), d, plugin, hostname).net
    ensures ok ==> Spec.HostKey(d.id) in host.State().links && index == host.State().links[Spec.HostKey(d.id)].index
  {
    hide Spec.Ensure;
    var i: int;
    ok, i := host.Ensure(d.id, plugin.name, Resolve(plugin.lan), hostname, plugin.mode, plugin.dummy, d.faults);
    index := if ok then i else 0;
  }
}
