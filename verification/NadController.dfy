/** The operator: the network attachment definitions of a LAN. */
module NadController {
  import opened Wrappers
  import opened LanTypes
  import opened Codec

  /** A definition is known by its namespace and name. */
  datatype NadKey = NadKey(namespace: string, name: string)

  type Nads = map<NadKey, Nad>

  function NamesOf(nads: Nads): set<string> {
    set k | k in nads :: k.name
  }

  /** Which of the wanted definitions a reconcile creates: those whose name no definition of any namespace has. */
  function Missing(nads: Nads, names: set<string>, namespace: string): Nads {
    map k | k in MissingKeys(nads, names, namespace) :: MakeNad(k.name, namespace)
  }

  function MissingKeys(nads: Nads, names: set<string>, namespace: string): set<NadKey> {
    set x | x in names - NamesOf(nads) :: NadKey(namespace, x)
  }

  class Store {
    var nads: Nads

    /** Lists every namespace, in some order. */
    method List() returns (items: seq<Nad>, keys: seq<NadKey>)
      ensures |items| == |keys| && (forall k :: k in keys <==> k in nads)
      ensures forall i :: 0 <= i < |keys| ==> keys[i] in nads && items[i] == nads[keys[i]]
    {
      items, keys := [], [];
      var rest := nads.Keys;
      while rest != {}
        invariant rest <= nads.Keys && |items| == |keys|
        invariant forall k :: k in keys <==> k in nads && k !in rest
        invariant forall i :: 0 <= i < |keys| ==> keys[i] in nads && items[i] == nads[keys[i]]
        decreases rest
      {
        var k :| k in rest;
        items, keys, rest := items + [nads[k]], keys + [k], rest - {k};
      }
    }

    /** Fails exactly if the definition is already there. */
    method Create(nad: Nad) returns (ok: bool)
      modifies this
      ensures ok <==> NadKey(nad.namespace, nad.name) !in old(nads)
      ensures nads == if ok then old(nads)[NadKey(nad.namespace, nad.name) := nad] else old(nads)
    {
      var k := NadKey(nad.namespace, nad.name);
      ok := k !in nads;
      if ok {
        nads := nads[k := nad];
      }
    }
  }

  ghost predicate KeyedByName(nads: Nads) {
    forall k :: k in nads ==> nads[k].name == k.name && nads[k].namespace == k.namespace
  }

  function NamesIn(nads: seq<Nad>): set<string> {
    set d | d in nads :: d.name
  }

  /** `lan` is the result of the Get, None if the LAN is not found; `calls` counts the create calls. */
  method Reconcile(store: Store, lan: Option<LANSpec>, namespace: string) returns (calls: nat)
    requires KeyedByName(store.nads)
    modifies store
    ensures lan.None? ==> store.nads == old(store.nads) && calls == 0
    ensures lan.Some? ==>
              && store.nads == old(store.nads) + Missing(old(store.nads), DeviceKeys(lan.value), namespace)
              && (calls == 0 <==> DeviceKeys(lan.value) <= NamesOf(old(store.nads)))
    ensures lan.Some? ==>
              forall k :: k in store.nads && k !in old(store.nads) ==>
                k.name in DeviceKeys(lan.value) && k.namespace == namespace
                && IsNad(store.nads[k], k.name, namespace)
    ensures KeyedByName(store.nads)
  {
    hide MakeNad, IsNad, NadAt, AreNadsOf, Missing, NamesOf, KeyedByName;
    calls := 0;
    if lan.None? { return; }
    var spec := lan.value;
    var wanted := GetNads(spec, namespace);
    var existing, keys := store.List();
    ghost var before := store.nads;
    MissingNone(before, namespace);
    for i := 0 to |wanted|
      invariant store.nads == before + Missing(before, NamesIn(wanted[..i]), namespace)
      invariant calls == 0 <==> NamesIn(wanted[..i]) <= NamesOf(before)
    {
      var found := false;
      for j := 0 to |existing|
        invariant !found ==> forall k :: 0 <= k < j ==> existing[k].name != wanted[i].name
      {
        if wanted[i].name == existing[j].name {
          found := true;
          break;
        }
      }
      FoundIff(before, keys, existing, wanted[i].name, found);
      NadIsMade(spec, namespace, wanted, i);
      NamesInNext(wanted, i);
      MissingNext(before, NamesIn(wanted[..i]), wanted[i].name, namespace);
      if !found {
        var _ := store.Create(wanted[i]);
        calls := calls + 1;
      }
    }
    assert wanted[..|wanted|] == wanted;
    NadsAreDeviceKeys(spec, namespace, wanted);
    MissingKeyed(before, DeviceKeys(spec), namespace);
    MissingAreNads(before, DeviceKeys(spec), namespace);
  }

  lemma FoundIff(nads: Nads, keys: seq<NadKey>, items: seq<Nad>, name: string, found: bool)
    requires KeyedByName(nads) && |items| == |keys| && (forall k :: k in keys <==> k in nads)
    requires forall i :: 0 <= i < |keys| ==> keys[i] in nads && items[i] == nads[keys[i]]
    requires found <==> exists j :: 0 <= j < |items| && items[j].name == name
    ensures found <==> name in NamesOf(nads)
  {
    if name in NamesOf(nads) {
      var k :| k in nads && k.name == name;
      assert k in keys;
    }
  }

  lemma MissingNone(nads: Nads, namespace: string)
    ensures nads + Missing(nads, NamesIn([]), namespace) == nads
  {
  }

  lemma MissingKeyed(nads: Nads, names: set<string>, namespace: string)
    requires KeyedByName(nads)
    ensures KeyedByName(nads + Missing(nads, names, namespace))
  {
  }

  /** What a reconcile creates: wanted, in the LAN's namespace, with the resource of its own name. */
  lemma MissingAreNads(nads: Nads, names: set<string>, namespace: string)
    ensures forall k :: k in nads + Missing(nads, names, namespace) && k !in nads ==>
              k.name in names && k.namespace == namespace
              && IsNad((nads + Missing(nads, names, namespace))[k], k.name, namespace)
  {
    hide MakeNad;
    forall k | k in Missing(nads, names, namespace)
      ensures k.name in names && k.namespace == namespace
              && IsNad(Missing(nads, names, namespace)[k], k.name, namespace)
    {
      MadeIsNad(k.name, namespace);
    }
  }

  lemma NadIsMade(spec: LANSpec, namespace: string, wanted: seq<Nad>, i: nat)
    requires AreNadsOf(spec, namespace, wanted) && i < |wanted|
    ensures wanted[i] == MakeNad(wanted[i].name, namespace) && wanted[i].namespace == namespace
  {
    hide SpokeFromResource, DPResourceName, IsMacvtapResource;
    assert wanted[i] == NadAt(spec, namespace, i);
  }

  lemma NamesInNext(wanted: seq<Nad>, i: nat)
    requires i < |wanted|
    ensures NamesIn(wanted[..i + 1]) == NamesIn(wanted[..i]) + {wanted[i].name}
  {
    assert wanted[..i + 1] == wanted[..i] + [wanted[i]];
  }

  /** One more definition: created if its name is missing, even for the second of two equal ones. */
  lemma MissingNext(nads: Nads, names: set<string>, x: string, namespace: string)
    ensures var sofar := nads + Missing(nads, names, namespace);
            var next := nads + Missing(nads, names + {x}, namespace);
            var k := NadKey(namespace, x);
            && (x in NamesOf(nads) ==> next == sofar)
            && (x !in NamesOf(nads) ==> next == if k in sofar then sofar else sofar[k := MakeNad(x, namespace)])
  {
    hide MakeNad, Missing, NamesOf;
    MissingInsert(nads, names, x, namespace);
    var k, sofar := NadKey(namespace, x), nads + Missing(nads, names, namespace);
    if x !in NamesOf(nads) && k in sofar {
      assert sofar[k] == MakeNad(x, namespace);
      assert nads + Missing(nads, names + {x}, namespace) == sofar;
    }
  }

  lemma MissingInsert(nads: Nads, names: set<string>, x: string, namespace: string)
    ensures Missing(nads, names + {x}, namespace)
            == if x in NamesOf(nads) then Missing(nads, names, namespace)
               else Missing(nads, names, namespace)[NadKey(namespace, x) := MakeNad(x, namespace)]
    ensures x !in NamesOf(nads) ==> NadKey(namespace, x) !in nads
    ensures NadKey(namespace, x) in Missing(nads, names, namespace) ==>
              Missing(nads, names, namespace)[NadKey(namespace, x)] == MakeNad(x, namespace)
  {
    hide MakeNad;
    assert MissingKeys(nads, names + {x}, namespace)
           == MissingKeys(nads, names, namespace) + (if x in NamesOf(nads) then {} else {NadKey(namespace, x)});
  }

  // ----- what a reconcile achieves -----

  /** The names are a set union, nothing that was there is touched, and a second reconcile creates nothing. */
  lemma ReconcileIsUnion(nads: Nads, names: set<string>, namespace: string)
    ensures var after := nads + Missing(nads, names, namespace);
            && NamesOf(after) == NamesOf(nads) + names
            && (forall k :: k in nads ==> k in after && after[k] == nads[k])
            && Missing(after, names, namespace) == map[]
  {
    hide MakeNad;
    var after := nads + Missing(nads, names, namespace);
    forall x ensures x in NamesOf(after) <==> x in NamesOf(nads) + names {
      if x in names && x !in NamesOf(nads) {
        assert NadKey(namespace, x) in MissingKeys(nads, names, namespace);
      }
    }
    forall k | k in nads ensures k !in MissingKeys(nads, names, namespace) {
      assert k.name in NamesOf(nads);
    }
  }

  /**
   The list is taken over all namespaces and compared by name only.  So the LAN's own namespace gets
   all its definitions exactly if no name it lacks is used in another namespace.
   */
  lemma NamespaceServedIff(nads: Nads, names: set<string>, namespace: string)
    ensures (forall x :: x in names ==> NadKey(namespace, x) in nads + Missing(nads, names, namespace))
            <==> forall k :: k in nads && k.name in names && k.namespace != namespace ==>
                   NadKey(namespace, k.name) in nads
  {
    hide MakeNad;
    var after := nads + Missing(nads, names, namespace);
    if forall k :: k in nads && k.name in names && k.namespace != namespace ==> NadKey(namespace, k.name) in nads {
      forall x | x in names ensures NadKey(namespace, x) in after {
        if x in NamesOf(nads) {
          var k :| k in nads && k.name == x;
          assert k == NadKey(k.namespace, k.name);
        } else {
          assert NadKey(namespace, x) in MissingKeys(nads, names, namespace);
        }
      }
    }
    if k :| k in nads && k.name in names && k.namespace != namespace && NadKey(namespace, k.name) !in nads {
      assert k.name in NamesOf(nads);
      assert NadKey(namespace, k.name) !in after;
    }
  }
}
