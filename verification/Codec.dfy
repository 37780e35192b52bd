/** The spoke name codec: when decoding undoes encoding, and which names can collide. */
module Codec {
  import opened LanTypes

  predicate MatchAt(s: string, i: int, pat: string) {
    0 <= i && i + |pat| <= |s| && s[i..i + |pat|] == pat
  }

  /** `pat` occurs somewhere in `s`. */
  ghost predicate Contains(s: string, pat: string) {
    exists i :: MatchAt(s, i, pat)
  }

  lemma ContainsTail(s: string, pat: string)
    requires s != "" && pat != "" && !HasPrefix(s, pat)
    ensures Contains(s, pat) <==> Contains(s[1..], pat)
  {
    if i :| MatchAt(s, i, pat) {
      assert i > 0;
      assert s[1..][i - 1..i - 1 + |pat|] == s[i..i + |pat|];
      assert MatchAt(s[1..], i - 1, pat);
    }
    if i :| MatchAt(s[1..], i, pat) {
      assert s[1..][i..i + |pat|] == s[i + 1..i + 1 + |pat|];
      assert MatchAt(s, i + 1, pat);
    }
  }

  /** Taking out `pat` changes a string exactly if the string contains it. */
  lemma {:induction false} RemoveAllKeepsIff(s: string, pat: string)
    requires pat != ""
    ensures |RemoveAll(s, pat)| <= |s|
    ensures RemoveAll(s, pat) == s <==> !Contains(s, pat)
  {
    if s == "" {
    } else if HasPrefix(s, pat) {
      RemoveAllKeepsIff(s[|pat|..], pat);
      assert MatchAt(s, 0, pat);
    } else {
      RemoveAllKeepsIff(s[1..], pat);
      ContainsTail(s, pat);
    }
  }

  /** Decoding an encoded spoke gives it back exactly if the spoke does not contain the prefix it was given. */
  lemma RoundTripIff(spoke: string, isVeth: bool)
    ensures SpokeFromResource(DPResourceName(spoke, isVeth)) == spoke <==> !Contains(spoke, Prefix(isVeth))
  {
    var p, r := Prefix(isVeth), DPResourceName(spoke, isVeth);
    assert r[|p|..] == spoke && r[..|p|] == p;
    PrefixesApart(spoke);
    assert SpokeFromResource(r) == RemoveAll(spoke, p);
    RemoveAllKeepsIff(spoke, p);
  }

  lemma PrefixesApart(spoke: string)
    ensures !HasPrefix(DPResourceName(spoke, false), VETH_PREFIX)
    ensures !HasPrefix(DPResourceName(spoke, true), MACVTAP_PREFIX)
  {
    assert MACVTAP_PREFIX[7] == 'm' && VETH_PREFIX[7] == 'v';
    assert DPResourceName(spoke, false)[7] == 'm' && DPResourceName(spoke, true)[7] == 'v';
  }

  /** A resource of neither kind is not k8slan's, and has no spoke. */
  lemma ForeignResource(name: string)
    ensures (exists spoke, isVeth :: name == DPResourceName(spoke, isVeth)) || SpokeFromResource(name) == "badname"
  {
    if HasPrefix(name, VETH_PREFIX) { assert name == DPResourceName(name[|VETH_PREFIX|..], true); }
    if HasPrefix(name, MACVTAP_PREFIX) { assert name == DPResourceName(name[|MACVTAP_PREFIX|..], false); }
  }

  /** A spoke shorter than the shorter prefix always survives. */
  lemma ShortSpokesRoundTrip(spoke: string, isVeth: bool)
    requires |spoke| < |MACVTAP_PREFIX|
    ensures SpokeFromResource(DPResourceName(spoke, isVeth)) == spoke
  {
    RoundTripIff(spoke, isVeth);
  }

  /** An admissible spoke of 12 bytes that is decoded to another name. */
  lemma LongSpokeLost()
    ensures var spoke := "k8slan-mac-x";
            NameLengthOk(spoke) && SpokeFromResource(DPResourceName(spoke, false)) == "x"
  {
    var spoke := "k8slan-mac-x";
    var r := DPResourceName(spoke, false);
    PrefixesApart(spoke);
    assert r[..11] == MACVTAP_PREFIX && r[11..] == spoke;
    assert spoke[..11] == MACVTAP_PREFIX && spoke[11..] == "x";
    assert RemoveAll("x", MACVTAP_PREFIX) == ['x'] + RemoveAll("x"[1..], MACVTAP_PREFIX);
  }

  /** Encoding never makes two (spoke, kind) pairs one name. */
  lemma EncodeInjective(s: string, a: bool, t: string, b: bool)
    requires DPResourceName(s, a) == DPResourceName(t, b)
    ensures s == t && a == b
  {
    var r := DPResourceName(s, a);
    assert r[7] == (if a then 'v' else 'm') && r[7] == (if b then 'v' else 'm');
    assert r[|Prefix(a)|..] == s && r[|Prefix(b)|..] == t;
  }

  /** The keys that a spec's devices are listed under. */
  function DeviceKeys(spec: LANSpec): set<string> {
    KeysOf(spec.spokes)
  }

  function KeysOf(spokes: seq<string>): set<string> {
    set s, v | s in spokes && v in {true, false} :: DPResourceName(s, v)
  }

  lemma KeyInIff(spokes: seq<string>, s: string, v: bool)
    ensures DPResourceName(s, v) in KeysOf(spokes) <==> s in spokes
  {
    hide DPResourceName;
    if DPResourceName(s, v) in KeysOf(spokes) {
      var t, w :| t in spokes && w in {true, false} && DPResourceName(s, v) == DPResourceName(t, w);
      EncodeInjective(s, v, t, w);
    }
  }

  lemma KeysOfLast(spokes: seq<string>, i: nat)
    requires i < |spokes|
    ensures KeysOf(spokes[..i + 1])
            == KeysOf(spokes[..i]) + {DPResourceName(spokes[i], true), DPResourceName(spokes[i], false)}
  {
    hide DPResourceName;
    assert spokes[..i + 1] == spokes[..i] + [spokes[i]];
  }

  /** The operator's names and the device keys are the same set. */
  lemma NadsAreDeviceKeys(spec: LANSpec, namespace: string, nads: seq<Nad>)
    requires AreNadsOf(spec, namespace, nads)
    ensures (set d | d in nads :: d.name) == DeviceKeys(spec)
  {
    hide SpokeFromResource, IsMacvtapResource, DPResourceName;
    assert forall d :: d in nads ==> exists k: nat :: k < |nads| && d == nads[k] && d == NadAt(spec, namespace, k);
    forall x | x in DeviceKeys(spec) ensures exists d :: d in nads && d.name == x {
      var s, v :| s in spec.spokes && v in {true, false} && x == DPResourceName(s, v);
      var i: nat :| i < |spec.spokes| && spec.spokes[i] == s;
      var k: nat := if v then 2 * i else 2 * i + 1;
      assert nads[k] == NadAt(spec, namespace, k);
    }
  }

  /** The definitions' names are distinct exactly if the spokes are. */
  lemma NadNamesDistinctIff(spec: LANSpec, namespace: string, nads: seq<Nad>)
    requires AreNadsOf(spec, namespace, nads)
    ensures (forall j: nat, k: nat :: j < k < |nads| ==> nads[j].name != nads[k].name)
            <==> (forall j: nat, k: nat :: j < k < |spec.spokes| ==> spec.spokes[j] != spec.spokes[k])
  {
    hide SpokeFromResource, IsMacvtapResource, DPResourceName;
    if j: nat, k: nat :| j < k < |spec.spokes| && spec.spokes[j] == spec.spokes[k] {
      assert nads[2 * j] == NadAt(spec, namespace, 2 * j) && nads[2 * k] == NadAt(spec, namespace, 2 * k);
      assert nads[2 * j].name == nads[2 * k].name;
    }
    if j: nat, k: nat :| j < k < |nads| && nads[j].name == nads[k].name {
      EncodeInjective(spec.spokes[j / 2], j % 2 == 0, spec.spokes[k / 2], k % 2 == 0);
      assert j / 2 < k / 2 && spec.spokes[j / 2] == spec.spokes[k / 2];
    }
  }

  /** The veth definition of a spoke names that spoke exactly if the codec round trip holds. */
  lemma VethNadNamesSpoke(spoke: string, namespace: string)
    ensures MakeNad(DPResourceName(spoke, true), namespace).config == VethConfig(DPResourceName(spoke, true), spoke)
            <==> !Contains(spoke, VETH_PREFIX)
    ensures MakeNad(DPResourceName(spoke, false), namespace).config == MacvtapConfig(DPResourceName(spoke, false))
  {
    RoundTripIff(spoke, true);
    PrefixesApart(spoke);
    var r := DPResourceName(spoke, false);
    assert r[..|MACVTAP_PREFIX|] == MACVTAP_PREFIX;
  }
}
