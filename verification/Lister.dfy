/** The device index of pkg/deviceplugin, driven by two queues. */
module Lister {
  import opened Wrappers
  import opened LanTypes
  import opened Codec

  datatype Msg = AddMsg(spec: LANSpec) | RemoveMsg(spec: LANSpec)

  type Index = map<string, LANSpec>

  // ----- what a sequence of messages amounts to -----

  /** The last message that names `spoke`. */
  function LastNaming(msgs: seq<Msg>, spoke: string): Option<Msg> {
    if msgs == [] then None
    else if spoke in msgs[|msgs| - 1].spec.spokes then Some(msgs[|msgs| - 1])
    else LastNaming(msgs[..|msgs| - 1], spoke)
  }

  /**
   The index lists a spoke's two devices exactly if the last message naming the spoke was an add, for that
   add's LAN.
   */
  ghost predicate Reflects(index: Index, msgs: seq<Msg>) {
    && (forall s, v :: DPResourceName(s, v) in index
                       <==> LastNaming(msgs, s).Some? && LastNaming(msgs, s).value.AddMsg?)
    && (forall s, v :: DPResourceName(s, v) in index ==>
          LastNaming(msgs, s).Some? && index[DPResourceName(s, v)] == LastNaming(msgs, s).value.spec)
    && (forall k :: k in index ==> exists s, v :: k == DPResourceName(s, v))
  }

  /** Both devices of a spoke are listed, for one LAN that has the spoke, or neither is. */
  ghost predicate Paired(index: Index) {
    && (forall s :: DPResourceName(s, true) in index <==> DPResourceName(s, false) in index)
    && (forall s :: DPResourceName(s, true) in index && DPResourceName(s, false) in index ==>
          index[DPResourceName(s, true)] == index[DPResourceName(s, false)])
    && (forall k :: k in index ==> exists s, v :: k == DPResourceName(s, v) && s in index[k].spokes)
  }

  lemma LastNamingSpec(msgs: seq<Msg>, spoke: string)
    ensures LastNaming(msgs, spoke).Some? ==> LastNaming(msgs, spoke).value in msgs
                                              && spoke in LastNaming(msgs, spoke).value.spec.spokes
  {
  }

  /** The history determines the index, and keeps it paired. */
  lemma ReflectsIsPaired(index: Index, msgs: seq<Msg>)
    requires Reflects(index, msgs)
    ensures Paired(index)
  {
    hide DPResourceName;
    forall k | k in index ensures exists s, v :: k == DPResourceName(s, v) && s in index[k].spokes {
      var s, v :| k == DPResourceName(s, v);
      LastNamingSpec(msgs, s);
    }
  }

  lemma ReflectsUnique(a: Index, b: Index, msgs: seq<Msg>)
    requires Reflects(a, msgs) && Reflects(b, msgs)
    ensures a == b
  {
    hide DPResourceName;
    forall k ensures (k in a <==> k in b) && (k in a ==> a[k] == b[k]) {
      if k in a { var s, v :| k == DPResourceName(s, v); }
      if k in b { var s, v :| k == DPResourceName(s, v); }
    }
  }

  // ----- one message -----

  /** The index with `lan` written under both keys of each of `spokes`. */
  function Added(index: Index, spokes: seq<string>, lan: LANSpec): Index {
    index + map k | k in KeysOf(spokes) :: lan
  }

  function Apply(index: Index, msg: Msg): Index {
    match msg
    case AddMsg(lan) => Added(index, lan.spokes, lan)
    case RemoveMsg(lan) => index - DeviceKeys(lan)
  }

  /** The index after these messages, from an empty one. */
  function IndexOf(msgs: seq<Msg>): Index {
    if msgs == [] then map[] else Apply(IndexOf(msgs[..|msgs| - 1]), msgs[|msgs| - 1])
  }

  /** The index up to each message is not affected by later ones. */
  lemma IndexNext(msgs: seq<Msg>, m: Msg)
    ensures IndexOf(msgs + [m]) == Apply(IndexOf(msgs), m)
    ensures forall k :: 0 <= k <= |msgs| ==> (msgs + [m])[..k] == msgs[..k]
    ensures (msgs + [m])[..|msgs| + 1] == msgs + [m]
  {
    hide Apply;
    assert (msgs + [m])[..|msgs|] == msgs;
  }

  lemma AddedLast(index: Index, spokes: seq<string>, i: nat, lan: LANSpec)
    requires i < |spokes|
    ensures Added(index, spokes[..i + 1], lan)
            == Added(index, spokes[..i], lan)[DPResourceName(spokes[i], true) := lan]
                                             [DPResourceName(spokes[i], false) := lan]
  {
    hide DPResourceName, KeysOf;
    KeysOfLast(spokes, i);
  }

  lemma AddedNone(index: Index, lan: LANSpec)
    ensures Added(index, lan.spokes[..0], lan) == index
  {
    assert KeysOf(lan.spokes[..0]) == {};
  }

  lemma AddedPaired(index: Index, spokes: seq<string>, lan: LANSpec)
    requires Paired(index) && forall s :: s in spokes ==> s in lan.spokes
    ensures Paired(Added(index, spokes, lan))
  {
    hide DPResourceName;
    var r := Added(index, spokes, lan);
    forall s ensures DPResourceName(s, true) in r <==> DPResourceName(s, false) in r
             ensures DPResourceName(s, true) in r && DPResourceName(s, false) in r ==>
                       r[DPResourceName(s, true)] == r[DPResourceName(s, false)]
    {
      KeyInIff(spokes, s, true);
      KeyInIff(spokes, s, false);
    }
  }

  lemma RemovedPaired(index: Index, spokes: seq<string>)
    requires Paired(index)
    ensures Paired(index - KeysOf(spokes))
  {
    hide DPResourceName;
    forall s
      ensures DPResourceName(s, true) in index - KeysOf(spokes) <==> DPResourceName(s, false) in index - KeysOf(spokes)
    {
      KeyInIff(spokes, s, true);
      KeyInIff(spokes, s, false);
    }
  }

  /** One more message consumed. */
  lemma ApplyReflects(index: Index, msgs: seq<Msg>, msg: Msg)
    requires Reflects(index, msgs)
    ensures Reflects(Apply(index, msg), msgs + [msg])
  {
    hide DPResourceName;
    var r, all := Apply(index, msg), msgs + [msg];
    assert all[..|all| - 1] == msgs;
    forall s, v
      ensures DPResourceName(s, v) in r <==> LastNaming(all, s).Some? && LastNaming(all, s).value.AddMsg?
      ensures DPResourceName(s, v) in r ==>
                LastNaming(all, s).Some? && r[DPResourceName(s, v)] == LastNaming(all, s).value.spec
    {
      KeyInIff(msg.spec.spokes, s, v);
    }
    forall k | k in r ensures exists s, v :: k == DPResourceName(s, v) {
      if k in KeysOf(msg.spec.spokes) {
        var s, v :| s in msg.spec.spokes && v in {true, false} && k == DPResourceName(s, v);
      }
    }
  }

  // ----- the lister -----

  /** A list with the keys of the index, each once. */
  ghost predicate Enumerates(list: seq<string>, index: Index) {
    && (forall i, j :: 0 <= i < j < |list| ==> list[i] != list[j])
    && (forall k :: k in list <==> k in index)
  }

  /** Nothing for an empty index, and otherwise its keys. */
  ghost predicate IsReport(report: Option<seq<string>>, index: Index) {
    (report.None? <==> index == map[]) && (report.Some? ==> Enumerates(report.value, index))
  }

  class MacvtapLister {
    var deviceList: Index

    constructor ()
      ensures deviceList == map[]
    {
      deviceList := map[];
    }

    /** One received add; between any two spokes of the loop the index is paired. */
    method ReceiveAdd(lan: LANSpec)
      requires Paired(deviceList)
      modifies this
      ensures deviceList == Apply(old(deviceList), AddMsg(lan)) && Paired(deviceList)
    {
      hide DPResourceName, Paired, KeysOf, Added;
      AddedNone(deviceList, lan);
      for i := 0 to |lan.spokes|
        invariant deviceList == Added(old(deviceList), lan.spokes[..i], lan) && Paired(deviceList)
      {
        AddedLast(old(deviceList), lan.spokes, i, lan);
        deviceList := deviceList[DPResourceName(lan.spokes[i], true) := lan];
        deviceList := deviceList[DPResourceName(lan.spokes[i], false) := lan];
        AddedPaired(old(deviceList), lan.spokes[..i + 1], lan);
      }
      assert lan.spokes[..|lan.spokes|] == lan.spokes;
    }

    method ReceiveRemove(lan: LANSpec)
      requires Paired(deviceList)
      modifies this
      ensures deviceList == Apply(old(deviceList), RemoveMsg(lan)) && Paired(deviceList)
    {
      hide DPResourceName, Paired;
      for i := 0 to |lan.spokes|
        invariant deviceList == old(deviceList) - KeysOf(lan.spokes[..i]) && Paired(deviceList)
      {
        KeysOfLast(lan.spokes, i);
        deviceList := deviceList - {DPResourceName(lan.spokes[i], true)};
        deviceList := deviceList - {DPResourceName(lan.spokes[i], false)};
        assert deviceList == old(deviceList) - KeysOf(lan.spokes[..i + 1]);
        RemovedPaired(old(deviceList), lan.spokes[..i + 1]);
      }
      assert lan.spokes[..|lan.spokes|] == lan.spokes;
    }

    /** The keys, in whatever order the map gives them. */
    method GetCurrentPlugins() returns (list: seq<string>)
      ensures Enumerates(list, deviceList)
    {
      list := [];
      var rest := deviceList.Keys;
      while rest != {}
        invariant rest <= deviceList.Keys
        invariant forall k :: k in list <==> k in deviceList && k !in rest
        invariant forall i, j :: 0 <= i < j < |list| ==> list[i] != list[j]
        decreases rest
      {
        var name :| name in rest;
        list := list + [name];
        rest := rest - {name};
      }
    }

    /** Nothing is reported for an empty index. */
    method Report() returns (report: Option<seq<string>>)
      ensures IsReport(report, deviceList) && (report.Some? ==> report.value != [])
    {
      var list := GetCurrentPlugins();
      if |list| > 0 {
        assert list[0] in deviceList;
        return Some(list);
      }
      assert forall k :: k !in deviceList;
      return None;
    }

    /**
     The receive loop over what the two queues hold: `fromAdd` says which ready queue each select
     picks; a pick of an empty queue takes nothing.  `consumed` are the messages in the order in which
     they were taken, and the index ends up as that order alone determines.  After each message the
     index is reported, unless it is empty.
     */
    method Discover(adds: seq<LANSpec>, removes: seq<LANSpec>, fromAdd: seq<bool>)
      returns (ghost consumed: seq<Msg>, reports: seq<Option<seq<string>>>)
      requires deviceList == map[]
      modifies this
      ensures consumed == Picked(adds, removes, fromAdd)
      ensures deviceList == IndexOf(consumed) && Reflects(deviceList, consumed) && Paired(deviceList)
      ensures |reports| == |consumed|
      ensures forall k :: 0 <= k < |reports| ==> IsReport(reports[k], IndexOf(consumed[..k + 1]))
    {
      hide DPResourceName, Paired, Reflects, IsReport, Apply, Picked;
      var i, j := 0, 0;
      consumed, reports := [], [];
      EmptyReflects();
      PickedNone(adds, removes);
      for n := 0 to |fromAdd|
        invariant 0 <= i <= |adds| && 0 <= j <= |removes|
        invariant consumed == Picked(adds, removes, fromAdd[..n])
        invariant deviceList == IndexOf(consumed) && Reflects(deviceList, consumed) && Paired(deviceList)
        invariant AddsOf(consumed) == adds[..i] && RemovesOf(consumed) == removes[..j]
        invariant |reports| == |consumed|
        invariant forall k :: 0 <= k < |reports| ==> IsReport(reports[k], IndexOf(consumed[..k + 1]))
      {
        PickedNext(adds, removes, fromAdd, n);
        if fromAdd[n] && i < |adds| {
          ApplyReflects(deviceList, consumed, AddMsg(adds[i]));
          MessageTaken(consumed, AddMsg(adds[i]));
          IndexNext(consumed, AddMsg(adds[i]));
          ReceiveAdd(adds[i]);
          consumed := consumed + [AddMsg(adds[i])];
          i := i + 1;
          var report := Report();
          reports := reports + [report];
        } else if !fromAdd[n] && j < |removes| {
          ApplyReflects(deviceList, consumed, RemoveMsg(removes[j]));
          MessageTaken(consumed, RemoveMsg(removes[j]));
          IndexNext(consumed, RemoveMsg(removes[j]));
          ReceiveRemove(removes[j]);
          consumed := consumed + [RemoveMsg(removes[j])];
          j := j + 1;
          var report := Report();
          reports := reports + [report];
        }
      }
      assert fromAdd[..|fromAdd|] == fromAdd;
    }
  }

  lemma EmptyReflects()
    ensures Reflects(map[], []) && Paired(map[])
  {
  }

  // ----- two queues -----

  function AddsOf(msgs: seq<Msg>): seq<LANSpec> {
    if msgs == [] then []
    else AddsOf(msgs[..|msgs| - 1]) + (if msgs[|msgs| - 1].AddMsg? then [msgs[|msgs| - 1].spec] else [])
  }

  function RemovesOf(msgs: seq<Msg>): seq<LANSpec> {
    if msgs == [] then []
    else RemovesOf(msgs[..|msgs| - 1]) + (if msgs[|msgs| - 1].RemoveMsg? then [msgs[|msgs| - 1].spec] else [])
  }

  /** The messages taken keep the order of each queue, and no other order. */
  predicate TakenFrom(msgs: seq<Msg>, adds: seq<LANSpec>, removes: seq<LANSpec>) {
    AddsOf(msgs) <= adds && RemovesOf(msgs) <= removes
  }

  lemma MessageTaken(msgs: seq<Msg>, msg: Msg)
    ensures AddsOf(msgs + [msg]) == AddsOf(msgs) + (if msg.AddMsg? then [msg.spec] else [])
    ensures RemovesOf(msgs + [msg]) == RemovesOf(msgs) + (if msg.RemoveMsg? then [msg.spec] else [])
  {
    assert (msgs + [msg])[..|msgs|] == msgs;
  }

  /** What these picks take: each the oldest message of its queue that is left, if there is one. */
  function Picked(adds: seq<LANSpec>, removes: seq<LANSpec>, fromAdd: seq<bool>): seq<Msg> {
    if fromAdd == [] then []
    else
      var before := Picked(adds, removes, fromAdd[..|fromAdd| - 1]);
      var i, j := |AddsOf(before)|, |RemovesOf(before)|;
      before + if fromAdd[|fromAdd| - 1] then (if i < |adds| then [AddMsg(adds[i])] else [])
               else (if j < |removes| then [RemoveMsg(removes[j])] else [])
  }

  lemma PickedNone(adds: seq<LANSpec>, removes: seq<LANSpec>)
    ensures Picked(adds, removes, []) == []
  {
  }

  lemma PickedNext(adds: seq<LANSpec>, removes: seq<LANSpec>, fromAdd: seq<bool>, n: nat)
    requires n < |fromAdd|
    ensures fromAdd[..n + 1][..n] == fromAdd[..n]
    ensures var before := Picked(adds, removes, fromAdd[..n]);
            var i, j := |AddsOf(before)|, |RemovesOf(before)|;
            Picked(adds, removes, fromAdd[..n + 1])
            == before + if fromAdd[n] then (if i < |adds| then [AddMsg(adds[i])] else [])
                        else (if j < |removes| then [RemoveMsg(removes[j])] else [])
  {
    assert fromAdd[..n + 1][..n] == fromAdd[..n];
  }

  function Count(picks: seq<bool>, which: bool): nat {
    if picks == [] then 0
    else Count(picks[..|picks| - 1], which) + if picks[|picks| - 1] == which then 1 else 0
  }

  function Min(a: nat, b: nat): nat { if a < b then a else b }

  /**
   Both queues are taken in order and as far as they are picked; so every message is taken if each queue is
   picked often enough.
   */
  lemma {:induction false} PickedInOrder(adds: seq<LANSpec>, removes: seq<LANSpec>, fromAdd: seq<bool>)
    ensures var all := Picked(adds, removes, fromAdd);
            && AddsOf(all) == adds[..Min(|adds|, Count(fromAdd, true))]
            && RemovesOf(all) == removes[..Min(|removes|, Count(fromAdd, false))]
  {
    if fromAdd != [] {
      var last := |fromAdd| - 1;
      PickedInOrder(adds, removes, fromAdd[..last]);
      PickedNext(adds, removes, fromAdd, last);
      assert fromAdd[..last + 1] == fromAdd;
      OnePick(Picked(adds, removes, fromAdd[..last]), adds, removes, fromAdd[last]);
      hide AddsOf, RemovesOf, Picked;
    }
  }

  /** One pick takes one message of its queue, if one is left. */
  lemma OnePick(before: seq<Msg>, adds: seq<LANSpec>, removes: seq<LANSpec>, pick: bool)
    requires var i, j := |AddsOf(before)|, |RemovesOf(before)|;
             i <= |adds| && j <= |removes| && AddsOf(before) == adds[..i] && RemovesOf(before) == removes[..j]
    ensures var i, j := |AddsOf(before)|, |RemovesOf(before)|;
            var after := before + if pick then (if i < |adds| then [AddMsg(adds[i])] else [])
                                  else (if j < |removes| then [RemoveMsg(removes[j])] else []);
            && AddsOf(after) == adds[..if pick && i < |adds| then i + 1 else i]
            && RemovesOf(after) == removes[..if !pick && j < |removes| then j + 1 else j]
  {
    hide AddsOf, RemovesOf;
    var i, j := |AddsOf(before)|, |RemovesOf(before)|;
    if pick && i < |adds| { MessageTaken(before, AddMsg(adds[i])); }
    if !pick && j < |removes| { MessageTaken(before, RemoveMsg(removes[j])); }
    assert before + [] == before;
  }

  /** What is taken first does not depend on later picks. */
  lemma {:induction false} PickedFirst(adds: seq<LANSpec>, removes: seq<LANSpec>, fromAdd: seq<bool>, n: nat)
    requires n <= |fromAdd|
    ensures Picked(adds, removes, fromAdd[..n]) <= Picked(adds, removes, fromAdd)
    ensures TakenFrom(Picked(adds, removes, fromAdd), adds, removes)
  {
    PickedInOrder(adds, removes, fromAdd);
    hide AddsOf, RemovesOf;
    if n < |fromAdd| {
      PickedFirst(adds, removes, fromAdd[..|fromAdd| - 1], n);
      assert fromAdd[..|fromAdd| - 1][..n] == fromAdd[..n];
    } else {
      assert fromAdd[..n] == fromAdd;
    }
  }

  // ----- LANs with disjoint spokes -----

  ghost predicate DisjointSpokes(msgs: seq<Msg>) {
    forall a, b, s :: a in msgs && b in msgs && s in a.spec.spokes && s in b.spec.spokes ==> a.spec == b.spec
  }

  /** The last message about `lan` itself. */
  function LastAbout(msgs: seq<Msg>, lan: LANSpec): Option<Msg> {
    if msgs == [] then None
    else if msgs[|msgs| - 1].spec == lan then Some(msgs[|msgs| - 1])
    else LastAbout(msgs[..|msgs| - 1], lan)
  }

  lemma {:induction false} LastIsAbout(msgs: seq<Msg>, lan: LANSpec, s: string)
    requires DisjointSpokes(msgs) && s in lan.spokes && (exists a :: a in msgs && a.spec == lan)
    ensures LastNaming(msgs, s) == LastAbout(msgs, lan)
  {
    var m := msgs[|msgs| - 1];
    if s in m.spec.spokes {
      assert m in msgs && m.spec == lan;
    } else {
      LastIsAbout(msgs[..|msgs| - 1], lan, s);
    }
  }

  /**
   With disjoint spokes the index is the union over the LANs currently added: a LAN's devices are
   all listed, for it, if the last message about it was an add, and none is if it was a removal.
   */
  lemma IndexIsUnion(index: Index, msgs: seq<Msg>, lan: LANSpec, s: string, v: bool)
    requires Reflects(index, msgs) && DisjointSpokes(msgs) && s in lan.spokes
             && (exists a :: a in msgs && a.spec == lan)
    ensures LastAbout(msgs, lan).Some?
    ensures DPResourceName(s, v) in index <==> LastAbout(msgs, lan).value.AddMsg?
    ensures DPResourceName(s, v) in index ==> index[DPResourceName(s, v)] == lan
  {
    hide DPResourceName;
    LastIsAbout(msgs, lan, s);
    AboutExists(msgs, lan);
  }

  lemma AboutExists(msgs: seq<Msg>, lan: LANSpec)
    requires exists a :: a in msgs && a.spec == lan
    ensures LastAbout(msgs, lan).Some? && LastAbout(msgs, lan).value.spec == lan
  {
    if msgs[|msgs| - 1].spec != lan { AboutExists(msgs[..|msgs| - 1], lan); }
  }

  lemma BothOrders(lan: LANSpec)
    ensures Apply(Apply(map[], RemoveMsg(lan)), AddMsg(lan)).Keys == KeysOf(lan.spokes)
    ensures Apply(Apply(map[], AddMsg(lan)), RemoveMsg(lan)) == map[]
  {
    hide KeysOf;
    var none: Index := map[];
    assert none - KeysOf(lan.spokes) == map[];
  }

  /** The select may take a removal before the add it follows, and then the devices stay listed. */
  lemma RemovalCanOvertake(lan: LANSpec, s: string)
    requires s in lan.spokes
    ensures TakenFrom([RemoveMsg(lan), AddMsg(lan)], [lan], [lan])
    ensures TakenFrom([AddMsg(lan), RemoveMsg(lan)], [lan], [lan])
    ensures DPResourceName(s, true) in Apply(Apply(map[], RemoveMsg(lan)), AddMsg(lan))
    ensures Apply(Apply(map[], AddMsg(lan)), RemoveMsg(lan)) == map[]
  {
    hide DPResourceName, Apply, KeysOf, TakenFrom;
    KeyInIff(lan.spokes, s, true);
    BothOrders(lan);
    BothTaken(lan);
    assert DPResourceName(s, true) in Apply(Apply(map[], RemoveMsg(lan)), AddMsg(lan)).Keys;
  }

  lemma TakenNone()
    ensures AddsOf([]) == [] && RemovesOf([]) == []
  {
  }

  lemma BothTaken(lan: LANSpec)
    ensures TakenFrom([RemoveMsg(lan), AddMsg(lan)], [lan], [lan])
    ensures TakenFrom([AddMsg(lan), RemoveMsg(lan)], [lan], [lan])
  {
    var a, r := AddMsg(lan), RemoveMsg(lan);
    TakenNone();
    hide AddsOf, RemovesOf;
    assert [r] == [] + [r] && [r, a] == [r] + [a] && [a] == [] + [a] && [a, r] == [a] + [r];
    MessageTaken([], r);
    MessageTaken([r], a);
    MessageTaken([], a);
    MessageTaken([a], r);
  }
}
