/** What the versions of a LAN object look like, whoever wrote them. */
module ProtocolHistory {
  import opened Protocol
  import Webhook

  // ----- the three writes -----

  predicate Registers(h: string, o: Obj, p: Obj) {
    !o.deleting && FinName(h) !in o.fins && p == o.(fins := o.fins + [FinName(h)])
  }

  predicate Deletes(o: Obj, p: Obj) {
    !o.deleting && Webhook.DeleteAccepted(o.fins) && p == o.(deleting := true)
  }

  predicate Releases(h: string, o: Obj, p: Obj) {
    o.deleting && FinName(h) in o.fins && p == o.(fins := RemoveFinalizer(o.fins, FinName(h)))
  }

  ghost predicate Wrote(hosts: set<string>, o: Obj, p: Obj) {
    Deletes(o, p) || exists h :: h in hosts && (Registers(h, o, p) || Releases(h, o, p))
  }

  /** From a version that no host is registered with, by writes of these hosts and one deletion. */
  ghost predicate History(hosts: set<string>, hist: seq<Obj>) {
    && hist != [] && !hist[0].deleting && Stored(hist[0].spec)
    && (forall h :: h in hosts ==> FinName(h) !in hist[0].fins)
    && (forall i :: 0 < i < |hist| ==> Wrote(hosts, hist[i - 1], hist[i]))
  }

  lemma Shorter(hosts: set<string>, hist: seq<Obj>, n: nat)
    requires History(hosts, hist) && 0 < n <= |hist|
    ensures History(hosts, hist[..n])
  {
    hide Wrote;
    forall i | 0 < i < n ensures Wrote(hosts, hist[..n][i - 1], hist[..n][i]) {
      assert Wrote(hosts, hist[i - 1], hist[i]);
    }
  }

  lemma Extend(hosts: set<string>, hist: seq<Obj>, p: Obj)
    requires History(hosts, hist) && Wrote(hosts, Last(hist), p)
    ensures History(hosts, hist + [p])
  {
    hide Wrote;
  }

  // ----- from one version to the next -----

  lemma WroteKeeps(hosts: set<string>, o: Obj, p: Obj, h: string)
    requires Wrote(hosts, o, p)
    ensures p.spec == o.spec && (o.deleting ==> p.deleting)
    ensures FinName(h) !in o.fins && FinName(h) in p.fins ==> !o.deleting && Registers(h, o, p)
    ensures FinName(h) in o.fins && FinName(h) !in p.fins ==> o.deleting && Releases(h, o, p)
  {
    hide FinName;
    if !Deletes(o, p) {
      var g :| g in hosts && (Registers(g, o, p) || Releases(g, o, p));
      FinNameInjective(g, h);
    }
  }

  /** The spec never changes, and a deletion is never taken back. */
  lemma {:induction false} SpecConstant(hosts: set<string>, hist: seq<Obj>, i: nat, j: nat)
    requires History(hosts, hist) && i <= j < |hist|
    ensures hist[j].spec == hist[i].spec && Stored(hist[j].spec)
    ensures hist[i].deleting ==> hist[j].deleting
    decreases j
  {
    hide Wrote, Stored;
    if j > 0 {
      WroteKeeps(hosts, hist[j - 1], hist[j], "");
      SpecConstant(hosts, hist, if i < j then i else j - 1, j - 1);
    }
  }

  /** A finalizer comes only while the object lives and goes only while it is being deleted. */
  lemma {:induction false} FinalizerStays(hosts: set<string>, hist: seq<Obj>, h: string, i: nat, j: nat)
    requires History(hosts, hist) && i <= j < |hist|
    ensures FinName(h) in hist[i].fins && !hist[j].deleting ==> FinName(h) in hist[j].fins
    ensures FinName(h) !in hist[i].fins && hist[i].deleting ==> FinName(h) !in hist[j].fins
    decreases j - i
  {
    hide Wrote, FinName;
    if i < j {
      FinalizerStays(hosts, hist, h, i, j - 1);
      SpecConstant(hosts, hist, i, j - 1);
      WroteKeeps(hosts, hist[j - 1], hist[j], h);
    }
  }

  /** Unregistered, registered, released: once a host's finalizer is gone it never comes back. */
  lemma PhasesMonotone(hosts: set<string>, hist: seq<Obj>, h: string, i: nat, j: nat, k: nat)
    requires History(hosts, hist) && i <= j <= k < |hist|
    requires FinName(h) in hist[i].fins && FinName(h) !in hist[j].fins
    ensures FinName(h) !in hist[k].fins && hist[j].deleting
  {
    hide Wrote, FinName;
    FinalizerStays(hosts, hist, h, i, j);
    FinalizerStays(hosts, hist, h, j, k);
  }

  // ----- how many writes there can be -----

  ghost predicate EverHeld(hist: seq<Obj>, h: string) {
    exists i :: 0 <= i < |hist| && FinName(h) in hist[i].fins
  }

  /** The hosts that ever registered. */
  ghost function Ever(hosts: set<string>, hist: seq<Obj>): set<string> {
    set h | h in hosts && EverHeld(hist, h)
  }

  /** Of those, the ones that released. */
  ghost function Released(hosts: set<string>, hist: seq<Obj>): set<string>
    requires hist != []
  {
    set h | h in Ever(hosts, hist) && FinName(h) !in Last(hist).fins
  }

  lemma EverNext(hosts: set<string>, hist: seq<Obj>, p: Obj)
    ensures Ever(hosts, hist + [p]) == Ever(hosts, hist) + set h | h in hosts && FinName(h) in p.fins
  {
    hide FinName;
    var all := hist + [p];
    forall h | h in hosts ensures EverHeld(all, h) <==> EverHeld(hist, h) || FinName(h) in p.fins {
      if EverHeld(hist, h) {
        var i :| 0 <= i < |hist| && FinName(h) in hist[i].fins;
        assert FinName(h) in all[i].fins;
      }
      if FinName(h) in p.fins { assert FinName(h) in all[|hist|].fins; }
    }
  }

  /** Every write is a registration, a release or the deletion, and each of them happens once per host. */
  lemma {:induction false} WritesExact(hosts: set<string>, hist: seq<Obj>)
    requires History(hosts, hist)
    ensures |hist| - 1 == |Ever(hosts, hist)| + |Released(hosts, hist)| + (if Last(hist).deleting then 1 else 0)
    ensures !Last(hist).deleting ==> Released(hosts, hist) == {}
    decreases |hist|
  {
    hide FinName, Wrote, EverHeld;
    if |hist| == 1 {
      forall h | h in hosts ensures !EverHeld(hist, h) { NeverHeldYet(hosts, hist, h); }
      assert Ever(hosts, hist) == {} && Released(hosts, hist) == {};
    } else {
      var front := hist[..|hist| - 1];
      Shorter(hosts, hist, |hist| - 1);
      WritesExact(hosts, front);
      assert hist == front + [Last(hist)] && Last(front) == hist[|hist| - 2];
      CountNext(hosts, front, Last(hist));
    }
  }

  lemma NeverHeldYet(hosts: set<string>, hist: seq<Obj>, h: string)
    requires History(hosts, hist) && |hist| == 1 && h in hosts
    ensures !EverHeld(hist, h)
  {
  }

  lemma HeldIsEver(hosts: set<string>, hist: seq<Obj>, h: string)
    requires hist != [] && h in hosts && FinName(h) in Last(hist).fins
    ensures h in Ever(hosts, hist)
  {
    assert FinName(h) in hist[|hist| - 1].fins;
  }

  /** Whose finalizers a write changes. */
  lemma FinsNext(g: string, o: Obj, p: Obj, h: string)
    requires Registers(g, o, p) || Releases(g, o, p)
    ensures FinName(h) in p.fins <==> if h == g then Registers(g, o, p) else FinName(h) in o.fins
  {
    hide FinName;
    FinNameInjective(h, g);
  }

  lemma CountNext(hosts: set<string>, hist: seq<Obj>, p: Obj)
    requires hist != [] && Wrote(hosts, Last(hist), p)
    requires !Last(hist).deleting ==> Released(hosts, hist) == {}
    ensures var all := hist + [p];
            && |Ever(hosts, all)| + |Released(hosts, all)| + (if p.deleting then 1 else 0)
               == |Ever(hosts, hist)| + |Released(hosts, hist)| + (if Last(hist).deleting then 1 else 0) + 1
            && (!p.deleting ==> Released(hosts, all) == {})
  {
    hide FinName, EverHeld, Ever;
    var o, all := Last(hist), hist + [p];
    assert Last(all) == p;
    EverNext(hosts, hist, p);
    forall h | h in hosts && FinName(h) in o.fins ensures h in Ever(hosts, hist) { HeldIsEver(hosts, hist, h); }
    forall h | h in Ever(hosts, hist) ensures h in hosts { EverIsHost(hosts, hist, h); }
    if Deletes(o, p) {
      hide RemoveFinalizer, Releases, Registers;
      assert Ever(hosts, all) == Ever(hosts, hist);
      assert Released(hosts, all) == Released(hosts, hist);
    } else {
      var g :| g in hosts && (Registers(g, o, p) || Releases(g, o, p));
      forall h ensures FinName(h) in p.fins <==> if h == g then Registers(g, o, p) else FinName(h) in o.fins {
        FinsNext(g, o, p, h);
      }
      if Registers(g, o, p) {
        assert g !in Released(hosts, hist);
        hide RemoveFinalizer, Releases, Registers, Deletes, Wrote;
        assert Ever(hosts, all) == Ever(hosts, hist) + {g};
        assert Released(hosts, all) == {};
      } else {
        assert p.deleting && o.deleting && FinName(g) in o.fins;
        hide RemoveFinalizer, Releases, Registers, Deletes, Wrote;
        assert Ever(hosts, all) == Ever(hosts, hist);
        assert Released(hosts, all) == Released(hosts, hist) + {g};
      }
    }
  }

  lemma EverIsHost(hosts: set<string>, hist: seq<Obj>, h: string)
    requires h in Ever(hosts, hist)
    ensures h in hosts
  {
  }

  lemma SubsetSize<T>(a: set<T>, b: set<T>)
    requires a <= b
    ensures |a| <= |b|
  {
    if a != {} {
      var x :| x in a;
      SubsetSize(a - {x}, b - {x});
    }
  }

  /** With N hosts and one deletion there are at most 2N + 1 writes. */
  lemma WritesBounded(hosts: set<string>, hist: seq<Obj>)
    requires History(hosts, hist)
    ensures |hist| - 1 <= 2 * |hosts| + 1
  {
    hide History, EverHeld;
    WritesExact(hosts, hist);
    SubsetSize(Ever(hosts, hist), hosts);
    SubsetSize(Released(hosts, hist), hosts);
  }

  /** The object is gone exactly if it is being deleted, every registered host released, and nothing else holds it. */
  lemma GoneIff(hosts: set<string>, hist: seq<Obj>)
    requires History(hosts, hist) && hist[0].fins == []
    ensures Gone(Last(hist)) <==> Last(hist).deleting && Released(hosts, hist) == Ever(hosts, hist)
  {
    hide Wrote;
    if Last(hist).deleting && Released(hosts, hist) == Ever(hosts, hist) && Last(hist).fins != [] {
      var f := Last(hist).fins[0];
      OnlyHosts(hosts, hist, |hist| - 1, f);
      var h :| h in hosts && f == FinName(h);
      HeldIsEver(hosts, hist, h);
      assert false;
    }
  }

  lemma {:induction false} OnlyHosts(hosts: set<string>, hist: seq<Obj>, j: nat, f: string)
    requires History(hosts, hist) && j < |hist| && f in hist[j].fins
    ensures f in hist[0].fins || exists h :: h in hosts && f == FinName(h)
    decreases j
  {
    hide FinName;
    if j > 0 {
      assert Wrote(hosts, hist[j - 1], hist[j]);
      if f in hist[j - 1].fins { OnlyHosts(hosts, hist, j - 1, f); }
    }
  }
}
