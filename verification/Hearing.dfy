/** When the end of an attached spoke is up: which events of a run bring it up, and which take it down. */
module Hearing {
  import opened Kernel
  import opened ApplySpec
  import opened Topology
  import opened Isolation
  import opened Stages
  import opened Ends
  import opened Runs

  // ----- one event -----

  /** The event brings the end of `x` up: in the host at the end of its Ensure, or in the pod that has it. */
  predicate Raises(e: Event, o: Outcome, a: View, x: (string, string)) {
    match e
    case EnsureEvent(_, m, s, _, _, _) => (m, s) == x && o.stage.BroughtUp?
    case PodUpEvent(_, pod, ifname) => x in a && a[x].at == Key(Pod(pod), ifname)
    case _ => false
  }

  /** The event takes the end of `x` down: an Ensure that remakes the pair and stops there, or a move. */
  predicate Lowers(e: Event, o: Outcome, a: View, x: (string, string)) {
    match e
    case EnsureEvent(_, m, s, _, _, _) => (m, s) == x && o.stage.LeftDown?
    case CniEvent(_, name, _, _) => o.moved && x in a && a[x].at == HostKey(name)
    case _ => false
  }

  lemma EffectUp(e: Event, o: Outcome, a: View, x: (string, string))
    requires x in Effect(e, o, a)
    ensures Effect(e, o, a)[x].up <==> Raises(e, o, a, x) || (!Lowers(e, o, a, x) && x in a && a[x].up)
    ensures x !in a ==> Raises(e, o, a, x) || Lowers(e, o, a, x)
  {
  }

  // ----- whole runs -----

  /** The view of a host before event `i` of a run. */
  function ViewAt(lans: Lans, c: Cluster, es: seq<Event>, i: nat, h: string): View
    requires i <= |es|
  {
    var d := Run(lans, c, es[..i]);
    if h in d then EndsOf(lans, d[h]) else map[]
  }

  predicate Acts(lans: Lans, c: Cluster, e: Event, h: string) {
    h in c && e.host == h && Proper(lans, e)
  }

  predicate RaisesAt(lans: Lans, c: Cluster, es: seq<Event>, i: nat, h: string, x: (string, string))
    requires i < |es|
  {
    var d := Run(lans, c, es[..i]);
    Acts(lans, d, es[i], h) && Raises(es[i], OutcomeOf(lans, d[h], es[i]), EndsOf(lans, d[h]), x)
  }

  predicate LowersAt(lans: Lans, c: Cluster, es: seq<Event>, i: nat, h: string, x: (string, string))
    requires i < |es|
  {
    var d := Run(lans, c, es[..i]);
    Acts(lans, d, es[i], h) && Lowers(es[i], OutcomeOf(lans, d[h], es[i]), EndsOf(lans, d[h]), x)
  }

  /** Of all events that bring the end up or take it down, the last brings it up. */
  ghost predicate RaisedLast(lans: Lans, c: Cluster, es: seq<Event>, h: string, x: (string, string)) {
    exists i: nat | i < |es| ::
      RaisesAt(lans, c, es, i, h, x) && forall j: nat :: i < j < |es| ==> !LowersAt(lans, c, es, j, h, x)
  }

  lemma RaisedLastNext(lans: Lans, c: Cluster, es: seq<Event>, e: Event, h: string, x: (string, string))
    ensures var fs := es + [e];
            RaisedLast(lans, c, fs, h, x)
            <==> RaisesAt(lans, c, fs, |es|, h, x)
                 || (!LowersAt(lans, c, fs, |es|, h, x) && RaisedLast(lans, c, es, h, x))
  {
    hide RaisesAt, LowersAt;
    var fs := es + [e];
    forall i: nat | i < |es|
      ensures RaisesAt(lans, c, fs, i, h, x) == RaisesAt(lans, c, es, i, h, x)
      ensures LowersAt(lans, c, fs, i, h, x) == LowersAt(lans, c, es, i, h, x)
    {
      AtPrefix(lans, c, es, e, i, h, x);
    }
    if RaisesAt(lans, c, fs, |es|, h, x) { assert RaisedLast(lans, c, fs, h, x); }
    if RaisedLast(lans, c, fs, h, x) && !RaisesAt(lans, c, fs, |es|, h, x) {
      var i: nat :| i < |fs| && RaisesAt(lans, c, fs, i, h, x)
                    && forall j: nat :: i < j < |fs| ==> !LowersAt(lans, c, fs, j, h, x);
      assert i < |es| && RaisesAt(lans, c, es, i, h, x);
    }
    if RaisedLast(lans, c, es, h, x) && !LowersAt(lans, c, fs, |es|, h, x) {
      var i: nat :| i < |es| && RaisesAt(lans, c, es, i, h, x)
                    && forall j: nat :: i < j < |es| ==> !LowersAt(lans, c, es, j, h, x);
      assert RaisesAt(lans, c, fs, i, h, x);
    }
  }

  lemma AtPrefix(lans: Lans, c: Cluster, es: seq<Event>, e: Event, i: nat, h: string, x: (string, string))
    requires i < |es|
    ensures RaisesAt(lans, c, es + [e], i, h, x) == RaisesAt(lans, c, es, i, h, x)
    ensures LowersAt(lans, c, es + [e], i, h, x) == LowersAt(lans, c, es, i, h, x)
  {
    hide Acts, Raises, Lowers, OutcomeOf, EndsOf, Run;
    assert (es + [e])[..i] == es[..i];
  }

  /** One more event of a run, on the view of one host. */
  lemma StepUp(lans: Lans, c: Cluster, es: seq<Event>, e: Event, h: string, x: (string, string))
    requires Start(lans, c) && h in c && x in ViewAt(lans, c, es + [e], |es| + 1, h)
    ensures var fs := es + [e];
            var a, b := ViewAt(lans, c, fs, |es|, h), ViewAt(lans, c, fs, |es| + 1, h);
            && (b[x].up <==> RaisesAt(lans, c, fs, |es|, h, x)
                             || (!LowersAt(lans, c, fs, |es|, h, x) && x in a && a[x].up))
            && (x !in a ==> RaisesAt(lans, c, fs, |es|, h, x) || LowersAt(lans, c, fs, |es|, h, x))
  {
    var fs := es + [e];
    hide Start, Raises, Lowers, OutcomeOf, EndsOf, Effect, Run, Proper;
    assert fs[..|es|] == es && fs[..|es| + 1] == fs;
    RunHosts(lans, c, es);
    RunHosts(lans, c, fs);
    OneStep(lans, c, es, e, h);
    var d := Run(lans, c, es);
    if Proper(lans, e) && e.host == h {
      RunRefines(lans, c, es, e, h);
      EffectUp(e, OutcomeOf(lans, d[h], e), EndsOf(lans, d[h]), x);
    }
  }

  lemma {:induction false} ViewUpIff(lans: Lans, c: Cluster, es: seq<Event>, h: string, x: (string, string))
    requires Start(lans, c) && h in c && x in ViewAt(lans, c, es, |es|, h)
    ensures ViewAt(lans, c, es, |es|, h)[x].up <==> RaisedLast(lans, c, es, h, x)
  {
    if es == [] {
      assert es[..0] == [];
      PristineView(lans, c, h, x);
      hide EndsOf;
    } else {
      var pre, e := es[..|es| - 1], es[|es| - 1];
      assert es == pre + [e] && es[..|pre|] == pre && pre[..|pre|] == pre;
      hide RaisesAt, LowersAt, Start, RaisedLast, Run, EndsOf;
      StepUp(lans, c, pre, e, h, x);
      RaisedLastNext(lans, c, pre, e, h, x);
      assert ViewAt(lans, c, es, |pre|, h) == ViewAt(lans, c, pre, |pre|, h);
      hide ViewAt;
      if x in ViewAt(lans, c, pre, |pre|, h) { ViewUpIff(lans, c, pre, h, x); }
    }
  }

  lemma PristineView(lans: Lans, c: Cluster, h: string, x: (string, string))
    requires Start(lans, c) && h in c
    ensures x !in EndsOf(lans, c[h])
  {
    EndOf(lans, c[h], x.0, x.1);
    hide EndsOf, NoClash, Reserved;
  }

  /**
   Over all runs: the end of an attached spoke is up exactly if, of the events that bring it up or take it
   down, the last one brought it up.  Up it is brought by an Ensure that gets past its last step for the
   spoke and by its pod; down by an Ensure that stops after the pair and by the CNI's move.
   */
  lemma EndUpIff(lans: Lans, c: Cluster, es: seq<Event>, h: string, m: string, s: string)
    requires Start(lans, c) && h in c && AttachedAt(lans, Run(lans, c, es), h, m, s)
    ensures EndUp(Run(lans, c, es)[h], lans[m], s) <==> RaisedLast(lans, c, es, h, (m, s))
  {
    hide Start, Run, RaisedLast, EndUp;
    assert es[..|es|] == es;
    EndOf(lans, Run(lans, c, es)[h], m, s);
    ViewUpIff(lans, c, es, h, (m, s));
    hide EndsOf;
  }

  // ----- after the CNI's move -----

  /** The spoke is not asked for again, so it stays in its pod, and what matters is whether the pod brings it up. */
  predicate Undisturbed(post: seq<Event>, h: string, m: string, s: string) {
    forall e :: e in post && e.EnsureEvent? ==> !(e.host == h && e.lan == m && e.spoke == s)
  }

  lemma {:induction false} InPod(lans: Lans, c: Cluster, es: seq<Event>, post: seq<Event>, h: string, m: string,
                                 s: string, k: Key)
    requires Start(lans, c) && h in c && Undisturbed(post, h, m, s) && k.ns.Pod?
    requires var a := ViewAt(lans, c, es, |es|, h); (m, s) in a && a[(m, s)] == End(k, false)
    ensures var fs := es + post;
            var b := ViewAt(lans, c, fs, |fs|, h);
            (m, s) in b ==> b[(m, s)] == End(k, PodUpEvent(h, k.ns.id, k.name) in post)
  {
    hide Start, ViewAt;
    if post == [] {
      assert es + post == es;
    } else {
      var pre, e := post[..|post| - 1], post[|post| - 1];
      assert post == pre + [e] && es + post == (es + pre) + [e];
      assert e in post;
      InPod(lans, c, es, pre, h, m, s, k);
      ViewNext(lans, c, es + pre, e, h);
      var a, b := ViewAt(lans, c, es + pre, |es + pre|, h), ViewAt(lans, c, es + post, |es + post|, h);
      hide *;
      InPodNext(lans, e, a, b, pre, h, m, s, k);
    }
  }

  lemma InPodNext(lans: Lans, e: Event, a: View, b: View, pre: seq<Event>, h: string, m: string, s: string, k: Key)
    requires k.ns.Pod? && (e.EnsureEvent? ==> !(e.host == h && e.lan == m && e.spoke == s))
    requires if e.host == h && Proper(lans, e) then exists o :: b == Effect(e, o, a) else b == a
    requires (m, s) in a ==> a[(m, s)] == End(k, PodUpEvent(h, k.ns.id, k.name) in pre)
    ensures (m, s) in b ==> b[(m, s)] == End(k, PodUpEvent(h, k.ns.id, k.name) in pre + [e])
  {
    if (m, s) in b && e.host == h && Proper(lans, e) {
      var o :| b == Effect(e, o, a);
      hide Effect;
      StaysInPod(e, o, a, h, m, s, k);
    }
  }

  /** One more event: it acts on this host's view, or leaves it as it is. */
  lemma ViewNext(lans: Lans, c: Cluster, es: seq<Event>, e: Event, h: string)
    requires Start(lans, c) && h in c
    ensures var a, b := ViewAt(lans, c, es, |es|, h), ViewAt(lans, c, es + [e], |es| + 1, h);
            if e.host == h && Proper(lans, e) then exists o :: b == Effect(e, o, a) else b == a
  {
    var fs := es + [e];
    hide Start, OutcomeOf, EndsOf, Effect, Run, Proper;
    assert es[..|es|] == es && fs[..|es| + 1] == fs;
    RunHosts(lans, c, es);
    RunHosts(lans, c, fs);
    OneStep(lans, c, es, e, h);
    if Proper(lans, e) && e.host == h {
      RunRefines(lans, c, es, e, h);
      assert ViewAt(lans, c, fs, |es| + 1, h)
             == Effect(e, OutcomeOf(lans, Run(lans, c, es)[h], e), ViewAt(lans, c, es, |es|, h));
    }
  }

  lemma OneStep(lans: Lans, c: Cluster, es: seq<Event>, e: Event, h: string)
    ensures !(Proper(lans, e) && e.host == h) && h in Run(lans, c, es) && h in Run(lans, c, es + [e]) ==>
              Run(lans, c, es + [e])[h] == Run(lans, c, es)[h]
  {
    hide HostStep, Proper, Run;
    RunNext(lans, c, es, e);
  }

  lemma StaysInPod(e: Event, o: Outcome, a: View, h: string, m: string, s: string, k: Key)
    requires k.ns.Pod? && e.host == h && (e.EnsureEvent? ==> !(e.lan == m && e.spoke == s))
    requires (m, s) in Effect(e, o, a) && ((m, s) in a ==> a[(m, s)].at == k)
    ensures (m, s) in a
    ensures Effect(e, o, a)[(m, s)] == End(k, a[(m, s)].up || e == PodUpEvent(h, k.ns.id, k.name))
  {
  }

  /**
   The CNI's move leaves the end down, and unless the spoke is asked for again it is up exactly if the pod
   has brought it up since: by an IPAM plugin, which the definitions of the operator do not have, or by itself.
   */
  lemma MovedUpIff(lans: Lans, c: Cluster, es: seq<Event>, post: seq<Event>, h: string, m: string, s: string, pod: nat,
                   ifname: string)
    requires Start(lans, c) && h in c && AttachedAt(lans, Run(lans, c, es), h, m, s)
    requires SpokeEnd(Run(lans, c, es)[h], lans[m], s) == HostKey(s) && Undisturbed(post, h, m, s)
    requires CniAdd(Run(lans, c, es)[h], s, pod, ifname).Ok?
    ensures var move := CniEvent(h, s, pod, ifname);
            && AttachedAt(lans, Run(lans, c, es + [move]), h, m, s)
            && var d := Run(lans, c, es + [move] + post);
            && (AttachedAt(lans, d, h, m, s) ==>
                  && SpokeEnd(d[h], lans[m], s) == Key(Pod(pod), ifname)
                  && (EndUp(d[h], lans[m], s) <==> PodUpEvent(h, pod, ifname) in post))
  {
    var move := CniEvent(h, s, pod, ifname);
    var d, f := Run(lans, c, es), es + [move];
    Asking(lans, m, s);
    EndOf(lans, d[h], m, s);
    assert f[..|f|] == f && (f + post)[..|f + post|] == f + post;
    hide EndsOf, Run, Attached, SpokeEnd, EndUp, CniAdd, Start, AllSpokes, OutcomeOf;
    RunRefines(lans, c, es, move, h);
    var fin := Key(Pod(pod), ifname);
    assert Succeeds(lans, d[h], move) && OutcomeOf(lans, d[h], move).moved && OutcomeOf(lans, d[h], move).renamed;
    assert EndsOf(lans, Run(lans, c, f)[h])[(m, s)] == End(fin, false);
    EndOf(lans, Run(lans, c, f)[h], m, s);
    InPod(lans, c, f, post, h, m, s, fin);
    RunHosts(lans, c, f + post);
    EndOf(lans, Run(lans, c, f + post)[h], m, s);
  }

  lemma Asking(lans: Lans, m: string, s: string)
    ensures m in lans && s in lans[m].spokes ==> s in AllSpokes(lans)
  {
  }

  /** No other attached spoke of the cluster hears this one. */
  ghost predicate Unheard(lans: Lans, c: Cluster, h: string, m: string, s: string)
    requires AttachedAt(lans, c, h, m, s)
  {
    forall g, l, t :: AttachedAt(lans, c, g, l, t) && (g, l, t) != (h, m, s) ==>
      !SameDomain(c, EndNode(lans, c, h, m, s), EndNode(lans, c, g, l, t))
  }

  lemma DownUnheard(lans: Lans, c: Cluster, es: seq<Event>, h: string, m: string, s: string)
    requires Start(lans, c) && AttachedAt(lans, Run(lans, c, es), h, m, s) && !EndUp(Run(lans, c, es)[h], lans[m], s)
    ensures Unheard(lans, Run(lans, c, es), h, m, s)
  {
    hide Start, Run, Attached, SpokeEnd, EndUp, SameDomain, BridgeUp, Uplink;
    var d := Run(lans, c, es);
    forall g, l, t | AttachedAt(lans, d, g, l, t) && (g, l, t) != (h, m, s)
      ensures !SameDomain(d, EndNode(lans, d, h, m, s), EndNode(lans, d, g, l, t))
    {
      RunDomains(lans, c, es, h, m, s, g, l, t);
    }
  }

  /** After the CNI's move nobody hears the spoke until its pod brings it up or it is asked for, whatever happens. */
  lemma MovedUnheard(lans: Lans, c: Cluster, es: seq<Event>, post: seq<Event>, h: string, m: string, s: string,
                     pod: nat, ifname: string)
    requires Start(lans, c) && h in c && AttachedAt(lans, Run(lans, c, es), h, m, s)
    requires SpokeEnd(Run(lans, c, es)[h], lans[m], s) == HostKey(s) && Undisturbed(post, h, m, s)
    requires CniAdd(Run(lans, c, es)[h], s, pod, ifname).Ok? && PodUpEvent(h, pod, ifname) !in post
    ensures var d := Run(lans, c, es + [CniEvent(h, s, pod, ifname)] + post);
            AttachedAt(lans, d, h, m, s) ==> Unheard(lans, d, h, m, s)
  {
    hide Start, Run, Attached, SpokeEnd, EndUp, CniAdd, Undisturbed, Unheard;
    MovedUpIff(lans, c, es, post, h, m, s, pod, ifname);
    var fs := es + [CniEvent(h, s, pod, ifname)] + post;
    if AttachedAt(lans, Run(lans, c, fs), h, m, s) { DownUnheard(lans, c, fs, h, m, s); }
  }

  // ----- after an Ensure that stops before its last step for the spoke -----

  /** Such an Ensure leaves its spoke attached, and unheard until it is asked for again or a pod brings it up. */
  lemma LeftDownUnheard(lans: Lans, c: Cluster, es: seq<Event>, e: Event, post: seq<Event>)
    requires Start(lans, c) && e.EnsureEvent? && Proper(lans, e) && e.host in c && e.host in Run(lans, c, es)
    requires OutcomeOf(lans, Run(lans, c, es)[e.host], e).stage.LeftDown?
    requires Undisturbed(post, e.host, e.lan, e.spoke) && forall f :: f in post && f.PodUpEvent? ==> f.host != e.host
    ensures AttachedAt(lans, Run(lans, c, es + [e]), e.host, e.lan, e.spoke)
    ensures var d := Run(lans, c, es + [e] + post);
            AttachedAt(lans, d, e.host, e.lan, e.spoke) ==> Unheard(lans, d, e.host, e.lan, e.spoke)
  {
    var h, x, fs := e.host, (e.lan, e.spoke), es + [e] + post;
    hide Start, Run, Attached, EndUp, OutcomeOf, EndsOf, Unheard, SpokeEnd;
    RunRefines(lans, c, es, e, h);
    EndOf(lans, Run(lans, c, es + [e])[h], x.0, x.1);
    assert fs[..|es|] == es && fs[|es|] == e;
    assert LowersAt(lans, c, fs, |es|, h, x);
    forall i: nat | |es| <= i < |fs| ensures !RaisesAt(lans, c, fs, i, h, x) {
      assert i > |es| ==> fs[i] in post;
    }
    hide LowersAt, RaisesAt;
    assert !RaisedLast(lans, c, fs, h, x);
    hide RaisedLast;
    if AttachedAt(lans, Run(lans, c, fs), h, x.0, x.1) {
      EndUpIff(lans, c, fs, h, x.0, x.1);
      DownUnheard(lans, c, fs, h, x.0, x.1);
    }
  }
}
