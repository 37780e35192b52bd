/** What the finalizers are for, over every run of the daemon set. */
module ProtocolSafety {
  import opened LanTypes
  import opened Lister
  import opened Protocol
  import opened ProtocolHistory
  import opened ProtocolInv
  import Webhook

  lemma Reached(s: Sys, acts: seq<Action>)
    requires Initial(s)
    ensures WellFormed(s) && Inv(Run(s, acts)) && Run(s, acts).hosts.Keys == s.hosts.Keys
    ensures History(s.hosts.Keys, Run(s, acts).hist) && s.hist[0] == Run(s, acts).hist[0]
  {
    InitialInv(s);
    hide Initial, HostInv, History;
    RunKeepsInv(s, acts);
    RunGrows(s, acts);
  }

  lemma HostReached(s: Sys, acts: seq<Action>, h: string)
    requires Initial(s) && h in s.hosts
    ensures WellFormed(s) && var r := Run(s, acts); HostInv(h, r.hosts[h], r.hist) && h in r.hosts
    ensures forall i :: 0 <= i < |Run(s, acts).hist| ==> Run(s, acts).hist[i].spec == s.hist[0].spec
  {
    hide Initial, HostInv, History;
    Reached(s, acts);
    var r := Run(s, acts);
    forall i | 0 <= i < |r.hist| ensures r.hist[i].spec == s.hist[0].spec {
      SpecConstant(s.hosts.Keys, r.hist, 0, i);
    }
  }

  /** Every version has what the user submitted: the port and group that were given, or the defaults, and all else. */
  lemma StoredAsSubmitted(s: Sys, acts: seq<Action>, submitted: LANSpec, i: nat)
    requires Initial(s) && Webhook.FilledIn(submitted, s.hist[0].spec) && WellFormed(s) && i < |Run(s, acts).hist|
    ensures Webhook.FilledIn(submitted, Run(s, acts).hist[i].spec)
  {
    hide Initial, History, Run, HostInv, Webhook.FilledIn;
    Reached(s, acts);
    SpecConstant(s.hosts.Keys, Run(s, acts).hist, 0, i);
  }

  /** A finalizer in any version was there when the LAN was created, or is that of a host of the cluster. */
  lemma FinalizersOfHosts(s: Sys, acts: seq<Action>, i: nat, f: string)
    requires Initial(s) && WellFormed(s) && i < |Run(s, acts).hist| && f in Run(s, acts).hist[i].fins
    ensures f in s.hist[0].fins || exists h :: h in s.hosts && f == "finalizer.k8slan.io/" + h
  {
    hide Initial, History, Run, FinName, HostInv;
    Reached(s, acts);
    OnlyHosts(s.hosts.Keys, Run(s, acts).hist, i, f);
    if f !in s.hist[0].fins {
      var h :| h in s.hosts && f == FinName(h);
      FinNameIs(h);
    }
  }

  lemma FinNameIs(h: string)
    ensures FinName(h) == "finalizer.k8slan.io/" + h
  {
  }

  // ----- the object and the hosts' work -----

  /** A call to interfaces.Remove for the LAN followed by a removal sent, both because of a version being deleted. */
  ghost predicate CleanedUp(log: seq<Effect>, hist: seq<Obj>, spec: LANSpec) {
    exists k :: 0 < k < |log| && log[k].kind.Retired? && log[k - 1].kind.Cleaned? && log[k - 1].at == log[k].at
                && log[k].spec == log[k - 1].spec == spec && log[k].at < |hist| && hist[log[k].at].deleting
  }

  lemma RetiredIsCleanedUp(h: string, st: HostSt, hist: seq<Obj>, spec: LANSpec)
    requires hist != [] && LogInv(h, st, hist) && HasRetired(st.log)
    requires forall i :: 0 <= i < |hist| ==> hist[i].spec == spec
    ensures CleanedUp(st.log, hist, spec)
  {
    hide FinName;
    var k :| 0 <= k < |st.log| && st.log[k].kind.Retired?;
    assert EffectOk(h, st.log[k], hist) && EffectOk(h, st.log[k - 1], hist);
  }

  /** When a LAN object is gone, every host whose finalizer was ever stored has cleaned up and told its lister. */
  lemma GoneIsClean(s: Sys, acts: seq<Action>, h: string, i: nat)
    requires Initial(s) && h in s.hosts && WellFormed(s)
    requires var r := Run(s, acts); Gone(Last(r.hist)) && i < |r.hist| && FinName(h) in r.hist[i].fins
    ensures var r := Run(s, acts); CleanedUp(r.hosts[h].log, r.hist, s.hist[0].spec)
  {
    hide Initial, LogInv, FinName;
    HostReached(s, acts, h);
    var r := Run(s, acts);
    assert EverHeld(r.hist, h);
    RetiredIsCleanedUp(h, r.hosts[h], r.hist, s.hist[0].spec);
  }

  /** A host that sent an add, and no removal yet, has its finalizer stored: the object is still there. */
  lemma AnnouncedKeepsAlive(s: Sys, acts: seq<Action>, h: string, k: nat)
    requires Initial(s) && h in s.hosts && WellFormed(s)
    requires var log := Run(s, acts).hosts[h].log;
             k < |log| && log[k].kind.Announced? && forall j :: 0 <= j < |log| ==> !log[j].kind.Retired?
    ensures var o := Last(Run(s, acts).hist); FinName(h) in o.fins && !Gone(o)
  {
    hide Initial, FinName;
    HostReached(s, acts, h);
    var r := Run(s, acts);
    assert EffectOk(h, r.hosts[h].log[k], r.hist);
    assert EverHeld(r.hist, h);
  }

  /** A host that sent a removal knows of the deletion, and whatever it reads from then on shows it. */
  lemma RetiredMeansDeleting(hosts: set<string>, h: string, st: HostSt, hist: seq<Obj>)
    requires History(hosts, hist) && HostInv(h, st, hist) && HasRetired(st.log)
    ensures hist[st.seen].deleting
  {
    hide FinName, ReleaseInv, FifoInv, SentInv, ConflictInv;
    assert hist != [];
    hide History;
    var k :| 0 <= k < |st.log| && st.log[k].kind.Retired?;
    assert EffectOk(h, st.log[k], hist);
    SpecConstant(hosts, hist, st.log[k].at, st.seen);
  }

  /** An add is sent only while the host's finalizer is stored, even when the version acted on is old. */
  lemma AddIsSentWhileStored(s: Sys, acts: seq<Action>, h: string)
    requires Initial(s) && h in s.hosts && WellFormed(s)
    requires Run(s, acts).hosts[h].pc.Announcing?
    ensures FinName(h) in Last(Run(s, acts).hist).fins
  {
    hide Initial, FinName, History, LogInv, FifoInv, SentInv, ConflictInv, HasRetired;
    HostReached(s, acts, h);
    Reached(s, acts);
    var r := Run(s, acts);
    var st := r.hosts[h];
    assert FinName(h) in r.hist[st.seen].fins;
    assert EverHeld(r.hist, h);
    if HasRetired(st.log) {
      RetiredMeansDeleting(s.hosts.Keys, h, st, r.hist);
      assert false;
    }
  }

  /** What a host sends is adds and then removals, with a clean-up before each removal. */
  lemma AddsThenRemovals(s: Sys, acts: seq<Action>, h: string, j: nat, k: nat)
    requires Initial(s) && h in s.hosts && WellFormed(s)
    requires j < k < |Run(s, acts).hosts[h].log|
    ensures var log := Run(s, acts).hosts[h].log;
            && (log[k].kind.Announced? ==> log[j].kind.Announced?)
            && (log[k].kind.Retired? ==> log[k - 1].kind.Cleaned?)
  {
    hide Initial, FinName, History;
    HostReached(s, acts, h);
    Reached(s, acts);
    var r := Run(s, acts);
    var log := r.hosts[h].log;
    assert EffectOk(h, log[j], r.hist) && EffectOk(h, log[k], r.hist);
    SpecConstant(s.hosts.Keys, r.hist, log[j].at, log[k].at);
  }

  /**
   Neither channel is ever over its depth.  What was sent, for this LAN and others, is what was taken and
   what still waits, in order; and this LAN's part of it is exactly what the host did for it.
   */
  lemma ChannelsKeepOrder(s: Sys, acts: seq<Action>, h: string)
    requires Initial(s) && h in s.hosts && WellFormed(s)
    ensures var st, spec := Run(s, acts).hosts[h], s.hist[0].spec;
            && |st.addQ| <= 16 && |st.remQ| <= 16
            && AddsOf(st.sent) == AddsOf(st.consumed) + st.addQ
            && RemovesOf(st.sent) == RemovesOf(st.consumed) + st.remQ
            && Own(AddsOf(st.sent), spec) == SpecsOf(st.log, Announced)
            && Own(RemovesOf(st.sent), spec) == SpecsOf(st.log, Retired)
            && TakenFrom(st.consumed, AddsOf(st.sent), RemovesOf(st.sent))
  {
    hide Initial, FinName, ForeignTo, Run, History, PcInv, LogInv, ReleaseInv, ConflictInv;
    HostReached(s, acts, h);
    Reached(s, acts);
  }

  // ----- counting -----

  /**
   With N hosts a LAN is written at most 2N + 1 times, and if every retry reads a newer version no host
   conflicts more often.
   */
  lemma WritesAndConflictsBounded(s: Sys, acts: seq<Action>, h: string)
    requires Initial(s) && h in s.hosts && WellFormed(s)
    ensures |Run(s, acts).hist| - 1 <= 2 * |s.hosts| + 1
    ensures Increasing(Run(s, acts).hosts[h].conflicts) ==> |Run(s, acts).hosts[h].conflicts| <= 2 * |s.hosts| + 1
  {
    hide Initial, FinName, History, HostInv, Increasing;
    HostReached(s, acts, h);
    Reached(s, acts);
    var r := Run(s, acts);
    WritesBounded(s.hosts.Keys, r.hist);
    assert |s.hosts.Keys| == |s.hosts|;
    ConflictsOf(h, r.hosts[h], r.hist);
  }

  predicate Increasing(c: seq<nat>) {
    forall j, k :: 0 <= j < k < |c| ==> c[j] < c[k]
  }

  lemma ConflictsOf(h: string, st: HostSt, hist: seq<Obj>)
    requires hist != [] && HostInv(h, st, hist)
    ensures Increasing(st.conflicts) ==> |st.conflicts| < |hist|
  {
    hide PcInv, LogInv, ReleaseInv, FifoInv, SentInv;
    if Increasing(st.conflicts) && st.conflicts != [] { Climbs(st.conflicts, |st.conflicts| - 1); }
  }

  lemma {:induction false} Climbs(c: seq<nat>, k: nat)
    requires k < |c| && Increasing(c)
    ensures k <= c[k]
  {
    if k > 0 { Climbs(c, k - 1); }
  }

  lemma RegisteredIsOurs(fins: seq<string>, h: string)
    ensures Webhook.DeleteAccepted(fins + [FinName(h)]) <==> Webhook.DeleteAccepted(fins)
  {
    assert HasPrefix(FinName(h), FINALIZER_PREFIX);
    hide FinName;
    if Webhook.DeleteAccepted(fins + [FinName(h)]) {
      forall i | 0 <= i < |fins|
        ensures HasPrefix(fins[i], FINALIZER_PREFIX)
      {
        assert fins[i] == (fins + [FinName(h)])[i];
      }
    }
  }

  lemma {:induction false} Deletable(hosts: set<string>, hist: seq<Obj>, j: nat)
    requires History(hosts, hist) && j < |hist|
    ensures if hist[j].deleting then Webhook.DeleteAccepted(hist[0].fins)
            else Webhook.DeleteAccepted(hist[j].fins) <==> Webhook.DeleteAccepted(hist[0].fins)
    decreases j
  {
    hide FinName, Webhook.DeleteAccepted;
    if j > 0 {
      Deletable(hosts, hist, j - 1);
      var o, p := hist[j - 1], hist[j];
      assert Wrote(hosts, o, p);
      if !Deletes(o, p) {
        var g :| g in hosts && (Registers(g, o, p) || Releases(g, o, p));
        RegisteredIsOurs(o.fins, g);
      }
    }
  }

  /**
   At any time the user's deletion has been accepted, or would be, exactly if the LAN was created without a
   finalizer foreign to k8slan.
   */
  lemma DeletableIff(s: Sys, acts: seq<Action>)
    requires Initial(s) && WellFormed(s)
    ensures Last(Run(s, acts + [UserDelete]).hist).deleting <==> Webhook.DeleteAccepted(s.hist[0].fins)
  {
    hide Initial, History, Webhook.DeleteAccepted;
    Reached(s, acts);
    Deletable(s.hosts.Keys, Run(s, acts).hist, |Run(s, acts).hist| - 1);
    assert (acts + [UserDelete])[..|acts|] == acts;
  }
}
