/** What every interleaving of the hosts, their listers and the user keeps. */
module ProtocolInv {
  import opened Wrappers
  import opened LanTypes
  import opened Lister
  import opened Protocol
  import opened ProtocolHistory
  import Webhook

  // ----- the invariant of one host -----

  /** What a reconcile decided when it read the version it holds. */
  function Decided(pc: Pc): Pc {
    if pc.Retiring? || pc.Releasing? then Cleaning else pc
  }

  predicate PcInv(h: string, st: HostSt, hist: seq<Obj>) {
    st.seen < |hist| && (!st.pc.Idle? ==> Decided(st.pc) == Decide(h, hist[st.seen]))
  }

  /**
   An effect was due to a version that held the host's finalizer: an add while it lived, the rest while it was
   being deleted.
   */
  predicate EffectOk(h: string, e: Effect, hist: seq<Obj>) {
    && e.at < |hist| && e.spec == hist[e.at].spec && FinName(h) in hist[e.at].fins
    && (e.kind.Announced? <==> !hist[e.at].deleting)
  }

  ghost predicate HasRetired(log: seq<Effect>) {
    exists k :: 0 <= k < |log| && log[k].kind.Retired?
  }

  ghost predicate LogInv(h: string, st: HostSt, hist: seq<Obj>)
    requires hist != []
  {
    && (forall k :: 0 <= k < |st.log| ==> EffectOk(h, st.log[k], hist) && st.log[k].at <= st.seen)
    && (forall j, k :: 0 <= j < k < |st.log| ==> st.log[j].at <= st.log[k].at)
    && (forall k :: 0 <= k < |st.log| && st.log[k].kind.Retired? ==>
          k > 0 && st.log[k - 1] == st.log[k].(kind := Cleaned))
    && (st.pc.Retiring? ==> st.log != [] && st.log[|st.log| - 1].kind.Cleaned? && st.log[|st.log| - 1].at == st.seen)
    && (st.pc.Releasing? ==> st.log != [] && st.log[|st.log| - 1].kind.Retired? && st.log[|st.log| - 1].at == st.seen)
  }

  /** A host that released its finalizer had sent a removal before. */
  ghost predicate ReleaseInv(h: string, st: HostSt, hist: seq<Obj>)
    requires hist != []
  {
    EverHeld(hist, h) && FinName(h) !in Last(hist).fins ==> HasRetired(st.log)
  }

  function SpecsOf(log: seq<Effect>, kind: Kind): seq<LANSpec> {
    if log == [] then []
    else SpecsOf(log[..|log| - 1], kind) + if log[|log| - 1].kind == kind then [log[|log| - 1].spec] else []
  }

  /** Those of a list of specs that are `spec`. */
  function Own(q: seq<LANSpec>, spec: LANSpec): seq<LANSpec> {
    if q == [] then [] else Own(q[..|q| - 1], spec) + if q[|q| - 1] == spec then [spec] else []
  }

  /** Each channel is first in, first out, and holds at most its depth. */
  predicate FifoInv(sent: seq<Msg>, consumed: seq<Msg>, addQ: seq<LANSpec>, remQ: seq<LANSpec>) {
    && AddsOf(sent) == AddsOf(consumed) + addQ && RemovesOf(sent) == RemovesOf(consumed) + remQ
    && |addQ| <= CHAN_DEPTH && |remQ| <= CHAN_DEPTH
  }

  /** What was sent is what the log says of this LAN, and messages of other LANs. */
  ghost predicate SentInv(sent: seq<Msg>, log: seq<Effect>, spec: LANSpec) {
    && Own(AddsOf(sent), spec) == SpecsOf(log, Announced)
    && Own(RemovesOf(sent), spec) == SpecsOf(log, Retired)
    && (forall x :: x in AddsOf(sent) + RemovesOf(sent) ==> x == spec || ForeignTo(spec, x))
  }

  /** An update conflicts only because a newer version was there. */
  predicate ConflictInv(st: HostSt, hist: seq<Obj>) {
    forall k :: 0 <= k < |st.conflicts| ==> st.conflicts[k] + 1 < |hist|
  }

  ghost predicate HostInv(h: string, st: HostSt, hist: seq<Obj>)
    requires hist != []
  {
    && PcInv(h, st, hist) && LogInv(h, st, hist) && ReleaseInv(h, st, hist)
    && FifoInv(st.sent, st.consumed, st.addQ, st.remQ) && SentInv(st.sent, st.log, hist[0].spec)
    && ConflictInv(st, hist)
  }

  ghost predicate Inv(s: Sys) {
    && History(s.hosts.Keys, s.hist)
    && forall h :: h in s.hosts ==> HostInv(h, s.hosts[h], s.hist)
  }

  // ----- a write by someone else -----

  lemma EverHeldNext(hist: seq<Obj>, p: Obj, h: string)
    ensures EverHeld(hist + [p], h) <==> EverHeld(hist, h) || FinName(h) in p.fins
  {
    hide FinName;
    var all := hist + [p];
    if EverHeld(hist, h) {
      var i :| 0 <= i < |hist| && FinName(h) in hist[i].fins;
      assert FinName(h) in all[i].fins;
    }
    if FinName(h) in p.fins { assert FinName(h) in all[|hist|].fins; }
  }

  /** A host does not notice a write that leaves its own finalizer as it is. */
  lemma NewVersion(h: string, st: HostSt, hist: seq<Obj>, p: Obj)
    requires hist != [] && HostInv(h, st, hist)
    requires FinName(h) in p.fins <==> FinName(h) in Last(hist).fins
    ensures HostInv(h, st, hist + [p])
  {
    hide FinName, FifoInv, SentInv, EverHeld, HasRetired;
    EverHeldNext(hist, p, h);
    if FinName(h) in Last(hist).fins { assert EverHeld(hist, h) by { HeldNow(hist, h); } }
  }

  lemma HeldNow(hist: seq<Obj>, h: string)
    requires hist != [] && FinName(h) in Last(hist).fins
    ensures EverHeld(hist, h)
  {
    assert FinName(h) in hist[|hist| - 1].fins;
  }

  // ----- the steps of a host -----

  lemma GetKeeps(h: string, st: HostSt, hist: seq<Obj>, i: nat)
    requires hist != [] && HostInv(h, st, hist) && st.pc.Idle? && st.seen <= i < |hist|
    ensures HostInv(h, st.(seen := i, pc := Decide(h, hist[i])), hist)
  {
    hide FinName, EverHeld, HasRetired, SpecsOf, AddsOf, RemovesOf;
  }

  /** The webhook never stands in the way: an update is accepted exactly if it was made from the newest version. */
  lemma AdmissionNeverBlocks(hosts: set<string>, hist: seq<Obj>, base: nat, fins: seq<string>)
    requires History(hosts, hist) && base < |hist| && !Gone(hist[base])
    ensures Update(hist, base, fins) == if base == |hist| - 1 then Some(hist + [Last(hist).(fins := fins)]) else None
  {
    hide Wrote;
    SpecConstant(hosts, hist, base, |hist| - 1);
    Webhook.SpecIsFrozen(hist[base].spec, hist[base].spec);
  }

  /** A write of `h`: the version it makes, and that only its own finalizer changes. */
  lemma OwnWrite(hosts: set<string>, h: string, hist: seq<Obj>, pc: Pc)
    requires History(hosts, hist) && h in hosts && Decided(pc) == Decide(h, Last(hist))
             && (pc.Registering? || pc.Releasing?)
    ensures var f, o := FinName(h), Last(hist);
            var p := o.(fins := if pc.Registering? then AddFinalizer(o.fins, f) else RemoveFinalizer(o.fins, f));
            && History(hosts, hist + [p])
            && (f in p.fins <==> pc.Registering?)
            && (forall g :: g != h ==> (FinName(g) in p.fins <==> FinName(g) in o.fins))
  {
    var f, o := FinName(h), Last(hist);
    hide FinName, History;
    var p := o.(fins := if pc.Registering? then AddFinalizer(o.fins, f) else RemoveFinalizer(o.fins, f));
    assert if pc.Registering? then Registers(h, o, p) else Releases(h, o, p);
    Extend(hosts, hist, p);
    forall g | g != h ensures FinName(g) in p.fins <==> FinName(g) in o.fins { FinNameInjective(g, h); }
  }

  lemma RegisteringKeeps(hosts: set<string>, h: string, st: HostSt, hist: seq<Obj>)
    requires History(hosts, hist) && h in hosts && HostInv(h, st, hist) && st.pc.Registering?
    ensures var (st1, hist1) := HostStep(h, st, hist);
            && History(hosts, hist1) && HostInv(h, st1, hist1)
            && (hist1 == hist || OnlyOwn(h, hist, hist1))
  {
    hide FinName, History, EverHeld, HasRetired, FifoInv, SentInv, Update, AddFinalizer, RemoveFinalizer;
    AdmissionNeverBlocks(hosts, hist, st.seen, AddFinalizer(hist[st.seen].fins, FinName(h)));
    if st.seen == |hist| - 1 {
      OwnWrite(hosts, h, hist, st.pc);
      EverHeldNext(hist, Last(hist).(fins := AddFinalizer(Last(hist).fins, FinName(h))), h);
    }
  }

  lemma ReleasingKeeps(hosts: set<string>, h: string, st: HostSt, hist: seq<Obj>)
    requires History(hosts, hist) && h in hosts && HostInv(h, st, hist) && st.pc.Releasing?
    ensures var (st1, hist1) := HostStep(h, st, hist);
            && History(hosts, hist1) && HostInv(h, st1, hist1)
            && (hist1 == hist || OnlyOwn(h, hist, hist1))
  {
    hide FinName, History, EverHeld, FifoInv, SentInv, Update, AddFinalizer, RemoveFinalizer;
    AdmissionNeverBlocks(hosts, hist, st.seen, RemoveFinalizer(hist[st.seen].fins, FinName(h)));
    assert HasRetired(st.log) by { assert st.log[|st.log| - 1].kind.Retired?; }
    hide HasRetired;
    if st.seen == |hist| - 1 {
      OwnWrite(hosts, h, hist, st.pc);
    }
  }

  /** One more version, different from the last one in no other host's finalizer. */
  ghost predicate OnlyOwn(h: string, hist: seq<Obj>, hist1: seq<Obj>)
    requires hist != []
  {
    && |hist1| == |hist| + 1 && hist1 == hist + [Last(hist1)]
    && forall g :: g != h ==> (FinName(g) in Last(hist1).fins <==> FinName(g) in Last(hist).fins)
  }

  lemma LoggedSpecs(st: HostSt, kind: Kind, spec: LANSpec, k: Kind)
    ensures SpecsOf(Logged(st, kind, spec), k) == SpecsOf(st.log, k) + if k == kind then [spec] else []
  {
    var l := Logged(st, kind, spec);
    assert l[..|l| - 1] == st.log;
  }

  lemma LoggedRetired(st: HostSt, kind: Kind, spec: LANSpec)
    ensures HasRetired(st.log) ==> HasRetired(Logged(st, kind, spec))
  {
    if HasRetired(st.log) {
      var k :| 0 <= k < |st.log| && st.log[k].kind.Retired?;
      assert Logged(st, kind, spec)[k].kind.Retired?;
    }
  }

  /** Sending an add. */
  lemma AnnouncingKeeps(h: string, st: HostSt, hist: seq<Obj>)
    requires hist != [] && HostInv(h, st, hist) && st.pc == Announcing && hist[st.seen].spec == hist[0].spec
    ensures HostInv(h, HostStep(h, st, hist).0, hist) && HostStep(h, st, hist).1 == hist
  {
    hide FinName, EverHeld, HasRetired, SpecsOf, AddsOf, RemovesOf, FifoInv, SentInv, Send;
    var spec := hist[0].spec;
    var m := AddMsg(spec);
    SendFrame(st, m);
    if Send(st, m).Some? {
      var st1 := Send(st, m).value;
      SendKeepsFifo(st, m);
      OwnSent(st, m, st1.(log := Logged(st, Announced, spec)), spec);
      LoggedRetired(st, Announced, spec);
    }
  }
  /** Removing the namespace. */
  lemma CleaningKeeps(h: string, st: HostSt, hist: seq<Obj>)
    requires hist != [] && HostInv(h, st, hist) && st.pc == Cleaning
    ensures HostInv(h, HostStep(h, st, hist).0, hist) && HostStep(h, st, hist).1 == hist
  {
    hide FinName, EverHeld, HasRetired, SpecsOf, AddsOf, RemovesOf, Own, ForeignTo;
    LoggedSpecs(st, Cleaned, hist[st.seen].spec, Announced);
    LoggedSpecs(st, Cleaned, hist[st.seen].spec, Retired);
    LoggedRetired(st, Cleaned, hist[st.seen].spec);
  }
  /** Sending a removal. */
  lemma RetiringKeeps(h: string, st: HostSt, hist: seq<Obj>)
    requires hist != [] && HostInv(h, st, hist) && st.pc == Retiring && hist[st.seen].spec == hist[0].spec
    ensures HostInv(h, HostStep(h, st, hist).0, hist) && HostStep(h, st, hist).1 == hist
  {
    hide FinName, EverHeld, HasRetired, SpecsOf, AddsOf, RemovesOf, FifoInv, SentInv, Send;
    var spec := hist[0].spec;
    var m := RemoveMsg(spec);
    SendFrame(st, m);
    if Send(st, m).Some? {
      var st1 := Send(st, m).value;
      SendKeepsFifo(st, m);
      OwnSent(st, m, st1.(log := Logged(st, Retired, spec)), spec);
      LoggedRetired(st, Retired, spec);
    }
  }
  lemma SendFrame(st: HostSt, m: Msg)
    ensures Send(st, m).Some? ==>
              var r := Send(st, m).value;
              && r.pc == st.pc && r.seen == st.seen && r.log == st.log
              && r.consumed == st.consumed && r.conflicts == st.conflicts
  {
  }

  lemma SendKeepsFifo(st: HostSt, m: Msg)
    requires FifoInv(st.sent, st.consumed, st.addQ, st.remQ) && Send(st, m).Some?
    ensures var r := Send(st, m).value; FifoInv(r.sent, r.consumed, r.addQ, r.remQ) && r.sent == st.sent + [m]
  {
    hide AddsOf, RemovesOf;
    MessageTaken(st.sent, m);
  }

  lemma OwnNext(q: seq<LANSpec>, x: LANSpec, spec: LANSpec)
    ensures Own(q + [x], spec) == Own(q, spec) + if x == spec then [spec] else []
  {
    assert (q + [x])[..|q|] == q;
  }

  /** A message about this LAN, with its entry in the log. */
  lemma OwnSent(st: HostSt, m: Msg, r: HostSt, spec: LANSpec)
    requires SentInv(st.sent, st.log, spec) && m.spec == spec && r.sent == st.sent + [m]
    requires r.log == Logged(st, if m.AddMsg? then Announced else Retired, spec)
    ensures SentInv(r.sent, r.log, spec)
  {
    hide SpecsOf, AddsOf, RemovesOf, ForeignTo, Own;
    MessageTaken(st.sent, m);
    assert if m.AddMsg? then RemovesOf(r.sent) == RemovesOf(st.sent) else AddsOf(r.sent) == AddsOf(st.sent);
    OwnNext(AddsOf(st.sent), spec, spec);
    OwnNext(RemovesOf(st.sent), spec, spec);
    LoggedSpecs(st, if m.AddMsg? then Announced else Retired, spec, Announced);
    LoggedSpecs(st, if m.AddMsg? then Announced else Retired, spec, Retired);
  }

  /** A message about another LAN. */
  lemma OtherKeeps(h: string, st: HostSt, hist: seq<Obj>, m: Msg)
    requires hist != [] && HostInv(h, st, hist) && ForeignTo(hist[0].spec, m.spec) && Send(st, m).Some?
    ensures HostInv(h, Send(st, m).value, hist)
  {
    hide FinName, EverHeld, HasRetired, FifoInv, SentInv, Send;
    SendFrame(st, m);
    SendKeepsFifo(st, m);
    ForeignSent(st, m, Send(st, m).value, hist[0].spec);
  }

  lemma ForeignSent(st: HostSt, m: Msg, r: HostSt, spec: LANSpec)
    requires SentInv(st.sent, st.log, spec) && ForeignTo(spec, m.spec) && r.sent == st.sent + [m] && r.log == st.log
    ensures SentInv(r.sent, r.log, spec)
  {
    hide SpecsOf, AddsOf, RemovesOf, Own;
    MessageTaken(st.sent, m);
    assert if m.AddMsg? then RemovesOf(r.sent) == RemovesOf(st.sent) else AddsOf(r.sent) == AddsOf(st.sent);
    OwnNext(AddsOf(st.sent), m.spec, spec);
    OwnNext(RemovesOf(st.sent), m.spec, spec);
  }

  lemma ConsumeKeeps(h: string, st: HostSt, hist: seq<Obj>, fromAdd: bool)
    requires hist != [] && HostInv(h, st, hist)
    ensures HostInv(h, Consumed(st, fromAdd), hist)
  {
    hide FinName, EverHeld, HasRetired, SpecsOf, AddsOf, RemovesOf, Own, ForeignTo;
    if fromAdd && st.addQ != [] {
      MessageTaken(st.consumed, AddMsg(st.addQ[0]));
      assert st.addQ == [st.addQ[0]] + st.addQ[1..];
    } else if !fromAdd && st.remQ != [] {
      MessageTaken(st.consumed, RemoveMsg(st.remQ[0]));
      assert st.remQ == [st.remQ[0]] + st.remQ[1..];
    }
  }

  // ----- the whole system -----

  lemma ActKeeps(s: Sys, h: string)
    requires Inv(s) && h in s.hosts
    ensures Inv(Step(s, Act(h)))
  {
    hide HostInv, HostStep;
    WellFormedHere(s);
    hide History;
    var st, hosts, hist := s.hosts[h], s.hosts.Keys, s.hist;
    PcOf(h, st, hist);
    var (st1, hist1) := HostStep(h, st, hist);
    ActKeepsOwn(hosts, h, st, hist);
    forall g | g in hosts && g != h ensures HostInv(g, s.hosts[g], hist1) {
      if hist1 != hist { NewVersion(g, s.hosts[g], hist, Last(hist1)); }
    }
    assert Step(s, Act(h)).hosts.Keys == hosts;
  }

  lemma PcOf(h: string, st: HostSt, hist: seq<Obj>)
    requires hist != [] && HostInv(h, st, hist)
    ensures st.seen < |hist| && (!st.pc.Idle? ==> Decided(st.pc) == Decide(h, hist[st.seen]))
  {
  }

  lemma ActKeepsOwn(hosts: set<string>, h: string, st: HostSt, hist: seq<Obj>)
    requires History(hosts, hist) && h in hosts && HostInv(h, st, hist)
    ensures var (st1, hist1) := HostStep(h, st, hist);
            && History(hosts, hist1) && HostInv(h, st1, hist1)
            && (hist1 == hist || OnlyOwn(h, hist, hist1))
  {
    assert hist != [];
    PcOf(h, st, hist);
    SpecConstant(hosts, hist, 0, st.seen);
    hide HostInv, History;
    match st.pc
    case Idle =>
    case Registering => RegisteringKeeps(hosts, h, st, hist);
    case Announcing => AnnouncingKeeps(h, st, hist);
    case Cleaning => CleaningKeeps(h, st, hist);
    case Retiring => RetiringKeeps(h, st, hist);
    case Releasing => ReleasingKeeps(hosts, h, st, hist);
  }

  lemma DeleteKeeps(s: Sys)
    requires Inv(s)
    ensures Inv(Step(s, UserDelete))
  {
    WellFormedHere(s);
    hide HostInv, History, FinName;
    var hist1 := Delete(s.hist);
    if hist1 != s.hist {
      var p := Last(s.hist).(deleting := true);
      assert Deletes(Last(s.hist), p);
      Extend(s.hosts.Keys, s.hist, p);
      forall g | g in s.hosts ensures HostInv(g, s.hosts[g], hist1) { NewVersion(g, s.hosts[g], s.hist, p); }
    }
  }

  lemma StepKeeps(s: Sys, a: Action)
    requires Inv(s)
    ensures WellFormed(s) && Inv(Step(s, a))
  {
    hide HostInv, History, HostStep, Consumed, Send, ForeignTo;
    WellFormedHere(s);
    match a
    case Get(h, i) =>
      if h in s.hosts && s.hosts[h].pc.Idle? && s.hosts[h].seen <= i < |s.hist| {
        GetKeeps(h, s.hosts[h], s.hist, i);
        assert Step(s, a).hosts.Keys == s.hosts.Keys;
      }
    case Act(h) => if h in s.hosts { ActKeeps(s, h); }
    case Other(h, m) =>
      if h in s.hosts && ForeignTo(s.hist[0].spec, m.spec) && Send(s.hosts[h], m).Some? {
        OtherKeeps(h, s.hosts[h], s.hist, m);
        assert Step(s, a).hosts.Keys == s.hosts.Keys;
      }
    case Consume(h, fromAdd) =>
      if h in s.hosts {
        ConsumeKeeps(h, s.hosts[h], s.hist, fromAdd);
        assert Step(s, a).hosts.Keys == s.hosts.Keys;
      }
    case UserDelete => DeleteKeeps(s);
  }

  lemma WellFormedHere(s: Sys)
    requires Inv(s)
    ensures WellFormed(s)
  {
  }

  lemma InitialInv(s: Sys)
    requires Initial(s)
    ensures WellFormed(s) && Inv(s)
  {
    hide Stored;
    forall h | h in s.hosts ensures HostInv(h, s.hosts[h], s.hist) {
      assert !EverHeld(s.hist, h);
    }
  }

  /** Every run of any number of hosts, however their calls interleave, keeps the invariant. */
  lemma {:induction false} RunKeepsInv(s: Sys, acts: seq<Action>)
    requires WellFormed(s) && Inv(s)
    ensures Inv(Run(s, acts))
  {
    hide Inv, Step;
    if acts != [] {
      RunKeepsInv(s, acts[..|acts| - 1]);
      StepKeeps(Run(s, acts[..|acts| - 1]), acts[|acts| - 1]);
    }
  }
}
