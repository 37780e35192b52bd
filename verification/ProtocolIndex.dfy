/** The daemon set and the device lister together: what is still offered when a LAN is gone. */
module ProtocolIndex {
  import opened Wrappers
  import opened LanTypes
  import opened Lister
  import opened Protocol
  import opened ProtocolHistory
  import opened ProtocolInv
  import opened ProtocolSafety
  import Webhook

  lemma {:induction false} IndexReflects(msgs: seq<Msg>)
    ensures Reflects(IndexOf(msgs), msgs)
  {
    hide Reflects, Lister.Apply;
    if msgs == [] {
      EmptyReflects();
    } else {
      IndexReflects(msgs[..|msgs| - 1]);
      ApplyReflects(IndexOf(msgs[..|msgs| - 1]), msgs[..|msgs| - 1], msgs[|msgs| - 1]);
      assert msgs == msgs[..|msgs| - 1] + [msgs[|msgs| - 1]];
    }
  }

  // ----- messages about this LAN and others -----

  lemma MessageIsSent(msgs: seq<Msg>, m: Msg)
    requires m in msgs
    ensures m.AddMsg? ==> m.spec in AddsOf(msgs)
    ensures m.RemoveMsg? ==> m.spec in RemovesOf(msgs)
  {
    if m != msgs[|msgs| - 1] { MessageIsSent(msgs[..|msgs| - 1], m); }
  }

  lemma SpecIsLogged(log: seq<Effect>, kind: Kind, x: LANSpec)
    requires x in SpecsOf(log, kind)
    ensures exists k :: 0 <= k < |log| && log[k].spec == x && log[k].kind == kind
  {
    var l := |log| - 1;
    if log[l].kind == kind && log[l].spec == x {
    } else {
      SpecIsLogged(log[..l], kind, x);
      var k :| 0 <= k < l && log[..l][k].spec == x && log[..l][k].kind == kind;
      assert log[k].spec == x && log[k].kind == kind;
    }
  }

  lemma OwnIn(q: seq<LANSpec>, spec: LANSpec)
    ensures spec in q <==> Own(q, spec) != []
    ensures forall x :: x in Own(q, spec) ==> x == spec
  {
  }

  /**
   Whatever reaches a lister is the LAN's admitted spec or another LAN's; a removal of this LAN that reached it
   was sent.
   */
  lemma MessagesCarrySpec(s: Sys, acts: seq<Action>, h: string, m: Msg)
    requires Initial(s) && h in s.hosts && WellFormed(s) && m in Run(s, acts).hosts[h].consumed
    ensures m.spec == s.hist[0].spec || ForeignTo(s.hist[0].spec, m.spec)
    ensures m.spec == s.hist[0].spec ==> Admissible(m.spec) && (m.RemoveMsg? ==> HasRetired(Run(s, acts).hosts[h].log))
  {
    AdmissibleStart(s);
    hide Initial, Admissible, Run, ForeignTo;
    HostReached(s, acts, h);
    Reached(s, acts);
    var st := Run(s, acts).hosts[h];
    MessageIsSent(st.consumed, m);
    ConsumedWasSent(h, st, Run(s, acts).hist);
    if m.RemoveMsg? && m.spec == s.hist[0].spec { RemovalWasSent(h, st, Run(s, acts).hist); }
    hide HostInv;
  }

  lemma AdmissibleStart(s: Sys)
    requires Initial(s)
    ensures Admissible(s.hist[0].spec)
  {
    hide Admissible, FinName;
  }

  lemma ConsumedWasSent(h: string, st: HostSt, hist: seq<Obj>)
    requires hist != [] && HostInv(h, st, hist)
    ensures forall x :: x in AddsOf(st.consumed) + RemovesOf(st.consumed) ==>
              x == hist[0].spec || ForeignTo(hist[0].spec, x)
  {
    hide PcInv, LogInv, ReleaseInv, ConflictInv, ForeignTo, AddsOf, RemovesOf, Own, SpecsOf;
    forall x | x in AddsOf(st.consumed) + RemovesOf(st.consumed) ensures x in AddsOf(st.sent) + RemovesOf(st.sent) { }
  }

  /** The last message about `spec` is an add. */
  predicate LastIsAdd(msgs: seq<Msg>, spec: LANSpec) {
    LastAbout(msgs, spec).Some? && LastAbout(msgs, spec).value.AddMsg?
  }

  lemma LastAboutSpec(msgs: seq<Msg>, spec: LANSpec)
    ensures LastAbout(msgs, spec).Some? ==>
              LastAbout(msgs, spec).value.spec == spec && LastAbout(msgs, spec).value in msgs
  {
  }

  /** Among messages of other LANs, the last one naming a spoke is the last one about its LAN. */
  lemma {:induction false} LastOfOwn(msgs: seq<Msg>, spec: LANSpec, spoke: string)
    requires spoke in spec.spokes && forall m :: m in msgs ==> m.spec == spec || ForeignTo(spec, m.spec)
    ensures LastNaming(msgs, spoke) == LastAbout(msgs, spec)
  {
    if msgs != [] {
      var m := msgs[|msgs| - 1];
      assert m in msgs;
      LastOfOwn(msgs[..|msgs| - 1], spec, spoke);
    }
  }

  /**
   At any time, whatever messages of other LANs come in between, a host lists the LAN's devices, all of
   them and for this LAN, exactly if the last message about the LAN that its lister took is an add.
   */
  lemma ListedIff(s: Sys, acts: seq<Action>, h: string, spoke: string, v: bool)
    requires Initial(s) && h in s.hosts && WellFormed(s) && spoke in s.hist[0].spec.spokes
    ensures var msgs, spec := Run(s, acts).hosts[h].consumed, s.hist[0].spec;
            && (DPResourceName(spoke, v) in IndexOf(msgs) <==> LastIsAdd(msgs, spec))
            && (LastIsAdd(msgs, spec) ==> IndexOf(msgs)[DPResourceName(spoke, v)] == spec)
  {
    hide Initial, DPResourceName, Reflects, Run, Admissible, HasRetired, IndexOf, ForeignTo;
    var msgs, spec := Run(s, acts).hosts[h].consumed, s.hist[0].spec;
    IndexReflects(msgs);
    ReflectsAt(IndexOf(msgs), msgs, spoke, v);
    forall m | m in msgs ensures m.spec == spec || ForeignTo(spec, m.spec) { MessagesCarrySpec(s, acts, h, m); }
    LastOfOwn(msgs, spec, spoke);
    LastAboutSpec(msgs, spec);
  }

  lemma ReflectsAt(index: Index, msgs: seq<Msg>, s: string, v: bool)
    requires Reflects(index, msgs)
    ensures DPResourceName(s, v) in index <==> LastNaming(msgs, s).Some? && LastNaming(msgs, s).value.AddMsg?
    ensures DPResourceName(s, v) in index ==>
              LastNaming(msgs, s).Some? && index[DPResourceName(s, v)] == LastNaming(msgs, s).value.spec
  {
    hide DPResourceName, LastNaming;
  }

  // ----- an order of taking messages that cleans up -----

  /** The lister takes a removal only when no add waits. */
  ghost predicate AddsFirst(s: Sys, acts: seq<Action>, h: string)
    requires WellFormed(s) && h in s.hosts
  {
    forall k :: 0 <= k < |acts| && acts[k] == Consume(h, false) ==> Run(s, acts[..k]).hosts[h].addQ == []
  }

  predicate HasRemoval(msgs: seq<Msg>, spec: LANSpec) {
    spec in RemovesOf(msgs)
  }

  /** Once a removal of the LAN is taken, no add of it waits and none was taken after it. */
  predicate Settled(st: HostSt, spec: LANSpec) {
    HasRemoval(st.consumed, spec) ==> spec !in st.addQ && !LastIsAdd(st.consumed, spec)
  }

  lemma LastAboutNext(msgs: seq<Msg>, m: Msg, spec: LANSpec)
    ensures LastAbout(msgs + [m], spec) == if m.spec == spec then Some(m) else LastAbout(msgs, spec)
  {
    assert (msgs + [m])[..|msgs|] == msgs;
  }

  lemma TakenSettles(st: HostSt, fromAdd: bool, spec: LANSpec)
    requires Settled(st, spec) && (!fromAdd ==> st.addQ == [])
    ensures Settled(Consumed(st, fromAdd), spec)
  {
    hide RemovesOf, LastAbout;
    if fromAdd && st.addQ != [] {
      MessageTaken(st.consumed, AddMsg(st.addQ[0]));
      LastAboutNext(st.consumed, AddMsg(st.addQ[0]), spec);
    }
    if !fromAdd && st.remQ != [] {
      MessageTaken(st.consumed, RemoveMsg(st.remQ[0]));
      LastAboutNext(st.consumed, RemoveMsg(st.remQ[0]), spec);
    }
  }

  lemma SendSettles(st: HostSt, m: Msg, spec: LANSpec)
    requires Settled(st, spec) && Send(st, m).Some? && (m == AddMsg(spec) ==> !HasRemoval(st.consumed, spec))
    ensures Settled(Send(st, m).value, spec)
  {
    hide HasRemoval, LastIsAdd;
  }

  lemma StepSettles(h: string, st: HostSt, hist: seq<Obj>, spec: LANSpec)
    requires st.seen < |hist| && Settled(st, spec) && (st.pc.Announcing? ==> !HasRemoval(st.consumed, spec))
    ensures Settled(HostStep(h, st, hist).0, spec)
  {
    hide HasRemoval, LastIsAdd, Update, FinName;
  }

  lemma SettledNext(s: Sys, acts: seq<Action>, h: string, a: Action)
    requires Initial(s) && h in s.hosts && WellFormed(s)
    requires var st := Run(s, acts).hosts[h]; Settled(st, s.hist[0].spec) && (a == Consume(h, false) ==> st.addQ == [])
    ensures Settled(Step(Run(s, acts), a).hosts[h], s.hist[0].spec)
  {
    Reached(s, acts);
    hide Initial, HasRemoval, LastIsAdd, HostStep, Consumed, Decide, Send, Inv, History, Run, ForeignTo, Update;
    var r, spec := Run(s, acts), s.hist[0].spec;
    var st := r.hosts[h];
    if st.pc.Announcing? { NoAddAfterRemoval(s, acts, h); }
    StepOfHost(r, h, a);
    match a
    case Act(_) => StepSettles(h, st, r.hist, spec);
    case Consume(g, fromAdd) => if g == h { TakenSettles(st, fromAdd, spec); }
    case Other(g, m) => if g == h && ForeignTo(spec, m.spec) && Send(st, m).Some? { ForeignSettles(st, m, spec); }
    case _ =>
    hide Step;
  }

  lemma ForeignSettles(st: HostSt, m: Msg, spec: LANSpec)
    requires Settled(st, spec) && Send(st, m).Some? && ForeignTo(spec, m.spec)
    ensures Settled(Send(st, m).value, spec)
  {
    hide Settled, Send;
    SendSettles(st, m, spec);
  }

  /** What an action does to one host's channels. */
  lemma StepOfHost(s: Sys, h: string, a: Action)
    requires WellFormed(s) && h in s.hosts
    ensures var st, r := s.hosts[h], Step(s, a).hosts[h];
            match a
            case Act(g) => r == if g == h then HostStep(h, st, s.hist).0 else st
            case Consume(g, fromAdd) => r == if g == h then Consumed(st, fromAdd) else st
            case Other(g, m) =>
              r == if g == h && ForeignTo(s.hist[0].spec, m.spec) && Send(st, m).Some? then Send(st, m).value else st
            case _ => r.addQ == st.addQ && r.remQ == st.remQ && r.consumed == st.consumed
  {
    hide HostStep, Consumed, Send, ForeignTo, Decide, Delete;
  }

  lemma RemovalWasSent(h: string, st: HostSt, hist: seq<Obj>)
    requires hist != [] && HostInv(h, st, hist) && HasRemoval(st.consumed, hist[0].spec)
    ensures HasRetired(st.log)
  {
    hide PcInv, LogInv, ReleaseInv, ConflictInv, HasRetired, RemovesOf, AddsOf, Own, ForeignTo;
    var spec := hist[0].spec;
    OwnIn(RemovesOf(st.sent), spec);
    var x := SpecsOf(st.log, Retired)[0];
    assert x in SpecsOf(st.log, Retired);
    SpecIsLogged(st.log, Retired, x);
    assert HasRetired(st.log) by {
      var k :| 0 <= k < |st.log| && st.log[k].kind == Retired;
      SomeRetired(st.log, k);
    }
  }

  lemma SomeRetired(log: seq<Effect>, k: nat)
    requires k < |log| && log[k].kind.Retired?
    ensures HasRetired(log)
  {
  }

  lemma NoAddAfterRemoval(s: Sys, acts: seq<Action>, h: string)
    requires Initial(s) && h in s.hosts && WellFormed(s)
    requires Run(s, acts).hosts[h].pc.Announcing?
    ensures !HasRemoval(Run(s, acts).hosts[h].consumed, s.hist[0].spec)
  {
    hide Initial, HasRemoval, HasRetired, HostInv, History;
    HostReached(s, acts, h);
    Reached(s, acts);
    var r := Run(s, acts);
    if HasRemoval(r.hosts[h].consumed, s.hist[0].spec) {
      RemovalWasSent(h, r.hosts[h], r.hist);
      RetiredMeansDeleting(s.hosts.Keys, h, r.hosts[h], r.hist);
      PcOf(h, r.hosts[h], r.hist);
      assert false;
    }
  }

  lemma {:induction false} AddsFirstSettles(s: Sys, acts: seq<Action>, h: string)
    requires Initial(s) && h in s.hosts && WellFormed(s) && AddsFirst(s, acts, h)
    ensures Settled(Run(s, acts).hosts[h], s.hist[0].spec)
  {
    hide Initial, Settled, Step;
    if acts == [] {
      FreshHost(s, h);
    } else {
      var front := acts[..|acts| - 1];
      forall k | 0 <= k < |front| && front[k] == Consume(h, false) ensures Run(s, front[..k]).hosts[h].addQ == [] {
        assert front[..k] == acts[..k] && acts[k] == Consume(h, false);
      }
      AddsFirstSettles(s, front, h);
      SettledNext(s, front, h, acts[|acts| - 1]);
    }
  }

  lemma FreshHost(s: Sys, h: string)
    requires Initial(s) && h in s.hosts
    ensures s.hosts[h] == FRESH && Settled(s.hosts[h], s.hist[0].spec)
  {
  }

  /**
   If the lister always takes waiting adds first, then a LAN that is gone leaves none of its devices
   on any host, as soon as the host's removals of it are taken.
   */
  lemma GoneLeavesNoDevice(s: Sys, acts: seq<Action>, h: string, spoke: string, v: bool)
    requires Initial(s) && h in s.hosts && WellFormed(s) && spoke in s.hist[0].spec.spokes && AddsFirst(s, acts, h)
    requires var r := Run(s, acts); Gone(Last(r.hist)) && EverHeld(r.hist, h) && s.hist[0].spec !in r.hosts[h].remQ
    ensures DPResourceName(spoke, v) !in IndexOf(Run(s, acts).hosts[h].consumed)
  {
    hide Initial, FinName, DPResourceName, EverHeld;
    var r := Run(s, acts);
    AddsFirstSettles(s, acts, h);
    HostReached(s, acts, h);
    Reached(s, acts);
    RetiredIsTaken(h, r.hosts[h], r.hist);
    ListedIff(s, acts, h, spoke, v);
    hide HostInv, Run, IndexOf, LastIsAdd;
  }

  lemma RetiredIsTaken(h: string, st: HostSt, hist: seq<Obj>)
    requires hist != [] && HostInv(h, st, hist) && EverHeld(hist, h) && FinName(h) !in Last(hist).fins
    requires hist[0].spec !in st.remQ
    ensures HasRemoval(st.consumed, hist[0].spec)
  {
    hide FinName, EverHeld, PcInv, ConflictInv, ForeignTo;
    var k :| 0 <= k < |st.log| && st.log[k].kind.Retired?;
    LoggedIsSpec(st.log, Retired, k);
    OwnIn(RemovesOf(st.sent), hist[0].spec);
    hide LogInv, ReleaseInv, Own, SpecsOf, AddsOf, RemovesOf;
  }

  lemma LoggedIsSpec(log: seq<Effect>, kind: Kind, k: nat)
    requires k < |log| && log[k].kind == kind
    ensures SpecsOf(log, kind) != []
  {
    if k < |log| - 1 { LoggedIsSpec(log[..|log| - 1], kind, k); }
  }

  // ----- the select gives no such order -----

  lemma RunTwo(s: Sys, a: Action, b: Action)
    requires WellFormed(s)
    ensures Run(s, [a]) == Step(s, a) && Run(s, [a, b]) == Step(Step(s, a), b)
  {
    hide Step;
    RunSnoc(s, [], a);
    RunSnoc(s, [a], b);
    assert [] + [a] == [a] && [a] + [b] == [a, b];
  }

  lemma RunSnoc(s: Sys, acts: seq<Action>, a: Action)
    requires WellFormed(s)
    ensures Run(s, acts + [a]) == Step(Run(s, acts), a)
  {
    assert (acts + [a])[..|acts|] == acts;
  }

  /** `h` is in state `st`, and these are the versions. */
  predicate At(s: Sys, h: string, st: HostSt, hist: seq<Obj>) {
    WellFormed(s) && h in s.hosts && s.hosts[h] == st && s.hist == hist
  }

  lemma GetTo(s: Sys, h: string, st: HostSt, hist: seq<Obj>, i: nat)
    requires At(s, h, st, hist) && st.pc.Idle? && st.seen <= i < |hist|
    ensures WellFormed(s) && At(Step(s, Get(h, i)), h, st.(seen := i, pc := Decide(h, hist[i])), hist)
  {
    hide Decide;
  }

  lemma ActTo(s: Sys, h: string, st: HostSt, hist: seq<Obj>)
    requires At(s, h, st, hist)
    ensures WellFormed(s) && At(Step(s, Act(h)), h, HostStep(h, st, hist).0, HostStep(h, st, hist).1)
  {
    hide HostStep;
  }

  lemma ConsumeTo(s: Sys, h: string, st: HostSt, hist: seq<Obj>, fromAdd: bool)
    requires At(s, h, st, hist)
    ensures WellFormed(s) && At(Step(s, Consume(h, fromAdd)), h, Consumed(st, fromAdd), hist)
  {
    hide Consumed;
  }

  lemma DeleteTo(s: Sys, h: string, st: HostSt, hist: seq<Obj>)
    requires At(s, h, st, hist) && hist != []
    ensures WellFormed(s) && At(Step(s, UserDelete), h, st, Delete(hist))
  {
    hide Delete;
  }

  /** A host alone with the newest version writes it. */
  lemma WriteOfLast(h: string, st: HostSt, hist: seq<Obj>)
    requires hist != [] && st.seen == |hist| - 1 && Stored(Last(hist).spec)
    requires if Last(hist).deleting then st.pc.Releasing? && Last(hist).fins == [FinName(h)]
             else st.pc.Registering? && Last(hist).fins == []
    ensures HostStep(h, st, hist)
            == (st.(pc := Idle), hist + [Last(hist).(fins := if Last(hist).deleting then [] else [FinName(h)])])
  {
    hide FinName;
    Webhook.SpecIsFrozen(Last(hist).spec, Last(hist).spec);
    assert RemoveFinalizer([FinName(h)], FinName(h)) == [];
    assert [] + [FinName(h)] == [FinName(h)];
  }

  // ----- one host alone, from creation to its sent removal -----

  function RegisteredObj(o: Obj, h: string): Obj { Obj(o.spec, false, [FinName(h)]) }
  function DeletedObj(o: Obj, h: string): Obj { Obj(o.spec, true, [FinName(h)]) }

  function AnnouncedSt(spec: LANSpec): HostSt {
    HostSt(Idle, 1, [spec], [], [Effect(Announced, 1, spec)], [AddMsg(spec)], [], [])
  }

  function RetiredSt(spec: LANSpec): HostSt {
    HostSt(Releasing, 2, [spec], [spec],
           [Effect(Announced, 1, spec), Effect(Cleaned, 2, spec), Effect(Retired, 2, spec)],
           [AddMsg(spec), RemoveMsg(spec)], [], [])
  }

  lemma Register(s: Sys, h: string)
    requires Initial(s) && h in s.hosts && WellFormed(s) && s.hist[0].fins == []
    ensures At(Run(s, [Get(h, 0), Act(h)]), h, FRESH, [s.hist[0], RegisteredObj(s.hist[0], h)])
  {
    InitialFacts(s, h);
    RunTwo(s, Get(h, 0), Act(h));
    var st := FRESH.(pc := Registering);
    hide Initial, Run, Step, FinName, HostStep, Stored, At;
    GetTo(s, h, FRESH, s.hist, 0);
    WriteOfLast(h, st, s.hist);
    ActTo(Step(s, Get(h, 0)), h, st, s.hist);
    assert s.hist + [RegisteredObj(s.hist[0], h)] == [s.hist[0], RegisteredObj(s.hist[0], h)];
  }

  lemma Announce(s: Sys, h: string, o: Obj)
    requires At(s, h, FRESH, [o, RegisteredObj(o, h)])
    ensures WellFormed(s) && At(Run(s, [Get(h, 1), Act(h)]), h, AnnouncedSt(o.spec), [o, RegisteredObj(o, h)])
  {
    RunTwo(s, Get(h, 1), Act(h));
    var st := FRESH.(seen := 1, pc := Announcing);
    hide Run, Step, FinName, At;
    GetTo(s, h, FRESH, [o, RegisteredObj(o, h)], 1);
    ActTo(Step(s, Get(h, 1)), h, st, [o, RegisteredObj(o, h)]);
  }

  lemma UserDeletes(s: Sys, h: string, o: Obj)
    requires At(s, h, AnnouncedSt(o.spec), [o, RegisteredObj(o, h)])
    ensures WellFormed(s)
            && At(Run(s, [UserDelete]), h, AnnouncedSt(o.spec), [o, RegisteredObj(o, h), DeletedObj(o, h)])
  {
    RunTwo(s, UserDelete, UserDelete);
    RegisteredIsOurs([], h);
    assert [] + [FinName(h)] == [FinName(h)];
    hide FinName, Run, Step, At, Webhook.DeleteAccepted;
    DeleteTo(s, h, AnnouncedSt(o.spec), [o, RegisteredObj(o, h)]);
    assert [o, RegisteredObj(o, h)] + [DeletedObj(o, h)] == [o, RegisteredObj(o, h), DeletedObj(o, h)];
  }

  lemma CleaningSteps(h: string, o: Obj)
    ensures var hist, st := [o, RegisteredObj(o, h), DeletedObj(o, h)], AnnouncedSt(o.spec);
            var st1 := st.(seen := 2, pc := Cleaning);
            var st2 := st1.(pc := Retiring, log := Logged(st1, Cleaned, o.spec));
            && Decide(h, hist[2]) == Cleaning
            && HostStep(h, st1, hist) == (st2, hist)
            && HostStep(h, st2, hist) == (RetiredSt(o.spec), hist)
  {
    hide FinName;
    var a, c, r := Effect(Announced, 1, o.spec), Effect(Cleaned, 2, o.spec), Effect(Retired, 2, o.spec);
    assert [a] + [c] + [r] == [a, c, r] && [] + [o.spec] == [o.spec];
    assert [AddMsg(o.spec)] + [RemoveMsg(o.spec)] == [AddMsg(o.spec), RemoveMsg(o.spec)];
  }

  lemma CleanUp(s: Sys, h: string, o: Obj)
    requires At(s, h, AnnouncedSt(o.spec), [o, RegisteredObj(o, h), DeletedObj(o, h)])
    ensures WellFormed(s)
    ensures At(Run(s, [Get(h, 2), Act(h), Act(h)]), h, RetiredSt(o.spec), [o, RegisteredObj(o, h), DeletedObj(o, h)])
  {
    var hist := [o, RegisteredObj(o, h), DeletedObj(o, h)];
    var st := AnnouncedSt(o.spec);
    var st1 := st.(seen := 2, pc := Cleaning);
    var st2 := st1.(pc := Retiring, log := Logged(st1, Cleaned, o.spec));
    RunTwo(s, Get(h, 2), Act(h));
    RunSnoc(s, [Get(h, 2), Act(h)], Act(h));
    assert [Get(h, 2), Act(h)] + [Act(h)] == [Get(h, 2), Act(h), Act(h)];
    CleaningSteps(h, o);
    hide Run, Step, FinName, At, HostStep, Decide;
    GetTo(s, h, st, hist, 2);
    ActTo(Step(s, Get(h, 2)), h, st1, hist);
    ActTo(Step(Step(s, Get(h, 2)), Act(h)), h, st2, hist);
  }

  lemma Lived(s: Sys, h: string) returns (life: seq<Action>)
    requires Initial(s) && h in s.hosts && WellFormed(s) && s.hist[0].fins == []
    ensures var o := s.hist[0]; At(Run(s, life), h, RetiredSt(o.spec), [o, RegisteredObj(o, h), DeletedObj(o, h)])
  {
    var o := s.hist[0];
    hide *;
    var p, q, u, v := [Get(h, 0), Act(h)], [Get(h, 1), Act(h)], [UserDelete], [Get(h, 2), Act(h), Act(h)];
    Register(s, h);
    RunConcat(s, p, q);
    Announce(Run(s, p), h, o);
    RunConcat(s, p + q, u);
    UserDeletes(Run(s, p + q), h, o);
    RunConcat(s, p + q + u, v);
    CleanUp(Run(s, p + q + u), h, o);
    life := p + q + u + v;
  }

  lemma InitialFacts(s: Sys, h: string)
    requires Initial(s) && h in s.hosts
    ensures |s.hist| == 1 && s.hosts[h] == FRESH && Stored(s.hist[0].spec) && !s.hist[0].deleting
  {
    hide Stored;
  }

  /** The two messages waiting are taken, in this order, and the host releases. */
  function Ending(h: string, removalFirst: bool): seq<Action> {
    [Consume(h, !removalFirst)] + [Consume(h, removalFirst)] + [Act(h)]
  }

  /** The object is gone, both channels are empty, and the devices are listed exactly if `listed`. */
  predicate Left(r: Sys, h: string, spoke: string, v: bool, listed: bool) {
    && r.hist != [] && Gone(Last(r.hist)) && h in r.hosts
    && r.hosts[h].pc.Idle? && r.hosts[h].addQ == [] && r.hosts[h].remQ == []
    && (DPResourceName(spoke, v) in IndexOf(r.hosts[h].consumed) <==> listed)
  }

  /**
   The lister's select gives no order.  After one and the same life of a LAN the object is gone and both
   channels are empty; the host still lists its devices if the removal was taken first, and lists none
   if the add was.
   */
  lemma StaleDeviceReachable(s: Sys, h: string, spoke: string, v: bool) returns (life: seq<Action>)
    requires Initial(s) && h in s.hosts && WellFormed(s) && s.hist[0].fins == [] && spoke in s.hist[0].spec.spokes
    ensures Left(Run(s, life + Ending(h, true)), h, spoke, v, true)
    ensures Left(Run(s, life + Ending(h, false)), h, spoke, v, false)
  {
    hide Run, Initial, FinName, Left, Ending;
    life := Lived(s, h);
    EndsSo(s, h, life, spoke, v, true);
    EndsSo(s, h, life, spoke, v, false);
  }

  lemma EndsSo(s: Sys, h: string, life: seq<Action>, spoke: string, v: bool, removalFirst: bool)
    requires Initial(s) && h in s.hosts && WellFormed(s) && spoke in s.hist[0].spec.spokes
    requires var o := s.hist[0]; At(Run(s, life), h, RetiredSt(o.spec), [o, RegisteredObj(o, h), DeletedObj(o, h)])
    ensures Left(Run(s, life + Ending(h, removalFirst)), h, spoke, v, removalFirst)
  {
    InitialFacts(s, h);
    hide *;
    Ends(Run(s, life), h, s.hist[0], removalFirst);
    RunConcat(s, life, Ending(h, removalFirst));
    ListedIff(s, life + Ending(h, removalFirst), h, spoke, v);
    LeftNow(Run(s, life + Ending(h, removalFirst)), h, s.hist[0], spoke, v, removalFirst);
  }

  lemma LeftNow(r: Sys, h: string, o: Obj, spoke: string, v: bool, removalFirst: bool)
    requires At(r, h, EndedSt(o.spec, removalFirst),
                [o, RegisteredObj(o, h), DeletedObj(o, h)] + [Obj(o.spec, true, [])])
    requires DPResourceName(spoke, v) in IndexOf(r.hosts[h].consumed) <==> LastIsAdd(r.hosts[h].consumed, o.spec)
    ensures Left(r, h, spoke, v, removalFirst)
  {
    hide FinName, DPResourceName, IndexOf;
    var a, m := AddMsg(o.spec), RemoveMsg(o.spec);
    assert [a, m] == [a] + [m] && [m, a] == [m] + [a];
    LastAboutNext([a], m, o.spec);
    LastAboutNext([m], a, o.spec);
  }

  /** What the lister took, in the order it took it. */
  function Taken(spec: LANSpec, removalFirst: bool): seq<Msg> {
    if removalFirst then [RemoveMsg(spec), AddMsg(spec)] else [AddMsg(spec), RemoveMsg(spec)]
  }

  function EndedSt(spec: LANSpec, removalFirst: bool): HostSt {
    RetiredSt(spec).(pc := Idle, addQ := [], remQ := [], consumed := Taken(spec, removalFirst))
  }

  lemma EndedBoth(spec: LANSpec, removalFirst: bool)
    ensures var st := RetiredSt(spec);
            Consumed(Consumed(st, !removalFirst), removalFirst)
            == st.(addQ := [], remQ := [], consumed := Taken(spec, removalFirst))
  {
  }

  lemma Ends(s: Sys, h: string, o: Obj, removalFirst: bool)
    requires At(s, h, RetiredSt(o.spec), [o, RegisteredObj(o, h), DeletedObj(o, h)]) && Stored(o.spec)
    ensures WellFormed(s)
    ensures At(Run(s, Ending(h, removalFirst)), h,
               EndedSt(o.spec, removalFirst), [o, RegisteredObj(o, h), DeletedObj(o, h)] + [Obj(o.spec, true, [])])
  {
    var first, second := Consume(h, !removalFirst), Consume(h, removalFirst);
    RunTwo(s, first, second);
    RunSnoc(s, [first, second], Act(h));
    assert [first] + [second] + [Act(h)] == [first, second] + [Act(h)];
    var hist, st := [o, RegisteredObj(o, h), DeletedObj(o, h)], RetiredSt(o.spec);
    var st1 := Consumed(st, !removalFirst);
    var st2 := st.(addQ := [], remQ := [], consumed := Taken(o.spec, removalFirst));
    EndedBoth(o.spec, removalFirst);
    hide Run, Step, FinName, Stored, HostStep, At, Consumed, RetiredSt;
    ConsumeTo(s, h, st, hist, !removalFirst);
    ConsumeTo(Step(s, first), h, st1, hist, removalFirst);
    WriteOfLast(h, st2, hist);
    ActTo(Step(Step(s, first), second), h, st2, hist);
  }
}
