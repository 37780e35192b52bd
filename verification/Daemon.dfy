/** One reconcile of dset/main.go as it is written, with whatever else happens between its calls. */
module Daemon {
  import opened Wrappers
  import opened LanTypes
  import opened Lister
  import opened Protocol
  import Webhook

  datatype Outcome = Done | Conflict | Waiting

  /** Actions of anyone but the reconcile of `h`; its lister may go on. */
  predicate OfOthers(h: string, acts: seq<Action>) {
    forall k :: 0 <= k < |acts| ==> acts[k] != Act(h) && !(acts[k].Get? && acts[k].h == h)
  }

  lemma {:induction false} OthersKeep(s: Sys, acts: seq<Action>, h: string)
    requires WellFormed(s) && h in s.hosts && OfOthers(h, acts)
    ensures var st, r := s.hosts[h], Run(s, acts).hosts[h];
            r.pc == st.pc && r.seen == st.seen && r.conflicts == st.conflicts
  {
    hide Step;
    if acts != [] {
      OthersKeep(s, acts[..|acts| - 1], h);
      OtherKeeps(Run(s, acts[..|acts| - 1]), acts[|acts| - 1], h);
    }
  }

  lemma OtherKeeps(s: Sys, a: Action, h: string)
    requires WellFormed(s) && h in s.hosts && a != Act(h) && !(a.Get? && a.h == h)
    ensures var st, r := s.hosts[h], Step(s, a).hosts[h];
            r.pc == st.pc && r.seen == st.seen && r.conflicts == st.conflicts
  {
    hide HostStep, Decide, Delete;
  }

  /**
   The calls of one reconcile that read version `i`, in the midst of what the others do; `sent` if the removal
   could be sent.
   */
  function Calls(h: string, i: nat, o: Obj, e1: seq<Action>, e2: seq<Action>, e3: seq<Action>,
                 sent: bool): seq<Action> {
    if !o.deleting then [Get(h, i)] + e1 + [Act(h)]
    else if FinName(h) in o.fins then
      var untilSend := [Get(h, i)] + e1 + [Act(h)] + e2 + [Act(h)];
      if sent then untilSend + e3 + [Act(h)] else untilSend
    else [Get(h, i)]
  }

  lemma RunOne(s: Sys, a: Action)
    requires WellFormed(s)
    ensures Run(s, [a]) == Step(s, a)
  {
    hide Step;
    assert [a][..0] == [];
    assert Run(s, []) == s;
  }

  /** The user creates a LAN: Default, the schema, ValidateCreate, then the first version is stored. */
  method Create(lan: Webhook.LAN, hosts: set<string>) returns (first: Option<Sys>)
    modifies lan
    ensures first.Some? <==> Webhook.CreateAccepted(old(lan.spec))
    ensures first.Some? ==>
              && WellFormed(first.value) && first.value.hosts.Keys == hosts
              && first.value.hist == [Obj(lan.spec, false, old(lan.finalizers))]
              && Webhook.FilledIn(old(lan.spec), lan.spec)
              && ((forall h :: h in hosts ==> FinName(h) !in old(lan.finalizers)) ==> Initial(first.value))
  {
    hide Admissible, FinName;
    Webhook.Default(lan);
    if !Webhook.RequiredPresent(lan.spec) { return None; }
    var err := Webhook.ValidateCreate(lan);
    if err.Some? { return None; }
    first := Some(Sys([Obj(lan.spec, false, lan.finalizers)], map h | h in hosts :: FRESH));
  }

  class Cluster {
    var sys: Sys

    constructor (s: Sys)
      ensures sys == s
    {
      sys := s;
    }

    /** What the others do meanwhile. */
    method Meanwhile(h: string, acts: seq<Action>)
      requires WellFormed(sys) && h in sys.hosts && OfOthers(h, acts)
      modifies this
      ensures WellFormed(sys) && sys == Run(old(sys), acts)
      ensures h in sys.hosts && sys.hosts[h].pc == old(sys).hosts[h].pc && sys.hosts[h].seen == old(sys).hosts[h].seen
      ensures sys.hosts[h].conflicts == old(sys).hosts[h].conflicts && old(sys).hist <= sys.hist
    {
      hide Step;
      OthersKeep(sys, acts, h);
      RunGrows(sys, acts);
      for k := 0 to |acts|
        invariant WellFormed(sys) && sys == Run(old(sys), acts[..k])
      {
        assert acts[..k + 1][..k] == acts[..k];
        sys := Step(sys, acts[k]);
      }
      assert acts[..|acts|] == acts;
    }

    method Get(h: string, i: nat) returns (lan: Webhook.LAN)
      requires WellFormed(sys) && h in sys.hosts && sys.hosts[h].pc.Idle? && sys.hosts[h].seen <= i < |sys.hist|
      modifies this
      ensures fresh(lan) && lan.spec == old(sys).hist[i].spec && lan.finalizers == old(sys).hist[i].fins
      ensures WellFormed(sys) && sys == Step(old(sys), Action.Get(h, i))
    {
      lan := new Webhook.LAN(sys.hist[i].spec, sys.hist[i].fins);
      sys := sys.(hosts := sys.hosts[h := sys.hosts[h].(seen := i, pc := Decide(h, sys.hist[i]))]);
    }

    /** The API server: the newest version only, then Default, the schema and validation. */
    method Update(h: string, base: nat, lan: Webhook.LAN) returns (ok: bool)
      requires WellFormed(sys) && h in sys.hosts && sys.hosts[h].seen == base && lan.spec == sys.hist[base].spec
      requires var st, fins := sys.hosts[h], sys.hist[base].fins;
               || (st.pc.Registering? && lan.finalizers == AddFinalizer(fins, FinName(h)))
               || (st.pc.Releasing? && lan.finalizers == RemoveFinalizer(fins, FinName(h)))
      modifies this, lan
      ensures WellFormed(sys) && sys == Step(old(sys), Act(h)) && h in sys.hosts && sys.hosts[h].pc.Idle?
      ensures sys.hosts[h].conflicts == old(sys).hosts[h].conflicts + if ok then [] else [base]
    {
      hide FinName, AddFinalizer, RemoveFinalizer, Admissible;
      var st, cur := sys.hosts[h], Last(sys.hist);
      ok := false;
      if base == |sys.hist| - 1 && !Gone(cur) {
        Webhook.Default(lan);
        if Webhook.RequiredPresent(lan.spec) {
          var stored := new Webhook.LAN(cur.spec, cur.fins);
          var err := Webhook.ValidateUpdate(stored, lan);
          ok := err.None?;
        }
      }
      if ok {
        sys := Sys(sys.hist + [Obj(lan.spec, cur.deleting, lan.finalizers)], sys.hosts[h := st.(pc := Idle)]);
      } else {
        sys := sys.(hosts := sys.hosts[h := st.(pc := Idle, conflicts := st.conflicts + [base])]);
      }
    }

    /** A send on the add channel; false while the channel is full. */
    method SendAdd(h: string, spec: LANSpec) returns (sent: bool)
      requires WellFormed(sys) && h in sys.hosts && sys.hosts[h].pc.Announcing?
               && spec == sys.hist[sys.hosts[h].seen].spec
      modifies this
      ensures WellFormed(sys) && sys == Step(old(sys), Act(h)) && h in sys.hosts
      ensures sys.hosts[h].conflicts == old(sys).hosts[h].conflicts
      ensures sent <==> sys.hosts[h].pc.Idle?
    {
      var st := sys.hosts[h];
      sent := |st.addQ| < CHAN_DEPTH;
      if sent {
        sys := sys.(hosts := sys.hosts[h := st.(pc := Idle, addQ := st.addQ + [spec], sent := st.sent + [AddMsg(spec)],
                                                           log := Logged(st, Announced, spec))]);
      }
    }

    method CallRemove(h: string, spec: LANSpec)
      requires WellFormed(sys) && h in sys.hosts && sys.hosts[h].pc.Cleaning?
               && spec == sys.hist[sys.hosts[h].seen].spec
      modifies this
      ensures WellFormed(sys) && sys == Step(old(sys), Act(h)) && h in sys.hosts
      ensures sys.hosts[h].pc.Retiring? && sys.hosts[h].seen == old(sys).hosts[h].seen && sys.hist == old(sys).hist
      ensures sys.hosts[h].conflicts == old(sys).hosts[h].conflicts
    {
      var st := sys.hosts[h];
      sys := sys.(hosts := sys.hosts[h := st.(pc := Retiring, log := Logged(st, Cleaned, spec))]);
    }

    method SendRemove(h: string, spec: LANSpec) returns (sent: bool)
      requires WellFormed(sys) && h in sys.hosts && sys.hosts[h].pc.Retiring?
               && spec == sys.hist[sys.hosts[h].seen].spec
      modifies this
      ensures WellFormed(sys) && sys == Step(old(sys), Act(h)) && h in sys.hosts
      ensures sys.hosts[h].pc == (if sent then Releasing else Retiring)
      ensures sys.hosts[h].seen == old(sys).hosts[h].seen && sys.hist == old(sys).hist
      ensures sys.hosts[h].conflicts == old(sys).hosts[h].conflicts
    {
      var st := sys.hosts[h];
      sent := |st.remQ| < CHAN_DEPTH;
      if sent {
        sys := sys.(hosts := sys.hosts[h := st.(pc := Releasing, remQ := st.remQ + [spec],
                                                           sent := st.sent + [RemoveMsg(spec)],
                                                           log := Logged(st, Retired, spec))]);
      }
    }

    /**
     One reconcile, from the version it reads to its return, with others acting between any two of its
     calls (`e1`, `e2`, `e3`).  It is the run of its calls and theirs, in that order.
     */
    method Reconcile(h: string, i: nat, e1: seq<Action>, e2: seq<Action>, e3: seq<Action>) returns (r: Outcome)
      requires WellFormed(sys) && h in sys.hosts && sys.hosts[h].pc.Idle? && sys.hosts[h].seen <= i < |sys.hist|
      requires OfOthers(h, e1) && OfOthers(h, e2) && OfOthers(h, e3)
      modifies this
      ensures WellFormed(sys) && h in sys.hosts
      ensures sys == Run(old(sys), Calls(h, i, old(sys).hist[i], e1, e2, e3, r != Waiting))
      ensures r.Waiting? <==> !sys.hosts[h].pc.Idle?
      ensures sys.hosts[h].conflicts == old(sys).hosts[h].conflicts + if r.Conflict? then [i] else []
    {
      hide Step, FinName, OfOthers, Run, AddFinalizer, RemoveFinalizer;
      var s0, o := sys, sys.hist[i];
      var lan := Get(h, i);
      ReadKeeps(s0, h, i);
      RunOne(s0, Action.Get(h, i));
      if !o.deleting {
        Meanwhile(h, e1);
        var ok;
        if FinName(h) !in lan.finalizers {
          lan.finalizers := AddFinalizer(lan.finalizers, FinName(h));
          ok := Update(h, i, lan);
          r := if ok then Done else Conflict;
        } else {
          ok := SendAdd(h, lan.spec);
          r := if ok then Done else Waiting;
        }
        RunThree(s0, [Action.Get(h, i)], e1, Act(h));
        return;
      }
      if FinName(h) in lan.finalizers {
        Meanwhile(h, e1);
        CallRemove(h, lan.spec);
        RunThree(s0, [Action.Get(h, i)], e1, Act(h));
        Meanwhile(h, e2);
        var sent := SendRemove(h, lan.spec);
        RunThree(s0, [Action.Get(h, i)] + e1 + [Act(h)], e2, Act(h));
        if !sent { return Waiting; }
        Meanwhile(h, e3);
        lan.finalizers := RemoveFinalizer(lan.finalizers, FinName(h));
        var ok := Update(h, i, lan);
        RunThree(s0, [Action.Get(h, i)] + e1 + [Act(h)] + e2 + [Act(h)], e3, Act(h));
        return if ok then Done else Conflict;
      }
      return Done;
    }
  }

  lemma ReadKeeps(s: Sys, h: string, i: nat)
    requires WellFormed(s) && h in s.hosts && s.hosts[h].pc.Idle? && s.hosts[h].seen <= i < |s.hist|
    ensures var r := Step(s, Get(h, i));
            && r.hist == s.hist && h in r.hosts && r.hosts[h].seen == i && r.hosts[h].pc == Decide(h, s.hist[i])
            && r.hosts[h].conflicts == s.hosts[h].conflicts
  {
  }

  lemma RunThree(s: Sys, before: seq<Action>, others: seq<Action>, a: Action)
    requires WellFormed(s)
    ensures Run(s, before + others + [a]) == Step(Run(Run(s, before), others), a)
  {
    hide Step;
    RunConcat(s, before, others);
    RunConcat(s, before + others, [a]);
    RunOne(Run(s, before + others), a);
  }
}
