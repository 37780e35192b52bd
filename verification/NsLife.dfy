/** The life of a LAN's mount point: absent, a plain file, or a mounted namespace (pkg/interfaces/ns.go). */
module NsLife {
  import opened Kernel
  import opened ApplySpec

  datatype Stage = Absent | Plain | Live

  function StageOf(n: Net, lan: string): Stage {
    if lan !in n.mounts then Absent else if n.mounts[lan].File? then Plain else Live
  }

  datatype NsOp = Make(lan: string, faults: set<Call>) | Drop(lan: string, faults: set<Call>)

  /** `Make` is the first part of Ensure, `Drop` is Remove. */
  function Apply(n: Net, op: NsOp): Net {
    match op
    case Make(lan, faults) => EnsureNs(n, lan, faults).net
    case Drop(lan, faults) => Remove(n, lan, faults)
  }

  function Run(n: Net, ops: seq<NsOp>): Net {
    if ops == [] then n else Apply(Run(n, ops[..|ops| - 1]), ops[|ops| - 1])
  }

  // ----- the automaton of one name -----

  /** A new namespace leaves no file behind, unless nothing was done at all. */
  function Made(s: Stage, faults: set<Call>): Stage {
    if NsPrep in faults || NsCreate in faults then s
    else if NsMount in faults then Absent
    else Live
  }

  function Dropped(s: Stage, faults: set<Call>): Stage {
    if !s.Live? || NsUnmount in faults then s
    else if NsUnlink in faults then Plain
    else Absent
  }

  function Next(s: Stage, op: NsOp): Stage {
    match op
    case Make(_, faults) =>
      if s.Live? && NsOpen !in faults then Live
      else Made(if s.Live? then Dropped(s, faults - {NsUnmount}) else s, faults)
    case Drop(_, faults) => Dropped(s, faults)
  }

  function Stages(s: Stage, ops: seq<NsOp>, lan: string): Stage {
    if ops == [] then s
    else
      var before := Stages(s, ops[..|ops| - 1], lan);
      if ops[|ops| - 1].lan == lan then Next(before, ops[|ops| - 1]) else before
  }

  lemma DestroyKeepsMounts(n: Net, ns: Ns)
    ensures DestroyNs(n, ns).mounts == n.mounts
  {
  }

  lemma ApplyIsNext(n: Net, op: NsOp, lan: string)
    ensures StageOf(Apply(n, op), lan) == if op.lan == lan then Next(StageOf(n, lan), op) else StageOf(n, lan)
  {
    hide DestroyNs;
    DestroyKeepsMounts(n, Lan(op.lan));
  }

  /** Whatever fails, every name goes through its own automaton, and no call touches another name. */
  lemma {:induction false} RunIsStages(n: Net, ops: seq<NsOp>, lan: string)
    ensures StageOf(Run(n, ops), lan) == Stages(StageOf(n, lan), ops, lan)
  {
    hide Apply, Next;
    if ops != [] {
      RunIsStages(n, ops[..|ops| - 1], lan);
      ApplyIsNext(Run(n, ops[..|ops| - 1]), ops[|ops| - 1], lan);
    }
  }

  // ----- what the two calls promise -----

  const MAKING: set<Call> := {NsPrep, NsCreate, NsMount, NsReopen}

  /**
   From absent or a plain file NewNS succeeds exactly if none of its steps fails.  Failing, it leaves
   the name as it was (nothing created yet), absent (created, not mounted) or mounted (only the
   final open failed), and never a file that was not there.
   */
  lemma NewNsEnds(n: Net, lan: string, faults: set<Call>)
    requires !IsMounted(n, lan)
    ensures var r := NewNs(n, lan, faults);
            && (r.Ok? <==> faults !! MAKING)
            && (r.Ok? ==> IsMounted(r.net, lan) && LoKey(lan) in r.net.links)
            && (r.Fail? ==>
                  || r.net == n
                  || (NsMount in faults && StageOf(r.net, lan).Absent? && r.net.links == n.links)
                  || (NsReopen in faults && IsMounted(r.net, lan)))
            && (StageOf(r.net, lan).Plain? ==> r.net == n)
  {
    if c :| c in faults && c in MAKING {
      assert NsPrep in faults || NsCreate in faults || NsMount in faults || NsReopen in faults;
    }
  }

  /** Ensure's stat, open, delete and recreate reach a mounted namespace from each of the three stages, exactly if: */
  lemma EnsureNsReaches(n: Net, lan: string, faults: set<Call>)
    ensures EnsureNs(n, lan, faults).Ok? <==> (IsMounted(n, lan) && NsOpen !in faults) || faults !! MAKING
    ensures EnsureNs(n, lan, faults).Ok? ==> IsMounted(EnsureNs(n, lan, faults).net, lan)
    ensures IsMounted(n, lan) && NsOpen !in faults ==> EnsureNs(n, lan, faults).net == n
    ensures StageOf(n, lan).Plain? ==> DeleteNamed(n, lan, faults) == Fail(n)
  {
    hide DestroyNs, MountNs;
    var d := DeleteNamed(n, lan, faults - {NsUnmount}).net;
    DestroyKeepsMounts(n, Lan(lan));
    if lan !in n.mounts { NewNsEnds(n, lan, faults); }
    else if !(IsMounted(n, lan) && NsOpen !in faults) { NewNsEnds(d, lan, faults); }
  }

  /** After any history of failures one Ensure whose calls work leaves the namespace mounted. */
  lemma AnyRunRecovers(n: Net, ops: seq<NsOp>, lan: string, faults: set<Call>)
    requires faults !! MAKING
    ensures StageOf(Run(n, ops + [Make(lan, faults)]), lan).Live?
  {
    hide Apply, EnsureNs;
    var all := ops + [Make(lan, faults)];
    assert all[..|all| - 1] == ops;
    RunIsStages(n, all, lan);
  }
}
