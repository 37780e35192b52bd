/**
 The daemon set of dset/main.go: one reconciler per host, all working on the same LAN object.

 The API server keeps the object's versions.  A host reads a version (perhaps an old one, never one
 older than it read before), decides, and then makes its calls one at a time; between any two of them
 the other hosts, the device-plugin listers and the user may act.  An update is accepted only if it
 was made from the newest version.  A version that is being deleted and has no finalizer left is the
 object's removal: reading it is finding nothing.  A host has one pair of channels for all LANs, so
 messages about other LANs come in between.
 */
module Protocol {
  import opened Wrappers
  import opened LanTypes
  import opened Lister
  import Webhook

  const CHAN_DEPTH := 16

  datatype Obj = Obj(spec: LANSpec, deleting: bool, fins: seq<string>)

  predicate Gone(o: Obj) {
    o.deleting && o.fins == []
  }

  // ----- finalizer lists -----

  function FinName(h: string): string {
    FINALIZER_PREFIX + "/" + h
  }

  lemma FinNameInjective(g: string, h: string)
    ensures FinName(g) == FinName(h) ==> g == h
  {
    assert FinName(g)[|FINALIZER_PREFIX| + 1..] == g && FinName(h)[|FINALIZER_PREFIX| + 1..] == h;
  }

  function AddFinalizer(fins: seq<string>, f: string): seq<string> {
    if f in fins then fins else fins + [f]
  }

  function RemoveFinalizer(fins: seq<string>, f: string): (r: seq<string>)
    ensures forall x :: x in r <==> x in fins && x != f
  {
    if fins == [] then []
    else (if fins[0] == f then [] else [fins[0]]) + RemoveFinalizer(fins[1..], f)
  }

  // ----- the API server -----

  function Last(hist: seq<Obj>): Obj
    requires hist != []
  {
    hist[|hist| - 1]
  }

  /** Optimistic concurrency, then admission; only the finalizers of what is sent can differ. */
  function Update(hist: seq<Obj>, base: nat, fins: seq<string>): Option<seq<Obj>>
    requires base < |hist|
  {
    var cur := Last(hist);
    if base != |hist| - 1 || Gone(cur) || !Webhook.UpdateAccepted(cur.spec, hist[base].spec) then None
    else Some(hist + [Obj(Webhook.Defaulted(hist[base].spec), cur.deleting, fins)])
  }

  function Delete(hist: seq<Obj>): seq<Obj>
    requires hist != []
  {
    var cur := Last(hist);
    if cur.deleting || !Webhook.DeleteAccepted(cur.fins) then hist else hist + [cur.(deleting := true)]
  }

  // ----- a host -----

  /** Where a reconcile is: what it will do next with the version it read. */
  datatype Pc = Idle | Registering | Announcing | Cleaning | Retiring | Releasing

  datatype Kind = Announced | Cleaned | Retired

  /** An add sent, interfaces.Remove called, or a removal sent, because of version `at`. */
  datatype Effect = Effect(kind: Kind, at: nat, spec: LANSpec)

  /** `sent` is what went into the channels, for this LAN or another; `consumed` what the lister took. */
  datatype HostSt = HostSt(pc: Pc, seen: nat, addQ: seq<LANSpec>, remQ: seq<LANSpec>, log: seq<Effect>,
                           sent: seq<Msg>, consumed: seq<Msg>, conflicts: seq<nat>)

  /** Another LAN, which by the documented uniqueness shares no spoke with this one. */
  predicate ForeignTo(spec: LANSpec, other: LANSpec) {
    other != spec && forall s :: s in spec.spokes ==> s !in other.spokes
  }

  /** A message goes into its channel if there is room. */
  function Send(st: HostSt, m: Msg): Option<HostSt> {
    match m
    case AddMsg(x) =>
      if |st.addQ| < CHAN_DEPTH then Some(st.(addQ := st.addQ + [x], sent := st.sent + [m])) else None
    case RemoveMsg(x) =>
      if |st.remQ| < CHAN_DEPTH then Some(st.(remQ := st.remQ + [x], sent := st.sent + [m])) else None
  }

  /** The branches of Reconcile up to its first effect. */
  function Decide(h: string, o: Obj): Pc {
    if !o.deleting then if FinName(h) !in o.fins then Registering else Announcing
    else if FinName(h) in o.fins then Cleaning
    else Idle
  }

  function Logged(st: HostSt, kind: Kind, spec: LANSpec): seq<Effect> {
    st.log + [Effect(kind, st.seen, spec)]
  }

  /** The result of an update: done, or a conflict returned to the caller, who will retry. */
  function Updated(st: HostSt, hist: seq<Obj>, r: Option<seq<Obj>>): (HostSt, seq<Obj>) {
    if r.Some? then (st.(pc := Idle), r.value)
    else (st.(pc := Idle, conflicts := st.conflicts + [st.seen]), hist)
  }

  /** The next call of the host's reconcile; a send on a full channel waits. */
  function HostStep(h: string, st: HostSt, hist: seq<Obj>): (HostSt, seq<Obj>)
    requires st.seen < |hist|
  {
    var o := hist[st.seen];
    match st.pc
    case Idle => (st, hist)
    case Registering => Updated(st, hist, Update(hist, st.seen, AddFinalizer(o.fins, FinName(h))))
    case Announcing =>
      (match Send(st, AddMsg(o.spec))
       case Some(st1) => (st1.(pc := Idle, log := Logged(st, Announced, o.spec)), hist)
       case None => (st, hist))
    case Cleaning => (st.(pc := Retiring, log := Logged(st, Cleaned, o.spec)), hist)
    case Retiring =>
      (match Send(st, RemoveMsg(o.spec))
       case Some(st1) => (st1.(pc := Releasing, log := Logged(st, Retired, o.spec)), hist)
       case None => (st, hist))
    case Releasing => Updated(st, hist, Update(hist, st.seen, RemoveFinalizer(o.fins, FinName(h))))
  }

  /** The lister takes the oldest message of one of its channels. */
  function Consumed(st: HostSt, fromAdd: bool): HostSt {
    if fromAdd && st.addQ != [] then st.(addQ := st.addQ[1..], consumed := st.consumed + [AddMsg(st.addQ[0])])
    else if !fromAdd && st.remQ != [] then st.(remQ := st.remQ[1..], consumed := st.consumed + [RemoveMsg(st.remQ[0])])
    else st
  }

  // ----- the whole system -----

  datatype Sys = Sys(hist: seq<Obj>, hosts: map<string, HostSt>)

  /** `Other` is the host's daemon sending a message about another LAN. */
  datatype Action =
    | Get(h: string, i: nat)
    | Act(h: string)
    | Other(h: string, msg: Msg)
    | Consume(h: string, fromAdd: bool)
    | UserDelete

  predicate WellFormed(s: Sys) {
    s.hist != [] && forall h :: h in s.hosts ==> s.hosts[h].seen < |s.hist|
  }

  /** An action that is not possible leaves everything as it is. */
  function Step(s: Sys, a: Action): (r: Sys)
    requires WellFormed(s)
    ensures WellFormed(r) && r.hosts.Keys == s.hosts.Keys
  {
    match a
    case Get(h, i) =>
      if h in s.hosts && s.hosts[h].pc.Idle? && s.hosts[h].seen <= i < |s.hist|
      then s.(hosts := s.hosts[h := s.hosts[h].(seen := i, pc := Decide(h, s.hist[i]))])
      else s
    case Act(h) =>
      if h in s.hosts then
        var (st, hist) := HostStep(h, s.hosts[h], s.hist);
        Sys(hist, s.hosts[h := st])
      else s
    case Other(h, m) =>
      if h in s.hosts && ForeignTo(s.hist[0].spec, m.spec) && Send(s.hosts[h], m).Some?
      then s.(hosts := s.hosts[h := Send(s.hosts[h], m).value])
      else s
    case Consume(h, fromAdd) =>
      if h in s.hosts then s.(hosts := s.hosts[h := Consumed(s.hosts[h], fromAdd)]) else s
    case UserDelete => s.(hist := Delete(s.hist))
  }

  function Run(s: Sys, acts: seq<Action>): (r: Sys)
    requires WellFormed(s)
    ensures WellFormed(r) && r.hosts.Keys == s.hosts.Keys
  {
    if acts == [] then s else Step(Run(s, acts[..|acts| - 1]), acts[|acts| - 1])
  }

  /** Versions are only ever added, one at a time. */
  lemma StepGrows(s: Sys, a: Action)
    requires WellFormed(s)
    ensures s.hist <= Step(s, a).hist && |Step(s, a).hist| <= |s.hist| + 1
  {
    hide FinName, AddFinalizer, RemoveFinalizer, Consumed, Decide;
  }

  lemma {:induction false} RunGrows(s: Sys, acts: seq<Action>)
    requires WellFormed(s)
    ensures s.hist <= Run(s, acts).hist
  {
    hide Step;
    if acts != [] {
      RunGrows(s, acts[..|acts| - 1]);
      StepGrows(Run(s, acts[..|acts| - 1]), acts[|acts| - 1]);
    }
  }

  lemma {:induction false} RunConcat(s: Sys, a: seq<Action>, b: seq<Action>)
    requires WellFormed(s)
    ensures Run(s, a + b) == Run(Run(s, a), b)
    decreases |b|
  {
    hide Step;
    if b == [] {
      assert a + b == a;
    } else {
      assert (a + b)[..|a + b| - 1] == a + b[..|b| - 1];
      RunConcat(s, a, b[..|b| - 1]);
    }
  }

  /** A spec as it is stored: admitted, and with the defaults filled in. */
  predicate Stored(spec: LANSpec) {
    Webhook.CreateAccepted(spec) && Webhook.Defaulted(spec) == spec
  }

  const FRESH := HostSt(Idle, 0, [], [], [], [], [], [])

  /** One admitted version, not registered with any of the hosts, and no host has done anything. */
  predicate Initial(s: Sys) {
    && |s.hist| == 1 && !s.hist[0].deleting && Stored(s.hist[0].spec)
    && (forall h :: h in s.hosts ==> s.hosts[h] == FRESH && FinName(h) !in s.hist[0].fins)
  }
}
