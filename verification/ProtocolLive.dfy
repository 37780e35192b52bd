/** A deleted LAN object is removed in the end, if the hosts registered with it keep reconciling. */
module ProtocolLive {
  import opened Protocol
  import opened ProtocolHistory
  import opened ProtocolInv

  ghost predicate StepsTo(s: Sys, a: Action, r: Sys) {
    WellFormed(s) && r == Step(s, a)
  }

  /** An endless run. */
  ghost predicate Trace(tr: nat -> Sys, acts: nat -> Action) {
    Initial(tr(0)) && forall i: nat :: StepsTo(tr(i), acts(i), tr(i + 1))
  }

  ghost predicate ReadsNewest(s: Sys, a: Action, h: string) {
    h in s.hosts && s.hosts[h].pc.Idle? && s.hist != [] && a == Get(h, |s.hist| - 1)
  }

  ghost predicate ReadsAfter(tr: nat -> Sys, acts: nat -> Action, h: string, n: nat) {
    exists m: nat :: n <= m && ReadsNewest(tr(m), acts(m), h)
  }

  /** Again and again the host begins a reconcile with the newest version (so it also ends each one it began). */
  ghost predicate KeepsReconciling(tr: nat -> Sys, acts: nat -> Action, h: string) {
    forall n: nat :: ReadsAfter(tr, acts, h, n)
  }

  /** Every host that is ever registered with the object. */
  ghost predicate RegisteredKeepReconciling(tr: nat -> Sys, acts: nat -> Action) {
    forall h, i: nat :: h in tr(i).hosts && tr(i).hist != [] && FinName(h) in Last(tr(i).hist).fins ==>
      KeepsReconciling(tr, acts, h)
  }

  lemma {:induction false} TraceInv(tr: nat -> Sys, acts: nat -> Action, i: nat)
    requires Trace(tr, acts)
    ensures WellFormed(tr(i)) && Inv(tr(i)) && tr(i).hosts.Keys == tr(0).hosts.Keys
    ensures tr(i).hist[0] == tr(0).hist[0]
    ensures History(tr(0).hosts.Keys, tr(i).hist)
  {
    hide Inv, Initial, Step;
    if i == 0 {
      InitialInv(tr(0));
    } else {
      TraceInv(tr, acts, i - 1);
      assert StepsTo(tr(i - 1), acts(i - 1), tr(i - 1 + 1));
      StepKeeps(tr(i - 1), acts(i - 1));
      StepGrows(tr(i - 1), acts(i - 1));
    }
    HistoryHere(tr(i));
  }

  lemma HistoryHere(s: Sys)
    requires Inv(s)
    ensures History(s.hosts.Keys, s.hist)
  {
  }

  lemma {:induction false} HistGrows(tr: nat -> Sys, acts: nat -> Action, i: nat, j: nat)
    requires Trace(tr, acts) && i <= j
    ensures tr(i).hist <= tr(j).hist
    decreases j - i
  {
    hide Initial, Step;
    if i < j {
      HistGrows(tr, acts, i, j - 1);
      assert StepsTo(tr(j - 1), acts(j - 1), tr(j - 1 + 1));
      StepGrows(tr(j - 1), acts(j - 1));
    }
  }

  // ----- one host -----

  /** Working on the newest version, with its finalizer in it. */
  ghost predicate BusyWith(s: Sys, h: string, hist: seq<Obj>) {
    && h in s.hosts && s.hist == hist && hist != [] && s.hosts[h].seen == |hist| - 1
    && s.hosts[h].pc in {Cleaning, Retiring, Releasing}
  }

  /** Such a host stays at it until someone writes, and if it is the one to go on, it writes itself. */
  lemma BusyUntilWritten(s: Sys, a: Action, h: string, hist: seq<Obj>)
    requires Inv(s) && WellFormed(s) && BusyWith(s, h, hist)
    ensures BusyWith(Step(s, a), h, hist) || |Step(s, a).hist| > |hist|
  {
    hide HostInv, FinName, Update, Delete;
    var st := s.hosts[h];
    StepGrows(s, a);
    PcOf(h, st, hist);
    AdmissionNeverBlocks(s.hosts.Keys, hist, st.seen, RemoveFinalizer(hist[st.seen].fins, FinName(h)));
  }

  lemma ReadIsBusy(s: Sys, a: Action, h: string)
    requires WellFormed(s) && ReadsNewest(s, a, h) && Last(s.hist).deleting && FinName(h) in Last(s.hist).fins
    ensures BusyWith(Step(s, a), h, s.hist)
  {
  }

  lemma {:induction false} StaysBusy(tr: nat -> Sys, acts: nat -> Action, h: string, hist: seq<Obj>, i: nat, j: nat)
    requires Trace(tr, acts) && i <= j && BusyWith(tr(i), h, hist)
    ensures BusyWith(tr(j), h, hist) || |tr(j).hist| > |hist|
    decreases j - i
  {
    hide Initial, Step, Inv, BusyWith;
    if i < j {
      StaysBusy(tr, acts, h, hist, i, j - 1);
      assert StepsTo(tr(j - 1), acts(j - 1), tr(j - 1 + 1));
      if BusyWith(tr(j - 1), h, hist) {
        TraceInv(tr, acts, j - 1);
        BusyUntilWritten(tr(j - 1), acts(j - 1), h, hist);
      } else {
        HistGrows(tr, acts, j - 1, j);
      }
    }
  }

  /**
   While a host that keeps reconciling holds a deleted object, there is another write: its own, or one that
   makes it try again.
   */
  lemma AnotherWrite(tr: nat -> Sys, acts: nat -> Action, h: string, n: nat) returns (m: nat)
    requires Trace(tr, acts) && KeepsReconciling(tr, acts, h)
    requires tr(n).hist != [] && Last(tr(n).hist).deleting && FinName(h) in Last(tr(n).hist).fins
    ensures n <= m && |tr(m).hist| > |tr(n).hist|
  {
    hide Initial, Step, Inv, FinName, BusyWith, ReadsNewest, History;
    assert ReadsAfter(tr, acts, h, n);
    var i: nat :| n <= i && ReadsNewest(tr(i), acts(i), h);
    HistGrows(tr, acts, n, i);
    if |tr(i).hist| > |tr(n).hist| { return i; }
    assert tr(i).hist == tr(n).hist;
    assert StepsTo(tr(i), acts(i), tr(i + 1));
    ReadIsBusy(tr(i), acts(i), h);
    assert ReadsAfter(tr, acts, h, i + 1);
    m :| i + 1 <= m && ReadsNewest(tr(m), acts(m), h);
    StaysBusy(tr, acts, h, tr(n).hist, i + 1, m);
    IdleNotBusy(tr(m), acts(m), h, tr(n).hist);
  }

  lemma IdleNotBusy(s: Sys, a: Action, h: string, hist: seq<Obj>)
    requires ReadsNewest(s, a, h)
    ensures !BusyWith(s, h, hist)
  {
  }

  // ----- the object -----

  /** Someone registered still holds it, unless it is gone. */
  lemma HolderOf(tr: nat -> Sys, acts: nat -> Action, n: nat) returns (h: string)
    requires Trace(tr, acts) && tr(0).hist != [] && tr(0).hist[0].fins == []
    requires tr(n).hist != [] && Last(tr(n).hist).deleting && !Gone(Last(tr(n).hist))
    ensures h in tr(n).hosts && FinName(h) in Last(tr(n).hist).fins
  {
    hide Initial, Inv, FinName, History;
    TraceInv(tr, acts, n);
    var f := Last(tr(n).hist).fins[0];
    OnlyHosts(tr(0).hosts.Keys, tr(n).hist, |tr(n).hist| - 1, f);
    h :| h in tr(0).hosts.Keys && f == FinName(h);
  }

  /**
   In every endless run, a LAN that is being deleted is gone at some later time, if every host registered with
   it keeps reconciling.
   */
  lemma {:induction false} EventuallyGone(tr: nat -> Sys, acts: nat -> Action, n: nat) returns (m: nat)
    requires Trace(tr, acts) && RegisteredKeepReconciling(tr, acts)
    requires tr(0).hist != [] && tr(0).hist[0].fins == []
    requires tr(n).hist != [] && Last(tr(n).hist).deleting
    ensures n <= m && tr(m).hist != [] && Gone(Last(tr(m).hist))
    decreases 2 * |tr(0).hosts| + 2 - |tr(n).hist|
  {
    hide Initial, Step, Inv, FinName, History, KeepsReconciling;
    m := n;
    if !Gone(Last(tr(n).hist)) {
      var h := HolderOf(tr, acts, n);
      var k := AnotherWrite(tr, acts, h, n);
      TraceInv(tr, acts, n);
      TraceInv(tr, acts, k);
      HistGrows(tr, acts, n, k);
      SpecConstant(tr(0).hosts.Keys, tr(k).hist, |tr(n).hist| - 1, |tr(k).hist| - 1);
      WritesBounded(tr(0).hosts.Keys, tr(k).hist);
      assert |tr(0).hosts.Keys| == |tr(0).hosts|;
      m := EventuallyGone(tr, acts, k);
    }
  }
}
