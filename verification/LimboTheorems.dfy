/**
 A port whose clearing process is killed before it ends: exactly when a port gets into that
 state, and that it never leaves it.
 */
module LimboTheorems {
  import opened QueueTables
  import opened KernelState
  import opened KernelInvariants
  import opened PortState
  import opened PortInvariants
  import opened Machine
  import opened PortTheorems

  /** Port i is in limbo and no process is on its way to bring it out. */
  ghost predicate Abandoned(s: Sys, i: int)
    requires SizedSys(s)
  {
    && 0 <= i < |s.pt.tab| && s.pt.tab[i].state == PtLimbo
    && (forall p :: 0 <= p < |s.k.conts| && s.k.conts[p].InClear? ==> s.k.conts[p].port != i)
  }

  lemma AbandonedStep(s: Sys, e: Event, i: int)
    requires Inv(s) && Enabled(s, e) && Abandoned(s, i)
    ensures Abandoned(Apply(s, e), i)
  {
    hide Inv, Apply;
    InvSized(s);
    TabLength(s, e);
    AbandonedState(s, e, i);
    NoClearer(s, e, i);
  }

  lemma NoClearer(s: Sys, e: Event, i: int)
    requires SizedSys(s) && Abandoned(s, i)
    ensures var r := Apply(s, e).k;
            forall p :: 0 <= p < |r.conts| && r.conts[p].InClear? ==> r.conts[p].port != i
  {
    hide KApply, Resumed;
    if KernelEvent(e) {
      if SemEvent(e) { SemEventSameConts(s.k, e); } else { ProcEventConts(s.k, e); }
    } else if e == Continue {
      ClearersResumed(s, i);
    } else {
      ClearersCalled(s, e, i);
    }
  }

  lemma AbandonedState(s: Sys, e: Event, i: int)
    requires SizedSys(s) && Abandoned(s, i)
    ensures |Apply(s, e).pt.tab| == |s.pt.tab| && Apply(s, e).pt.tab[i].state == PtLimbo
  {
    TabLength(s, e);
    hide KApply, SemWait, Signal, SemReset, SemDelete, SemCreate, KillEnd, AfterLoss, TakeMessage;
  }

  lemma ClearersResumed(s: Sys, i: int)
    requires SizedSys(s) && Abandoned(s, i)
    ensures var r := Resumed(s);
            forall p :: 0 <= p < |r.k.conts| && r.k.conts[p].InClear? ==> r.k.conts[p].port != i
  {
    hide Signal, SemReset, SemDelete, Append, TakeHead, NoneFreed, SameShape, AfterLoss, KillEnd;
    match s.k.conts[s.k.curr]
    case User(_) =>
    case InReceive => hide TakeMessage;
    case InRecvTime => hide TakeMessage;
    case InKill(v) =>
    case InSend(j, q, m) =>
    case InRecv(j, q) =>
    case InClear(j, ns, phase) =>
  }

  lemma ClearersCalled(s: Sys, e: Event, i: int)
    requires SizedSys(s) && Abandoned(s, i) && !KernelEvent(e) && e != Continue
    ensures var r := Apply(s, e);
            forall p :: 0 <= p < |r.k.conts| && r.k.conts[p].InClear? ==> r.k.conts[p].port != i
  {
    hide Apply;
    PortCallCont(s, e);
  }

  /** If the process that clears a port is killed before it ends, the port never becomes usable again. */
  lemma {:induction false} LimboForever(s: Sys, es: seq<Event>, i: int)
    requires Inv(s) && Run(s, es) && Abandoned(s, i)
    ensures Abandoned(After(s, es), i)
    decreases |es|
  {
    if es != [] {
      StepInv(s, es[0]);
      AbandonedStep(s, es[0], i);
      hide Inv, Apply, Enabled, Abandoned;
      LimboForever(Apply(s, es[0]), es[1..], i);
    }
  }

  // ----- when it happens

  /** p is in the middle of ptreset or ptdelete on port i. */
  ghost predicate Clears(k: KState, p: int, i: int) {
    0 <= p < |k.conts| && k.conts[p].InClear? && k.conts[p].port == i
  }

  /** The end of a kill whose victim is clearing port i. */
  ghost predicate KillsClearer(s: Sys, e: Event, i: int)
    requires SizedSys(s)
  {
    e == Continue && s.k.conts[s.k.curr].InKill? && Clears(s.k, s.k.conts[s.k.curr].victim, i)
  }

  lemma VictimClears(s: Sys, i: int)
    requires Inv(s) && KillsClearer(s, Continue, i)
    ensures Abandoned(Resumed(s), i)
  {
    hide KInv, SemOk, PortOk, NodesOk, KillEnd, AfterLoss, Shapes, SameShape;
    var v := s.k.conts[s.k.curr].victim;
    assert ContOk(W(s.k), s.pt, s.owner, s.k.conts[v]);
    VictimGone(s.k, v);
  }

  lemma VictimGone(k: KState, v: int)
    requires Sized(k) && 0 <= v < |k.procs|
    ensures KillEnd(k, v).conts == k.conts[k.curr := User(OK)][v := User(OK)]
  {
    hide KillEnd;
  }

  /** The process that clears port i goes on clearing it until it has brought it out of limbo. */
  lemma ClearerGoesOn(s: Sys, p: int, i: int)
    requires Inv(s) && Clears(s.k, p, i) && !KillsClearer(s, Continue, i)
    ensures !Abandoned(Resumed(s), i)
  {
    hide Inv, KillEnd, AfterLoss;
    InvSized(s);
    if s.k.conts[s.k.curr].InKill? {
      VictimInTable(s);
      VictimGone(s.k, s.k.conts[s.k.curr].victim);
      assert Clears(Resumed(s).k, p, i);
    } else if p != s.k.curr {
      ResumedConts(s);
      hide Resumed;
      assert Clears(Resumed(s).k, p, i);
    } else {
      OwnClearEnd(s, i);
    }
  }

  lemma VictimInTable(s: Sys)
    requires Inv(s) && s.k.conts[s.k.curr].InKill?
    ensures 0 < s.k.conts[s.k.curr].victim < |s.k.procs|
  {
    hide KInv, PInv;
  }

  lemma OwnClearEnd(s: Sys, i: int)
    requires Inv(s) && Clears(s.k, s.k.curr, i)
    ensures !Abandoned(Resumed(s), i)
  {
    hide Inv, SemReset, SemDelete, SameShape, NoneFreed;
    InvSized(s);
    var c := s.k.conts[s.k.curr];
    ClearerFacts(s, i, c.newstate, c.phase);
    if c.phase == 1 {
      assert Clears(Resumed(s).k, s.k.curr, i);
    }
  }

  /** No other event takes port i's clearing process away. */
  lemma ClearerStays(s: Sys, e: Event, p: int, i: int)
    requires Inv(s) && Enabled(s, e) && Clears(s.k, p, i) && e != Continue
    ensures !Abandoned(Apply(s, e), i)
  {
    hide KInv, PInv, Apply, KApply;
    if KernelEvent(e) {
      if SemEvent(e) { SemEventSameConts(s.k, e); } else { ProcEventConts(s.k, e); }
      assert Apply(s, e).k == KApply(s.k, e) by { KernelApply(s, e); }
    } else {
      PortCallCont(s, e);
    }
    assert Clears(Apply(s, e).k, p, i);
  }

  lemma KernelApply(s: Sys, e: Event)
    requires SizedSys(s) && KernelEvent(e)
    ensures Apply(s, e) == s.(k := KApply(s.k, e))
  {
    hide KApply;
  }

  /** A port that is not in limbo gets there only as the caller's own work in hand. */
  lemma LimboEntered(s: Sys, e: Event, i: int)
    requires Inv(s) && 0 <= i < |s.pt.tab| && s.pt.tab[i].state != PtLimbo
    ensures !Abandoned(Apply(s, e), i)
  {
    hide Inv, Resumed, KApply;
    InvSized(s);
    if e == Continue {
      StaysOut(s, i);
    } else {
      LimboByCall(s, e, i);
    }
  }

  lemma LimboByCall(s: Sys, e: Event, i: int)
    requires SizedSys(s) && e != Continue && 0 <= i < |s.pt.tab| && s.pt.tab[i].state != PtLimbo
    ensures !Abandoned(Apply(s, e), i)
  {
    hide KApply, SemWait, Signal, SemReset, SemDelete, SemCreate, FindPort;
    if EndsEpoch(e, i) && IsOpen(s.pt, i) {
      assert Clears(Apply(s, e).k, s.k.curr, i);
    }
  }

  lemma StaysOut(s: Sys, i: int)
    requires Inv(s) && 0 <= i < |s.pt.tab| && s.pt.tab[i].state != PtLimbo
    ensures |Resumed(s).pt.tab| == |s.pt.tab| && Resumed(s).pt.tab[i].state != PtLimbo
  {
    hide Inv, Signal, SemReset, SemDelete, KillEnd, AfterLoss, TakeMessage;
    InvSized(s);
    var c := s.k.conts[s.k.curr];
    if c.InClear? {
      ClearerFacts(s, c.port, c.newstate, c.phase);
    }
  }

  lemma InLimboCleared(s: Sys, i: int)
    requires SizedSys(s) && 0 <= i < |s.pt.tab| && s.pt.tab[i].state == PtLimbo && !Abandoned(s, i)
    ensures exists p :: Clears(s.k, p, i)
  {
    var p :| 0 <= p < |s.k.conts| && s.k.conts[p].InClear? && s.k.conts[p].port == i;
    assert Clears(s.k, p, i);
  }

  lemma KillIsContinue(s: Sys, e: Event, i: int)
    requires SizedSys(s) && KillsClearer(s, e, i)
    ensures e == Continue && Apply(s, e) == Resumed(s)
  {
    hide Resumed;
  }

  /** A step strands a port exactly if it kills the process that is clearing it. */
  lemma StrandedByKill(s: Sys, e: Event, i: int)
    requires Inv(s) && Enabled(s, e) && 0 <= i < |s.pt.tab| && !Abandoned(s, i)
    ensures Abandoned(Apply(s, e), i) <==> KillsClearer(s, e, i)
  {
    hide Inv, Abandoned, KillsClearer, Clears, Resumed, KApply;
    InvSized(s);
    if KillsClearer(s, e, i) {
      KillIsContinue(s, e, i);
      VictimClears(s, i);
    } else if s.pt.tab[i].state != PtLimbo {
      LimboEntered(s, e, i);
    } else {
      InLimboCleared(s, i);
      var p :| Clears(s.k, p, i);
      if e == Continue {
        ClearerGoesOn(s, p, i);
      } else {
        ClearerStays(s, e, p, i);
      }
    }
  }

  /** Somewhere in the run the process that is clearing port i is killed. */
  ghost predicate ClearerKilled(s: Sys, es: seq<Event>, i: int)
    requires SizedSys(s)
    decreases |es|
  {
    es != [] && (KillsClearer(s, es[0], i) || ClearerKilled(Apply(s, es[0]), es[1..], i))
  }

  /** A run leaves a port stranded exactly if somewhere in it the process that was clearing the port
      was killed. */
  lemma {:induction false} StrandedExactly(s: Sys, es: seq<Event>, i: int)
    requires Inv(s) && Run(s, es) && 0 <= i < |s.pt.tab| && !Abandoned(s, i)
    ensures Abandoned(After(s, es), i) <==> ClearerKilled(s, es, i)
    decreases |es|
  {
    hide Inv, Abandoned, KillsClearer, Apply, Enabled;
    InvSized(s);
    if es != [] {
      StepInv(s, es[0]);
      StrandedByKill(s, es[0], i);
      TabLength(s, es[0]);
      if KillsClearer(s, es[0], i) {
        LimboForever(Apply(s, es[0]), es[1..], i);
      } else {
        StrandedExactly(Apply(s, es[0]), es[1..], i);
      }
    }
  }

  /** From the start of the system: a port in limbo has its one clearing process, which will bring it
      out, unless a clearing process of that port has been killed; then it has none for ever. */
  lemma LimboHasClearer(nproc: nat, nsem: nat, quantum: int, nports: nat, maxmsgs: nat, es: seq<Event>, i: int)
    requires nproc > 0 && quantum > 0 && Run(Start(nproc, nsem, quantum, nports, maxmsgs), es)
    requires var s := After(Start(nproc, nsem, quantum, nports, maxmsgs), es);
             0 <= i < |s.pt.tab| && s.pt.tab[i].state == PtLimbo
    ensures var s0 := Start(nproc, nsem, quantum, nports, maxmsgs);
            (exists p :: Clears(After(s0, es).k, p, i)) <==> !ClearerKilled(s0, es, i)
  {
    hide Inv, Run, After, ClearerKilled, Abandoned;
    var s0 := Start(nproc, nsem, quantum, nports, maxmsgs);
    StartInv(nproc, nsem, quantum, nports, maxmsgs);
    SameTable(s0, es);
    StartFree(nproc, nsem, quantum, nports, maxmsgs, i);
    StrandedExactly(s0, es, i);
    AbandonedIs(After(s0, es), i);
  }

  lemma AbandonedIs(s: Sys, i: int)
    requires SizedSys(s) && 0 <= i < |s.pt.tab| && s.pt.tab[i].state == PtLimbo
    ensures Abandoned(s, i) <==> !(exists p :: Clears(s.k, p, i))
  {
    if !Abandoned(s, i) {
      InLimboCleared(s, i);
    }
  }

  lemma StartFree(nproc: nat, nsem: nat, quantum: int, nports: nat, maxmsgs: nat, i: int)
    requires nproc > 0 && quantum > 0
    requires 0 <= i < |Start(nproc, nsem, quantum, nports, maxmsgs).pt.tab|
    ensures !Abandoned(Start(nproc, nsem, quantum, nports, maxmsgs), i)
  {
  }
}
