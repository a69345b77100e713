/**
 One-slot messages over whole runs: a message stays in its slot until its owner takes it, and
 receive never returns without one.
 */
module MessageTheorems {
  import opened Sequences
  import opened QueueTables
  import opened KernelState
  import opened KernelInvariants
  import opened PortState
  import opened PortInvariants
  import opened Machine
  import PortTheorems

  /** The slot is as it was, and the process neither began nor ended to wait for a message, unless
      its time was up. */
  predicate SlotKept(a: Proc, b: Proc) {
    && b.hasmsg == a.hasmsg && b.msg == a.msg
    && (a.state == Recv <==> b.state == Recv) && (b.state == RecTim ==> a.state == RecTim)
  }

  ghost predicate Slots(k: KState, r: KState) {
    |r.procs| == |k.procs| && forall p :: 0 <= p < |k.procs| ==> SlotKept(k.procs[p], r.procs[p])
  }

  lemma SlotsTrans(a: KState, b: KState, c: KState)
    requires Slots(a, b) && Slots(b, c)
    ensures Slots(a, c)
  {
    assert forall p :: 0 <= p < |a.procs| ==> SlotKept(a.procs[p], b.procs[p]) && SlotKept(b.procs[p], c.procs[p]);
  }

  lemma SameProcs(k: KState, r: KState)
    requires r.procs == k.procs
    ensures Slots(k, r)
  {
  }

  // ----- the scheduler, semaphores and the clock

  lemma DispatchSlots(k: KState)
    requires Base(k, -1) && k.ndefers == 0
    ensures Slots(k, Dispatch(k))
  {
    if k.ready != [] {
      BaseLists(k, k.ready[0]);
    }
    hide OnLists, ReadySorted, NullRuns;
  }

  lemma InsertSlots(k: KState, p: int)
    requires Sized(k) && 0 <= p < |k.procs| && k.procs[p].state != Recv
    ensures Slots(k, InsertReady(k, p))
  {
    hide InsertList;
  }

  lemma ReschedSlots(k: KState)
    requires Base(k, -1)
    ensures Slots(k, Resched(k))
  {
    hide OnLists, ReadySorted, NullRuns, InsertReady, Dispatch;
    if k.ndefers == 0 {
      if k.procs[k.curr].state == Curr {
        LiftCurr(k);
        InsertReadyBase(k, k.curr);
        InsertSlots(k, k.curr);
        DispatchSlots(InsertReady(k, k.curr));
        SlotsTrans(k, InsertReady(k, k.curr), Dispatch(InsertReady(k, k.curr)));
      } else {
        DispatchSlots(k);
      }
    }
    hide Slots;
    SameProcs(k, k.(attempt := true));
    SameProcs(k, k);
  }

  lemma ReadySlots(k: KState, p: int)
    requires Base(k, p) && 0 <= p < |k.procs| && k.procs[p].state != Free && k.procs[p].state != Recv
    ensures Slots(k, ReadyProc(k, p))
  {
    hide Base, Resched, InsertReady, Slots;
    BaseSized(k, p);
    InsertReadyBase(k, p);
    InsertSlots(k, p);
    ReschedSlots(InsertReady(k, p));
    SlotsTrans(k, InsertReady(k, p), Resched(InsertReady(k, p)));
  }

  lemma DeferStopSlots(k: KState)
    requires AtRest(k)
    ensures Slots(k, DeferStop(k))
  {
    hide AtRest, Resched, Slots, Base;
    RestSized(k);
    SameProcs(k, k);
    SameProcs(k, k.(ndefers := k.ndefers - 1));
    if k.ndefers == 1 && k.attempt {
      RestBase(k);
      BaseFrame(k, k.(ndefers := 0), -1);
      ReschedSlots(k.(ndefers := 0));
      SameProcs(k, k.(ndefers := 0));
      SlotsTrans(k, k.(ndefers := 0), Resched(k.(ndefers := 0)));
    }
  }

  lemma ReleaseSlots(k: KState, s: int)
    requires AtRest(k) && 0 <= s < |k.sems| && k.sq[s] != []
    ensures Slots(k, ReleaseHead(k, s))
  {
    hide AtRest, ReadyProc, Slots, Base;
    RestSized(k);
    var k1 := k.(sq := k.sq[s := k.sq[s][1..]]);
    ReleaseBase(k, s);
    ReadySlots(k1, k.sq[s][0]);
    SameProcs(k, k1);
    SlotsTrans(k, k1, ReadyProc(k1, k.sq[s][0]));
  }

  lemma SignalOneSlots(k: KState, s: int)
    requires AtRest(k) && 0 <= s < |k.sems|
    ensures Slots(k, SignalOne(k, s))
  {
    hide AtRest, ReleaseHead, Slots;
    RestSized(k);
    var k1 := SetCount(k, s, k.sems[s].count + 1);
    RestFrame(k, k1);
    SameProcs(k, k1);
    if k.sems[s].count < 0 && k.sq[s] != [] {
      ReleaseSlots(k1, s);
      SlotsTrans(k, k1, ReleaseHead(k1, s));
    }
  }

  lemma {:induction false} SignalTimesSlots(k: KState, s: int, n: nat)
    requires AtRest(k) && SemExact(k, -1) && 0 <= s < |k.sems|
    ensures Slots(k, SignalTimes(k, s, n))
    decreases n
  {
    hide AtRest, SemExact, SignalOne, Slots;
    RestSized(k);
    SameProcs(k, k);
    if n > 0 {
      SignalOneRest(k, s);
      SignalOneSlots(k, s);
      SignalTimesSlots(SignalOne(k, s), s, n - 1);
      SlotsTrans(k, SignalOne(k, s), SignalTimes(k, s, n));
    }
  }

  lemma {:induction false} DrainSlots(k: KState, s: int)
    requires AtRest(k) && 0 <= s < |k.sems|
    ensures Slots(k, Drain(k, s))
    decreases |k.sq[s]|
  {
    hide AtRest, ReleaseHead, Slots;
    RestSized(k);
    SameProcs(k, k);
    if k.sq[s] != [] {
      ReleaseRest(k, s);
      ReleaseSlots(k, s);
      DrainSlots(ReleaseHead(k, s), s);
      SlotsTrans(k, ReleaseHead(k, s), Drain(k, s));
    }
  }

  lemma {:induction false} DrainCountSlots(k: KState, s: int)
    requires AtRest(k) && 0 <= s < |k.sems|
    requires if k.sems[s].count < 0 then |k.sq[s]| == -k.sems[s].count else k.sq[s] == []
    ensures Slots(k, DrainCount(k, s))
    decreases if k.sems[s].count < 0 then -k.sems[s].count else 0
  {
    hide AtRest, ReadyProc, Slots;
    RestSized(k);
    var k1 := SetCount(k, s, k.sems[s].count + 1);
    RestFrame(k, k1);
    SameProcs(k, k1);
    if k.sems[s].count < 0 {
      ReleaseRest(k1, s);
      ReleaseSlots(k1, s);
      DrainCountSlots(ReleaseHead(k1, s), s);
      SlotsTrans(k, k1, ReleaseHead(k1, s));
      SlotsTrans(k, ReleaseHead(k1, s), DrainCount(k, s));
    }
  }

  lemma SignalCallSlots(k: KState, s: int, n: int)
    requires AtRest(k) && SemExact(k, -1)
    ensures Slots(k, Signal(k, s)) && Slots(k, Signaln(k, s, n))
  {
    hide AtRest, SemExact, SignalOne, SignalTimes, DeferStop, Slots;
    RestSized(k);
    SameProcs(k, k);
    if !BadSem(k, s) {
      SignalOneSlots(k, s);
      if n >= 0 {
        var k1 := DeferStart(k);
        DeferStartRest(k);
        ExactFrame(k, k1);
        SameProcs(k, k1);
        SignalTimesRest(k1, s, n);
        SignalTimesSlots(k1, s, n);
        DeferStopSlots(SignalTimes(k1, s, n));
        SlotsTrans(k, k1, SignalTimes(k1, s, n));
        SlotsTrans(k, SignalTimes(k1, s, n), Signaln(k, s, n));
      }
    }
  }

  lemma SemWaitSlots(k: KState, s: int)
    requires AtRest(k) && k.curr != NULLPROC
    ensures Slots(k, SemWait(k, s))
  {
    hide AtRest, Base, Resched, Slots, BlockOn;
    RestSized(k);
    SameProcs(k, k);
    if !BadSem(k, s) {
      var k1 := SetCount(k, s, k.sems[s].count - 1);
      RestFrame(k, k1);
      SameProcs(k, k1);
      if k1.sems[s].count < 0 {
        BlockOnBase(k1, s);
        BlockOnSlots(k1, s);
        ReschedSlots(BlockOn(k1, s));
        SlotsTrans(k, k1, BlockOn(k1, s));
        SlotsTrans(k, BlockOn(k1, s), Resched(BlockOn(k1, s)));
      }
    }
  }

  lemma BlockOnSlots(k: KState, s: int)
    requires AtRest(k) && 0 <= s < |k.sems|
    ensures Slots(k, BlockOn(k, s))
  {
    hide Base, Sched;
  }

  lemma ResetCallSlots(k: KState, s: int, c: int)
    requires AtRest(k)
    ensures Slots(k, SemReset(k, s, c))
  {
    hide AtRest, Drain, DeferStop, Slots;
    RestSized(k);
    SameProcs(k, k);
    if c >= 0 && !BadSem(k, s) {
      var k1 := DeferStart(k);
      var k2 := Drain(k1, s);
      var k3 := SetCount(k2, s, c);
      DeferStartRest(k);
      SameProcs(k, k1);
      DrainRest(k1, s);
      DrainSlots(k1, s);
      RestFrame(k2, k3);
      SameProcs(k2, k3);
      DeferStopSlots(k3);
      SlotsTrans(k, k1, k2);
      SlotsTrans(k, k2, k3);
      SlotsTrans(k, k3, DeferStop(k3));
    }
  }

  lemma DeleteCallSlots(k: KState, s: int)
    requires AtRest(k) && SemExact(k, -1)
    ensures Slots(k, SemDelete(k, s))
  {
    hide AtRest, DrainCount, DeferStop, Slots;
    RestSized(k);
    SameProcs(k, k);
    if !BadSem(k, s) {
      var k0 := k.(sems := k.sems[s := k.sems[s].(used := false)]);
      var k1 := DeferStart(k0);
      var k2 := DrainCount(k1, s);
      RestFrame(k, k0);
      DeferStartRest(k0);
      SameProcs(k, k1);
      DrainCountRest(k1, s);
      DrainCountSlots(k1, s);
      DeferStopSlots(k2);
      SlotsTrans(k, k1, k2);
      SlotsTrans(k, k2, DeferStop(k2));
    }
  }

  lemma OneState(k: KState, p: int, st: PrState)
    requires Sized(k) && 0 <= p < |k.procs| && k.procs[p].state != Recv && st != Recv && st != RecTim
    ensures Slots(k, SetState(k, p, st))
  {
  }

  lemma SuspendSlots(k: KState, p: int)
    requires AtRest(k)
    ensures Slots(k, Suspend(k, p))
  {
    hide Resched, OnLists, ReadySorted, Sched, Slots, Without;
    RestSized(k);
    SameProcs(k, k);
    if !BadPid(k, p) && p != NULLPROC && Runs(k.procs[p].state) {
      StateFacts(k, p);
      OneState(k, p, Susp);
      if k.procs[p].state == Curr {
        CurrLeaves(k, Susp);
        ReschedSlots(SetState(k, p, Susp));
        SlotsTrans(k, SetState(k, p, Susp), Resched(SetState(k, p, Susp)));
      } else {
        SameProcs(SetState(k, p, Susp), Suspend(k, p));
        SlotsTrans(k, SetState(k, p, Susp), Suspend(k, p));
      }
    }
  }

  lemma ResumeSlots(k: KState, p: int)
    requires AtRest(k)
    ensures Slots(k, Resume(k, p))
  {
    hide OnLists, ReadySorted, ReadyProc, Sched, Slots;
    SameProcs(k, k);
    if !BadPid(k, p) && k.procs[p].state == Susp {
      StateFacts(k, p);
      ReadySlots(k, p);
    }
  }

  lemma YieldSlots(k: KState)
    requires AtRest(k)
    ensures Slots(k, Resched(k))
  {
    hide *;
    RestBase(k);
    ReschedSlots(k);
  }

  lemma SleepSlots(k: KState, delay: int)
    requires AtRest(k) && (delay > 0 ==> k.ndefers == 0 && k.curr != NULLPROC)
    ensures Slots(k, SleepMs(k, delay))
  {
    hide AtRest, Base, Resched, Slots, FallAsleep;
    RestSized(k);
    SameProcs(k, k);
    YieldSlots(k);
    if delay > 0 {
      var m := FallAsleep(k, Sleep, delay);
      FallAsleepBase(k, Sleep, delay);
      AsleepSlots(k, delay);
      ReschedSlots(m);
      SlotsTrans(k, m, Resched(m));
    }
  }

  lemma AsleepSlots(k: KState, delay: int)
    requires AtRest(k)
    ensures Slots(k, FallAsleep(k, Sleep, delay))
  {
    hide Base, Sched, DeltaList, DeltaKeys;
  }

  lemma {:induction false} WakeAllSlots(k: KState)
    requires AtRest(k)
    ensures Slots(k, WakeAll(k))
    decreases |k.sleepq|
  {
    hide AtRest, ReadyProc, Slots;
    RestSized(k);
    SameProcs(k, k);
    if k.sleepq != [] && k.key[k.sleepq[0]] <= 0 {
      var m, p := k.(sleepq := k.sleepq[1..]), k.sleepq[0];
      WakeHeadBase(k);
      WakeHeadRest(k);
      SameProcs(k, m);
      ReadySlots(m, p);
      SlotsTrans(k, m, ReadyProc(m, p));
      WakeAllSlots(ReadyProc(m, p));
      SlotsTrans(k, ReadyProc(m, p), WakeAll(k));
    }
  }

  lemma TickSlots(k: KState)
    requires AtRest(k)
    ensures Slots(k, Tick(k))
  {
    hide AtRest, TickSleepers, TickPreempt, Slots;
    RestSized(k);
    var k1 := CountTime(k);
    var k2 := TickSleepers(k1);
    RestFrame(k, k1);
    SameProcs(k, k1);
    TickSleepersRest(k1);
    TickSleepersSlots(k1);
    PreemptSlots(k2);
    SlotsTrans(k, k1, k2);
    SlotsTrans(k, k2, TickPreempt(k2));
  }

  lemma TickSleepersSlots(k: KState)
    requires AtRest(k)
    ensures Slots(k, TickSleepers(k))
  {
    hide AtRest, WakeAll, DeferStop, Slots;
    RestSized(k);
    SameProcs(k, k);
    if k.sleepq != [] {
      var k1 := LowerHead(k);
      LowerHeadRest(k);
      SameProcs(k, k1);
      if k1.key[k1.sleepq[0]] == 0 {
        var k2 := DeferStart(k1);
        DeferStartRest(k1);
        SameProcs(k, k2);
        WakeAllSlots(k2);
        WakeAllRest(k2);
        DeferStopSlots(WakeAll(k2));
        SlotsTrans(k, k2, WakeAll(k2));
        SlotsTrans(k, WakeAll(k2), DeferStop(WakeAll(k2)));
      }
    }
  }

  lemma PreemptSlots(k: KState)
    requires AtRest(k)
    ensures Slots(k, TickPreempt(k))
  {
    hide AtRest, Resched, Slots;
    RestSized(k);
    var k1 := k.(preempt := k.quantum);
    RestFrame(k, k1);
    YieldSlots(k1);
    SameProcs(k, k1);
    SlotsTrans(k, k1, Resched(k1));
    SameProcs(k, k.(preempt := k.preempt - 1));
  }

  // ----- receivers

  /** A process that waits for a message has none; one that is past the wait of receive has one. */
  ghost predicate ReceiverOk(k: KState, p: int)
    requires Sized(k) && 0 <= p < |k.procs|
  {
    var pr, c := k.procs[p], k.conts[p];
    && (pr.state == Recv ==> c == InReceive && !pr.hasmsg)
    && (pr.state == RecTim ==> c == InRecvTime && !pr.hasmsg)
    && (c == InReceive && pr.state != Recv ==> pr.hasmsg)
  }

  ghost predicate ReceiversOk(k: KState)
    requires Sized(k)
  {
    forall p :: 0 <= p < |k.procs| ==> ReceiverOk(k, p)
  }

  /** The step neither begins nor ends a receive. */
  ghost predicate ContsKept(k: KState, r: KState)
    requires Sized(k)
  {
    |r.conts| == |k.conts| && forall p :: 0 <= p < |k.conts| ==>
      r.conts[p] == k.conts[p] || (k.procs[p].state != Recv && k.procs[p].state != RecTim
                                   && r.conts[p] != InReceive && r.conts[p] != InRecvTime)
  }

  lemma ReceiversKept(k: KState, r: KState)
    requires Sized(k) && Sized(r) && ReceiversOk(k) && Slots(k, r) && ContsKept(k, r)
    ensures ReceiversOk(r)
  {
    forall p | 0 <= p < |r.procs| ensures ReceiverOk(r, p) {
      assert ReceiverOk(k, p) && SlotKept(k.procs[p], r.procs[p]);
    }
  }

  // ----- calls that concern messages

  /** What may happen to the message slot of p in one step: nothing, a delivery into an empty slot,
      or its owner taking the message; a new process starts with an empty slot. */
  ghost predicate SlotStepOk(s: Sys, e: Event, r: Sys, p: int)
    requires SizedSys(s) && SizedSys(r) && |r.k.procs| == |s.k.procs| && 0 <= p < |s.k.procs|
  {
    var a, b := s.k.procs[p], r.k.procs[p];
    || (b.hasmsg == a.hasmsg && b.msg == a.msg)
    || (!a.hasmsg && b.hasmsg && (e == SendTo(p, b.msg)
                                  || (e.KillProc? && b.msg == e.pid && !BadPid(s.k, e.pid)
                                        && s.k.procs[e.pid].parent == p)))
    || (a.hasmsg && !b.hasmsg && e == Continue && p == s.k.curr && r.k.conts[p] == User(a.msg)
        && (s.k.conts[p] == InReceive || s.k.conts[p] == InRecvTime))
    || (e.CreateProc? && a.state == Free && !b.hasmsg)
  }

  /** Nothing but p's message slot has changed, and that only by a delivery of m. */
  ghost predicate Delivered(k: KState, r: KState, q: int, m: int) {
    && |r.procs| == |k.procs|
    && (forall p :: 0 <= p < |k.procs| ==>
          || (r.procs[p].hasmsg == k.procs[p].hasmsg && r.procs[p].msg == k.procs[p].msg)
          || (p == q && !BadPid(k, q) && !k.procs[q].hasmsg && r.procs[p].hasmsg && r.procs[p].msg == m))
  }

  lemma DeliveredLater(k: KState, n: KState, r: KState, q: int, m: int)
    requires Delivered(k, n, q, m) && Slots(n, r)
    ensures Delivered(k, r, q, m)
  {
    assert forall p :: 0 <= p < |n.procs| ==> SlotKept(n.procs[p], r.procs[p]);
  }

  /** The state in which send has readied its receiver and not rescheduled yet. */
  lemma ReadiedReceiver(k: KState, p: int, m: int)
    requires Sized(k) && ReceiversOk(k) && 0 <= p < |k.procs| && k.procs[p].state != Free && !k.procs[p].hasmsg
    ensures var n := InsertReady(Deliver(k, p, m), p); ReceiversOk(n) && Delivered(k, n, p, m)
    ensures var n := InsertReady(Unsleep(Deliver(k, p, m), p), p); ReceiversOk(n) && Delivered(k, n, p, m)
    ensures k.procs[p].state != Recv && k.procs[p].state != RecTim ==>
        ReceiversOk(Deliver(k, p, m)) && Delivered(k, Deliver(k, p, m), p, m)
  {
    hide InsertList, UnsleepKeys, Without;
    var n1, n2, n3 := InsertReady(Deliver(k, p, m), p), InsertReady(Unsleep(Deliver(k, p, m), p), p), Deliver(k, p, m);
    forall x | 0 <= x < |k.procs|
      ensures ReceiverOk(n1, x) && ReceiverOk(n2, x)
      ensures k.procs[p].state != Recv && k.procs[p].state != RecTim ==> ReceiverOk(n3, x)
    {
      assert ReceiverOk(k, x);
    }
  }

  lemma SendReceivers(k: KState, p: int, m: int)
    requires AtRest(k) && ReceiversOk(k)
    ensures ReceiversOk(Send(k, p, m)) && Delivered(k, Send(k, p, m), p, m)
  {
    hide AtRest, Base, Resched, InsertReady, Unsleep, ReceiversOk, Delivered, Slots;
    RestSized(k);
    NothingDelivered(k, p, m);
    if !BadPid(k, p) && !k.procs[p].hasmsg {
      var k1 := Deliver(k, p, m);
      MessageRest(k, p, m, true);
      RestBase(k1);
      ReadiedReceiver(k, p, m);
      if k.procs[p].state == Recv {
        StateFacts(k1, p);
        InsertReadyBase(k1, p);
        ReadiedLater(k, InsertReady(k1, p), p, m);
      } else if k.procs[p].state == RecTim {
        UnsleepBase(k1, p);
        InsertReadyBase(Unsleep(k1, p), p);
        ReadiedLater(k, InsertReady(Unsleep(k1, p), p), p, m);
      }
    }
  }

  lemma NothingDelivered(k: KState, p: int, m: int)
    ensures Delivered(k, k, p, m)
  {
  }

  lemma ReadiedLater(k: KState, n: KState, p: int, m: int)
    requires Base(n, -1) && Sized(n) && ReceiversOk(n) && Delivered(k, n, p, m)
    ensures ReceiversOk(Resched(n)) && Delivered(k, Resched(n), p, m)
  {
    hide Base, Resched, ReceiversOk, Delivered, Slots, ContsKept;
    ReschedSlots(n);
    SameConts(n, Resched(n));
    ReceiversKept(n, Resched(n));
    DeliveredLater(k, n, Resched(n), p, m);
  }

  lemma SameConts(k: KState, r: KState)
    requires Sized(k) && r.conts == k.conts
    ensures ContsKept(k, r)
  {
  }

  /** The current process writes its own continuation and begins no receive. */
  lemma OwnCont(k: KState, c: Cont)
    requires AtRest(k) && c != InReceive && c != InRecvTime
    ensures Sized(k) && ContsKept(k, SetCont(k, k.curr, c))
  {
    hide Base, Sched;
    RestSized(k);
  }

  lemma KillReceivers(k: KState, v: int)
    requires AtRest(k) && ReceiversOk(k)
    ensures ReceiversOk(Kill(k, v))
    ensures Delivered(k, Kill(k, v), if BadPid(k, v) then -1 else k.procs[v].parent, v)
  {
    hide AtRest, Send, ReceiversOk, Delivered, Slots, ContsKept;
    RestSized(k);
    NothingDelivered(k, if BadPid(k, v) then -1 else k.procs[v].parent, v);
    if !BadPid(k, v) && v != NULLPROC {
      var k1 := k.(prcount := k.prcount - 1);
      var k2 := SetCont(k1, k.curr, InKill(v));
      RestFrame(k, k1);
      RestFrame(k, k2);
      SameProcs(k, k1.(halted := true));
      SameConts(k, k1.(halted := true));
      ReceiversKept(k, k1.(halted := true));
      SameDelivered(k, k1.(halted := true), k.procs[v].parent, v);
      OwnCont(k, InKill(v));
      SameProcs(k, k2);
      SameContsKept(k, SetCont(k, k.curr, InKill(v)), k2);
      ReceiversKept(k, k2);
      SendReceivers(k2, k.procs[v].parent, v);
      SameDeliveredFrom(k, k2, Send(k2, k.procs[v].parent, v), k.procs[v].parent, v);
    }
  }

  lemma SameContsKept(k: KState, n: KState, r: KState)
    requires Sized(k) && ContsKept(k, n) && r.conts == n.conts
    ensures ContsKept(k, r)
  {
  }

  lemma SameDelivered(k: KState, r: KState, p: int, m: int)
    requires r.procs == k.procs
    ensures Delivered(k, r, p, m)
  {
  }

  lemma SameDeliveredFrom(k: KState, n: KState, r: KState, p: int, m: int)
    requires n.procs == k.procs && Delivered(n, r, p, m)
    ensures Delivered(k, r, p, m)
  {
  }

  lemma ReceiveReceivers(k: KState)
    requires AtRest(k) && ReceiversOk(k) && k.ndefers == 0 && k.curr != NULLPROC
    ensures ReceiversOk(Receive(k)) && Delivered(k, Receive(k), -1, 0)
  {
    hide AtRest, Base, Resched, ReceiversOk, Delivered;
    RestSized(k);
    var k1 := SetCont(k, k.curr, InReceive);
    RestFrame(k, k1);
    BeginsReceive(k);
    if !k.procs[k.curr].hasmsg {
      var k2 := SetState(k1, k.curr, Recv);
      CurrLeaves(k1, Recv);
      ReadiedLater(k, k2, -1, 0);
    }
  }

  lemma BeginsReceive(k: KState)
    requires AtRest(k) && ReceiversOk(k)
    ensures var k1 := SetCont(k, k.curr, InReceive);
            && Sized(k) && Delivered(k, k1, -1, 0) && Delivered(k, SetState(k1, k.curr, Recv), -1, 0)
            && (if k.procs[k.curr].hasmsg then ReceiversOk(k1) else ReceiversOk(SetState(k1, k.curr, Recv)))
  {
    hide Base, Sched;
    RestSized(k);
    var k1, k2 := SetCont(k, k.curr, InReceive), SetState(SetCont(k, k.curr, InReceive), k.curr, Recv);
    forall p | 0 <= p < |k.procs|
      ensures if k.procs[k.curr].hasmsg then ReceiverOk(k1, p) else ReceiverOk(k2, p)
    {
      assert ReceiverOk(k, p);
    }
  }

  lemma RecvTimeReceivers(k: KState, d: int)
    requires AtRest(k) && ReceiversOk(k) && k.ndefers == 0 && k.curr != NULLPROC
    ensures ReceiversOk(RecvTime(k, d)) && Delivered(k, RecvTime(k, d), -1, 0)
  {
    hide AtRest, Base, Resched, ReceiversOk, Delivered, FallAsleep;
    RestSized(k);
    var k1 := SetCont(k, k.curr, InRecvTime);
    RestFrame(k, k1);
    BeginsRecvTime(k, d);
    if d >= 0 && !k.procs[k.curr].hasmsg {
      FallAsleepBase(k1, RecTim, d);
      ReadiedLater(k, FallAsleep(k1, RecTim, d), -1, 0);
    }
  }

  lemma BeginsRecvTime(k: KState, d: int)
    requires AtRest(k) && ReceiversOk(k)
    ensures var k1 := SetCont(k, k.curr, InRecvTime);
            && Sized(k) && Delivered(k, k1, -1, 0) && Delivered(k, SetCont(k, k.curr, User(SYSERR)), -1, 0)
            && ReceiversOk(SetCont(k, k.curr, User(SYSERR))) && ReceiversOk(k1)
            && Delivered(k, FallAsleep(k1, RecTim, d), -1, 0)
            && (!k.procs[k.curr].hasmsg ==> ReceiversOk(FallAsleep(k1, RecTim, d)))
  {
    hide Base, Sched, DeltaList, DeltaKeys;
    RestSized(k);
    var k1 := SetCont(k, k.curr, InRecvTime);
    var n, k2 := SetCont(k, k.curr, User(SYSERR)), FallAsleep(k1, RecTim, d);
    forall p | 0 <= p < |k.procs|
      ensures ReceiverOk(n, p) && ReceiverOk(k1, p) && (!k.procs[k.curr].hasmsg ==> ReceiverOk(k2, p))
    {
      assert ReceiverOk(k, p);
    }
  }

  lemma CreateReceivers(k: KState, ok: bool, prio: int)
    requires AtRest(k) && ReceiversOk(k)
    ensures Sized(k) && ReceiversOk(Create(k, ok, prio))
    ensures var r := Create(k, ok, prio);
            forall p :: 0 <= p < |k.procs| ==>
              r.procs[p] == k.procs[p] || (k.procs[p].state == Free && !r.procs[p].hasmsg)
  {
    hide AtRest, FindPid, NoneFreed;
    RestSized(k);
    var r := Create(k, ok, prio);
    forall p | 0 <= p < |k.procs| ensures ReceiverOk(r, p) {
      assert ReceiverOk(k, p);
    }
  }

  /** The end of receive: with the message that the invariant promises. */
  lemma TakeReceivers(k: KState)
    requires AtRest(k) && ReceiversOk(k) && (k.conts[k.curr] == InReceive || k.conts[k.curr] == InRecvTime)
    ensures Sized(k) && ReceiversOk(TakeMessage(k)) && (k.conts[k.curr] == InReceive ==> k.procs[k.curr].hasmsg)
    ensures var r, c := TakeMessage(k), k.curr;
            && |r.procs| == |k.procs| && (forall p :: 0 <= p < |k.procs| && p != c ==> r.procs[p] == k.procs[p])
            && r.procs[c].msg == k.procs[c].msg && !r.procs[c].hasmsg
            && (k.procs[c].hasmsg ==> r.conts[c] == User(k.procs[c].msg))
  {
    hide Base, Sched;
    RestSized(k);
    assert ReceiverOk(k, k.curr);
    var r := TakeMessage(k);
    forall p | 0 <= p < |k.procs| ensures ReceiverOk(r, p) {
      assert ReceiverOk(k, p);
    }
  }

  // ----- the end of kill

  /** All slots but the victim's. */
  ghost predicate SlotsBut(k: KState, r: KState, v: int) {
    && |r.procs| == |k.procs| && 0 <= v < |k.procs|
    && (forall p :: 0 <= p < |k.procs| && p != v ==> SlotKept(k.procs[p], r.procs[p]))
    && r.procs[v].hasmsg == k.procs[v].hasmsg && r.procs[v].msg == k.procs[v].msg
    && r.procs[v].state != Recv && r.procs[v].state != RecTim
  }

  lemma SlotsButLater(k: KState, n: KState, r: KState, v: int)
    requires SlotsBut(k, n, v) && Slots(n, r)
    ensures SlotsBut(k, r, v)
  {
    assert forall p :: 0 <= p < |n.procs| ==> SlotKept(n.procs[p], r.procs[p]);
  }

  lemma FreedSlots(k: KState, n: KState, v: int)
    requires Sized(k) && 0 <= v < |k.procs| && n.procs == k.procs[v := k.procs[v].(state := Free)]
    ensures SlotsBut(k, n, v)
  {
  }

  lemma ReapSlots(k: KState, v: int)
    requires AtRest(k) && SemExact(k, -1) && 0 < v < |k.procs|
    ensures SlotsBut(k, Reap(k, v), v)
  {
    hide AtRest, Base, Resched, Unsleep, LeaveSem, SlotsBut, Slots, Without;
    RestSized(k);
    FreedSlots(k, SetState(k, v, Free), v);
    if k.procs[v].state == Curr {
      StateFacts(k, v);
      CurrLeaves(k, Free);
      ReschedSlots(SetState(k, v, Free));
      SlotsButLater(k, SetState(k, v, Free), Reap(k, v), v);
    } else if k.procs[v].state == Free {
      FreedSlots(k, k, v);
    } else {
      FreedSlots(k, Reap(k, v), v);
    }
  }

  lemma KillEndReceivers(k: KState, v: int)
    requires KInv(k) && ReceiversOk(k) && 0 < v < |k.procs|
    ensures Sized(k) && ReceiversOk(KillEnd(k, v)) && SlotsBut(k, KillEnd(k, v), v)
  {
    hide AtRest, SemExact, Reap, SlotsBut;
    RestSized(k);
    var k1 := k.(conts := k.conts[k.curr := User(OK)][v := User(OK)]);
    RestFrame(k, k1);
    ExactFrame(k, k1);
    ReapSlots(k1, v);
    KilledReceivers(k, v, Reap(k1, v));
  }

  lemma KilledReceivers(k: KState, v: int, r: KState)
    requires AtRest(k) && Sized(r) && 0 <= v < |k.procs|
        && SlotsBut(k.(conts := k.conts[k.curr := User(OK)][v := User(OK)]), r, v)
    requires ReceiversOk(k) && r.conts == k.conts[k.curr := User(OK)][v := User(OK)]
    ensures ReceiversOk(r) && SlotsBut(k, r, v)
  {
    hide Base, Sched;
    RestSized(k);
    forall p | 0 <= p < |r.procs| ensures ReceiverOk(r, p) {
      assert ReceiverOk(k, p);
      assert p != v ==> SlotKept(k.procs[p], r.procs[p]);
    }
  }

  // ----- every step

  /** The event neither delivers nor begins to wait for a message, and creates and kills nobody. */
  predicate NoMessage(s: Sys, e: Event)
    requires SizedSys(s)
  {
    && !e.SendTo? && !e.KillProc? && !e.ReceiveAny? && !e.ReceiveWithin? && !e.CreateProc?
    && (e == Continue ==>
          !s.k.conts[s.k.curr].InKill? && s.k.conts[s.k.curr] != InReceive && s.k.conts[s.k.curr] != InRecvTime)
  }

  lemma SemCallSlots(k: KState, e: Event)
    requires KInv(k) && SemEvent(e) && (e.WaitOn? ==> k.curr != NULLPROC)
    ensures Slots(k, KApply(k, e))
  {
    hide AtRest, SemExact, Counters, Slots, NoneFreed, SameShape, SignalOne, NewSem;
    RestSized(k);
    match e
    case NewSemaphore(c) => SameProcs(k, SemCreate(k, c));
    case WaitOn(j) => hide SemWait; SemWaitSlots(k, j);
    case SignalOn(j) => hide Signal; SignalCallSlots(k, j, -1);
    case SignalManyOn(j, n) => hide Signaln; SignalCallSlots(k, j, n);
    case ResetSemaphore(j, c) => hide SemReset; ResetCallSlots(k, j, c);
    case DeleteSemaphore(j) => hide SemDelete; DeleteCallSlots(k, j);
  }

  lemma ProcCallSlots(s: Sys, e: Event)
    requires Inv(s) && Enabled(s, e) && KernelEvent(e) && !SemEvent(e) && NoMessage(s, e)
    ensures Slots(s.k, KApply(s.k, e)) && ContsKept(s.k, KApply(s.k, e))
  {
    hide AtRest, SemExact, Counters, PInv, Slots, Resched, SleepMs, Tick, Suspend, Resume, DeferStop;
    var k := s.k;
    RestSized(k);
    SameConts(k, KApply(k, e));
    match e
    case ClockTick => TickSlots(k);
    case Yield => YieldSlots(k);
    case SuspendProc(p) => SuspendSlots(k, p);
    case ResumeProc(p) => ResumeSlots(k, p);
    case SleepFewMs(d) => SleepSlots(k, d);
    case SleepFewSecs(d) => SleepSlots(k, 1000 * d); SameProcs(k, k);
    case StartDeferral => SameProcs(k, DeferStart(k));
    case StopDeferral => DeferStopSlots(k);
  }

  lemma KernelCallSlots(s: Sys, e: Event)
    requires Inv(s) && Enabled(s, e) && KernelEvent(e) && NoMessage(s, e)
    ensures Slots(s.k, KApply(s.k, e)) && ContsKept(s.k, KApply(s.k, e))
  {
    if SemEvent(e) {
      hide PInv, AtRest, SemExact, KApply, Slots, ContsKept;
      SemCallSlots(s.k, e);
      SemEventSameConts(s.k, e);
      SameConts(s.k, KApply(s.k, e));
    } else {
      ProcCallSlots(s, e);
    }
  }

  lemma WroteOwn(k: KState, r: KState)
    requires AtRest(k) && |r.conts| == |k.conts| && r.conts[k.curr] != InReceive && r.conts[k.curr] != InRecvTime
    requires forall p :: 0 <= p < |k.conts| && p != k.curr ==> r.conts[p] == k.conts[p]
    ensures Sized(k) && ContsKept(k, r)
  {
    hide Base, Sched;
    RestSized(k);
  }

  lemma EnterSlots(s: Sys, i: int, m: int)
    requires SizedSys(s) && KInv(s.k) && s.k.curr != NULLPROC
    ensures Slots(s.k, PtSend(s, i, m).k) && Slots(s.k, PtRecv(s, i).k)
  {
    hide KInv, Enter, Slots;
    ReturnSlots(s.k, SYSERR);
    if IsOpen(s.pt, i) {
      WaitSlots(s, s.pt.tab[i].ssem, InSend(i, s.pt.tab[i].seqno, m));
      WaitSlots(s, s.pt.tab[i].rsem, InRecv(i, s.pt.tab[i].seqno));
    }
  }

  lemma ReturnSlots(k: KState, rv: int)
    requires Sized(k)
    ensures Slots(k, SetCont(k, k.curr, User(rv)))
  {
  }

  lemma WaitSlots(s: Sys, sem: int, c: Cont)
    requires SizedSys(s) && KInv(s.k) && s.k.curr != NULLPROC
    ensures Slots(s.k, Enter(s, sem, c).k)
  {
    hide AtRest, SemExact, SemWait, Slots;
    ReturnSlots(s.k, SYSERR);
    var k1 := SetCont(s.k, s.k.curr, c);
    ContKeepsKInv(s.k, s.k.curr, c);
    SameProcs(s.k, k1);
    SemWaitSlots(k1, sem);
    SlotsTrans(s.k, k1, SemWait(k1, sem));
  }

  lemma ClearSlots(s: Sys, s1: Sys, c: Cont, sem: int, ns: PtState, count: int)
    requires SizedSys(s) && SizedSys(s1) && KInv(s.k) && s1.k == SetCont(s.k, s.k.curr, c)
    ensures Slots(s.k, ClearSem(s1, sem, ns, count).k)
  {
    hide AtRest, SemExact, SemReset, SemDelete, Slots;
    ContKeepsKInv(s.k, s.k.curr, c);
    SameProcs(s.k, s1.k);
    ResetCallSlots(s1.k, sem, count);
    DeleteCallSlots(s1.k, sem);
    SlotsTrans(s.k, s1.k, ClearSem(s1, sem, ns, count).k);
  }

  lemma PortCallSlots(s: Sys, e: Event)
    requires Inv(s) && Enabled(s, e) && !KernelEvent(e) && e != Continue
    ensures Slots(s.k, Apply(s, e).k)
  {
    hide KInv, PInv, ContsSane, PtCreate, PtSend, PtRecv, PtClear, Slots;
    match e
    case CreatePort(c) => CreatePortSlots(s, c);
    case SendToPort(i, m) => EnterSlots(s, i, m);
    case ReceiveFromPort(i) => EnterSlots(s, i, 0);
    case ResetPort(i) => PtClearSlots(s, i, PtAlloc);
    case DeletePort(i) => PtClearSlots(s, i, PtFree);
  }

  lemma CreatePortSlots(s: Sys, count: int)
    requires SizedSys(s)
    ensures Slots(s.k, PtCreate(s, count).k)
  {
    hide FindPort, NewSem;
    SameProcs(s.k, PtCreate(s, count).k);
  }

  lemma PtClearSlots(s: Sys, i: int, ns: PtState)
    requires SizedSys(s) && KInv(s.k)
    ensures Slots(s.k, PtClear(s, i, ns).k)
  {
    hide KInv, ClearSem, Flush, Slots;
    ReturnSlots(s.k, SYSERR);
    if IsOpen(s.pt, i) {
      var s1 := s.(pt := Flush(s.pt, i, ns), k := SetCont(s.k, s.k.curr, InClear(i, ns, 1)));
      ClearSlots(s, s1, InClear(i, ns, 1), s.pt.tab[i].ssem, ns, s.pt.tab[i].maxcnt);
    }
  }

  lemma PassSlots(k: KState, rv: int, sem: int)
    requires KInv(k)
    ensures Sized(k) && Slots(k, Signal(SetCont(k, k.curr, User(rv)), sem))
  {
    hide AtRest, SemExact, Signal, Slots;
    RestSized(k);
    var k1 := SetCont(k, k.curr, User(rv));
    ContKeepsKInv(k, k.curr, User(rv));
    SameProcs(k, k1);
    SignalCallSlots(k1, sem, -1);
    SlotsTrans(k, k1, Signal(k1, sem));
  }

  lemma ResumedSlots(s: Sys)
    requires Inv(s) && NoMessage(s, Continue)
    ensures Slots(s.k, Resumed(s).k)
  {
    hide KInv, PInv, Signal, ClearSem, Append, TakeHead, Slots;
    SameProcs(s.k, s.k);
    SameProcs(s.k, s.k.(halted := true));
    ReturnSlots(s.k, SYSERR);
    ReturnSlots(s.k, OK);
    match s.k.conts[s.k.curr]
    case User(_) =>
    case InSend(i, e, m) =>
      if Current(s.pt, i, e) { PassSlots(s.k, OK, s.pt.tab[i].rsem); }
    case InRecv(i, e) =>
      if Current(s.pt, i, e) && s.pt.tab[i].list != [] {
        PassSlots(s.k, s.pt.msgs[s.pt.tab[i].list[0]], s.pt.tab[i].ssem);
      }
    case InClear(i, ns, phase) =>
      if 0 <= i < |s.pt.tab| && phase == 1 {
        var s1 := s.(k := SetCont(s.k, s.k.curr, InClear(i, ns, 2)));
        ClearSlots(s, s1, InClear(i, ns, 2), s.pt.tab[i].rsem, ns, 0);
      }
  }

  /** Port calls leave the other processes' continuations alone and begin no receive. */
  lemma PortConts(s: Sys, e: Event)
    requires Inv(s) && Enabled(s, e) && !KernelEvent(e) && NoMessage(s, e)
    ensures Sized(s.k) && ContsKept(s.k, Apply(s, e).k)
  {
    hide KInv, PInv, ContsSane, Apply;
    PortTheorems.PortContWritten(s, e);
    RestFromInv(s);
    WroteOwn(s.k, Apply(s, e).k);
  }

  lemma RestFromInv(s: Sys)
    requires Inv(s)
    ensures AtRest(s.k)
  {
    hide AtRest, PInv;
  }

  lemma QuietStep(s: Sys, e: Event)
    requires Inv(s) && Enabled(s, e) && NoMessage(s, e)
    ensures Slots(s.k, Apply(s, e).k) && ContsKept(s.k, Apply(s, e).k)
  {
    hide KInv, PInv, ContsSane, KApply, Slots, ContsKept, Resumed, NoMessage;
    if KernelEvent(e) {
      KernelCallSlots(s, e);
    } else {
      PortConts(s, e);
      if e == Continue {
        ResumedSlots(s);
      } else {
        PortCallSlots(s, e);
      }
    }
  }

  /** Every step of the machine keeps the receivers' invariant, and changes a message slot only by a
      delivery into an empty one or by its owner taking the message. */
  lemma MessageStep(s: Sys, e: Event)
    requires Inv(s) && Enabled(s, e) && ReceiversOk(s.k)
    ensures ReceiversOk(Apply(s, e).k) && |Apply(s, e).k.procs| == |s.k.procs|
    ensures forall p :: 0 <= p < |s.k.procs| ==> SlotStepOk(s, e, Apply(s, e), p)
  {
    hide KInv, PInv, ContsSane, Enabled, Apply, ReceiversOk, NoMessage;
    if NoMessage(s, e) {
      QuietStep(s, e);
      ReceiversKept(s.k, Apply(s, e).k);
      QuietSlots(s, e);
    } else {
      MessageCall(s, e);
    }
  }

  lemma QuietSlots(s: Sys, e: Event)
    requires SizedSys(s) && Slots(s.k, Apply(s, e).k)
    ensures forall p :: 0 <= p < |s.k.procs| ==> SlotStepOk(s, e, Apply(s, e), p)
  {
    hide Apply;
    var r := Apply(s, e);
    forall p | 0 <= p < |s.k.procs| ensures SlotStepOk(s, e, r, p) {
      assert SlotKept(s.k.procs[p], r.k.procs[p]);
    }
  }

  lemma MessageCall(s: Sys, e: Event)
    requires Inv(s) && Enabled(s, e) && ReceiversOk(s.k) && !NoMessage(s, e)
    ensures ReceiversOk(Apply(s, e).k) && |Apply(s, e).k.procs| == |s.k.procs|
    ensures forall p :: 0 <= p < |s.k.procs| ==> SlotStepOk(s, e, Apply(s, e), p)
  {
    hide AtRest, SemExact, Counters, PInv, ReceiversOk, Send, Kill, Receive, RecvTime, Create, TakeMessage, PtKillEnd;
    match e
    case SendTo(p, m) => SendReceivers(s.k, p, m);
    case KillProc(v) => KillReceivers(s.k, v);
    case ReceiveAny => ReceiveReceivers(s.k);
    case ReceiveWithin(d) => RecvTimeReceivers(s.k, d);
    case CreateProc(ok, prio) => CreateReceivers(s.k, ok, prio);
    case Continue =>
      if s.k.conts[s.k.curr].InKill? {
        VictimStep(s);
      } else {
        TakeReceivers(s.k);
      }
  }

  lemma VictimStep(s: Sys)
    requires Inv(s) && ReceiversOk(s.k) && s.k.conts[s.k.curr].InKill?
    ensures ReceiversOk(Resumed(s).k) && |Resumed(s).k.procs| == |s.k.procs|
    ensures forall p :: 0 <= p < |s.k.procs| ==> SlotStepOk(s, Continue, Resumed(s), p)
  {
    hide AtRest, SemExact, Counters, PInv, ReceiversOk, KillEnd, AfterLoss;
    KillEndReceivers(s.k, s.k.conts[s.k.curr].victim);
    var r := Resumed(s);
    forall p | 0 <= p < |s.k.procs| ensures SlotStepOk(s, Continue, r, p) {
      assert p != s.k.conts[s.k.curr].victim ==> SlotKept(s.k.procs[p], r.k.procs[p]);
    }
  }

  // ----- runs

  lemma {:induction false} MessageRun(s: Sys, es: seq<Event>)
    requires Inv(s) && ReceiversOk(s.k) && Run(s, es)
    ensures ReceiversOk(After(s, es).k)
    decreases |es|
  {
    hide Inv, Apply, Enabled, ReceiversOk;
    InvSized(s);
    if es != [] {
      StepInv(s, es[0]);
      MessageStep(s, es[0]);
      MessageRun(Apply(s, es[0]), es[1..]);
    }
  }

  /** Whatever has happened since its call, a process that comes back from the wait of receive finds a
      message in its slot and returns it. */
  lemma ReceiveFindsMessage(nproc: nat, nsem: nat, quantum: int, nports: nat, maxmsgs: nat, es: seq<Event>)
    requires nproc > 0 && quantum > 0 && Run(PortTheorems.Start(nproc, nsem, quantum, nports, maxmsgs), es)
    ensures var s := After(PortTheorems.Start(nproc, nsem, quantum, nports, maxmsgs), es);
            var p := s.k.curr;
            s.k.conts[p] == InReceive ==>
              s.k.procs[p].hasmsg && Apply(s, Continue).k.conts[p] == User(s.k.procs[p].msg)
              && !Apply(s, Continue).k.procs[p].hasmsg
  {
    hide Inv, Run, After, ReceiversOk, Apply, Booted, InitialPorts;
    var s0 := PortTheorems.Start(nproc, nsem, quantum, nports, maxmsgs);
    PortTheorems.StartInv(nproc, nsem, quantum, nports, maxmsgs);
    RunInv(s0, es);
    NobodyReceives(nproc, nsem, quantum);
    MessageRun(s0, es);
    ReceiveTakes(After(s0, es));
  }

  lemma ReceiveTakes(s: Sys)
    requires Inv(s) && ReceiversOk(s.k)
    ensures var p := s.k.curr;
            && SizedSys(s)
            && (s.k.conts[p] == InReceive ==>
                  s.k.procs[p].hasmsg && Apply(s, Continue).k.conts[p] == User(s.k.procs[p].msg)
                  && !Apply(s, Continue).k.procs[p].hasmsg)
  {
    hide KInv, PInv, ContsSane, TakeMessage, ReceiversOk;
    RestFromInv(s);
    if s.k.conts[s.k.curr] == InReceive {
      TakeReceivers(s.k);
    }
  }

  lemma NobodyReceives(nproc: nat, nsem: nat, quantum: int)
    requires nproc > 0
    ensures ReceiversOk(Booted(nproc, nsem, quantum))
  {
  }
}
