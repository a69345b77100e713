/**
 The kernel as a state machine. The process that has the processor either makes a
 system call, is interrupted by the clock, or, when it is resumed inside a system
 call, finishes that call; nothing else can happen in between because interrupts
 stay disabled.
 */
module Machine {
  import opened Sequences
  import opened QueueTables
  import opened KernelState
  import opened KernelInvariants
  import opened PortState
  import opened PortInvariants

  datatype Event =
    | ClockTick | Yield | SuspendProc(pid: int) | ResumeProc(pid: int) | CreateProc(stkok: bool, prio: int)
    | KillProc(pid: int) | SendTo(pid: int, item: int) | ReceiveAny | ReceiveWithin(maxwait: int)
    | SleepFewMs(delay: int) | SleepFewSecs(delay: int)
    | NewSemaphore(count: int) | WaitOn(sem: int) | SignalOn(sem: int) | SignalManyOn(sem: int, n: int)
    | ResetSemaphore(sem: int, count: int) | DeleteSemaphore(sem: int)
    | StartDeferral | StopDeferral
    | CreatePort(count: int) | SendToPort(port: int, item: int) | ReceiveFromPort(port: int)
    | ResetPort(port: int) | DeletePort(port: int)
    | Continue

  predicate MayBlock(e: Event) {
    e.WaitOn? || e.ReceiveAny? || e.ReceiveWithin? || e.SleepFewMs? || e.SleepFewSecs?
    || e.SendToPort? || e.ReceiveFromPort?
  }

  /** While rescheduling is deferred only calls that neither block nor switch in the middle are made. */
  predicate NeedsSwitch(s: Sys, e: Event) {
    MayBlock(e) || e.KillProc? || e.ResetPort? || e.DeletePort? || e == SuspendProc(s.k.curr)
  }

  /** Semaphores that a port created are used by the port code alone. */
  predicate UsesSem(e: Event, j: int) {
    match e
    case WaitOn(s) => s == j
    case SignalOn(s) => s == j
    case SignalManyOn(s, _) => s == j
    case ResetSemaphore(s, _) => s == j
    case DeleteSemaphore(s) => s == j
    case _ => false
  }

  ghost predicate Enabled(s: Sys, e: Event)
    requires SizedSys(s)
  {
    && !s.k.halted
    && (s.k.conts[s.k.curr].User? <==> e != Continue)
    && (NeedsSwitch(s, e) ==> s.k.ndefers == 0)
    && (MayBlock(e) ==> s.k.curr != NULLPROC)
    && (forall j :: 0 <= j < |s.owner| && PortSide(s.owner[j]) ==> !UsesSem(e, j))
  }

  /** Calls that concern the process, semaphore and clock tables only. */
  function KApply(k: KState, e: Event): (r: KState)
    requires Sized(k)
    ensures Sized(r) && |r.procs| == |k.procs| && |r.sems| == |k.sems|
  {
    match e
    case ClockTick => Tick(k)
    case Yield => Resched(k)
    case SuspendProc(p) => Suspend(k, p)
    case ResumeProc(p) => Resume(k, p)
    case CreateProc(stkok, prio) => Create(k, stkok, prio)
    case KillProc(p) => Kill(k, p)
    case SendTo(p, m) => Send(k, p, m)
    case ReceiveAny => Receive(k)
    case ReceiveWithin(d) => RecvTime(k, d)
    case SleepFewMs(d) => SleepMs(k, d)
    case SleepFewSecs(d) => SleepSecs(k, d)
    case NewSemaphore(c) => SemCreate(k, c)
    case WaitOn(j) => SemWait(k, j)
    case SignalOn(j) => Signal(k, j)
    case SignalManyOn(j, n) => Signaln(k, j, n)
    case ResetSemaphore(j, c) => SemReset(k, j, c)
    case DeleteSemaphore(j) => SemDelete(k, j)
    case StartDeferral => DeferStart(k)
    case StopDeferral => DeferStop(k)
    case _ => k
  }

  function Resumed(s: Sys): (r: Sys)
    requires SizedSys(s)
    ensures SizedSys(r)
  {
    match s.k.conts[s.k.curr]
    case User(_) => s
    case InReceive => s.(k := TakeMessage(s.k))
    case InRecvTime => s.(k := TakeMessage(s.k))
    case InKill(v) => if 0 <= v < |s.k.procs| then PtKillEnd(s, v) else s
    case InSend(i, e, m) => SendEnd(s, i, e, m)
    case InRecv(i, e) => RecvEnd(s, i, e)
    case InClear(i, ns, phase) => if 0 <= i < |s.pt.tab| then ClearEnd(s, i, ns, phase) else s
  }

  function Apply(s: Sys, e: Event): (r: Sys)
    requires SizedSys(s)
    ensures SizedSys(r)
  {
    match e
    case CreatePort(c) => PtCreate(s, c)
    case SendToPort(i, m) => PtSend(s, i, m)
    case ReceiveFromPort(i) => PtRecv(s, i)
    case ResetPort(i) => PtClear(s, i, PtAlloc)
    case DeletePort(i) => PtClear(s, i, PtFree)
    case Continue => Resumed(s)
    case _ => s.(k := KApply(s.k, e))
  }

  // ----- the invariant of the whole machine

  ghost predicate ContsSane(s: Sys)
    requires SizedSys(s)
  {
    && (s.k.ndefers > 0 ==> s.k.conts[s.k.curr].User?)
    && (forall p :: 0 <= p < |s.k.conts| && s.k.conts[p].InKill? ==> 0 < s.k.conts[p].victim < |s.k.procs|)
    && (forall p :: 0 <= p < |s.k.procs| && s.k.procs[p].state == Free ==> s.k.conts[p].User?)
    && s.pt.stop != NullHead
  }

  ghost predicate Inv(s: Sys) {
    SizedSys(s) && KInv(s.k) && PInv(W(s.k), s.pt, s.owner) && ContsSane(s)
  }

  lemma InvSized(s: Sys)
    requires Inv(s)
    ensures SizedSys(s)
  {
    hide KInv, PInv;
  }

  lemma WaitsFromKernel(k: KState)
    requires KInv(k)
    ensures WaitsOk(W(k)) && !Blocked(W(k), k.curr)
  {
    assert AtHome(k, k.curr, -1);
    hide ReadySorted, NullRuns;
    forall p, j, l | 0 <= j < |k.sq| && 0 <= l < |k.sq| && p in k.sq[j] && p in k.sq[l] ensures j == l {
      assert Within(k.sq[j], |k.procs|);
      assert OnLists(k, -1) && AtHome(k, p, -1);
    }
  }

  // ----- calls on processes, semaphores and the clock

  lemma ShapeKeepsCounters(k: KState, r: KState)
    requires Counters(k) && SameShape(k, r)
    ensures Counters(r)
  {
  }

  lemma TickCounters(k: KState)
    requires KInv(k)
    ensures Counters(Tick(k))
  {
    hide AtRest, TickSleepers, Resched;
    RestSized(k);
    ShapeKeepsCounters(CountTime(k), TickSleepers(CountTime(k)));
  }

  lemma KernelCounters(k: KState, e: Event)
    requires KInv(k)
    ensures Counters(KApply(k, e))
  {
    hide AtRest, SemExact, Sched;
    RestSized(k);
    match e
    case ClockTick => TickCounters(k);
    case CreateProc(stkok, prio) =>
    case KillProc(p) => hide Send;
    case NewSemaphore(c) =>
    case StartDeferral =>
    case _ =>
      hide Tick, Create, Kill, SemCreate, DeferStart;
      hide Resched, Suspend, Resume, Send, Receive, RecvTime, SleepMs, SleepSecs;
      hide SemWait, Signal, Signaln, SemReset, SemDelete, DeferStop;
  }

  predicate KernelEvent(e: Event) {
    !(e.CreatePort? || e.SendToPort? || e.ReceiveFromPort? || e.ResetPort? || e.DeletePort? || e.Continue?)
  }

  predicate SemEvent(e: Event) {
    e.NewSemaphore? || e.WaitOn? || e.SignalOn? || e.SignalManyOn? || e.ResetSemaphore? || e.DeleteSemaphore?
  }

  lemma SemEventRest(k: KState, e: Event)
    requires KInv(k) && SemEvent(e)
    requires e.WaitOn? ==> k.ndefers == 0 && k.curr != NULLPROC
    ensures AtRest(KApply(k, e)) && SemExact(KApply(k, e), -1)
  {
    hide AtRest, Sched, Base, Counters, SemExact, NoneFreed, SameShape;
    RestSized(k);
    match e
    case NewSemaphore(c) => hide SemCreate; SemCreateRest(k, c);
    case WaitOn(j) => hide SemWait; SemWaitRest(k, j);
    case SignalOn(j) => hide SignalOne; if !BadSem(k, j) { SignalOneRest(k, j); }
    case SignalManyOn(j, n) => hide Signaln; SignalnRest(k, j, n);
    case ResetSemaphore(j, c) => hide SemReset; SemResetRest(k, j, c);
    case DeleteSemaphore(j) => hide SemDelete; SemDeleteRest(k, j);
  }

  lemma ProcEventRest(k: KState, e: Event)
    requires KInv(k) && KernelEvent(e) && !SemEvent(e)
    requires MayBlock(e) || e.KillProc? || e == SuspendProc(k.curr) ==> k.ndefers == 0
    requires MayBlock(e) ==> k.curr != NULLPROC
    ensures AtRest(KApply(k, e)) && SemExact(KApply(k, e), -1)
  {
    hide AtRest, Sched, Base, Counters, SameShape, NoneFreed;
    RestSized(k);
    match e
    case ClockTick => hide Tick; TickRest(k);
    case Yield => hide Resched; RestBase(k); ReschedRest(k);
    case SuspendProc(p) => hide Suspend; SuspendRest(k, p);
    case ResumeProc(p) => hide Resume; ResumeRest(k, p);
    case CreateProc(stkok, prio) => hide Create; CreateRest(k, stkok, prio);
    case KillProc(p) => hide Kill; KillRest(k, p);
    case SendTo(p, m) => hide Send; SendRest(k, p, m);
    case ReceiveAny => hide Receive; ReceiveRest(k);
    case ReceiveWithin(d) => hide RecvTime; RecvTimeRest(k, d);
    case SleepFewMs(d) => hide SleepMs; SleepMsRest(k, d);
    case SleepFewSecs(d) => hide SleepMs; if 0 <= d <= MAXSECONDS { SleepMsRest(k, 1000 * d); }
    case StartDeferral => DeferStartRest(k);
    case StopDeferral => hide DeferStop; DeferStopRest(k);
  }

  lemma KernelKept(k: KState, e: Event)
    requires KInv(k) && KernelEvent(e)
    requires MayBlock(e) || e.KillProc? || e == SuspendProc(k.curr) ==> k.ndefers == 0
    requires MayBlock(e) ==> k.curr != NULLPROC
    ensures KInv(KApply(k, e))
  {
    hide AtRest, SemExact, Counters, KApply;
    if SemEvent(e) {
      SemEventRest(k, e);
    } else {
      ProcEventRest(k, e);
    }
    KernelCounters(k, e);
  }

  // ----- what the semaphore operations do to waiting processes

  lemma WaitWaits(k: KState, s: int)
    requires Sized(k) && !BadSem(k, s)
    ensures W(SemWait(k, s)) == WWait(W(k), k.curr, s)
  {
    hide Resched;
  }

  lemma SignalWaits(k: KState, s: int)
    requires Sized(k) && !BadSem(k, s)
    ensures W(Signal(k, s)) == WSignal(W(k), s)
  {
    hide Resched;
  }

  lemma ResetWaits(k: KState, s: int, c: int)
    requires Sized(k) && !BadSem(k, s) && c >= 0
    ensures W(SemReset(k, s, c)) == WReset(W(k), s, c)
  {
    hide Resched, Drain;
  }

  lemma DeleteWaits(k: KState, s: int)
    requires AtRest(k) && SemExact(k, -1) && !BadSem(k, s)
    ensures W(SemDelete(k, s)) == WDelete(W(k), s)
  {
    RestSized(k);
    hide AtRest, SemDelete;
    SemDeleteRest(k, s);
  }

  /** signaln only takes processes off the queue that it signals. */
  lemma {:induction false} SignalTimesWaits(k: KState, s: int, n: nat)
    requires Sized(k) && 0 <= s < |k.sems|
    ensures var r := SignalTimes(k, s, n);
            && r.conts == k.conts
            && (forall j :: 0 <= j < |k.sems| && j != s ==> r.sems[j] == k.sems[j] && r.sq[j] == k.sq[j])
            && (forall p :: p in r.sq[s] ==> p in k.sq[s])
    decreases n
  {
    if n > 0 {
      var k1 := SignalOne(k, s);
      assert W(k1) == WSignal(W(k), s);
      SignalTimesWaits(k1, s, n - 1);
    }
  }

  /** A change that concerns no port's semaphore and no process inside a port operation. */
  ghost predicate Quiet(w: Waits, v: Waits, owner: seq<Owner>) {
    && |v.sems| == |v.sq| == |w.sems| == |w.sq| == |owner| && |v.conts| == |w.conts|
    && (forall j :: 0 <= j < |owner| && PortSide(owner[j]) ==> v.sems[j] == w.sems[j] && v.sq[j] == w.sq[j])
    && (forall j, p :: 0 <= j < |owner| && !PortSide(owner[j]) && p in v.sq[j] ==>
          0 <= p < |v.conts| && !PortCont(v.conts[p]))
    && (forall p :: 0 <= p < |w.conts| && (PortCont(w.conts[p]) || PortCont(v.conts[p])) ==> v.conts[p] == w.conts[p])
  }

  lemma QuietConts(w: Waits, pt: PState, owner: seq<Owner>, v: Waits)
    requires PInv(w, pt, owner)
    requires v.sems == w.sems && v.sq == w.sq && |v.conts| == |w.conts|
    requires forall p :: 0 <= p < |w.conts| && v.conts[p] != w.conts[p] ==>
        !PortCont(w.conts[p]) && !PortCont(v.conts[p])
    ensures Quiet(w, v, owner)
  {
    hide PortOk, ContOk, NodesOk;
    forall j, p | 0 <= j < |owner| && !PortSide(owner[j]) && p in v.sq[j]
      ensures 0 <= p < |v.conts| && !PortCont(v.conts[p])
    {
      assert SemOk(w, pt, owner, j);
    }
  }

  lemma QuietSem(w: Waits, pt: PState, owner: seq<Owner>, v: Waits, j: int, x: int)
    requires PInv(w, pt, owner) && 0 <= j < |owner| && !PortSide(owner[j])
    requires v.conts == w.conts && |v.sems| == |v.sq| == |w.sems|
    requires forall i :: 0 <= i < |w.sems| && i != j ==> v.sems[i] == w.sems[i] && v.sq[i] == w.sq[i]
    requires forall p :: p in v.sq[j] ==> p in w.sq[j] || p == x
    requires 0 <= x < |w.conts| && !PortCont(w.conts[x])
    ensures Quiet(w, v, owner)
  {
    hide PortOk, ContOk, NodesOk;
    forall i, p | 0 <= i < |owner| && !PortSide(owner[i]) && p in v.sq[i]
      ensures 0 <= p < |v.conts| && !PortCont(v.conts[p])
    {
      assert SemOk(w, pt, owner, i);
    }
  }

  lemma NewSemQuiet(s: Sys, c: int)
    requires Inv(s) && s.k.conts[s.k.curr].User?
    ensures Quiet(W(s.k), W(SemCreate(s.k, c)), s.owner)
  {
    var k, r := s.k, SemCreate(s.k, c);
    if r == k {
      QuietConts(W(k), s.pt, s.owner, W(r));
    } else {
      SidesUsed(W(k), s.pt, s.owner);
      QuietSem(W(k), s.pt, s.owner, W(r), NewSem(k), k.curr);
    }
  }

  /** A call by a process that is running its own code on a semaphore that is not a port's. */
  lemma SemEventQuiet(s: Sys, e: Event, j: int)
    requires Inv(s) && Enabled(s, e) && SemEvent(e) && UsesSem(e, j)
    ensures Quiet(W(s.k), W(KApply(s.k, e)), s.owner)
  {
    var k, w, r := s.k, W(s.k), KApply(s.k, e);
    if r == k {
      QuietConts(w, s.pt, s.owner, w);
    } else {
      SemEventWaits(k, e, j);
      hide PInv, KApply, KInv;
      QuietSem(w, s.pt, s.owner, W(r), j, k.curr);
    }
  }

  lemma SemEventWaits(k: KState, e: Event, j: int)
    requires KInv(k) && SemEvent(e) && UsesSem(e, j) && !BadSem(k, j)
    ensures var r := KApply(k, e);
            && r.conts == k.conts && |r.sems| == |k.sems|
            && (forall i :: 0 <= i < |k.sems| && i != j ==> r.sems[i] == k.sems[i] && r.sq[i] == k.sq[i])
            && (forall p :: p in r.sq[j] ==> p in k.sq[j] || p == k.curr)
  {
    hide AtRest, Counters;
    RestSized(k);
    match e
    case WaitOn(_) => WaitWaits(k, j); hide SemWait;
    case SignalOn(_) => SignalWaits(k, j); hide Signal;
    case SignalManyOn(_, n) =>
      if n >= 0 {
        SignalTimesWaits(DeferStart(k), j, n);
        hide SignalTimes;
      }
    case ResetSemaphore(_, c) => if c >= 0 { ResetWaits(k, j, c); hide SemReset; }
    case DeleteSemaphore(_) => DeleteWaits(k, j); hide SemDelete;
  }

  lemma ProcEventConts(k: KState, e: Event)
    requires Sized(k) && KernelEvent(e) && !SemEvent(e)
    ensures var r := KApply(k, e);
            && r.sems == k.sems && r.sq == k.sq && |r.conts| == |k.conts|
            && (forall p :: 0 <= p < |k.conts| && r.conts[p] != k.conts[p] ==>
                  !PortCont(r.conts[p]) && (p == k.curr || (k.procs[p].state == Free && r.conts[p].User?)))
            && (r.conts[k.curr] != k.conts[k.curr] ==>
                  e.ReceiveAny? || e.ReceiveWithin? || e.KillProc? || e.CreateProc?)
            && (r.conts[k.curr] != k.conts[k.curr] && r.conts[k.curr].InKill? ==>
                  e.KillProc? && 0 < r.conts[k.curr].victim < |k.procs|)
  {
    hide Resched, SleepMs, SleepSecs, Tick, Send, SleepFor, DeferStop, Suspend, Resume;
  }

  lemma KernelConts(s: Sys, e: Event)
    requires Inv(s) && Enabled(s, e) && KernelEvent(e)
    ensures Quiet(W(s.k), W(KApply(s.k, e)), s.owner)
    ensures forall p :: 0 <= p < |s.k.conts| && KApply(s.k, e).conts[p].InKill? ==>
        0 < KApply(s.k, e).conts[p].victim < |s.k.procs|
  {
    hide PInv, KInv;
    if SemEvent(e) {
      hide KApply;
      match e
      case NewSemaphore(c) => NewSemQuiet(s, c);
      case WaitOn(j) => SemEventQuiet(s, e, j);
      case SignalOn(j) => SemEventQuiet(s, e, j);
      case SignalManyOn(j, n) => SemEventQuiet(s, e, j);
      case ResetSemaphore(j, c) => SemEventQuiet(s, e, j);
      case DeleteSemaphore(j) => SemEventQuiet(s, e, j);
    } else {
      ProcEventConts(s.k, e);
      hide KApply;
      QuietConts(W(s.k), s.pt, s.owner, W(KApply(s.k, e)));
    }
  }

  /** While rescheduling stays deferred the caller stays current and in its own code. */
  lemma KernelDefer(k: KState, e: Event)
    requires Sized(k) && KernelEvent(e) && k.conts[k.curr].User?
    requires MayBlock(e) || e.KillProc? || e == SuspendProc(k.curr) ==> k.ndefers == 0
    ensures var r := KApply(k, e);
            NoneFreed(k, r) && (r.ndefers > 0 ==> r.curr == k.curr && r.conts[r.curr].User?)
  {
    if !SemEvent(e) {
      ProcEventConts(k, e);
    }
    hide Resched, SleepMs, SleepSecs, Tick, Send, SleepFor, DeferStop, Suspend, Resume, Receive, RecvTime, Kill;
    hide SemWait, Signal, Signaln, SemReset, SemDelete;
  }

  lemma KernelFree(s: Sys, e: Event)
    requires Inv(s) && Enabled(s, e) && KernelEvent(e)
    ensures var r := KApply(s.k, e);
            forall p :: 0 <= p < |r.procs| && r.procs[p].state == Free ==> r.conts[p].User?
  {
    KernelDefer(s.k, e);
    if !SemEvent(e) {
      ProcEventConts(s.k, e);
    } else {
      SemEventSameConts(s.k, e);
    }
    hide KApply, KInv, PInv;
  }

  lemma KernelEventInv(s: Sys, e: Event)
    requires Inv(s) && Enabled(s, e) && KernelEvent(e)
    ensures Inv(Apply(s, e))
  {
    var r := KApply(s.k, e);
    hide PInv, KApply;
    KernelKept(s.k, e);
    KernelConts(s, e);
    WaitsFromKernel(r);
    KernelDefer(s.k, e);
    KernelFree(s, e);
    hide KInv;
    NonPortStep(W(s.k), s.pt, s.owner, W(r));
  }

  lemma SemEventSameConts(k: KState, e: Event)
    requires Sized(k) && SemEvent(e)
    ensures KApply(k, e).conts == k.conts
  {
    hide NoneFreed, SameShape;
    match e
    case NewSemaphore(c) => hide NewSem;
    case WaitOn(j) => hide SemWait;
    case SignalOn(j) => hide Signal;
    case SignalManyOn(j, n) => hide Signaln;
    case ResetSemaphore(j, c) => hide SemReset;
    case DeleteSemaphore(j) => hide SemDelete;
  }

  // ----- entering and leaving port operations

  /** A new value of the current process's continuation changes nothing that the kernel invariant reads. */
  lemma ContKeepsKInv(k: KState, p: int, c: Cont)
    requires KInv(k) && 0 <= p < |k.conts|
    ensures KInv(SetCont(k, p, c))
  {
    hide AtRest, Sched;
    RestSized(k);
    RestFrame(k, SetCont(k, p, c));
  }

  lemma ReturnInv(s: Sys, rv: int)
    requires Inv(s) && s.k.conts[s.k.curr].User?
    ensures Inv(Return(s, rv))
  {
    hide KInv, PInv;
    ContKeepsKInv(s.k, s.k.curr, User(rv));
    var w := W(Return(s, rv).k);
    QuietConts(W(s.k), s.pt, s.owner, w);
    WaitsFromKernel(Return(s, rv).k);
    NonPortStep(W(s.k), s.pt, s.owner, w);
  }

  lemma SaneStep(s: Sys, r: Sys, c: Cont)
    requires Inv(s) && SizedSys(r) && NoneFreed(s.k, r.k)
    requires r.k.conts == s.k.conts[s.k.curr := c] && !c.InKill? && r.pt.stop != NullHead
    requires r.k.ndefers > 0 ==> r.k.curr == s.k.curr && c.User?
    ensures ContsSane(r)
  {
    hide PInv;
  }

  lemma EnterInv(s: Sys, i: int, send: bool, c: Cont)
    requires Inv(s) && s.k.conts[s.k.curr].User? && s.k.ndefers == 0 && s.k.curr != NULLPROC
    requires IsOpen(s.pt, i) && Match(c, send, i, s.pt.tab[i].seqno)
    ensures Inv(Enter(s, SemOf(s.pt.tab[i], send), c))
  {
    hide PInv;
    var sem := SemOf(s.pt.tab[i], send);
    if BadSem(s.k, sem) {
      ReturnInv(s, SYSERR);
    } else {
      WaitsFromKernel(s.k);
      EnterKernel(s.k, sem, c);
      var r := Enter(s, sem, c);
      WaitsFromKernel(r.k);
      hide KInv;
      WaitWaits(SetCont(s.k, s.k.curr, c), sem);
      EnterStep(W(s.k), s.pt, s.owner, s.k.curr, i, send, c, W(r.k));
      hide SemWait;
      SaneStep(s, r, c);
    }
  }

  lemma EnterKernel(k: KState, sem: int, c: Cont)
    requires KInv(k) && k.ndefers == 0 && k.curr != NULLPROC
    ensures KInv(SemWait(SetCont(k, k.curr, c), sem))
  {
    var k1 := SetCont(k, k.curr, c);
    ContKeepsKInv(k, k.curr, c);
    hide AtRest, SemExact, SemWait;
    RestSized(k1);
    SemWaitRest(k1, sem);
    ShapeKeepsCounters(k1, SemWait(k1, sem));
  }

  /** Leaving a port operation of an earlier epoch. */
  lemma StaleInv(s: Sys)
    requires Inv(s) && !s.k.halted
    requires var c := s.k.conts[s.k.curr]; (c.InSend? || c.InRecv?) && !Current(s.pt, c.port, c.seqno)
    ensures Inv(Return(s, SYSERR))
  {
    hide KInv, PInv;
    ContKeepsKInv(s.k, s.k.curr, User(SYSERR));
    WaitsFromKernel(s.k);
    StaleStep(W(s.k), s.pt, s.owner, s.k.curr, SYSERR);
    var r := Return(s, SYSERR);
    assert W(r.k) == W(s.k).(conts := W(s.k).conts[s.k.curr := User(SYSERR)]);
    SaneStep(s, r, User(SYSERR));
  }

  lemma HaltInv(s: Sys, why: Stop)
    requires Inv(s) && why != NullHead
    ensures Inv(Halt(s, why))
  {
    var r := Halt(s, why);
    hide PInv;
    assert KInv(r.k) by {
      hide OnLists, ReadySorted, NullRuns;
      RestFrame(s.k, r.k);
    }
    assert PInv(W(r.k), r.pt, r.owner) by { StopIrrelevant(W(s.k), s.pt, s.owner, why); }
  }

  lemma StopIrrelevant(w: Waits, pt: PState, owner: seq<Owner>, why: Stop)
    requires PInv(w, pt, owner)
    ensures PInv(w, pt.(stop := why), owner)
  {
    var pt' := pt.(stop := why);
    assert NodesOk(pt');
    forall i | 0 <= i < |pt.tab| ensures PortOk(w, pt', owner, i) {
      PortFrame(w, pt, owner, w, pt', owner, i);
    }
    hide PortOk, NodesOk;
    forall j | 0 <= j < |w.sems| ensures SemOk(w, pt', owner, j) {
      assert SemOk(w, pt, owner, j);
    }
    forall p | 0 <= p < |w.conts| ensures ContOk(w, pt', owner, w.conts[p]) {
      assert ContOk(w, pt, owner, w.conts[p]);
    }
  }

  /** The critical part of ptsend or ptrecv, then the signal that may switch context. */
  lemma PassInv(s: Sys, send: bool, rv: int, r: Sys)
    requires Inv(s) && (if send then s.k.conts[s.k.curr].InSend? else s.k.conts[s.k.curr].InRecv?)
    requires var i := s.k.conts[s.k.curr].port;
             && Current(s.pt, i, s.k.conts[s.k.curr].seqno)
             && (if send then s.pt.free != [] && r.pt == Append(s.pt, i, s.k.conts[s.k.curr].item)
                 else s.pt.tab[i].list != [] && r.pt == TakeHead(s.pt, i))
             && r.owner == s.owner
             && r.k == Signal(SetCont(s.k, s.k.curr, User(rv)), SemOf(s.pt.tab[i], !send))
    ensures Inv(r)
  {
    var x, i := s.k.curr, s.k.conts[s.k.curr].port;
    var other := SemOf(s.pt.tab[i], !send);
    hide PInv, PortOk, SemOk, ContOk, NodesOk;
    WaitsFromKernel(s.k);
    var k1 := SetCont(s.k, x, User(rv));
    ContKeepsKInv(s.k, x, User(rv));
    SignalKept(k1, other);
    WaitsFromKernel(r.k);
    hide KInv;
    OpenSides(W(s.k), s.pt, s.owner, i);
    if !BadSem(k1, other) {
      SignalWaits(k1, other);
    }
    assert W(r.k) == Passed(W(s.k), x, rv, other);
    hide Signal;
    PassStep(W(s.k), s.pt, s.owner, x, i, send, rv, r.pt, W(r.k));
    SaneStep(s, r, User(rv));
  }

  lemma SignalKept(k: KState, sem: int)
    requires KInv(k)
    ensures KInv(Signal(k, sem))
  {
    hide AtRest, SemExact, SignalOne;
    RestSized(k);
    if !BadSem(k, sem) {
      SignalOneRest(k, sem);
    }
    ShapeKeepsCounters(k, Signal(k, sem));
  }

  // ----- clearing a port

  /** semreset or semdelete on a port's semaphore. */
  lemma ClearSemKept(s: Sys, sem: int, ns: PtState, count: int)
    requires SizedSys(s) && KInv(s.k) && (ns == PtAlloc || ns == PtFree) && count >= 0
    requires HasSem(W(s.k), sem) ==> s.k.sems[sem].used
    ensures var r := ClearSem(s, sem, ns, count);
            && KInv(r.k) && NoneFreed(s.k, r.k) && SameShape(s.k, r.k)
            && W(r.k) == WClear(W(s.k), sem, ns, count)
            && r.owner == OwnerClear(s.owner, sem, ns)
  {
    hide AtRest, SemExact, SemReset, SemDelete;
    RestSized(s.k);
    if ns == PtAlloc {
      SemResetRest(s.k, sem, count);
      if !BadSem(s.k, sem) {
        ResetWaits(s.k, sem, count);
      }
      ShapeKeepsCounters(s.k, SemReset(s.k, sem, count));
    } else {
      SemDeleteRest(s.k, sem);
      if !BadSem(s.k, sem) {
        DeleteWaits(s.k, sem);
      }
      ShapeKeepsCounters(s.k, SemDelete(s.k, sem));
    }
    if BadSem(s.k, sem) {
      BadSemKept(s.k, sem, count);
    }
  }

  lemma BadSemKept(k: KState, sem: int, count: int)
    requires Sized(k) && BadSem(k, sem)
    ensures SemReset(k, sem, count) == k && SemDelete(k, sem) == k
  {
  }

  lemma ClearInv(s: Sys, i: int, ns: PtState)
    requires Inv(s) && s.k.conts[s.k.curr].User? && s.k.ndefers == 0
    requires IsOpen(s.pt, i) && (ns == PtAlloc || ns == PtFree)
    ensures Inv(PtClear(s, i, ns))
  {
    var x, p := s.k.curr, s.pt.tab[i];
    OpenSides(W(s.k), s.pt, s.owner, i);
    assert p.maxcnt >= 0 by { assert PortOk(W(s.k), s.pt, s.owner, i); }
    hide PInv, PortOk, SemOk, ContOk, NodesOk;
    var s1 := s.(pt := Flush(s.pt, i, ns), k := SetCont(s.k, x, InClear(i, ns, 1)));
    WaitsFromKernel(s.k);
    ContKeepsKInv(s.k, x, InClear(i, ns, 1));
    ClearSemKept(s1, p.ssem, ns, p.maxcnt);
    var r := PtClear(s, i, ns);
    WaitsFromKernel(r.k);
    hide KInv;
    assert r == ClearSem(s1, p.ssem, ns, p.maxcnt);
    hide ClearSem, PtClear;
    assert W(s1.k) == W(s.k).(conts := W(s.k).conts[x := InClear(i, ns, 1)]);
    ClearStep(W(s.k), s.pt, s.owner, x, i, ns, W(r.k), r.pt, r.owner);
    SaneStep(s, r, InClear(i, ns, 1));
  }

  /** What the process that clears a port finds when it goes on. */
  lemma ClearerFacts(s: Sys, i: int, ns: PtState, phase: int)
    requires Inv(s) && s.k.conts[s.k.curr] == InClear(i, ns, phase)
    ensures 0 <= i < |s.pt.tab| && (phase == 1 || phase == 2) && (ns == PtAlloc || ns == PtFree)
    ensures phase == 1 && HasSem(W(s.k), s.pt.tab[i].rsem) ==> s.k.sems[s.pt.tab[i].rsem].used
  {
    hide KInv, PortOk, NodesOk;
    assert ContOk(W(s.k), s.pt, s.owner, s.k.conts[s.k.curr]);
    var j := s.pt.tab[i].rsem;
    assert phase == 1 && HasSem(W(s.k), j) ==> SemOk(W(s.k), s.pt, s.owner, j);
  }

  lemma ClearEndInv(s: Sys, i: int, ns: PtState, phase: int)
    requires Inv(s) && s.k.conts[s.k.curr] == InClear(i, ns, phase)
    ensures 0 <= i < |s.pt.tab| && Inv(ClearEnd(s, i, ns, phase))
  {
    hide Inv;
    ClearerFacts(s, i, ns, phase);
    if phase == 1 {
      SecondClearInv(s, i, ns);
    } else {
      LastClearInv(s, i, ns);
    }
  }

  lemma SecondClearInv(s: Sys, i: int, ns: PtState)
    requires Inv(s) && s.k.conts[s.k.curr] == InClear(i, ns, 1) && 0 <= i < |s.pt.tab|
    ensures Inv(ClearEnd(s, i, ns, 1))
  {
    hide KInv, PInv, ClearSem, PortOk, SemOk, NodesOk, ContOk, WaitsOk;
    var x, w, p := s.k.curr, W(s.k), s.pt.tab[i];
    ClearerFacts(s, i, ns, 1);
    WaitsFromKernel(s.k);
    var s1 := s.(k := SetCont(s.k, x, InClear(i, ns, 2)));
    ContKeepsKInv(s.k, x, InClear(i, ns, 2));
    ClearSemKept(s1, p.rsem, ns, 0);
    var r := ClearEnd(s, i, ns, 1);
    WaitsFromKernel(r.k);
    assert W(s1.k) == w.(conts := w.conts[x := InClear(i, ns, 2)]);
    MidStep(w, s.pt, s.owner, x, i, ns, W(r.k), r.owner);
    SaneStep(s, r, InClear(i, ns, 2));
  }

  lemma LastClearInv(s: Sys, i: int, ns: PtState)
    requires Inv(s) && s.k.conts[s.k.curr] == InClear(i, ns, 2) && 0 <= i < |s.pt.tab|
    ensures Inv(ClearEnd(s, i, ns, 2))
  {
    hide KInv, PInv, PortOk, SemOk, NodesOk, ContOk, WaitsOk;
    var x, w := s.k.curr, W(s.k);
    ClearerFacts(s, i, ns, 2);
    WaitsFromKernel(s.k);
    var r := ClearEnd(s, i, ns, 2);
    NextInRange(s);
    ContKeepsKInv(s.k, x, User(OK));
    assert W(r.k) == w.(conts := w.conts[x := User(OK)]);
    LastStep(w, s.pt, s.owner, x, i, ns, W(r.k), r.pt);
    SaneStep(s, r, User(OK));
  }

  lemma NextInRange(s: Sys)
    requires Inv(s)
    ensures |s.pt.tab| > 0 ==> 0 <= s.pt.nextid < |s.pt.tab|
  {
  }

  // ----- ptcreate

  lemma ClaimKept(k: KState, owner: seq<Owner>, count: int, o: Owner)
    requires KInv(k) && |owner| == |k.sems| && count >= 0
    ensures var (k', owner', sem) := Claim(k, owner, count, o);
            && KInv(k') && k'.conts == k.conts && k'.sq == k.sq && k'.procs == k.procs
            && k'.curr == k.curr && k'.ndefers == k.ndefers
            && k'.sems == Fresh(k.sems, sem, count) && owner' == Own(owner, sem, o)
            && (0 <= sem < |k.sems| ==> !k.sems[sem].used) && (sem == SYSERR || 0 <= sem < |k.sems|)
  {
    hide AtRest, SemExact;
    RestSized(k);
    SemCreateRest(k, count);
  }

  lemma PtCreateFound(s: Sys, count: int, i: int)
    requires Inv(s) && s.k.conts[s.k.curr].User? && count >= 0
    requires 0 <= i < |s.pt.tab| && s.pt.tab[i].state == PtFree
    ensures Inv(OpenPort(s, count, i))
  {
    hide PInv, KInv, Claim;
    var x := s.k.curr;
    var r := OpenPort(s, count, i);
    var (k1, o1, ssem) := Claim(s.k, s.owner, count, SendSide(i));
    var (k2, o2, rsem) := Claim(k1, o1, 0, RecvSide(i));
    ClaimKept(s.k, s.owner, count, SendSide(i));
    ClaimKept(k1, o1, 0, RecvSide(i));
    ContKeepsKInv(k2, x, User(i));
    WaitsFromKernel(s.k);
    WaitsFromKernel(r.k);
    CreateStep(W(s.k), s.pt, s.owner, x, i, count, ssem, rsem, W(r.k), r.pt, r.owner);
    SaneStep(s, r, User(i));
  }

  lemma PtCreateInv(s: Sys, count: int)
    requires Inv(s) && s.k.conts[s.k.curr].User?
    ensures Inv(PtCreate(s, count))
  {
    NextInRange(s);
    hide PInv, KInv;
    if count < 0 || !(0 <= s.pt.nextid < |s.pt.tab|) || FindPort(s.pt.tab, s.pt.nextid, |s.pt.tab|) == SYSERR {
      ReturnInv(s, SYSERR);
    } else {
      PtCreateFound(s, count, FindPort(s.pt.tab, s.pt.nextid, |s.pt.tab|));
    }
  }

  // ----- kill, receive

  lemma TakeMessageInv(s: Sys)
    requires Inv(s) && (s.k.conts[s.k.curr].InReceive? || s.k.conts[s.k.curr].InRecvTime?)
    ensures Inv(s.(k := TakeMessage(s.k)))
  {
    var r := TakeMessage(s.k);
    hide PInv;
    assert KInv(r) by {
      hide AtRest;
      RestSized(s.k);
      TakeMessageRest(s.k);
      ShapeKeepsCounters(s.k, r);
    }
    WaitsFromKernel(r);
    hide KInv;
    QuietConts(W(s.k), s.pt, s.owner, W(r));
    NonPortStep(W(s.k), s.pt, s.owner, W(r));
    var v :| r.conts == s.k.conts[s.k.curr := User(v)];
    SaneStep(s, s.(k := r), User(v));
  }

  lemma KillEndWaits(k: KState, v: int)
    requires Sized(k) && 0 <= v < |k.procs|
    ensures var s := if k.procs[v].state == Wait then k.procs[v].sem else -1;
            W(KillEnd(k, v)) == WGone(W(k.(conts := k.conts[k.curr := User(OK)])), v, s)
  {
    hide Resched, Unsleep;
  }

  lemma KillEndKept(k: KState, v: int)
    requires KInv(k) && 0 < v < |k.procs| && k.ndefers == 0
    ensures KInv(KillEnd(k, v)) && KillEnd(k, v).ndefers == 0
    ensures forall p :: 0 <= p < |k.procs| && KillEnd(k, v).procs[p].state == Free ==>
        k.procs[p].state == Free || p == v
  {
    hide AtRest, SemExact, KillEnd;
    RestSized(k);
    KillEndRest(k, v);
    ShapeKeepsCounters(k, KillEnd(k, v));
    ReapFrees(k.(conts := k.conts[k.curr := User(OK)][v := User(OK)]), v);
    assert KillEnd(k, v) == Reap(k.(conts := k.conts[k.curr := User(OK)][v := User(OK)]), v) by {
      KillEndIsReap(k, v);
    }
  }

  lemma KillEndIsReap(k: KState, v: int)
    requires Sized(k) && 0 <= v < |k.procs|
    ensures KillEnd(k, v) == Reap(k.(conts := k.conts[k.curr := User(OK)][v := User(OK)]), v)
  {
    hide Reap;
  }

  lemma ReapFrees(k: KState, v: int)
    requires Sized(k) && 0 <= v < |k.procs|
    ensures forall p :: 0 <= p < |k.procs| && Reap(k, v).procs[p].state == Free ==>
        k.procs[p].state == Free || p == v
  {
    hide Resched, Unsleep, LeaveSem;
  }

  /** The killer leaves the kernel before the victim's place is looked at. */
  lemma KillerOut(s: Sys)
    requires Inv(s) && s.k.conts[s.k.curr].InKill?
    ensures PInv(W(s.k.(conts := s.k.conts[s.k.curr := User(OK)])), s.pt, s.owner)
  {
    var k1 := s.k.(conts := s.k.conts[s.k.curr := User(OK)]);
    WaitsFromKernel(s.k);
    hide PInv, KInv;
    QuietConts(W(s.k), s.pt, s.owner, W(k1));
    NonPortStep(W(s.k), s.pt, s.owner, W(k1));
  }

  lemma VictimPlace(k: KState, v: int)
    requires KInv(k) && 0 <= v < |k.procs|
    ensures forall j :: 0 <= j < |k.sq| ==>
        (v in k.sq[j] <==> j == if k.procs[v].state == Wait then k.procs[v].sem else -1)
  {
    assert AtHome(k, v, -1);
  }

  lemma SameLoss(sq: seq<seq<int>>, conts: seq<Cont>, pt: PState, v: int, x: int)
    requires |pt.hist| == |pt.tab| && 0 <= v < |conts| && 0 <= x < |conts| && !PortCont(conts[x])
    ensures AfterLoss(sq, conts[x := User(OK)], pt, v) == AfterLoss(sq, conts, pt, v)
  {
  }

  lemma KillEndPorts(s: Sys, v: int)
    requires Inv(s) && s.k.conts[s.k.curr] == InKill(v) && 0 < v < |s.k.procs|
    requires WaitsOk(W(KillEnd(s.k, v)))
    ensures PInv(W(KillEnd(s.k, v)), PtKillEnd(s, v).pt, s.owner)
  {
    var k1 := s.k.(conts := s.k.conts[s.k.curr := User(OK)]);
    var sem := if s.k.procs[v].state == Wait then s.k.procs[v].sem else -1;
    hide PInv, KInv, WaitsOk, AfterLoss, KillEnd, WGone;
    VictimPlace(s.k, v);
    KillerOut(s);
    KillEndWaits(s.k, v);
    SameLoss(s.k.sq, s.k.conts, s.pt, v, s.k.curr);
    KillStep(W(k1), s.pt, s.owner, v, sem, W(KillEnd(s.k, v)), PtKillEnd(s, v).pt);
  }

  lemma KillEndInv(s: Sys, v: int)
    requires Inv(s) && s.k.conts[s.k.curr] == InKill(v)
    ensures 0 < v < |s.k.procs| && Inv(PtKillEnd(s, v))
  {
    hide PInv, KInv, KillEnd, AfterLoss, W, WaitsOk;
    var r := PtKillEnd(s, v);
    KillEndKept(s.k, v);
    WaitsFromKernel(r.k);
    KillEndPorts(s, v);
    assert r.k.conts == s.k.conts[s.k.curr := User(OK)][v := User(OK)];
  }

  // ----- every step

  lemma ResumedInv(s: Sys)
    requires Inv(s) && !s.k.halted
    ensures Inv(Resumed(s))
  {
    var c := s.k.conts[s.k.curr];
    hide Inv;
    match c
    case User(_) =>
    case InReceive => TakeMessageInv(s);
    case InRecvTime => TakeMessageInv(s);
    case InKill(v) => KillEndInv(s, v);
    case InSend(i, e, m) => SendEndInv(s, i, e, m);
    case InRecv(i, e) => RecvEndInv(s, i, e);
    case InClear(i, ns, phase) => ClearEndInv(s, i, ns, phase);
  }

  lemma SendEndInv(s: Sys, i: int, e: int, m: int)
    requires Inv(s) && !s.k.halted && s.k.conts[s.k.curr] == InSend(i, e, m)
    ensures Inv(SendEnd(s, i, e, m))
  {
    hide KInv, PInv;
    if !Current(s.pt, i, e) {
      StaleInv(s);
    } else if s.pt.free == [] {
      HaltInv(s, OutOfNodes);
    } else {
      PassInv(s, true, OK, SendEnd(s, i, e, m));
    }
  }

  /** The message that the receivers' semaphore promised is there. */
  lemma HeadExists(w: Waits, pt: PState, owner: seq<Owner>, x: int)
    requires PInv(w, pt, owner) && 0 <= x < |w.conts| && !Blocked(w, x)
    requires w.conts[x].InRecv? && Current(pt, w.conts[x].port, w.conts[x].seqno)
    ensures pt.tab[w.conts[x].port].list != []
  {
    var i := w.conts[x].port;
    var p := pt.tab[i];
    assert ContOk(w, pt, owner, w.conts[x]) && PortOk(w, pt, owner, i);
    hide ContOk, SemOk, NodesOk;
    GrantedSome(w.conts, w.sq[p.rsem], false, i, p.seqno, x);
  }

  lemma RecvEndInv(s: Sys, i: int, e: int)
    requires Inv(s) && !s.k.halted && s.k.conts[s.k.curr] == InRecv(i, e)
    ensures Inv(RecvEnd(s, i, e))
  {
    if !Current(s.pt, i, e) {
      StaleInv(s);
    } else {
      WaitsFromKernel(s.k);
      HeadExists(W(s.k), s.pt, s.owner, s.k.curr);
      hide PInv, KInv;
      PassInv(s, false, s.pt.msgs[s.pt.tab[i].list[0]], RecvEnd(s, i, e));
    }
  }

  lemma PortCallInv(s: Sys, e: Event)
    requires Inv(s) && Enabled(s, e) && !KernelEvent(e) && e != Continue
    ensures Inv(Apply(s, e))
  {
    hide KInv, PInv, ContsSane, PtCreate, PtClear, Enter, Return;
    match e
    case CreatePort(c) => PtCreateInv(s, c);
    case SendToPort(i, m) =>
      if IsOpen(s.pt, i) { EnterInv(s, i, true, InSend(i, s.pt.tab[i].seqno, m)); } else { ReturnInv(s, SYSERR); }
    case ReceiveFromPort(i) =>
      if IsOpen(s.pt, i) { EnterInv(s, i, false, InRecv(i, s.pt.tab[i].seqno)); } else { ReturnInv(s, SYSERR); }
    case ResetPort(i) => PtClearInv(s, i, PtAlloc);
    case DeletePort(i) => PtClearInv(s, i, PtFree);
  }

  lemma PtClearInv(s: Sys, i: int, ns: PtState)
    requires Inv(s) && s.k.conts[s.k.curr].User? && s.k.ndefers == 0 && (ns == PtAlloc || ns == PtFree)
    ensures Inv(PtClear(s, i, ns))
  {
    hide KInv, PInv, ContsSane;
    if IsOpen(s.pt, i) { ClearInv(s, i, ns); } else { ReturnInv(s, SYSERR); }
  }

  /** Every enabled step keeps the invariant. */
  lemma StepInv(s: Sys, e: Event)
    requires Inv(s) && Enabled(s, e)
    ensures Inv(Apply(s, e))
  {
    hide KInv, PInv, ContsSane;
    if KernelEvent(e) {
      hide Apply;
      KernelEventInv(s, e);
    } else if e == Continue {
      hide Resumed;
      ResumedInv(s);
    } else {
      hide Apply;
      PortCallInv(s, e);
    }
  }

  // ----- whole runs

  /** A sequence of events each of which is enabled when it happens. */
  ghost predicate Run(s: Sys, es: seq<Event>)
    requires SizedSys(s)
    decreases |es|
  {
    es != [] ==> Enabled(s, es[0]) && Run(Apply(s, es[0]), es[1..])
  }

  ghost function After(s: Sys, es: seq<Event>): (r: Sys)
    requires SizedSys(s)
    ensures SizedSys(r)
    decreases |es|
  {
    if es == [] then s else After(Apply(s, es[0]), es[1..])
  }

  lemma {:induction false} RunInv(s: Sys, es: seq<Event>)
    requires Inv(s) && Run(s, es)
    ensures Inv(After(s, es))
    decreases |es|
  {
    if es != [] {
      StepInv(s, es[0]);
      RunInv(Apply(s, es[0]), es[1..]);
    }
  }
}
