/**
 The kernel's tables as the program keeps them: arrays that system calls update in
 place. Every method is proved to do exactly what the functions of KernelState say.
 */
module KernelTables {
  import opened Sequences
  import opened QueueTables
  import opened KernelState
  import opened KernelInvariants

  class Kernel {
    const queuetab: QueueTable
    const proctab: array<Proc>
    const stacks: array<Cont>
    const semtab: array<Sem>
    const quantum: int
    var currpid: int
    var ndefers: int
    var attempt: bool
    var preempt: int
    var nextsem: int
    var nextpid: int
    var prcount: int
    var halted: bool
    var clktimeMs: int
    var count1000: int
    var clktime: int

    ghost function Frame(): set<object> {
      {this, queuetab, queuetab.qnext, queuetab.qprev, queuetab.qkey, proctab, stacks, semtab}
    }

    /** Semaphore s waits on the s-th list, then come the ready list and the sleep queue: the
        order in which sysinit allocates them. */
    function SQueue(s: int): int { queuetab.nproc + 2 * s }

    function ReadyList(): int { queuetab.nproc + 2 * semtab.Length }

    function SleepQ(): int { queuetab.nproc + 2 * (semtab.Length + 1) }

    ghost predicate Valid()
      reads Frame()
    {
      && queuetab.Valid() && |queuetab.lists| == semtab.Length + 2
      && proctab.Length == stacks.Length == queuetab.nproc
      && 0 <= currpid < proctab.Length && 0 <= ndefers
    }

    ghost function Abs(): (k: KState)
      reads Frame()
      requires Valid()
      ensures Sized(k)
    {
      var n := semtab.Length;
      assert forall j :: 0 <= j < n ==> queuetab.lists[..n][j] == queuetab.lists[j];
      KState(proctab[..], stacks[..], semtab[..], queuetab.lists[..n], queuetab.lists[n], queuetab.lists[n + 1],
             queuetab.Keys(), currpid, ndefers, attempt, preempt, quantum, nextsem, nextpid, prcount, halted,
             clktimeMs, count1000, clktime)
    }

    /** sysinit: the tables as they are when the null process starts to run. */
    constructor (nproc: nat, nsem: nat, quantum: nat)
      requires nproc > 0 && quantum > 0
      ensures Valid() && fresh(Frame()) && Abs() == Booted(nproc, nsem, quantum)
    {
      this.quantum := quantum;
      queuetab := new QueueTable(nproc, nsem + 2);
      proctab := new Proc[nproc](_ => Proc(Free, 0, -1, false, 0, 0));
      stacks := new Cont[nproc](_ => User(OK));
      semtab := new Sem[nsem](_ => Sem(false, 0));
      currpid := NULLPROC;
      ndefers, attempt := 0, false;
      preempt := quantum;
      nextsem, nextpid, prcount, halted := 0, 1, 1, false;
      clktimeMs, count1000, clktime := 0, 1000, 0;
      new;
      proctab[NULLPROC] := proctab[NULLPROC].(state := Curr);
      AllocateQueues(queuetab, nsem);
      assert Abs().sq == Booted(nproc, nsem, quantum).sq;
    }

    /** The semaphores' queues, then the ready list, then (in clkinit) the sleep queue. */
    static method AllocateQueues(qt: QueueTable, nsem: nat)
      requires qt.Valid() && qt.lists == [] && qt.qnext.Length == qt.nproc + 2 * (nsem + 2)
      modifies qt, qt.qnext, qt.qprev, qt.qkey
      ensures qt.Valid() && |qt.lists| == nsem + 2 && qt.Keys() == old(qt.Keys())
      ensures forall j :: 0 <= j < nsem + 2 ==> qt.lists[j] == []
    {
      hide TableOk;
      var i := 0;
      while i < nsem
        invariant 0 <= i <= nsem && qt.Valid() && |qt.lists| == i && qt.Keys() == old(qt.Keys())
        invariant forall j :: 0 <= j < i ==> qt.lists[j] == []
      {
        var squeue := qt.NewQueue();
        assert squeue == qt.nproc + 2 * i;
        i := i + 1;
      }
      var readylist := qt.NewQueue();
      assert readylist == qt.nproc + 2 * nsem;
      var sleepq := qt.NewQueue();
      assert sleepq == qt.nproc + 2 * (nsem + 1);
    }

    predicate IsBadPid(pid: int)
      reads proctab
    {
      pid < 0 || pid >= proctab.Length || proctab[pid].state == Free
    }

    predicate IsBadSem(sem: int) {
      sem < 0 || sem >= semtab.Length
    }

    /** The list structure knows nothing of the process. */
    ghost predicate Floating(pid: int)
      reads queuetab
    {
      0 <= pid < queuetab.nproc && OnNoList(queuetab.lists, pid)
    }

    lemma FloatingHome(pid: int)
      requires Valid() && 0 <= pid < proctab.Length && AtHome(Abs(), pid, pid)
      ensures Floating(pid)
    {
      var n := semtab.Length;
      forall j | 0 <= j < |queuetab.lists| ensures pid !in queuetab.lists[j] {
        assert j < n ==> queuetab.lists[..n][j] == queuetab.lists[j];
      }
    }

    lemma LiftedFloats(pid: int)
      requires Valid() && Base(Abs(), pid) && 0 <= pid < proctab.Length
      ensures Floating(pid) && proctab[pid].prio >= 0
    {
      hide TableOk, ReadySorted, NullRuns;
      BaseHome(Abs(), pid);
      FloatingHome(pid);
    }

    static lemma BaseHome(k: KState, pid: int)
      requires Base(k, pid) && 0 <= pid < |k.procs|
      ensures AtHome(k, pid, pid) && k.procs[pid].prio >= 0
    {
    }

    // ----- insert.c, resched.c, ready.c

    method InsertReadyList(pid: int)
      requires Valid() && Base(Abs(), pid) && 0 <= pid < proctab.Length && proctab[pid].state != Free
      modifies Frame()
      ensures Valid() && Abs() == InsertReady(old(Abs()), pid)
    {
      hide TableOk, Base, Sized;
      ghost var k := Abs();
      ghost var n := semtab.Length;
      LiftedFloats(pid);
      proctab[pid] := proctab[pid].(state := Ready);
      var r := queuetab.Insert(pid, ReadyList(), proctab[pid].prio);
      assert proctab[..] == k.procs[pid := k.procs[pid].(state := Ready)];
      assert queuetab.lists[..n] == k.sq;
    }

    method DispatchFirst()
      requires Valid() && Abs().ready != [] && ndefers == 0
      modifies Frame()
      ensures Valid() && Abs() == Dispatch(old(Abs()))
    {
      ghost var k := Abs();
      ghost var n := semtab.Length;
      hide TableOk;
      currpid := queuetab.Dequeue(ReadyList());
      proctab[currpid] := proctab[currpid].(state := Curr);
      preempt := quantum;
      assert queuetab.lists[..n] == k.sq;
      assert proctab[..] == k.procs[currpid := k.procs[currpid].(state := Curr)];
    }

    method Resched()
      requires Valid() && Base(Abs(), -1)
      requires proctab[currpid].state == Curr || ndefers == 0
      modifies Frame()
      ensures Valid() && Abs() == KernelState.Resched(old(Abs()))
    {
      ghost var k := Abs();
      if ndefers > 0 {
        attempt := true;
        return;
      }
      assert AtHome(k, NULLPROC, -1);
      if proctab[currpid].state == Curr {
        queuetab.FirstOfList(ReadyList());
        if proctab[currpid].prio > queuetab.qkey[queuetab.FirstId(ReadyList())] {
          return;
        }
        hide TableOk, OnLists, ReadySorted, NullRuns;
        LiftCurr(k);
        InsertReadyBase(k, currpid);
        InsertReadyList(currpid);
      }
      hide TableOk, OnLists, ReadySorted, NullRuns, AtHome;
      DispatchFirst();
    }

    method ReschedCntl(start: bool) returns (r: int)
      requires Valid() && AtRest(Abs())
      modifies Frame()
      ensures Valid() && Abs() == if start then DeferStart(old(Abs())) else DeferStop(old(Abs()))
      ensures r == if !start && old(ndefers) <= 0 then SYSERR else OK
    {
      ghost var k := Abs();
      if start {
        ndefers := ndefers + 1;
        if ndefers == 1 {
          attempt := false;
        }
        return OK;
      }
      if ndefers <= 0 {
        return SYSERR;
      }
      BaseFrame(k, k.(ndefers := k.ndefers - 1), -1);
      hide TableOk, OnLists, ReadySorted, NullRuns, KernelState.Resched;
      ndefers := ndefers - 1;
      if ndefers == 0 && attempt {
        Resched();
      }
      return OK;
    }

    method ReadyUp(pid: int) returns (r: int)
      requires Valid()
      requires !BadPid(Abs(), pid) ==> Base(Abs(), pid) && pid != currpid && proctab[currpid].state == Curr
      modifies Frame()
      ensures Valid() && Abs() == ReadyProc(old(Abs()), pid)
      ensures r == if BadPid(old(Abs()), pid) then SYSERR else OK
    {
      if IsBadPid(pid) {
        return SYSERR;
      }
      hide TableOk, OnLists, ReadySorted, NullRuns, KernelState.Resched;
      InsertReadyBase(Abs(), pid);
      InsertReadyList(pid);
      Resched();
      return OK;
    }

    // ----- wait.c, signal.c, signaln.c, semreset.c, semdelete.c, semcreate.c

    /** Setting a count is a write to one table entry. */
    method WriteCount(sem: int, count: int)
      requires Valid() && 0 <= sem < semtab.Length
      modifies semtab
      ensures Valid() && Abs() == SetCount(old(Abs()), sem, count)
    {
      ghost var k := Abs();
      hide TableOk;
      semtab[sem] := semtab[sem].(count := count);
      assert semtab[..] == k.sems[sem := k.sems[sem].(count := count)];
    }

    method DequeueSem(sem: int) returns (pid: int)
      requires Valid() && 0 <= sem < semtab.Length
      modifies queuetab`lists, queuetab.qnext, queuetab.qprev
      ensures Valid()
      ensures var k := old(Abs());
              if k.sq[sem] == [] then pid == EMPTY && Abs() == k
              else pid == k.sq[sem][0] && Abs() == k.(sq := k.sq[sem := k.sq[sem][1..]])
    {
      ghost var k := Abs();
      hide TableOk;
      pid := queuetab.Dequeue(SQueue(sem));
      assert queuetab.lists[..semtab.Length] == if k.sq[sem] == [] then k.sq else k.sq[sem := k.sq[sem][1..]];
    }

    method GetFirstSem(sem: int) returns (pid: int)
      requires Valid() && 0 <= sem < semtab.Length
      modifies queuetab`lists, queuetab.qnext, queuetab.qprev
      ensures Valid()
      ensures var k := old(Abs());
              if k.sq[sem] == [] then pid == EMPTY && Abs() == k
              else pid == k.sq[sem][0] && Abs() == k.(sq := k.sq[sem := k.sq[sem][1..]])
    {
      ghost var k := Abs();
      hide TableOk;
      pid := queuetab.GetFirst(SQueue(sem));
      assert queuetab.lists[..semtab.Length] == if k.sq[sem] == [] then k.sq else k.sq[sem := k.sq[sem][1..]];
    }

    method EnqueueCurrent(sem: int)
      requires Valid() && AtRest(Abs()) && 0 <= sem < semtab.Length
      modifies Frame()
      ensures Valid() && Abs() == BlockOn(old(Abs()), sem)
    {
      hide TableOk, AtRest, Base, Sized;
      ghost var k := Abs();
      RestBase(k);
      LiftCurr(k);
      LiftedFloats(currpid);
      proctab[currpid] := proctab[currpid].(state := KernelState.Wait, sem := sem);
      var r := queuetab.Enqueue(currpid, SQueue(sem));
      assert proctab[..] == k.procs[currpid := k.procs[currpid].(state := KernelState.Wait, sem := sem)];
      assert queuetab.lists[..semtab.Length] == k.sq[sem := k.sq[sem] + [currpid]];
    }

    /** wait. A process that may have to wait must not be the null process and must not defer. */
    method Wait(sem: int) returns (r: int)
      requires Valid() && KInv(Abs()) && ndefers == 0 && currpid != NULLPROC
      modifies Frame()
      ensures Valid() && Abs() == SemWait(old(Abs()), sem)
      ensures r == if BadSem(old(Abs()), sem) then SYSERR else OK
    {
      if IsBadSem(sem) || !semtab[sem].used {
        return SYSERR;
      }
      ghost var k := Abs();
      RestFrame(k, SetCount(k, sem, k.sems[sem].count - 1));
      hide TableOk, AtRest, KernelState.Resched;
      WriteCount(sem, semtab[sem].count - 1);
      if semtab[sem].count < 0 {
        BlockOnBase(Abs(), sem);
        EnqueueCurrent(sem);
        Resched();
      }
      return OK;
    }

    /** The body that signal and the loop of signaln share. */
    method SignalOnce(sem: int)
      requires Valid() && AtRest(Abs()) && SemExact(Abs(), -1) && 0 <= sem < semtab.Length
      modifies Frame()
      ensures Valid() && Abs() == SignalOne(old(Abs()), sem)
    {
      ghost var k := Abs();
      hide TableOk, AtRest, KernelState.Resched;
      RestFrame(k, SetCount(k, sem, k.sems[sem].count + 1));
      WriteCount(sem, semtab[sem].count + 1);
      if semtab[sem].count - 1 < 0 {
        ReleaseBase(Abs(), sem);
        RestBase(Abs());
        var pid := DequeueSem(sem);
        var r := ReadyUp(pid);
      }
    }

    method Signal(sem: int) returns (r: int)
      requires Valid() && KInv(Abs())
      modifies Frame()
      ensures Valid() && Abs() == KernelState.Signal(old(Abs()), sem)
      ensures r == if BadSem(old(Abs()), sem) then SYSERR else OK
    {
      if IsBadSem(sem) || !semtab[sem].used {
        return SYSERR;
      }
      hide TableOk, AtRest, KernelState.Resched;
      SignalOnce(sem);
      return OK;
    }

    method Signaln(sem: int, n: int) returns (r: int)
      requires Valid() && KInv(Abs())
      modifies Frame()
      ensures Valid() && Abs() == KernelState.Signaln(old(Abs()), sem, n)
      ensures r == if n < 0 || BadSem(old(Abs()), sem) then SYSERR else OK
    {
      if IsBadSem(sem) || n < 0 || !semtab[sem].used {
        return SYSERR;
      }
      hide TableOk, AtRest, KernelState.Resched, SignalTimes, SemExact;
      DeferStartRest(Abs());
      assert SemExact(DeferStart(Abs()), -1) by { ExactFrame(Abs(), DeferStart(Abs())); }
      var s := ReschedCntl(true);
      SignalLoop(sem, n);
      s := ReschedCntl(false);
      return OK;
    }

    method SignalLoop(sem: int, n: nat)
      requires Valid() && AtRest(Abs()) && SemExact(Abs(), -1) && 0 <= sem < semtab.Length
      modifies Frame()
      ensures Valid() && AtRest(Abs()) && Abs() == SignalTimes(old(Abs()), sem, n)
    {
      hide TableOk, AtRest, SignalOne, SemExact;
      ghost var k := Abs();
      var count := n;
      while count > 0
        invariant 0 <= count <= n && Valid() && AtRest(Abs()) && SemExact(Abs(), -1)
        invariant SignalTimes(k, sem, n) == SignalTimes(Abs(), sem, count)
      {
        SignalOneRest(Abs(), sem);
        SignalOnce(sem);
        count := count - 1;
      }
    }

    /** The loop of semreset: until getfirst finds the queue empty. */
    method DrainQueue(sem: int)
      requires Valid() && AtRest(Abs()) && 0 <= sem < semtab.Length
      modifies Frame()
      ensures Valid() && AtRest(Abs()) && Abs() == Drain(old(Abs()), sem)
    {
      hide TableOk, AtRest, Base, KernelState.Resched, ReadyProc, BadPid;
      ghost var k := Abs();
      while true
        invariant Valid() && AtRest(Abs())
        invariant Drain(k, sem) == Drain(Abs(), sem)
        decreases |Abs().sq[sem]|
      {
        ghost var k1 := Abs();
        if k1.sq[sem] != [] {
          ReleaseBase(k1, sem);
          RestBase(k1);
          ReleaseRest(k1, sem);
        }
        var pid := GetFirstSem(sem);
        if pid == EMPTY {
          break;
        }
        var s := ReadyUp(pid);
      }
    }

    method SemReset(sem: int, count: int) returns (r: int)
      requires Valid() && KInv(Abs())
      modifies Frame()
      ensures Valid() && Abs() == KernelState.SemReset(old(Abs()), sem, count)
      ensures r == if count < 0 || BadSem(old(Abs()), sem) then SYSERR else OK
    {
      if count < 0 || IsBadSem(sem) || !semtab[sem].used {
        return SYSERR;
      }
      hide TableOk, AtRest, KernelState.Resched, Drain;
      DeferStartRest(Abs());
      var s := ReschedCntl(true);
      DrainQueue(sem);
      RestFrame(Abs(), SetCount(Abs(), sem, count));
      WriteCount(sem, count);
      s := ReschedCntl(false);
      return OK;
    }

    /** ready(getfirst(squeue)) on a non-empty queue. */
    method ReleaseFirst(sem: int)
      requires Valid() && AtRest(Abs()) && 0 <= sem < semtab.Length && Abs().sq[sem] != []
      modifies Frame()
      ensures Valid() && AtRest(Abs()) && Abs() == ReleaseHead(old(Abs()), sem)
    {
      hide TableOk, AtRest, Base, KernelState.Resched, ReadyProc, BadPid;
      ghost var k := Abs();
      ReleaseBase(k, sem);
      RestBase(k);
      ReleaseRest(k, sem);
      var pid := GetFirstSem(sem);
      var s := ReadyUp(pid);
    }

    /** The loop of semdelete: the count is compared with zero before each release, and incremented. */
    method DrainByCount(sem: int)
      requires Valid() && AtRest(Abs()) && 0 <= sem < semtab.Length
      requires var c := semtab[sem].count; if c < 0 then |Abs().sq[sem]| == -c else Abs().sq[sem] == []
      modifies Frame()
      ensures Valid() && AtRest(Abs()) && Abs() == DrainCount(old(Abs()), sem)
    {
      hide TableOk, AtRest, ReadyProc, ReleaseHead;
      ghost var k := Abs();
      while true
        invariant Valid() && AtRest(Abs())
        invariant var c := semtab[sem].count; if c < 0 then |Abs().sq[sem]| == -c else Abs().sq[sem] == []
        invariant DrainCount(k, sem) == DrainCount(Abs(), sem)
        decreases if semtab[sem].count < 0 then -semtab[sem].count else 0
      {
        var before := semtab[sem].count;
        RestFrame(Abs(), SetCount(Abs(), sem, before + 1));
        WriteCount(sem, before + 1);
        if before >= 0 {
          break;
        }
        ReleaseFirst(sem);
      }
    }

    method SemDelete(sem: int) returns (r: int)
      requires Valid() && KInv(Abs())
      modifies Frame()
      ensures Valid() && Abs() == KernelState.SemDelete(old(Abs()), sem)
      ensures r == if BadSem(old(Abs()), sem) then SYSERR else OK
    {
      if IsBadSem(sem) || !semtab[sem].used {
        return SYSERR;
      }
      hide TableOk, AtRest, KernelState.Resched, DrainCount;
      ghost var k := Abs();
      ghost var k0 := k.(sems := k.sems[sem := k.sems[sem].(used := false)]);
      RestFrame(k, k0);
      DeferStartRest(k0);
      semtab[sem] := semtab[sem].(used := false);
      assert semtab[..] == k0.sems;
      assert Abs() == k0;
      var s := ReschedCntl(true);
      DrainByCount(sem);
      s := ReschedCntl(false);
      return OK;
    }

    method NewSemId() returns (sem: int)
      requires Valid() && Counters(Abs())
      modifies this`nextsem, semtab
      ensures Valid() && sem == NewSem(old(Abs()))
      ensures var k := old(Abs());
              if sem == SYSERR then Abs() == k
              else Abs() == k.(sems := k.sems[sem := k.sems[sem].(used := true)], nextsem := Next(sem, |k.sems|))
    {
      hide TableOk;
      ghost var k := Abs();
      var n := semtab.Length;
      for i := 0 to n
        invariant semtab[..] == k.sems && (n > 0 ==> 0 <= nextsem < n)
        invariant n > 0 ==> FindSem(k.sems, k.nextsem, n) == FindSem(k.sems, nextsem, n - i)
        invariant n > 0 ==> nextsem == if k.nextsem + i < n then k.nextsem + i else k.nextsem + i - n
        invariant n == 0 ==> nextsem == k.nextsem
      {
        sem := nextsem;
        nextsem := nextsem + 1;
        if nextsem >= n {
          nextsem := 0;
        }
        if !semtab[sem].used {
          semtab[sem] := semtab[sem].(used := true);
          assert semtab[..] == k.sems[sem := k.sems[sem].(used := true)];
          return;
        }
      }
      return SYSERR;
    }

    method SemCreate(count: int) returns (sem: int)
      requires Valid() && Counters(Abs())
      modifies this`nextsem, semtab
      ensures Valid() && Abs() == KernelState.SemCreate(old(Abs()), count)
      ensures sem == if count < 0 then SYSERR else NewSem(old(Abs()))
    {
      hide TableOk;
      if count < 0 {
        return SYSERR;
      }
      ghost var k := Abs();
      sem := NewSemId();
      if sem == SYSERR {
        return;
      }
      semtab[sem] := semtab[sem].(count := count);
      assert semtab[..] == k.sems[sem := Sem(true, count)];
    }

    /** semcount. */
    method SemCount(sem: int) returns (count: int)
      requires Valid()
      ensures count == if BadSem(Abs(), sem) then SYSERR else Abs().sems[sem].count
    {
      if IsBadSem(sem) || !semtab[sem].used {
        return SYSERR;
      }
      return semtab[sem].count;
    }

    // ----- suspend.c, resume.c, create.c

    /** getitem on the ready list. */
    method TakeReady(pid: int)
      requires Valid() && pid in Abs().ready
      modifies queuetab`lists, queuetab.qnext, queuetab.qprev
      ensures Valid() && Abs() == old(Abs()).(ready := Without(old(Abs()).ready, pid))
    {
      ghost var k := Abs();
      ghost var n := semtab.Length;
      hide TableOk;
      queuetab.GetItem(pid, n, IndexOf(k.ready, pid));
      assert queuetab.lists[..n] == k.sq;
    }

    method WriteState(pid: int, st: PrState)
      requires Valid() && 0 <= pid < proctab.Length
      modifies proctab
      ensures Valid() && Abs() == SetState(old(Abs()), pid, st)
    {
      ghost var k := Abs();
      hide TableOk;
      proctab[pid] := proctab[pid].(state := st);
      assert proctab[..] == k.procs[pid := k.procs[pid].(state := st)];
    }

    method Suspend(pid: int) returns (r: int)
      requires Valid() && KInv(Abs()) && (pid == currpid ==> ndefers == 0)
      modifies Frame()
      ensures Valid() && Abs() == KernelState.Suspend(old(Abs()), pid)
      ensures var k := old(Abs());
              r == if BadPid(k, pid) || pid == NULLPROC || k.procs[pid].state !in {Curr, Ready} then SYSERR
                   else k.procs[pid].prio
    {
      if IsBadPid(pid) || pid == NULLPROC {
        return SYSERR;
      }
      if proctab[pid].state != Curr && proctab[pid].state != Ready {
        return SYSERR;
      }
      var prio := proctab[pid].prio;
      StateFacts(Abs(), pid);
      if proctab[pid].state == Ready {
        assert AtHome(Abs(), pid, -1);
        hide TableOk, AtRest, KernelState.Resched, Without;
        TakeReady(pid);
        WriteState(pid, Susp);
      } else {
        CurrLeaves(Abs(), Susp);
        hide TableOk, AtRest, OnLists, ReadySorted, KernelState.Resched;
        WriteState(pid, Susp);
        Resched();
      }
      return prio;
    }

    method Resume(pid: int) returns (r: int)
      requires Valid() && KInv(Abs())
      modifies Frame()
      ensures Valid() && Abs() == KernelState.Resume(old(Abs()), pid)
      ensures var k := old(Abs());
              r == if BadPid(k, pid) || k.procs[pid].state != Susp then SYSERR else k.procs[pid].prio
    {
      if IsBadPid(pid) {
        return SYSERR;
      }
      if proctab[pid].state != Susp {
        return SYSERR;
      }
      StateFacts(Abs(), pid);
      hide TableOk, OnLists, ReadySorted, KernelState.Resched, ReadyProc;
      var prio := proctab[pid].prio;
      var s := ReadyUp(pid);
      return prio;
    }

    method NewPid() returns (pid: int)
      requires Valid() && Counters(Abs())
      modifies this`nextpid
      ensures Valid() && pid == FindPid(old(Abs()).procs, old(nextpid), proctab.Length)
      ensures Abs() == old(Abs()).(nextpid := if pid == SYSERR then old(nextpid) else pid + 1)
    {
      hide TableOk, Sized;
      ghost var k := Abs();
      var n := proctab.Length;
      for i := 0 to n
        invariant proctab[..] == k.procs && 1 <= nextpid <= n
        invariant FindPid(k.procs, k.nextpid, n) == FindPid(k.procs, nextpid, n - i)
        invariant nextpid == if k.nextpid + i <= n then k.nextpid + i else k.nextpid + i - n
      {
        Wrap(nextpid, n);
        nextpid := nextpid % n;
        if proctab[nextpid].state == Free {
          pid := nextpid;
          nextpid := nextpid + 1;
          return;
        }
        nextpid := nextpid + 1;
      }
      return SYSERR;
    }

    static lemma Wrap(x: int, n: int)
      requires 1 <= x <= n
      ensures x % n == if x == n then 0 else x
    {
    }

    /** create: stkok tells whether getstk found memory for the stack. */
    method Create(stkok: bool, prio: int) returns (pid: int)
      requires Valid() && KInv(Abs())
      modifies Frame()
      ensures Valid() && Abs() == KernelState.Create(old(Abs()), stkok, prio)
      ensures pid == SYSERR <==> KernelState.Create(old(Abs()), stkok, prio).procs == old(Abs()).procs
      ensures pid != SYSERR ==> pid == FindPid(old(Abs()).procs, old(nextpid), proctab.Length)
    {
      hide TableOk, AtRest;
      ghost var k := Abs();
      if !stkok {
        return SYSERR;
      }
      pid := NewPid();
      if pid == SYSERR || prio < 1 {
        return SYSERR;
      }
      prcount := prcount + 1;
      assert k.procs[pid].state == Free;
      proctab[pid] := Proc(Susp, prio, -1, false, proctab[pid].msg, currpid);
      stacks[pid] := User(OK);
      assert proctab[..] == k.procs[pid := Proc(Susp, prio, -1, false, k.procs[pid].msg, k.curr)];
      assert stacks[..] == k.conts[pid := User(OK)];
    }

    // ----- insertd.c, unsleep.c, sleep.c, wakeup.c, clkhandler.c

    method SleepCurrent(st: PrState, delay: int)
      requires Valid() && AtRest(Abs()) && st != Free
      modifies Frame()
      ensures Valid() && Abs() == FallAsleep(old(Abs()), st, delay)
    {
      hide TableOk, AtRest, Base, Sized;
      ghost var k := Abs();
      RestBase(k);
      LiftCurr(k);
      LiftedFloats(currpid);
      var r := queuetab.InsertD(currpid, SleepQ(), delay);
      assert queuetab.lists[..semtab.Length] == k.sq;
      proctab[currpid] := proctab[currpid].(state := st);
      assert proctab[..] == k.procs[currpid := k.procs[currpid].(state := st)];
    }

    method SleepMs(delay: int) returns (r: int)
      requires Valid() && KInv(Abs()) && ndefers == 0 && currpid != NULLPROC
      modifies Frame()
      ensures Valid() && Abs() == KernelState.SleepMs(old(Abs()), delay)
      ensures r == if delay < 0 then SYSERR else OK
    {
      if delay < 0 {
        return SYSERR;
      }
      RestBase(Abs());
      if delay == 0 {
        hide TableOk, OnLists, ReadySorted, KernelState.Resched;
        Resched();
        return OK;
      }
      FallAsleepBase(Abs(), Sleep, delay);
      hide TableOk, OnLists, ReadySorted, KernelState.Resched, FallAsleep;
      SleepCurrent(Sleep, delay);
      Resched();
      return OK;
    }

    method SleepSecs(delay: int) returns (r: int)
      requires Valid() && KInv(Abs()) && ndefers == 0 && currpid != NULLPROC
      modifies Frame()
      ensures Valid() && Abs() == KernelState.SleepSecs(old(Abs()), delay)
      ensures r == if delay < 0 || delay > MAXSECONDS then SYSERR else OK
    {
      if delay < 0 || delay > MAXSECONDS {
        return SYSERR;
      }
      hide TableOk, KInv, KernelState.SleepMs;
      var s := SleepMs(1000 * delay);
      return OK;
    }

    method Unsleep(pid: int) returns (r: int)
      requires Valid() && Base(Abs(), -1)
      modifies Frame()
      ensures Valid() && Abs() == KernelState.Unsleep(old(Abs()), pid)
      ensures r == if BadPid(old(Abs()), pid) || !Asleep(old(Abs()).procs[pid].state) then SYSERR else OK
    {
      hide TableOk, Base, AtHome;
      if IsBadPid(pid) {
        return SYSERR;
      }
      if proctab[pid].state != Sleep && proctab[pid].state != RecTim {
        return SYSERR;
      }
      SleeperQueued(Abs(), pid);
      NextSleeper(pid);
      var pidnext := queuetab.qnext[pid];
      if pidnext < queuetab.nproc {
        queuetab.SetKey(pidnext, queuetab.qkey[pidnext] + queuetab.qkey[pid]);
      }
      TakeSleeper(pid);
      return OK;
    }

    static lemma SleeperQueued(k: KState, pid: int)
      requires Base(k, -1) && 0 <= pid < |k.procs|
      ensures Asleep(k.procs[pid].state) <==> pid in k.sleepq
    {
      assert AtHome(k, pid, -1);
    }

    /** The link of a sleeper leads to the one behind it, or past the process entries. */
    lemma NextSleeper(pid: int)
      requires Valid() && pid in Abs().sleepq
      ensures var l := Abs().sleepq; var i := IndexOf(l, pid);
              && 0 <= pid < queuetab.nproc <= queuetab.qkey.Length
              && pid < queuetab.qnext.Length
              && (i + 1 < |l| ==> queuetab.qnext[pid] == l[i + 1] && 0 <= l[i + 1] < queuetab.nproc)
              && (i + 1 == |l| ==> queuetab.qnext[pid] >= queuetab.nproc)
    {
      queuetab.Neighbours(SleepQ(), IndexOf(Abs().sleepq, pid));
    }

    /** getitem on the sleep queue. */
    method TakeSleeper(pid: int)
      requires Valid() && pid in Abs().sleepq
      modifies queuetab`lists, queuetab.qnext, queuetab.qprev
      ensures Valid() && Abs() == old(Abs()).(sleepq := Without(old(Abs()).sleepq, pid))
    {
      ghost var k := Abs();
      ghost var n := semtab.Length;
      hide TableOk;
      queuetab.GetItem(pid, n + 1, IndexOf(k.sleepq, pid));
      assert queuetab.lists[..n] == k.sq;
    }

    method DequeueSleeper() returns (pid: int)
      requires Valid() && Abs().sleepq != []
      modifies queuetab`lists, queuetab.qnext, queuetab.qprev
      ensures Valid() && pid == old(Abs()).sleepq[0]
      ensures Abs() == old(Abs()).(sleepq := old(Abs()).sleepq[1..])
    {
      ghost var k := Abs();
      hide TableOk;
      pid := queuetab.Dequeue(SleepQ());
      assert queuetab.lists[..semtab.Length] == k.sq;
    }

    /** nonempty(sleepq) and firstkey(sleepq), for a queue that may be empty. */
    lemma FirstSleeper()
      requires Valid()
      ensures 0 <= SleepQ() < queuetab.qnext.Length
      ensures 0 <= queuetab.FirstId(SleepQ()) < queuetab.qkey.Length
      ensures queuetab.IsEmpty(SleepQ()) <==> Abs().sleepq == []
      ensures Abs().sleepq != [] ==>
          queuetab.FirstId(SleepQ()) == Abs().sleepq[0] && 0 <= Abs().sleepq[0] < queuetab.nproc
    {
      queuetab.FirstOfList(SleepQ());
    }

    /** The loop of wakeup. */
    method WakeExpired()
      requires Valid() && AtRest(Abs())
      modifies Frame()
      ensures Valid() && AtRest(Abs()) && Abs() == WakeAll(old(Abs()))
    {
      hide TableOk, AtRest, Base, ReadyProc, BadPid;
      ghost var k := Abs();
      FirstSleeper();
      while !queuetab.IsEmpty(SleepQ()) && queuetab.qkey[queuetab.FirstId(SleepQ())] <= 0
        invariant Valid() && AtRest(Abs())
        invariant WakeAll(k) == WakeAll(Abs())
        invariant 0 <= SleepQ() < queuetab.qnext.Length
        invariant 0 <= queuetab.FirstId(SleepQ()) < queuetab.qkey.Length
        decreases |Abs().sleepq|
      {
        FirstSleeper();
        WakeHeadBase(Abs());
        WakeHeadRest(Abs());
        RestBase(Abs());
        var pid := DequeueSleeper();
        var s := ReadyUp(pid);
        FirstSleeper();
      }
      FirstSleeper();
    }

    method Wakeup()
      requires Valid() && AtRest(Abs())
      modifies Frame()
      ensures Valid() && Abs() == DeferStop(WakeAll(DeferStart(old(Abs()))))
    {
      hide TableOk, AtRest, WakeAll, KernelState.Resched;
      DeferStartRest(Abs());
      var s := ReschedCntl(true);
      WakeExpired();
      s := ReschedCntl(false);
    }

    /** clkhandler, for an interrupt that the timer did raise. */
    method ClkHandler()
      requires Valid() && KInv(Abs())
      modifies Frame()
      ensures Valid() && Abs() == Tick(old(Abs()))
    {
      ghost var k1 := CountTime(Abs());
      hide TableOk, AtRest, TickSleepers, TickPreempt;
      RestFrame(Abs(), k1);
      TickSleepersRest(k1);
      CountMs();
      TickQueue();
      TickQuantum();
    }

    method CountMs()
      requires Valid()
      modifies this`clktimeMs, this`count1000, this`clktime
      ensures Valid() && Abs() == CountTime(old(Abs()))
    {
      hide TableOk;
      clktimeMs := clktimeMs + 1;
      count1000 := count1000 - 1;
      if count1000 == 0 {
        clktime := clktime + 1;
        count1000 := 1000;
      }
    }

    method TickQueue()
      requires Valid() && AtRest(Abs())
      modifies Frame()
      ensures Valid() && Abs() == TickSleepers(old(Abs()))
    {
      hide TableOk, AtRest, KernelState.Resched, WakeAll;
      FirstSleeper();
      if !queuetab.IsEmpty(SleepQ()) {
        LowerHeadRest(Abs());
        var first := queuetab.FirstId(SleepQ());
        queuetab.SetKey(first, queuetab.qkey[first] - 1);
        if queuetab.qkey[first] == 0 {
          Wakeup();
        }
      }
    }

    method TickQuantum()
      requires Valid() && AtRest(Abs())
      modifies Frame()
      ensures Valid() && Abs() == TickPreempt(old(Abs()))
    {
      ghost var k := Abs();
      hide TableOk, OnLists, ReadySorted, KernelState.Resched;
      BaseFrame(k, k.(preempt := quantum), -1);
      preempt := preempt - 1;
      if preempt == 0 {
        preempt := quantum;
        Resched();
      }
    }

    // ----- send.c, receive.c, recvtime.c

    method WriteCont(pid: int, c: Cont)
      requires Valid() && 0 <= pid < stacks.Length
      modifies stacks
      ensures Valid() && Abs() == SetCont(old(Abs()), pid, c)
    {
      ghost var k := Abs();
      hide TableOk;
      stacks[pid] := c;
      assert stacks[..] == k.conts[pid := c];
    }

    method WriteMessage(pid: int, m: int, has: bool)
      requires Valid() && 0 <= pid < proctab.Length
      modifies proctab
      ensures Valid()
      ensures var k := old(Abs()); Abs() == k.(procs := k.procs[pid := k.procs[pid].(msg := m, hasmsg := has)])
    {
      ghost var k := Abs();
      hide TableOk;
      proctab[pid] := proctab[pid].(msg := m, hasmsg := has);
      assert proctab[..] == k.procs[pid := k.procs[pid].(msg := m, hasmsg := has)];
    }

    method Send(pid: int, m: int) returns (r: int)
      requires Valid() && AtRest(Abs())
      modifies Frame()
      ensures Valid() && Abs() == KernelState.Send(old(Abs()), pid, m)
      ensures r == if BadPid(old(Abs()), pid) || old(Abs()).procs[pid].hasmsg then SYSERR else OK
    {
      if IsBadPid(pid) {
        return SYSERR;
      }
      if proctab[pid].hasmsg {
        return SYSERR;
      }
      hide TableOk, OnLists, ReadySorted, ReadyProc, KernelState.Unsleep;
      MessageRest(Abs(), pid, m, true);
      WriteMessage(pid, m, true);
      StateFacts(Abs(), pid);
      if proctab[pid].state == Recv {
        var s := ReadyUp(pid);
      } else if proctab[pid].state == RecTim {
        UnsleepBase(Abs(), pid);
        var s := Unsleep(pid);
        s := ReadyUp(pid);
      }
      return OK;
    }

    /** receive, up to the point where a message is known to have arrived. */
    method Receive()
      requires Valid() && KInv(Abs()) && ndefers == 0 && currpid != NULLPROC
      modifies Frame()
      ensures Valid() && Abs() == KernelState.Receive(old(Abs()))
    {
      ghost var k1 := SetCont(Abs(), currpid, InReceive);
      RestFrame(Abs(), k1);
      hide TableOk, OnLists, ReadySorted, KernelState.Resched;
      WriteCont(currpid, InReceive);
      if !proctab[currpid].hasmsg {
        CurrLeaves(k1, Recv);
        WriteState(currpid, Recv);
        Resched();
      }
    }

    method RecvTime(maxwait: int)
      requires Valid() && KInv(Abs()) && ndefers == 0 && currpid != NULLPROC
      modifies Frame()
      ensures Valid() && Abs() == KernelState.RecvTime(old(Abs()), maxwait)
    {
      if maxwait < 0 {
        hide TableOk;
        WriteCont(currpid, User(SYSERR));
        return;
      }
      ghost var k1 := SetCont(Abs(), currpid, InRecvTime);
      RestFrame(Abs(), k1);
      hide TableOk, OnLists, ReadySorted, KernelState.Resched, FallAsleep;
      WriteCont(currpid, InRecvTime);
      if !proctab[currpid].hasmsg {
        FallAsleepBase(k1, RecTim, maxwait);
        SleepCurrent(RecTim, maxwait);
        Resched();
      }
    }

    /** The end of receive and of recvtime: the message, or TIMEOUT, goes to the caller. */
    method EndReceive()
      requires Valid() && (stacks[currpid].InReceive? || stacks[currpid].InRecvTime?)
      modifies Frame()
      ensures Valid() && Abs() == TakeMessage(old(Abs()))
    {
      hide TableOk;
      if stacks[currpid].InRecvTime? && !proctab[currpid].hasmsg {
        WriteCont(currpid, User(TIMEOUT));
        return;
      }
      var msg := proctab[currpid].msg;
      WriteMessage(currpid, msg, false);
      WriteCont(currpid, User(msg));
    }

    // ----- kill.c

    /** kill up to the notice to the parent. Nothing is left to do if this was the last user process. */
    method Kill(pid: int) returns (r: int)
      requires Valid() && AtRest(Abs()) && ndefers == 0
      modifies Frame()
      ensures Valid() && Abs() == KernelState.Kill(old(Abs()), pid)
      ensures r == if BadPid(old(Abs()), pid) || pid == NULLPROC then SYSERR else OK
    {
      hide TableOk, AtRest, KernelState.Send;
      if IsBadPid(pid) || pid == NULLPROC {
        return SYSERR;
      }
      ghost var k := Abs();
      RestFrame(k, k.(prcount := k.prcount - 1));
      prcount := prcount - 1;
      if prcount <= 1 {
        halted := true;
        return OK;
      }
      assert Abs() == k.(prcount := k.prcount - 1);
      NotifyParent(pid);
      return OK;
    }

    /** The notice to the victim's parent, with the rest of kill still to come. */
    method NotifyParent(pid: int)
      requires Valid() && 0 <= pid < proctab.Length && AtRest(Abs())
      modifies Frame()
      ensures Valid()
      ensures Abs() == KernelState.Send(SetCont(old(Abs()), old(currpid), InKill(pid)), old(proctab[pid].parent), pid)
    {
      hide TableOk, AtRest, KernelState.Send;
      RestFrame(Abs(), SetCont(Abs(), currpid, InKill(pid)));
      WriteCont(currpid, InKill(pid));
      var s := Send(proctab[pid].parent, pid);
    }

    /** The rest of kill, with the victim in whatever state it is by now. */
    method EndKill(pid: int)
      requires Valid() && KInv(Abs()) && ndefers == 0 && 0 < pid < proctab.Length
      modifies Frame()
      ensures Valid() && Abs() == KillEnd(old(Abs()), pid)
    {
      ghost var k := Abs();
      ghost var k1 := k.(conts := k.conts[k.curr := User(OK)][pid := User(OK)]);
      RestFrame(k, k1);
      hide TableOk, AtRest, Reap, SemExact;
      assert SemExact(k1, -1) by { ExactFrame(k, k1); }
      stacks[currpid] := User(OK);
      stacks[pid] := User(OK);
      assert stacks[..] == k1.conts;
      assert Abs() == k1;
      ReapVictim(pid);
    }

    method LeaveQueue(sem: int, pid: int)
      requires Valid() && 0 <= sem < semtab.Length && pid in Abs().sq[sem]
      modifies Frame()
      ensures Valid() && Abs() == LeaveSem(old(Abs()), sem, pid)
    {
      ghost var k := Abs();
      hide TableOk;
      WriteCount(sem, semtab[sem].count + 1);
      queuetab.GetItem(pid, sem, IndexOf(k.sq[sem], pid));
      assert queuetab.lists[..semtab.Length] == k.sq[sem := Without(k.sq[sem], pid)];
    }

    method ReapVictim(pid: int)
      requires Valid() && AtRest(Abs()) && SemExact(Abs(), -1) && 0 < pid < proctab.Length
      requires pid == currpid ==> ndefers == 0
      modifies Frame()
      ensures Valid() && Abs() == Reap(old(Abs()), pid)
    {
      ghost var k := Abs();
      assert AtHome(k, pid, -1);
      match proctab[pid].state {
        case Curr =>
          CurrLeaves(k, Free);
          hide TableOk, OnLists, ReadySorted, KernelState.Resched;
          WriteState(pid, Free);
          Resched();
        case Sleep =>
          hide TableOk, OnLists, ReadySorted, KernelState.Unsleep;
          var s := Unsleep(pid);
          WriteState(pid, Free);
        case RecTim =>
          hide TableOk, OnLists, ReadySorted, KernelState.Unsleep;
          var s := Unsleep(pid);
          WriteState(pid, Free);
        case Wait =>
          hide TableOk, OnLists, ReadySorted, LeaveSem;
          LeaveQueue(proctab[pid].sem, pid);
          WriteState(pid, Free);
        case Ready =>
          hide TableOk, OnLists, ReadySorted, Without;
          TakeReady(pid);
          WriteState(pid, Free);
        case Free =>
        case Recv =>
          hide TableOk;
          WriteState(pid, Free);
        case Susp =>
          hide TableOk;
          WriteState(pid, Free);
      }
    }
  }
}
