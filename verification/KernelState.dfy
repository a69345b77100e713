/**
 The kernel's tables as one value, and what each kernel function does to them.
 Every function below runs with interrupts disabled, so it is one atomic step up
 to the context switch that it ends with; what a process still has to do after
 being switched out in the middle of a system call is kept as its continuation.
 */
module KernelState {
  import opened Sequences
  import opened QueueTables

  const NULLPROC: int := 0
  const TIMEOUT: int := -3
  const MAXSECONDS: int := 2147483

  datatype PrState = Free | Curr | Ready | Recv | Sleep | Susp | Wait | RecTim

  datatype Proc = Proc(state: PrState, prio: int, sem: int, hasmsg: bool, msg: int, parent: int)

  datatype Sem = Sem(used: bool, count: int)

  datatype PtState = PtFree | PtLimbo | PtAlloc

  /** The part of a system call that is still to run, as the process's saved stack records it.
      User(rv): running its own code; rv is what its last multi-step call returned. */
  datatype Cont =
    | User(rv: int)
    | InReceive
    | InRecvTime
    | InKill(victim: int)
    | InSend(port: int, seqno: int, item: int)
    | InRecv(port: int, seqno: int)
    | InClear(port: int, newstate: PtState, phase: int)

  datatype KState = KState(
    procs: seq<Proc>, conts: seq<Cont>,
    sems: seq<Sem>, sq: seq<seq<int>>, ready: seq<int>, sleepq: seq<int>, key: seq<int>,
    curr: int, ndefers: int, attempt: bool, preempt: int, quantum: int,
    nextsem: int, nextpid: int, prcount: int, halted: bool,
    ms: int, count1000: int, secs: int)

  /** Table sizes agree and every list holds process numbers. */
  ghost predicate Sized(k: KState) {
    && |k.conts| == |k.procs| == |k.key| && |k.sq| == |k.sems|
    && 0 <= k.curr < |k.procs| && 0 <= k.ndefers
    && Within(k.ready, |k.procs|) && Within(k.sleepq, |k.procs|)
    && (forall j :: 0 <= j < |k.sq| ==> Within(k.sq[j], |k.procs|))
  }

  /** What the scheduler never touches. */
  ghost predicate SameSems(a: KState, b: KState) {
    a.sems == b.sems && a.sq == b.sq && a.conts == b.conts
  }

  /** The sizes, the counters that only their owners move, and, while rescheduling is deferred,
      the current process. Another current process starts with a full time slice. */
  ghost predicate SameShape(a: KState, b: KState) {
    && |a.procs| == |b.procs| && |a.sems| == |b.sems|
    && a.quantum == b.quantum && a.nextsem == b.nextsem && a.nextpid == b.nextpid
    && a.prcount == b.prcount && a.halted == b.halted
    && a.ms == b.ms && a.count1000 == b.count1000 && a.secs == b.secs
    && (b.preempt == a.preempt || b.preempt == a.quantum)
    && (a.curr != b.curr ==> b.preempt == a.quantum)
    && SameDefer(a, b)
  }

  /** The context switches only when rescheduling is not deferred. */
  ghost predicate SameDefer(a: KState, b: KState) {
    a.ndefers == b.ndefers && (a.ndefers > 0 ==> a.curr == b.curr)
  }

  /** No process has become free. */
  ghost predicate NoneFreed(a: KState, b: KState) {
    |a.procs| == |b.procs| && forall p :: 0 <= p < |a.procs| && b.procs[p].state == Free ==> a.procs[p].state == Free
  }

  predicate BadPid(k: KState, p: int) {
    p < 0 || p >= |k.procs| || k.procs[p].state == Free
  }

  predicate BadSem(k: KState, s: int) {
    s < 0 || s >= |k.sems| || !k.sems[s].used
  }

  function SetState(k: KState, p: int, st: PrState): KState
    requires 0 <= p < |k.procs|
  {
    k.(procs := k.procs[p := k.procs[p].(state := st)])
  }

  function SetCont(k: KState, p: int, c: Cont): KState
    requires 0 <= p < |k.conts|
  {
    k.(conts := k.conts[p := c])
  }

  function SetCount(k: KState, s: int, c: int): KState
    requires 0 <= s < |k.sems|
  {
    k.(sems := k.sems[s := k.sems[s].(count := c)])
  }

  // ----- scheduler: insert.c, resched.c, ready.c

  function FirstKey(k: KState): int
    requires Sized(k)
  {
    if k.ready == [] then MINKEY else k.key[k.ready[0]]
  }

  function InsertReady(k: KState, p: int): (r: KState)
    requires Sized(k) && 0 <= p < |k.procs|
    ensures Sized(r) && NoneFreed(k, r) && SameSems(k, r) && SameShape(k, r)
    ensures r.sleepq == k.sleepq && r.curr == k.curr && r.attempt == k.attempt
  {
    SetState(k, p, Ready).(
    ready := InsertList(k.ready, k.key, p, k.procs[p].prio),
    key := k.key[p := k.procs[p].prio])
  }

  function Dispatch(k: KState): (r: KState)
    requires Sized(k) && k.ndefers == 0
    ensures Sized(r) && NoneFreed(k, r) && SameSems(k, r) && SameShape(k, r)
    ensures r.sleepq == k.sleepq && r.attempt == k.attempt
  {
    if k.ready == [] then k
    else SetState(k, k.ready[0], Curr).(ready := k.ready[1..], curr := k.ready[0], preempt := k.quantum)
  }

  function Resched(k: KState): (r: KState)
    requires Sized(k)
    ensures Sized(r) && NoneFreed(k, r) && SameSems(k, r) && SameShape(k, r)
    ensures r.sleepq == k.sleepq
  {
    if k.ndefers > 0 then k.(attempt := true)
    else if k.procs[k.curr].state != Curr then Dispatch(k)
    else if k.procs[k.curr].prio > FirstKey(k) then k
    else Dispatch(InsertReady(k, k.curr))
  }

  function DeferStart(k: KState): KState {
    k.(ndefers := k.ndefers + 1, attempt := if k.ndefers == 0 then false else k.attempt)
  }

  function DeferStop(k: KState): (r: KState)
    requires Sized(k)
    ensures Sized(r) && NoneFreed(k, r) && SameSems(k, r) && r.sleepq == k.sleepq
    ensures r.ndefers == (if k.ndefers <= 0 then k.ndefers else k.ndefers - 1)
    ensures SameShape(k.(ndefers := r.ndefers), r)
  {
    if k.ndefers <= 0 then k
    else if k.ndefers == 1 && k.attempt then Resched(k.(ndefers := 0))
    else k.(ndefers := k.ndefers - 1)
  }

  function ReadyProc(k: KState, p: int): (r: KState)
    requires Sized(k)
    ensures Sized(r) && NoneFreed(k, r) && SameSems(k, r) && SameShape(k, r)
    ensures r.sleepq == k.sleepq
  {
    if BadPid(k, p) then k else Resched(InsertReady(k, p))
  }

  function Suspend(k: KState, p: int): (r: KState)
    requires Sized(k)
    ensures Sized(r) && NoneFreed(k, r) && SameSems(k, r) && SameShape(k, r)
  {
    if BadPid(k, p) || p == NULLPROC then k
    else if k.procs[p].state == Ready then
      WithoutWithin(k.ready, p, |k.procs|);
      SetState(k, p, Susp).(ready := Without(k.ready, p))
    else if k.procs[p].state == Curr then Resched(SetState(k, p, Susp))
    else k
  }

  function Resume(k: KState, p: int): (r: KState)
    requires Sized(k)
    ensures Sized(r) && NoneFreed(k, r) && SameSems(k, r) && SameShape(k, r)
  {
    if BadPid(k, p) || k.procs[p].state != Susp then k else ReadyProc(k, p)
  }

  // ----- semaphores: wait.c, signal.c, signaln.c, semreset.c, semdelete.c, semcreate.c

  /** ready(dequeue(squeue)) on a non-empty queue. */
  function ReleaseHead(k: KState, s: int): (r: KState)
    requires Sized(k) && 0 <= s < |k.sems| && k.sq[s] != []
    ensures Sized(r) && NoneFreed(k, r) && SameShape(k, r) && r.conts == k.conts && r.sleepq == k.sleepq
    ensures r.sems == k.sems && r.sq == k.sq[s := k.sq[s][1..]]
  {
    ReadyProc(k.(sq := k.sq[s := k.sq[s][1..]]), k.sq[s][0])
  }

  /** The increment and the release that signal and signaln share. */
  function SignalOne(k: KState, s: int): (r: KState)
    requires Sized(k) && 0 <= s < |k.sems|
    ensures Sized(r) && NoneFreed(k, r) && SameShape(k, r) && r.conts == k.conts && r.sleepq == k.sleepq
  {
    var k1 := SetCount(k, s, k.sems[s].count + 1);
    if k.sems[s].count < 0 && k.sq[s] != [] then ReleaseHead(k1, s) else k1
  }

  function Signal(k: KState, s: int): (r: KState)
    requires Sized(k)
    ensures Sized(r) && NoneFreed(k, r) && SameShape(k, r) && r.conts == k.conts && r.sleepq == k.sleepq
  {
    if BadSem(k, s) then k else SignalOne(k, s)
  }

  function SignalTimes(k: KState, s: int, n: nat): (r: KState)
    requires Sized(k) && 0 <= s < |k.sems|
    ensures Sized(r) && NoneFreed(k, r) && SameShape(k, r) && r.conts == k.conts && r.sleepq == k.sleepq
    decreases n
  {
    if n == 0 then k else SignalTimes(SignalOne(k, s), s, n - 1)
  }

  function Signaln(k: KState, s: int, n: int): (r: KState)
    requires Sized(k)
    ensures Sized(r) && NoneFreed(k, r) && SameShape(k, r) && r.conts == k.conts
  {
    if n < 0 || BadSem(k, s) then k else DeferStop(SignalTimes(DeferStart(k), s, n))
  }

  function BlockOn(k: KState, s: int): (r: KState)
    requires Sized(k) && 0 <= s < |k.sems|
    ensures Sized(r) && NoneFreed(k, r) && SameShape(k, r) && r.conts == k.conts && r.sems == k.sems
  {
    k.(procs := k.procs[k.curr := k.procs[k.curr].(state := Wait, sem := s)],
       sq := k.sq[s := k.sq[s] + [k.curr]])
  }

  function SemWait(k: KState, s: int): (r: KState)
    requires Sized(k)
    ensures Sized(r) && NoneFreed(k, r) && SameShape(k, r) && r.conts == k.conts
  {
    if BadSem(k, s) then k
    else
      var k1 := SetCount(k, s, k.sems[s].count - 1);
      if k1.sems[s].count >= 0 then k1 else Resched(BlockOn(k1, s))
  }

  /** Releases until the queue is empty (semreset). */
  function Drain(k: KState, s: int): (r: KState)
    requires Sized(k) && 0 <= s < |k.sems|
    ensures Sized(r) && NoneFreed(k, r) && SameShape(k, r) && r.conts == k.conts && r.sleepq == k.sleepq
    ensures r.sems == k.sems && r.sq == k.sq[s := []]
    decreases |k.sq[s]|
  {
    if k.sq[s] == [] then k else Drain(ReleaseHead(k, s), s)
  }

  function SemReset(k: KState, s: int, c: int): (r: KState)
    requires Sized(k)
    ensures Sized(r) && NoneFreed(k, r) && SameShape(k, r) && r.conts == k.conts
  {
    if c < 0 || BadSem(k, s) then k
    else DeferStop(SetCount(Drain(DeferStart(k), s), s, c))
  }

  /** Releases until the count is no longer negative (semdelete); the last test still increments. */
  function DrainCount(k: KState, s: int): (r: KState)
    requires Sized(k) && 0 <= s < |k.sems|
    ensures Sized(r) && NoneFreed(k, r) && SameShape(k, r) && r.conts == k.conts && r.sleepq == k.sleepq
    decreases if k.sems[s].count < 0 then -k.sems[s].count else 0
  {
    var k1 := SetCount(k, s, k.sems[s].count + 1);
    if k.sems[s].count >= 0 then k1
    else DrainCount(if k.sq[s] == [] then k1 else ReleaseHead(k1, s), s)
  }

  function SemDelete(k: KState, s: int): (r: KState)
    requires Sized(k)
    ensures Sized(r) && NoneFreed(k, r) && SameShape(k, r) && r.conts == k.conts
  {
    if BadSem(k, s) then k
    else DeferStop(DrainCount(DeferStart(k.(sems := k.sems[s := k.sems[s].(used := false)])), s))
  }

  function Next(i: int, n: int): int {
    if i + 1 >= n then 0 else i + 1
  }

  /** newsem's search: the first unused entry at or after next, in cyclic order. */
  function FindSem(sems: seq<Sem>, next: int, n: nat): (s: int)
    requires 0 <= next < |sems|
    ensures s == SYSERR || (0 <= s < |sems| && !sems[s].used)
    decreases n
  {
    if n == 0 then SYSERR
    else if !sems[next].used then next
    else FindSem(sems, Next(next, |sems|), n - 1)
  }

  function NewSem(k: KState): int {
    if 0 <= k.nextsem < |k.sems| then FindSem(k.sems, k.nextsem, |k.sems|) else SYSERR
  }

  function SemCreate(k: KState, c: int): (r: KState)
    ensures r.conts == k.conts && r.curr == k.curr && r.procs == k.procs && |r.sems| == |k.sems|
  {
    var s := NewSem(k);
    if c < 0 || s == SYSERR then k
    else k.(sems := k.sems[s := Sem(true, c)], nextsem := Next(s, |k.sems|))
  }

  // ----- the clock: insertd.c, unsleep.c, sleep.c, wakeup.c, clkhandler.c

  function FallAsleep(k: KState, st: PrState, delay: int): (r: KState)
    requires Sized(k) && st != Free
    ensures Sized(r) && NoneFreed(k, r) && SameSems(k, r) && SameShape(k, r)
  {
    SetState(k, k.curr, st).(
    sleepq := DeltaList(k.sleepq, k.key, k.curr, delay),
    key := DeltaKeys(k.sleepq, k.key, k.curr, delay))
  }

  function SleepFor(k: KState, st: PrState, delay: int): (r: KState)
    requires Sized(k) && st != Free
    ensures Sized(r) && NoneFreed(k, r) && SameSems(k, r) && SameShape(k, r)
  {
    Resched(FallAsleep(k, st, delay))
  }

  function SleepMs(k: KState, delay: int): (r: KState)
    requires Sized(k)
    ensures Sized(r) && NoneFreed(k, r) && SameSems(k, r) && SameShape(k, r)
  {
    if delay < 0 then k else if delay == 0 then Resched(k) else SleepFor(k, Sleep, delay)
  }

  function SleepSecs(k: KState, delay: int): (r: KState)
    requires Sized(k)
    ensures Sized(r) && NoneFreed(k, r) && SameSems(k, r) && SameShape(k, r)
  {
    if delay < 0 || delay > MAXSECONDS then k else SleepMs(k, 1000 * delay)
  }

  /** The keys once p has left the sleep queue: its successor takes p's delay over. */
  function UnsleepKeys(list: seq<int>, key: seq<int>, p: int): (r: seq<int>)
    requires Within(list, |key|) && p in list
    ensures |r| == |key|
    ensures forall x :: 0 <= x < |key| && x !in list ==> r[x] == key[x]
  {
    var i := IndexOf(list, p);
    if i + 1 < |list| then key[list[i + 1] := key[list[i + 1]] + key[p]] else key
  }

  function Unsleep(k: KState, p: int): (r: KState)
    requires Sized(k)
    ensures Sized(r) && NoneFreed(k, r) && SameSems(k, r) && SameShape(k, r)
    ensures r.procs == k.procs && r.ready == k.ready && r.curr == k.curr
    ensures r.ndefers == k.ndefers && r.attempt == k.attempt
  {
    if BadPid(k, p) || !(k.procs[p].state == Sleep || k.procs[p].state == RecTim) || p !in k.sleepq then k
    else
      WithoutWithin(k.sleepq, p, |k.procs|);
      k.(key := UnsleepKeys(k.sleepq, k.key, p), sleepq := Without(k.sleepq, p))
  }

  function WakeAll(k: KState): (r: KState)
    requires Sized(k)
    ensures Sized(r) && NoneFreed(k, r) && SameSems(k, r) && SameShape(k, r)
    decreases |k.sleepq|
  {
    if k.sleepq == [] || k.key[k.sleepq[0]] > 0 then k
    else WakeAll(ReadyProc(k.(sleepq := k.sleepq[1..]), k.sleepq[0]))
  }

  function CountTime(k: KState): KState {
    if k.count1000 == 1 then k.(ms := k.ms + 1, count1000 := 1000, secs := k.secs + 1)
    else k.(ms := k.ms + 1, count1000 := k.count1000 - 1)
  }

  function LowerHead(k: KState): (r: KState)
    requires Sized(k) && k.sleepq != []
    ensures Sized(r) && NoneFreed(k, r)
  {
    k.(key := k.key[k.sleepq[0] := k.key[k.sleepq[0]] - 1])
  }

  /** The head's key goes down; at exactly zero the expired sleepers are woken. */
  function TickSleepers(k: KState): (r: KState)
    requires Sized(k)
    ensures Sized(r) && NoneFreed(k, r) && SameSems(k, r) && SameShape(k, r)
  {
    if k.sleepq == [] then k
    else
      var k1 := LowerHead(k);
      if k1.key[k1.sleepq[0]] == 0 then DeferStop(WakeAll(DeferStart(k1))) else k1
  }

  function TickPreempt(k: KState): (r: KState)
    requires Sized(k)
    ensures Sized(r) && NoneFreed(k, r) && SameSems(k, r)
    ensures SameShape(k.(preempt := r.preempt), r) && r.preempt in {k.preempt - 1, k.quantum}
  {
    if k.preempt == 1 then Resched(k.(preempt := k.quantum)) else k.(preempt := k.preempt - 1)
  }

  function Tick(k: KState): (r: KState)
    requires Sized(k)
    ensures Sized(r) && NoneFreed(k, r) && SameSems(k, r) && SameDefer(k, r)
  {
    TickPreempt(TickSleepers(CountTime(k)))
  }

  // ----- one-slot messages: send.c, receive.c, recvtime.c

  function Deliver(k: KState, p: int, m: int): KState
    requires 0 <= p < |k.procs|
  {
    k.(procs := k.procs[p := k.procs[p].(msg := m, hasmsg := true)])
  }

  function Send(k: KState, p: int, m: int): (r: KState)
    requires Sized(k)
    ensures Sized(r) && NoneFreed(k, r) && SameSems(k, r) && SameShape(k, r)
  {
    if BadPid(k, p) || k.procs[p].hasmsg then k
    else
      var k1 := Deliver(k, p, m);
      if k.procs[p].state == Recv then ReadyProc(k1, p)
      else if k.procs[p].state == RecTim then ReadyProc(Unsleep(k1, p), p)
      else k1
  }

  function Receive(k: KState): (r: KState)
    requires Sized(k)
    ensures Sized(r) && NoneFreed(k, r) && SameShape(k, r) && r.sems == k.sems && r.sq == k.sq
    ensures r.conts == k.conts[k.curr := InReceive]
  {
    var k1 := SetCont(k, k.curr, InReceive);
    if k.procs[k.curr].hasmsg then k1 else Resched(SetState(k1, k.curr, Recv))
  }

  function RecvTime(k: KState, maxwait: int): (r: KState)
    requires Sized(k)
    ensures Sized(r) && NoneFreed(k, r) && SameShape(k, r) && r.sems == k.sems && r.sq == k.sq
    ensures r.conts == k.conts[k.curr := if maxwait < 0 then User(SYSERR) else InRecvTime]
  {
    if maxwait < 0 then SetCont(k, k.curr, User(SYSERR))
    else
      var k1 := SetCont(k, k.curr, InRecvTime);
      if k.procs[k.curr].hasmsg then k1 else SleepFor(k1, RecTim, maxwait)
  }

  /** The end of receive and of recvtime, run when the caller is current again. */
  function TakeMessage(k: KState): (r: KState)
    requires Sized(k)
    ensures Sized(r) && NoneFreed(k, r) && SameShape(k, r) && r.sems == k.sems && r.sq == k.sq
    ensures exists v :: r.conts == k.conts[k.curr := User(v)]
  {
    var p := k.procs[k.curr];
    if k.conts[k.curr] == InRecvTime && !p.hasmsg then SetCont(k, k.curr, User(TIMEOUT))
    else SetCont(k.(procs := k.procs[k.curr := p.(hasmsg := false)]), k.curr, User(p.msg))
  }

  // ----- processes: create.c, kill.c

  /** newpid's search; next runs from 1 to the table size. */
  function FindPid(procs: seq<Proc>, next: int, n: nat): (p: int)
    requires |procs| > 0
    ensures p == SYSERR || (0 <= p < |procs| && procs[p].state == Free)
    decreases n
  {
    if n == 0 then SYSERR
    else if procs[next % |procs|].state == Free then next % |procs|
    else FindPid(procs, next % |procs| + 1, n - 1)
  }

  /** create: stkok says whether getstk found a stack. A bad priority is noticed only after
      newpid has moved on. */
  function Create(k: KState, stkok: bool, prio: int): (r: KState)
    requires Sized(k)
    ensures Sized(r) && NoneFreed(k, r) && SameDefer(k, r) && r.sems == k.sems && r.sq == k.sq
  {
    var p := FindPid(k.procs, k.nextpid, |k.procs|);
    if !stkok || p == SYSERR then k
    else if prio < 1 then k.(nextpid := p + 1)
    else k.(nextpid := p + 1, prcount := k.prcount + 1,
            procs := k.procs[p := Proc(Susp, prio, -1, false, k.procs[p].msg, k.curr)],
            conts := k.conts[p := User(OK)])
  }

  /** kill up to and including the notice to the parent, which may switch context. */
  function Kill(k: KState, v: int): (r: KState)
    requires Sized(k)
    ensures Sized(r) && NoneFreed(k, r) && SameDefer(k, r) && r.sems == k.sems && r.sq == k.sq
    ensures r.conts == k.conts || r.conts == k.conts[k.curr := InKill(v)]
  {
    if BadPid(k, v) || v == NULLPROC then k
    else
      var k1 := k.(prcount := k.prcount - 1);
      if k1.prcount <= 1 then k1.(halted := true)
      else Send(SetCont(k1, k.curr, InKill(v)), k.procs[v].parent, v)
  }

  function LeaveSem(k: KState, s: int, p: int): (r: KState)
    requires Sized(k)
    ensures Sized(r) && NoneFreed(k, r) && SameShape(k, r) && r.procs == k.procs && r.conts == k.conts
    ensures r.ready == k.ready && r.sleepq == k.sleepq && r.key == k.key && r.curr == k.curr
    ensures r.ndefers == k.ndefers && r.attempt == k.attempt
  {
    if s < 0 || s >= |k.sems| then k
    else
      WithoutWithin(k.sq[s], p, |k.procs|);
      SetCount(k, s, k.sems[s].count + 1).(sq := k.sq[s := Without(k.sq[s], p)])
  }

  /** The rest of kill: the victim leaves whatever structure holds it then. */
  function Reap(k: KState, v: int): (r: KState)
    requires Sized(k) && 0 <= v < |k.procs|
    ensures Sized(r) && SameShape(k, r) && r.conts == k.conts
  {
    match k.procs[v].state
    case Curr => Resched(SetState(k, v, Free))
    case Sleep => SetState(Unsleep(k, v), v, Free)
    case RecTim => SetState(Unsleep(k, v), v, Free)
    case Wait => SetState(LeaveSem(k, k.procs[v].sem, v), v, Free)
    case Ready =>
      WithoutWithin(k.ready, v, |k.procs|);
      SetState(k, v, Free).(ready := Without(k.ready, v))
    case Free => k
    case Recv => SetState(k, v, Free)
    case Susp => SetState(k, v, Free)
  }

  /** The killer's call ends, the victim's stack is gone. */
  function KillEnd(k: KState, v: int): (r: KState)
    requires Sized(k) && 0 <= v < |k.procs|
    ensures Sized(r) && SameShape(k, r)
    ensures r.conts == k.conts[k.curr := User(OK)][v := User(OK)]
  {
    Reap(k.(conts := k.conts[k.curr := User(OK)][v := User(OK)]), v)
  }

  lemma WithoutWithin(s: seq<int>, x: int, n: int)
    requires Within(s, n)
    ensures Within(Without(s, x), n)
  {
  }

  /** The tables as sysinit leaves them: the null process is current, every other entry is free. */
  function Booted(nproc: nat, nsem: nat, quantum: int): (k: KState)
    requires nproc > 0
    ensures Sized(k)
  {
    var free := Proc(Free, 0, -1, false, 0, 0);
    KState(
      Repeat(nproc, free)[NULLPROC := free.(state := Curr)], Repeat(nproc, User(OK)),
      Repeat(nsem, Sem(false, 0)), Repeat(nsem, []), [], [], Repeat(nproc, 0),
      NULLPROC, 0, false, quantum, quantum, 0, 1, 1, false, 0, 1000, 0)
  }
}
