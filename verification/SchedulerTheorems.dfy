/**
 What scheduling and waiting guarantee in every state that any run of the machine can reach.
 */
module SchedulerTheorems {
  import opened Sequences
  import opened QueueTables
  import opened KernelState
  import opened KernelInvariants
  import opened PortState
  import opened PortInvariants
  import opened Machine
  import PortTheorems

  /** States and lists agree: a process is on the ready list, the sleep queue or the queue of its
      semaphore exactly when its state says so, nowhere twice, and one process is current. */
  ghost predicate StatesMatchLists(k: KState) {
    && Sized(k)
    && (forall p :: 0 <= p < |k.procs| ==> (k.procs[p].state == Curr <==> p == k.curr))
    && (forall p :: 0 <= p < |k.procs| ==> (k.procs[p].state == Ready <==> p in k.ready))
    && (forall p :: 0 <= p < |k.procs| ==> (Asleep(k.procs[p].state) <==> p in k.sleepq))
    && (forall p, j :: 0 <= p < |k.procs| && 0 <= j < |k.sq| ==>
          (k.procs[p].state == Wait && k.procs[p].sem == j <==> p in k.sq[j]))
    && NoDup(k.ready) && NoDup(k.sleepq) && (forall j :: 0 <= j < |k.sq| ==> NoDup(k.sq[j]))
  }

  /** Unless a reschedule is owed, nobody on the ready list outranks the current process, and when
      the null process is not current it is there to fall back on. */
  ghost predicate RightProcessRuns(k: KState) {
    && Sized(k)
    && (k.ndefers == 0 || !k.attempt ==>
          forall p :: p in k.ready ==> k.procs[p].prio <= k.procs[k.curr].prio)
    && (k.curr != NULLPROC ==> NULLPROC in k.ready)
  }

  /** A count below zero is the number of waiting processes; at zero or above, nobody waits; and
      nobody waits on an entry that is not in use. */
  ghost predicate CountsExact(k: KState)
    requires Sized(k)
  {
    forall j :: 0 <= j < |k.sems| ==>
      |k.sq[j]| == Max0(-k.sems[j].count) && (!k.sems[j].used ==> k.sq[j] == [])
  }

  lemma EveryStateSound(nproc: nat, nsem: nat, quantum: int, nports: nat, maxmsgs: nat, es: seq<Event>)
    requires nproc > 0 && quantum > 0 && Run(PortTheorems.Start(nproc, nsem, quantum, nports, maxmsgs), es)
    ensures var k := After(PortTheorems.Start(nproc, nsem, quantum, nports, maxmsgs), es).k;
            StatesMatchLists(k) && RightProcessRuns(k) && CountsExact(k)
  {
    PortTheorems.ReachableInv(nproc, nsem, quantum, nports, maxmsgs, es);
    KInvSound(After(PortTheorems.Start(nproc, nsem, quantum, nports, maxmsgs), es).k);
  }

  lemma KInvSound(k: KState)
    requires KInv(k)
    ensures StatesMatchLists(k) && RightProcessRuns(k) && CountsExact(k)
  {
    assert AtHome(k, NULLPROC, -1);
    forall p | 0 <= p < |k.procs|
      ensures k.procs[p].state == Curr <==> p == k.curr
      ensures k.procs[p].state == Ready <==> p in k.ready
      ensures Asleep(k.procs[p].state) <==> p in k.sleepq
      ensures forall j :: 0 <= j < |k.sq| ==> (k.procs[p].state == Wait && k.procs[p].sem == j <==> p in k.sq[j])
    {
      assert AtHome(k, p, -1);
    }
  }

  /** The processor changes hands only while rescheduling is not deferred. */
  lemma SwitchNotDeferred(s: Sys, e: Event)
    requires Inv(s) && Enabled(s, e)
    ensures Apply(s, e).k.curr != s.k.curr ==> Apply(s, e).k.ndefers == 0
  {
    hide KInv, PInv;
    if KernelEvent(e) {
      KernelDefer(s.k, e);
      hide KApply;
    } else if e != Continue {
      PortCallDefer(s, e);
    } else {
      ResumedDefer(s);
    }
  }

  lemma PortCallDefer(s: Sys, e: Event)
    requires SizedSys(s) && !KernelEvent(e) && e != Continue
    ensures SameDefer(s.k, Apply(s, e).k)
  {
    hide PtCreate, PtSend, PtRecv, PtClear;
    match e
    case CreatePort(c) => CreateDefer(s, c);
    case SendToPort(i, m) => EnterDefer(s, i, m);
    case ReceiveFromPort(i) => EnterDefer(s, i, 0);
    case ResetPort(i) => ClearDefer(s, i, PtAlloc);
    case DeletePort(i) => ClearDefer(s, i, PtFree);
  }

  lemma CreateDefer(s: Sys, count: int)
    requires SizedSys(s)
    ensures SameDefer(s.k, PtCreate(s, count).k)
  {
    hide NewSem, FindPort, NoneFreed;
  }

  lemma EnterDefer(s: Sys, i: int, m: int)
    requires SizedSys(s)
    ensures SameDefer(s.k, PtSend(s, i, m).k) && SameDefer(s.k, PtRecv(s, i).k)
  {
    hide SemWait, NoneFreed;
  }

  lemma ClearDefer(s: Sys, i: int, ns: PtState)
    requires SizedSys(s)
    ensures SameDefer(s.k, PtClear(s, i, ns).k)
  {
    hide SemReset, SemDelete, Flush, NoneFreed;
  }

  lemma ResumedDefer(s: Sys)
    requires SizedSys(s)
    ensures SameDefer(s.k, Resumed(s).k)
  {
    hide Signal, SemReset, SemDelete, Append, TakeHead, NoneFreed, AfterLoss, KillEnd;
    match s.k.conts[s.k.curr]
    case User(_) =>
    case InReceive => hide TakeMessage;
    case InRecvTime => hide TakeMessage;
    case InKill(v) =>
    case InSend(j, q, m) =>
    case InRecv(j, q) =>
    case InClear(j, ns, phase) =>
  }

  // ----- round robin among equals

  /** The current process and the first ones on the ready list are the team, of equal priority,
      and everybody behind them has a lower one. */
  ghost predicate Round(k: KState, team: seq<int>, rest: seq<int>) {
    && AtRest(k) && k.ndefers == 0 && team != []
    && k.curr == team[0] && k.ready == team[1..] + rest
    && (forall i :: 0 <= i < |team| ==> 0 <= team[i] < |k.procs| && k.procs[team[i]].prio == k.procs[k.curr].prio)
    && (forall i :: 0 <= i < |rest| ==> 0 <= rest[i] < |k.procs| && k.procs[rest[i]].prio < k.procs[k.curr].prio)
  }

  /** A reschedule moves the current process behind its equals and in front of everybody else. */
  lemma RoundStep(k: KState, team: seq<int>, rest: seq<int>)
    requires Round(k, team, rest)
    ensures Round(Resched(k), team[1..] + [team[0]], rest)
  {
    hide AtRest, Resched, Base, Sched;
    RestSized(k);
    RestBase(k);
    ReschedRest(k);
    var r, next := Resched(k), team[1..] + [team[0]];
    if |team| == 1 {
      AloneStays(k, team, rest);
    } else {
      BehindEquals(k, team, rest);
      assert forall i :: 0 <= i < |next| ==> next[i] == if i < |team| - 1 then team[i + 1] else team[0];
    }
  }

  lemma AloneStays(k: KState, team: seq<int>, rest: seq<int>)
    requires Round(k, team, rest) && |team| == 1
    ensures Resched(k) == k && team[1..] + [team[0]] == team
  {
    hide AtRest, InsertReady, Dispatch;
    RestSized(k);
    assert k.ready == rest;
    OwnPriorities(k);
  }

  lemma OwnPriorities(k: KState)
    requires AtRest(k)
    ensures k.procs[k.curr].state == Curr && k.procs[k.curr].prio >= 0
    ensures k.ready != [] ==> FirstKey(k) == k.procs[k.ready[0]].prio
  {
    hide OnLists;
  }

  lemma BehindEquals(k: KState, team: seq<int>, rest: seq<int>)
    requires Round(k, team, rest) && |team| > 1
    ensures var r := Resched(k);
            && r.curr == team[1] && r.ready == team[2..] + [team[0]] + rest && r.ndefers == 0
            && |r.procs| == |k.procs| && (forall x :: 0 <= x < |k.procs| ==> r.procs[x].prio == k.procs[x].prio)
  {
    var n, P := |team| - 1, k.procs[k.curr].prio;
    assert forall m :: 0 <= m < n ==> k.ready[m] == team[m + 1];
    assert n < |k.ready| ==> k.ready[n] == rest[0];
    InsertPosUnique(k.ready, k.key, P, n);
    assert InsertAt(k.ready, n, team[0]) == team[1..] + [team[0]] + rest;
    assert (team[1..] + [team[0]] + rest)[1..] == team[2..] + [team[0]] + rest;
  }

  /** n reschedules in a row. */
  function Yields(k: KState, n: nat): (r: KState)
    requires Sized(k)
    ensures Sized(r)
    decreases n
  {
    if n == 0 then k else Resched(Yields(k, n - 1))
  }

  /** After n reschedules it is the n-th member's turn; after as many as there are members, the
      current process and the ready list are what they were. */
  lemma {:induction false} EqualsRotate(k: KState, team: seq<int>, rest: seq<int>, n: nat)
    requires Round(k, team, rest) && n <= |team|
    ensures Round(Yields(k, n), team[n..] + team[..n], rest)
    ensures n < |team| ==> Yields(k, n).curr == team[n]
    ensures n == |team| ==> Yields(k, n).curr == k.curr && Yields(k, n).ready == k.ready
    decreases n
  {
    hide Round, Resched;
    RoundCurr(k, team, rest);
    if n == 0 {
      assert team[0..] + team[..0] == team;
    } else {
      EqualsRotate(k, team, rest, n - 1);
      RotateOnce(Yields(k, n - 1), k, team, rest, n);
    }
  }

  lemma RotateOnce(j: KState, k: KState, team: seq<int>, rest: seq<int>, n: nat)
    requires 0 < n <= |team| && Round(k, team, rest) && Round(j, team[n - 1..] + team[..n - 1], rest)
    ensures var r := Resched(j);
            && Round(r, team[n..] + team[..n], rest)
            && (n < |team| ==> r.curr == team[n])
            && (n == |team| ==> r.curr == k.curr && r.ready == k.ready)
  {
    hide Round, Resched;
    var prev := team[n - 1..] + team[..n - 1];
    RoundCurr(j, prev, rest);
    RoundStep(j, prev, rest);
    assert prev[1..] + [prev[0]] == team[n..] + team[..n];
    RoundCurr(Resched(j), team[n..] + team[..n], rest);
    RoundCurr(k, team, rest);
    assert n == |team| ==> team[n..] + team[..n] == team;
  }

  lemma RoundCurr(k: KState, team: seq<int>, rest: seq<int>)
    requires Round(k, team, rest)
    ensures Sized(k) && team != [] && k.curr == team[0] && k.ready == team[1..] + rest
  {
  }

  // ----- the time slice

  /** The tick makes nobody's remaining time zero. */
  ghost predicate NobodyDue(k: KState)
    requires Sized(k)
  {
    k.sleepq == [] || k.key[k.sleepq[0]] != 1
  }

  lemma TickParts(k: KState)
    requires AtRest(k) && NobodyDue(k)
    ensures var m := TickSleepers(CountTime(k));
            && AtRest(m) && KApply(k, ClockTick) == TickPreempt(m)
            && m.procs == k.procs && m.ready == k.ready && m.curr == k.curr && m.ndefers == k.ndefers
            && m.attempt == k.attempt && m.preempt == k.preempt && m.quantum == k.quantum
  {
    hide AtRest, WakeAll, DeferStop, TickPreempt;
    RestSized(k);
    RestFrame(k, CountTime(k));
    TickSleepersRest(CountTime(k));
  }

  /** The tick that ends the slice gives the processor to the next of the equals. */
  lemma SliceEnds(k: KState, team: seq<int>, rest: seq<int>)
    requires Round(k, team, rest) && NobodyDue(k) && k.preempt == 1
    ensures var r := KApply(k, ClockTick);
            Round(r, team[1..] + [team[0]], rest) && r.preempt == k.quantum
  {
    hide AtRest, TickSleepers, Resched;
    RestSized(k);
    TickParts(k);
    var m := TickSleepers(CountTime(k)).(preempt := k.quantum);
    RestFrame(TickSleepers(CountTime(k)), m);
    RestSized(m);
    RoundStep(m, team, rest);
    SlicePreempt(m);
  }

  lemma SlicePreempt(k: KState)
    requires Sized(k) && k.preempt == k.quantum
    ensures Resched(k).preempt == k.quantum
  {
    hide Resched;
  }

  /** Any other tick that wakes nobody only takes one off the slice, and so does the last one while
      rescheduling is deferred, which records the attempt and starts the slice anew. */
  lemma SliceGoesOn(k: KState)
    requires AtRest(k) && NobodyDue(k) && (k.preempt > 1 || k.ndefers > 0)
    ensures var r := KApply(k, ClockTick);
            && r.curr == k.curr && r.ready == k.ready && r.procs == k.procs && r.ndefers == k.ndefers
            && r.preempt == (if k.preempt == 1 then k.quantum else k.preempt - 1)
            && r.attempt == (k.attempt || k.preempt == 1)
  {
    hide AtRest, TickSleepers;
    TickParts(k);
  }

  // ----- calls that ask for a reschedule

  /** yield and sleep(0) pass the processor on to the next of the equals. */
  lemma YieldPasses(k: KState, e: Event, team: seq<int>, rest: seq<int>)
    requires Round(k, team, rest) && (e == Yield || e == SleepFewMs(0) || e == SleepFewSecs(0))
    ensures Round(KApply(k, e), team[1..] + [team[0]], rest)
  {
    hide Round, Resched;
    RoundCurr(k, team, rest);
    RoundStep(k, team, rest);
  }

  /** When the last deferral ends, an attempt made meanwhile is made up for; otherwise nothing moves. */
  lemma DeferralEnds(k: KState, team: seq<int>, rest: seq<int>)
    requires k.ndefers == 1 && Round(k.(ndefers := 0), team, rest)
    ensures var r := KApply(k, StopDeferral);
            Round(r, if k.attempt then team[1..] + [team[0]] else team, rest)
  {
    hide Round, Resched;
    RoundCurr(k.(ndefers := 0), team, rest);
    if k.attempt {
      RoundStep(k.(ndefers := 0), team, rest);
    }
  }

  /** Inside a nest of deferrals the count of open ones is all that changes; the first one forgets
      earlier attempts. */
  lemma DeferralNests(k: KState)
    requires Sized(k)
    ensures KApply(k, StartDeferral)
         == k.(ndefers := k.ndefers + 1, attempt := k.ndefers > 0 && k.attempt)
    ensures k.ndefers != 1 ==> KApply(k, StopDeferral) == k.(ndefers := Max0(k.ndefers - 1))
  {
    hide Resched;
  }

  /** A process that becomes ready among the equals goes last of them, and the reschedule that follows
      passes the processor on: the newcomer runs at once only if the current process had no equal. */
  lemma EqualJoins(k: KState, team: seq<int>, rest: seq<int>, p: int)
    requires Round(k, team, rest) && 0 <= p < |k.procs| && k.procs[p].state == Susp
    requires k.procs[p].prio == k.procs[k.curr].prio
    ensures Round(KApply(k, ResumeProc(p)), team[1..] + [p, team[0]], rest)
  {
    hide AtRest, Resched;
    RestSized(k);
    var t := team + [p];
    assert t[1..] + [t[0]] == team[1..] + [p, team[0]];
    JoinRest(k, p);
    JoinsLast(k, team, rest, p);
    RoundStep(InsertReady(k, p), t, rest);
  }

  lemma JoinRest(k: KState, p: int)
    requires AtRest(k) && k.ndefers == 0 && 0 <= p < |k.procs| && k.procs[p].state == Susp
    requires k.procs[p].prio <= k.procs[k.curr].prio
    ensures Sized(k) && AtRest(InsertReady(k, p))
  {
    hide OnLists, ReadySorted, NullRuns, InsertList;
    StateFacts(k, p);
    InsertReadyBase(k, p);
    InsertElements(k, p);
  }

  lemma InsertElements(k: KState, p: int)
    requires Sized(k) && 0 <= p < |k.procs|
    ensures forall x :: x in InsertReady(k, p).ready <==> x == p || x in k.ready
  {
    hide InsertPos, NoneFreed, SameShape;
    InsertAtElements(k.ready, InsertPos(k.ready, k.key, k.procs[p].prio), p);
  }

  lemma JoinsLast(k: KState, team: seq<int>, rest: seq<int>, p: int)
    requires Round(k, team, rest) && 0 <= p < |k.procs|
    requires k.procs[p].prio == k.procs[k.curr].prio && AtRest(InsertReady(k, p))
    ensures Round(InsertReady(k, p), team + [p], rest)
  {
    hide AtRest, NoneFreed, SameShape;
    var n, P, next := |team| - 1, k.procs[k.curr].prio, team + [p];
    assert forall m :: 0 <= m < n ==> k.ready[m] == team[m + 1];
    assert n < |k.ready| ==> k.ready[n] == rest[0];
    ReadyKeys(k);
    InsertPosUnique(k.ready, k.key, P, n);
    assert InsertAt(k.ready, n, p) == next[1..] + rest;
  }

  lemma ReadyKeys(k: KState)
    requires AtRest(k)
    ensures Sized(k) && forall i :: 0 <= i < |k.ready| ==> k.key[k.ready[i]] == k.procs[k.ready[i]].prio
  {
    hide OnLists;
  }

  // ----- a fresh slice

  ghost predicate Refilled(k: KState, r: KState) {
    r.curr != k.curr ==> r.preempt == k.quantum
  }

  /** Whoever gets the processor by a call has a whole time slice before it. */
  lemma SwitchRefills(s: Sys, e: Event)
    requires Inv(s) && Enabled(s, e) && e != ClockTick
    ensures Refilled(s.k, Apply(s, e).k)
  {
    hide Inv, KApply, Resumed, PtCreate, PtSend, PtRecv, PtClear;
    InvSized(s);
    if KernelEvent(e) {
      CallRefills(s.k, e);
    } else if e == Continue {
      ResumedRefills(s);
    } else {
      PortCallRefills(s, e);
    }
  }

  lemma CallRefills(k: KState, e: Event)
    requires Sized(k) && KernelEvent(e) && e != ClockTick
    ensures Refilled(k, KApply(k, e))
  {
    hide Resched, SleepMs, SleepSecs, Send, Receive, RecvTime, DeferStop, Suspend, Resume, NewSem, FindPid;
    hide SemWait, Signal, Signaln, SemReset, SemDelete, NoneFreed;
  }

  lemma PortCallRefills(s: Sys, e: Event)
    requires SizedSys(s) && !KernelEvent(e) && e != Continue
    ensures Refilled(s.k, Apply(s, e).k)
  {
    hide SemWait, SemReset, SemDelete, Flush, NewSem, FindPort, NoneFreed;
  }

  lemma ResumedRefills(s: Sys)
    requires SizedSys(s)
    ensures Refilled(s.k, Resumed(s).k)
  {
    hide Signal, SemReset, SemDelete, Append, TakeHead, NoneFreed, AfterLoss, KillEnd, TakeMessage;
  }
}
