/**
 What every step of the machine does to the time that each sleeper has left.
 */
module ClockSteps {
  import opened Sequences
  import opened QueueTables
  import opened KernelState
  import opened KernelInvariants
  import opened PortState
  import opened PortInvariants
  import opened Machine
  import opened DeltaLists

  ghost function Left(k: KState, p: int): int
    requires Sized(k) && p in k.sleepq
  {
    LeftIn(k.sleepq, k.key, p)
  }

  // ----- steps that do not move the clock

  /** Whoever sleeps afterwards slept before, and has as long to go. */
  ghost predicate SameTimes(k: KState, r: KState)
    requires Sized(k) && Sized(r)
  {
    forall q :: q in r.sleepq ==> q in k.sleepq && Left(r, q) == Left(k, q)
  }

  /** Delays are not negative, and the first is positive: the tick that makes it zero wakes it. */
  ghost predicate Ticking(k: KState)
    requires Sized(k)
  {
    && (forall i :: 0 <= i < |k.sleepq| ==> k.key[k.sleepq[i]] >= 0)
    && (k.sleepq != [] ==> k.key[k.sleepq[0]] >= 1)
  }

  ghost predicate SameSleepers(k: KState, r: KState)
    requires Sized(k) && Sized(r)
  {
    r.sleepq == k.sleepq && |r.procs| == |k.procs| && forall q :: q in k.sleepq ==> r.key[q] == k.key[q]
  }

  lemma SameSleepersTimes(k: KState, r: KState)
    requires Sized(k) && Sized(r) && SameSleepers(k, r)
    ensures SameTimes(k, r) && r.sleepq == k.sleepq && (Ticking(k) ==> Ticking(r))
  {
    forall q | q in r.sleepq ensures Left(r, q) == Left(k, q) {
      LeftSameKeys(k.sleepq, k.key, r.key, q);
    }
    assert forall i :: 0 <= i < |k.sleepq| ==> k.sleepq[i] in k.sleepq;
  }

  lemma ReschedSleepers(k: KState)
    requires Base(k, -1)
    ensures SameSleepers(k, Resched(k))
  {
    assert AtHome(k, k.curr, -1);
    hide ReadySorted, NoneFreed, InsertList;
  }

  lemma ReadySleepers(k: KState, p: int)
    requires Base(k, p) && 0 <= p < |k.procs| && k.procs[p].state != Free
    requires p != k.curr && k.procs[k.curr].state == Curr
    ensures SameSleepers(k, ReadyProc(k, p))
  {
    assert AtHome(k, p, p);
    InsertReadyBase(k, p);
    ReschedSleepers(InsertReady(k, p));
    hide OnLists, ReadySorted, Resched, InsertList;
  }

  lemma DeferStopSleepers(k: KState)
    requires AtRest(k)
    ensures SameSleepers(k, DeferStop(k))
  {
    if k.ndefers == 1 && k.attempt {
      BaseFrame(k, k.(ndefers := 0), -1);
      ReschedSleepers(k.(ndefers := 0));
    }
    hide OnLists, ReadySorted, Resched;
  }

  lemma ReleaseSleepers(k: KState, s: int)
    requires AtRest(k) && 0 <= s < |k.sems| && k.sq[s] != []
    ensures SameSleepers(k, ReleaseHead(k, s))
  {
    ReleaseBase(k, s);
    ReadySleepers(k.(sq := k.sq[s := k.sq[s][1..]]), k.sq[s][0]);
    hide OnLists, ReadySorted, ReadyProc;
  }

  lemma SignalOneSleepers(k: KState, s: int)
    requires AtRest(k) && 0 <= s < |k.sems|
    ensures SameSleepers(k, SignalOne(k, s))
  {
    var k1 := SetCount(k, s, k.sems[s].count + 1);
    RestFrame(k, k1);
    hide AtRest, ReadyProc;
    if k.sems[s].count < 0 && k.sq[s] != [] {
      ReleaseSleepers(k1, s);
    }
  }

  lemma {:induction false} SignalTimesSleepers(k: KState, s: int, n: nat)
    requires AtRest(k) && SemExact(k, -1) && 0 <= s < |k.sems|
    ensures SameSleepers(k, SignalTimes(k, s, n))
    decreases n
  {
    hide AtRest, SemExact, SignalOne;
    RestSized(k);
    if n > 0 {
      SignalOneRest(k, s);
      SignalOneSleepers(k, s);
      SignalTimesSleepers(SignalOne(k, s), s, n - 1);
    }
  }

  lemma {:induction false} DrainSleepers(k: KState, s: int)
    requires AtRest(k) && 0 <= s < |k.sems|
    ensures SameSleepers(k, Drain(k, s))
    decreases |k.sq[s]|
  {
    hide AtRest, ReleaseHead;
    RestSized(k);
    if k.sq[s] != [] {
      ReleaseRest(k, s);
      ReleaseSleepers(k, s);
      DrainSleepers(ReleaseHead(k, s), s);
    }
  }

  lemma {:induction false} DrainCountSleepers(k: KState, s: int)
    requires AtRest(k) && 0 <= s < |k.sems|
    requires if k.sems[s].count < 0 then |k.sq[s]| == -k.sems[s].count else k.sq[s] == []
    ensures SameSleepers(k, DrainCount(k, s))
    decreases if k.sems[s].count < 0 then -k.sems[s].count else 0
  {
    hide AtRest, ReadyProc;
    RestSized(k);
    var k1 := SetCount(k, s, k.sems[s].count + 1);
    RestFrame(k, k1);
    if k.sems[s].count < 0 {
      ReleaseRest(k1, s);
      ReleaseSleepers(k1, s);
      DrainCountSleepers(ReleaseHead(k1, s), s);
    }
  }

  lemma SleepersTrans(a: KState, b: KState, c: KState)
    requires Sized(a) && Sized(b) && Sized(c) && SameSleepers(a, b) && SameSleepers(b, c)
    ensures SameSleepers(a, c)
  {
  }

  lemma SignalnSleepers(k: KState, s: int, n: int)
    requires AtRest(k) && SemExact(k, -1)
    ensures SameSleepers(k, Signaln(k, s, n))
  {
    hide AtRest, SemExact, SignalTimes, DeferStop;
    RestSized(k);
    if n >= 0 && !BadSem(k, s) {
      var k1 := DeferStart(k);
      DeferStartRest(k);
      ExactFrame(k, k1);
      SignalTimesRest(k1, s, n);
      SignalTimesSleepers(k1, s, n);
      DeferStopSleepers(SignalTimes(k1, s, n));
    }
  }

  lemma SemWaitSleepers(k: KState, s: int)
    requires AtRest(k) && k.curr != NULLPROC
    ensures SameSleepers(k, SemWait(k, s))
  {
    hide AtRest, Base, Resched;
    RestSized(k);
    if !BadSem(k, s) {
      var k1 := SetCount(k, s, k.sems[s].count - 1);
      RestFrame(k, k1);
      if k1.sems[s].count < 0 {
        BlockOnBase(k1, s);
        ReschedSleepers(BlockOn(k1, s));
      }
    }
  }

  lemma SemResetSleepers(k: KState, s: int, c: int)
    requires AtRest(k)
    ensures SameSleepers(k, SemReset(k, s, c))
  {
    hide AtRest, Drain, DeferStop;
    RestSized(k);
    if c >= 0 && !BadSem(k, s) {
      var k1 := DeferStart(k);
      DeferStartRest(k);
      DrainRest(k1, s);
      DrainSleepers(k1, s);
      RestFrame(Drain(k1, s), SetCount(Drain(k1, s), s, c));
      DeferStopSleepers(SetCount(Drain(DeferStart(k), s), s, c));
    }
  }

  lemma SemDeleteSleepers(k: KState, s: int)
    requires AtRest(k) && SemExact(k, -1)
    ensures SameSleepers(k, SemDelete(k, s))
  {
    hide AtRest, DrainCount, DeferStop;
    RestSized(k);
    if !BadSem(k, s) {
      var k0 := k.(sems := k.sems[s := k.sems[s].(used := false)]);
      var k1 := DeferStart(k0);
      RestFrame(k, k0);
      DeferStartRest(k0);
      DrainCountRest(k1, s);
      DrainCountSleepers(k1, s);
      DeferStopSleepers(DrainCount(k1, s));
    }
  }

  lemma SignalSleepers(k: KState, s: int)
    requires AtRest(k)
    ensures SameSleepers(k, Signal(k, s))
  {
    hide AtRest, SignalOne;
    RestSized(k);
    if !BadSem(k, s) {
      SignalOneSleepers(k, s);
    }
  }

  lemma SuspendSleepers(k: KState, p: int)
    requires AtRest(k)
    ensures SameSleepers(k, Suspend(k, p))
  {
    hide Resched, OnLists, ReadySorted, Sched;
    if !BadPid(k, p) && p != NULLPROC {
      StateFacts(k, p);
      if k.procs[p].state == Curr {
        CurrLeaves(k, Susp);
        ReschedSleepers(SetState(k, p, Susp));
      }
    }
  }

  lemma ResumeSleepers(k: KState, p: int)
    requires AtRest(k)
    ensures SameSleepers(k, Resume(k, p))
  {
    hide OnLists, ReadySorted, ReadyProc, Sched;
    if !BadPid(k, p) && k.procs[p].state == Susp {
      StateFacts(k, p);
      ReadySleepers(k, p);
    }
  }

  lemma ReceiveSleepers(k: KState)
    requires AtRest(k) && k.curr != NULLPROC
    ensures SameSleepers(k, Receive(k))
  {
    hide Resched, OnLists, ReadySorted;
    var k1 := SetCont(k, k.curr, InReceive);
    RestFrame(k, k1);
    if !k.procs[k.curr].hasmsg {
      CurrLeaves(k1, Recv);
      ReschedSleepers(SetState(k1, k.curr, Recv));
    }
  }

  // ----- steps that take a sleeper off the queue

  /** Everybody who is still asleep has as long to go as before, and the queue still ticks. */
  ghost predicate Undisturbed(k: KState, r: KState) {
    Sized(k) && Sized(r) && SameTimes(k, r) && (Ticking(k) ==> Ticking(r))
  }

  lemma UndisturbedTrans(a: KState, b: KState, c: KState)
    requires Undisturbed(a, b) && Undisturbed(b, c)
    ensures Undisturbed(a, c)
  {
    hide Left, Ticking;
  }

  lemma SleepersUndisturbed(k: KState, r: KState)
    requires Sized(k) && Sized(r) && SameSleepers(k, r)
    ensures Undisturbed(k, r)
  {
    hide *;
    SameSleepersTimes(k, r);
    UndisturbedIntro(k, r);
  }

  lemma UndisturbedIntro(k: KState, r: KState)
    requires Sized(k) && Sized(r) && SameTimes(k, r) && (Ticking(k) ==> Ticking(r))
    ensures Undisturbed(k, r)
  {
    hide SameTimes, Ticking;
  }

  lemma UnsleepSameTimes(k: KState, p: int)
    requires Base(k, -1) && 0 <= p < |k.procs| && Asleep(k.procs[p].state)
    ensures SameTimes(k, Unsleep(k, p)) && p !in Unsleep(k, p).sleepq
  {
    var r := Unsleep(k, p);
    BaseLists(k, p);
    WithoutElements(k.sleepq, p);
    DistinctEntries(k.sleepq);
    hide UnsleepKeys, Without, LeftIn, Distinct;
    forall q | q in r.sleepq ensures Left(r, q) == Left(k, q) {
      RemoveDelay(k.sleepq, k.key, p, q);
    }
  }

  lemma UnsleepTicking(k: KState, p: int)
    requires Base(k, -1) && 0 <= p < |k.procs| && Asleep(k.procs[p].state) && Ticking(k)
    ensures Ticking(Unsleep(k, p))
  {
    hide ReadySorted, NullRuns, IndexOf;
    var r := Unsleep(k, p);
    BaseLists(k, p);
    var i := IndexOf(k.sleepq, p);
    forall j | 0 <= j < |r.sleepq| ensures r.key[r.sleepq[j]] >= (if j == 0 then 1 else 0) {
      assert r.sleepq[j] == k.sleepq[if j < i then j else j + 1];
    }
  }

  lemma UnsleepUndisturbed(k: KState, p: int)
    requires Base(k, -1) && 0 <= p < |k.procs| && Asleep(k.procs[p].state)
    ensures Undisturbed(k, Unsleep(k, p))
  {
    hide *;
    BaseSized(k, -1);
    UnsleepSameTimes(k, p);
    if Ticking(k) {
      UnsleepTicking(k, p);
    }
    UndisturbedIntro(k, Unsleep(k, p));
  }

  lemma SendUndisturbed(k: KState, p: int, m: int)
    requires AtRest(k)
    ensures Undisturbed(k, Send(k, p, m))
  {
    hide OnLists, ReadySorted, Resched, Undisturbed, Unsleep, ReadyProc;
    SleepersUndisturbed(k, k);
    if !BadPid(k, p) && !k.procs[p].hasmsg {
      var k1 := Deliver(k, p, m);
      MessageRest(k, p, m, true);
      StateFacts(k1, p);
      SleepersUndisturbed(k, k1);
      if k.procs[p].state == Recv {
        ReadySleepers(k1, p);
        SleepersUndisturbed(k1, ReadyProc(k1, p));
        UndisturbedTrans(k, k1, ReadyProc(k1, p));
      } else if k.procs[p].state == RecTim {
        var k2 := Unsleep(k1, p);
        UnsleepUndisturbed(k1, p);
        UnsleepBase(k1, p);
        ReadySleepers(k2, p);
        SleepersUndisturbed(k2, ReadyProc(k2, p));
        UndisturbedTrans(k1, k2, ReadyProc(k2, p));
        UndisturbedTrans(k, k1, ReadyProc(k2, p));
      }
    }
  }

  lemma KillUndisturbed(k: KState, v: int)
    requires AtRest(k)
    ensures Undisturbed(k, Kill(k, v))
  {
    hide AtRest, Send, Undisturbed;
    RestSized(k);
    SleepersUndisturbed(k, k);
    if !BadPid(k, v) && v != NULLPROC {
      var k1 := k.(prcount := k.prcount - 1);
      var k2 := SetCont(k1, k.curr, InKill(v));
      SleepersUndisturbed(k, k1.(halted := true));
      SleepersUndisturbed(k, k2);
      RestFrame(k, k2);
      SendUndisturbed(k2, k.procs[v].parent, v);
      UndisturbedTrans(k, k2, Send(k2, k.procs[v].parent, v));
    }
  }

  lemma ReapUndisturbed(k: KState, v: int)
    requires AtRest(k) && SemExact(k, -1) && 0 < v < |k.procs|
    ensures Undisturbed(k, Reap(k, v))
  {
    var r := Reap(k, v);
    hide Resched, Unsleep, LeaveSem, ReadySorted, OnLists, Undisturbed;
    StateFacts(k, v);
    if k.procs[v].state == Curr {
      CurrLeaves(k, Free);
      ReschedSleepers(SetState(k, v, Free));
      SleepersUndisturbed(k, r);
    } else if Asleep(k.procs[v].state) {
      UnsleepUndisturbed(k, v);
      SleepersUndisturbed(Unsleep(k, v), r);
      UndisturbedTrans(k, Unsleep(k, v), r);
    } else {
      SleepersUndisturbed(k, r);
    }
  }

  lemma KillEndUndisturbed(k: KState, v: int)
    requires AtRest(k) && SemExact(k, -1) && 0 < v < |k.procs|
    ensures Undisturbed(k, KillEnd(k, v))
  {
    var k1 := k.(conts := k.conts[k.curr := User(OK)][v := User(OK)]);
    hide AtRest, Reap, Undisturbed;
    RestSized(k);
    RestFrame(k, k1);
    SleepersUndisturbed(k, k1);
    ReapUndisturbed(k1, v);
    UndisturbedTrans(k, k1, Reap(k1, v));
  }

  // ----- going to sleep

  /** The current process is asleep for delay ticks, and everybody else as long as before. */
  ghost predicate Slept(k: KState, r: KState, delay: int) {
    && Sized(k) && Sized(r) && k.curr !in k.sleepq && k.curr in r.sleepq
    && Left(r, k.curr) == delay
    && (forall q :: q in r.sleepq && q != k.curr ==> q in k.sleepq && Left(r, q) == Left(k, q))
    && (forall q :: q in k.sleepq ==> q in r.sleepq)
  }

  lemma {:induction false} DeltaRestFacts(l: seq<int>, key: seq<int>, delay: int)
    requires Within(l, |key|) && delay >= 0 && forall x :: x in l ==> key[x] >= 0
    ensures 0 <= DeltaRest(l, key, delay) <= delay
    ensures DeltaPos(l, key, delay) < |l| ==> key[l[DeltaPos(l, key, delay)]] > DeltaRest(l, key, delay)
    ensures DeltaPos(l, key, delay) == 0 ==> DeltaRest(l, key, delay) == delay
    ensures l != [] && key[l[0]] > delay <==> l != [] && DeltaPos(l, key, delay) == 0
    decreases |l|
  {
    if l != [] && key[l[0]] <= delay {
      assert l[0] in l;
      DeltaRestFacts(l[1..], key, delay - key[l[0]]);
    }
  }

  lemma FallAsleepTimes(k: KState, st: PrState, delay: int)
    requires Base(k, -1) && k.procs[k.curr].state == Curr && st != Free
    ensures Slept(k, FallAsleep(k, st, delay), delay)
  {
    var r := FallAsleep(k, st, delay);
    BaseLists(k, k.curr);
    DistinctEntries(k.sleepq);
    DeltaElements(k.sleepq, k.key, k.curr, delay);
    hide OnLists, ReadySorted, NullRuns, DeltaList, DeltaKeys, LeftIn, Distinct;
    forall q | q in r.sleepq ensures Left(r, q) == if q == k.curr then delay else Left(k, q) {
      InsertDelay(k.sleepq, k.key, k.curr, delay, q);
    }
  }

  lemma FallAsleepTicking(k: KState, st: PrState, delay: int)
    requires Base(k, -1) && k.procs[k.curr].state == Curr && st != Free && Ticking(k) && delay >= 0
    ensures Ticking(FallAsleep(k, st, delay)) <==> delay >= 1
  {
    var r, l := FallAsleep(k, st, delay), k.sleepq;
    var i := DeltaPos(l, k.key, delay);
    BaseLists(k, k.curr);
    DeltaRestFacts(l, k.key, delay);
    hide ReadySorted, NullRuns, DeltaPos, DeltaRest;
    forall j | 0 <= j < |r.sleepq|
      ensures r.key[r.sleepq[j]] >= 0
      ensures j == 0 ==> (r.key[r.sleepq[j]] >= 1 <==> delay >= 1)
    {
      assert r.sleepq[j] == if j == i then k.curr else l[if j < i then j else j - 1];
    }
  }

  lemma SleptSame(k: KState, m: KState, r: KState, delay: int)
    requires Slept(k, m, delay) && Sized(r) && SameSleepers(m, r)
    ensures Slept(k, r, delay)
  {
    hide *;
    SizedSlept(k, m, delay);
    SameSleepersTimes(m, r);
    SleptSameTimes(k, m, r, delay);
  }

  lemma SizedSlept(k: KState, r: KState, delay: int)
    requires Slept(k, r, delay)
    ensures Sized(k) && Sized(r)
  {
  }

  lemma SleptSameTimes(k: KState, m: KState, r: KState, delay: int)
    requires Slept(k, m, delay) && Sized(r) && SameTimes(m, r) && r.sleepq == m.sleepq
    ensures Slept(k, r, delay)
  {
    hide Left, Sized;
  }

  lemma SleepersTicking(k: KState, r: KState)
    requires Sized(k) && Sized(r) && SameSleepers(k, r)
    ensures Ticking(r) <==> Ticking(k)
  {
    assert forall i :: 0 <= i < |k.sleepq| ==> k.sleepq[i] in k.sleepq;
  }

  /** Sleeping gives the caller exactly the delay asked for, and keeps the clock going exactly if
      that delay is not zero. */
  lemma SleepForSlept(k: KState, st: PrState, delay: int)
    requires AtRest(k) && k.ndefers == 0 && k.curr != NULLPROC && Asleep(st) && delay >= 0
    ensures Slept(k, SleepFor(k, st, delay), delay)
    ensures Ticking(k) ==> (Ticking(SleepFor(k, st, delay)) <==> delay >= 1)
  {
    hide *;
    RestBase(k);
    NotFree(st);
    BaseSized(k, -1);
    var m := FallAsleep(k, st, delay);
    FallAsleepBase(k, st, delay);
    FallAsleepTimes(k, st, delay);
    ReschedSleepers(m);
    SleptSame(k, m, Resched(m), delay);
    SleepersTicking(m, Resched(m));
    SleepForIs(k, st, delay);
    if Ticking(k) {
      FallAsleepTicking(k, st, delay);
    }
  }

  lemma NotFree(st: PrState)
    requires Asleep(st)
    ensures st != Free
  {
  }

  lemma SleepForIs(k: KState, st: PrState, delay: int)
    requires Sized(k) && st != Free
    ensures SleepFor(k, st, delay) == Resched(FallAsleep(k, st, delay))
  {
    hide Resched, FallAsleep;
  }

  // ----- the tick

  ghost predicate Delays(k: KState)
    requires Sized(k)
  {
    forall i :: 0 <= i < |k.sleepq| ==> k.key[k.sleepq[i]] >= 0
  }

  /** Exactly the sleepers whose time is up have been made ready; the others have as long to go. */
  ghost predicate Woken(k: KState, r: KState)
    requires Sized(k) && Sized(r)
  {
    && |r.procs| == |k.procs|
    && (forall q :: q in r.sleepq ==> q in k.sleepq && Left(r, q) == Left(k, q))
    && (forall q :: q in k.sleepq ==> (q in r.sleepq <==> Left(k, q) > 0))
    && (forall q :: q in k.sleepq && q !in r.sleepq ==> r.procs[q].state == Ready)
    && (forall p :: 0 <= p < |k.procs| && k.procs[p].state == Ready ==> r.procs[p].state == Ready)
  }

  lemma WakeHeadTimes(k: KState)
    requires AtRest(k) && k.ndefers > 0 && k.sleepq != [] && Delays(k) && k.key[k.sleepq[0]] <= 0
    ensures var r, p := ReadyProc(k.(sleepq := k.sleepq[1..]), k.sleepq[0]), k.sleepq[0];
            && AtRest(r) && r.ndefers > 0 && r.sleepq == k.sleepq[1..] && Delays(r)
            && Left(k, p) == 0 && p !in r.sleepq && r.procs[p].state == Ready
            && (forall q :: q in k.sleepq && q != p ==> q in r.sleepq && Left(r, q) == Left(k, q))
            && (forall q :: 0 <= q < |k.procs| && k.procs[q].state == Ready ==> r.procs[q].state == Ready)
  {
    var m, p := k.(sleepq := k.sleepq[1..]), k.sleepq[0];
    var r := ReadyProc(m, p);
    hide AtRest, Left, Delays, ReadyProc;
    WakeHeadBase(k);
    WakeHeadRest(k);
    HeadGone(k);
    hide Base;
    HeadReadied(m, p);
    SameSleepersTimes(m, r);
    DelaysSame(m, r);
  }

  lemma DelaysSame(k: KState, r: KState)
    requires Sized(k) && Sized(r) && SameSleepers(k, r) && Delays(k)
    ensures Delays(r)
  {
    assert forall i :: 0 <= i < |k.sleepq| ==> k.sleepq[i] in k.sleepq;
  }

  /** Without a head that had no time left, the others have as long to go. */
  lemma HeadGone(k: KState)
    requires AtRest(k) && k.sleepq != [] && Delays(k) && k.key[k.sleepq[0]] <= 0
    ensures var m, p := k.(sleepq := k.sleepq[1..]), k.sleepq[0];
            && Sized(m) && Delays(m) && Left(k, p) == 0 && p !in m.sleepq
            && (forall q :: q in k.sleepq && q != p ==> q in m.sleepq && Left(m, q) == Left(k, q))
  {
    var m, p := k.(sleepq := k.sleepq[1..]), k.sleepq[0];
    hide ReadySorted, NullRuns, AtHome;
    WithoutHead(k.sleepq);
    hide NoDup;
    assert Delays(m) by {
      assert forall i :: 0 <= i < |m.sleepq| ==> m.sleepq[i] == k.sleepq[i + 1];
    }
    forall q | q in k.sleepq && q != p ensures q in m.sleepq && Left(m, q) == Left(k, q) {
      assert Rest(k.sleepq) == m.sleepq;
    }
  }

  lemma HeadReadied(m: KState, p: int)
    requires Base(m, p) && 0 <= p < |m.procs| && m.ndefers > 0 && Asleep(m.procs[p].state)
    requires p != m.curr && m.procs[m.curr].state == Curr
    ensures var r := ReadyProc(m, p);
            && SameSleepers(m, r) && r.ndefers == m.ndefers && r.procs[p].state == Ready
            && (forall q :: 0 <= q < |m.procs| && m.procs[q].state == Ready ==> r.procs[q].state == Ready)
  {
    ReadySleepers(m, p);
    hide Base, InsertList;
  }

  lemma {:induction false} WakeAllWoken(k: KState)
    requires AtRest(k) && k.ndefers > 0 && Delays(k)
    ensures Woken(k, WakeAll(k)) && Ticking(WakeAll(k))
    decreases |k.sleepq|
  {
    hide AtRest, ReadyProc, LeftIn, Woken, Ticking, Left;
    RestSized(k);
    if k.sleepq != [] && k.key[k.sleepq[0]] <= 0 {
      var k1 := ReadyProc(k.(sleepq := k.sleepq[1..]), k.sleepq[0]);
      WakeHeadTimes(k);
      hide Delays;
      WakeAllWoken(k1);
      WokenHead(k, k1, WakeAll(k1));
    } else {
      NobodyDue(k);
    }
  }

  lemma NobodyDue(k: KState)
    requires Sized(k) && Delays(k) && (k.sleepq != [] ==> k.key[k.sleepq[0]] > 0)
    ensures Woken(k, k) && Ticking(k)
  {
    hide LeftIn;
    forall q | q in k.sleepq ensures Left(k, q) > 0 {
      LeftAtLeast(k.sleepq, k.key, q);
    }
  }

  lemma WokenHead(k: KState, k1: KState, r: KState)
    requires Sized(k) && Sized(k1) && Sized(r) && Woken(k1, r) && |k1.procs| == |k.procs|
    requires k.sleepq != [] && k1.sleepq == k.sleepq[1..] && Left(k, k.sleepq[0]) == 0
    requires k.sleepq[0] !in k1.sleepq && k1.procs[k.sleepq[0]].state == Ready
    requires forall q :: q in k.sleepq && q != k.sleepq[0] ==> q in k1.sleepq && Left(k1, q) == Left(k, q)
    requires forall q :: 0 <= q < |k.procs| && k.procs[q].state == Ready ==> k1.procs[q].state == Ready
    ensures Woken(k, r)
  {
    hide Left;
    assert forall q :: q in k1.sleepq ==> q in k.sleepq && q != k.sleepq[0];
  }

  lemma LowerHeadTimes(k: KState)
    requires AtRest(k) && k.sleepq != [] && Ticking(k)
    ensures Delays(LowerHead(k))
    ensures forall q :: q in k.sleepq ==> Left(LowerHead(k), q) == Left(k, q) - 1
  {
    var r := LowerHead(k);
    DistinctEntries(k.sleepq);
    hide LeftIn, Distinct, ReadySorted, NullRuns;
    forall q | q in k.sleepq ensures Left(r, q) == Left(k, q) - 1 {
      LeftHead(k.sleepq, k.key, r.key, q, -1);
    }
  }

  /** One tick: the sleepers with one tick to go are made ready, all others have one less to go. */
  ghost predicate Ticked(k: KState, r: KState) {
    && Sized(k) && Sized(r) && |r.procs| == |k.procs|
    && (forall q :: q in r.sleepq ==> q in k.sleepq && Left(r, q) == Left(k, q) - 1)
    && (forall q :: q in k.sleepq ==> (q in r.sleepq <==> Left(k, q) > 1))
    && (forall q :: q in k.sleepq && q !in r.sleepq ==> Runs(r.procs[q].state))
  }

  ghost predicate RunsOn(k: KState, r: KState) {
    |r.procs| == |k.procs| && forall p :: 0 <= p < |k.procs| && Runs(k.procs[p].state) ==> Runs(r.procs[p].state)
  }

  lemma ReschedRunsOn(k: KState)
    requires Sized(k)
    ensures RunsOn(k, Resched(k))
  {
    hide InsertReady, Dispatch;
    InsertRunsOn(k);
    if k.ndefers == 0 {
      DispatchRunsOn(k);
      DispatchRunsOn(InsertReady(k, k.curr));
    }
  }

  lemma InsertRunsOn(k: KState)
    requires Sized(k)
    ensures RunsOn(k, InsertReady(k, k.curr))
  {
    hide InsertList;
  }

  lemma DispatchRunsOn(k: KState)
    requires Sized(k) && k.ndefers == 0
    ensures RunsOn(k, Dispatch(k))
  {
  }

  lemma DeferStopRunsOn(k: KState)
    requires Sized(k)
    ensures RunsOn(k, DeferStop(k))
  {
    hide Resched;
    if k.ndefers == 1 {
      ReschedRunsOn(k.(ndefers := 0));
    }
  }

  lemma TickedLater(k: KState, m: KState, r: KState)
    requires Ticked(k, m) && Sized(r) && SameSleepers(m, r) && RunsOn(m, r)
    ensures Ticked(k, r)
  {
    hide *;
    TickedSized(k, m);
    SameSleepersTimes(m, r);
    TickedSame(k, m, r);
  }

  lemma TickedSized(k: KState, r: KState)
    requires Ticked(k, r)
    ensures Sized(k) && Sized(r)
  {
  }

  lemma TickedSame(k: KState, m: KState, r: KState)
    requires Ticked(k, m) && Sized(r) && SameTimes(m, r) && r.sleepq == m.sleepq && RunsOn(m, r)
    ensures Ticked(k, r)
  {
    hide Left, Runs;
    assert forall q :: q in k.sleepq ==> 0 <= q < |k.procs|;
  }

  lemma TickSleepersTicked(k: KState)
    requires AtRest(k) && Ticking(k)
    ensures Ticked(k, TickSleepers(k)) && Ticking(TickSleepers(k))
  {
    hide AtRest, WakeAll, DeferStop, LeftIn, Resched;
    RestSized(k);
    if k.sleepq != [] {
      var k1 := LowerHead(k);
      LowerHeadRest(k);
      LowerHeadTimes(k);
      if k1.key[k1.sleepq[0]] == 0 {
        DeferStartRest(k1);
        WakeRound(k, k1);
      } else {
        forall q | q in k.sleepq ensures Left(k1, q) >= 1 {
          LeftAtLeast(k1.sleepq, k1.key, q);
        }
      }
    }
  }

  lemma WakeRound(k: KState, k1: KState)
    requires Sized(k) && Sized(k1) && AtRest(DeferStart(k1)) && Delays(k1) && k1.sleepq == k.sleepq
    requires |k1.procs| == |k.procs| && forall q :: q in k.sleepq ==> Left(k1, q) == Left(k, q) - 1
    ensures var r := DeferStop(WakeAll(DeferStart(k1))); Ticked(k, r) && Ticking(r)
  {
    var k2 := DeferStart(k1);
    var k3 := WakeAll(k2);
    hide AtRest, WakeAll, DeferStop, LeftIn, Resched, Woken;
    SameLeft(k1, k2);
    WakeAllWoken(k2);
    WakeAllRest(k2);
    hide Ticked, Woken, Delays, Left;
    WokenTicked(k, k2, k3);
    DeferStopSleepers(k3);
    DeferStopRunsOn(k3);
    SleepersTicking(k3, DeferStop(k3));
    TickedLater(k, k3, DeferStop(k3));
  }

  lemma SameLeft(a: KState, b: KState)
    requires Sized(a) && Sized(b) && b.sleepq == a.sleepq && b.key == a.key
    ensures forall q :: q in a.sleepq ==> Left(b, q) == Left(a, q)
  {
    hide LeftIn;
  }

  lemma WokenTicked(k: KState, m: KState, r: KState)
    requires Sized(k) && Sized(m) && Sized(r) && Woken(m, r) && m.sleepq == k.sleepq && |m.procs| == |k.procs|
    requires forall q :: q in k.sleepq ==> Left(m, q) == Left(k, q) - 1
    ensures Ticked(k, r)
  {
    hide Left;
    assert forall q :: q in k.sleepq ==> 0 <= q < |k.procs|;
  }

  /** A tick of the machine treats the delta list as a table of remaining times. */
  lemma TickTicked(k: KState)
    requires AtRest(k) && Ticking(k)
    ensures Ticked(k, Tick(k)) && Ticking(Tick(k))
  {
    var k1 := CountTime(k);
    var k2 := TickSleepers(k1);
    hide AtRest, TickSleepers, Resched, Ticked;
    RestSized(k);
    RestFrame(k, k1);
    TickSleepersRest(k1);
    assert SameSleepers(k, k1);
    SleepersTicking(k, k1);
    TickSleepersTicked(k1);
    TickedEarlier(k, k1, k2);
    PreemptSleepers(k2);
    SleepersTicking(k2, TickPreempt(k2));
    TickedLater(k, k2, TickPreempt(k2));
  }

  lemma TickedEarlier(k: KState, m: KState, r: KState)
    requires Sized(k) && m.sleepq == k.sleepq && m.key == k.key && |m.procs| == |k.procs| && Ticked(m, r)
    ensures Ticked(k, r)
  {
    hide LeftIn;
  }

  lemma PreemptSleepers(k: KState)
    requires AtRest(k)
    ensures SameSleepers(k, TickPreempt(k)) && RunsOn(k, TickPreempt(k))
  {
    hide Resched, OnLists, ReadySorted;
    if k.preempt == 1 {
      RestFrame(k, k.(preempt := k.quantum));
      ReschedSleepers(k.(preempt := k.quantum));
      ReschedRunsOn(k.(preempt := k.quantum));
    }
  }

  // ----- every step

  /** The event puts its caller to sleep. */
  predicate FallsAsleep(k: KState, e: Event)
    requires Sized(k)
  {
    || (e.SleepFewMs? && e.delay > 0)
    || (e.SleepFewSecs? && 0 < e.delay <= MAXSECONDS)
    || (e.ReceiveWithin? && e.maxwait >= 0 && !k.procs[k.curr].hasmsg)
  }

  /** The ticks that its caller asks for. */
  function DelayOf(e: Event): int {
    match e
    case SleepFewMs(d) => d
    case SleepFewSecs(d) => 1000 * d
    case ReceiveWithin(d) => d
    case _ => 0
  }

  lemma MsSlept(k: KState, delay: int)
    requires AtRest(k) && k.ndefers == 0 && k.curr != NULLPROC && delay > 0
    ensures Slept(k, SleepMs(k, delay), delay) && (Ticking(k) ==> Ticking(SleepMs(k, delay)))
  {
    hide SleepFor, AtRest, Slept, Ticking;
    RestSized(k);
    SleepForSlept(k, Sleep, delay);
  }

  lemma RecvTimeSlept(k: KState, delay: int)
    requires AtRest(k) && k.ndefers == 0 && k.curr != NULLPROC && delay >= 0 && !k.procs[k.curr].hasmsg
    ensures Slept(k, RecvTime(k, delay), delay)
    ensures Ticking(k) ==> (Ticking(RecvTime(k, delay)) <==> delay >= 1)
  {
    hide SleepFor, AtRest, Slept, Ticking;
    RestSized(k);
    var k1 := SetCont(k, k.curr, InRecvTime);
    RestFrame(k, k1);
    SleepForSlept(k1, RecTim, delay);
    SleepersTicking(k, k1);
    SleptEarlier(k, k1, RecvTime(k, delay), delay);
  }

  lemma SleptEarlier(k: KState, m: KState, r: KState, delay: int)
    requires Sized(k) && m.sleepq == k.sleepq && m.key == k.key && m.curr == k.curr && Slept(m, r, delay)
    ensures Slept(k, r, delay)
  {
    hide LeftIn;
  }

  lemma SleepCallTimes(k: KState, e: Event)
    requires AtRest(k) && k.ndefers == 0 && k.curr != NULLPROC && FallsAsleep(k, e)
    ensures Slept(k, KApply(k, e), DelayOf(e))
    ensures Ticking(k) ==> (Ticking(KApply(k, e)) <==> DelayOf(e) >= 1)
  {
    hide AtRest, SleepMs, RecvTime, Slept, Ticking;
    RestSized(k);
    match e
    case SleepFewMs(d) => MsSlept(k, d);
    case SleepFewSecs(d) => MsSlept(k, 1000 * d);
    case ReceiveWithin(d) => RecvTimeSlept(k, d);
  }

  lemma YieldSleepers(k: KState)
    requires AtRest(k)
    ensures SameSleepers(k, Resched(k))
  {
    hide *;
    RestBase(k);
    ReschedSleepers(k);
  }

  /** A call other than a tick, send or kill that does not put its caller to sleep. */
  predicate QuietCall(k: KState, e: Event)
    requires Sized(k)
  {
    KernelEvent(e) && !e.ClockTick? && !SemEvent(e) && !FallsAsleep(k, e) && !e.SendTo? && !e.KillProc?
  }

  lemma QuietCallSleepers(k: KState, e: Event)
    requires KInv(k) && QuietCall(k, e)
    requires MayBlock(e) ==> k.curr != NULLPROC
    ensures SameSleepers(k, KApply(k, e))
  {
    hide AtRest, Resched, SemExact;
    RestSized(k);
    match e
    case Yield => YieldSleepers(k);
    case SuspendProc(p) => hide Suspend; SuspendSleepers(k, p);
    case ResumeProc(p) => hide Resume; ResumeSleepers(k, p);
    case CreateProc(ok, prio) =>
    case ReceiveAny => hide Receive; ReceiveSleepers(k);
    case ReceiveWithin(d) =>
    case SleepFewMs(d) => YieldSleepers(k);
    case SleepFewSecs(d) => YieldSleepers(k);
    case StartDeferral =>
    case StopDeferral => hide DeferStop; DeferStopSleepers(k);
  }

  lemma SemCallSleepers(k: KState, e: Event)
    requires KInv(k) && SemEvent(e) && (e.WaitOn? ==> k.curr != NULLPROC)
    ensures SameSleepers(k, KApply(k, e))
  {
    hide AtRest, SemExact;
    RestSized(k);
    match e
    case NewSemaphore(c) =>
    case WaitOn(j) => hide SemWait; SemWaitSleepers(k, j);
    case SignalOn(j) => hide Signal; SignalSleepers(k, j);
    case SignalManyOn(j, n) => hide Signaln; SignalnSleepers(k, j, n);
    case ResetSemaphore(j, c) => hide SemReset; SemResetSleepers(k, j, c);
    case DeleteSemaphore(j) => hide SemDelete; SemDeleteSleepers(k, j);
  }

  // ----- the steps of port operations

  lemma ContSleepers(k: KState, x: int, c: Cont)
    requires KInv(k) && 0 <= x < |k.conts|
    ensures KInv(SetCont(k, x, c)) && SameSleepers(k, SetCont(k, x, c))
  {
    hide AtRest;
    RestSized(k);
    ContKeepsKInv(k, x, c);
  }

  lemma EnterSleepers(s: Sys, sem: int, c: Cont)
    requires SizedSys(s) && KInv(s.k) && s.k.curr != NULLPROC
    ensures SameSleepers(s.k, Enter(s, sem, c).k)
  {
    var k1 := SetCont(s.k, s.k.curr, c);
    hide AtRest, SemWait, SemExact;
    ContSleepers(s.k, s.k.curr, c);
    SemWaitSleepers(k1, sem);
    SleepersTrans(s.k, k1, SemWait(k1, sem));
  }

  lemma PassSleepers(k: KState, rv: int, sem: int)
    requires KInv(k)
    ensures Sized(k) && SameSleepers(k, Signal(SetCont(k, k.curr, User(rv)), sem))
  {
    hide AtRest, Signal, SemExact;
    RestSized(k);
    var k1 := SetCont(k, k.curr, User(rv));
    ContSleepers(k, k.curr, User(rv));
    SignalSleepers(k1, sem);
    SleepersTrans(k, k1, Signal(k1, sem));
  }

  lemma ClearSleepers(s: Sys, s1: Sys, c: Cont, sem: int, ns: PtState, count: int)
    requires SizedSys(s) && SizedSys(s1) && KInv(s.k) && s1.k == SetCont(s.k, s.k.curr, c)
    ensures SameSleepers(s.k, ClearSem(s1, sem, ns, count).k)
  {
    hide AtRest, SemReset, SemDelete, SemExact;
    ContSleepers(s.k, s.k.curr, c);
    SemResetSleepers(s1.k, sem, count);
    SemDeleteSleepers(s1.k, sem);
    SleepersTrans(s.k, s1.k, ClearSem(s1, sem, ns, count).k);
  }

  lemma PortCallSleepers(s: Sys, e: Event)
    requires Inv(s) && Enabled(s, e) && !KernelEvent(e) && e != Continue
    ensures SameSleepers(s.k, Apply(s, e).k)
  {
    hide KInv, PInv, ContsSane, PtCreate, PtSend, PtRecv, PtClear;
    match e
    case CreatePort(c) => CreateSleepers(s, c);
    case SendToPort(i, m) => EnterCallSleepers(s, i, m);
    case ReceiveFromPort(i) => EnterCallSleepers(s, i, 0);
    case ResetPort(i) => ClearCallSleepers(s, i, PtAlloc);
    case DeletePort(i) => ClearCallSleepers(s, i, PtFree);
  }

  lemma CreateSleepers(s: Sys, count: int)
    requires SizedSys(s)
    ensures SameSleepers(s.k, PtCreate(s, count).k)
  {
    hide FindPort, NewSem;
  }

  lemma EnterCallSleepers(s: Sys, i: int, m: int)
    requires SizedSys(s) && KInv(s.k) && s.k.curr != NULLPROC
    ensures SameSleepers(s.k, PtSend(s, i, m).k) && SameSleepers(s.k, PtRecv(s, i).k)
  {
    hide KInv, Enter;
    if IsOpen(s.pt, i) {
      EnterSleepers(s, s.pt.tab[i].ssem, InSend(i, s.pt.tab[i].seqno, m));
      EnterSleepers(s, s.pt.tab[i].rsem, InRecv(i, s.pt.tab[i].seqno));
    }
  }

  lemma ClearCallSleepers(s: Sys, i: int, ns: PtState)
    requires SizedSys(s) && KInv(s.k)
    ensures SameSleepers(s.k, PtClear(s, i, ns).k)
  {
    hide KInv, ClearSem, Flush;
    if IsOpen(s.pt, i) {
      var s1 := s.(pt := Flush(s.pt, i, ns), k := SetCont(s.k, s.k.curr, InClear(i, ns, 1)));
      ClearSleepers(s, s1, InClear(i, ns, 1), s.pt.tab[i].ssem, ns, s.pt.tab[i].maxcnt);
    }
  }

  lemma ResumedSleepers(s: Sys)
    requires Inv(s) && !s.k.conts[s.k.curr].InKill?
    ensures SameSleepers(s.k, Resumed(s).k)
  {
    hide KInv, PInv, Signal, ClearSem, Append, TakeHead, AfterLoss, KillEnd;
    match s.k.conts[s.k.curr]
    case User(_) =>
    case InReceive =>
    case InRecvTime =>
    case InKill(v) =>
    case InSend(i, e, m) =>
      if Current(s.pt, i, e) { PassSleepers(s.k, OK, s.pt.tab[i].rsem); }
    case InRecv(i, e) =>
      if Current(s.pt, i, e) && s.pt.tab[i].list != [] {
        PassSleepers(s.k, s.pt.msgs[s.pt.tab[i].list[0]], s.pt.tab[i].ssem);
      }
    case InClear(i, ns, phase) =>
      if 0 <= i < |s.pt.tab| && phase == 1 {
        var s1 := s.(k := SetCont(s.k, s.k.curr, InClear(i, ns, 2)));
        ClearSleepers(s, s1, InClear(i, ns, 2), s.pt.tab[i].rsem, ns, 0);
      }
  }

  lemma VictimTimes(s: Sys, v: int)
    requires Inv(s) && s.k.conts[s.k.curr] == InKill(v)
    ensures 0 < v < |s.k.procs| && Undisturbed(s.k, PtKillEnd(s, v).k)
  {
    hide PInv, AtRest, SemExact, Undisturbed, KillEnd, AfterLoss;
    KillEndUndisturbed(s.k, v);
  }

  /** Nobody is taken off the sleep queue by the event. */
  predicate Peaceful(s: Sys, e: Event)
    requires SizedSys(s)
  {
    && !e.ClockTick? && !FallsAsleep(s.k, e) && !e.SendTo? && !e.KillProc?
    && (e == Continue ==> !s.k.conts[s.k.curr].InKill?)
  }

  lemma PeacefulSleepers(s: Sys, e: Event)
    requires Inv(s) && Enabled(s, e) && Peaceful(s, e)
    ensures SameSleepers(s.k, Apply(s, e).k)
  {
    hide AtRest, SemExact, Counters, PInv, ContsSane, FallsAsleep, KApply, Resumed;
    KernelApplied(s, e);
    if SemEvent(e) {
      SemCallSleepers(s.k, e);
    } else if KernelEvent(e) {
      QuietCallSleepers(s.k, e);
    } else if e == Continue {
      ResumedSleepers(s);
    } else {
      PortCallSleepers(s, e);
    }
  }

  /** What one step of the machine does to the remaining times, and exactly when the clock goes on. */
  lemma StepTimes(s: Sys, e: Event)
    requires Inv(s) && Enabled(s, e)
    ensures e.ClockTick? && Ticking(s.k) ==> Ticked(s.k, Apply(s, e).k) && Ticking(Apply(s, e).k)
    ensures FallsAsleep(s.k, e) ==> Slept(s.k, Apply(s, e).k, DelayOf(e))
    ensures FallsAsleep(s.k, e) && Ticking(s.k) ==> (Ticking(Apply(s, e).k) <==> DelayOf(e) >= 1)
    ensures !e.ClockTick? && !FallsAsleep(s.k, e) ==> Undisturbed(s.k, Apply(s, e).k)
  {
    hide KInv, PInv, ContsSane, Ticked, Ticking, Slept, Undisturbed, FallsAsleep, KApply, Resumed;
    KernelApplied(s, e);
    if Peaceful(s, e) {
      PeacefulSleepers(s, e);
      SleepersUndisturbed(s.k, Apply(s, e).k);
    } else if e == Continue {
      ResumedKill(s);
      VictimTimes(s, s.k.conts[s.k.curr].victim);
    } else {
      CallTimes(s.k, e);
    }
  }

  lemma CallTimes(k: KState, e: Event)
    requires AtRest(k) && (e.ClockTick? || FallsAsleep(k, e) || e.SendTo? || e.KillProc?)
    requires FallsAsleep(k, e) ==> k.ndefers == 0 && k.curr != NULLPROC
    ensures e.ClockTick? && Ticking(k) ==> Ticked(k, KApply(k, e)) && Ticking(KApply(k, e))
    ensures FallsAsleep(k, e) ==> Slept(k, KApply(k, e), DelayOf(e))
    ensures FallsAsleep(k, e) && Ticking(k) ==> (Ticking(KApply(k, e)) <==> DelayOf(e) >= 1)
    ensures e.SendTo? || e.KillProc? ==> Undisturbed(k, KApply(k, e))
  {
    hide AtRest, Ticked, Ticking, Slept, Undisturbed, Tick, Send, Kill;
    RestSized(k);
    if FallsAsleep(k, e) {
      SleepCallTimes(k, e);
    } else if e.ClockTick? {
      if Ticking(k) {
        TickTicked(k);
      }
    } else if e.SendTo? {
      SendUndisturbed(k, e.pid, e.item);
    } else {
      KillUndisturbed(k, e.pid);
    }
  }

  lemma ResumedKill(s: Sys)
    requires Inv(s) && s.k.conts[s.k.curr].InKill?
    ensures var v := s.k.conts[s.k.curr].victim; 0 < v < |s.k.procs| && Resumed(s) == PtKillEnd(s, v)
  {
    hide KInv, PInv, PtKillEnd;
  }

  lemma KernelApplied(s: Sys, e: Event)
    requires Inv(s) && Enabled(s, e)
    ensures AtRest(s.k) && (KernelEvent(e) ==> Apply(s, e).k == KApply(s.k, e))
    ensures FallsAsleep(s.k, e) ==> KernelEvent(e) && s.k.ndefers == 0 && s.k.curr != NULLPROC
    ensures MayBlock(e) ==> s.k.curr != NULLPROC
  {
    hide AtRest, SemExact, PInv, ContsSane, KApply;
  }

  // ----- who can be woken early

  lemma SendWakes(k: KState, p: int, m: int, q: int)
    requires AtRest(k) && q in k.sleepq && q !in Send(k, p, m).sleepq
    ensures q == p && 0 <= q < |k.procs| && k.procs[q].state == RecTim && !k.procs[q].hasmsg
  {
    hide OnLists, ReadySorted, ReadyProc, Without;
    if !BadPid(k, p) && !k.procs[p].hasmsg {
      BaseLists(k, p);
      SleepersOnce(k);
      WithoutElements(k.sleepq, p);
    }
  }

  lemma SleepersOnce(k: KState)
    requires AtRest(k)
    ensures NoDup(k.sleepq)
  {
  }

  lemma KillEndWakes(k: KState, v: int, q: int)
    requires AtRest(k) && SemExact(k, -1) && 0 < v < |k.procs| && q in k.sleepq && q !in KillEnd(k, v).sleepq
    ensures q == v
  {
    hide ReadySorted, Resched, LeaveSem, Without;
    WithoutElements(k.sleepq, v);
  }

  /** Apart from the tick, only a message ends a timed receive early, and only death a sleep. */
  lemma LeavesEarly(s: Sys, e: Event, q: int)
    requires Inv(s) && Enabled(s, e) && !e.ClockTick?
    requires q in s.k.sleepq && q !in Apply(s, e).k.sleepq
    ensures || (e == Continue && s.k.conts[s.k.curr] == InKill(q))
            || ((e.SendTo? || e.KillProc?) && 0 <= q < |s.k.procs| && s.k.procs[q].state == RecTim
                && !s.k.procs[q].hasmsg)
  {
    hide AtRest, PInv, ContsSane, FallsAsleep, Slept, KApply, Resumed, SemExact, Counters;
    KernelApplied(s, e);
    StepTimes(s, e);
    if Peaceful(s, e) {
      PeacefulSleepers(s, e);
    } else if FallsAsleep(s.k, e) {
      StillThere(s.k, Apply(s, e).k, DelayOf(e), q);
    } else if e == Continue {
      ResumedKill(s);
      KillEndWakes(s.k, s.k.conts[s.k.curr].victim, q);
    } else {
      CallWakes(s.k, e, q);
    }
  }

  lemma StillThere(k: KState, r: KState, delay: int, q: int)
    requires Slept(k, r, delay) && q in k.sleepq
    ensures q in r.sleepq
  {
    hide Left;
  }

  lemma CallWakes(k: KState, e: Event, q: int)
    requires AtRest(k) && (e.SendTo? || e.KillProc?) && q in k.sleepq && q !in KApply(k, e).sleepq
    ensures 0 <= q < |k.procs| && k.procs[q].state == RecTim && !k.procs[q].hasmsg
  {
    hide AtRest, Send;
    RestSized(k);
    if e.SendTo? {
      SendWakes(k, e.pid, e.item, q);
    } else if !BadPid(k, e.pid) && e.pid != NULLPROC && k.prcount > 2 {
      var k2 := SetCont(k.(prcount := k.prcount - 1), k.curr, InKill(e.pid));
      RestFrame(k, k2);
      SendWakes(k2, k.procs[e.pid].parent, e.pid, q);
    }
  }
}
