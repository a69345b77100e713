/**
 What every kernel step keeps: process states agree with list membership, semaphore
 counts with queue lengths, and the current process outranks every ready one.
 */
module KernelInvariants {
  import opened Sequences
  import opened QueueTables
  import opened KernelState

  predicate Asleep(st: PrState) {
    st == Sleep || st == RecTim
  }

  predicate Runs(st: PrState) { st == Ready || st == Curr }

  /** Process p is on exactly the list its state names, or on none if it is f. */
  ghost predicate AtHome(k: KState, p: int, f: int)
    requires Sized(k) && 0 <= p < |k.procs|
  {
    var pr := k.procs[p];
    && (p in k.ready <==> p != f && pr.state == Ready)
    && (p in k.sleepq <==> p != f && Asleep(pr.state))
    && (forall j :: 0 <= j < |k.sq| ==> (p in k.sq[j] <==> p != f && pr.state == Wait && pr.sem == j))
    && (pr.state == Wait ==> 0 <= pr.sem < |k.sems|)
    && (pr.state == Curr ==> p == k.curr)
  }

  /** All processes but f are where their states say, f is on no list, and no list repeats one. */
  ghost predicate OnLists(k: KState, f: int)
    requires Sized(k)
  {
    && (forall p :: 0 <= p < |k.procs| ==> AtHome(k, p, f))
    && NoDup(k.ready) && NoDup(k.sleepq)
    && (forall j :: 0 <= j < |k.sq| ==> NoDup(k.sq[j]))
  }

  /** The ready list is in descending priority order and its keys are those priorities. */
  ghost predicate ReadySorted(k: KState)
    requires Sized(k)
  {
    && (forall i :: 0 <= i < |k.ready| ==> k.key[k.ready[i]] == k.procs[k.ready[i]].prio)
    && (forall i, j :: 0 <= i < j < |k.ready| ==> k.procs[k.ready[i]].prio >= k.procs[k.ready[j]].prio)
  }

  /** The null process is always able to run and has the lowest priority. */
  ghost predicate NullRuns(k: KState)
    requires Sized(k)
  {
    && (k.procs[NULLPROC].state == Curr || k.procs[NULLPROC].state == Ready)
    && k.procs[NULLPROC].prio == 0
    && (forall p :: 0 <= p < |k.procs| ==> k.procs[p].prio >= 0)
    && (forall p :: 0 < p < |k.procs| && k.procs[p].state != Free ==> k.procs[p].prio >= 1)
  }

  ghost predicate Base(k: KState, f: int)
  {
    Sized(k) && OnLists(k, f) && ReadySorted(k) && NullRuns(k)
  }

  /** No ready process has a higher priority than the current one. */
  ghost predicate Sched(k: KState)
    requires Sized(k)
  {
    forall p :: p in k.ready ==> k.procs[p].prio <= k.procs[k.curr].prio
  }

  ghost predicate AtRest(k: KState) {
    && Base(k, -1) && k.procs[k.curr].state == Curr
    && (k.ndefers == 0 || !k.attempt ==> Sched(k))
  }

  /** A negative count is the number of waiting processes; otherwise nobody waits. x is exempt. */
  ghost predicate SemExact(k: KState, x: int)
    requires Sized(k)
  {
    forall s :: 0 <= s < |k.sems| && s != x ==>
      && (k.sems[s].count >= 0 ==> k.sq[s] == [])
      && (k.sems[s].count < 0 ==> k.sems[s].used && |k.sq[s]| == -k.sems[s].count)
  }

  ghost predicate Counters(k: KState) {
    && (|k.sems| > 0 ==> 0 <= k.nextsem < |k.sems|)
    && 1 <= k.nextpid <= |k.procs|
    && 1 <= k.preempt <= k.quantum
    && 1 <= k.count1000 <= 1000 && k.ms == 1000 * k.secs + (1000 - k.count1000)
  }

  ghost predicate KInv(k: KState) {
    AtRest(k) && SemExact(k, -1) && Counters(k)
  }

  // ----- the scheduler

  /** insert keeps the order, adds exactly one process, and does so behind its equals. */
  lemma InsertSorted(k: KState, p: int)
    requires Sized(k) && ReadySorted(k) && 0 <= p < |k.procs| && p !in k.ready && NoDup(k.ready)
    ensures var r := InsertReady(k, p);
            && ReadySorted(r) && NoDup(r.ready)
            && (forall x :: x in r.ready <==> x == p || x in k.ready)
  {
    hide InsertPos, NoneFreed, SameShape;
    var r := InsertReady(k, p);
    var i := InsertPos(k.ready, k.key, k.procs[p].prio);
    InsertAtElements(k.ready, i, p);
    assert p !in k.ready && NoDup(k.ready);
    hide NoDup;
    forall a | 0 <= a < |r.ready|
      ensures r.ready[a] == if a < i then k.ready[a] else if a == i then p else k.ready[a - 1]
    {
    }
    forall a, b | 0 <= a < b < |r.ready|
      ensures r.procs[r.ready[a]].prio >= r.procs[r.ready[b]].prio
    {
      assert i < |k.ready| ==> k.procs[k.ready[i]].prio < k.procs[p].prio;
    }
  }

  lemma InsertReadyBase(k: KState, p: int)
    requires Base(k, p) && 0 <= p < |k.procs| && k.procs[p].state != Free
    ensures Base(InsertReady(k, p), -1)
    ensures p in InsertReady(k, p).ready
    ensures forall x :: 0 <= x < |k.procs| && x != p ==> InsertReady(k, p).procs[x] == k.procs[x]
  {
    assert AtHome(k, p, p);
    InsertSorted(k, p);
    var r := InsertReady(k, p);
    hide ReadySorted, InsertList;
    forall x | 0 <= x < |r.procs| ensures AtHome(r, x, -1) {
      assert AtHome(k, x, p);
    }
  }

  /** dequeue(readylist) and the switch to its result. */
  lemma DispatchRest(k: KState)
    requires Base(k, -1) && k.ready != [] && k.ndefers == 0
    requires forall p :: 0 <= p < |k.procs| ==> k.procs[p].state != Curr
    ensures AtRest(Dispatch(k)) && Sched(Dispatch(k))
  {
    DispatchSorted(k);
    var r := Dispatch(k);
    WithoutHead(k.ready);
    hide ReadySorted;
    assert AtHome(k, k.ready[0], -1);
    forall x | 0 <= x < |r.procs| ensures AtHome(r, x, -1) {
      assert AtHome(k, x, -1);
    }
  }

  lemma DispatchSorted(k: KState)
    requires Base(k, -1) && k.ready != [] && k.ndefers == 0
    ensures ReadySorted(Dispatch(k)) && Sched(Dispatch(k)) && NullRuns(Dispatch(k))
  {
    var r := Dispatch(k);
    assert AtHome(k, k.ready[0], -1) && AtHome(k, NULLPROC, -1);
    hide AtHome;
    assert forall i :: 0 <= i < |r.ready| ==> r.ready[i] == k.ready[i + 1];
  }

  /** resched restores the scheduling invariant, or records that it is owed while deferred. There
      is always a process to switch to. */
  lemma ReschedRest(k: KState)
    requires Base(k, -1)
    requires k.procs[k.curr].state == Curr || k.ndefers == 0
    ensures AtRest(Resched(k))
    ensures k.ndefers == 0 ==> Sched(Resched(k))
  {
    forall p | 0 <= p < |k.procs| && k.procs[p].state == Curr ensures p == k.curr {
      assert AtHome(k, p, -1);
    }
    if k.ndefers > 0 {
      var r := Resched(k);
      forall x | 0 <= x < |r.procs| ensures AtHome(r, x, -1) {
        assert AtHome(k, x, -1);
      }
    } else if k.procs[k.curr].state != Curr {
      assert AtHome(k, NULLPROC, -1);
      DispatchRest(k);
    } else if k.procs[k.curr].prio > FirstKey(k) {
      forall p | p in k.ready ensures k.procs[p].prio <= k.procs[k.curr].prio {
        var i :| 0 <= i < |k.ready| && k.ready[i] == p;
        assert k.procs[k.ready[0]].prio >= k.procs[k.ready[i]].prio;
      }
    } else {
      LiftCurr(k);
      InsertReadyBase(k, k.curr);
      hide ReadySorted, AtHome, InsertReady;
      DispatchRest(InsertReady(k, k.curr));
    }
  }

  /** The current process is on no list. */
  lemma LiftCurr(k: KState)
    requires Base(k, -1) && k.procs[k.curr].state == Curr
    ensures Base(k, k.curr)
  {
    Lift(k, k.curr);
  }

  lemma Lift(k: KState, p: int)
    requires Base(k, -1) && 0 <= p < |k.procs|
    requires k.procs[p].state in {Free, Curr, Recv, Susp}
    ensures Base(k, p)
  {
    forall x | 0 <= x < |k.procs| ensures AtHome(k, x, p) {
      assert AtHome(k, x, -1);
    }
  }

  lemma ReadyRest(k: KState, p: int)
    requires Base(k, p) && 0 <= p < |k.procs| && k.procs[p].state != Free
    requires p != k.curr && k.procs[k.curr].state == Curr
    ensures AtRest(ReadyProc(k, p))
  {
    InsertReadyBase(k, p);
    ReschedRest(InsertReady(k, p));
  }

  // ----- changes that concern one process

  /** Only process v has changed its state or its place. */
  ghost predicate Moved(k: KState, r: KState, v: int)
    requires Sized(k) && Sized(r)
  {
    && |r.procs| == |k.procs| && |r.sq| == |k.sq| && r.curr == k.curr && 0 <= v < |k.procs|
    && (forall x :: 0 <= x < |k.procs| && x != v ==> r.procs[x] == k.procs[x])
    && (forall x :: x != v ==> (x in r.ready <==> x in k.ready))
    && (forall x :: x != v ==> (x in r.sleepq <==> x in k.sleepq))
    && (forall j, x :: 0 <= j < |k.sq| && x != v ==> (x in r.sq[j] <==> x in k.sq[j]))
    && NoDup(r.ready) && NoDup(r.sleepq)
    && (forall j :: 0 <= j < |r.sq| ==> NoDup(r.sq[j]))
  }

  lemma MovedLists(k: KState, r: KState, v: int, f: int, g: int)
    requires Sized(k) && Sized(r) && OnLists(k, f) && Moved(k, r, v)
    requires (f == v || f == -1) && (g == v || g == -1) && AtHome(r, v, g)
    ensures OnLists(r, g)
  {
    forall x | 0 <= x < |r.procs| ensures AtHome(r, x, g) {
      assert AtHome(k, x, f);
    }
  }

  /** The ready list, its keys and its priorities are as they were. */
  lemma SortedSame(k: KState, r: KState)
    requires Sized(k) && Sized(r) && ReadySorted(k) && r.ready == k.ready && |r.procs| == |k.procs|
    requires forall x :: x in k.ready ==> r.key[x] == k.key[x] && r.procs[x].prio == k.procs[x].prio
    ensures ReadySorted(r)
  {
    assert forall a :: 0 <= a < |k.ready| ==> k.ready[a] in k.ready;
  }

  /** What AtRest depends on. */
  ghost predicate RestView(a: KState, b: KState) {
    && b.procs == a.procs && b.sq == a.sq && b.ready == a.ready && b.sleepq == a.sleepq
    && b.key == a.key && b.curr == a.curr
    && |b.conts| == |a.conts| && |b.sems| == |a.sems|
  }

  lemma BaseFrame(a: KState, b: KState, f: int)
    requires Base(a, f) && RestView(a, b) && b.ndefers >= 0
    ensures Base(b, f)
  {
    forall x | 0 <= x < |b.procs| ensures AtHome(b, x, f) {
      assert AtHome(a, x, f);
    }
  }

  lemma RestFrame(a: KState, b: KState)
    requires AtRest(a) && RestView(a, b) && b.ndefers == a.ndefers && b.attempt == a.attempt
    ensures AtRest(b)
  {
    hide OnLists, ReadySorted, NullRuns;
    BaseFrame(a, b, -1);
  }

  lemma RestSized(k: KState)
    requires AtRest(k)
    ensures Sized(k)
  {
  }

  lemma BaseSized(k: KState, f: int)
    requires Base(k, f)
    ensures Sized(k)
  {
  }

  /** Exactness is a matter of counts and queues only. */
  lemma ExactFrame(k: KState, r: KState)
    requires Sized(k) && Sized(r) && SemExact(k, -1) && r.sems == k.sems && r.sq == k.sq
    ensures SemExact(r, -1)
  {
  }

  lemma RestBase(k: KState)
    requires AtRest(k)
    ensures Base(k, -1) && k.procs[k.curr].state == Curr
  {
  }

  lemma DeferStartRest(k: KState)
    requires AtRest(k)
    ensures AtRest(DeferStart(k))
  {
    hide OnLists, ReadySorted, NullRuns;
    BaseFrame(k, DeferStart(k), -1);
  }

  lemma DeferStopRest(k: KState)
    requires AtRest(k)
    ensures AtRest(DeferStop(k))
  {
    hide OnLists, ReadySorted, NullRuns;
    if k.ndefers > 0 {
      BaseFrame(k, k.(ndefers := k.ndefers - 1), -1);
      if k.ndefers == 1 && k.attempt {
        hide Resched;
        ReschedRest(k.(ndefers := 0));
      }
    }
  }

  lemma BaseLists(k: KState, x: int)
    requires Base(k, -1) && 0 <= x < |k.procs|
    ensures Sized(k) && AtHome(k, x, -1)
  {
  }

  // ----- semaphores

  lemma ReleaseBase(k: KState, s: int)
    requires AtRest(k) && 0 <= s < |k.sems| && k.sq[s] != []
    ensures var p := k.sq[s][0];
            && Base(k.(sq := k.sq[s := k.sq[s][1..]]), p)
            && 0 <= p < |k.procs| && p != k.curr && k.procs[p].state == Wait
  {
    var p := k.sq[s][0];
    var k1 := k.(sq := k.sq[s := k.sq[s][1..]]);
    WithoutHead(k.sq[s]);
    assert AtHome(k, p, -1) && AtHome(k, k.curr, -1) && p in k.sq[s];
    MovedLists(k, k1, p, -1, p);
    SortedSame(k, k1);
  }

  /** The head of a semaphore queue becomes ready. */
  lemma ReleaseRest(k: KState, s: int)
    requires AtRest(k) && 0 <= s < |k.sems| && k.sq[s] != []
    ensures AtRest(ReleaseHead(k, s))
  {
    ReleaseBase(k, s);
    hide OnLists, AtHome, ReadySorted, ReadyProc;
    ReadyRest(k.(sq := k.sq[s := k.sq[s][1..]]), k.sq[s][0]);
  }

  lemma SignalOneRest(k: KState, s: int)
    requires AtRest(k) && SemExact(k, -1) && 0 <= s < |k.sems|
    ensures AtRest(SignalOne(k, s)) && SemExact(SignalOne(k, s), -1)
  {
    hide AtRest, Resched;
    assert Sized(k) by { RestSized(k); }
    var k1 := SetCount(k, s, k.sems[s].count + 1);
    RestFrame(k, k1);
    if k.sems[s].count < 0 {
      ReleaseRest(k1, s);
    }
  }

  lemma {:induction false} SignalTimesRest(k: KState, s: int, n: nat)
    requires AtRest(k) && SemExact(k, -1) && 0 <= s < |k.sems|
    ensures AtRest(SignalTimes(k, s, n)) && SemExact(SignalTimes(k, s, n), -1)
    decreases n
  {
    hide AtRest, SignalOne, SemExact;
    RestSized(k);
    if n > 0 {
      SignalOneRest(k, s);
      SignalTimesRest(SignalOne(k, s), s, n - 1);
    }
  }

  lemma SignalnRest(k: KState, s: int, n: int)
    requires AtRest(k) && SemExact(k, -1)
    ensures AtRest(Signaln(k, s, n)) && SemExact(Signaln(k, s, n), -1)
  {
    hide AtRest, SignalTimes, Resched;
    RestSized(k);
    if n >= 0 && !BadSem(k, s) {
      DeferStartRest(k);
      SignalTimesRest(DeferStart(k), s, n);
      DeferStopRest(SignalTimes(DeferStart(k), s, n));
    }
  }

  lemma BlockOnBase(k: KState, s: int)
    requires AtRest(k) && 0 <= s < |k.sems| && k.curr != NULLPROC
    ensures Base(BlockOn(k, s), -1)
  {
    var r := BlockOn(k, s);
    assert AtHome(k, k.curr, -1);
    assert forall x :: x in r.sq[s] <==> x in k.sq[s] || x == k.curr;
    MovedLists(k, r, k.curr, -1, -1);
    SortedSame(k, r);
  }

  lemma SemWaitRest(k: KState, s: int)
    requires AtRest(k) && SemExact(k, -1) && k.ndefers == 0 && k.curr != NULLPROC
    ensures AtRest(SemWait(k, s)) && SemExact(SemWait(k, s), -1)
  {
    hide AtRest, Base, Resched;
    RestSized(k);
    if !BadSem(k, s) {
      var k1 := SetCount(k, s, k.sems[s].count - 1);
      RestFrame(k, k1);
      if k1.sems[s].count < 0 {
        BlockOnBase(k1, s);
        ReschedRest(BlockOn(k1, s));
      }
    }
  }

  lemma {:induction false} DrainRest(k: KState, s: int)
    requires AtRest(k) && 0 <= s < |k.sems|
    ensures AtRest(Drain(k, s))
    decreases |k.sq[s]|
  {
    hide AtRest, ReleaseHead;
    RestSized(k);
    if k.sq[s] != [] {
      ReleaseRest(k, s);
      DrainRest(ReleaseHead(k, s), s);
    }
  }

  lemma SemResetRest(k: KState, s: int, c: int)
    requires AtRest(k) && SemExact(k, -1)
    ensures AtRest(SemReset(k, s, c)) && SemExact(SemReset(k, s, c), -1)
  {
    hide AtRest, Drain, Resched;
    RestSized(k);
    if c >= 0 && !BadSem(k, s) {
      var k1 := DeferStart(k);
      DeferStartRest(k);
      DrainRest(k1, s);
      RestFrame(Drain(k1, s), SetCount(Drain(k1, s), s, c));
      DeferStopRest(SetCount(Drain(DeferStart(k), s), s, c));
    }
  }

  /** semdelete's loop is driven by the count alone; it empties the queue because the count is exact. */
  lemma {:induction false} DrainCountRest(k: KState, s: int)
    requires AtRest(k) && 0 <= s < |k.sems|
    requires if k.sems[s].count < 0 then |k.sq[s]| == -k.sems[s].count else k.sq[s] == []
    ensures var r := DrainCount(k, s); var c := k.sems[s].count;
            && AtRest(r) && r.sq == k.sq[s := []]
            && r.sems == k.sems[s := k.sems[s].(count := if c < 0 then 1 else c + 1)]
    decreases if k.sems[s].count < 0 then -k.sems[s].count else 0
  {
    hide AtRest, Resched;
    RestSized(k);
    var k1 := SetCount(k, s, k.sems[s].count + 1);
    RestFrame(k, k1);
    if k.sems[s].count < 0 {
      ReleaseRest(k1, s);
      DrainCountRest(ReleaseHead(k1, s), s);
    }
  }

  lemma SemDeleteRest(k: KState, s: int)
    requires AtRest(k) && SemExact(k, -1)
    ensures var r := SemDelete(k, s);
            && AtRest(r) && SemExact(r, -1)
            && (!BadSem(k, s) ==>
                  && r.sq == k.sq[s := []] && r.conts == k.conts
                  && (var c := k.sems[s].count; r.sems == k.sems[s := Sem(false, if c < 0 then 1 else c + 1)]))
  {
    hide AtRest, Resched, DrainCount;
    RestSized(k);
    if !BadSem(k, s) {
      var k0 := k.(sems := k.sems[s := k.sems[s].(used := false)]);
      var k1 := DeferStart(k0);
      RestFrame(k, k0);
      DeferStartRest(k0);
      DrainCountRest(k1, s);
      DeferStopRest(DrainCount(k1, s));
    }
  }

  /** An unused entry has an empty queue, so a new semaphore starts exact. */
  lemma SemCreateRest(k: KState, c: int)
    requires AtRest(k) && SemExact(k, -1)
    ensures AtRest(SemCreate(k, c)) && SemExact(SemCreate(k, c), -1)
  {
    RestSized(k);
    hide AtRest;
    RestFrame(k, SemCreate(k, c));
  }

  // ----- suspend, resume, create, kill

  lemma SuspendRest(k: KState, p: int)
    requires AtRest(k) && (p == k.curr ==> k.ndefers == 0)
    ensures AtRest(Suspend(k, p))
  {
    hide Resched, OnLists, ReadySorted, Sched;
    if !BadPid(k, p) && p != NULLPROC {
      StateFacts(k, p);
      if k.procs[p].state == Ready {
        ReadyLess(k, p, Susp);
      } else if k.procs[p].state == Curr {
        CurrLeaves(k, Susp);
        ReschedRest(SetState(k, p, Susp));
      }
    }
  }

  /** A process other than the null process is taken off the ready list. */
  lemma TakeReadyBase(k: KState, p: int)
    requires Base(k, -1) && 0 < p < |k.procs| && p != k.curr && k.procs[p].state == Ready
    ensures Base(k.(ready := Without(k.ready, p)), p)
    ensures forall x :: x in Without(k.ready, p) ==> x in k.ready
  {
    var r := k.(ready := Without(k.ready, p));
    assert AtHome(k, p, -1);
    WithoutElements(k.ready, p);
    WithoutWithin(k.ready, p, |k.procs|);
    SortedLess(k, IndexOf(k.ready, p));
    assert OnLists(r, p) by {
      hide ReadySorted, Without;
      MovedLists(k, r, p, -1, p);
    }
  }

  lemma SortedLess(k: KState, i: nat)
    requires Sized(k) && ReadySorted(k) && i < |k.ready|
    ensures Sized(k.(ready := RemoveAt(k.ready, i))) && ReadySorted(k.(ready := RemoveAt(k.ready, i)))
  {
    var r := k.(ready := RemoveAt(k.ready, i));
    assert forall a :: 0 <= a < |r.ready| ==> r.ready[a] == k.ready[if a < i then a else a + 1];
  }

  lemma ReadyLess(k: KState, p: int, st: PrState)
    requires AtRest(k) && 0 < p < |k.procs| && k.procs[p].state == Ready && (st == Susp || st == Free)
    ensures AtRest(SetState(k, p, st).(ready := Without(k.ready, p)))
  {
    hide OnLists, ReadySorted, Without;
    StateFacts(k, p);
    TakeReadyBase(k, p);
    PlaceOff(k.(ready := Without(k.ready, p)), p, k.procs[p].(state := st));
  }

  /** A process that is on no list gets a new table entry whose state is on no list either. */
  lemma PlaceOff(k: KState, v: int, pr: Proc)
    requires Base(k, v) && 0 < v < |k.procs| && v != k.curr && k.procs[k.curr].state == Curr
    requires k.ndefers == 0 || !k.attempt ==> Sched(k)
    requires pr.state == Free || pr.state == Susp || pr.state == Recv
    requires pr.prio >= 0 && (pr.state != Free ==> pr.prio >= 1)
    ensures AtRest(k.(procs := k.procs[v := pr]))
  {
    var r := k.(procs := k.procs[v := pr]);
    assert AtHome(k, v, v);
    MovedLists(k, r, v, v, -1);
    SortedSame(k, r);
    hide OnLists, ReadySorted;
  }

  lemma ResumeRest(k: KState, p: int)
    requires AtRest(k)
    ensures AtRest(Resume(k, p))
  {
    hide OnLists, ReadySorted, ReadyProc, Sched;
    if !BadPid(k, p) && k.procs[p].state == Susp {
      StateFacts(k, p);
      ReadyRest(k, p);
    }
  }

  lemma CreateRest(k: KState, stkok: bool, prio: int)
    requires AtRest(k)
    ensures AtRest(Create(k, stkok, prio))
  {
    hide NoneFreed, OnLists, ReadySorted;
    var p := FindPid(k.procs, k.nextpid, |k.procs|);
    var r := Create(k, stkok, prio);
    if r.procs != k.procs {
      StateFacts(k, p);
      var k1 := k.(procs := r.procs);
      PlaceOff(k, p, r.procs[p]);
      RestFrame(k1, r);
    } else {
      RestFrame(k, r);
    }
  }

  lemma UnsleepBase(k: KState, p: int)
    requires Base(k, -1) && 0 <= p < |k.procs| && Asleep(k.procs[p].state)
    ensures Base(Unsleep(k, p), p)
  {
    var r := Unsleep(k, p);
    assert AtHome(k, p, -1);
    WithoutElements(k.sleepq, p);
    hide UnsleepKeys, Without;
    MovedLists(k, r, p, -1, p);
    forall x | x in k.ready ensures x !in k.sleepq {
      assert AtHome(k, x, -1);
    }
    SortedSame(k, r);
  }

  lemma MessageRest(k: KState, p: int, m: int, has: bool)
    requires AtRest(k) && 0 <= p < |k.procs|
    ensures AtRest(k.(procs := k.procs[p := k.procs[p].(msg := m, hasmsg := has)]))
  {
    var r := k.(procs := k.procs[p := k.procs[p].(msg := m, hasmsg := has)]);
    assert AtHome(k, p, -1);
    MovedLists(k, r, p, -1, -1);
    SortedSame(k, r);
    hide OnLists, ReadySorted;
  }

  lemma SendRest(k: KState, p: int, m: int)
    requires AtRest(k)
    ensures AtRest(Send(k, p, m))
  {
    hide OnLists, ReadySorted, Resched;
    if !BadPid(k, p) && !k.procs[p].hasmsg {
      var k1 := Deliver(k, p, m);
      MessageRest(k, p, m, true);
      StateFacts(k1, p);
      if k.procs[p].state == Recv {
        ReadyRest(k1, p);
      } else if k.procs[p].state == RecTim {
        UnsleepBase(k1, p);
        ReadyRest(Unsleep(k1, p), p);
      }
    }
  }

  lemma LeaveSemBase(k: KState, p: int)
    requires Base(k, -1) && SemExact(k, -1) && 0 <= p < |k.procs| && k.procs[p].state == Wait
    ensures var r := LeaveSem(k, k.procs[p].sem, p); Base(r, p) && SemExact(r, -1)
  {
    var s := k.procs[p].sem;
    var r := LeaveSem(k, s, p);
    assert AtHome(k, p, -1);
    WithoutElements(k.sq[s], p);
    hide Without;
    MovedLists(k, r, p, -1, p);
    SortedSame(k, r);
  }

  /** kill may find its victim anywhere; states, lists and counts agree again when it is gone. */
  lemma ReapRest(k: KState, v: int)
    requires AtRest(k) && SemExact(k, -1) && 0 < v < |k.procs|
    requires v == k.curr ==> k.ndefers == 0
    ensures AtRest(Reap(k, v)) && SemExact(Reap(k, v), -1)
  {
    hide Resched, Unsleep, LeaveSem, ReadySorted, OnLists;
    StateFacts(k, v);
    match k.procs[v].state
    case Curr =>
      CurrLeaves(k, Free);
      ReschedRest(SetState(k, v, Free));
    case Sleep => UnsleepBase(k, v); PlaceOff(Unsleep(k, v), v, k.procs[v].(state := Free));
    case RecTim => UnsleepBase(k, v); PlaceOff(Unsleep(k, v), v, k.procs[v].(state := Free));
    case Wait => LeaveSemBase(k, v); PlaceOff(LeaveSem(k, k.procs[v].sem, v), v, k.procs[v].(state := Free));
    case Ready => ReadyLess(k, v, Free);
    case Free =>
    case Recv => PlaceOff(k, v, k.procs[v].(state := Free));
    case Susp => PlaceOff(k, v, k.procs[v].(state := Free));
  }

  lemma StateFacts(k: KState, v: int)
    requires AtRest(k) && 0 <= v < |k.procs|
    ensures k.procs[v].state == Curr <==> v == k.curr
    ensures k.procs[v].state == Recv || k.procs[v].state == Susp || k.procs[v].state == Free ==> Base(k, v)
  {
    assert AtHome(k, v, -1);
    if k.procs[v].state == Recv || k.procs[v].state == Susp || k.procs[v].state == Free {
      Lift(k, v);
    }
  }

  /** The current process gives up the processor for a state that is on no list. */
  lemma CurrLeaves(k: KState, st: PrState)
    requires AtRest(k) && k.curr != NULLPROC && (st == Free || st == Susp || st == Recv)
    ensures Base(SetState(k, k.curr, st), -1)
  {
    var r := SetState(k, k.curr, st);
    assert AtHome(k, k.curr, -1);
    MovedLists(k, r, k.curr, -1, -1);
    SortedSame(k, r);
    hide OnLists, ReadySorted;
  }

  // ----- the clock

  lemma FallAsleepBase(k: KState, st: PrState, delay: int)
    requires AtRest(k) && k.curr != NULLPROC && Asleep(st)
    ensures Base(FallAsleep(k, st, delay), -1)
  {
    hide OnLists, ReadySorted, FallAsleep;
    RestSized(k);
    FallAsleepLists(k, st, delay);
    FallAsleepSorted(k, st, delay);
  }

  lemma FallAsleepLists(k: KState, st: PrState, delay: int)
    requires AtRest(k) && Asleep(st)
    ensures OnLists(FallAsleep(k, st, delay), -1)
  {
    hide DeltaKeys, DeltaPos, InsertAt, ReadySorted, NullRuns;
    InsertAtElements(k.sleepq, DeltaPos(k.sleepq, k.key, delay), k.curr);
    assert AtHome(k, k.curr, -1);
    MovedLists(k, FallAsleep(k, st, delay), k.curr, -1, -1);
  }

  lemma FallAsleepSorted(k: KState, st: PrState, delay: int)
    requires AtRest(k) && k.curr != NULLPROC && Asleep(st)
    ensures ReadySorted(FallAsleep(k, st, delay)) && NullRuns(FallAsleep(k, st, delay))
  {
    hide DeltaKeys, DeltaList, ReadySorted;
    assert AtHome(k, k.curr, -1);
    forall x | x in k.ready ensures x !in k.sleepq && x != k.curr {
      assert AtHome(k, x, -1);
    }
    SortedSame(k, FallAsleep(k, st, delay));
  }

  lemma SleepForRest(k: KState, st: PrState, delay: int)
    requires AtRest(k) && k.ndefers == 0 && k.curr != NULLPROC && Asleep(st)
    ensures AtRest(SleepFor(k, st, delay))
  {
    hide Resched, AtRest, Base, DeltaKeys;
    RestSized(k);
    FallAsleepBase(k, st, delay);
    ReschedRest(FallAsleep(k, st, delay));
  }

  lemma SleepMsRest(k: KState, delay: int)
    requires AtRest(k) && (delay > 0 ==> k.ndefers == 0 && k.curr != NULLPROC)
    ensures AtRest(SleepMs(k, delay))
  {
    hide Resched, OnLists, ReadySorted, SleepFor;
    if delay == 0 {
      ReschedRest(k);
    } else if delay > 0 {
      SleepForRest(k, Sleep, delay);
    }
  }

  lemma {:induction false} WakeAllRest(k: KState)
    requires AtRest(k)
    ensures AtRest(WakeAll(k))
    decreases |k.sleepq|
  {
    hide ReadyProc, Sched, AtHome;
    if k.sleepq != [] && k.key[k.sleepq[0]] <= 0 {
      WakeHeadRest(k);
      WakeAllRest(ReadyProc(k.(sleepq := k.sleepq[1..]), k.sleepq[0]));
    }
  }

  lemma WakeHeadBase(k: KState)
    requires AtRest(k) && k.sleepq != []
    ensures var p := k.sleepq[0];
            && Base(k.(sleepq := k.sleepq[1..]), p)
            && 0 <= p < |k.procs| && p != k.curr && Asleep(k.procs[p].state)
  {
    var p := k.sleepq[0];
    var k1 := k.(sleepq := k.sleepq[1..]);
    WithoutHead(k.sleepq);
    assert AtHome(k, p, -1) && AtHome(k, k.curr, -1) && p in k.sleepq;
    MovedLists(k, k1, p, -1, p);
    SortedSame(k, k1);
  }

  lemma WakeHeadRest(k: KState)
    requires AtRest(k) && k.sleepq != []
    ensures AtRest(ReadyProc(k.(sleepq := k.sleepq[1..]), k.sleepq[0]))
  {
    WakeHeadBase(k);
    hide OnLists, AtHome, ReadySorted, ReadyProc;
    ReadyRest(k.(sleepq := k.sleepq[1..]), k.sleepq[0]);
  }

  lemma LowerHeadRest(k: KState)
    requires AtRest(k) && k.sleepq != []
    ensures AtRest(LowerHead(k))
  {
    var r := LowerHead(k);
    var p := k.sleepq[0];
    assert AtHome(k, p, -1);
    MovedLists(k, r, p, -1, -1);
    SortedSame(k, r);
    hide OnLists, ReadySorted;
  }

  lemma TickSleepersRest(k: KState)
    requires AtRest(k)
    ensures AtRest(TickSleepers(k))
  {
    hide Resched, AtRest, Base, WakeAll;
    RestSized(k);
    if k.sleepq != [] {
      var k1 := LowerHead(k);
      LowerHeadRest(k);
      if k1.key[k1.sleepq[0]] == 0 {
        DeferStartRest(k1);
        WakeAllRest(DeferStart(k1));
        DeferStopRest(WakeAll(DeferStart(k1)));
      }
    }
  }

  lemma TickRest(k: KState)
    requires AtRest(k)
    ensures AtRest(Tick(k))
  {
    hide Resched, AtRest, Base, TickSleepers;
    RestSized(k);
    var k1 := CountTime(k);
    RestFrame(k, k1);
    TickSleepersRest(k1);
    TickPreemptRest(TickSleepers(k1));
  }

  lemma TickPreemptRest(k: KState)
    requires AtRest(k)
    ensures AtRest(TickPreempt(k))
  {
    hide Resched, OnLists, ReadySorted;
    if k.preempt == 1 {
      RestFrame(k, k.(preempt := k.quantum));
      ReschedRest(k.(preempt := k.quantum));
    } else {
      RestFrame(k, k.(preempt := k.preempt - 1));
    }
  }

  lemma ReceiveRest(k: KState)
    requires AtRest(k) && k.ndefers == 0 && k.curr != NULLPROC
    ensures AtRest(Receive(k))
  {
    hide Resched, OnLists, ReadySorted;
    var k1 := SetCont(k, k.curr, InReceive);
    RestFrame(k, k1);
    if !k.procs[k.curr].hasmsg {
      CurrLeaves(k1, Recv);
      ReschedRest(SetState(k1, k.curr, Recv));
    }
  }

  lemma RecvTimeRest(k: KState, maxwait: int)
    requires AtRest(k) && k.ndefers == 0 && k.curr != NULLPROC
    ensures AtRest(RecvTime(k, maxwait))
  {
    hide AtRest, SleepFor;
    RestSized(k);
    var k1 := SetCont(k, k.curr, InRecvTime);
    RestFrame(k, k1);
    RestFrame(k, SetCont(k, k.curr, User(SYSERR)));
    if maxwait >= 0 && !k.procs[k.curr].hasmsg {
      SleepForRest(k1, RecTim, maxwait);
    }
  }

  lemma TakeMessageRest(k: KState)
    requires AtRest(k)
    ensures AtRest(TakeMessage(k))
  {
    var p := k.procs[k.curr];
    MessageRest(k, k.curr, p.msg, false);
    hide AtRest;
    RestFrame(k, SetCont(k, k.curr, User(TIMEOUT)));
    var k1 := k.(procs := k.procs[k.curr := p.(hasmsg := false)]);
    RestFrame(k1, SetCont(k1, k.curr, User(p.msg)));
  }

  lemma KillRest(k: KState, v: int)
    requires AtRest(k)
    ensures AtRest(Kill(k, v))
  {
    hide AtRest, Send;
    RestSized(k);
    if !BadPid(k, v) && v != NULLPROC {
      var k1 := k.(prcount := k.prcount - 1);
      RestFrame(k, k1.(halted := true));
      RestFrame(k, SetCont(k1, k.curr, InKill(v)));
      SendRest(SetCont(k1, k.curr, InKill(v)), k.procs[v].parent, v);
    }
  }

  lemma KillEndRest(k: KState, v: int)
    requires AtRest(k) && SemExact(k, -1) && 0 < v < |k.procs| && k.ndefers == 0
    ensures AtRest(KillEnd(k, v)) && SemExact(KillEnd(k, v), -1)
  {
    hide AtRest, Reap;
    RestSized(k);
    var k1 := k.(conts := k.conts[k.curr := User(OK)][v := User(OK)]);
    RestFrame(k, k1);
    ReapRest(k1, v);
  }
}
