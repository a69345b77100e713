/**
 Over whole runs every sleeper is woken by exactly the tick it asked for.
 */
module ClockTheorems {
  import opened Sequences
  import opened QueueTables
  import opened KernelState
  import opened KernelInvariants
  import opened PortState
  import opened PortInvariants
  import opened Machine
  import opened DeltaLists
  import opened ClockSteps

  // ----- whole runs

  predicate NoZeroWaits(es: seq<Event>) {
    forall j :: 0 <= j < |es| ==> es[j] != ReceiveWithin(0)
  }

  function Ticks(es: seq<Event>): nat {
    if es == [] then 0 else (if es[0].ClockTick? then 1 else 0) + Ticks(es[1..])
  }

  /** q is on the sleep queue in every state of the run. */
  ghost predicate StaysAsleep(s: Sys, es: seq<Event>, q: int)
    requires SizedSys(s)
    decreases |es|
  {
    q in s.k.sleepq && (es != [] ==> StaysAsleep(Apply(s, es[0]), es[1..], q))
  }

  lemma TickingStep(s: Sys, e: Event)
    requires Inv(s) && Enabled(s, e) && Ticking(s.k) && e != ReceiveWithin(0)
    ensures Ticking(Apply(s, e).k)
  {
    hide KInv, PInv, ContsSane, Enabled, Ticking, Ticked, Slept, SameTimes, Apply;
    StepTimes(s, e);
  }

  lemma {:induction false} TickingRun(s: Sys, es: seq<Event>)
    requires Inv(s) && Run(s, es) && Ticking(s.k) && NoZeroWaits(es)
    ensures Ticking(After(s, es).k)
    decreases |es|
  {
    hide Inv, Enabled, Ticking, Apply;
    InvSized(s);
    if es != [] {
      StepInv(s, es[0]);
      TickingStep(s, es[0]);
      assert NoZeroWaits(es[1..]) by { assert forall j :: 0 <= j < |es[1..]| ==> es[1..][j] == es[j + 1]; }
      TickingRun(Apply(s, es[0]), es[1..]);
    }
  }

  lemma AsleepStep(s: Sys, e: Event, q: int)
    requires Inv(s) && Enabled(s, e) && Ticking(s.k) && q in s.k.sleepq && q in Apply(s, e).k.sleepq
    ensures Left(Apply(s, e).k, q) == Left(s.k, q) - if e.ClockTick? then 1 else 0
  {
    hide KInv, PInv, ContsSane, Enabled, Ticking, FallsAsleep, Left, Apply;
    StepTimes(s, e);
  }

  /** As long as q sleeps, its remaining time is what it was less the ticks since, and never used up. */
  lemma {:induction false} AsleepRun(s: Sys, es: seq<Event>, q: int)
    requires Inv(s) && Run(s, es) && Ticking(s.k) && NoZeroWaits(es) && StaysAsleep(s, es, q)
    ensures q in After(s, es).k.sleepq && Left(After(s, es).k, q) == Left(s.k, q) - Ticks(es)
    ensures Ticks(es) < Left(s.k, q)
    decreases |es|
  {
    hide Inv, Enabled, Ticking, Apply, Left;
    InvSized(s);
    if es != [] {
      StepInv(s, es[0]);
      TickingStep(s, es[0]);
      AsleepStep(s, es[0], q);
      assert NoZeroWaits(es[1..]) by { assert forall j :: 0 <= j < |es[1..]| ==> es[1..][j] == es[j + 1]; }
      AsleepRun(Apply(s, es[0]), es[1..], q);
    } else {
      TimeLeft(s.k, q);
    }
  }

  lemma TimeLeft(k: KState, q: int)
    requires Sized(k) && Ticking(k) && q in k.sleepq
    ensures Left(k, q) >= 1
  {
    LeftAtLeast(k.sleepq, k.key, q);
  }

  /** A process that asks for d ticks and is not taken off the queue by a message or by kill is made
      ready by the d-th tick after its call and by no earlier one, over any interleaving. */
  lemma WokenByTheTick(s: Sys, e: Event, es: seq<Event>)
    requires Inv(s) && Ticking(s.k) && Enabled(s, e) && FallsAsleep(s.k, e) && DelayOf(e) >= 1
    requires Run(Apply(s, e), es) && NoZeroWaits(es) && StaysAsleep(Apply(s, e), es, s.k.curr)
    requires Enabled(After(Apply(s, e), es), ClockTick)
    ensures var q, r := s.k.curr, Apply(After(Apply(s, e), es), ClockTick).k;
            && Ticks(es) < DelayOf(e)
            && (q in r.sleepq <==> Ticks(es) + 1 < DelayOf(e))
            && (Ticks(es) + 1 == DelayOf(e) ==> 0 <= q < |r.procs| && Runs(r.procs[q].state))
  {
    hide Inv, Enabled, Ticking, FallsAsleep, Left, Apply, Runs, Run;
    InvSized(s);
    var s1 := Apply(s, e);
    StepInv(s, e);
    StepTimes(s, e);
    AsleepRun(s1, es, s.k.curr);
    RunInv(s1, es);
    TickingRun(s1, es);
    StepTimes(After(s1, es), ClockTick);
    NotAsleepNow(After(s1, es).k);
    CurrBounds(s);
  }

  lemma NotAsleepNow(k: KState)
    requires Sized(k)
    ensures !FallsAsleep(k, ClockTick)
  {
  }

  lemma CurrBounds(s: Sys)
    requires Inv(s)
    ensures 0 <= s.k.curr < |s.k.procs|
  {
    hide KInv, PInv;
  }

  // ----- recvtime with a zero delay

  lemma ExpiredHead(k: KState)
    requires Sized(k) && k.sleepq != [] && k.key[k.sleepq[0]] <= 0
    ensures TickSleepers(k) == LowerHead(k)
  {
    hide WakeAll, DeferStop;
  }

  lemma ExpiredTick(k: KState)
    requires AtRest(k) && k.sleepq != [] && k.key[k.sleepq[0]] <= 0
    ensures AtRest(Tick(k)) && Tick(k).sleepq == k.sleepq && Tick(k).key[k.sleepq[0]] < 0
  {
    var k1 := CountTime(k);
    var k2 := TickSleepers(k1);
    hide AtRest, WakeAll, Resched, TickPreempt;
    RestSized(k);
    TickRest(k);
    RestFrame(k, k1);
    LowerHeadRest(k1);
    ExpiredHead(k1);
    PreemptSleepers(k2);
  }

  /** z heads the sleep queue with no time left; the tick wakes only when a key becomes exactly zero. */
  ghost predicate Stuck(k: KState, z: int)
    requires Sized(k)
  {
    k.sleepq != [] && k.sleepq[0] == z && k.key[z] <= 0
  }

  /** The first sleeper stays first with its key, unless it leaves. */
  ghost predicate HeadKept(k: KState, r: KState)
    requires Sized(k) && Sized(r)
  {
    k.sleepq != [] && k.sleepq[0] in r.sleepq ==>
      r.sleepq[0] == k.sleepq[0] && r.key[r.sleepq[0]] == k.key[k.sleepq[0]]
  }

  lemma SleepersHead(k: KState, r: KState)
    requires Sized(k) && Sized(r) && SameSleepers(k, r)
    ensures HeadKept(k, r)
  {
  }

  lemma HeadBetween(k: KState, k1: KState, k2: KState, r: KState)
    requires Sized(k) && Sized(k1) && Sized(k2) && Sized(r)
    requires SameSleepers(k, k1) && HeadKept(k1, k2) && SameSleepers(k2, r)
    ensures HeadKept(k, r)
  {
  }

  lemma UnsleepHead(k: KState, p: int)
    requires Base(k, -1) && 0 <= p < |k.procs| && Asleep(k.procs[p].state)
    ensures HeadKept(k, Unsleep(k, p))
  {
    BaseLists(k, p);
    DistinctEntries(k.sleepq);
    WithoutElements(k.sleepq, p);
    hide UnsleepKeys, Without, Distinct, ReadySorted, NullRuns;
    if k.sleepq[0] != p {
      UnsleepTail(k.sleepq, k.key, p);
    }
  }

  lemma SendHead(k: KState, p: int, m: int)
    requires AtRest(k)
    ensures HeadKept(k, Send(k, p, m))
  {
    hide OnLists, ReadySorted, Resched, HeadKept, SameSleepers, Unsleep, ReadyProc;
    SameHere(k);
    SleepersHead(k, k);
    if !BadPid(k, p) && !k.procs[p].hasmsg {
      var k1 := Deliver(k, p, m);
      MessageRest(k, p, m, true);
      StateFacts(k1, p);
      DeliverSleepers(k, p, m);
      if k.procs[p].state == Recv {
        ReadySleepers(k1, p);
        SleepersTrans(k, k1, ReadyProc(k1, p));
        SleepersHead(k, ReadyProc(k1, p));
      } else if k.procs[p].state == RecTim {
        var k2 := Unsleep(k1, p);
        UnsleepHead(k1, p);
        UnsleepBase(k1, p);
        ReadySleepers(k2, p);
        HeadBetween(k, k1, k2, ReadyProc(k2, p));
      } else {
        SleepersHead(k, k1);
      }
    }
  }

  lemma SameHere(k: KState)
    requires Sized(k)
    ensures SameSleepers(k, k)
  {
  }

  lemma DeliverSleepers(k: KState, p: int, m: int)
    requires Sized(k) && 0 <= p < |k.procs|
    ensures SameSleepers(k, Deliver(k, p, m))
  {
  }

  lemma KillHead(k: KState, v: int)
    requires AtRest(k)
    ensures HeadKept(k, Kill(k, v))
  {
    hide AtRest, Send;
    RestSized(k);
    if !BadPid(k, v) && v != NULLPROC {
      var k2 := SetCont(k.(prcount := k.prcount - 1), k.curr, InKill(v));
      RestFrame(k, k2);
      SendHead(k2, k.procs[v].parent, v);
    }
  }

  lemma KillEndHead(k: KState, v: int)
    requires AtRest(k) && SemExact(k, -1) && 0 < v < |k.procs|
    ensures HeadKept(k, KillEnd(k, v))
  {
    var k1 := k.(conts := k.conts[k.curr := User(OK)][v := User(OK)]);
    hide AtRest, Reap;
    RestSized(k);
    RestFrame(k, k1);
    ReapHead(k1, v);
  }

  lemma ReapHead(k: KState, v: int)
    requires AtRest(k) && SemExact(k, -1) && 0 < v < |k.procs|
    ensures HeadKept(k, Reap(k, v))
  {
    var r := Reap(k, v);
    hide Resched, Unsleep, LeaveSem, ReadySorted, OnLists, HeadKept;
    StateFacts(k, v);
    if k.procs[v].state == Curr {
      CurrLeaves(k, Free);
      ReschedSleepers(SetState(k, v, Free));
      SleepersHead(k, r);
    } else if Asleep(k.procs[v].state) {
      UnsleepHead(k, v);
      HeadBetween(k, k, Unsleep(k, v), r);
    } else {
      SleepersHead(k, r);
    }
  }

  lemma FallAsleepHead(k: KState, st: PrState, delay: int)
    requires Base(k, -1) && k.procs[k.curr].state == Curr && st != Free
    requires k.sleepq != [] && k.key[k.sleepq[0]] <= delay
    ensures HeadKept(k, FallAsleep(k, st, delay))
  {
    hide ReadySorted, NullRuns;
    BaseLists(k, k.curr);
    DistinctEntries(k.sleepq);
    DeltaTail(k.sleepq, k.key, k.curr, delay);
    hide DeltaList, DeltaKeys;
  }

  lemma SleepForHead(k: KState, st: PrState, delay: int)
    requires AtRest(k) && k.ndefers == 0 && k.curr != NULLPROC && Asleep(st)
    requires k.sleepq != [] && k.key[k.sleepq[0]] <= delay
    ensures HeadKept(k, SleepFor(k, st, delay))
  {
    hide AtRest, Base, FallAsleep, Resched;
    RestBase(k);
    RestSized(k);
    CurrentRuns(k);
    FallAsleepHead(k, st, delay);
    FallAsleepBase(k, st, delay);
    ReschedSleepers(FallAsleep(k, st, delay));
    SameHere(k);
    HeadBetween(k, k, FallAsleep(k, st, delay), SleepFor(k, st, delay));
  }

  lemma CurrentRuns(k: KState)
    requires AtRest(k)
    ensures k.procs[k.curr].state == Curr
  {
  }

  lemma SleepCallHead(k: KState, e: Event)
    requires AtRest(k) && k.ndefers == 0 && k.curr != NULLPROC && FallsAsleep(k, e)
    requires k.sleepq != [] && k.key[k.sleepq[0]] <= 0
    ensures HeadKept(k, KApply(k, e))
  {
    hide AtRest, SleepFor;
    RestSized(k);
    match e
    case SleepFewMs(d) => SleepForHead(k, Sleep, d);
    case SleepFewSecs(d) => SleepForHead(k, Sleep, 1000 * d);
    case ReceiveWithin(d) =>
      var k1 := SetCont(k, k.curr, InRecvTime);
      RestFrame(k, k1);
      SleepForHead(k1, RecTim, d);
  }

  lemma CallHead(k: KState, e: Event)
    requires AtRest(k) && (FallsAsleep(k, e) || e.SendTo? || e.KillProc?)
    requires FallsAsleep(k, e) ==> k.ndefers == 0 && k.curr != NULLPROC
    requires k.sleepq != [] && k.key[k.sleepq[0]] <= 0
    ensures HeadKept(k, KApply(k, e))
  {
    hide AtRest, Send, Kill, HeadKept;
    RestSized(k);
    if FallsAsleep(k, e) {
      SleepCallHead(k, e);
    } else if e.SendTo? {
      SendHead(k, e.pid, e.item);
    } else {
      KillHead(k, e.pid);
    }
  }

  /** While the sleeper with no time left stays on the queue it stays first, and no tick wakes anybody. */
  lemma StuckStep(s: Sys, e: Event, z: int)
    requires Inv(s) && Enabled(s, e) && Stuck(s.k, z) && z in Apply(s, e).k.sleepq
    ensures Stuck(Apply(s, e).k, z) && (e.ClockTick? ==> Apply(s, e).k.sleepq == s.k.sleepq)
  {
    hide KInv, PInv, ContsSane, FallsAsleep, KApply, Resumed;
    KernelApplied(s, e);
    if e.ClockTick? {
      ExpiredTick(s.k);
      TickIs(s.k);
    } else if Peaceful(s, e) {
      PeacefulSleepers(s, e);
      SleepersHead(s.k, Apply(s, e).k);
    } else if e == Continue {
      ResumedKill(s);
      KillEndHeadKept(s, s.k.conts[s.k.curr].victim);
    } else {
      CallHead(s.k, e);
    }
  }

  lemma TickIs(k: KState)
    requires Sized(k)
    ensures KApply(k, ClockTick) == Tick(k)
  {
    hide Tick;
  }

  lemma KillEndHeadKept(s: Sys, v: int)
    requires Inv(s) && 0 < v < |s.k.procs|
    ensures HeadKept(s.k, PtKillEnd(s, v).k)
  {
    hide PInv, AtRest, SemExact, HeadKept, KillEnd, AfterLoss;
    KillEndHead(s.k, v);
  }

  /** No tick of the run takes anybody off the sleep queue. */
  ghost predicate NoTickWakes(s: Sys, es: seq<Event>)
    requires SizedSys(s)
    decreases |es|
  {
    es != [] ==>
      && (es[0].ClockTick? ==> Apply(s, es[0]).k.sleepq == s.k.sleepq)
      && NoTickWakes(Apply(s, es[0]), es[1..])
  }

  lemma {:induction false} StuckRun(s: Sys, es: seq<Event>, z: int)
    requires Inv(s) && Run(s, es) && Stuck(s.k, z) && StaysAsleep(s, es, z)
    ensures NoTickWakes(s, es) && Stuck(After(s, es).k, z)
    decreases |es|
  {
    hide Inv, Enabled, Stuck, Apply;
    InvSized(s);
    if es != [] {
      StepInv(s, es[0]);
      StuckStep(s, es[0], z);
      StuckRun(Apply(s, es[0]), es[1..], z);
    }
  }

  lemma ZeroDelayFirst(k: KState, st: PrState)
    requires Base(k, -1) && k.procs[k.curr].state == Curr && st != Free && Ticking(k)
    ensures var r := FallAsleep(k, st, 0); r.sleepq != [] && r.sleepq[0] == k.curr && r.key[k.curr] == 0
  {
    hide ReadySorted, NullRuns;
    BaseLists(k, k.curr);
    DeltaRestFacts(k.sleepq, k.key, 0);
  }

  /** recvtime(0) without a message waiting: over any run in which the caller is still asleep, whatever
      other calls are made in it, no tick wakes anybody. */
  lemma ZeroWaitStopsTheClock(s: Sys, es: seq<Event>)
    requires Inv(s) && Enabled(s, ReceiveWithin(0)) && !s.k.procs[s.k.curr].hasmsg && Ticking(s.k)
    requires var r := Apply(s, ReceiveWithin(0)); Run(r, es) && StaysAsleep(r, es, s.k.curr)
    ensures var r := Apply(s, ReceiveWithin(0)); s.k.curr in r.k.sleepq && NoTickWakes(r, es)
  {
    hide KInv, PInv, ContsSane, Ticking, Stuck, KApply, Run, Enabled;
    KernelApplied(s, ReceiveWithin(0));
    StepInv(s, ReceiveWithin(0));
    ZeroWaitStuck(s.k);
    StuckRun(Apply(s, ReceiveWithin(0)), es, s.k.curr);
  }

  lemma ZeroWaitStuck(k: KState)
    requires AtRest(k) && k.ndefers == 0 && k.curr != NULLPROC && !k.procs[k.curr].hasmsg && Ticking(k)
    ensures Stuck(KApply(k, ReceiveWithin(0)), k.curr)
  {
    var k1 := SetCont(k, k.curr, InRecvTime);
    var m := FallAsleep(k1, RecTim, 0);
    hide AtRest, Base, Resched, FallAsleep, Ticking;
    RestSized(k);
    CurrentRuns(k);
    RestFrame(k, k1);
    RestBase(k1);
    SleepersTicking(k, k1);
    ZeroDelayFirst(k1, RecTim);
    FallAsleepBase(k1, RecTim, 0);
    ReschedSleepers(m);
  }
}
