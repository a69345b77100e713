/**
 Two runs from the start of a system with three processes, two semaphores, and one port with one
 message node: in one a port stays in limbo, in the other a message is left over.
 */
module Scenarios {
  import opened Sequences
  import opened QueueTables
  import opened KernelState
  import opened PortState
  import opened PortInvariants
  import opened Machine
  import opened PortTheorems
  import opened LimboTheorems

  /** The event takes state s to state r. */
  ghost predicate Moves(s: Sys, e: Event, r: Sys) {
    SizedSys(s) && Enabled(s, e) && Apply(s, e) == r
  }

  /** The states of the run, one more than its events. */
  ghost predicate Path(states: seq<Sys>, es: seq<Event>) {
    |states| == |es| + 1 && forall j :: 0 <= j < |es| ==> Moves(states[j], es[j], states[j + 1])
  }

  lemma {:induction false} PathIsRun(states: seq<Sys>, es: seq<Event>)
    requires Path(states, es) && SizedSys(states[0])
    ensures Run(states[0], es) && After(states[0], es) == states[|es|]
    decreases |es|
  {
    hide Enabled, Apply, SizedSys;
    if es != [] {
      assert Moves(states[0], es[0], states[1]);
      assert Path(states[1..], es[1..]) by {
        forall j | 0 <= j < |es| - 1 ensures Moves(states[1..][j], es[1..][j], states[1..][j + 1]) {
          assert Moves(states[j + 1], es[j + 1], states[j + 2]);
        }
      }
      PathIsRun(states[1..], es[1..]);
    }
  }

  /** The system after its start. */
  function Off(): (s: Sys)
    ensures SizedSys(s)
  {
    var k := KState(
      [Proc(Curr, 0, -1, false, 0, 0), Proc(Free, 0, -1, false, 0, 0), Proc(Free, 0, -1, false, 0, 0)],
      [User(OK), User(OK), User(OK)], [Sem(false, 0), Sem(false, 0)], [[], []], [], [], [0, 0, 0],
      0, 0, false, 10, 10, 0, 1, 1, false, 0, 1000, 0);
    var pt := PState(
      [Port(PtFree, 0, 0, [], false, 0, 0)], [0], [0], 0, Running,
      [History([], [], 0, 0)], []);
    Sys(k, pt, [UserSem, UserSem])
  }

  lemma OffIsStart()
    ensures Off() == Start(3, 2, 10, 1, 1)
  {
  }

  lemma SwitchOff(k: KState)
    requires Sized(k) && k.ndefers == 0 && k.procs[k.curr].state != Curr && k.ready != []
    ensures Resched(k) == SetState(k, k.ready[0], Curr).(
      ready := k.ready[1..], curr := k.ready[0], preempt := k.quantum)
  {
  }

  lemma Deferred(k: KState)
    requires Sized(k) && k.ndefers > 0
    ensures Resched(k) == k.(attempt := true)
  {
  }

  /** The first ready process has a higher priority than the current one. */
  lemma Preempted(k: KState)
    requires Sized(k) && k.ndefers == 0 && k.procs[k.curr].state == Curr && k.ready != []
    requires k.key[k.ready[0]] > k.procs[k.curr].prio
    ensures Resched(k) == Dispatch(InsertReady(k, k.curr))
  {
  }

  lemma Outranked(k: KState)
    requires Sized(k) && k.ndefers == 0 && k.procs[k.curr].state == Curr && k.ready != []
    requires k.key[k.ready[0]] < k.procs[k.curr].prio
    ensures Resched(k) == k
  {
  }

  // ----- a port that stays in limbo

  /** The null process creates process 1. */
  function Limbo1(): Sys {
    var s := Off();
    s.(k := s.k.(
      procs := [Proc(Curr, 0, -1, false, 0, 0), Proc(Susp, 1, -1, false, 0, 0), Proc(Free, 0, -1, false, 0, 0)],
      nextpid := 2, prcount := 2))
  }

  /** It resumes process 1, which preempts it. */
  function Limbo2(): Sys {
    var s := Limbo1();
    s.(k := s.k.(
      procs := [Proc(Ready, 0, -1, false, 0, 0), Proc(Curr, 1, -1, false, 0, 0), Proc(Free, 0, -1, false, 0, 0)],
      ready := [0], key := [0, 1, 0], curr := 1))
  }

  /** Process 1 creates process 2 with a higher priority. */
  function Limbo3(): Sys {
    var s := Limbo2();
    s.(k := s.k.(
      procs := [Proc(Ready, 0, -1, false, 0, 0), Proc(Curr, 1, -1, false, 0, 0), Proc(Susp, 2, -1, false, 0, 1)],
      nextpid := 3, prcount := 3))
  }

  /** Process 1 opens port 0 with no room in it. */
  function Limbo4(): Sys {
    var s := Limbo3();
    s.(k := s.k.(
      conts := [User(OK), User(0), User(OK)], sems := [Sem(true, 0), Sem(true, 0)]),
      pt := s.pt.(tab := [Port(PtAlloc, 0, 1, [], true, 1, 0)]),
      owner := [SendSide(0), RecvSide(0)])
  }

  /** Process 1 resumes process 2, which preempts it. */
  function Limbo5(): Sys {
    var s := Limbo4();
    s.(k := s.k.(
      procs := [Proc(Ready, 0, -1, false, 0, 0), Proc(Ready, 1, -1, false, 0, 0), Proc(Curr, 2, -1, false, 0, 1)],
      ready := [1, 0], key := [0, 1, 2], curr := 2))
  }

  /** Process 2 waits in ptsend for room; process 1 goes on. */
  function Limbo6(): Sys {
    var s := Limbo5();
    s.(k := s.k.(
      procs := [Proc(Ready, 0, -1, false, 0, 0), Proc(Curr, 1, -1, false, 0, 0), Proc(Wait, 2, 0, false, 0, 1)],
      conts := [User(OK), User(0), InSend(0, 1, 7)], sems := [Sem(true, -1), Sem(true, 0)], sq := [[2], []],
      ready := [0], curr := 1))
  }

  /** Process 1 resets the port. The first semreset releases process 2, which preempts process 1 there. */
  function Limbo7(): Sys {
    var s := Limbo6();
    s.(k := s.k.(
      procs := [Proc(Ready, 0, -1, false, 0, 0), Proc(Ready, 1, -1, false, 0, 0), Proc(Curr, 2, 0, false, 0, 1)],
      conts := [User(OK), InClear(0, PtAlloc, 1), InSend(0, 1, 7)], sems := [Sem(true, 0), Sem(true, 0)],
      sq := [[], []], ready := [1, 0], curr := 2, attempt := true),
      pt := s.pt.(tab := [Port(PtLimbo, 0, 1, [], true, 2, 0)]))
  }

  /** Process 2 comes back from ptsend with SYSERR. */
  function Limbo8(): Sys {
    var s := Limbo7();
    s.(k := s.k.(
      conts := [User(OK), InClear(0, PtAlloc, 1), User(SYSERR)]))
  }

  /** Process 2 kills process 1: the notice to its parent. */
  function Limbo9(): Sys {
    var s := Limbo8();
    s.(k := s.k.(
      procs := [Proc(Ready, 0, -1, true, 1, 0), Proc(Ready, 1, -1, false, 0, 0), Proc(Curr, 2, 0, false, 0, 1)],
      conts := [User(OK), InClear(0, PtAlloc, 1), InKill(1)], prcount := 2))
  }

  /** The rest of the kill. */
  function Limbo10(): Sys {
    var s := Limbo9();
    s.(k := s.k.(
      procs := [Proc(Ready, 0, -1, true, 1, 0), Proc(Free, 1, -1, false, 0, 0), Proc(Curr, 2, 0, false, 0, 1)],
      conts := [User(OK), User(OK), User(OK)], ready := [0]))
  }

  lemma LimboStep1()
    ensures Moves(Off(), CreateProc(true, 1), Limbo1())
  {
    hide NoneFreed, SameShape, SameSems;
  }

  lemma LimboStep2()
    ensures Moves(Limbo1(), ResumeProc(1), Limbo2())
  {
    hide NoneFreed, SameShape, SameSems, Resched;
    Preempted(InsertReady(Limbo1().k, 1));
  }

  lemma LimboStep3()
    ensures Moves(Limbo2(), CreateProc(true, 2), Limbo3())
  {
    hide NoneFreed, SameShape, SameSems;
  }

  lemma LimboStep4()
    ensures Moves(Limbo3(), CreatePort(0), Limbo4())
  {
    hide NoneFreed, SameShape, SameSems;
  }

  lemma Limbo5Inserted()
    ensures InsertReady(Limbo4().k, 2).ready == [2, 0]
    ensures InsertReady(InsertReady(Limbo4().k, 2), 1).ready == [2, 1, 0]
  {
    hide NoneFreed, SameShape, SameSems;
  }

  lemma LimboStep5()
    ensures Moves(Limbo4(), ResumeProc(2), Limbo5())
  {
    hide NoneFreed, SameShape, SameSems, Resched;
    Limbo5Inserted();
    Preempted(InsertReady(Limbo4().k, 2));
  }

  lemma LimboStep6()
    ensures Moves(Limbo5(), SendToPort(0, 7), Limbo6())
  {
    hide NoneFreed, SameShape, SameSems, Resched;
    var k := SetCount(SetCont(Limbo5().k, 2, InSend(0, 1, 7)), 0, -1);
    SwitchOff(BlockOn(k, 0));
    assert Limbo5().k.sq[0] + [2] == [2];
  }

  /** Inside the first semreset: rescheduling is deferred and process 2 is ready. */
  function Resetting(): KState {
    var k := Limbo6().k;
    k.(procs := k.procs[2 := k.procs[2].(state := Ready)], conts := k.conts[1 := InClear(0, PtAlloc, 1)],
       sq := [[], []], ready := [2, 0], ndefers := 1, attempt := true)
  }

  lemma ResetReleases()
    ensures Sized(Resetting())
    ensures Drain(DeferStart(SetCont(Limbo6().k, 1, InClear(0, PtAlloc, 1))), 0) == Resetting()
  {
    hide NoneFreed, SameShape, SameSems, Resched;
    var k := DeferStart(SetCont(Limbo6().k, 1, InClear(0, PtAlloc, 1)));
    assert k.sq[0][1..] == [];
    assert k.sq[0 := k.sq[0][1..]] == [[], []];
    Deferred(InsertReady(k.(sq := k.sq[0 := k.sq[0][1..]]), 2));
    assert ReleaseHead(k, 0) == Resetting();
    DrainOne(k, 0);
  }

  lemma DrainOne(k: KState, j: int)
    requires Sized(k) && 0 <= j < |k.sems| && |k.sq[j]| == 1
    ensures Drain(k, j) == ReleaseHead(k, j)
  {
    hide NoneFreed, SameShape, SameSems, ReadyProc;
  }

  lemma ResetFlushes()
    ensures Flush(Limbo6().pt, 0, PtAlloc) == Limbo7().pt
  {
    assert Limbo6().pt.disposed + Contents([], [0]) == [] && [] + Limbo6().pt.free == [0];
  }

  lemma ResetSwitches()
    ensures Sized(Resetting()) && DeferStop(SetCount(Resetting(), 0, 0)) == Limbo7().k
  {
    hide NoneFreed, SameShape, SameSems, Resched;
    Preempted(SetCount(Resetting(), 0, 0).(ndefers := 0));
  }

  lemma LimboStep7()
    ensures Moves(Limbo6(), ResetPort(0), Limbo7())
  {
    hide NoneFreed, SameShape, SameSems, Drain, DeferStop, Resetting, Flush;
    ResetReleases();
    ResetSwitches();
    ResetFlushes();
  }

  lemma LimboStep8()
    ensures Moves(Limbo7(), Continue, Limbo8())
  {
    hide NoneFreed, SameShape, SameSems;
  }

  lemma LimboStep9()
    ensures Moves(Limbo8(), KillProc(1), Limbo9())
  {
    hide NoneFreed, SameShape, SameSems;
  }

  lemma LimboReap()
    ensures KillEnd(Limbo9().k, 1) == Limbo10().k
  {
    hide NoneFreed, SameShape, SameSems;
  }

  lemma LimboStep10()
    ensures Moves(Limbo9(), Continue, Limbo10())
  {
    hide NoneFreed, SameShape, SameSems, KillEnd;
    LimboReap();
  }

  lemma Limbo10Abandoned()
    ensures SizedSys(Limbo10()) && Abandoned(Limbo10(), 0)
  {
  }

  /** The events of the run. */
  function Stranding(): seq<Event> {
    [CreateProc(true, 1), ResumeProc(1), CreateProc(true, 2), CreatePort(0), ResumeProc(2), SendToPort(0, 7),
     ResetPort(0), Continue, KillProc(1), Continue]
  }

  /** A port can be stranded: here a waiting sender with a higher priority is released by the reset
      and kills the process that is doing it. Nobody will bring the port out of limbo after that. */
  lemma PortStranded()
    ensures var s0 := Start(3, 2, 10, 1, 1); Run(s0, Stranding()) && Abandoned(After(s0, Stranding()), 0)
  {
    hide Moves, Run, After, Abandoned, Start, Off;
    hide Limbo1, Limbo2, Limbo3, Limbo4, Limbo5, Limbo6, Limbo7, Limbo8, Limbo9, Limbo10;
    var states := [Off(), Limbo1(), Limbo2(), Limbo3(), Limbo4(), Limbo5(), Limbo6(), Limbo7(), Limbo8(),
                   Limbo9(), Limbo10()];
    LimboStep1();
    LimboStep2();
    LimboStep3();
    LimboStep4();
    LimboStep5();
    LimboStep6();
    LimboStep7();
    LimboStep8();
    LimboStep9();
    LimboStep10();
    OffIsStart();
    Limbo10Abandoned();
    PathIsRun(states, Stranding());
  }

  // ----- a message that is left over

  /** The null process creates process 1. */
  function Loss1(): Sys {
    var s := Off();
    s.(k := s.k.(
      procs := [Proc(Curr, 0, -1, false, 0, 0), Proc(Susp, 2, -1, false, 0, 0), Proc(Free, 0, -1, false, 0, 0)],
      nextpid := 2, prcount := 2))
  }

  /** It resumes process 1, which preempts it. */
  function Loss2(): Sys {
    var s := Loss1();
    s.(k := s.k.(
      procs := [Proc(Ready, 0, -1, false, 0, 0), Proc(Curr, 2, -1, false, 0, 0), Proc(Free, 0, -1, false, 0, 0)],
      ready := [0], key := [0, 2, 0], curr := 1))
  }

  /** Process 1 creates process 2 with a lower priority. */
  function Loss3(): Sys {
    var s := Loss2();
    s.(k := s.k.(
      procs := [Proc(Ready, 0, -1, false, 0, 0), Proc(Curr, 2, -1, false, 0, 0), Proc(Susp, 1, -1, false, 0, 1)],
      nextpid := 3, prcount := 3))
  }

  /** Process 1 opens port 0 for one message. */
  function Loss4(): Sys {
    var s := Loss3();
    s.(k := s.k.(
      conts := [User(OK), User(0), User(OK)], sems := [Sem(true, 1), Sem(true, 0)]),
      pt := s.pt.(tab := [Port(PtAlloc, 0, 1, [], true, 1, 1)]),
      owner := [SendSide(0), RecvSide(0)])
  }

  /** Process 1 makes process 2 ready. */
  function Loss5(): Sys {
    var s := Loss4();
    s.(k := s.k.(
      procs := [Proc(Ready, 0, -1, false, 0, 0), Proc(Curr, 2, -1, false, 0, 0), Proc(Ready, 1, -1, false, 0, 1)],
      ready := [2, 0], key := [0, 2, 1]))
  }

  /** Process 1 sleeps for a millisecond. */
  function Loss6(): Sys {
    var s := Loss5();
    s.(k := s.k.(
      procs := [Proc(Ready, 0, -1, false, 0, 0), Proc(Sleep, 2, -1, false, 0, 0), Proc(Curr, 1, -1, false, 0, 1)],
      ready := [0], sleepq := [1], key := [0, 1, 1], curr := 2))
  }

  /** Process 2 waits in ptrecv for a message. */
  function Loss7(): Sys {
    var s := Loss6();
    s.(k := s.k.(
      procs := [Proc(Curr, 0, -1, false, 0, 0), Proc(Sleep, 2, -1, false, 0, 0), Proc(Wait, 1, 1, false, 0, 1)],
      conts := [User(OK), User(0), InRecv(0, 1)], sems := [Sem(true, 1), Sem(true, -1)], sq := [[], [2]],
      ready := [], curr := 0))
  }

  /** The tick wakes process 1. */
  function Loss8(): Sys {
    var s := Loss7();
    s.(k := s.k.(
      procs := [Proc(Ready, 0, -1, false, 0, 0), Proc(Curr, 2, -1, false, 0, 0), Proc(Wait, 1, 1, false, 0, 1)],
      ready := [0], sleepq := [], key := [0, 2, 1], curr := 1, attempt := true, preempt := 9, ms := 1,
      count1000 := 999))
  }

  /** Process 1 sends message 7 and passes the senders' semaphore. */
  function Loss9(): Sys {
    var s := Loss8();
    s.(k := s.k.(
      conts := [User(OK), InSend(0, 1, 7), InRecv(0, 1)], sems := [Sem(true, 0), Sem(true, -1)]))
  }

  /** The message is on the list; its signal makes process 2 ready, which is not run yet. */
  function Loss10(): Sys {
    var s := Loss9();
    s.(k := s.k.(
      procs := [Proc(Ready, 0, -1, false, 0, 0), Proc(Curr, 2, -1, false, 0, 0), Proc(Ready, 1, 1, false, 0, 1)],
      conts := [User(OK), User(OK), InRecv(0, 1)], sems := [Sem(true, 0), Sem(true, 0)], sq := [[], []],
      ready := [2, 0]),
      pt := s.pt.(tab := [Port(PtAlloc, 0, 1, [0], true, 1, 1)], msgs := [7], free := [],
          hist := [History([7], [], 0, 0)]))
  }

  /** Process 1 kills process 2: the notice to its parent, process 1 itself. */
  function Loss11(): Sys {
    var s := Loss10();
    s.(k := s.k.(
      procs := [Proc(Ready, 0, -1, false, 0, 0), Proc(Curr, 2, -1, true, 2, 0), Proc(Ready, 1, 1, false, 0, 1)],
      conts := [User(OK), InKill(2), InRecv(0, 1)], prcount := 2))
  }

  /** The rest of the kill. */
  function Loss12(): Sys {
    var s := Loss11();
    s.(k := s.k.(
      procs := [Proc(Ready, 0, -1, false, 0, 0), Proc(Curr, 2, -1, true, 2, 0), Proc(Free, 1, 1, false, 0, 1)],
      conts := [User(OK), User(OK), User(OK)], ready := [0]),
      pt := s.pt.(hist := [History([7], [], 0, 1)]))
  }

  lemma LossStep1()
    ensures Moves(Off(), CreateProc(true, 2), Loss1())
  {
    hide NoneFreed, SameShape, SameSems;
  }

  lemma LossStep2()
    ensures Moves(Loss1(), ResumeProc(1), Loss2())
  {
    hide NoneFreed, SameShape, SameSems, Resched;
    Preempted(InsertReady(Loss1().k, 1));
  }

  lemma LossStep3()
    ensures Moves(Loss2(), CreateProc(true, 1), Loss3())
  {
    hide NoneFreed, SameShape, SameSems;
  }

  lemma LossStep4()
    ensures Moves(Loss3(), CreatePort(1), Loss4())
  {
    hide NoneFreed, SameShape, SameSems;
  }

  lemma LossStep5()
    ensures Moves(Loss4(), ResumeProc(2), Loss5())
  {
    hide NoneFreed, SameShape, SameSems, Resched;
    Outranked(InsertReady(Loss4().k, 2));
  }

  lemma LossStep6()
    ensures Moves(Loss5(), SleepFewMs(1), Loss6())
  {
    hide NoneFreed, SameShape, SameSems;
  }

  lemma LossStep7()
    ensures Moves(Loss6(), ReceiveFromPort(0), Loss7())
  {
    hide NoneFreed, SameShape, SameSems, Resched;
    var k := SetCount(SetCont(Loss6().k, 2, InRecv(0, 1)), 1, -1);
    SwitchOff(BlockOn(k, 1));
    assert Loss6().k.sq[1] + [2] == [2];
  }

  /** Inside wakeup: rescheduling is deferred and process 1 is ready. */
  function Waking(): KState {
    var k := Loss7().k;
    k.(procs := k.procs[1 := k.procs[1].(state := Ready)], sleepq := [], ready := [1], key := [0, 2, 1],
       ndefers := 1, attempt := true, ms := 1, count1000 := 999)
  }

  lemma TickWakes()
    ensures Sized(Waking()) && WakeAll(DeferStart(LowerHead(CountTime(Loss7().k)))) == Waking()
  {
    hide NoneFreed, SameShape, SameSems, Resched;
    Deferred(InsertReady(DeferStart(LowerHead(CountTime(Loss7().k))).(sleepq := []), 1));
  }

  lemma WakerRuns()
    ensures Sized(Waking()) && DeferStop(Waking()) == Loss8().k.(preempt := 10)
  {
    hide NoneFreed, SameShape, SameSems, Resched;
    Preempted(Waking().(ndefers := 0));
  }

  lemma LossStep8()
    ensures Moves(Loss7(), ClockTick, Loss8())
  {
    hide NoneFreed, SameShape, SameSems, Waking, WakeAll, DeferStop, Resched;
    TickWakes();
    WakerRuns();
  }

  lemma LossStep9()
    ensures Moves(Loss8(), SendToPort(0, 7), Loss9())
  {
    hide NoneFreed, SameShape, SameSems;
  }

  lemma LossAppend()
    ensures Append(Loss9().pt, 0, 7) == Loss10().pt
  {
    var p, h := Loss9().pt.tab[0], Loss9().pt.hist[0];
    assert p.list + [0] == [0] && h.accepted + [7] == [7];
  }

  lemma LossSignal()
    ensures Signal(SetCont(Loss9().k, 1, User(OK)), 1) == Loss10().k
  {
    hide NoneFreed, SameShape, SameSems;
    assert Loss9().k.sq[1][1..] == [];
  }

  lemma LossStep10()
    ensures Moves(Loss9(), Continue, Loss10())
  {
    hide NoneFreed, SameShape, SameSems, Append, Signal;
    LossSignal();
    LossAppend();
  }

  lemma LossStep11()
    ensures Moves(Loss10(), KillProc(2), Loss11())
  {
    hide NoneFreed, SameShape, SameSems;
  }

  lemma LossReap()
    ensures KillEnd(Loss11().k, 2) == Loss12().k
  {
    hide NoneFreed, SameShape, SameSems;
  }

  lemma LossStep12()
    ensures Moves(Loss11(), Continue, Loss12())
  {
    hide NoneFreed, SameShape, SameSems, KillEnd;
    LossReap();
  }

  /** The events of the run. */
  function Losing(): seq<Event> {
    [CreateProc(true, 2), ResumeProc(1), CreateProc(true, 1), CreatePort(1), ResumeProc(2), SleepFewMs(1),
     ReceiveFromPort(0), ClockTick, SendToPort(0, 7), Continue, KillProc(2), Continue]
  }

  lemma LosingRuns()
    ensures var s0 := Start(3, 2, 10, 1, 1);
            && Run(s0, Losing()) && After(s0, Losing()) == Loss12()
            && Run(s0, Losing()[..10]) && After(s0, Losing()[..10]) == Loss10()
  {
    hide Moves, Run, After, Start, Off;
    hide Loss1, Loss2, Loss3, Loss4, Loss5, Loss6, Loss7, Loss8, Loss9, Loss10, Loss11, Loss12;
    var states := [Off(), Loss1(), Loss2(), Loss3(), Loss4(), Loss5(), Loss6(), Loss7(), Loss8(),
                   Loss9(), Loss10(), Loss11(), Loss12()];
    LossStep1();
    LossStep2();
    LossStep3();
    LossStep4();
    LossStep5();
    LossStep6();
    LossStep7();
    LossStep8();
    LossStep9();
    LossStep10();
    LossStep11();
    LossStep12();
    OffIsStart();
    PathIsRun(states, Losing());
    PathIsRun(states[..11], Losing()[..10]);
  }

  /** ptcount can return something else than described: here a message waits, no process is blocked,
      and it returns 0, because a receiver that has not run yet is counted as having it. */
  lemma PromisedNotCounted()
    ensures var s := After(Start(3, 2, 10, 1, 1), Losing()[..10]);
            && Run(Start(3, 2, 10, 1, 1), Losing()[..10])
            && Whole(s, 0) && PortState.PtCount(s, 0) == 0 && Described(s, 0) == 1
  {
    hide Run, After, Start, Losing;
    LosingRuns();
  }

  /** A token can be lost: here the receiver dies after the semaphore has let it through, and its
      message stays on the list with nobody to take it. */
  lemma MessageLeftOver()
    ensures var s := After(Start(3, 2, 10, 1, 1), Losing());
            && Run(Start(3, 2, 10, 1, 1), Losing()) && Whole(s, 0)
            && s.pt.hist[0].lostR == 1 && |s.pt.tab[0].list| == 1 && s.k.sems[s.pt.tab[0].rsem].count == 0
            && forall p :: 0 <= p < |s.k.conts| ==> s.k.conts[p].User?
  {
    hide Run, After, Start, Losing;
    LosingRuns();
  }
}
