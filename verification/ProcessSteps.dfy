/**
 What every step of the machine does to every process: its state, its priority, its message slot
 and its parent, for the processes that the step concerns and for all others.
 */
module ProcessSteps {
  import opened Sequences
  import opened QueueTables
  import opened KernelState
  import opened KernelInvariants
  import opened PortState
  import opened PortInvariants
  import opened Machine
  import opened ClockSteps
  import opened Searches

  /** A table entry as everybody but the scheduler sees it: who is current does not matter. */
  function Face(pr: Proc): Proc {
    if pr.state == Curr then pr.(state := Ready) else pr
  }

  ghost function Faces(k: KState): (f: seq<Proc>)
    ensures |f| == |k.procs| && forall p :: 0 <= p < |f| ==> f[p] == Face(k.procs[p])
  {
    seq(|k.procs|, p requires 0 <= p < |k.procs| => Face(k.procs[p]))
  }

  function Into(f: seq<Proc>, p: int, st: PrState): seq<Proc> {
    if 0 <= p < |f| then f[p := f[p].(state := st)] else f
  }

  /** All processes of the list have become ready. */
  ghost function Readied(f: seq<Proc>, list: seq<int>): (r: seq<Proc>)
    ensures |r| == |f|
    ensures forall p :: 0 <= p < |f| ==> r[p] == if p in list then f[p].(state := Ready) else f[p]
  {
    seq(|f|, p requires 0 <= p < |f| => if p in list then f[p].(state := Ready) else f[p])
  }

  lemma ReadiedNone(f: seq<Proc>)
    ensures Readied(f, []) == f
  {
  }

  lemma ReadiedMore(f: seq<Proc>, list: seq<int>)
    requires list != [] && 0 <= list[0] < |f|
    ensures Readied(Into(f, list[0], Ready), list[1..]) == Readied(f, list)
  {
    hide Readied;
    assert list == [list[0]] + list[1..];
  }

  lemma ReadiedOne(f: seq<Proc>, p: int)
    requires 0 <= p < |f|
    ensures Readied(f, [p]) == Into(f, p, Ready)
  {
  }

  // ----- the scheduler

  lemma SameFaces(k: KState, r: KState)
    requires |r.procs| == |k.procs| && forall p :: 0 <= p < |k.procs| ==> Face(r.procs[p]) == Face(k.procs[p])
    ensures Faces(r) == Faces(k)
  {
    hide Faces, Face;
  }

  lemma EqualFaces(k: KState, r: KState)
    requires r.procs == k.procs
    ensures Faces(r) == Faces(k)
  {
  }

  lemma ReadyOnes(k: KState, f: int)
    requires Base(k, f)
    ensures Sized(k) && forall x :: x in k.ready ==> 0 <= x < |k.procs| && k.procs[x].state == Ready
  {
    forall x | x in k.ready ensures 0 <= x < |k.procs| && k.procs[x].state == Ready {
      assert AtHome(k, x, f);
    }
  }

  lemma InsertFaces(k: KState, p: int)
    requires Sized(k) && 0 <= p < |k.procs|
    ensures Faces(InsertReady(k, p)) == Into(Faces(k), p, Ready)
  {
    hide Faces, InsertList, NoneFreed, SameShape;
  }

  lemma DispatchFaces(k: KState)
    requires Sized(k) && k.ndefers == 0 && (k.ready != [] ==> k.procs[k.ready[0]].state == Ready)
    ensures Faces(Dispatch(k)) == Faces(k)
  {
    hide Faces, NoneFreed, SameShape;
  }

  lemma ReschedFaces(k: KState)
    requires Base(k, -1)
    ensures Faces(Resched(k)) == Faces(k)
  {
    hide Faces, Dispatch, InsertReady, Base;
    ReadyOnes(k, -1);
    if k.ndefers == 0 {
      if k.procs[k.curr].state != Curr {
        DispatchFaces(k);
      } else if k.procs[k.curr].prio <= FirstKey(k) {
        InsertFaces(k, k.curr);
        LiftCurr(k);
        InsertReadyBase(k, k.curr);
        ReadyOnes(InsertReady(k, k.curr), -1);
        DispatchFaces(InsertReady(k, k.curr));
      }
    }
    EqualFaces(k, k.(attempt := true));
  }

  lemma ReadyFaces(k: KState, p: int)
    requires Base(k, p) && 0 <= p < |k.procs| && k.procs[p].state != Free
    requires p != k.curr && k.procs[k.curr].state == Curr
    ensures Sized(k) && Faces(ReadyProc(k, p)) == Into(Faces(k), p, Ready)
  {
    hide Faces, Resched, InsertReady, Base;
    BaseSized(k, p);
    InsertReadyBase(k, p);
    InsertFaces(k, p);
    ReschedFaces(InsertReady(k, p));
  }

  lemma DeferStopFaces(k: KState)
    requires AtRest(k)
    ensures Sized(k) && Faces(DeferStop(k)) == Faces(k)
  {
    hide Faces, Resched, Base;
    RestSized(k);
    if k.ndefers == 1 && k.attempt {
      StopBase(k);
      ReschedFaces(k.(ndefers := 0));
      EqualFaces(k, k.(ndefers := 0));
    } else {
      EqualFaces(k, DeferStop(k));
    }
  }

  lemma StopBase(k: KState)
    requires AtRest(k)
    ensures Base(k.(ndefers := 0), -1)
  {
    hide OnLists, ReadySorted, NullRuns;
    BaseFrame(k, k.(ndefers := 0), -1);
  }

  // ----- semaphores

  lemma ReleaseFaces(k: KState, s: int)
    requires AtRest(k) && 0 <= s < |k.sems| && k.sq[s] != []
    ensures Faces(ReleaseHead(k, s)) == Into(Faces(k), k.sq[s][0], Ready)
  {
    hide Faces, ReadyProc, Base;
    RestSized(k);
    var k1 := k.(sq := k.sq[s := k.sq[s][1..]]);
    ReleaseBase(k, s);
    CurrIsCurr(k);
    ReadyFaces(k1, k.sq[s][0]);
    EqualFaces(k, k1);
  }

  lemma CurrIsCurr(k: KState)
    requires AtRest(k)
    ensures Sized(k) && k.procs[k.curr].state == Curr
  {
  }

  lemma SignalOneFaces(k: KState, s: int)
    requires AtRest(k) && SemExact(k, -1) && 0 <= s < |k.sems|
    ensures Faces(SignalOne(k, s)) == Readied(Faces(k), k.sq[s][..Min(1, |k.sq[s]|)])
  {
    hide Faces, Readied, ReadyProc, AtRest;
    RestSized(k);
    var k1 := SetCount(k, s, k.sems[s].count + 1);
    RestFrame(k, k1);
    EqualFaces(k, k1);
    if k.sq[s] != [] {
      HeadInTable(k, s);
      assert k.sq[s][..1] == [k.sq[s][0]];
      ReleaseFaces(k1, s);
      ReadiedOne(Faces(k), k.sq[s][0]);
    } else {
      ReadiedNone(Faces(k));
    }
  }

  lemma HeadInTable(k: KState, s: int)
    requires Sized(k) && 0 <= s < |k.sems| && k.sq[s] != []
    ensures 0 <= k.sq[s][0] < |k.procs|
  {
  }

  lemma SignalFaces(k: KState, s: int)
    requires AtRest(k) && SemExact(k, -1)
    ensures Sized(k)
    ensures Faces(Signal(k, s)) == if BadSem(k, s) then Faces(k) else Readied(Faces(k), k.sq[s][..Min(1, |k.sq[s]|)])
  {
    hide Faces, Readied, SignalOne, AtRest, SemExact;
    RestSized(k);
    if !BadSem(k, s) {
      SignalOneFaces(k, s);
    }
  }

  lemma TakeMore(q: seq<int>, n: nat)
    requires q != [] && n > 0
    ensures var l := q[..Min(n, |q|)];
            && l != [] && l[0] == q[0] && q[..Min(1, |q|)] == [q[0]]
            && l[1..] == q[Min(1, |q|)..][..Min(n - 1, |q[Min(1, |q|)..]|)]
  {
  }

  lemma {:induction false} SignalTimesFaces(k: KState, s: int, n: nat)
    requires AtRest(k) && SemExact(k, -1) && 0 <= s < |k.sems|
    ensures Faces(SignalTimes(k, s, n)) == Readied(Faces(k), k.sq[s][..Min(n, |k.sq[s]|)])
    decreases n
  {
    hide Faces, Readied, SignalOne, AtRest, SemExact;
    RestSized(k);
    var q := k.sq[s];
    if n == 0 {
      assert q[..0] == [];
      ReadiedNone(Faces(k));
    } else {
      SignalOneRest(k, s);
      SignalOneFaces(k, s);
      SignalOneQueue(k, s);
      SignalTimesFaces(SignalOne(k, s), s, n - 1);
      if q != [] {
        TakeMore(q, n);
        HeadInTable(k, s);
        ReadiedOne(Faces(k), q[0]);
        ReadiedMore(Faces(k), q[..Min(n, |q|)]);
      } else {
        ReadiedNone(Faces(k));
      }
    }
  }

  lemma SignalOneQueue(k: KState, s: int)
    requires Sized(k) && SemExact(k, -1) && 0 <= s < |k.sems|
    ensures SignalOne(k, s).sq[s] == k.sq[s][Min(1, |k.sq[s]|)..]
  {
    hide ReadyProc;
  }

  lemma {:induction false} DrainFaces(k: KState, s: int)
    requires AtRest(k) && 0 <= s < |k.sems|
    ensures Faces(Drain(k, s)) == Readied(Faces(k), k.sq[s])
    decreases |k.sq[s]|
  {
    hide Faces, Readied, ReleaseHead, AtRest;
    RestSized(k);
    if k.sq[s] == [] {
      ReadiedNone(Faces(k));
    } else {
      ReleaseRest(k, s);
      ReleaseFaces(k, s);
      DrainFaces(ReleaseHead(k, s), s);
      HeadInTable(k, s);
      ReadiedMore(Faces(k), k.sq[s]);
    }
  }

  lemma {:induction false} DrainCountFaces(k: KState, s: int)
    requires AtRest(k) && 0 <= s < |k.sems|
    requires if k.sems[s].count < 0 then |k.sq[s]| == -k.sems[s].count else k.sq[s] == []
    ensures Faces(DrainCount(k, s)) == Readied(Faces(k), k.sq[s])
    decreases if k.sems[s].count < 0 then -k.sems[s].count else 0
  {
    hide Faces, Readied, ReleaseHead, AtRest;
    RestSized(k);
    var k1 := SetCount(k, s, k.sems[s].count + 1);
    RestFrame(k, k1);
    EqualFaces(k, k1);
    if k.sems[s].count >= 0 {
      ReadiedNone(Faces(k));
    } else {
      ReleaseRest(k1, s);
      ReleaseFaces(k1, s);
      DrainCountFaces(ReleaseHead(k1, s), s);
      HeadInTable(k, s);
      ReadiedMore(Faces(k), k.sq[s]);
    }
  }

  lemma SignalnFaces(k: KState, s: int, n: int)
    requires AtRest(k) && SemExact(k, -1) && !BadSem(k, s)
    ensures Sized(k)
    ensures Faces(Signaln(k, s, n)) == if n < 0 then Faces(k) else Readied(Faces(k), k.sq[s][..Min(n, |k.sq[s]|)])
  {
    hide Faces, Readied, SignalTimes, DeferStop, AtRest, SemExact;
    RestSized(k);
    if n >= 0 {
      DeferStartRest(k);
      ExactFrame(k, DeferStart(k));
      EqualFaces(k, DeferStart(k));
      SignalTimesFaces(DeferStart(k), s, n);
      SignalTimesRest(DeferStart(k), s, n);
      DeferStopFaces(SignalTimes(DeferStart(k), s, n));
    }
  }

  lemma SemResetFaces(k: KState, s: int, c: int)
    requires AtRest(k) && !BadSem(k, s)
    ensures Sized(k) && Faces(SemReset(k, s, c)) == if c < 0 then Faces(k) else Readied(Faces(k), k.sq[s])
  {
    hide Faces, Readied, Drain, DeferStop, AtRest;
    RestSized(k);
    if c >= 0 {
      var k1 := DeferStart(k);
      var k2 := Drain(k1, s);
      DeferStartRest(k);
      EqualFaces(k, k1);
      DrainFaces(k1, s);
      DrainRest(k1, s);
      RestFrame(k2, SetCount(k2, s, c));
      EqualFaces(k2, SetCount(k2, s, c));
      DeferStopFaces(SetCount(k2, s, c));
    }
  }

  lemma SemDeleteFaces(k: KState, s: int)
    requires AtRest(k) && SemExact(k, -1) && !BadSem(k, s)
    ensures Sized(k) && Faces(SemDelete(k, s)) == Readied(Faces(k), k.sq[s])
  {
    hide Faces, Readied, DrainCount, DeferStop, AtRest;
    RestSized(k);
    var k0 := k.(sems := k.sems[s := k.sems[s].(used := false)]);
    var k1 := DeferStart(k0);
    RestFrame(k, k0);
    DeferStartRest(k0);
    EqualFaces(k, k1);
    DrainCountFaces(k1, s);
    DrainCountRest(k1, s);
    DeferStopFaces(DrainCount(k1, s));
  }

  /** The caller waits on s. */
  function Queued(f: seq<Proc>, p: int, s: int): seq<Proc>
  {
    if 0 <= p < |f| then f[p := f[p].(state := Wait, sem := s)] else f
  }

  lemma SemWaitFaces(k: KState, s: int)
    requires AtRest(k) && k.curr != NULLPROC && !BadSem(k, s)
    ensures Sized(k)
    ensures Faces(SemWait(k, s)) == if k.sems[s].count <= 0 then Queued(Faces(k), k.curr, s) else Faces(k)
  {
    hide Faces, Resched, AtRest, Base;
    RestSized(k);
    var k1 := SetCount(k, s, k.sems[s].count - 1);
    RestFrame(k, k1);
    EqualFaces(k, k1);
    if k1.sems[s].count < 0 {
      BlockOnBase(k1, s);
      ReschedFaces(BlockOn(k1, s));
      BlockOnFaces(k1, s);
    }
  }

  lemma BlockOnFaces(k: KState, s: int)
    requires AtRest(k) && 0 <= s < |k.sems|
    ensures Faces(BlockOn(k, s)) == Queued(Faces(k), k.curr, s)
  {
    hide Faces, NoneFreed, SameShape;
  }

  // ----- processes

  lemma SuspendFaces(k: KState, p: int)
    requires AtRest(k) && (p == k.curr ==> k.ndefers == 0)
    ensures Sized(k)
    ensures Faces(Suspend(k, p)) ==
            if 0 < p < |k.procs| && Faces(k)[p].state == Ready then Into(Faces(k), p, Susp) else Faces(k)
  {
    hide Faces, Resched, OnLists, ReadySorted, NullRuns, Without;
    if 0 < p < |k.procs| && Faces(k)[p].state == Ready {
      StateFacts(k, p);
      SetStateFaces(k, p, Susp);
      if k.procs[p].state == Curr {
        CurrLeaves(k, Susp);
        ReschedFaces(SetState(k, p, Susp));
      } else {
        EqualFaces(SetState(k, p, Susp), Suspend(k, p));
      }
    }
  }

  lemma SetStateFaces(k: KState, p: int, st: PrState)
    requires 0 <= p < |k.procs| && st != Curr
    ensures Faces(SetState(k, p, st)) == Into(Faces(k), p, st)
  {
    hide Faces;
  }

  lemma ResumeFaces(k: KState, p: int)
    requires AtRest(k)
    ensures Sized(k)
    ensures Faces(Resume(k, p)) ==
            if 0 <= p < |k.procs| && k.procs[p].state == Susp then Into(Faces(k), p, Ready) else Faces(k)
  {
    hide Faces, ReadyProc, OnLists, ReadySorted;
    if !BadPid(k, p) && k.procs[p].state == Susp {
      StateFacts(k, p);
      ReadyFaces(k, p);
    }
  }

  // ----- messages

  /** What a message does to the process it is sent to. */
  function Delivered(pr: Proc, m: int): Proc {
    if pr.state == Free || pr.hasmsg then pr
    else
      var got := pr.(msg := m, hasmsg := true);
      if pr.state == Recv || pr.state == RecTim then got.(state := Ready) else got
  }

  function Sent(f: seq<Proc>, p: int, m: int): seq<Proc> {
    if 0 <= p < |f| then f[p := Delivered(f[p], m)] else f
  }

  lemma SendFaces(k: KState, p: int, m: int)
    requires AtRest(k)
    ensures Sized(k) && Faces(Send(k, p, m)) == Sent(Faces(k), p, m)
  {
    hide Faces, OnLists, ReadySorted, Unsleep, ReadyProc;
    if !BadPid(k, p) && !k.procs[p].hasmsg {
      var k1 := Deliver(k, p, m);
      MessageRest(k, p, m, true);
      StateFacts(k1, p);
      DeliverFaces(k, p, m);
      if k.procs[p].state == Recv {
        ReadyFaces(k1, p);
      } else if k.procs[p].state == RecTim {
        UnsleepBase(k1, p);
        EqualFaces(k1, Unsleep(k1, p));
        ReadyFaces(Unsleep(k1, p), p);
      }
    }
  }

  lemma DeliverFaces(k: KState, p: int, m: int)
    requires 0 <= p < |k.procs|
    ensures Faces(Deliver(k, p, m)) == Faces(k)[p := Faces(k)[p].(msg := m, hasmsg := true)]
  {
    hide Faces;
  }

  lemma ReceiveFaces(k: KState)
    requires AtRest(k) && k.ndefers == 0 && k.curr != NULLPROC
    ensures Sized(k)
    ensures Faces(Receive(k)) == if k.procs[k.curr].hasmsg then Faces(k) else Into(Faces(k), k.curr, Recv)
  {
    hide Faces, Resched, OnLists, ReadySorted;
    var k1 := SetCont(k, k.curr, InReceive);
    RestFrame(k, k1);
    EqualFaces(k, k1);
    if !k.procs[k.curr].hasmsg {
      CurrLeaves(k1, Recv);
      SetStateFaces(k1, k.curr, Recv);
      ReschedFaces(SetState(k1, k.curr, Recv));
    }
  }

  lemma SleepForFaces(k: KState, st: PrState, delay: int)
    requires AtRest(k) && k.ndefers == 0 && k.curr != NULLPROC && Asleep(st)
    ensures Sized(k) && Faces(SleepFor(k, st, delay)) == Into(Faces(k), k.curr, st)
  {
    hide Faces, Resched, AtRest, Base, FallAsleep;
    RestSized(k);
    FallAsleepBase(k, st, delay);
    FallAsleepFaces(k, st, delay);
    ReschedFaces(FallAsleep(k, st, delay));
  }

  lemma FallAsleepFaces(k: KState, st: PrState, delay: int)
    requires Sized(k) && Asleep(st)
    ensures Faces(FallAsleep(k, st, delay)) == Into(Faces(k), k.curr, st)
  {
    hide DeltaList, DeltaKeys;
    SetStateFaces(k, k.curr, st);
    hide Faces;
    EqualFaces(SetState(k, k.curr, st), FallAsleep(k, st, delay));
  }

  lemma SleepMsFaces(k: KState, delay: int)
    requires AtRest(k) && k.ndefers == 0 && k.curr != NULLPROC
    ensures Sized(k) && Faces(SleepMs(k, delay)) == if delay > 0 then Into(Faces(k), k.curr, Sleep) else Faces(k)
  {
    hide Faces, Resched, AtRest, Base, SleepFor;
    RestSized(k);
    if delay == 0 {
      RestBase(k);
      ReschedFaces(k);
    } else if delay > 0 {
      SleepForFaces(k, Sleep, delay);
    }
  }

  lemma RecvTimeFaces(k: KState, maxwait: int)
    requires AtRest(k) && k.ndefers == 0 && k.curr != NULLPROC
    ensures Sized(k)
    ensures Faces(RecvTime(k, maxwait)) ==
            if maxwait >= 0 && !k.procs[k.curr].hasmsg then Into(Faces(k), k.curr, RecTim) else Faces(k)
  {
    hide Faces, AtRest, SleepFor;
    RestSized(k);
    var k1 := SetCont(k, k.curr, InRecvTime);
    RestFrame(k, k1);
    EqualFaces(k, k1);
    EqualFaces(k, SetCont(k, k.curr, User(SYSERR)));
    if maxwait >= 0 && !k.procs[k.curr].hasmsg {
      SleepForFaces(k1, RecTim, maxwait);
    }
  }

  lemma TakeMessageFaces(k: KState)
    requires Sized(k)
    ensures Faces(TakeMessage(k)) ==
            if k.conts[k.curr] == InRecvTime && !k.procs[k.curr].hasmsg then Faces(k)
            else Faces(k)[k.curr := Faces(k)[k.curr].(hasmsg := false)]
  {
    hide Faces;
  }

  // ----- create and kill

  lemma KillFaces(k: KState, v: int)
    requires AtRest(k)
    ensures Sized(k)
    ensures Faces(Kill(k, v)) ==
            if BadPid(k, v) || v == NULLPROC || k.prcount <= 2 then Faces(k) else Sent(Faces(k), k.procs[v].parent, v)
  {
    hide Faces, AtRest, Send;
    RestSized(k);
    if !BadPid(k, v) && v != NULLPROC {
      var k1 := k.(prcount := k.prcount - 1);
      var k2 := SetCont(k1, k.curr, InKill(v));
      RestFrame(k, k2);
      EqualFaces(k, k2);
      EqualFaces(k, k1.(halted := true));
      SendFaces(k2, k.procs[v].parent, v);
    }
  }

  lemma ReapFaces(k: KState, v: int)
    requires AtRest(k) && SemExact(k, -1) && 0 < v < |k.procs|
    ensures Sized(k) && Faces(Reap(k, v)) == Into(Faces(k), v, Free)
  {
    hide Faces, Resched, Unsleep, LeaveSem, ReadySorted, OnLists, Without;
    StateFacts(k, v);
    SetStateFaces(k, v, Free);
    if k.procs[v].state == Curr {
      CurrLeaves(k, Free);
      ReschedFaces(SetState(k, v, Free));
    } else if k.procs[v].state == Free {
      StayFree(Faces(k), v);
    } else {
      EqualFaces(SetState(k, v, Free), Reap(k, v));
    }
  }

  lemma StayFree(f: seq<Proc>, v: int)
    requires 0 <= v < |f| && f[v].state == Free
    ensures Into(f, v, Free) == f
  {
  }

  lemma KillEndFaces(k: KState, v: int)
    requires AtRest(k) && SemExact(k, -1) && 0 < v < |k.procs|
    ensures Sized(k) && Faces(KillEnd(k, v)) == Into(Faces(k), v, Free)
  {
    hide Faces, AtRest, Reap;
    RestSized(k);
    var k1 := k.(conts := k.conts[k.curr := User(OK)][v := User(OK)]);
    RestFrame(k, k1);
    EqualFaces(k, k1);
    ReapFaces(k1, v);
  }

  // ----- the clock

  /** How many entries at the front of the delta list have no time left. */
  function Leading(list: seq<int>, key: seq<int>): (n: nat)
    requires Within(list, |key|)
    ensures n <= |list|
  {
    if list == [] || key[list[0]] > 0 then 0 else 1 + Leading(list[1..], key)
  }

  lemma {:induction false} LeadingSame(list: seq<int>, key: seq<int>, key': seq<int>)
    requires Within(list, |key|) && |key'| == |key| && forall x :: x in list ==> key'[x] == key[x]
    ensures Leading(list, key') == Leading(list, key)
    decreases |list|
  {
    if list != [] {
      assert list[0] in list;
      LeadingSame(list[1..], key, key');
    }
  }

  lemma LeadingMore(list: seq<int>, key: seq<int>)
    requires Within(list, |key|) && list != [] && key[list[0]] <= 0
    ensures var l := list[..Leading(list, key)];
            l != [] && l[0] == list[0] && l[1..] == list[1..][..Leading(list[1..], key)]
  {
  }

  lemma {:induction false} WakeAllFaces(k: KState)
    requires AtRest(k)
    ensures Sized(k) && Faces(WakeAll(k)) == Readied(Faces(k), k.sleepq[..Leading(k.sleepq, k.key)])
    decreases |k.sleepq|
  {
    hide Faces, Readied, ReadyProc, AtRest, Base;
    RestSized(k);
    var l := k.sleepq[..Leading(k.sleepq, k.key)];
    if k.sleepq == [] || k.key[k.sleepq[0]] > 0 {
      assert l == [];
      ReadiedNone(Faces(k));
    } else {
      WakeHeadFaces(k);
      WakeHeadRest(k);
      WakeAllFaces(ReadyProc(k.(sleepq := k.sleepq[1..]), k.sleepq[0]));
      LeadingMore(k.sleepq, k.key);
      ReadiedMore(Faces(k), l);
    }
  }

  lemma WakeHeadFaces(k: KState)
    requires AtRest(k) && k.sleepq != []
    ensures Sized(k) && 0 <= k.sleepq[0] < |k.procs|
    ensures var m := k.(sleepq := k.sleepq[1..]);
            var r := ReadyProc(m, k.sleepq[0]);
            && Faces(r) == Into(Faces(k), k.sleepq[0], Ready)
            && r.sleepq == k.sleepq[1..] && Leading(r.sleepq, r.key) == Leading(k.sleepq[1..], k.key)
  {
    hide Faces, ReadyProc, Base;
    RestSized(k);
    var m := k.(sleepq := k.sleepq[1..]);
    WakeHeadBase(k);
    CurrIsCurr(k);
    EqualFaces(k, m);
    ReadyFaces(m, k.sleepq[0]);
    ReadySleepers(m, k.sleepq[0]);
    LeadingSame(k.sleepq[1..], k.key, ReadyProc(m, k.sleepq[0]).key);
  }

  /** The sleepers that the tick wakes: the first one if it has one tick to go, and those behind it
      that are due with it. */
  function DueNow(k: KState): seq<int>
    requires Sized(k)
  {
    if k.sleepq == [] || k.key[k.sleepq[0]] != 1 then []
    else k.sleepq[..1 + Leading(k.sleepq[1..], k.key)]
  }

  lemma TickSleepersFaces(k: KState)
    requires AtRest(k)
    ensures Sized(k) && Faces(TickSleepers(k)) == Readied(Faces(k), DueNow(k))
  {
    hide Faces, Readied, WakeAll, DeferStop, AtRest, Leading;
    RestSized(k);
    ReadiedNone(Faces(k));
    if k.sleepq != [] {
      var k1 := LowerHead(k);
      LowerHeadRest(k);
      EqualFaces(k, k1);
      if k1.key[k1.sleepq[0]] == 0 {
        DeferStartRest(k1);
        EqualFaces(k1, DeferStart(k1));
        WakeAllFaces(DeferStart(k1));
        WakeAllRest(DeferStart(k1));
        DeferStopFaces(WakeAll(DeferStart(k1)));
        LoweredLeading(k);
      }
    }
  }

  lemma LoweredLeading(k: KState)
    requires AtRest(k) && Sized(k) && k.sleepq != [] && k.key[k.sleepq[0]] == 1
    ensures Leading(k.sleepq, LowerHead(k).key) == 1 + Leading(k.sleepq[1..], k.key)
  {
    SleepersOnce(k);
    assert k.sleepq[0] !in k.sleepq[1..];
    LeadingSame(k.sleepq[1..], k.key, LowerHead(k).key);
  }

  lemma TickFaces(k: KState)
    requires AtRest(k)
    ensures Sized(k) && Faces(Tick(k)) == Readied(Faces(k), DueNow(k))
  {
    hide Faces, Readied, TickSleepers, TickPreempt, AtRest, Leading;
    RestSized(k);
    var k1 := CountTime(k);
    RestFrame(k, k1);
    EqualFaces(k, k1);
    TickSleepersFaces(k1);
    TickSleepersRest(k1);
    PreemptFaces(TickSleepers(k1));
  }

  lemma PreemptFaces(k: KState)
    requires AtRest(k)
    ensures Sized(k) && Faces(TickPreempt(k)) == Faces(k)
  {
    hide Faces, Resched, AtRest, Base;
    RestSized(k);
    var k1 := k.(preempt := k.quantum);
    RestFrame(k, k1);
    RestBase(k1);
    ReschedFaces(k1);
    EqualFaces(k, k1);
    EqualFaces(k, k.(preempt := k.preempt - 1));
  }

  // ----- create

  /** The entry that create takes: the first free one from nextpid on, SYSERR if there is none. */
  ghost function NewPid(k: KState): (p: int)
    requires 1 <= k.nextpid <= |k.procs|
    ensures p == SYSERR || 0 <= p < |k.procs|
  {
    First(FreeProcs(k.procs), Place(k.nextpid, |k.procs|))
  }

  lemma CreateFaces(k: KState, stkok: bool, prio: int)
    requires Sized(k) && 1 <= k.nextpid <= |k.procs|
    ensures Faces(Create(k, stkok, prio)) ==
            if !stkok || prio < 1 || NewPid(k) == SYSERR then Faces(k)
            else Faces(k)[NewPid(k) := Proc(Susp, prio, -1, false, Faces(k)[NewPid(k)].msg, k.curr)]
  {
    hide Faces, FindPid, FreeProcs, FirstFrom;
    NewPidFirst(k);
    FirstUnique(FreeProcs(k.procs), Place(k.nextpid, |k.procs|), NewPid(k), FindPid(k.procs, k.nextpid, |k.procs|));
  }

  // ----- every step

  function AllWaiting(k: KState, j: int): seq<int>
    requires Sized(k)
  {
    if BadSem(k, j) then [] else k.sq[j]
  }

  function FirstWaiting(k: KState, j: int, n: int): seq<int>
    requires Sized(k)
  {
    AllWaiting(k, j)[..Min(Max0(n), |AllWaiting(k, j)|)]
  }

  /** The caller passes the semaphore or waits on it. */
  ghost function Waited(k: KState, j: int): seq<Proc>
    requires Sized(k)
  {
    if !BadSem(k, j) && k.sems[j].count <= 0 then Queued(Faces(k), k.curr, j) else Faces(k)
  }

  /** The process table after a kernel call. */
  ghost function FacesCalled(k: KState, e: Event): (r: seq<Proc>)
    requires Sized(k) && 1 <= k.nextpid <= |k.procs|
    ensures |r| == |k.procs|
  {
    var f := Faces(k);
    match e
    case ClockTick => Readied(f, DueNow(k))
    case SuspendProc(p) => if 0 < p < |f| && f[p].state == Ready then Into(f, p, Susp) else f
    case ResumeProc(p) => if 0 <= p < |f| && f[p].state == Susp then Into(f, p, Ready) else f
    case CreateProc(stkok, prio) =>
      var p := NewPid(k);
      if !stkok || prio < 1 || p == SYSERR then f else f[p := Proc(Susp, prio, -1, false, f[p].msg, k.curr)]
    case KillProc(v) =>
      if BadPid(k, v) || v == NULLPROC || k.prcount <= 2 then f else Sent(f, f[v].parent, v)
    case SendTo(p, m) => Sent(f, p, m)
    case ReceiveAny => if f[k.curr].hasmsg then f else Into(f, k.curr, Recv)
    case ReceiveWithin(d) => if d >= 0 && !f[k.curr].hasmsg then Into(f, k.curr, RecTim) else f
    case SleepFewMs(d) => if d > 0 then Into(f, k.curr, Sleep) else f
    case SleepFewSecs(d) => if 0 < d <= MAXSECONDS then Into(f, k.curr, Sleep) else f
    case WaitOn(j) => Waited(k, j)
    case SignalOn(j) => Readied(f, FirstWaiting(k, j, 1))
    case SignalManyOn(j, n) => Readied(f, FirstWaiting(k, j, n))
    case ResetSemaphore(j, c) => if c >= 0 then Readied(f, AllWaiting(k, j)) else f
    case DeleteSemaphore(j) => Readied(f, AllWaiting(k, j))
    case _ => f
  }

  /** The process table after a call or the rest of a call: only the caller, the process the call is
      about and those it releases have changed. */
  ghost function FacesAfter(s: Sys, e: Event): (r: seq<Proc>)
    requires SizedSys(s) && 1 <= s.k.nextpid <= |s.k.procs|
    ensures |r| == |s.k.procs|
  {
    match e
    case CreatePort(_) => Faces(s.k)
    case SendToPort(i, _) => if IsOpen(s.pt, i) then Waited(s.k, s.pt.tab[i].ssem) else Faces(s.k)
    case ReceiveFromPort(i) => if IsOpen(s.pt, i) then Waited(s.k, s.pt.tab[i].rsem) else Faces(s.k)
    case ResetPort(i) => FacesCleared(s, i)
    case DeletePort(i) => FacesCleared(s, i)
    case Continue => FacesResumed(s, s.k.conts[s.k.curr])
    case _ => FacesCalled(s.k, e)
  }

  ghost function FacesCleared(s: Sys, i: int): (r: seq<Proc>)
    requires SizedSys(s)
    ensures |r| == |s.k.procs|
  {
    if IsOpen(s.pt, i) then Readied(Faces(s.k), AllWaiting(s.k, s.pt.tab[i].ssem)) else Faces(s.k)
  }

  ghost function FacesResumed(s: Sys, c: Cont): (r: seq<Proc>)
    requires SizedSys(s)
    ensures |r| == |s.k.procs|
  {
    var f, x := Faces(s.k), s.k.curr;
    match c
    case InReceive => f[x := f[x].(hasmsg := false)]
    case InRecvTime => f[x := f[x].(hasmsg := false)]
    case InKill(v) => Into(f, v, Free)
    case InSend(i, q, _) =>
      if Current(s.pt, i, q) && s.pt.free != [] then Readied(f, FirstWaiting(s.k, s.pt.tab[i].rsem, 1)) else f
    case InRecv(i, q) => if Current(s.pt, i, q) then Readied(f, FirstWaiting(s.k, s.pt.tab[i].ssem, 1)) else f
    case InClear(i, _, phase) =>
      if 0 <= i < |s.pt.tab| && phase == 1 then Readied(f, AllWaiting(s.k, s.pt.tab[i].rsem)) else f
    case User(_) => f
  }

  lemma SemCallFaces(k: KState, e: Event)
    requires KInv(k) && SemEvent(e) && (e.WaitOn? ==> k.curr != NULLPROC)
    ensures Sized(k) && Faces(KApply(k, e)) == FacesCalled(k, e)
  {
    hide Faces, Readied, AtRest, SemExact, Counters;
    RestSized(k);
    ReadiedNone(Faces(k));
    match e
    case NewSemaphore(c) => EqualFaces(k, SemCreate(k, c));
    case WaitOn(j) => hide SemWait; if !BadSem(k, j) { SemWaitFaces(k, j); } else { BadCallFaces(k, e, j); }
    case SignalOn(j) => hide Signal; SignalFaces(k, j);
    case SignalManyOn(j, n) => hide Signaln; if !BadSem(k, j) { SignalnFaces(k, j, n); } else { BadCallFaces(k, e, j); }
    case ResetSemaphore(j, c) =>
      hide SemReset;
      if !BadSem(k, j) { SemResetFaces(k, j, c); } else { BadCallFaces(k, e, j); }
    case DeleteSemaphore(j) =>
      hide SemDelete;
      if !BadSem(k, j) { SemDeleteFaces(k, j); } else { BadCallFaces(k, e, j); }
  }

  lemma BadCallFaces(k: KState, e: Event, j: int)
    requires Sized(k) && SemEvent(e) && UsesSem(e, j) && BadSem(k, j)
    ensures KApply(k, e) == k
  {
  }

  lemma CallFaces(k: KState, e: Event)
    requires KInv(k) && KernelEvent(e) && !SemEvent(e)
    requires MayBlock(e) || e.KillProc? || e == SuspendProc(k.curr) ==> k.ndefers == 0
    requires MayBlock(e) ==> k.curr != NULLPROC
    ensures Sized(k) && Faces(KApply(k, e)) == FacesCalled(k, e)
  {
    hide Faces, Readied, AtRest, SemExact, NewPid, DueNow;
    RestSized(k);
    match e
    case ClockTick => hide Tick; TickFaces(k);
    case Yield => hide Resched, Base; RestBase(k); ReschedFaces(k);
    case SuspendProc(p) => hide Suspend; SuspendFaces(k, p);
    case ResumeProc(p) => hide Resume; ResumeFaces(k, p);
    case CreateProc(stkok, prio) => hide Create; CreateFaces(k, stkok, prio);
    case KillProc(p) => hide Kill; KillFaces(k, p);
    case SendTo(p, m) => hide Send; SendFaces(k, p, m);
    case ReceiveAny => hide Receive; ReceiveFaces(k);
    case ReceiveWithin(d) => hide RecvTime; RecvTimeFaces(k, d);
    case SleepFewMs(d) => hide SleepMs; SleepMsFaces(k, d);
    case SleepFewSecs(d) => hide SleepMs; SleepMsFaces(k, 1000 * d);
    case StartDeferral => EqualFaces(k, DeferStart(k));
    case StopDeferral => hide DeferStop; DeferStopFaces(k);
  }

  lemma ContFaces(k: KState, x: int, c: Cont)
    requires KInv(k) && 0 <= x < |k.conts|
    ensures KInv(SetCont(k, x, c)) && Faces(SetCont(k, x, c)) == Faces(k)
  {
    hide AtRest, Faces;
    ContKeepsKInv(k, x, c);
    EqualFaces(k, SetCont(k, x, c));
  }

  lemma EnterFaces(s: Sys, j: int, c: Cont)
    requires SizedSys(s) && KInv(s.k) && s.k.curr != NULLPROC
    ensures Faces(Enter(s, j, c).k) == Waited(s.k, j)
  {
    hide Faces, AtRest, SemWait, SemExact, Counters;
    ContFaces(s.k, s.k.curr, c);
    EqualFaces(s.k, SetCont(s.k, s.k.curr, User(SYSERR)));
    if !BadSem(s.k, j) {
      SemWaitFaces(SetCont(s.k, s.k.curr, c), j);
    }
  }

  lemma PassFaces(k: KState, rv: int, j: int)
    requires KInv(k)
    ensures Sized(k) && Faces(Signal(SetCont(k, k.curr, User(rv)), j)) == Readied(Faces(k), FirstWaiting(k, j, 1))
  {
    hide Faces, Readied, AtRest, Signal, SemExact, Counters;
    RestSized(k);
    ContFaces(k, k.curr, User(rv));
    SignalFaces(SetCont(k, k.curr, User(rv)), j);
    ReadiedNone(Faces(k));
  }

  lemma ClearFaces(s: Sys, s1: Sys, c: Cont, j: int, ns: PtState, count: int)
    requires SizedSys(s) && SizedSys(s1) && KInv(s.k) && s1.k == SetCont(s.k, s.k.curr, c)
    requires ns == PtAlloc ==> count >= 0
    ensures Faces(ClearSem(s1, j, ns, count).k) == Readied(Faces(s.k), AllWaiting(s.k, j))
  {
    hide Faces, Readied, AtRest, SemReset, SemDelete, SemExact, Counters;
    ContFaces(s.k, s.k.curr, c);
    ReadiedNone(Faces(s.k));
    if !BadSem(s.k, j) {
      if ns == PtAlloc { SemResetFaces(s1.k, j, count); } else { SemDeleteFaces(s1.k, j); }
    } else {
      BadSemKept(s1.k, j, count);
    }
  }

  lemma PortCaller(s: Sys, e: Event)
    requires Inv(s) && Enabled(s, e) && !KernelEvent(e) && e != Continue
    ensures SizedSys(s) && KInv(s.k) && 1 <= s.k.nextpid <= |s.k.procs| && (MayBlock(e) ==> s.k.curr != NULLPROC)
  {
    hide AtRest, PInv, ContsSane, SemExact;
  }

  lemma PortCallFaces(s: Sys, e: Event)
    requires Inv(s) && Enabled(s, e) && !KernelEvent(e) && e != Continue
    ensures Faces(Apply(s, e).k) == FacesAfter(s, e)
  {
    hide Inv, Enabled, SizedSys, PtCreate, PtSend, PtRecv, PtClear, Faces, Readied, Waited;
    hide FacesCleared, FacesCalled, FacesResumed;
    PortCaller(s, e);
    match e
    case CreatePort(c) => CreatePortFaces(s, c);
    case SendToPort(i, m) => EnterCallFaces(s, i, m);
    case ReceiveFromPort(i) => EnterCallFaces(s, i, 0);
    case ResetPort(i) => ClearCallFaces(s, i, PtAlloc);
    case DeletePort(i) => ClearCallFaces(s, i, PtFree);
  }

  lemma CreatePortFaces(s: Sys, count: int)
    requires SizedSys(s)
    ensures Faces(PtCreate(s, count).k) == Faces(s.k)
  {
    hide Faces, FindPort, NewSem;
    EqualFaces(s.k, PtCreate(s, count).k);
  }

  lemma EnterCallFaces(s: Sys, i: int, m: int)
    requires SizedSys(s) && KInv(s.k) && s.k.curr != NULLPROC
    ensures Faces(PtSend(s, i, m).k) == if IsOpen(s.pt, i) then Waited(s.k, s.pt.tab[i].ssem) else Faces(s.k)
    ensures Faces(PtRecv(s, i).k) == if IsOpen(s.pt, i) then Waited(s.k, s.pt.tab[i].rsem) else Faces(s.k)
  {
    hide KInv, Enter, Faces, Waited;
    if IsOpen(s.pt, i) {
      EnterFaces(s, s.pt.tab[i].ssem, InSend(i, s.pt.tab[i].seqno, m));
      EnterFaces(s, s.pt.tab[i].rsem, InRecv(i, s.pt.tab[i].seqno));
    } else {
      EqualFaces(s.k, SetCont(s.k, s.k.curr, User(SYSERR)));
    }
  }

  lemma ClearCallFaces(s: Sys, i: int, ns: PtState)
    requires Inv(s) && (ns == PtAlloc || ns == PtFree)
    ensures Faces(PtClear(s, i, ns).k) == FacesCleared(s, i)
  {
    hide KInv, PInv, ClearSem, Flush, Faces, Readied;
    if IsOpen(s.pt, i) {
      RoomNotNegative(s, i);
      var s1 := s.(pt := Flush(s.pt, i, ns), k := SetCont(s.k, s.k.curr, InClear(i, ns, 1)));
      ClearFaces(s, s1, InClear(i, ns, 1), s.pt.tab[i].ssem, ns, s.pt.tab[i].maxcnt);
    } else {
      EqualFaces(s.k, SetCont(s.k, s.k.curr, User(SYSERR)));
    }
  }

  lemma RoomNotNegative(s: Sys, i: int)
    requires Inv(s) && IsOpen(s.pt, i)
    ensures s.pt.tab[i].maxcnt >= 0
  {
    assert PortOk(W(s.k), s.pt, s.owner, i);
    hide KInv, SemOk, ContOk, NodesOk;
  }

  lemma ResumedFaces(s: Sys)
    requires Inv(s)
    ensures Faces(Resumed(s).k) == FacesResumed(s, s.k.conts[s.k.curr])
  {
    hide Inv, Signal, ClearSem, Append, TakeHead, AfterLoss, KillEnd, TakeMessage, Faces, Readied;
    InvSized(s);
    match s.k.conts[s.k.curr]
    case User(_) =>
    case InReceive => TakeMessageFaces(s.k);
    case InRecvTime => TakeMessageFaces(s.k); NoMessage(s.k);
    case InKill(v) => VictimFaces(s, v);
    case InSend(i, e, m) => SendEndFaces(s, i, e, m);
    case InRecv(i, e) => RecvEndFaces(s, i, e);
    case InClear(i, ns, phase) => if 0 <= i < |s.pt.tab| { ClearEndFaces(s, i, ns, phase); }
  }

  lemma NoMessage(k: KState)
    requires Sized(k)
    ensures !k.procs[k.curr].hasmsg ==> Faces(k)[k.curr := Faces(k)[k.curr].(hasmsg := false)] == Faces(k)
  {
    hide Faces;
  }

  lemma VictimFaces(s: Sys, v: int)
    requires Inv(s) && s.k.conts[s.k.curr] == InKill(v)
    ensures 0 < v < |s.k.procs| && Faces(PtKillEnd(s, v).k) == Into(Faces(s.k), v, Free)
  {
    hide PInv, AtRest, SemExact, KillEnd, AfterLoss, Faces;
    KillEndFaces(s.k, v);
  }

  lemma SendEndFaces(s: Sys, i: int, e: int, m: int)
    requires Inv(s) && s.k.conts[s.k.curr] == InSend(i, e, m)
    ensures Faces(SendEnd(s, i, e, m).k) == FacesResumed(s, InSend(i, e, m))
  {
    hide KInv, PInv, Append, Signal, Faces, Readied, FirstWaiting;
    EqualFaces(s.k, SetCont(s.k, s.k.curr, User(SYSERR)));
    EqualFaces(s.k, s.k.(halted := true));
    if Current(s.pt, i, e) && s.pt.free != [] {
      PassFaces(s.k, OK, s.pt.tab[i].rsem);
    }
  }

  lemma RecvEndFaces(s: Sys, i: int, e: int)
    requires Inv(s) && s.k.conts[s.k.curr] == InRecv(i, e)
    ensures Faces(RecvEnd(s, i, e).k) == FacesResumed(s, InRecv(i, e))
  {
    hide KInv, PInv, TakeHead, Signal, Faces, Readied, FirstWaiting;
    EqualFaces(s.k, SetCont(s.k, s.k.curr, User(SYSERR)));
    if Current(s.pt, i, e) {
      MessageThere(s);
      PassFaces(s.k, s.pt.msgs[s.pt.tab[i].list[0]], s.pt.tab[i].ssem);
    }
  }

  lemma MessageThere(s: Sys)
    requires Inv(s) && s.k.conts[s.k.curr].InRecv?
    requires Current(s.pt, s.k.conts[s.k.curr].port, s.k.conts[s.k.curr].seqno)
    ensures s.pt.tab[s.k.conts[s.k.curr].port].list != []
  {
    hide KInv, PInv;
    WaitsFromKernel(s.k);
    HeadExists(W(s.k), s.pt, s.owner, s.k.curr);
  }

  lemma ClearEndFaces(s: Sys, i: int, ns: PtState, phase: int)
    requires Inv(s) && s.k.conts[s.k.curr] == InClear(i, ns, phase) && 0 <= i < |s.pt.tab|
    ensures Faces(ClearEnd(s, i, ns, phase).k) == FacesResumed(s, InClear(i, ns, phase))
  {
    hide KInv, PInv, ClearSem, Faces, Readied;
    if phase == 1 {
      var s1 := s.(k := SetCont(s.k, s.k.curr, InClear(i, ns, 2)));
      ClearFaces(s, s1, InClear(i, ns, 2), s.pt.tab[i].rsem, ns, 0);
    } else {
      EqualFaces(s.k, SetCont(s.k, s.k.curr, User(OK)));
    }
  }

  /** What a step of the machine does to every process. */
  lemma StepFaces(s: Sys, e: Event)
    requires Inv(s) && Enabled(s, e)
    ensures 1 <= s.k.nextpid <= |s.k.procs| && Faces(Apply(s, e).k) == FacesAfter(s, e)
  {
    hide AtRest, SemExact, PInv, ContsSane, KApply, Resumed, FacesCalled, FacesResumed, Faces, Readied;
    KernelApplied(s, e);
    if SemEvent(e) {
      SemCallFaces(s.k, e);
    } else if KernelEvent(e) {
      CallFaces(s.k, e);
    } else if e == Continue {
      ResumedFaces(s);
    } else {
      PortCallFaces(s, e);
    }
  }

  // ----- what follows

  lemma AtHomeNow(k: KState, p: int)
    requires AtRest(k) && 0 <= p < |k.procs|
    ensures Sized(k) && AtHome(k, p, -1)
  {
  }

  lemma InvRest(s: Sys)
    requires Inv(s)
    ensures AtRest(s.k)
  {
    hide PInv, AtRest;
  }

  /** A step leaves a waiting process as it is, or gives it a message, releases it or kills it. */
  lemma WaiterFace(s: Sys, e: Event, p: int)
    requires SizedSys(s) && 1 <= s.k.nextpid <= |s.k.procs|
    requires 0 <= p < |s.k.procs| && p != s.k.curr && s.k.procs[p].state == Wait
    ensures var f, w := FacesAfter(s, e)[p], s.k.procs[p];
            || (f.state == Wait && f.sem == w.sem) || f.state == Ready
            || (e == Continue && s.k.conts[s.k.curr] == InKill(p))
  {
    hide Faces, Readied, DueNow, FreeProcs;
  }

  /** Whoever leaves a semaphore's queue, a port's included, is able to run, unless it is killed there. */
  lemma ReleasedRuns(s: Sys, e: Event, j: int, p: int)
    requires Inv(s) && Enabled(s, e) && 0 <= j < |s.k.sq|
    requires p in s.k.sq[j] && j < |Apply(s, e).k.sq| && p !in Apply(s, e).k.sq[j]
    ensures (e == Continue && s.k.conts[s.k.curr] == InKill(p))
            || (0 <= p < |Apply(s, e).k.procs| && Runs(Apply(s, e).k.procs[p].state))
  {
    hide Inv, AtRest, Apply, Enabled, FacesAfter, Faces;
    InvSized(s);
    StepInv(s, e);
    StepFaces(s, e);
    InvRest(s);
    InvRest(Apply(s, e));
    AtHomeNow(s.k, p);
    CurrIsCurr(s.k);
    AtHomeNow(Apply(s, e).k, p);
    WaiterFace(s, e, p);
  }

  /** A message to a live process with an empty slot arrives, and one that waits for it is able to run. */
  ghost predicate Arrived(k: KState, r: KState, p: int, m: int)
    requires 0 <= p < |k.procs|
  {
    && |r.procs| == |k.procs| && r.procs[p].hasmsg && r.procs[p].msg == m
    && (k.procs[p].state == Recv || k.procs[p].state == RecTim ==> Runs(r.procs[p].state) && p !in r.sleepq)
  }

  lemma SentArrives(s: Sys, e: Event, p: int, m: int)
    requires Inv(s) && Enabled(s, e) && !BadPid(s.k, p) && !s.k.procs[p].hasmsg
    requires 1 <= s.k.nextpid <= |s.k.procs| && FacesAfter(s, e) == Sent(Faces(s.k), p, m)
    ensures Arrived(s.k, Apply(s, e).k, p, m)
  {
    hide Inv, AtRest, Apply, Enabled, FacesAfter, Faces;
    InvSized(s);
    StepInv(s, e);
    StepFaces(s, e);
    assert |Faces(Apply(s, e).k)| == |Faces(s.k)|;
    InvRest(Apply(s, e));
    AtHomeNow(Apply(s, e).k, p);
  }

  lemma SendDelivers(s: Sys, p: int, m: int)
    requires Inv(s) && Enabled(s, SendTo(p, m)) && !BadPid(s.k, p) && !s.k.procs[p].hasmsg
    ensures Arrived(s.k, Apply(s, SendTo(p, m)).k, p, m)
  {
    hide KInv, PInv, Apply, Faces;
    StepFaces(s, SendTo(p, m));
    SentArrives(s, SendTo(p, m), p, m);
  }

  /** The parent of a process that is about to be killed is told so. */
  lemma NoticeDelivered(s: Sys, v: int)
    requires Inv(s) && Enabled(s, KillProc(v)) && !BadPid(s.k, v) && v != NULLPROC && s.k.prcount > 2
    requires !BadPid(s.k, s.k.procs[v].parent) && !s.k.procs[s.k.procs[v].parent].hasmsg
    ensures Arrived(s.k, Apply(s, KillProc(v)).k, s.k.procs[v].parent, v)
  {
    hide KInv, PInv, Apply, Faces;
    StepFaces(s, KillProc(v));
    SentArrives(s, KillProc(v), s.k.procs[v].parent, v);
  }

  /** Every list without v, in the order it had. */
  ghost predicate ListsWithout(k: KState, r: KState, v: int) {
    && r.sleepq == Without(k.sleepq, v) && |r.sq| == |k.sq|
    && (forall j :: 0 <= j < |k.sq| ==> r.sq[j] == Without(k.sq[j], v))
    && (v != k.curr ==> r.ready == Without(k.ready, v) && r.curr == k.curr)
  }

  lemma ReapLists(k: KState, v: int)
    requires AtRest(k) && 0 < v < |k.procs|
    ensures Sized(k) && ListsWithout(k, Reap(k, v), v)
  {
    hide ReadySorted, NullRuns, Without, NoneFreed, SameShape, Resched;
    AtHomeNow(k, v);
    WithoutNone(k.ready, v);
    WithoutNone(k.sleepq, v);
    forall j | 0 <= j < |k.sq| ensures v !in k.sq[j] ==> Without(k.sq[j], v) == k.sq[j] {
      WithoutNone(k.sq[j], v);
    }
  }

  lemma WithoutNone(l: seq<int>, v: int)
    ensures v !in l ==> Without(l, v) == l
  {
  }

  lemma KillEndLists(k: KState, v: int)
    requires AtRest(k) && 0 < v < |k.procs|
    ensures Sized(k) && ListsWithout(k, KillEnd(k, v), v)
  {
    hide AtRest, Reap, Without;
    RestSized(k);
    var k1 := k.(conts := k.conts[k.curr := User(OK)][v := User(OK)]);
    RestFrame(k, k1);
    ReapLists(k1, v);
  }

  /** The end of a kill: wherever the victim is by then, it becomes free and leaves every list, and
      nothing else happens to anybody, except that its successor runs if it has killed itself. */
  lemma KilledGone(s: Sys, v: int)
    requires Inv(s) && Enabled(s, Continue) && s.k.conts[s.k.curr] == InKill(v)
    ensures var k, r := s.k, Apply(s, Continue).k;
            && |r.procs| == |k.procs| && |r.sq| == |k.sq| && 0 < v < |k.procs|
            && r.procs[v].state == Free && v !in r.ready && v !in r.sleepq
            && (forall j :: 0 <= j < |r.sq| ==> v !in r.sq[j])
            && (forall p :: 0 <= p < |k.procs| && p != v ==> Face(r.procs[p]) == Face(k.procs[p]))
            && ListsWithout(k, r, v)
  {
    hide Inv, AtRest, Apply, Enabled, Faces, ListsWithout;
    InvSized(s);
    StepInv(s, Continue);
    StepFaces(s, Continue);
    VictimLists(s, v);
    InvRest(Apply(s, Continue));
    AtHomeNow(Apply(s, Continue).k, v);
  }

  lemma VictimLists(s: Sys, v: int)
    requires Inv(s) && s.k.conts[s.k.curr] == InKill(v)
    ensures 0 < v < |s.k.procs| && |Apply(s, Continue).k.sq| == |s.k.sq|
    ensures ListsWithout(s.k, Apply(s, Continue).k, v)
  {
    hide PInv, AtRest, SemExact, KillEnd, AfterLoss, ListsWithout;
    KillEndLists(s.k, v);
  }
}
