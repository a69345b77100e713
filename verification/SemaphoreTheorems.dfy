/**
 A semaphore seen through the whole machine: what every step does to its count and its
 queue, and what follows for runs.
 */
module SemaphoreTheorems {
  import opened Sequences
  import opened QueueTables
  import opened KernelState
  import opened KernelInvariants
  import opened PortState
  import opened PortInvariants
  import opened Machine
  import opened Searches

  /** A semaphore in use that no port owns. */
  ghost predicate UserSemaphore(s: Sys, j: int)
    requires SizedSys(s)
  {
    0 <= j < |s.k.sems| && s.k.sems[j].used && s.owner[j] == UserSem
  }

  /** The event gives semaphore j a new count or takes it away; everything starts anew then. */
  predicate Restarts(e: Event, j: int) {
    (e.ResetSemaphore? && e.sem == j && e.count >= 0) || e == DeleteSemaphore(j)
  }

  /** The process that the event kills while it waits on j, as a sequence of at most one. */
  function KilledWaiter(s: Sys, e: Event, j: int): seq<int>
    requires SizedSys(s) && 0 <= j < |s.k.sems|
  {
    if e == Continue && s.k.conts[s.k.curr].InKill? && s.k.conts[s.k.curr].victim in s.k.sq[j]
    then [s.k.conts[s.k.curr].victim] else []
  }

  function WaitsIn(e: Event, j: int): nat { if e == WaitOn(j) then 1 else 0 }

  function SignalsIn(e: Event, j: int): nat {
    if e == SignalOn(j) then 1
    else if e.SignalManyOn? && e.sem == j && e.n > 0 then e.n
    else 0
  }

  /** The process that the event puts on the queue. */
  function Arrival(s: Sys, e: Event, j: int): seq<int>
    requires SizedSys(s) && 0 <= j < |s.k.sems|
  {
    if e == WaitOn(j) && s.k.sems[j].count <= 0 then [s.k.curr] else []
  }

  /** The queue after an event that does not start it anew. */
  function QueueAfter(s: Sys, e: Event, j: int): seq<int>
    requires SizedSys(s) && 0 <= j < |s.k.sems|
  {
    if KilledWaiter(s, e, j) != [] then Without(s.k.sq[j], KilledWaiter(s, e, j)[0])
    else (s.k.sq[j] + Arrival(s, e, j))[Min(SignalsIn(e, j), |s.k.sq[j]|)..]
  }

  ghost predicate Untouched(s: Sys, r: Sys, j: int)
    requires SizedSys(s) && SizedSys(r)
  {
    && 0 <= j < |s.k.sems| == |r.k.sems| && |r.owner| == |s.owner|
    && r.k.sems[j] == s.k.sems[j] && r.k.sq[j] == s.k.sq[j] && r.owner[j] == s.owner[j]
  }

  // ----- signals

  lemma {:induction false} SignalTimesExact(k: KState, j: int, n: nat)
    requires AtRest(k) && SemExact(k, -1) && 0 <= j < |k.sems|
    ensures var r := SignalTimes(k, j, n);
            && r.sems[j] == k.sems[j].(count := k.sems[j].count + n)
            && r.sq[j] == k.sq[j][Min(n, |k.sq[j]|)..]
    decreases n
  {
    hide AtRest, ReadyProc;
    RestSized(k);
    if n > 0 {
      SignalOneRest(k, j);
      SignalOneExact(k, j);
      hide SignalOne, SemExact;
      SignalTimesExact(SignalOne(k, j), j, n - 1);
      var q := k.sq[j];
      DropDrop(q, Min(1, |q|), Min(n - 1, |q| - Min(1, |q|)));
    }
  }

  lemma DropDrop(s: seq<int>, a: int, b: int)
    requires 0 <= a && 0 <= b && a + b <= |s|
    ensures s[a..][b..] == s[a + b..]
  {
  }

  lemma SignalOneExact(k: KState, j: int)
    requires Sized(k) && SemExact(k, -1) && 0 <= j < |k.sems|
    ensures var r := SignalOne(k, j);
            && r.sems[j] == k.sems[j].(count := k.sems[j].count + 1)
            && r.sq[j] == k.sq[j][Min(1, |k.sq[j]|)..]
  {
    hide ReadyProc;
  }

  lemma SignalCallExact(k: KState, e: Event, j: int)
    requires KInv(k) && !BadSem(k, j) && (e == SignalOn(j) || (e.SignalManyOn? && e.sem == j))
    ensures var r := KApply(k, e);
            && r.sems[j] == k.sems[j].(count := k.sems[j].count + SignalsIn(e, j))
            && r.sq[j] == k.sq[j][Min(SignalsIn(e, j), |k.sq[j]|)..]
  {
    hide AtRest, SemExact, SignalOne, SignalTimes, Counters;
    RestSized(k);
    if e == SignalOn(j) {
      SignalOneExact(k, j);
    } else if e.n >= 0 {
      DeferStartRest(k);
      ExactFrame(k, DeferStart(k));
      SignalTimesExact(DeferStart(k), j, e.n);
    }
  }

  // ----- every step

  lemma WaitCallExact(k: KState, j: int)
    requires KInv(k) && !BadSem(k, j)
    ensures var r := KApply(k, WaitOn(j));
            && r.sems[j] == k.sems[j].(count := k.sems[j].count - 1)
            && r.sq[j] == k.sq[j] + if k.sems[j].count <= 0 then [k.curr] else []
  {
    hide AtRest, SemExact, Counters, SemWait;
    RestSized(k);
    WaitWaits(k, j);
  }

  /** Kernel calls that are not on j do not concern j. */
  lemma OtherCall(k: KState, e: Event, j: int)
    requires KInv(k) && KernelEvent(e) && 0 <= j < |k.sems| && k.sems[j].used
    requires SemEvent(e) ==> !UsesSem(e, j)
    ensures var r := KApply(k, e); |r.sems| == |k.sems| && r.sems[j] == k.sems[j] && r.sq[j] == k.sq[j]
  {
    hide AtRest, SemExact, Counters, KApply;
    RestSized(k);
    if !SemEvent(e) {
      ProcEventConts(k, e);
    } else {
      OtherSemCall(k, e, j);
    }
  }

  lemma OtherSemCall(k: KState, e: Event, j: int)
    requires KInv(k) && SemEvent(e) && 0 <= j < |k.sems| && k.sems[j].used && !UsesSem(e, j)
    ensures var r := KApply(k, e); |r.sems| == |k.sems| && r.sems[j] == k.sems[j] && r.sq[j] == k.sq[j]
  {
    hide AtRest, SemExact, Counters, SemWait, Signal, Signaln, SemReset, SemDelete, NewSem, NoneFreed, SameShape;
    RestSized(k);
    match e
    case NewSemaphore(c) => NewSemUnused(k);
    case WaitOn(i) => OneSemCall(k, e, i, j);
    case SignalOn(i) => OneSemCall(k, e, i, j);
    case SignalManyOn(i, n) => OneSemCall(k, e, i, j);
    case ResetSemaphore(i, c) => OneSemCall(k, e, i, j);
    case DeleteSemaphore(i) => OneSemCall(k, e, i, j);
  }

  lemma NewSemUnused(k: KState)
    ensures NewSem(k) == SYSERR || (0 <= NewSem(k) < |k.sems| && !k.sems[NewSem(k)].used)
  {
  }

  lemma OneSemCall(k: KState, e: Event, i: int, j: int)
    requires KInv(k) && SemEvent(e) && UsesSem(e, i) && 0 <= j < |k.sems| && j != i
    ensures var r := KApply(k, e); |r.sems| == |k.sems| && r.sems[j] == k.sems[j] && r.sq[j] == k.sq[j]
  {
    if BadSem(k, i) {
      BadCall(k, e, i);
    } else {
      hide KInv;
      SemEventWaits(k, e, i);
    }
  }

  lemma BadCall(k: KState, e: Event, i: int)
    requires Sized(k) && SemEvent(e) && UsesSem(e, i) && BadSem(k, i)
    ensures KApply(k, e) == k
  {
  }

  lemma PortCallUntouched(s: Sys, e: Event, j: int)
    requires Inv(s) && UserSemaphore(s, j) && !KernelEvent(e) && e != Continue
    ensures Untouched(s, Apply(s, e), j)
  {
    hide PtCreate, PtSend, PtRecv, PtClear, Inv, Untouched, UserSemaphore;
    InvSized(s);
    match e
    case CreatePort(c) => CreateUntouched(s, c, j);
    case SendToPort(i, m) => EnterUntouched(s, i, m, j);
    case ReceiveFromPort(i) => EnterUntouched(s, i, 0, j);
    case ResetPort(i) => ClearUntouched(s, i, PtAlloc, j);
    case DeletePort(i) => ClearUntouched(s, i, PtFree, j);
  }

  lemma CreateUntouched(s: Sys, count: int, j: int)
    requires SizedSys(s) && UserSemaphore(s, j)
    ensures Untouched(s, PtCreate(s, count), j)
  {
    hide NewSem, FindPort, NoneFreed;
    NewSemUnused(s.k);
    NewSemUnused(SemCreate(s.k, count));
  }

  /** The semaphores of a port are not user semaphores. */
  lemma PortSems(s: Sys, i: int, j: int)
    requires Inv(s) && UserSemaphore(s, j) && IsOpen(s.pt, i)
    ensures s.pt.tab[i].ssem != j && s.pt.tab[i].rsem != j
  {
    hide KInv;
    OpenSides(W(s.k), s.pt, s.owner, i);
  }

  lemma EnterUntouched(s: Sys, i: int, m: int, j: int)
    requires Inv(s) && UserSemaphore(s, j)
    ensures SizedSys(s) && Untouched(s, PtSend(s, i, m), j) && Untouched(s, PtRecv(s, i), j)
  {
    hide Inv, Enter;
    InvSized(s);
    if IsOpen(s.pt, i) {
      PortSems(s, i, j);
      EnterOther(s, s.pt.tab[i].ssem, InSend(i, s.pt.tab[i].seqno, m), j);
      EnterOther(s, s.pt.tab[i].rsem, InRecv(i, s.pt.tab[i].seqno), j);
    }
  }

  lemma EnterOther(s: Sys, sem: int, c: Cont, j: int)
    requires SizedSys(s) && 0 <= j < |s.k.sems| && j != sem
    ensures Untouched(s, Enter(s, sem, c), j)
  {
    hide Resched, NoneFreed;
  }

  lemma ClearOther(s: Sys, s1: Sys, sem: int, ns: PtState, count: int, j: int)
    requires SizedSys(s) && SizedSys(s1) && Untouched(s, s1, j) && j != sem && KInv(s1.k)
    ensures Untouched(s, ClearSem(s1, sem, ns, count), j)
  {
    hide AtRest, SemExact, SemReset, SemDelete, NoneFreed, SameShape;
    RestSized(s1.k);
    if !BadSem(s1.k, sem) {
      DeleteWaits(s1.k, sem);
      if count >= 0 {
        ResetWaits(s1.k, sem, count);
      } else {
        NegativeReset(s1.k, sem, count);
      }
    } else {
      BadSemKept(s1.k, sem, count);
    }
  }

  lemma NegativeReset(k: KState, sem: int, count: int)
    requires Sized(k) && count < 0
    ensures SemReset(k, sem, count) == k
  {
  }

  lemma ClearUntouched(s: Sys, i: int, ns: PtState, j: int)
    requires Inv(s) && UserSemaphore(s, j)
    ensures SizedSys(s) && Untouched(s, PtClear(s, i, ns), j)
  {
    hide KInv, PInv, ClearSem, Flush, NoneFreed;
    if IsOpen(s.pt, i) {
      var s1 := s.(pt := Flush(s.pt, i, ns), k := SetCont(s.k, s.k.curr, InClear(i, ns, 1)));
      PortSems(s, i, j);
      ContKeepsKInv(s.k, s.k.curr, InClear(i, ns, 1));
      ClearOther(s, s1, s.pt.tab[i].ssem, ns, s.pt.tab[i].maxcnt, j);
    }
  }

  lemma ResumedUntouched(s: Sys, j: int)
    requires Inv(s) && UserSemaphore(s, j) && KilledWaiter(s, Continue, j) == []
    ensures Untouched(s, Resumed(s), j)
  {
    hide Inv, SendEnd, RecvEnd, ClearEnd, PtKillEnd, TakeMessage, NoneFreed;
    InvSized(s);
    match s.k.conts[s.k.curr]
    case User(_) =>
    case InReceive =>
    case InRecvTime =>
    case InKill(v) => KillUntouched(s, v, j);
    case InSend(i, e, m) => PassUntouched(s, i, e, m, j);
    case InRecv(i, e) => PassUntouched(s, i, e, 0, j);
    case InClear(i, ns, phase) => if 0 <= i < |s.pt.tab| { ClearEndUntouched(s, i, ns, phase, j); }
  }

  lemma PassUntouched(s: Sys, i: int, e: int, m: int, j: int)
    requires Inv(s) && UserSemaphore(s, j)
    ensures SizedSys(s) && Untouched(s, SendEnd(s, i, e, m), j) && Untouched(s, RecvEnd(s, i, e), j)
  {
    hide Inv, Append, TakeHead, ReadyProc, NoneFreed, SameShape;
    InvSized(s);
    if Current(s.pt, i, e) {
      PortSems(s, i, j);
    }
  }

  lemma KillUntouched(s: Sys, v: int, j: int)
    requires Inv(s) && UserSemaphore(s, j) && s.k.conts[s.k.curr] == InKill(v) && v !in s.k.sq[j]
    ensures SizedSys(s) && 0 <= v < |s.k.procs| && Untouched(s, PtKillEnd(s, v), j)
  {
    hide KInv, PInv, KillEnd, AfterLoss, NoneFreed, SameShape;
    VictimPlace(s.k, v);
    KillEndWaits(s.k, v);
  }

  lemma ClearEndUntouched(s: Sys, i: int, ns: PtState, phase: int, j: int)
    requires Inv(s) && UserSemaphore(s, j) && s.k.conts[s.k.curr] == InClear(i, ns, phase) && 0 <= i < |s.pt.tab|
    ensures Untouched(s, ClearEnd(s, i, ns, phase), j)
  {
    hide KInv, PInv, ClearSem, NoneFreed;
    if phase == 1 {
      SecondSem(s, i, ns, j);
      var s1 := s.(k := SetCont(s.k, s.k.curr, InClear(i, ns, 2)));
      ContKeepsKInv(s.k, s.k.curr, InClear(i, ns, 2));
      ClearOther(s, s1, s.pt.tab[i].rsem, ns, 0, j);
    }
  }

  lemma SecondSem(s: Sys, i: int, ns: PtState, j: int)
    requires Inv(s) && UserSemaphore(s, j) && s.k.conts[s.k.curr] == InClear(i, ns, 1) && 0 <= i < |s.pt.tab|
    ensures s.pt.tab[i].rsem != j
  {
    assert ContOk(W(s.k), s.pt, s.owner, s.k.conts[s.k.curr]);
    hide KInv, SemOk, PortOk, NodesOk;
  }

  /** A process that waits on j dies: its place is given back and the others keep their order. */
  lemma KilledExact(s: Sys, j: int)
    requires Inv(s) && UserSemaphore(s, j) && KilledWaiter(s, Continue, j) != []
    ensures var r := Apply(s, Continue);
            && UserSemaphore(r, j) && r.k.sems[j].count == s.k.sems[j].count + 1
            && r.k.sq[j] == Without(s.k.sq[j], KilledWaiter(s, Continue, j)[0])
  {
    hide KInv, PInv, KillEnd, AfterLoss, NoneFreed, SameShape, Without;
    var v := s.k.conts[s.k.curr].victim;
    VictimInRange(s);
    VictimPlace(s.k, v);
    KillEndWaits(s.k, v);
  }

  lemma VictimInRange(s: Sys)
    requires Inv(s) && s.k.conts[s.k.curr].InKill?
    ensures 0 < s.k.conts[s.k.curr].victim < |s.k.procs|
  {
    hide KInv, PInv;
  }

  lemma RestartExact(k: KState, e: Event, j: int)
    requires KInv(k) && !BadSem(k, j) && Restarts(e, j)
    ensures var r := KApply(k, e);
            && r.sq[j] == []
            && r.sems[j] == (if e.ResetSemaphore? then k.sems[j].(count := e.count)
                             else Sem(false, Max0(k.sems[j].count) + 1))
  {
    hide AtRest, SemExact, Counters, SemReset, SemDelete;
    RestSized(k);
    DeleteWaits(k, j);
    if e.ResetSemaphore? {
      ResetWaits(k, j, e.count);
    }
  }

  /** What one step of the machine does to a semaphore. A wait takes one off the count and joins the
      end of the queue if there was none to take; signals add to the count and release from the
      front; a reset or a deletion empties the queue; a waiter that is killed leaves its place, which
      the count gets back; and no other call or context switch changes anything. */
  lemma SemaphoreStep(s: Sys, e: Event, j: int)
    requires Inv(s) && Enabled(s, e) && UserSemaphore(s, j)
    ensures var r := Apply(s, e);
            if Restarts(e, j) then
              && |r.k.sems| == |r.k.sq| == |s.k.sems| && r.k.sq[j] == []
              && (if e.ResetSemaphore? then UserSemaphore(r, j) && r.k.sems[j].count == e.count
                  else r.k.sems[j] == Sem(false, Max0(s.k.sems[j].count) + 1))
            else
              && UserSemaphore(r, j)
              && r.k.sems[j].count
                 == s.k.sems[j].count - WaitsIn(e, j) + SignalsIn(e, j) + |KilledWaiter(s, e, j)|
              && r.k.sq[j] == QueueAfter(s, e, j)
  {
    hide Inv, KApply, Resumed, Without;
    InvSized(s);
    if KernelEvent(e) {
      KernelStep(s, e, j);
    } else if e == Continue {
      ContinueStep(s, j);
    } else {
      PortCallUntouched(s, e, j);
    }
  }

  lemma ContinueStep(s: Sys, j: int)
    requires Inv(s) && UserSemaphore(s, j)
    ensures var r, v := Apply(s, Continue), KilledWaiter(s, Continue, j);
            && UserSemaphore(r, j) && r.k.sems[j].count == s.k.sems[j].count + |v|
            && r.k.sq[j] == if v == [] then s.k.sq[j] else Without(s.k.sq[j], v[0])
  {
    hide Inv, Resumed, Without;
    InvSized(s);
    if KilledWaiter(s, Continue, j) == [] {
      ResumedUntouched(s, j);
    } else {
      KilledExact(s, j);
    }
  }

  lemma KernelStep(s: Sys, e: Event, j: int)
    requires Inv(s) && Enabled(s, e) && UserSemaphore(s, j) && KernelEvent(e)
    ensures var r := KApply(s.k, e);
            if Restarts(e, j) then
              && r.sq[j] == []
              && (if e.ResetSemaphore? then r.sems[j] == s.k.sems[j].(count := e.count)
                  else r.sems[j] == Sem(false, Max0(s.k.sems[j].count) + 1))
            else
              && r.sems[j] == s.k.sems[j].(count := s.k.sems[j].count - WaitsIn(e, j) + SignalsIn(e, j))
              && r.sq[j] == (s.k.sq[j] + Arrival(s, e, j))[Min(SignalsIn(e, j), |s.k.sq[j]|)..]
  {
    hide KInv, PInv, ContsSane, KApply;
    if e == WaitOn(j) {
      WaitCallExact(s.k, j);
    } else if e == SignalOn(j) || (e.SignalManyOn? && e.sem == j) {
      SignalCallExact(s.k, e, j);
    } else if Restarts(e, j) {
      RestartExact(s.k, e, j);
    } else if e.ResetSemaphore? && e.sem == j {
      NegativeReset(s.k, j, e.count);
      ResetIs(s.k, e);
    } else {
      OtherCall(s.k, e, j);
    }
  }

  lemma ResetIs(k: KState, e: Event)
    requires Sized(k) && e.ResetSemaphore?
    ensures KApply(k, e) == SemReset(k, e.sem, e.count)
  {
    hide SemReset;
  }

  /** semcreate gives the count to the first unused entry from nextsem on, and changes no other; with a
      negative count, or if all are in use, it changes none. */
  lemma NewSemaphoreStep(s: Sys, count: int)
    requires Inv(s)
    ensures var r := Apply(s, NewSemaphore(count)).k;
            exists j :: FirstFrom(Unused(s.k.sems), s.k.nextsem, j)
              && r == if count < 0 || j == SYSERR then s.k
                      else s.k.(sems := s.k.sems[j := Sem(true, count)], nextsem := Next(j, |s.k.sems|))
  {
    hide AtRest, SemExact, PInv, ContsSane, FindSem, FirstFrom, Unused;
    NewSemFirst(s.k);
  }

  // ----- runs

  /** In no step of the run is j reset or deleted. */
  ghost predicate PlainRun(s: Sys, es: seq<Event>, j: int)
    requires SizedSys(s)
    decreases |es|
  {
    0 <= j < |s.k.sems| && (es != [] ==> !Restarts(es[0], j) && PlainRun(Apply(s, es[0]), es[1..], j))
  }

  function TotalWaits(es: seq<Event>, j: int): nat {
    if es == [] then 0 else WaitsIn(es[0], j) + TotalWaits(es[1..], j)
  }

  function TotalSignals(es: seq<Event>, j: int): nat {
    if es == [] then 0 else SignalsIn(es[0], j) + TotalSignals(es[1..], j)
  }

  /** The processes that joined the queue during the run, in order. */
  ghost function Arrivals(s: Sys, es: seq<Event>, j: int): seq<int>
    requires SizedSys(s) && PlainRun(s, es, j)
    decreases |es|
  {
    if es == [] then [] else Arrival(s, es[0], j) + Arrivals(Apply(s, es[0]), es[1..], j)
  }

  /** How many processes died while they waited on j. */
  ghost function TotalKilled(s: Sys, es: seq<Event>, j: int): nat
    requires SizedSys(s) && PlainRun(s, es, j)
    decreases |es|
  {
    if es == [] then 0 else |KilledWaiter(s, es[0], j)| + TotalKilled(Apply(s, es[0]), es[1..], j)
  }

  /** q is what is left of all when some entries are taken out. */
  ghost predicate InOrder(q: seq<int>, all: seq<int>)
    decreases |all|
  {
    if all == [] then q == []
    else (q != [] && q[0] == all[0] && InOrder(q[1..], all[1..])) || InOrder(q, all[1..])
  }

  lemma {:induction false} InOrderNone(all: seq<int>)
    ensures InOrder([], all)
    decreases |all|
  {
    if all != [] {
      InOrderNone(all[1..]);
    }
  }

  lemma {:induction false} InOrderSame(q: seq<int>)
    ensures InOrder(q, q)
    decreases |q|
  {
    if q != [] {
      InOrderSame(q[1..]);
    }
  }

  lemma {:induction false} InOrderTrans(a: seq<int>, b: seq<int>, c: seq<int>)
    requires InOrder(a, b) && InOrder(b, c)
    ensures InOrder(a, c)
    decreases |c|
  {
    if c != [] {
      if InOrder(b, c[1..]) {
        InOrderTrans(a, b, c[1..]);
      } else if InOrder(a, b[1..]) {
        InOrderTrans(a, b[1..], c[1..]);
      } else {
        InOrderTrans(a[1..], b[1..], c[1..]);
      }
    }
  }

  lemma {:induction false} InOrderAppend(q: seq<int>, all: seq<int>, more: seq<int>)
    requires InOrder(q, all)
    ensures InOrder(q + more, all + more)
    decreases |all|
  {
    if all == [] {
      assert q + more == more && all + more == more;
      InOrderSame(more);
    } else {
      assert (all + more)[1..] == all[1..] + more;
      if InOrder(q, all[1..]) {
        InOrderAppend(q, all[1..], more);
      } else {
        InOrderAppend(q[1..], all[1..], more);
        assert (q + more)[1..] == q[1..] + more;
      }
    }
  }

  lemma {:induction false} InOrderDrop(all: seq<int>, n: int)
    requires 0 <= n <= |all|
    ensures InOrder(all[n..], all)
    decreases |all|
  {
    if n == 0 {
      assert all[0..] == all;
      InOrderSame(all);
    } else {
      InOrderDrop(all[1..], n - 1);
      DropDrop(all, 1, n - 1);
    }
  }

  lemma {:induction false} InOrderRemove(all: seq<int>, i: nat)
    requires i < |all|
    ensures InOrder(RemoveAt(all, i), all)
    decreases |all|
  {
    if i == 0 {
      assert RemoveAt(all, 0) == all[1..];
      InOrderSame(all[1..]);
    } else {
      InOrderRemove(all[1..], i - 1);
      assert RemoveAt(all, i)[1..] == RemoveAt(all[1..], i - 1);
    }
  }

  /** After one event the queue is part of what it was with the newcomer at its end, in that order;
      without a death it is a tail of that. */
  lemma QueueAfterInOrder(s: Sys, e: Event, j: int)
    requires SizedSys(s) && 0 <= j < |s.k.sems|
    ensures InOrder(QueueAfter(s, e, j), s.k.sq[j] + Arrival(s, e, j))
  {
    hide InOrder;
    var q := s.k.sq[j];
    if KilledWaiter(s, e, j) != [] {
      assert q + Arrival(s, e, j) == q;
      InOrderRemove(q, IndexOf(q, KilledWaiter(s, e, j)[0]));
    } else {
      InOrderDrop(q + Arrival(s, e, j), Min(SignalsIn(e, j), |q|));
    }
  }

  /** Over a run the count moves by signals and dead waiters less waits. Those who wait at the end are
      some of those who waited at the start and of those who came, in the order of their coming; if
      none of them died, they are the last of these. */
  lemma {:induction false} SemaphoreRun(s: Sys, es: seq<Event>, j: int)
    requires Inv(s) && Run(s, es) && UserSemaphore(s, j) && PlainRun(s, es, j)
    ensures var r := After(s, es);
            && UserSemaphore(r, j)
            && r.k.sems[j].count
               == s.k.sems[j].count - TotalWaits(es, j) + TotalSignals(es, j) + TotalKilled(s, es, j)
            && InOrder(r.k.sq[j], s.k.sq[j] + Arrivals(s, es, j))
            && (TotalKilled(s, es, j) == 0 ==> Suffix(s.k.sq[j] + Arrivals(s, es, j), r.k.sq[j]))
    decreases |es|
  {
    hide Inv, Apply, Enabled, QueueAfter, KilledWaiter, InOrder, Suffix;
    InvSized(s);
    if es != [] {
      var r := Apply(s, es[0]);
      StepInv(s, es[0]);
      SemaphoreStep(s, es[0], j);
      SemaphoreRun(r, es[1..], j);
      QueueAfterInOrder(s, es[0], j);
      RunOrder(s, es[0], j, Arrivals(r, es[1..], j), After(r, es[1..]).k.sq[j]);
    } else {
      assert s.k.sq[j] + [] == s.k.sq[j];
      InOrderSame(s.k.sq[j]);
      SuffixSame(s.k.sq[j]);
    }
  }

  /** One step in front of a run. */
  lemma RunOrder(s: Sys, e: Event, j: int, more: seq<int>, q: seq<int>)
    requires SizedSys(s) && 0 <= j < |s.k.sems| && InOrder(q, QueueAfter(s, e, j) + more)
    ensures InOrder(q, s.k.sq[j] + (Arrival(s, e, j) + more))
    ensures KilledWaiter(s, e, j) == [] && Suffix(QueueAfter(s, e, j) + more, q) ==>
        Suffix(s.k.sq[j] + (Arrival(s, e, j) + more), q)
  {
    hide InOrder, Suffix, KilledWaiter, Arrival;
    var old1, new1 := s.k.sq[j], Arrival(s, e, j);
    QueueAfterInOrder(s, e, j);
    InOrderAppend(QueueAfter(s, e, j), old1 + new1, more);
    assert (old1 + new1) + more == old1 + (new1 + more);
    InOrderTrans(q, QueueAfter(s, e, j) + more, old1 + (new1 + more));
    if KilledWaiter(s, e, j) == [] && Suffix(QueueAfter(s, e, j) + more, q) {
      SuffixStep(old1, new1, Min(SignalsIn(e, j), |old1|), more, q);
    }
  }

  ghost predicate Suffix(all: seq<int>, q: seq<int>) {
    exists n :: 0 <= n <= |all| && all[n..] == q
  }

  lemma SuffixSame(q: seq<int>)
    ensures Suffix(q, q)
  {
    assert q[0..] == q;
  }

  lemma SuffixStep(q: seq<int>, a: seq<int>, k: int, more: seq<int>, r: seq<int>)
    requires 0 <= k <= |q| && Suffix((q + a)[k..] + more, r)
    ensures Suffix(q + (a + more), r)
  {
    DropAppend(q, a, k, more);
    var n :| 0 <= n <= |(q + a)[k..] + more| && ((q + a)[k..] + more)[n..] == r;
    DropDrop(q + (a + more), k, n);
  }

  lemma DropAppend(q: seq<int>, a: seq<int>, k: int, more: seq<int>)
    requires 0 <= k <= |q|
    ensures (q + a)[k..] + more == (q + (a + more))[k..]
  {
    assert q + (a + more) == (q + a) + more;
  }

  /** The waits that have been let through, those of the processes that waited at the start included,
      never exceed the count at the start plus the signals, whoever dies; and while somebody waits
      they are exactly that many. */
  lemma GrantsBounded(s: Sys, es: seq<Event>, j: int)
    requires Inv(s) && Run(s, es) && UserSemaphore(s, j) && PlainRun(s, es, j)
    ensures var r := After(s, es);
            && 0 <= j < |r.k.sq|
            && (var granted := |s.k.sq[j]| + TotalWaits(es, j) - |r.k.sq[j]| - TotalKilled(s, es, j);
                && granted <= Max0(s.k.sems[j].count) + TotalSignals(es, j)
                && (r.k.sq[j] != [] ==> granted == Max0(s.k.sems[j].count) + TotalSignals(es, j)))
  {
    hide Run, After, PlainRun, Arrivals, Inv, InOrder, Suffix, TotalKilled;
    InvSized(s);
    SemaphoreRun(s, es, j);
    RunInv(s, es);
    CountIsQueue(s, j);
    CountIsQueue(After(s, es), j);
  }

  lemma CountIsQueue(s: Sys, j: int)
    requires Inv(s) && 0 <= j < |s.k.sems|
    ensures |s.k.sq[j]| == Max0(-s.k.sems[j].count)
  {
    hide PInv, AtRest;
  }
}
