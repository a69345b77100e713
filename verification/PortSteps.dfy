/**
 What every step of the machine does to the port table, and what every call on a port answers.
 */
module PortSteps {
  import opened Sequences
  import opened QueueTables
  import opened KernelState
  import opened KernelInvariants
  import opened PortState
  import opened PortInvariants
  import opened Machine
  import opened Searches
  import ProcessSteps

  // ----- ptcreate

  /** newsem's choice, SYSERR if all entries are in use. */
  ghost predicate NextUnused(sems: seq<Sem>, nextsem: int, j: int) {
    FirstFrom(Unused(sems), nextsem, j)
  }

  /** Where the next search for a semaphore starts once j has been taken. */
  function Onward(nextsem: int, j: int, n: int): int {
    if j == SYSERR then nextsem else Next(j, n)
  }

  /** The entry that ptcreate has opened: empty, of the next epoch, with room for count messages. Its
      two semaphores are the next unused ones, as far as there are any, with counts count and 0. */
  ghost predicate Opened(s: Sys, r: Sys, i: int, count: int)
    requires 0 <= i < |s.pt.tab| == |r.pt.tab|
  {
    var p, n := r.pt.tab[i], |s.k.sems|;
    && p == Port(PtAlloc, p.ssem, p.rsem, [], true, s.pt.tab[i].seqno + 1, count)
    && NextUnused(s.k.sems, s.k.nextsem, p.ssem)
    && NextUnused(Fresh(s.k.sems, p.ssem, count), Onward(s.k.nextsem, p.ssem, n), p.rsem)
    && r.k.sems == Fresh(Fresh(s.k.sems, p.ssem, count), p.rsem, 0)
  }

  /** ptcreate with a count that is not negative. It answers SYSERR exactly if no entry is free, and
      then changes no table. Otherwise it answers the first free entry in cyclic order; that entry is
      opened, and no other one changes. */
  lemma CreatePortExact(s: Sys, count: int)
    requires Inv(s) && s.k.conts[s.k.curr].User? && count >= 0
    ensures var r := Apply(s, CreatePort(count));
            && |r.k.conts| == |s.k.conts| && |r.pt.tab| == |s.pt.tab|
            && (exists i :: r.k.conts == s.k.conts[s.k.curr := User(i)]
                   && FirstFrom(FreePorts(s.pt.tab), s.pt.nextid, i)
                   && (i == SYSERR ==> r.pt == s.pt && r.k.sems == s.k.sems)
                   && (i != SYSERR ==>
                         && 0 <= i < |s.pt.tab| && Opened(s, r, i, count)
                         && r.pt.tab == s.pt.tab[i := r.pt.tab[i]]
                         && r.pt.nextid == Next(i, |s.pt.tab|)))
  {
    hide KInv, PInv, ContsSane, FindPort, FreePorts, FirstFrom, Opened;
    NextInRange(s);
    var r := Apply(s, CreatePort(count));
    if |s.pt.tab| > 0 {
      FindPortFirst(s.pt.tab, s.pt.nextid);
      var i := FindPort(s.pt.tab, s.pt.nextid, |s.pt.tab|);
      if i != SYSERR {
        OpenedHere(s, count, i);
      }
      assert r.k.conts == s.k.conts[s.k.curr := User(i)];
    } else {
      NoEntries(FreePorts(s.pt.tab), s.pt.nextid);
      assert r.k.conts == s.k.conts[s.k.curr := User(SYSERR)];
    }
  }

  lemma OpenedHere(s: Sys, count: int, i: int)
    requires Inv(s) && count >= 0 && 0 <= i < |s.pt.tab|
    ensures Opened(s, OpenPort(s, count, i), i, count)
  {
    hide AtRest, SemExact, PInv, ContsSane, FindSem, FirstFrom, Unused;
    var m := SemCreate(s.k, count);
    NewSemFirst(s.k);
    NewSemFirst(m);
  }

  // ----- what calls answer

  /** Every process's saved remainder after a kernel call: the caller's, and a new process's. */
  ghost function ContsCalled(k: KState, e: Event): seq<Cont>
    requires Sized(k) && 1 <= k.nextpid <= |k.procs|
  {
    match e
    case ReceiveAny => k.conts[k.curr := InReceive]
    case ReceiveWithin(d) => k.conts[k.curr := if d < 0 then User(SYSERR) else InRecvTime]
    case KillProc(v) =>
      if BadPid(k, v) || v == NULLPROC || k.prcount <= 2 then k.conts else k.conts[k.curr := InKill(v)]
    case CreateProc(stkok, prio) =>
      var p := ProcessSteps.NewPid(k);
      if !stkok || prio < 1 || p == SYSERR then k.conts else k.conts[p := User(OK)]
    case _ => k.conts
  }

  /** What the caller of a port operation gets, or has still to do. */
  ghost function Entered(s: Sys, i: int, send: bool, m: int): Cont
    requires SizedSys(s)
  {
    if !IsOpen(s.pt, i) || BadSem(s.k, SemOf(s.pt.tab[i], send)) then User(SYSERR)
    else if send then InSend(i, s.pt.tab[i].seqno, m) else InRecv(i, s.pt.tab[i].seqno)
  }

  ghost function Cleared(s: Sys, i: int, ns: PtState): Cont
    requires SizedSys(s)
  {
    if IsOpen(s.pt, i) then InClear(i, ns, 1) else User(SYSERR)
  }

  /** The answer of a call that is resumed, or what of it is left. */
  ghost function Answered(s: Sys, c: Cont): Cont
    requires SizedSys(s)
  {
    var pr := s.k.procs[s.k.curr];
    match c
    case User(_) => c
    case InReceive => User(pr.msg)
    case InRecvTime => User(if pr.hasmsg then pr.msg else TIMEOUT)
    case InKill(_) => User(OK)
    case InSend(i, q, _) =>
      if !Current(s.pt, i, q) then User(SYSERR) else if s.pt.free == [] then c else User(OK)
    case InRecv(i, q) =>
      if !Current(s.pt, i, q) then User(SYSERR)
      else if s.pt.tab[i].list == [] then c else User(s.pt.msgs[s.pt.tab[i].list[0]])
    case InClear(i, ns, phase) => if phase == 1 then InClear(i, ns, 2) else User(OK)
  }

  ghost function ContsAfter(s: Sys, e: Event): seq<Cont>
    requires SizedSys(s) && 1 <= s.k.nextpid <= |s.k.procs| && (s.pt.tab != [] ==> 0 <= s.pt.nextid < |s.pt.tab|)
  {
    var c, x := s.k.conts, s.k.curr;
    match e
    case CreatePort(n) => c[x := User(if n < 0 then SYSERR else First(FreePorts(s.pt.tab), s.pt.nextid))]
    case SendToPort(i, m) => c[x := Entered(s, i, true, m)]
    case ReceiveFromPort(i) => c[x := Entered(s, i, false, 0)]
    case ResetPort(i) => c[x := Cleared(s, i, PtAlloc)]
    case DeletePort(i) => c[x := Cleared(s, i, PtFree)]
    case Continue =>
      var d := c[x := Answered(s, c[x])];
      if c[x].InKill? && 0 <= c[x].victim < |d| then d[c[x].victim := User(OK)] else d
    case _ => ContsCalled(s.k, e)
  }

  lemma CallConts(k: KState, e: Event)
    requires Sized(k) && KernelEvent(e) && 1 <= k.nextpid <= |k.procs|
    ensures KApply(k, e).conts == ContsCalled(k, e)
  {
    if SemEvent(e) {
      SemEventSameConts(k, e);
    } else if e.CreateProc? {
      CreateConts(k, e.stkok, e.prio);
    } else {
      hide Resched, SleepMs, SleepSecs, Tick, Send, SleepFor, DeferStop, Suspend, Resume, Create;
      hide NoneFreed, SameShape, ProcessSteps.NewPid;
    }
  }

  lemma CreateConts(k: KState, stkok: bool, prio: int)
    requires Sized(k) && 1 <= k.nextpid <= |k.procs|
    ensures KApply(k, CreateProc(stkok, prio)).conts == ContsCalled(k, CreateProc(stkok, prio))
  {
    hide FindPid, FreeProcs, FirstFrom, NoneFreed;
    NewPidFirst(k);
    FirstUnique(FreeProcs(k.procs), Place(k.nextpid, |k.procs|),
      ProcessSteps.NewPid(k), FindPid(k.procs, k.nextpid, |k.procs|));
  }

  lemma PortCallConts(s: Sys, e: Event)
    requires Inv(s) && s.k.conts[s.k.curr].User? && !KernelEvent(e) && e != Continue
    requires 1 <= s.k.nextpid <= |s.k.procs| && (s.pt.tab != [] ==> 0 <= s.pt.nextid < |s.pt.tab|)
    ensures Apply(s, e).k.conts == ContsAfter(s, e)
  {
    hide Inv, PtCreate, PtSend, PtRecv, PtClear, Entered, Cleared, FreePorts, FirstFrom, ContsCalled, Answered;
    InvSized(s);
    match e
    case CreatePort(n) => CreatePortConts(s, n);
    case SendToPort(i, m) => EnterConts(s, i, m);
    case ReceiveFromPort(i) => EnterConts(s, i, 0);
    case ResetPort(i) => ClearConts(s, i, PtAlloc);
    case DeletePort(i) => ClearConts(s, i, PtFree);
  }

  lemma EnterConts(s: Sys, i: int, m: int)
    requires SizedSys(s)
    ensures PtSend(s, i, m).k.conts == s.k.conts[s.k.curr := Entered(s, i, true, m)]
    ensures PtRecv(s, i).k.conts == s.k.conts[s.k.curr := Entered(s, i, false, 0)]
  {
    hide SemWait, NoneFreed, SameShape;
  }

  lemma ClearConts(s: Sys, i: int, ns: PtState)
    requires SizedSys(s)
    ensures PtClear(s, i, ns).k.conts == s.k.conts[s.k.curr := Cleared(s, i, ns)]
  {
    hide SemReset, SemDelete, Flush, NoneFreed, SameShape;
  }

  lemma CreatePortConts(s: Sys, count: int)
    requires Inv(s) && s.k.conts[s.k.curr].User?
    requires s.pt.tab != [] ==> 0 <= s.pt.nextid < |s.pt.tab|
    ensures Apply(s, CreatePort(count)).k.conts
         == s.k.conts[s.k.curr := User(if count < 0 then SYSERR else First(FreePorts(s.pt.tab), s.pt.nextid))]
  {
    hide KInv, PInv, ContsSane, FindPort, FreePorts, FirstFrom, SemCreate;
    if s.pt.tab != [] {
      FindPortFirst(s.pt.tab, s.pt.nextid);
      FirstUnique(FreePorts(s.pt.tab), s.pt.nextid, First(FreePorts(s.pt.tab), s.pt.nextid),
        FindPort(s.pt.tab, s.pt.nextid, |s.pt.tab|));
    } else {
      NoFirst(s.pt);
    }
  }

  lemma NoFirst(pt: PState)
    requires pt.tab == []
    ensures First(FreePorts(pt.tab), pt.nextid) == SYSERR
  {
  }

  lemma ResumedConts(s: Sys)
    requires Inv(s)
    requires 1 <= s.k.nextpid <= |s.k.procs| && (s.pt.tab != [] ==> 0 <= s.pt.nextid < |s.pt.tab|)
    ensures Resumed(s).k.conts == ContsAfter(s, Continue)
  {
    hide Inv, Signal, SemReset, SemDelete, Append, TakeHead, NoneFreed, SameShape, AfterLoss, KillEnd, FreePorts;
    InvSized(s);
    var c := s.k.conts[s.k.curr];
    if c.InClear? {
      ClearerFacts(s, c.port, c.newstate, c.phase);
    } else if c.InKill? {
      KillEndInv(s, c.victim);
    }
  }

  /** What every call answers, and what it leaves to be done when it is resumed. */
  lemma StepConts(s: Sys, e: Event)
    requires Inv(s) && Enabled(s, e)
    ensures 1 <= s.k.nextpid <= |s.k.procs| && (s.pt.tab != [] ==> 0 <= s.pt.nextid < |s.pt.tab|)
    ensures Apply(s, e).k.conts == ContsAfter(s, e)
  {
    hide AtRest, SemExact, PInv, ContsSane, KApply, Resumed, ContsCalled, PtCreate, PtSend, PtRecv, PtClear;
    NextInRange(s);
    if KernelEvent(e) {
      CallConts(s.k, e);
    } else if e == Continue {
      ResumedConts(s);
    } else {
      PortCallConts(s, e);
    }
  }

  // ----- the port table

  /** The event ends the epoch of the open port i. */
  ghost predicate Ends(s: Sys, e: Event, i: int)
    requires SizedSys(s)
  {
    (e == ResetPort(i) || e == DeletePort(i)) && IsOpen(s.pt, i)
  }

  /** The entry of port i after any event but a ptcreate: limbo when its epoch ends, then the state asked
      for when the clearing is done; and one node more or less at the ends of its list when a message
      passes. */
  ghost function EntryAfter(s: Sys, e: Event, i: int): Port
    requires SizedSys(s) && 0 <= i < |s.pt.tab|
  {
    var p, c := s.pt.tab[i], s.k.conts[s.k.curr];
    if Ends(s, e, i) then p.(state := PtLimbo, seqno := p.seqno + 1, list := [], linked := e.ResetPort?)
    else if e != Continue || !PortCont(c) || c.port != i then p
    else if c.InClear? then if c.phase == 2 then p.(state := c.newstate) else p
    else if !Current(s.pt, i, c.seqno) then p
    else if c.InSend? then if s.pt.free == [] then p else p.(list := p.list + [s.pt.free[0]])
    else if p.list == [] then p else p.(list := p.list[1..])
  }

  lemma EntryStep(s: Sys, e: Event, i: int)
    requires Inv(s) && Enabled(s, e) && !e.CreatePort? && 0 <= i < |s.pt.tab|
    ensures var r := Apply(s, e).pt;
            |r.tab| == |s.pt.tab| && r.tab[i] == EntryAfter(s, e, i)
  {
    hide Inv, Resumed, KApply;
    InvSized(s);
    if e == Continue {
      EntryResumed(s, i);
    } else {
      EntryCalled(s, e, i);
    }
  }

  lemma EntryCalled(s: Sys, e: Event, i: int)
    requires SizedSys(s) && e != Continue && !e.CreatePort? && 0 <= i < |s.pt.tab|
    ensures var r := Apply(s, e).pt;
            |r.tab| == |s.pt.tab| && r.tab[i] == EntryAfter(s, e, i)
  {
    hide KApply, SemWait, SemReset, SemDelete;
  }

  lemma EntryResumed(s: Sys, i: int)
    requires Inv(s) && 0 <= i < |s.pt.tab|
    ensures var r := Resumed(s).pt;
            |r.tab| == |s.pt.tab| && r.tab[i] == EntryAfter(s, Continue, i)
  {
    hide Inv, Signal, SemReset, SemDelete, KillEnd, AfterLoss, TakeMessage;
    InvSized(s);
    var c := s.k.conts[s.k.curr];
    if c.InClear? {
      ClearerFacts(s, c.port, c.newstate, c.phase);
    }
  }

  /** A port that has been deleted is the first one that the next ptcreate looks at. */
  lemma DeletedNext(s: Sys, i: int)
    requires Inv(s) && Enabled(s, Continue) && s.k.conts[s.k.curr] == InClear(i, PtFree, 2)
    ensures var r := Apply(s, Continue).pt; 0 <= i < |r.tab| && r.tab[i].state == PtFree && r.nextid == i
  {
    hide KInv, PInv;
    ClearerFacts(s, i, PtFree, 2);
  }

  /** The messages of port i that nobody has received. */
  ghost function Left(h: History): seq<int>
    requires |h.received| <= |h.accepted|
  {
    h.accepted[|h.received|..]
  }

  lemma HistoryFits(s: Sys, i: int)
    requires Inv(s) && IsOpen(s.pt, i)
    ensures s.pt.hist[i].accepted == s.pt.hist[i].received + Contents(s.pt.tab[i].list, s.pt.msgs)
    ensures |s.pt.hist[i].received| <= |s.pt.hist[i].accepted|
    ensures Left(s.pt.hist[i]) == Contents(s.pt.tab[i].list, s.pt.msgs)
  {
    assert PortOk(W(s.k), s.pt, s.owner, i);
    hide KInv, SemOk, ContOk, NodesOk;
  }

  /** The disposal function gets exactly the messages that were accepted and not received when the epoch
      of their port ended, in order, and no others. */
  lemma DisposedStep(s: Sys, e: Event)
    requires Inv(s) && Enabled(s, e)
    ensures forall i :: Ends(s, e, i) ==> 0 <= i < |s.pt.hist| && |s.pt.hist[i].received| <= |s.pt.hist[i].accepted|
    ensures Apply(s, e).pt.disposed == s.pt.disposed
            + if (e.ResetPort? || e.DeletePort?) && Ends(s, e, e.port) then Left(s.pt.hist[e.port]) else []
  {
    hide KInv, PInv, KApply, SemWait, Signal, SemReset, SemDelete, SemCreate, FindPort, KillEnd, AfterLoss, TakeMessage;
    if (e.ResetPort? || e.DeletePort?) && IsOpen(s.pt, e.port) {
      HistoryFits(s, e.port);
    } else {
      assert s.pt.disposed + [] == s.pt.disposed;
    }
  }

  // ----- counters

  /** The call ends in a new process. */
  ghost predicate Makes(k: KState, e: Event)
    requires 1 <= k.nextpid <= |k.procs|
  {
    e.CreateProc? && e.stkok && e.prio >= 1 && ProcessSteps.NewPid(k) != SYSERR
  }

  /** The call is a kill that is not refused. */
  ghost predicate Kills(k: KState, e: Event) {
    e.KillProc? && !BadPid(k, e.pid) && e.pid != NULLPROC
  }

  /** ptsend finds no node. */
  ghost predicate Panics(s: Sys, e: Event)
    requires SizedSys(s)
  {
    var c := s.k.conts[s.k.curr];
    e == Continue && c.InSend? && Current(s.pt, c.port, c.seqno) && s.pt.free == []
  }

  /** Only ticks move the clock, only create and kill the number of processes, and only the last kill and
      a send without a node stop the machine. */
  ghost predicate Counted(s: Sys, e: Event, r: KState)
    requires SizedSys(s) && 1 <= s.k.nextpid <= |s.k.procs|
  {
    && r.ms == s.k.ms + (if e == ClockTick then 1 else 0)
    && r.prcount == s.k.prcount + (if Makes(s.k, e) then 1 else 0) - (if Kills(s.k, e) then 1 else 0)
    && r.halted == ((Kills(s.k, e) && r.prcount <= 1) || Panics(s, e))
    && r.nextpid == MovedOn(s.k, e)
  }

  /** Where the next search for a free process entry starts. A create with a bad priority has searched. */
  ghost function MovedOn(k: KState, e: Event): int
    requires 1 <= k.nextpid <= |k.procs|
  {
    if e.CreateProc? && e.stkok && ProcessSteps.NewPid(k) != SYSERR then ProcessSteps.NewPid(k) + 1 else k.nextpid
  }

  ghost predicate SameCounts(k: KState, r: KState) {
    r.ms == k.ms && r.prcount == k.prcount && r.halted == k.halted && r.nextpid == k.nextpid
  }

  lemma CallCounts(k: KState, e: Event)
    requires Sized(k) && KernelEvent(e) && !e.ClockTick? && !e.CreateProc? && !e.KillProc?
    ensures SameCounts(k, KApply(k, e))
  {
    hide Resched, SleepMs, SleepSecs, Send, Receive, RecvTime, DeferStop, Suspend, Resume, NewSem;
    hide SemWait, Signal, Signaln, SemReset, SemDelete, NoneFreed;
  }

  lemma TickCounts(k: KState)
    requires Sized(k)
    ensures var r := KApply(k, ClockTick); r.ms == k.ms + 1 && SameCounts(k.(ms := r.ms), r)
  {
    hide TickSleepers, Resched, NoneFreed;
  }

  lemma CreateCounts(k: KState, e: Event)
    requires Sized(k) && e.CreateProc? && 1 <= k.nextpid <= |k.procs|
    ensures var r := KApply(k, e);
            && r.ms == k.ms && r.prcount == k.prcount + (if Makes(k, e) then 1 else 0) && r.halted == k.halted
            && r.nextpid == MovedOn(k, e)
  {
    hide FindPid, FreeProcs, FirstFrom, NoneFreed;
    NewPidFirst(k);
    FirstUnique(FreeProcs(k.procs), Place(k.nextpid, |k.procs|),
      ProcessSteps.NewPid(k), FindPid(k.procs, k.nextpid, |k.procs|));
  }

  lemma KillCounts(k: KState, e: Event)
    requires Sized(k) && e.KillProc? && !k.halted
    ensures var r := KApply(k, e);
            && r.ms == k.ms && r.prcount == k.prcount - (if Kills(k, e) then 1 else 0)
            && r.halted == (Kills(k, e) && r.prcount <= 1) && r.nextpid == k.nextpid
  {
    hide Send, NoneFreed;
  }

  lemma PortCallCounts(s: Sys, e: Event)
    requires SizedSys(s) && !KernelEvent(e) && e != Continue
    ensures SameCounts(s.k, Apply(s, e).k)
  {
    hide SameCounts, PtCreate, PtSend, PtRecv, PtClear;
    match e
    case CreatePort(n) => CreatePortCounts(s, n);
    case SendToPort(i, m) => EnterCounts(s, i, m);
    case ReceiveFromPort(i) => EnterCounts(s, i, 0);
    case ResetPort(i) => ClearCounts(s, i, PtAlloc);
    case DeletePort(i) => ClearCounts(s, i, PtFree);
  }

  lemma CreatePortCounts(s: Sys, count: int)
    requires SizedSys(s)
    ensures SameCounts(s.k, PtCreate(s, count).k)
  {
    hide NewSem, FindPort, NoneFreed;
  }

  lemma EnterCounts(s: Sys, i: int, m: int)
    requires SizedSys(s)
    ensures SameCounts(s.k, PtSend(s, i, m).k) && SameCounts(s.k, PtRecv(s, i).k)
  {
    hide SemWait, NoneFreed;
  }

  lemma ClearCounts(s: Sys, i: int, ns: PtState)
    requires SizedSys(s)
    ensures SameCounts(s.k, PtClear(s, i, ns).k)
  {
    hide SemReset, SemDelete, Flush, NoneFreed;
  }

  lemma ResumedCounts(s: Sys)
    requires Inv(s)
    ensures var k, r := s.k, Resumed(s).k;
            && r.ms == k.ms && r.prcount == k.prcount && r.halted == (k.halted || Panics(s, Continue))
            && r.nextpid == k.nextpid
  {
    hide KInv, PInv, Signal, SemReset, SemDelete, Append, TakeHead, NoneFreed, AfterLoss, KillEnd;
    var c := s.k.conts[s.k.curr];
    if c.InRecv? && Current(s.pt, c.port, c.seqno) {
      ProcessSteps.MessageThere(s);
    }
  }

  lemma StepCounters(s: Sys, e: Event)
    requires Inv(s) && Enabled(s, e)
    ensures 1 <= s.k.nextpid <= |s.k.procs| && Counted(s, e, Apply(s, e).k)
  {
    hide AtRest, SemExact, PInv, ContsSane, KApply, Resumed, PtCreate, PtSend, PtRecv, PtClear;
    if e == ClockTick {
      TickCounts(s.k);
    } else if e.CreateProc? {
      CreateCounts(s.k, e);
    } else if e.KillProc? {
      KillCounts(s.k, e);
    } else if KernelEvent(e) {
      CallCounts(s.k, e);
    } else if e == Continue {
      ResumedCounts(s);
    } else {
      PortCallCounts(s, e);
    }
  }

  /** The seconds are the thousands of the ticks. */
  lemma SecondsAreTicks(k: KState)
    requires KInv(k)
    ensures k.secs == k.ms / 1000
  {
    hide AtRest, SemExact;
  }

  // ----- calls that are refused

  /** The call's arguments do not fit the state: it answers SYSERR. */
  ghost predicate Refused(s: Sys, e: Event)
    requires SizedSys(s)
  {
    var k := s.k;
    match e
    case SuspendProc(p) => BadPid(k, p) || p == NULLPROC || (k.procs[p].state != Curr && k.procs[p].state != Ready)
    case ResumeProc(p) => BadPid(k, p) || k.procs[p].state != Susp
    case CreateProc(stkok, _) => !stkok || forall p :: 0 <= p < |k.procs| ==> k.procs[p].state != Free
    case KillProc(p) => BadPid(k, p) || p == NULLPROC
    case SendTo(p, _) => BadPid(k, p) || k.procs[p].hasmsg
    case ReceiveWithin(d) => d < 0
    case SleepFewMs(d) => d < 0
    case SleepFewSecs(d) => d < 0 || d > MAXSECONDS
    case NewSemaphore(c) => c < 0 || forall j :: 0 <= j < |k.sems| ==> k.sems[j].used
    case WaitOn(j) => BadSem(k, j)
    case SignalOn(j) => BadSem(k, j)
    case SignalManyOn(j, n) => n < 0 || BadSem(k, j)
    case ResetSemaphore(j, c) => c < 0 || BadSem(k, j)
    case DeleteSemaphore(j) => BadSem(k, j)
    case StopDeferral => k.ndefers == 0
    case CreatePort(c) => c < 0 || forall i :: 0 <= i < |s.pt.tab| ==> s.pt.tab[i].state != PtFree
    case SendToPort(i, _) => !IsOpen(s.pt, i) || BadSem(k, s.pt.tab[i].ssem)
    case ReceiveFromPort(i) => !IsOpen(s.pt, i) || BadSem(k, s.pt.tab[i].rsem)
    case ResetPort(i) => !IsOpen(s.pt, i)
    case DeletePort(i) => !IsOpen(s.pt, i)
    case _ => false
  }

  /** A call that is refused changes nothing at all but its answer. */
  lemma RefusedChangesNothing(s: Sys, e: Event)
    requires SizedSys(s) && Refused(s, e)
    ensures Apply(s, e) == if KernelEvent(e) && !e.ReceiveWithin? then s else Return(s, SYSERR)
  {
    hide Resched, NoneFreed, SameShape, FindPort, FindPid, FindSem;
    if e.CreatePort? {
      hide FindPort;
    }
  }

  // ----- the message nodes

  /** The free nodes after a step: those of a port whose epoch ends go in front, a send takes the first
      one, and a receive puts its node in front. */
  ghost function FreeAfter(s: Sys, e: Event): seq<int>
    requires SizedSys(s)
  {
    var free, c := s.pt.free, s.k.conts[s.k.curr];
    if (e.ResetPort? || e.DeletePort?) && Ends(s, e, e.port) then s.pt.tab[e.port].list + free
    else if e != Continue || !(c.InSend? || c.InRecv?) || !Current(s.pt, c.port, c.seqno) then free
    else if c.InSend? then if free == [] then free else free[1..]
    else if s.pt.tab[c.port].list == [] then free else [s.pt.tab[c.port].list[0]] + free
  }

  /** A message is written only into the node that a send has just taken. */
  ghost function MsgsAfter(s: Sys, e: Event): seq<int>
    requires SizedSys(s)
  {
    var c := s.k.conts[s.k.curr];
    if e == Continue && c.InSend? && Current(s.pt, c.port, c.seqno) && s.pt.free != []
    then s.pt.msgs[s.pt.free[0] := c.item] else s.pt.msgs
  }

  lemma NodeStep(s: Sys, e: Event)
    requires SizedSys(s)
    ensures Apply(s, e).pt.free == FreeAfter(s, e) && Apply(s, e).pt.msgs == MsgsAfter(s, e)
  {
    hide KApply, SemWait, Signal, SemReset, SemDelete, SemCreate, FindPort, KillEnd, AfterLoss, TakeMessage;
  }
}
