/**
 What the port protocol guarantees in every state that any run of the machine can reach.
 */
module PortTheorems {
  import opened Sequences
  import opened QueueTables
  import opened KernelState
  import opened KernelInvariants
  import opened PortState
  import opened PortInvariants
  import opened Machine

  /** The machine after sysinit and ptinit. */
  ghost function Start(nproc: nat, nsem: nat, quantum: int, nports: nat, maxmsgs: nat): (s: Sys)
    requires nproc > 0
    ensures SizedSys(s)
  {
    Initial(Booted(nproc, nsem, quantum), nports, maxmsgs)
  }

  lemma BootedInv(nproc: nat, nsem: nat, quantum: int)
    requires nproc > 0 && quantum > 0
    ensures KInv(Booted(nproc, nsem, quantum))
  {
    var k := Booted(nproc, nsem, quantum);
    forall p | 0 <= p < |k.procs| ensures AtHome(k, p, -1) {
      assert forall j :: 0 <= j < |k.sq| ==> k.sq[j] == [];
    }
  }

  lemma {:induction false} SumLensZero(tab: seq<Port>)
    requires forall i :: 0 <= i < |tab| ==> tab[i].list == []
    ensures SumLens(tab) == 0
    decreases |tab|
  {
    if tab != [] {
      SumLensZero(tab[..|tab| - 1]);
    }
  }

  lemma StartInv(nproc: nat, nsem: nat, quantum: int, nports: nat, maxmsgs: nat)
    requires nproc > 0 && quantum > 0
    ensures Inv(Start(nproc, nsem, quantum, nports, maxmsgs))
  {
    var s := Start(nproc, nsem, quantum, nports, maxmsgs);
    BootedInv(nproc, nsem, quantum);
    WaitsFromKernel(s.k);
    hide KInv;
    SumLensZero(s.pt.tab);
  }

  /** The invariant holds in every reachable state. */
  lemma ReachableInv(nproc: nat, nsem: nat, quantum: int, nports: nat, maxmsgs: nat, es: seq<Event>)
    requires nproc > 0 && quantum > 0 && Run(Start(nproc, nsem, quantum, nports, maxmsgs), es)
    ensures Inv(After(Start(nproc, nsem, quantum, nports, maxmsgs), es))
  {
    hide Inv;
    StartInv(nproc, nsem, quantum, nports, maxmsgs);
    RunInv(Start(nproc, nsem, quantum, nports, maxmsgs), es);
  }

  // ----- conservation

  ghost function SendersThrough(s: Sys, i: int): nat
    requires SizedSys(s) && 0 <= i < |s.pt.tab| && 0 <= s.pt.tab[i].ssem < |s.k.sems|
  {
    Granted(s.k.conts, s.k.sq[s.pt.tab[i].ssem], true, i, s.pt.tab[i].seqno)
  }

  ghost function ReceiversThrough(s: Sys, i: int): nat
    requires SizedSys(s) && 0 <= i < |s.pt.tab| && 0 <= s.pt.tab[i].rsem < |s.k.sems|
  {
    Granted(s.k.conts, s.k.sq[s.pt.tab[i].rsem], false, i, s.pt.tab[i].seqno)
  }

  /** An open port whose two semcreate calls both succeeded. */
  ghost predicate Whole(s: Sys, i: int)
    requires SizedSys(s)
  {
    IsOpen(s.pt, i) && 0 <= s.pt.tab[i].ssem < |s.k.sems| && 0 <= s.pt.tab[i].rsem < |s.k.sems|
  }

  /** Capacity and messages are both accounted for exactly; killed processes take tokens with them. */
  lemma TokensConserved(s: Sys, i: int)
    requires Inv(s) && Whole(s, i)
    ensures var p, h := s.pt.tab[i], s.pt.hist[i];
            && Max0(s.k.sems[p.ssem].count) + SendersThrough(s, i) + |p.list| + h.lostS == p.maxcnt
            && Max0(s.k.sems[p.rsem].count) + ReceiversThrough(s, i) + h.lostR == |p.list|
            && h.lostS >= 0 && h.lostR >= 0
  {
    assert PortOk(W(s.k), s.pt, s.owner, i);
  }

  /** The end of a kill whose victim a semaphore of port i has let through. */
  ghost predicate KillsGranted(s: Sys, e: Event, i: int, send: bool)
    requires SizedSys(s)
  {
    var c := s.k.conts[s.k.curr];
    && e == Continue && c.InKill? && IsGranted(s.k.sq, s.k.conts, s.pt, c.victim, send)
    && s.k.conts[c.victim].port == i
  }

  /** Only the caller's continuation changes, and not into the middle of a kill. */
  ghost predicate OwnContOnly(k: KState, r: KState) {
    && |r.conts| == |k.conts| && 0 <= k.curr < |k.conts|
    && (forall p :: 0 <= p < |k.conts| && p != k.curr ==> r.conts[p] == k.conts[p])
    && !r.conts[k.curr].InKill? && r.conts[k.curr] != InReceive && r.conts[k.curr] != InRecvTime
  }

  lemma ResumedConts(s: Sys)
    requires SizedSys(s) && !s.k.conts[s.k.curr].InKill?
    ensures OwnContOnly(s.k, Resumed(s).k)
  {
    hide Signal, SemReset, SemDelete, Append, TakeHead, NoneFreed, SameShape;
    match s.k.conts[s.k.curr]
    case User(_) =>
    case InReceive => hide TakeMessage;
    case InRecvTime => hide TakeMessage;
    case InKill(v) =>
    case InSend(i, q, m) =>
    case InRecv(i, q) =>
    case InClear(i, ns, phase) =>
  }

  /** The caller's own continuation is the only one that a port call writes. */
  lemma PortCallCont(s: Sys, e: Event)
    requires SizedSys(s) && !KernelEvent(e) && e != Continue
    ensures ContWritten(s.k, Apply(s, e).k, s.pt)
  {
    hide PtCreate, PtSend, PtRecv, PtClear;
    match e
    case CreatePort(c) => CreateConts(s, c);
    case SendToPort(i, m) => EnterConts(s, i, m);
    case ReceiveFromPort(i) => EnterConts(s, i, 0);
    case ResetPort(i) => ClearSemConts(s, i, PtAlloc);
    case DeletePort(i) => ClearSemConts(s, i, PtFree);
  }

  ghost predicate ContWritten(k: KState, r: KState, pt: PState)
    requires Sized(k)
  {
    exists c: Cont :: !c.InKill? && !c.InReceive? && !c.InRecvTime? && (c.InClear? ==> IsOpen(pt, c.port))
        && r.conts == k.conts[k.curr := c]
  }

  lemma Written(k: KState, r: KState, pt: PState, c: Cont)
    requires Sized(k) && !c.InKill? && !c.InReceive? && !c.InRecvTime? && (c.InClear? ==> IsOpen(pt, c.port))
        && r.conts == k.conts[k.curr := c]
    ensures ContWritten(k, r, pt)
  {
  }

  lemma CreateConts(s: Sys, count: int)
    requires SizedSys(s)
    ensures ContWritten(s.k, PtCreate(s, count).k, s.pt)
  {
    hide SemCreate, NewSem, FindPort, NoneFreed, SameShape;
    Written(s.k, PtCreate(s, count).k, s.pt, PtCreate(s, count).k.conts[s.k.curr]);
  }

  lemma EnterConts(s: Sys, i: int, m: int)
    requires SizedSys(s)
    ensures ContWritten(s.k, PtSend(s, i, m).k, s.pt) && ContWritten(s.k, PtRecv(s, i).k, s.pt)
  {
    hide SemWait, NoneFreed, SameShape;
    Written(s.k, PtSend(s, i, m).k, s.pt, PtSend(s, i, m).k.conts[s.k.curr]);
    Written(s.k, PtRecv(s, i).k, s.pt, PtRecv(s, i).k.conts[s.k.curr]);
  }

  lemma ClearSemConts(s: Sys, i: int, ns: PtState)
    requires SizedSys(s)
    ensures ContWritten(s.k, PtClear(s, i, ns).k, s.pt)
  {
    hide SemReset, SemDelete, Flush, NoneFreed, SameShape;
    Written(s.k, PtClear(s, i, ns).k, s.pt, PtClear(s, i, ns).k.conts[s.k.curr]);
  }

  lemma PortContWritten(s: Sys, e: Event)
    requires SizedSys(s) && !KernelEvent(e) && (e == Continue ==> !s.k.conts[s.k.curr].InKill?)
    requires e == Continue ==> s.k.conts[s.k.curr] != InReceive && s.k.conts[s.k.curr] != InRecvTime
    ensures var r := Apply(s, e).k;
            && |r.conts| == |s.k.conts| && r.conts[s.k.curr] != InReceive && r.conts[s.k.curr] != InRecvTime
            && (forall p :: 0 <= p < |s.k.conts| && p != s.k.curr ==> r.conts[p] == s.k.conts[p])
  {
    hide Resumed, PtCreate, PtSend, PtRecv, PtClear;
    if e == Continue {
      ResumedConts(s);
    } else {
      PortCallCont(s, e);
    }
  }

  /** How a step that is not the end of a kill changes a port's record: not at all, by one message
      sent or received, or by starting afresh. */
  lemma PortStepHistory(s: Sys, e: Event, i: int)
    requires SizedSys(s) && !(e.Continue? && s.k.conts[s.k.curr].InKill?) && 0 <= i < |s.pt.tab|
    ensures var r, c := Apply(s, e), s.k.conts[s.k.curr];
            && |r.pt.tab| == |s.pt.tab| && |r.pt.msgs| == |s.pt.msgs|
            && (|| (r.pt.hist[i] == s.pt.hist[i] && r.pt.tab[i].seqno == s.pt.tab[i].seqno)
                || (r.pt.hist[i] == NewEpoch && r.pt.tab[i].seqno == s.pt.tab[i].seqno + 1)
                || (e == Continue && c.InSend? && c.port == i && Current(s.pt, i, c.seqno)
                    && r.pt.tab[i].seqno == s.pt.tab[i].seqno && r.k.conts[s.k.curr] == User(OK)
                    && r.pt.hist[i] == s.pt.hist[i].(accepted := s.pt.hist[i].accepted + [c.item]))
                || (e == Continue && c.InRecv? && c.port == i && Current(s.pt, i, c.seqno)
                    && r.pt.tab[i].seqno == s.pt.tab[i].seqno && s.pt.tab[i].list != []
                    && r.k.conts[s.k.curr] == User(s.pt.msgs[s.pt.tab[i].list[0]])
                    && r.pt.hist[i] == s.pt.hist[i].(
                         received := s.pt.hist[i].received + [s.pt.msgs[s.pt.tab[i].list[0]]])))
  {
    hide KApply, SemWait, Signal, SemReset, SemDelete, SemCreate, FindPort, KillEnd, AfterLoss, TakeMessage;
  }

  /** What a step does to the tokens that a port has lost: the end of a kill adds one if the victim was
      granted there, a new epoch has lost none, and nothing else changes them. */
  lemma LossStep(s: Sys, e: Event, i: int)
    requires Inv(s) && 0 <= i < |s.pt.tab|
    ensures var r := Apply(s, e).pt;
            && |r.hist| == |r.tab| == |s.pt.tab|
            && (if r.tab[i].seqno == s.pt.tab[i].seqno then
                  && r.hist[i].lostS == s.pt.hist[i].lostS + (if KillsGranted(s, e, i, true) then 1 else 0)
                  && r.hist[i].lostR == s.pt.hist[i].lostR + (if KillsGranted(s, e, i, false) then 1 else 0)
                else r.hist[i] == NewEpoch)
  {
    hide Inv, Apply, Resumed;
    InvSized(s);
    TabLength(s, e);
    if e == Continue && s.k.conts[s.k.curr].InKill? {
      LossOfKill(s, i);
    } else {
      PortStepHistory(s, e, i);
    }
  }

  lemma LossOfKill(s: Sys, i: int)
    requires Inv(s) && 0 <= i < |s.pt.tab| && s.k.conts[s.k.curr].InKill?
    ensures var r, v := Apply(s, Continue).pt, s.k.conts[s.k.curr].victim;
            && |r.hist| == |r.tab| == |s.pt.tab| && r.tab[i].seqno == s.pt.tab[i].seqno
            && r.hist[i].lostS == s.pt.hist[i].lostS
               + (if IsGranted(s.k.sq, s.k.conts, s.pt, v, true) && s.k.conts[v].port == i then 1 else 0)
            && r.hist[i].lostR == s.pt.hist[i].lostR
               + (if IsGranted(s.k.sq, s.k.conts, s.pt, v, false) && s.k.conts[v].port == i then 1 else 0)
  {
    hide KInv, PInv, KillEnd, SameShape;
  }

  lemma TabLength(s: Sys, e: Event)
    requires SizedSys(s)
    ensures |Apply(s, e).pt.tab| == |s.pt.tab| && |Apply(s, e).pt.msgs| == |s.pt.msgs|
  {
    hide KApply, SemWait, Signal, SemReset, SemDelete, SemCreate, FindPort, KillEnd, AfterLoss, TakeMessage;
  }

  /** In no step of the run is a process killed that a semaphore of port i has let through. */
  ghost predicate GrantsSurvive(s: Sys, es: seq<Event>, i: int)
    requires SizedSys(s)
    decreases |es|
  {
    es != [] ==>
      && !KillsGranted(s, es[0], i, true) && !KillsGranted(s, es[0], i, false)
      && GrantsSurvive(Apply(s, es[0]), es[1..], i)
  }

  /** Other kills, and kills of processes that still wait, lose no token. */
  lemma {:induction false} NothingLostRun(s: Sys, es: seq<Event>, i: int)
    requires Inv(s) && Run(s, es) && GrantsSurvive(s, es, i)
    requires 0 <= i < |s.pt.tab| && s.pt.hist[i].lostS == 0 && s.pt.hist[i].lostR == 0
    ensures var r := After(s, es).pt;
            0 <= i < |r.hist| && r.hist[i].lostS == 0 && r.hist[i].lostR == 0
    decreases |es|
  {
    if es != [] {
      hide Inv, Apply, Enabled, KillsGranted;
      InvSized(s);
      StepInv(s, es[0]);
      LossStep(s, es[0], i);
      NothingLostRun(Apply(s, es[0]), es[1..], i);
    }
  }

  /** Token conservation over whole runs: capacity can only shrink and messages can only be left over,
      and neither happens unless a process is killed between its semaphore and its port. */
  lemma TokenConservation(nproc: nat, nsem: nat, quantum: int, nports: nat, maxmsgs: nat, es: seq<Event>, i: int)
    requires nproc > 0 && quantum > 0 && Run(Start(nproc, nsem, quantum, nports, maxmsgs), es)
    requires Whole(After(Start(nproc, nsem, quantum, nports, maxmsgs), es), i)
    ensures var s0 := Start(nproc, nsem, quantum, nports, maxmsgs);
            var s := After(s0, es);
            var p := s.pt.tab[i];
            var capacity := Max0(s.k.sems[p.ssem].count) + SendersThrough(s, i) + |p.list|;
            var promised := Max0(s.k.sems[p.rsem].count) + ReceiversThrough(s, i);
            && capacity <= p.maxcnt && promised <= |p.list|
            && (GrantsSurvive(s0, es, i) ==> capacity == p.maxcnt && promised == |p.list|)
  {
    hide Inv, Run, After, Granted, GrantsSurvive;
    var s0 := Start(nproc, nsem, quantum, nports, maxmsgs);
    ReachableInv(nproc, nsem, quantum, nports, maxmsgs, es);
    TokensConserved(After(s0, es), i);
    if GrantsSurvive(s0, es, i) {
      StartInv(nproc, nsem, quantum, nports, maxmsgs);
      SameTable(s0, es);
      NothingLostRun(s0, es, i);
    }
  }

  lemma {:induction false} SameTable(s: Sys, es: seq<Event>)
    requires SizedSys(s)
    ensures |After(s, es).pt.tab| == |s.pt.tab|
    decreases |es|
  {
    if es != [] {
      TabLength(s, es[0]);
      hide Apply;
      SameTable(Apply(s, es[0]), es[1..]);
    }
  }

  // ----- nodes

  ghost function Capacity(tab: seq<Port>): int {
    if tab == [] then 0
    else Capacity(tab[..|tab| - 1]) + if tab[|tab| - 1].state == PtAlloc then tab[|tab| - 1].maxcnt else 0
  }

  /** No open port holds more than its capacity, and port i, where a sender is on its way, holds less. */
  lemma {:induction false} RoomLeft(tab: seq<Port>, i: int)
    requires 0 <= i < |tab|
    requires forall j :: 0 <= j < |tab| ==>
        |tab[j].list| <= if tab[j].state == PtAlloc then tab[j].maxcnt else 0
    requires tab[i].state == PtAlloc && |tab[i].list| < tab[i].maxcnt
    ensures SumLens(tab) < Capacity(tab)
    decreases |tab|
  {
    var n := |tab| - 1;
    if i == n {
      ListsFit(tab[..n]);
    } else {
      RoomLeft(tab[..n], i);
    }
  }

  lemma {:induction false} ListsFit(tab: seq<Port>)
    requires forall j :: 0 <= j < |tab| ==>
        |tab[j].list| <= if tab[j].state == PtAlloc then tab[j].maxcnt else 0
    ensures SumLens(tab) <= Capacity(tab)
    decreases |tab|
  {
    if tab != [] {
      ListsFit(tab[..|tab| - 1]);
    }
  }

  /** Every node is on exactly one list, in every reachable state. */
  lemma NodesConserved(nproc: nat, nsem: nat, quantum: int, nports: nat, maxmsgs: nat, es: seq<Event>)
    requires nproc > 0 && quantum > 0 && Run(Start(nproc, nsem, quantum, nports, maxmsgs), es)
    ensures NodesOk(After(Start(nproc, nsem, quantum, nports, maxmsgs), es).pt)
  {
    ReachableInv(nproc, nsem, quantum, nports, maxmsgs, es);
  }

  lemma NodeAvailable(s: Sys)
    requires Inv(s) && !s.k.halted && s.k.conts[s.k.curr].InSend?
    requires Current(s.pt, s.k.conts[s.k.curr].port, s.k.conts[s.k.curr].seqno)
    requires Capacity(s.pt.tab) <= |s.pt.msgs|
    ensures s.pt.free != []
  {
    var w, c := W(s.k), s.k.conts[s.k.curr];
    var i := c.port;
    WaitsFromKernel(s.k);
    assert ContOk(w, s.pt, s.owner, c);
    forall j | 0 <= j < |s.pt.tab|
      ensures |s.pt.tab[j].list| <= if s.pt.tab[j].state == PtAlloc then s.pt.tab[j].maxcnt else 0
    {
      assert PortOk(w, s.pt, s.owner, j);
      hide SemOk, NodesOk, ContOk, KInv;
    }
    assert PortOk(w, s.pt, s.owner, i);
    hide SemOk, ContOk, KInv;
    GrantedSome(w.conts, w.sq[s.pt.tab[i].ssem], true, i, c.seqno, s.k.curr);
    RoomLeft(s.pt.tab, i);
  }

  /** In every state of the run the open ports' capacities fit into the nodes. */
  ghost predicate AlwaysFits(s: Sys, es: seq<Event>)
    requires SizedSys(s)
    decreases |es|
  {
    Capacity(s.pt.tab) <= |s.pt.msgs| && (es != [] ==> AlwaysFits(Apply(s, es[0]), es[1..]))
  }

  lemma StopStep(s: Sys, e: Event)
    requires Inv(s) && Enabled(s, e) && s.pt.stop == Running && Capacity(s.pt.tab) <= |s.pt.msgs|
    ensures Apply(s, e).pt.stop == Running
  {
    var c := s.k.conts[s.k.curr];
    if e == Continue && c.InSend? && Current(s.pt, c.port, c.seqno) {
      NodeAvailable(s);
    }
    if e == Continue && c.InRecv? && Current(s.pt, c.port, c.seqno) {
      WaitsFromKernel(s.k);
      HeadExists(W(s.k), s.pt, s.owner, s.k.curr);
    }
    hide KInv, PInv, ContsSane, Capacity;
    hide KApply, SemWait, Signal, SemReset, SemDelete, SemCreate, FindPort, KillEnd, AfterLoss, TakeMessage;
  }

  /** ptsend never runs out of nodes, and ptrecv never reads an empty list, however the run goes. */
  lemma {:induction false} NeverStops(s: Sys, es: seq<Event>)
    requires Inv(s) && Run(s, es) && AlwaysFits(s, es) && s.pt.stop == Running
    ensures After(s, es).pt.stop == Running
    decreases |es|
  {
    if es != [] {
      StepInv(s, es[0]);
      StopStep(s, es[0]);
      hide Inv, Apply, Enabled;
      NeverStops(Apply(s, es[0]), es[1..]);
    }
  }

  // ----- epochs

  predicate EndsEpoch(e: Event, i: int) {
    e == ResetPort(i) || e == DeletePort(i)
  }

  /** Sequence numbers never go back, and a reset or delete moves them on. */
  lemma SeqnoStep(s: Sys, e: Event, i: int)
    requires SizedSys(s) && 0 <= i < |s.pt.tab|
    ensures |Apply(s, e).pt.tab| == |s.pt.tab|
    ensures Apply(s, e).pt.tab[i].seqno >= s.pt.tab[i].seqno
    ensures EndsEpoch(e, i) && IsOpen(s.pt, i) ==> Apply(s, e).pt.tab[i].seqno == s.pt.tab[i].seqno + 1
  {
    hide KApply, SemWait, Signal, SemReset, SemDelete, SemCreate, FindPort, KillEnd, AfterLoss, TakeMessage;
    TabLength(s, e);
  }

  /** Somewhere in the run port i is reset or deleted while it is open. */
  ghost predicate EpochEnds(s: Sys, es: seq<Event>, i: int)
    requires SizedSys(s)
    decreases |es|
  {
    es != [] && ((EndsEpoch(es[0], i) && IsOpen(s.pt, i)) || EpochEnds(Apply(s, es[0]), es[1..], i))
  }

  lemma {:induction false} SeqnoRun(s: Sys, es: seq<Event>, i: int)
    requires SizedSys(s) && 0 <= i < |s.pt.tab|
    ensures |After(s, es).pt.tab| == |s.pt.tab|
    ensures After(s, es).pt.tab[i].seqno >= s.pt.tab[i].seqno
    ensures EpochEnds(s, es, i) ==> After(s, es).pt.tab[i].seqno > s.pt.tab[i].seqno
    decreases |es|
  {
    if es != [] {
      SeqnoStep(s, es[0], i);
      hide Apply;
      SeqnoRun(Apply(s, es[0]), es[1..], i);
    }
  }

  /** A process that entered ptsend or ptrecv before its port was reset or deleted returns SYSERR and
      changes nothing but its own continuation, whatever has happened to the port since: limbo, a
      reset completed, a deletion, or a new port in the same entry. */
  lemma EpochIsolation(s: Sys, es: seq<Event>, p: int)
    requires Inv(s) && Run(s, es) && 0 <= p < |s.k.conts|
    requires (s.k.conts[p].InSend? || s.k.conts[p].InRecv?) && EpochEnds(s, es, s.k.conts[p].port)
    requires var r := After(s, es); r.k.curr == p && |r.k.conts| == |s.k.conts| && r.k.conts[p] == s.k.conts[p]
    ensures Apply(After(s, es), Continue) == Return(After(s, es), SYSERR)
  {
    hide KInv, PInv, ContsSane, Run, After, EpochEnds, Return, Halt, Append, TakeHead, Signal;
    EpochEntered(s, p);
    SeqnoRun(s, es, s.k.conts[p].port);
    var r := After(s, es);
    assert !Current(r.pt, s.k.conts[p].port, s.k.conts[p].seqno);
  }

  /** No process is ahead of its port's sequence number. */
  lemma EpochEntered(s: Sys, p: int)
    requires Inv(s) && 0 <= p < |s.k.conts| && (s.k.conts[p].InSend? || s.k.conts[p].InRecv?)
    ensures 0 <= s.k.conts[p].port < |s.pt.tab| && s.k.conts[p].seqno <= s.pt.tab[s.k.conts[p].port].seqno
  {
    assert ContOk(W(s.k), s.pt, s.owner, s.k.conts[p]);
    hide KInv, SemOk, PortOk, NodesOk;
  }

  // ----- order

  /** Within an epoch, what has been received and what still waits is what was accepted, in order. */
  lemma Fifo(nproc: nat, nsem: nat, quantum: int, nports: nat, maxmsgs: nat, es: seq<Event>, i: int)
    requires nproc > 0 && quantum > 0 && Run(Start(nproc, nsem, quantum, nports, maxmsgs), es)
    requires IsOpen(After(Start(nproc, nsem, quantum, nports, maxmsgs), es).pt, i)
    ensures var pt := After(Start(nproc, nsem, quantum, nports, maxmsgs), es).pt;
            pt.hist[i].accepted == pt.hist[i].received + Contents(pt.tab[i].list, pt.msgs)
  {
    ReachableInv(nproc, nsem, quantum, nports, maxmsgs, es);
    var s := After(Start(nproc, nsem, quantum, nports, maxmsgs), es);
    assert PortOk(W(s.k), s.pt, s.owner, i);
    hide KInv, Run, After;
  }

  // ----- blocked processes and ptcount

  /** Nobody has been let through who has not gone on yet, and nobody was killed in that position. */
  ghost predicate Settled(s: Sys, i: int)
    requires SizedSys(s) && Whole(s, i)
  {
    && SendersThrough(s, i) == 0 && ReceiversThrough(s, i) == 0
    && s.pt.hist[i].lostS == 0 && s.pt.hist[i].lostR == 0
  }

  /** Senders and receivers of a port both wait only while its whole capacity is held by processes that
      have been let through, or was lost with such processes. */
  lemma BothBlocked(s: Sys, i: int)
    requires Inv(s) && Whole(s, i)
    requires s.k.sq[s.pt.tab[i].ssem] != [] && s.k.sq[s.pt.tab[i].rsem] != []
    ensures var h := s.pt.hist[i];
            SendersThrough(s, i) + ReceiversThrough(s, i) + h.lostS + h.lostR == s.pt.tab[i].maxcnt
  {
    TokensConserved(s, i);
    hide PInv, Granted, AtRest;
  }

  /** Senders and receivers of a settled port with room for a message never wait at the same time. */
  lemma NoStuckPair(s: Sys, i: int)
    requires Inv(s) && Whole(s, i) && Settled(s, i) && s.pt.tab[i].maxcnt >= 1
    ensures s.k.sq[s.pt.tab[i].ssem] == [] || s.k.sq[s.pt.tab[i].rsem] == []
  {
    hide PInv, Granted, AtRest;
    if s.k.sq[s.pt.tab[i].ssem] != [] && s.k.sq[s.pt.tab[i].rsem] != [] {
      BothBlocked(s, i);
    }
  }

  /** ptcount in general: what it misses are messages already promised to somebody. */
  lemma CountExact(s: Sys, i: int)
    requires Inv(s) && Whole(s, i)
    ensures var p := s.pt.tab[i];
            var blockedSenders, blockedReceivers := |s.k.sq[p.ssem]|, |s.k.sq[p.rsem]|;
            PortState.PtCount(s, i) ==
              if blockedReceivers > 0 then -blockedReceivers
              else |p.list| - ReceiversThrough(s, i) - s.pt.hist[i].lostR + blockedSenders
  {
    TokensConserved(s, i);
    OpenSides(W(s.k), s.pt, s.owner, i);
    hide PInv, Granted, AtRest;
  }

  /** What its comment says: messages and blocked senders, or minus the blocked receivers. */
  ghost function Described(s: Sys, i: int): int
    requires SizedSys(s) && Whole(s, i)
  {
    var p := s.pt.tab[i];
    if s.k.sq[p.rsem] != [] then -|s.k.sq[p.rsem]| else |p.list| + |s.k.sq[p.ssem]|
  }

  /** ptcount returns that exactly if receivers are blocked, or no receiver has been let through that
      has not yet taken its message and none was killed there. */
  lemma CountAsDescribed(s: Sys, i: int)
    requires Inv(s) && Whole(s, i)
    ensures PortState.PtCount(s, i) == Described(s, i) <==>
            s.k.sq[s.pt.tab[i].rsem] != [] || (ReceiversThrough(s, i) == 0 && s.pt.hist[i].lostR == 0)
  {
    CountExact(s, i);
    TokensConserved(s, i);
    hide Inv, Granted;
  }
}
