/**
 Ports: bounded mailboxes for many senders and many receivers, each made of two
 semaphores and a list of message nodes drawn from one global free list.
 `owner` and `hist` are bookkeeping of the model: who created each semaphore, and
 what has happened to each port since its sequence number last changed.
 */
module PortState {
  import opened Sequences
  import opened QueueTables
  import opened KernelState

  datatype Port = Port(state: PtState, ssem: int, rsem: int, list: seq<int>, linked: bool, seqno: int, maxcnt: int)

  datatype Owner = UserSem | SendSide(port: int) | RecvSide(port: int)

  /** accepted and received: the messages of the present epoch, in order; lostS and lostR: how many
      processes were killed after a semaphore had let them through and before they went on. */
  datatype History = History(accepted: seq<int>, received: seq<int>, lostS: int, lostR: int)

  datatype Stop = Running | OutOfNodes | NullHead

  datatype PState = PState(
    tab: seq<Port>, msgs: seq<int>, free: seq<int>, nextid: int, stop: Stop,
    hist: seq<History>, disposed: seq<int>)

  datatype Sys = Sys(k: KState, pt: PState, owner: seq<Owner>)

  const NewEpoch: History := History([], [], 0, 0)

  ghost predicate NodesWithin(pt: PState) {
    && Within(pt.free, |pt.msgs|)
    && (forall i :: 0 <= i < |pt.tab| ==> Within(pt.tab[i].list, |pt.msgs|))
  }

  ghost predicate SizedSys(s: Sys) {
    && Sized(s.k) && |s.pt.hist| == |s.pt.tab| && |s.owner| == |s.k.sems| && NodesWithin(s.pt)
  }

  predicate IsOpen(pt: PState, i: int) {
    0 <= i < |pt.tab| && pt.tab[i].state == PtAlloc
  }

  /** A process past its semaphore may go on only if the port is still in the epoch it entered. */
  predicate Current(pt: PState, i: int, e: int) {
    IsOpen(pt, i) && pt.tab[i].seqno == e
  }

  function Contents(list: seq<int>, msgs: seq<int>): (r: seq<int>)
    requires Within(list, |msgs|)
    ensures |r| == |list|
  {
    seq(|list|, a requires 0 <= a < |list| => msgs[list[a]])
  }

  function Return(s: Sys, rv: int): (r: Sys)
    requires SizedSys(s)
    ensures SizedSys(r)
  {
    s.(k := SetCont(s.k, s.k.curr, User(rv)))
  }

  /** ptsend and ptrecv up to the return from wait. */
  function Enter(s: Sys, sem: int, c: Cont): (r: Sys)
    requires SizedSys(s)
    ensures SizedSys(r)
  {
    if BadSem(s.k, sem) then Return(s, SYSERR)
    else s.(k := SemWait(SetCont(s.k, s.k.curr, c), sem))
  }

  function PtSend(s: Sys, i: int, m: int): (r: Sys)
    requires SizedSys(s)
    ensures SizedSys(r)
  {
    if !IsOpen(s.pt, i) then Return(s, SYSERR)
    else Enter(s, s.pt.tab[i].ssem, InSend(i, s.pt.tab[i].seqno, m))
  }

  function PtRecv(s: Sys, i: int): (r: Sys)
    requires SizedSys(s)
    ensures SizedSys(r)
  {
    if !IsOpen(s.pt, i) then Return(s, SYSERR)
    else Enter(s, s.pt.tab[i].rsem, InRecv(i, s.pt.tab[i].seqno))
  }

  /** The head free node takes the message and goes to the end of the port's list. */
  function Append(pt: PState, i: int, m: int): (r: PState)
    requires NodesWithin(pt) && |pt.hist| == |pt.tab| && 0 <= i < |pt.tab| && pt.free != []
    ensures NodesWithin(r) && |r.hist| == |r.tab| == |pt.tab|
  {
    var n := pt.free[0];
    pt.(msgs := pt.msgs[n := m], free := pt.free[1..],
        tab := pt.tab[i := pt.tab[i].(list := pt.tab[i].list + [n])],
        hist := pt.hist[i := pt.hist[i].(accepted := pt.hist[i].accepted + [m])])
  }

  /** The head of the port's list goes to the front of the free list. */
  function TakeHead(pt: PState, i: int): (r: PState)
    requires NodesWithin(pt) && |pt.hist| == |pt.tab| && 0 <= i < |pt.tab| && pt.tab[i].list != []
    ensures NodesWithin(r) && |r.hist| == |r.tab| == |pt.tab|
  {
    var n := pt.tab[i].list[0];
    pt.(free := [n] + pt.free,
        tab := pt.tab[i := pt.tab[i].(list := pt.tab[i].list[1..])],
        hist := pt.hist[i := pt.hist[i].(received := pt.hist[i].received + [pt.msgs[n]])])
  }

  function Halt(s: Sys, why: Stop): (r: Sys)
    requires SizedSys(s)
    ensures SizedSys(r)
  {
    s.(k := s.k.(halted := true), pt := s.pt.(stop := why))
  }

  /** The rest of ptsend: the checks, the append and the signal to receivers. */
  function SendEnd(s: Sys, i: int, e: int, m: int): (r: Sys)
    requires SizedSys(s)
    ensures SizedSys(r)
  {
    if !Current(s.pt, i, e) then Return(s, SYSERR)
    else if s.pt.free == [] then Halt(s, OutOfNodes)
    else s.(pt := Append(s.pt, i, m),
            k := Signal(SetCont(s.k, s.k.curr, User(OK)), s.pt.tab[i].rsem))
  }

  /** The rest of ptrecv. Reading through an empty list would be a NULL dereference. */
  function RecvEnd(s: Sys, i: int, e: int): (r: Sys)
    requires SizedSys(s)
    ensures SizedSys(r)
  {
    if !Current(s.pt, i, e) then Return(s, SYSERR)
    else if s.pt.tab[i].list == [] then Halt(s, NullHead)
    else s.(pt := TakeHead(s.pt, i),
            k := Signal(SetCont(s.k, s.k.curr, User(s.pt.msgs[s.pt.tab[i].list[0]])), s.pt.tab[i].ssem))
  }

  /** The port in limbo: next sequence number, messages disposed of, nodes back on the free list. */
  function Flush(pt: PState, i: int, ns: PtState): (r: PState)
    requires NodesWithin(pt) && |pt.hist| == |pt.tab| && 0 <= i < |pt.tab|
    ensures NodesWithin(r) && |r.hist| == |r.tab| == |pt.tab|
  {
    var p := pt.tab[i];
    pt.(tab := pt.tab[i := p.(state := PtLimbo, seqno := p.seqno + 1, list := [], linked := ns == PtAlloc)],
        free := p.list + pt.free,
        disposed := pt.disposed + Contents(p.list, pt.msgs),
        hist := pt.hist[i := NewEpoch])
  }

  /** One of the two semaphores of a port being cleared. */
  function ClearSem(s: Sys, sem: int, ns: PtState, count: int): (r: Sys)
    requires SizedSys(s)
    ensures SizedSys(r) && r.pt == s.pt
  {
    if ns == PtAlloc then s.(k := SemReset(s.k, sem, count))
    else s.(k := SemDelete(s.k, sem), owner := if BadSem(s.k, sem) then s.owner else s.owner[sem := UserSem])
  }

  /** ptreset and ptdelete up to the first semaphore, whose waiters may get the processor. */
  function PtClear(s: Sys, i: int, ns: PtState): (r: Sys)
    requires SizedSys(s)
    ensures SizedSys(r)
  {
    if !IsOpen(s.pt, i) then Return(s, SYSERR)
    else
      var p := s.pt.tab[i];
      ClearSem(s.(pt := Flush(s.pt, i, ns), k := SetCont(s.k, s.k.curr, InClear(i, ns, 1))), p.ssem, ns, p.maxcnt)
  }

  /** The second semaphore, and then the new state. */
  function ClearEnd(s: Sys, i: int, ns: PtState, phase: int): (r: Sys)
    requires SizedSys(s) && 0 <= i < |s.pt.tab|
    ensures SizedSys(r)
  {
    if phase == 1 then
      ClearSem(s.(k := SetCont(s.k, s.k.curr, InClear(i, ns, 2))), s.pt.tab[i].rsem, ns, 0)
    else
      Return(s.(pt := s.pt.(tab := s.pt.tab[i := s.pt.tab[i].(state := ns)],
                            nextid := if ns == PtFree then i else s.pt.nextid)), OK)
  }

  function FindPort(tab: seq<Port>, next: int, n: nat): (i: int)
    requires 0 <= next < |tab|
    ensures i == SYSERR || (0 <= i < |tab| && tab[i].state == PtFree)
    decreases n
  {
    if n == 0 then SYSERR
    else if tab[next].state == PtFree then next
    else FindPort(tab, Next(next, |tab|), n - 1)
  }

  /** semcreate for one side of a port; the side is left without a semaphore if none is free. */
  function Claim(k: KState, owner: seq<Owner>, count: int, o: Owner): (r: (KState, seq<Owner>, int))
    requires Sized(k) && |owner| == |k.sems|
    ensures Sized(r.0) && |r.1| == |r.0.sems| == |k.sems|
  {
    var sem := if count < 0 then SYSERR else NewSem(k);
    (SemCreate(k, count), if sem == SYSERR then owner else owner[sem := o], sem)
  }

  /** Entry i becomes an open port of a new epoch. */
  function OpenPort(s: Sys, count: int, i: int): (r: Sys)
    requires SizedSys(s) && 0 <= i < |s.pt.tab|
    ensures SizedSys(r)
  {
    var (k1, o1, ssem) := Claim(s.k, s.owner, count, SendSide(i));
    var (k2, o2, rsem) := Claim(k1, o1, 0, RecvSide(i));
    var p := Port(PtAlloc, ssem, rsem, [], true, s.pt.tab[i].seqno + 1, count);
    var pt := s.pt.(tab := s.pt.tab[i := p], nextid := Next(i, |s.pt.tab|), hist := s.pt.hist[i := NewEpoch]);
    Return(Sys(k2, pt, o2), i)
  }

  function PtCreate(s: Sys, count: int): (r: Sys)
    requires SizedSys(s)
    ensures SizedSys(r)
  {
    if count < 0 || !(0 <= s.pt.nextid < |s.pt.tab|) then Return(s, SYSERR)
    else
      var i := FindPort(s.pt.tab, s.pt.nextid, |s.pt.tab|);
      if i == SYSERR then Return(s, SYSERR) else OpenPort(s, count, i)
  }

  /** ptcount: the count of the receivers' semaphore, plus blocked senders when it is not negative. */
  function PtCount(s: Sys, i: int): int {
    if !IsOpen(s.pt, i) || BadSem(s.k, s.pt.tab[i].rsem) then SYSERR
    else
      var count := s.k.sems[s.pt.tab[i].rsem].count;
      if count < 0 then count
      else
        var sndcnt := if BadSem(s.k, s.pt.tab[i].ssem) then SYSERR else s.k.sems[s.pt.tab[i].ssem].count;
        if sndcnt < 0 then count - sndcnt else count
  }

  /** Whether process p has got through the semaphore of its port in the present epoch. */
  predicate IsGranted(sq: seq<seq<int>>, conts: seq<Cont>, pt: PState, p: int, send: bool)
  {
    && 0 <= p < |conts|
    && Through(conts[p], send, pt)
    && (var sem := SemOf(pt.tab[conts[p].port], send);
        0 <= sem < |sq| ==> p !in sq[sem])
  }

  function SemOf(p: Port, send: bool): int { if send then p.ssem else p.rsem }

  predicate Through(c: Cont, send: bool, pt: PState) {
    if send then c.InSend? && Current(pt, c.port, c.seqno) else c.InRecv? && Current(pt, c.port, c.seqno)
  }

  /** The record of a granted process that is killed: its token is lost. */
  function AfterLoss(sq: seq<seq<int>>, conts: seq<Cont>, pt: PState, v: int): (h: seq<History>)
    requires |pt.hist| == |pt.tab| && 0 <= v < |conts|
    ensures |h| == |pt.hist|
  {
    if IsGranted(sq, conts, pt, v, true) then
      var i := conts[v].port;
      pt.hist[i := pt.hist[i].(lostS := pt.hist[i].lostS + 1)]
    else if IsGranted(sq, conts, pt, v, false) then
      var i := conts[v].port;
      pt.hist[i := pt.hist[i].(lostR := pt.hist[i].lostR + 1)]
    else pt.hist
  }

  /** The end of kill, with the loss of a granted victim noted. */
  function PtKillEnd(s: Sys, v: int): (r: Sys)
    requires SizedSys(s) && 0 <= v < |s.k.procs|
    ensures SizedSys(r)
  {
    s.(k := KillEnd(s.k, v), pt := s.pt.(hist := AfterLoss(s.k.sq, s.k.conts, s.pt, v)))
  }

  /** ptinit: all ports free, all nodes on the free list. */
  function InitialPorts(nports: nat, maxmsgs: nat): (pt: PState)
    ensures NodesWithin(pt) && |pt.hist| == |pt.tab|
  {
    PState(Repeat(nports, Port(PtFree, 0, 0, [], false, 0, 0)), Repeat(maxmsgs, 0), UpTo(maxmsgs), 0, Running,
           Repeat(nports, NewEpoch), [])
  }

  function Initial(k: KState, nports: nat, maxmsgs: nat): (s: Sys)
    requires Sized(k)
    ensures SizedSys(s)
  {
    Sys(k, InitialPorts(nports, maxmsgs), Repeat(|k.sems|, UserSem))
  }
}
