/**
 What every step of the port protocol keeps. The statements speak only of semaphores,
 their queues and continuations, so no scheduling decision can affect them.
 */
module PortInvariants {
  import opened Sequences
  import opened QueueTables
  import opened KernelState
  import opened PortState

  datatype Waits = Waits(sems: seq<Sem>, sq: seq<seq<int>>, conts: seq<Cont>)

  function W(k: KState): Waits { Waits(k.sems, k.sq, k.conts) }

  ghost predicate WaitsOk(w: Waits) {
    && |w.sq| == |w.sems|
    && (forall j :: 0 <= j < |w.sq| ==> NoDup(w.sq[j]) && Within(w.sq[j], |w.conts|))
    && (forall p, j, l :: 0 <= j < |w.sq| && 0 <= l < |w.sq| && p in w.sq[j] && p in w.sq[l] ==> j == l)
    && (forall j :: 0 <= j < |w.sq| ==>
          && (w.sems[j].count >= 0 ==> w.sq[j] == [])
          && (w.sems[j].count < 0 ==> w.sems[j].used && |w.sq[j]| == -w.sems[j].count))
  }

  ghost predicate Blocked(w: Waits, p: int) {
    exists j :: 0 <= j < |w.sq| && p in w.sq[j]
  }

  // ----- what the semaphore operations do to waiting processes

  function WWait(w: Waits, c: int, s: int): Waits
    requires 0 <= s < |w.sems| == |w.sq|
  {
    var n := w.sems[s].count - 1;
    w.(sems := w.sems[s := w.sems[s].(count := n)],
       sq := if n < 0 then w.sq[s := w.sq[s] + [c]] else w.sq)
  }

  function WSignal(w: Waits, s: int): Waits
    requires 0 <= s < |w.sems| == |w.sq|
  {
    var n := w.sems[s].count;
    w.(sems := w.sems[s := w.sems[s].(count := n + 1)],
       sq := if n < 0 && w.sq[s] != [] then w.sq[s := w.sq[s][1..]] else w.sq)
  }

  function WReset(w: Waits, s: int, c: int): Waits
    requires 0 <= s < |w.sems| == |w.sq|
  {
    w.(sems := w.sems[s := w.sems[s].(count := c)], sq := w.sq[s := []])
  }

  function WDelete(w: Waits, s: int): Waits
    requires 0 <= s < |w.sems| == |w.sq|
  {
    var c := w.sems[s].count;
    w.(sems := w.sems[s := Sem(false, if c < 0 then 1 else c + 1)], sq := w.sq[s := []])
  }

  function WLeave(w: Waits, s: int, p: int): Waits
    requires 0 <= s < |w.sems| == |w.sq|
  {
    w.(sems := w.sems[s := w.sems[s].(count := w.sems[s].count + 1)], sq := w.sq[s := Without(w.sq[s], p)])
  }

  // ----- processes that a semaphore has let through

  /** Processes in the middle of ptsend (or ptrecv) on port i in epoch e that are not queued in q. */
  ghost predicate Match(c: Cont, send: bool, i: int, e: int) {
    if send then c.InSend? && c.port == i && c.seqno == e else c.InRecv? && c.port == i && c.seqno == e
  }

  ghost function Granted(conts: seq<Cont>, q: seq<int>, send: bool, i: int, e: int): nat
    decreases |conts|
  {
    if conts == [] then 0
    else
      var p := |conts| - 1;
      Granted(conts[..p], q, send, i, e) + if Match(conts[p], send, i, e) && p !in q then 1 else 0
  }

  ghost predicate Counts(conts: seq<Cont>, q: seq<int>, send: bool, i: int, e: int, p: int)
    requires 0 <= p < |conts|
  {
    Match(conts[p], send, i, e) && p !in q
  }

  lemma {:induction false} GrantedSame(conts: seq<Cont>, q: seq<int>, conts': seq<Cont>, q': seq<int>,
      send: bool, i: int, e: int)
    requires |conts'| == |conts|
    requires forall p :: 0 <= p < |conts| ==> (Counts(conts, q, send, i, e, p) <==> Counts(conts', q', send, i, e, p))
    ensures Granted(conts', q', send, i, e) == Granted(conts, q, send, i, e)
    decreases |conts|
  {
    if conts != [] {
      var n := |conts| - 1;
      assert Counts(conts, q, send, i, e, n) <==> Counts(conts', q', send, i, e, n);
      forall p | 0 <= p < n
        ensures Counts(conts[..n], q, send, i, e, p) <==> Counts(conts'[..n], q', send, i, e, p)
      {
        assert Counts(conts, q, send, i, e, p) <==> Counts(conts', q', send, i, e, p);
      }
      GrantedSame(conts[..n], q, conts'[..n], q', send, i, e);
    }
  }

  /** Exactly one process starts to count. */
  lemma {:induction false} GrantedMore(conts: seq<Cont>, q: seq<int>, conts': seq<Cont>, q': seq<int>,
      send: bool, i: int, e: int, x: int)
    requires |conts'| == |conts| && 0 <= x < |conts|
    requires forall p :: 0 <= p < |conts| && p != x ==>
        (Counts(conts, q, send, i, e, p) <==> Counts(conts', q', send, i, e, p))
    requires !Counts(conts, q, send, i, e, x) && Counts(conts', q', send, i, e, x)
    ensures Granted(conts', q', send, i, e) == Granted(conts, q, send, i, e) + 1
    decreases |conts|
  {
    var n := |conts| - 1;
    assert n != x ==> (Counts(conts, q, send, i, e, n) <==> Counts(conts', q', send, i, e, n));
    forall p | 0 <= p < n && p != x
      ensures Counts(conts[..n], q, send, i, e, p) <==> Counts(conts'[..n], q', send, i, e, p)
    {
      assert Counts(conts, q, send, i, e, p) <==> Counts(conts', q', send, i, e, p);
    }
    if n == x {
      GrantedSame(conts[..n], q, conts'[..n], q', send, i, e);
    } else {
      GrantedMore(conts[..n], q, conts'[..n], q', send, i, e, x);
    }
  }

  lemma {:induction false} GrantedNone(conts: seq<Cont>, q: seq<int>, send: bool, i: int, e: int)
    requires forall p :: 0 <= p < |conts| ==> !Counts(conts, q, send, i, e, p)
    ensures Granted(conts, q, send, i, e) == 0
    decreases |conts|
  {
    if conts != [] {
      var n := |conts| - 1;
      assert !Counts(conts, q, send, i, e, n);
      forall p | 0 <= p < n ensures !Counts(conts[..n], q, send, i, e, p) {
        assert !Counts(conts, q, send, i, e, p);
      }
      GrantedNone(conts[..n], q, send, i, e);
    }
  }

  lemma {:induction false} GrantedSome(conts: seq<Cont>, q: seq<int>, send: bool, i: int, e: int, x: int)
    requires 0 <= x < |conts| && Counts(conts, q, send, i, e, x)
    ensures Granted(conts, q, send, i, e) >= 1
    decreases |conts|
  {
    var n := |conts| - 1;
    if n != x {
      assert Counts(conts[..n], q, send, i, e, x);
      GrantedSome(conts[..n], q, send, i, e, x);
    }
  }

  // ----- the invariant

  predicate PortCont(c: Cont) { c.InSend? || c.InRecv? || c.InClear? }

  predicate PortSide(o: Owner) { o.SendSide? || o.RecvSide? }

  ghost predicate Shapes(w: Waits, pt: PState, owner: seq<Owner>) {
    && WaitsOk(w) && |owner| == |w.sems| && |pt.hist| == |pt.tab| && NodesWithin(pt)
    && (|pt.tab| > 0 ==> 0 <= pt.nextid < |pt.tab|)
  }

  predicate HasSem(w: Waits, j: int) { 0 <= j < |w.sems| }

  /** A semaphore that a port created is that port's, is in use, and holds only processes
      that are inside ptsend (ptrecv) on that port and in its latest epoch. */
  ghost predicate SemOk(w: Waits, pt: PState, owner: seq<Owner>, j: int)
    requires Shapes(w, pt, owner) && 0 <= j < |w.sems|
  {
    match owner[j]
    case UserSem => forall p :: p in w.sq[j] ==> !PortCont(w.conts[p])
    case SendSide(i) =>
      && 0 <= i < |pt.tab| && pt.tab[i].ssem == j && pt.tab[i].state != PtFree && w.sems[j].used
      && (forall p :: p in w.sq[j] ==>
            pt.tab[i].state == PtAlloc && Match(w.conts[p], true, i, pt.tab[i].seqno))
    case RecvSide(i) =>
      && 0 <= i < |pt.tab| && pt.tab[i].rsem == j && pt.tab[i].state != PtFree && w.sems[j].used
      && (forall p :: p in w.sq[j] ==>
            Match(w.conts[p], false, i, pt.tab[i].seqno - if pt.tab[i].state == PtLimbo then 1 else 0))
  }

  function Max0(c: int): int { if c < 0 then 0 else c }

  /** Every unit of the capacity is a free slot, a sender on its way, a message or a lost sender. */
  ghost predicate SendTokens(w: Waits, p: Port, h: History, i: int)
    requires HasSem(w, p.ssem) && |w.sq| == |w.sems|
  {
    Max0(w.sems[p.ssem].count) + Granted(w.conts, w.sq[p.ssem], true, i, p.seqno) + |p.list| + h.lostS == p.maxcnt
  }

  /** Every message is one that the receivers' semaphore counts, that a receiver is on its way
      to, or that was left behind by a lost receiver. */
  ghost predicate RecvTokens(w: Waits, p: Port, h: History, i: int)
    requires HasSem(w, p.rsem) && |w.sq| == |w.sems|
  {
    Max0(w.sems[p.rsem].count) + Granted(w.conts, w.sq[p.rsem], false, i, p.seqno) + h.lostR == |p.list|
  }

  ghost predicate PortOk(w: Waits, pt: PState, owner: seq<Owner>, i: int)
    requires Shapes(w, pt, owner) && 0 <= i < |pt.tab|
  {
    var p, h := pt.tab[i], pt.hist[i];
    && (p.state != PtAlloc ==> p.list == [])
    && (p.state == PtLimbo ==> h == NewEpoch)
    && (p.state == PtAlloc ==>
          && p.linked && p.maxcnt >= 0 && h.lostS >= 0 && h.lostR >= 0
          && h.accepted == h.received + Contents(p.list, pt.msgs)
          && (if HasSem(w, p.ssem) then owner[p.ssem] == SendSide(i) && SendTokens(w, p, h, i) else p.list == [])
          && (HasSem(w, p.rsem) ==> owner[p.rsem] == RecvSide(i) && RecvTokens(w, p, h, i)))
  }

  /** A continuation of an earlier epoch stays one; only the process that clears a port can
      bring it out of limbo, and it finds the semaphores as it left them. */
  ghost predicate ContOk(w: Waits, pt: PState, owner: seq<Owner>, c: Cont)
    requires Shapes(w, pt, owner)
  {
    match c
    case InSend(i, e, _) =>
      && 0 <= i < |pt.tab| && e <= pt.tab[i].seqno
      && (e == pt.tab[i].seqno ==> pt.tab[i].state == PtAlloc && HasSem(w, pt.tab[i].ssem))
    case InRecv(i, e) =>
      && 0 <= i < |pt.tab| && e <= pt.tab[i].seqno
      && (e == pt.tab[i].seqno ==> pt.tab[i].state == PtAlloc && HasSem(w, pt.tab[i].rsem))
    case InClear(i, ns, phase) =>
      && 0 <= i < |pt.tab| && pt.tab[i].state == PtLimbo && (phase == 1 || phase == 2)
      && (ns == PtAlloc || ns == PtFree)
      && (var p := pt.tab[i];
          && (ns == PtAlloc ==> p.linked && p.maxcnt >= 0)
          && (HasSem(w, p.ssem) ==>
                if ns == PtAlloc then owner[p.ssem] == SendSide(i) && w.sems[p.ssem].count == p.maxcnt
                else owner[p.ssem] != SendSide(i))
          && (HasSem(w, p.rsem) ==>
                && (phase == 1 ==> owner[p.rsem] == RecvSide(i))
                && (phase == 2 ==> if ns == PtAlloc then owner[p.rsem] == RecvSide(i) && w.sems[p.rsem].count == 0
                                   else owner[p.rsem] != RecvSide(i))))
    case _ => true
  }

  ghost predicate OneClearer(w: Waits) {
    forall p, q ::
      (0 <= p < |w.conts| && 0 <= q < |w.conts| && w.conts[p].InClear? && w.conts[q].InClear?
       && w.conts[p].port == w.conts[q].port) ==> p == q
  }

  ghost function SumLens(tab: seq<Port>): nat {
    if tab == [] then 0 else SumLens(tab[..|tab| - 1]) + |tab[|tab| - 1].list|
  }

  /** Every node is on exactly one list. */
  ghost predicate NodesOk(pt: PState)
  {
    && NodesWithin(pt) && NoDup(pt.free)
    && (forall i :: 0 <= i < |pt.tab| ==> NoDup(pt.tab[i].list))
    && (forall i, x :: 0 <= i < |pt.tab| && x in pt.tab[i].list ==> x !in pt.free)
    && (forall i, j, x :: 0 <= i < |pt.tab| && 0 <= j < |pt.tab| && x in pt.tab[i].list && x in pt.tab[j].list ==>
          i == j)
    && |pt.free| + SumLens(pt.tab) == |pt.msgs|
  }

  ghost predicate PInv(w: Waits, pt: PState, owner: seq<Owner>) {
    && Shapes(w, pt, owner) && NodesOk(pt) && OneClearer(w)
    && (forall j :: 0 <= j < |w.sems| ==> SemOk(w, pt, owner, j))
    && (forall i :: 0 <= i < |pt.tab| ==> PortOk(w, pt, owner, i))
    && (forall p :: 0 <= p < |w.conts| ==> ContOk(w, pt, owner, w.conts[p]))
  }

  // ----- steps that leave every port alone

  predicate Concerns(c: Cont, i: int) {
    PortCont(c) && c.port == i
  }

  /** Port i is untouched by a step that changes neither its entry, its semaphores, its messages
      nor the continuations inside it. */
  lemma PortFrame(w: Waits, pt: PState, owner: seq<Owner>, w': Waits, pt': PState, owner': seq<Owner>, i: int)
    requires Shapes(w, pt, owner) && Shapes(w', pt', owner') && 0 <= i < |pt.tab| == |pt'.tab|
    requires PortOk(w, pt, owner, i)
    requires |w'.sems| == |w.sems| && |w'.conts| == |w.conts|
    requires pt'.tab[i] == pt.tab[i] && pt'.hist[i] == pt.hist[i]
    requires Contents(pt.tab[i].list, pt.msgs) == Contents(pt'.tab[i].list, pt'.msgs)
    requires forall j :: 0 <= j < |w.sems| && (owner[j] == SendSide(i) || owner[j] == RecvSide(i)) ==>
        owner'[j] == owner[j] && w'.sems[j] == w.sems[j] && w'.sq[j] == w.sq[j]
    requires forall p :: 0 <= p < |w.conts| && (Concerns(w.conts[p], i) || Concerns(w'.conts[p], i)) ==>
        w'.conts[p] == w.conts[p]
    ensures PortOk(w', pt', owner', i)
  {
    var p := pt.tab[i];
    if p.state == PtAlloc {
      if HasSem(w, p.ssem) {
        GrantedSame(w.conts, w.sq[p.ssem], w'.conts, w'.sq[p.ssem], true, i, p.seqno);
      }
      if HasSem(w, p.rsem) {
        GrantedSame(w.conts, w.sq[p.rsem], w'.conts, w'.sq[p.rsem], false, i, p.seqno);
      }
    }
  }

  lemma NonPortStep(w: Waits, pt: PState, owner: seq<Owner>, w': Waits)
    requires PInv(w, pt, owner) && WaitsOk(w')
    requires |w'.sems| == |w.sems| && |w'.conts| == |w.conts|
    requires forall j :: 0 <= j < |w.sems| && PortSide(owner[j]) ==> w'.sems[j] == w.sems[j] && w'.sq[j] == w.sq[j]
    requires forall j, p :: 0 <= j < |w.sems| && !PortSide(owner[j]) && p in w'.sq[j] ==> !PortCont(w'.conts[p])
    requires forall p :: 0 <= p < |w.conts| && (PortCont(w.conts[p]) || PortCont(w'.conts[p])) ==>
        w'.conts[p] == w.conts[p]
    ensures PInv(w', pt, owner)
  {
    forall i | 0 <= i < |pt.tab| ensures PortOk(w', pt, owner, i) {
      PortFrame(w, pt, owner, w', pt, owner, i);
    }
    hide PortOk;
    forall p | 0 <= p < |w'.conts| ensures ContOk(w', pt, owner, w'.conts[p]) {
      assert ContOk(w, pt, owner, w.conts[p]);
      var c := w'.conts[p];
      if c.InClear? {
        var q := pt.tab[c.port];
        assert HasSem(w, q.ssem) ==> SemOk(w, pt, owner, q.ssem);
        assert HasSem(w, q.rsem) ==> SemOk(w, pt, owner, q.rsem);
      }
    }
    forall j | 0 <= j < |w'.sems| ensures SemOk(w', pt, owner, j) {
      assert SemOk(w, pt, owner, j);
    }
  }

  /** The two semaphores of an open port are its own. */
  lemma OpenSides(w: Waits, pt: PState, owner: seq<Owner>, i: int)
    requires PInv(w, pt, owner) && IsOpen(pt, i)
    ensures HasSem(w, pt.tab[i].ssem) ==> owner[pt.tab[i].ssem] == SendSide(i) && w.sems[pt.tab[i].ssem].used
    ensures HasSem(w, pt.tab[i].rsem) ==> owner[pt.tab[i].rsem] == RecvSide(i) && w.sems[pt.tab[i].rsem].used
  {
    assert PortOk(w, pt, owner, i);
    hide PortOk, ContOk;
    assert HasSem(w, pt.tab[i].ssem) ==> SemOk(w, pt, owner, pt.tab[i].ssem);
    assert HasSem(w, pt.tab[i].rsem) ==> SemOk(w, pt, owner, pt.tab[i].rsem);
  }

  // ----- ptsend and ptrecv

  /** A process enters ptsend or ptrecv and is let through or queued. */
  lemma EnterStep(w: Waits, pt: PState, owner: seq<Owner>, x: int, i: int, send: bool, c: Cont, w': Waits)
    requires PInv(w, pt, owner) && WaitsOk(w')
    requires 0 <= x < |w.conts| && !PortCont(w.conts[x]) && !Blocked(w, x)
    requires IsOpen(pt, i) && Match(c, send, i, pt.tab[i].seqno)
    requires var sem := if send then pt.tab[i].ssem else pt.tab[i].rsem;
             HasSem(w, sem) && w' == WWait(w.(conts := w.conts[x := c]), x, sem)
    ensures PInv(w', pt, owner)
  {
    assert forall l :: 0 <= l < |pt.tab| ==> PortOk(w', pt, owner, l) by {
      hide SemOk, ContOk;
      EnterPorts(w, pt, owner, x, i, send, c, w');
    }
    var sem := if send then pt.tab[i].ssem else pt.tab[i].rsem;
    assert owner[sem] == if send then SendSide(i) else RecvSide(i) by {
      assert PortOk(w, pt, owner, i);
    }
    hide PortOk;
    assert forall q :: 0 <= q < |w'.conts| ==> ContOk(w', pt, owner, w'.conts[q]) by {
      hide SemOk;
      EnterConts(w, pt, owner, x, i, send, c, w');
    }
    hide ContOk;
    forall j | 0 <= j < |w'.sems| ensures SemOk(w', pt, owner, j) {
      assert SemOk(w, pt, owner, j);
    }
  }

  lemma EnterConts(w: Waits, pt: PState, owner: seq<Owner>, x: int, i: int, send: bool, c: Cont, w': Waits)
    requires PInv(w, pt, owner) && WaitsOk(w')
    requires 0 <= x < |w.conts|
    requires IsOpen(pt, i) && Match(c, send, i, pt.tab[i].seqno)
    requires var sem := if send then pt.tab[i].ssem else pt.tab[i].rsem;
             HasSem(w, sem) && w' == WWait(w.(conts := w.conts[x := c]), x, sem)
    ensures forall q :: 0 <= q < |w'.conts| ==> ContOk(w', pt, owner, w'.conts[q])
  {
    var sem := if send then pt.tab[i].ssem else pt.tab[i].rsem;
    assert owner[sem] == if send then SendSide(i) else RecvSide(i) by {
      assert PortOk(w, pt, owner, i);
    }
    hide PortOk, SemOk;
    forall q | 0 <= q < |w'.conts| ensures ContOk(w', pt, owner, w'.conts[q]) {
      assert ContOk(w, pt, owner, w.conts[q]);
    }
  }

  lemma EnterPorts(w: Waits, pt: PState, owner: seq<Owner>, x: int, i: int, send: bool, c: Cont, w': Waits)
    requires PInv(w, pt, owner) && WaitsOk(w')
    requires 0 <= x < |w.conts| && !PortCont(w.conts[x]) && !Blocked(w, x)
    requires IsOpen(pt, i) && Match(c, send, i, pt.tab[i].seqno)
    requires var sem := if send then pt.tab[i].ssem else pt.tab[i].rsem;
             HasSem(w, sem) && w' == WWait(w.(conts := w.conts[x := c]), x, sem)
    ensures forall l :: 0 <= l < |pt.tab| ==> PortOk(w', pt, owner, l)
  {
    hide SemOk, ContOk, NodesOk;
    var p := pt.tab[i];
    var sem := if send then p.ssem else p.rsem;
    assert PortOk(w, pt, owner, i);
    forall l | 0 <= l < |pt.tab| ensures PortOk(w', pt, owner, l) {
      if l != i {
        PortFrame(w, pt, owner, w', pt, owner, l);
      } else {
        if w.sems[sem].count > 0 {
          GrantedMore(w.conts, w.sq[sem], w'.conts, w'.sq[sem], send, i, p.seqno, x);
        } else {
          GrantedSame(w.conts, w.sq[sem], w'.conts, w'.sq[sem], send, i, p.seqno);
        }
        if send && HasSem(w, p.rsem) {
          GrantedSame(w.conts, w.sq[p.rsem], w'.conts, w'.sq[p.rsem], false, i, p.seqno);
        }
        if !send && HasSem(w, p.ssem) {
          GrantedSame(w.conts, w.sq[p.ssem], w'.conts, w'.sq[p.ssem], true, i, p.seqno);
        }
      }
    }
  }

  /** A process of an earlier epoch leaves; nothing that belongs to a port notices. */
  lemma StaleStep(w: Waits, pt: PState, owner: seq<Owner>, x: int, rv: int)
    requires PInv(w, pt, owner) && 0 <= x < |w.conts| && !Blocked(w, x)
    requires (w.conts[x].InSend? || w.conts[x].InRecv?) && !Current(pt, w.conts[x].port, w.conts[x].seqno)
    ensures PInv(w.(conts := w.conts[x := User(rv)]), pt, owner)
  {
    var w' := w.(conts := w.conts[x := User(rv)]);
    assert ContOk(w, pt, owner, w.conts[x]);
    var i := w.conts[x].port;
    forall l | 0 <= l < |pt.tab| ensures PortOk(w', pt, owner, l) {
      assert PortOk(w, pt, owner, l);
      if l != i {
        PortFrame(w, pt, owner, w', pt, owner, l);
      } else {
        var p := pt.tab[l];
        if p.state == PtAlloc {
          if HasSem(w, p.ssem) {
            GrantedSame(w.conts, w.sq[p.ssem], w'.conts, w'.sq[p.ssem], true, l, p.seqno);
          }
          if HasSem(w, p.rsem) {
            GrantedSame(w.conts, w.sq[p.rsem], w'.conts, w'.sq[p.rsem], false, l, p.seqno);
          }
        }
      }
    }
    hide PortOk;
    forall q | 0 <= q < |w'.conts| ensures ContOk(w', pt, owner, w'.conts[q]) {
      assert ContOk(w, pt, owner, w.conts[q]);
    }
    forall j | 0 <= j < |w'.sems| ensures SemOk(w', pt, owner, j) {
      assert SemOk(w, pt, owner, j);
    }
  }

  // ----- nodes

  lemma {:induction false} SumLensUpdate(tab: seq<Port>, i: int, p: Port)
    requires 0 <= i < |tab|
    ensures SumLens(tab[i := p]) == SumLens(tab) - |tab[i].list| + |p.list|
    decreases |tab|
  {
    var n := |tab| - 1;
    if i == n {
      assert tab[i := p][..n] == tab[..n];
    } else {
      assert tab[i := p][..n] == tab[..n][i := p];
      SumLensUpdate(tab[..n], i, p);
    }
  }

  lemma AppendNodes(pt: PState, i: int, m: int)
    requires NodesOk(pt) && |pt.hist| == |pt.tab| && 0 <= i < |pt.tab| && pt.free != []
    ensures var r := Append(pt, i, m);
            && NodesOk(r)
            && Contents(r.tab[i].list, r.msgs) == Contents(pt.tab[i].list, pt.msgs) + [m]
            && (forall l :: 0 <= l < |pt.tab| && l != i ==>
                  Contents(r.tab[l].list, r.msgs) == Contents(pt.tab[l].list, pt.msgs))
  {
    var r := Append(pt, i, m);
    var n := pt.free[0];
    WithoutHead(pt.free);
    assert n in pt.free;
    SumLensUpdate(pt.tab, i, r.tab[i]);
    assert forall x :: x in r.tab[i].list <==> x in pt.tab[i].list || x == n;
    assert n !in pt.tab[i].list;
    assert NodesOk(r) by {
      hide Contents;
    }
    forall l, a | 0 <= l < |pt.tab| && 0 <= a < |pt.tab[l].list| ensures pt.tab[l].list[a] != n {
      assert pt.tab[l].list[a] in pt.tab[l].list;
    }
  }

  lemma TakeHeadNodes(pt: PState, i: int)
    requires NodesOk(pt) && |pt.hist| == |pt.tab| && 0 <= i < |pt.tab| && pt.tab[i].list != []
    ensures NodesOk(TakeHead(pt, i))
    ensures Contents(pt.tab[i].list, pt.msgs)
         == [pt.msgs[pt.tab[i].list[0]]] + Contents(TakeHead(pt, i).tab[i].list, pt.msgs)
  {
    hide Contents, SumLens, TakeHead;
    TakeHeadFree(pt, i);
    TakeHeadList(pt, i);
    TakeHeadContents(pt, i);
  }

  lemma TakeHeadContents(pt: PState, i: int)
    requires NodesWithin(pt) && |pt.hist| == |pt.tab| && 0 <= i < |pt.tab| && pt.tab[i].list != []
    ensures Contents(pt.tab[i].list, pt.msgs)
         == [pt.msgs[pt.tab[i].list[0]]] + Contents(TakeHead(pt, i).tab[i].list, pt.msgs)
  {
  }

  lemma TakeHeadList(pt: PState, i: int)
    requires NodesOk(pt) && |pt.hist| == |pt.tab| && 0 <= i < |pt.tab| && pt.tab[i].list != []
    ensures var r := TakeHead(pt, i);
            && |r.tab| == |pt.tab| && |r.msgs| == |pt.msgs| && |r.free| == |pt.free| + 1
            && SumLens(r.tab) == SumLens(pt.tab) - 1
            && NoDup(r.tab[i].list) && (forall x ::
                  x in r.tab[i].list <==> x in pt.tab[i].list && x != pt.tab[i].list[0])
            && (forall j :: 0 <= j < |pt.tab| && j != i ==> r.tab[j].list == pt.tab[j].list)
  {
    hide SumLens;
    WithoutHead(pt.tab[i].list);
    SumLensUpdate(pt.tab, i, TakeHead(pt, i).tab[i]);
  }

  lemma TakeHeadFree(pt: PState, i: int)
    requires NodesOk(pt) && |pt.hist| == |pt.tab| && 0 <= i < |pt.tab| && pt.tab[i].list != []
    ensures var r := TakeHead(pt, i);
            && NoDup(r.free) && (forall x :: x in r.free <==> x in pt.free || x == pt.tab[i].list[0])
  {
    var r := TakeHead(pt, i);
    assert pt.tab[i].list[0] in pt.tab[i].list;
    assert forall a :: 0 < a < |r.free| ==> r.free[a] == pt.free[a - 1] && r.free[a] in pt.free;
  }

  lemma FlushNodes(pt: PState, i: int, ns: PtState)
    requires NodesOk(pt) && |pt.hist| == |pt.tab| && 0 <= i < |pt.tab|
    ensures NodesOk(Flush(pt, i, ns))
  {
    var r := Flush(pt, i, ns);
    var l := pt.tab[i].list;
    SumLensUpdate(pt.tab, i, r.tab[i]);
    assert forall x :: x in r.free <==> x in l || x in pt.free;
    forall a, b | 0 <= a < b < |r.free| ensures r.free[a] != r.free[b] {
      assert a < |l| ==> r.free[a] in l;
      assert b >= |l| ==> r.free[b] in pt.free;
      assert a >= |l| ==> r.free[a] == pt.free[a - |l|] && r.free[b] == pt.free[b - |l|];
    }
  }

  // ----- the critical part of ptsend and of ptrecv

  /** The state of the waiting processes once process x has passed on its token. */
  function Passed(w: Waits, x: int, rv: int, other: int): Waits
    requires 0 <= x < |w.conts| && |w.sq| == |w.sems|
  {
    var w1 := w.(conts := w.conts[x := User(rv)]);
    if 0 <= other < |w.sems| then WSignal(w1, other) else w1
  }

  ghost predicate PassPre(w: Waits, pt: PState, owner: seq<Owner>, x: int, i: int, send: bool, rv: int,
      pt': PState, w': Waits) {
    && PInv(w, pt, owner) && WaitsOk(w') && 0 <= x < |w.conts| && !Blocked(w, x)
    && IsOpen(pt, i) && Match(w.conts[x], send, i, pt.tab[i].seqno)
    && (if send then pt.free != [] && pt' == Append(pt, i, w.conts[x].item)
        else pt.tab[i].list != [] && pt' == TakeHead(pt, i))
    && w' == Passed(w, x, rv, if send then pt.tab[i].rsem else pt.tab[i].ssem)
  }

  /** One token moves from the process to the list (or back) and on to the other semaphore. */
  lemma PassStep(w: Waits, pt: PState, owner: seq<Owner>, x: int, i: int, send: bool, rv: int, pt': PState, w': Waits)
    requires PassPre(w, pt, owner, x, i, send, rv, pt', w')
    ensures PInv(w', pt', owner)
  {
    hide PortOk, SemOk, NodesOk;
    PassPorts(w, pt, owner, x, i, send, rv, pt', w');
    PassSems(w, pt, owner, x, i, send, rv, pt', w');
    OpenSides(w, pt, owner, i);
    if send {
      AppendNodes(pt, i, w.conts[x].item);
    } else {
      TakeHeadNodes(pt, i);
    }
    forall q | 0 <= q < |w'.conts| ensures ContOk(w', pt', owner, w'.conts[q]) {
      assert ContOk(w, pt, owner, w.conts[q]);
      hide WaitsOk;
    }
    hide ContOk, WaitsOk;
  }

  lemma PassPorts(w: Waits, pt: PState, owner: seq<Owner>, x: int, i: int, send: bool, rv: int, pt': PState, w': Waits)
    requires PassPre(w, pt, owner, x, i, send, rv, pt', w')
    ensures Shapes(w', pt', owner) && |pt'.tab| == |pt.tab|
    ensures forall l :: 0 <= l < |pt.tab| ==> PortOk(w', pt', owner, l)
  {
    OpenSides(w, pt, owner, i);
    PassTokens(w, pt, owner, x, i, send, rv, pt', w');
    hide ContOk, SemOk;
    forall l | 0 <= l < |pt.tab| && l != i ensures PortOk(w', pt', owner, l) {
      assert PortOk(w, pt, owner, l);
      hide PortOk;
      if send {
        AppendNodes(pt, i, w.conts[x].item);
      }
      hide NodesOk;
      PortFrame(w, pt, owner, w', pt', owner, l);
    }
  }

  lemma PassTokens(w: Waits, pt: PState, owner: seq<Owner>, x: int, i: int, send: bool, rv: int, pt': PState, w': Waits)
    requires PassPre(w, pt, owner, x, i, send, rv, pt', w')
    ensures Shapes(w', pt', owner) && |pt'.tab| == |pt.tab| && PortOk(w', pt', owner, i)
  {
    hide SemOk, Granted, NodesOk;
    OpenSides(w, pt, owner, i);
    var p, own, other := pt.tab[i], SemOf(pt.tab[i], send), SemOf(pt.tab[i], !send);
    assert PortOk(w, pt, owner, i) && ContOk(w, pt, owner, w.conts[x]);
    if send {
      AppendNodes(pt, i, w.conts[x].item);
    } else {
      TakeHeadNodes(pt, i);
    }
    PassOwn(w, pt, owner, x, i, send, rv, pt', w');
    if HasSem(w, other) {
      PassOther(w, pt, owner, x, i, send, rv, pt', w');
    }
    assert Shapes(w', pt', owner) by {
      hide PortOk, SemOk, ContOk;
    }
    hide ContOk, PInv, WaitsOk, Passed;
  }

  /** At its own semaphore the process no longer counts. */
  lemma PassOwn(w: Waits, pt: PState, owner: seq<Owner>, x: int, i: int, send: bool, rv: int, pt': PState, w': Waits)
    requires PassPre(w, pt, owner, x, i, send, rv, pt', w') && HasSem(w, SemOf(pt.tab[i], send))
    ensures |w'.sems| == |w.sems| && |w'.conts| == |w.conts|
    ensures w'.sems[SemOf(pt.tab[i], send)] == w.sems[SemOf(pt.tab[i], send)]
    ensures Granted(w'.conts, w'.sq[SemOf(pt.tab[i], send)], send, i, pt.tab[i].seqno) + 1
         == Granted(w.conts, w.sq[SemOf(pt.tab[i], send)], send, i, pt.tab[i].seqno)
  {
    OpenSides(w, pt, owner, i);
    hide SemOk, ContOk, PortOk, NodesOk;
    var own := SemOf(pt.tab[i], send);
    GrantedMore(w'.conts, w'.sq[own], w.conts, w.sq[own], send, i, pt.tab[i].seqno, x);
  }

  /** The other semaphore lets one more process through, or counts one more unit. */
  lemma PassOther(w: Waits, pt: PState, owner: seq<Owner>, x: int, i: int, send: bool, rv: int, pt': PState, w': Waits)
    requires PassPre(w, pt, owner, x, i, send, rv, pt', w')
    requires HasSem(w, SemOf(pt.tab[i], !send))
    ensures |w'.sems| == |w.sems| && w'.sems[SemOf(pt.tab[i], !send)].used == w.sems[SemOf(pt.tab[i], !send)].used
    ensures Max0(w'.sems[SemOf(pt.tab[i], !send)].count)
          + Granted(w'.conts, w'.sq[SemOf(pt.tab[i], !send)], !send, i, pt.tab[i].seqno)
         == Max0(w.sems[SemOf(pt.tab[i], !send)].count)
          + Granted(w.conts, w.sq[SemOf(pt.tab[i], !send)], !send, i, pt.tab[i].seqno) + 1
  {
    var p, other := pt.tab[i], SemOf(pt.tab[i], !send);
    OpenSides(w, pt, owner, i);
    assert SemOk(w, pt, owner, other);
    hide SemOk, ContOk, PortOk, NodesOk;
    if w.sems[other].count < 0 {
      var y := w.sq[other][0];
      WithoutHead(w.sq[other]);
      assert y in w.sq[other];
      GrantedMore(w.conts, w.sq[other], w'.conts, w'.sq[other], !send, i, p.seqno, y);
    } else {
      GrantedSame(w.conts, w.sq[other], w'.conts, w'.sq[other], !send, i, p.seqno);
    }
  }

  lemma PassSems(w: Waits, pt: PState, owner: seq<Owner>, x: int, i: int, send: bool, rv: int, pt': PState, w': Waits)
    requires PassPre(w, pt, owner, x, i, send, rv, pt', w')
    ensures Shapes(w', pt', owner)
    ensures forall j :: 0 <= j < |w'.sems| ==> SemOk(w', pt', owner, j)
  {
    OpenSides(w, pt, owner, i);
    hide PortOk, NodesOk, ContOk;
    forall j | 0 <= j < |w'.sems| ensures SemOk(w', pt', owner, j) {
      assert SemOk(w, pt, owner, j);
      assert forall p :: p in w.sq[j] ==> p != x;
      assert forall p :: p in w'.sq[j] ==> p in w.sq[j];
      hide PInv, WaitsOk, Passed, Append, TakeHead, SemOk;
      SemKept(w, pt, w', pt', owner, j);
    }
  }

  /** A semaphore keeps its property when processes only leave its queue. */
  lemma SemKept(w: Waits, pt: PState, w': Waits, pt': PState, owner: seq<Owner>, j: int)
    requires Shapes(w, pt, owner) && Shapes(w', pt', owner) && 0 <= j < |w.sems| == |w'.sems|
    requires SemOk(w, pt, owner, j) && w'.sems[j].used == w.sems[j].used
    requires forall p :: p in w'.sq[j] ==> p in w.sq[j] && w'.conts[p] == w.conts[p]
    requires |pt'.tab| == |pt.tab|
    requires forall i :: 0 <= i < |pt.tab| ==>
        pt'.tab[i].(list := pt.tab[i].list) == pt.tab[i]
    ensures SemOk(w', pt', owner, j)
  {
    hide Shapes;
  }

  // ----- ptreset and ptdelete

  function WClear(w: Waits, sem: int, ns: PtState, count: int): Waits
    requires |w.sq| == |w.sems|
  {
    if !(0 <= sem < |w.sems|) then w else if ns == PtAlloc then WReset(w, sem, count) else WDelete(w, sem)
  }

  function OwnerClear(owner: seq<Owner>, sem: int, ns: PtState): seq<Owner> {
    if ns == PtAlloc || !(0 <= sem < |owner|) then owner else owner[sem := UserSem]
  }

  ghost predicate ClearPre(w: Waits, pt: PState, owner: seq<Owner>, x: int, i: int, ns: PtState,
                           w': Waits, pt': PState, owner': seq<Owner>) {
    && PInv(w, pt, owner) && WaitsOk(w') && 0 <= x < |w.conts| && !Blocked(w, x) && !PortCont(w.conts[x])
    && IsOpen(pt, i) && (ns == PtAlloc || ns == PtFree)
    && pt' == Flush(pt, i, ns) && owner' == OwnerClear(owner, pt.tab[i].ssem, ns)
    && w' == WClear(w.(conts := w.conts[x := InClear(i, ns, 1)]), pt.tab[i].ssem, ns, pt.tab[i].maxcnt)
  }

  /** Limbo begins: messages and waiting senders go, waiting receivers stay for the moment. */
  lemma ClearStep(w: Waits, pt: PState, owner: seq<Owner>, x: int, i: int, ns: PtState,
                  w': Waits, pt': PState, owner': seq<Owner>)
    requires ClearPre(w, pt, owner, x, i, ns, w', pt', owner')
    ensures PInv(w', pt', owner')
  {
    ClearPorts(w, pt, owner, x, i, ns, w', pt', owner');
    ClearSems(w, pt, owner, x, i, ns, w', pt', owner');
    ClearConts(w, pt, owner, x, i, ns, w', pt', owner');
    FlushNodes(pt, i, ns);
    hide NodesOk, PortOk, SemOk, ContOk;
  }

  lemma ClearPorts(w: Waits, pt: PState, owner: seq<Owner>, x: int, i: int, ns: PtState,
                  w': Waits, pt': PState, owner': seq<Owner>)
    requires ClearPre(w, pt, owner, x, i, ns, w', pt', owner')
    ensures Shapes(w', pt', owner') && |pt'.tab| == |pt.tab|
    ensures forall l :: 0 <= l < |pt'.tab| ==> PortOk(w', pt', owner', l)
  {
    OpenSides(w, pt, owner, i);
    hide SemOk, ContOk, NodesOk;
    assert Shapes(w', pt', owner') by {
      hide PortOk;
    }
    forall l | 0 <= l < |pt'.tab| ensures PortOk(w', pt', owner', l) {
      assert PortOk(w, pt, owner, l);
      if l != i {
        hide PortOk;
        PortFrame(w, pt, owner, w', pt', owner', l);
      }
    }
  }

  lemma ClearSems(w: Waits, pt: PState, owner: seq<Owner>, x: int, i: int, ns: PtState,
                  w': Waits, pt': PState, owner': seq<Owner>)
    requires ClearPre(w, pt, owner, x, i, ns, w', pt', owner')
    ensures Shapes(w', pt', owner')
    ensures forall j :: 0 <= j < |w'.sems| ==> SemOk(w', pt', owner', j)
  {
    OpenSides(w, pt, owner, i);
    hide ContOk, PortOk, NodesOk;
    forall j | 0 <= j < |w'.sems| ensures SemOk(w', pt', owner', j) {
      assert SemOk(w, pt, owner, j);
    }
  }

  lemma ClearConts(w: Waits, pt: PState, owner: seq<Owner>, x: int, i: int, ns: PtState,
                  w': Waits, pt': PState, owner': seq<Owner>)
    requires ClearPre(w, pt, owner, x, i, ns, w', pt', owner')
    ensures Shapes(w', pt', owner') && OneClearer(w')
    ensures forall q :: 0 <= q < |w'.conts| ==> ContOk(w', pt', owner', w'.conts[q])
  {
    hide SemOk, NodesOk, SendTokens, RecvTokens;
    OpenSides(w, pt, owner, i);
    assert PortOk(w, pt, owner, i);
    forall q | 0 <= q < |w'.conts| ensures ContOk(w', pt', owner', w'.conts[q]) {
      assert ContOk(w, pt, owner, w.conts[q]);
    }
    forall q | 0 <= q < |w.conts| && w.conts[q].InClear? ensures w.conts[q].port != i {
      assert ContOk(w, pt, owner, w.conts[q]);
    }
  }

  ghost predicate MidPre(w: Waits, pt: PState, owner: seq<Owner>, x: int, i: int, ns: PtState,
                         w': Waits, owner': seq<Owner>) {
    && PInv(w, pt, owner) && WaitsOk(w') && 0 <= x < |w.conts| && !Blocked(w, x) && w.conts[x] == InClear(i, ns, 1)
    && 0 <= i < |pt.tab| && owner' == OwnerClear(owner, pt.tab[i].rsem, ns)
    && w' == WClear(w.(conts := w.conts[x := InClear(i, ns, 2)]), pt.tab[i].rsem, ns, 0)
  }

  /** The waiting receivers go as well. */
  lemma MidStep(w: Waits, pt: PState, owner: seq<Owner>, x: int, i: int, ns: PtState, w': Waits, owner': seq<Owner>)
    requires MidPre(w, pt, owner, x, i, ns, w', owner')
    ensures PInv(w', pt, owner')
  {
    MidPorts(w, pt, owner, x, i, ns, w', owner');
    MidSems(w, pt, owner, x, i, ns, w', owner');
    MidConts(w, pt, owner, x, i, ns, w', owner');
    hide NodesOk, PortOk, SemOk, ContOk, WaitsOk;
  }

  lemma MidPorts(w: Waits, pt: PState, owner: seq<Owner>, x: int, i: int, ns: PtState, w': Waits, owner': seq<Owner>)
    requires MidPre(w, pt, owner, x, i, ns, w', owner')
    ensures Shapes(w', pt, owner')
    ensures forall l :: 0 <= l < |pt.tab| ==> PortOk(w', pt, owner', l)
  {
    assert ContOk(w, pt, owner, w.conts[x]);
    hide SemOk, ContOk, NodesOk;
    forall l | 0 <= l < |pt.tab| ensures PortOk(w', pt, owner', l) {
      assert PortOk(w, pt, owner, l);
      if l != i {
        hide PortOk, WaitsOk;
        PortFrame(w, pt, owner, w', pt, owner', l);
      }
    }
  }

  lemma MidSems(w: Waits, pt: PState, owner: seq<Owner>, x: int, i: int, ns: PtState, w': Waits, owner': seq<Owner>)
    requires MidPre(w, pt, owner, x, i, ns, w', owner')
    ensures Shapes(w', pt, owner')
    ensures forall j :: 0 <= j < |w'.sems| ==> SemOk(w', pt, owner', j)
  {
    assert ContOk(w, pt, owner, w.conts[x]);
    hide PortOk, ContOk, NodesOk;
    forall j | 0 <= j < |w'.sems| ensures SemOk(w', pt, owner', j) {
      assert SemOk(w, pt, owner, j);
    }
  }

  lemma MidConts(w: Waits, pt: PState, owner: seq<Owner>, x: int, i: int, ns: PtState, w': Waits, owner': seq<Owner>)
    requires MidPre(w, pt, owner, x, i, ns, w', owner')
    ensures Shapes(w', pt, owner')
    ensures forall q :: 0 <= q < |w'.conts| ==> ContOk(w', pt, owner', w'.conts[q])
  {
    assert ContOk(w, pt, owner, w.conts[x]);
    hide PortOk, SemOk, NodesOk;
    forall q | 0 <= q < |w'.conts| ensures ContOk(w', pt, owner', w'.conts[q]) {
      assert ContOk(w, pt, owner, w.conts[q]);
      hide WaitsOk;
    }
  }

  ghost predicate LastPre(w: Waits, pt: PState, owner: seq<Owner>, x: int, i: int, ns: PtState, w': Waits,
      pt': PState) {
    && PInv(w, pt, owner) && 0 <= x < |w.conts| && !Blocked(w, x) && w.conts[x] == InClear(i, ns, 2)
    && 0 <= i < |pt.tab| && 0 <= pt'.nextid < |pt.tab|
    && w' == w.(conts := w.conts[x := User(OK)])
    && pt' == pt.(tab := pt.tab[i := pt.tab[i].(state := ns)], nextid := pt'.nextid)
  }

  /** The port leaves limbo, open and empty or free. */
  lemma LastStep(w: Waits, pt: PState, owner: seq<Owner>, x: int, i: int, ns: PtState, w': Waits, pt': PState)
    requires LastPre(w, pt, owner, x, i, ns, w', pt')
    ensures PInv(w', pt', owner)
  {
    LastPorts(w, pt, owner, x, i, ns, w', pt');
    LastSems(w, pt, owner, x, i, ns, w', pt');
    LastConts(w, pt, owner, x, i, ns, w', pt');
    SumLensUpdate(pt.tab, i, pt'.tab[i]);
    hide PortOk, SemOk, ContOk;
  }

  lemma LastPorts(w: Waits, pt: PState, owner: seq<Owner>, x: int, i: int, ns: PtState, w': Waits, pt': PState)
    requires LastPre(w, pt, owner, x, i, ns, w', pt')
    ensures Shapes(w', pt', owner) && |pt'.tab| == |pt.tab|
    ensures forall l :: 0 <= l < |pt.tab| ==> PortOk(w', pt', owner, l)
  {
    var p := pt.tab[i];
    assert ContOk(w, pt, owner, w.conts[x]);
    forall q | 0 <= q < |w.conts| && (w.conts[q].InSend? || w.conts[q].InRecv?) && w.conts[q].port == i
      ensures w.conts[q].seqno < p.seqno
    {
      assert ContOk(w, pt, owner, w.conts[q]);
    }
    hide SemOk, ContOk, NodesOk;
    forall l | 0 <= l < |pt.tab| ensures PortOk(w', pt', owner, l) {
      assert PortOk(w, pt, owner, l);
      if l != i {
        hide PortOk;
        PortFrame(w, pt, owner, w', pt', owner, l);
      } else if ns == PtAlloc {
        if HasSem(w, p.ssem) {
          GrantedNone(w'.conts, w'.sq[p.ssem], true, i, p.seqno);
        }
        if HasSem(w, p.rsem) {
          GrantedNone(w'.conts, w'.sq[p.rsem], false, i, p.seqno);
        }
      }
    }
  }

  lemma LastSems(w: Waits, pt: PState, owner: seq<Owner>, x: int, i: int, ns: PtState, w': Waits, pt': PState)
    requires LastPre(w, pt, owner, x, i, ns, w', pt')
    ensures Shapes(w', pt', owner)
    ensures forall j :: 0 <= j < |w'.sems| ==> SemOk(w', pt', owner, j)
  {
    assert ContOk(w, pt, owner, w.conts[x]);
    hide ContOk, PortOk, NodesOk;
    forall j | 0 <= j < |w'.sems| ensures SemOk(w', pt', owner, j) {
      assert SemOk(w, pt, owner, j);
      assert w.sems[j].count >= 0 ==> w.sq[j] == [];
    }
  }

  lemma LastConts(w: Waits, pt: PState, owner: seq<Owner>, x: int, i: int, ns: PtState, w': Waits, pt': PState)
    requires LastPre(w, pt, owner, x, i, ns, w', pt')
    ensures Shapes(w', pt', owner)
    ensures forall q :: 0 <= q < |w'.conts| ==> ContOk(w', pt', owner, w'.conts[q])
  {
    hide SemOk, PortOk, NodesOk;
    forall q | 0 <= q < |w'.conts| ensures ContOk(w', pt', owner, w'.conts[q]) {
      assert ContOk(w, pt, owner, w.conts[q]);
    }
  }

  // ----- ptcreate

  function Fresh(sems: seq<Sem>, j: int, count: int): seq<Sem> {
    if 0 <= j < |sems| then sems[j := Sem(true, count)] else sems
  }

  function Own(owner: seq<Owner>, j: int, o: Owner): seq<Owner> {
    if 0 <= j < |owner| then owner[j := o] else owner
  }

  ghost predicate CreatePre(w: Waits, pt: PState, owner: seq<Owner>, x: int, i: int, count: int, ssem: int, rsem: int,
                            w': Waits, pt': PState, owner': seq<Owner>) {
    && PInv(w, pt, owner) && WaitsOk(w') && 0 <= x < |w.conts| && !PortCont(w.conts[x]) && !Blocked(w, x)
    && 0 <= i < |pt.tab| && pt.tab[i].state == PtFree && count >= 0
    && (HasSem(w, ssem) ==> !w.sems[ssem].used) && (HasSem(w, rsem) ==> !w.sems[rsem].used && rsem != ssem)
    && w' == Waits(Fresh(Fresh(w.sems, ssem, count), rsem, 0), w.sq, w.conts[x := User(i)])
    && owner' == Own(Own(owner, ssem, SendSide(i)), rsem, RecvSide(i))
    && |pt'.tab| == |pt.tab| && 0 <= pt'.nextid < |pt.tab|
    && pt' == pt.(tab := pt.tab[i := Port(PtAlloc, ssem, rsem, [], true, pt.tab[i].seqno + 1, count)],
                  nextid := pt'.nextid, hist := pt.hist[i := NewEpoch])
  }

  lemma CreateStep(w: Waits, pt: PState, owner: seq<Owner>, x: int, i: int, count: int, ssem: int, rsem: int,
                   w': Waits, pt': PState, owner': seq<Owner>)
    requires CreatePre(w, pt, owner, x, i, count, ssem, rsem, w', pt', owner')
    ensures PInv(w', pt', owner')
  {
    assert PortOk(w, pt, owner, i);
    CreatePorts(w, pt, owner, x, i, count, ssem, rsem, w', pt', owner');
    CreateSems(w, pt, owner, x, i, count, ssem, rsem, w', pt', owner');
    SumLensUpdate(pt.tab, i, pt'.tab[i]);
    hide PortOk, SemOk;
    assert NodesOk(pt') by {
      hide ContOk;
    }
    CreateConts(w, pt, owner, x, i, count, ssem, rsem, w', pt', owner');
    hide NodesOk, ContOk, WaitsOk;
  }

  lemma CreateConts(w: Waits, pt: PState, owner: seq<Owner>, x: int, i: int, count: int, ssem: int, rsem: int,
                    w': Waits, pt': PState, owner': seq<Owner>)
    requires CreatePre(w, pt, owner, x, i, count, ssem, rsem, w', pt', owner')
    ensures Shapes(w', pt', owner')
    ensures forall q :: 0 <= q < |w'.conts| ==> ContOk(w', pt', owner', w'.conts[q])
  {
    hide PortOk, SemOk, NodesOk;
    forall q | 0 <= q < |w'.conts| ensures ContOk(w', pt', owner', w'.conts[q]) {
      assert ContOk(w, pt, owner, w.conts[q]);
      if w.conts[q].InClear? {
        ClearSemsUsed(w, pt, owner, w.conts[q]);
      }
      hide PInv, WaitsOk;
    }
  }

  /** The semaphores that a process clearing a port still owns are in use. */
  lemma ClearSemsUsed(w: Waits, pt: PState, owner: seq<Owner>, c: Cont)
    requires PInv(w, pt, owner) && ContOk(w, pt, owner, c) && c.InClear?
    ensures var p := pt.tab[c.port];
            && (HasSem(w, p.ssem) && owner[p.ssem] == SendSide(c.port) ==> w.sems[p.ssem].used)
            && (HasSem(w, p.rsem) && owner[p.rsem] == RecvSide(c.port) ==> w.sems[p.rsem].used)
  {
    var p := pt.tab[c.port];
    hide ContOk, PortOk;
    assert HasSem(w, p.ssem) ==> SemOk(w, pt, owner, p.ssem);
    assert HasSem(w, p.rsem) ==> SemOk(w, pt, owner, p.rsem);
  }

  lemma CreatePorts(w: Waits, pt: PState, owner: seq<Owner>, x: int, i: int, count: int, ssem: int, rsem: int,
                    w': Waits, pt': PState, owner': seq<Owner>)
    requires CreatePre(w, pt, owner, x, i, count, ssem, rsem, w', pt', owner')
    ensures Shapes(w', pt', owner')
    ensures forall l :: 0 <= l < |pt.tab| ==> PortOk(w', pt', owner', l)
  {
    forall q | 0 <= q < |w.conts| && (w.conts[q].InSend? || w.conts[q].InRecv?) && w.conts[q].port == i
      ensures w.conts[q].seqno <= pt.tab[i].seqno
    {
      assert ContOk(w, pt, owner, w.conts[q]);
    }
    hide ContOk, NodesOk;
    SidesUsed(w, pt, owner);
    hide SemOk;
    forall l | 0 <= l < |pt.tab| ensures PortOk(w', pt', owner', l) {
      assert PortOk(w, pt, owner, l);
      if l != i {
        hide PortOk, PInv, WaitsOk;
        PortFrame(w, pt, owner, w', pt', owner', l);
      } else {
        hide PInv, WaitsOk;
        var e := pt'.tab[i].seqno;
        if HasSem(w, ssem) {
          GrantedNone(w'.conts, w'.sq[ssem], true, i, e);
        }
        if HasSem(w, rsem) {
          GrantedNone(w'.conts, w'.sq[rsem], false, i, e);
        }
      }
    }
  }

  lemma SidesUsed(w: Waits, pt: PState, owner: seq<Owner>)
    requires PInv(w, pt, owner)
    ensures forall j :: 0 <= j < |w.sems| && PortSide(owner[j]) ==> w.sems[j].used
  {
    hide PortOk, ContOk, NodesOk;
    forall j | 0 <= j < |w.sems| && PortSide(owner[j]) ensures w.sems[j].used {
      assert SemOk(w, pt, owner, j);
    }
  }

  lemma CreateSems(w: Waits, pt: PState, owner: seq<Owner>, x: int, i: int, count: int, ssem: int, rsem: int,
                   w': Waits, pt': PState, owner': seq<Owner>)
    requires CreatePre(w, pt, owner, x, i, count, ssem, rsem, w', pt', owner')
    ensures Shapes(w', pt', owner')
    ensures forall j :: 0 <= j < |w'.sems| ==> SemOk(w', pt', owner', j)
  {
    hide ContOk, NodesOk, PortOk;
    forall j | 0 <= j < |w'.sems| ensures SemOk(w', pt', owner', j) {
      assert SemOk(w, pt, owner, j);
      assert !w.sems[j].used ==> w.sq[j] == [];
    }
  }

  // ----- kill

  function WGone(w: Waits, v: int, s: int): Waits
    requires 0 <= v < |w.conts| && |w.sq| == |w.sems|
  {
    (if 0 <= s < |w.sems| then WLeave(w, s, v) else w).(conts := w.conts[v := User(OK)])
  }

  ghost predicate KillPre(w: Waits, pt: PState, owner: seq<Owner>, v: int, s: int, w': Waits, pt': PState) {
    && PInv(w, pt, owner) && WaitsOk(w') && 0 <= v < |w.conts|
    && (forall j :: 0 <= j < |w.sq| ==> (v in w.sq[j] <==> j == s))
    && w' == WGone(w, v, s) && pt' == pt.(hist := AfterLoss(w.sq, w.conts, pt, v))
  }

  /** A process is killed, queued or not, inside a port operation or not. */
  lemma KillStep(w: Waits, pt: PState, owner: seq<Owner>, v: int, s: int, w': Waits, pt': PState)
    requires KillPre(w, pt, owner, v, s, w', pt')
    ensures PInv(w', pt', owner)
  {
    KillSems(w, pt, owner, v, s, w', pt');
    KillConts(w, pt, owner, v, s, w', pt');
    forall l | 0 <= l < |pt.tab| ensures PortOk(w', pt', owner, l) {
      KillPort(w, pt, owner, v, s, w', pt', l);
    }
    hide PortOk, SemOk, ContOk;
  }

  lemma KillSems(w: Waits, pt: PState, owner: seq<Owner>, v: int, s: int, w': Waits, pt': PState)
    requires KillPre(w, pt, owner, v, s, w', pt')
    ensures Shapes(w', pt', owner)
    ensures forall j :: 0 <= j < |w'.sems| ==> SemOk(w', pt', owner, j)
  {
    hide PortOk, ContOk, NodesOk;
    forall j | 0 <= j < |w'.sems| ensures SemOk(w', pt', owner, j) {
      assert SemOk(w, pt, owner, j);
      WithoutElements(w.sq[j], v);
    }
  }

  lemma KillConts(w: Waits, pt: PState, owner: seq<Owner>, v: int, s: int, w': Waits, pt': PState)
    requires KillPre(w, pt, owner, v, s, w', pt')
    ensures Shapes(w', pt', owner)
    ensures forall q :: 0 <= q < |w'.conts| ==> ContOk(w', pt', owner, w'.conts[q])
  {
    hide PortOk, NodesOk;
    forall q | 0 <= q < |w'.conts| ensures ContOk(w', pt', owner, w'.conts[q]) {
      assert ContOk(w, pt, owner, w.conts[q]);
      if w.conts[q].InClear? {
        var p := pt.tab[w.conts[q].port];
        assert HasSem(w, s) ==> w.sq[s] != [] && w.sems[s].count < 0 && SemOk(w, pt, owner, s);
      }
    }
  }

  /** At most one of the two balances of a port moves, and by the one token the victim held. */
  lemma KillPort(w: Waits, pt: PState, owner: seq<Owner>, v: int, s: int, w': Waits, pt': PState, l: int)
    requires KillPre(w, pt, owner, v, s, w', pt') && 0 <= l < |pt.tab|
    requires Shapes(w', pt', owner)
    ensures PortOk(w', pt', owner, l)
  {
    assert PortOk(w, pt, owner, l);
    var p := pt.tab[l];
    if p.state == PtAlloc {
      OpenSides(w, pt, owner, l);
      if HasSem(w, p.ssem) {
        KillSide(w, pt, owner, v, s, w', pt', l, true);
      }
      if HasSem(w, p.rsem) {
        KillSide(w, pt, owner, v, s, w', pt', l, false);
      }
      hide NodesOk, SemOk, ContOk;
    } else {
      assert ContOk(w, pt, owner, w.conts[v]);
    }
  }

  lemma KillSide(w: Waits, pt: PState, owner: seq<Owner>, v: int, s: int, w': Waits, pt': PState, l: int, send: bool)
    requires KillPre(w, pt, owner, v, s, w', pt') && IsOpen(pt, l) && HasSem(w, SemOf(pt.tab[l], send))
    ensures |w'.sems| == |w.sems|
    ensures var sem := SemOf(pt.tab[l], send);
            && Max0(w'.sems[sem].count) == Max0(w.sems[sem].count)
            && Granted(w'.conts, w'.sq[sem], send, l, pt.tab[l].seqno)
            == Granted(w.conts, w.sq[sem], send, l, pt.tab[l].seqno)
            - (if Match(w.conts[v], send, l, pt.tab[l].seqno) && v !in w.sq[sem] then 1 else 0)
  {
    var sem, e := SemOf(pt.tab[l], send), pt.tab[l].seqno;
    hide PortOk, SemOk, ContOk, NodesOk;
    WithoutElements(w.sq[sem], v);
    if Match(w.conts[v], send, l, e) && v !in w.sq[sem] {
      GrantedMore(w'.conts, w'.sq[sem], w.conts, w.sq[sem], send, l, e, v);
    } else {
      GrantedSame(w.conts, w.sq[sem], w'.conts, w'.sq[sem], send, l, e);
    }
  }
}
