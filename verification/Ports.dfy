/**
 The port table and the message nodes as the program keeps them: nodes linked through
 ptnext, with ptfree, pthead and pttail pointing into them. Every method is proved to
 do exactly what the functions of PortState say.
 */
module PortTables {
  import opened Sequences
  import opened QueueTables
  import opened KernelState
  import opened KernelInvariants
  import opened PortState
  import opened PortInvariants
  import opened Machine
  import KernelTables

  const NULL: int := -1

  datatype PtEntry = PtEntry(state: PtState, ssem: int, rsem: int, head: int, tail: int, seqno: int, maxcnt: int)

  const Blank: PtEntry := PtEntry(PtFree, 0, 0, NULL, NULL, 0, 0)

  function HeadOf(l: seq<int>): int { if l == [] then NULL else l[0] }

  function LastOf(l: seq<int>): int { if l == [] then NULL else l[|l| - 1] }

  function NextOf(l: seq<int>, k: int): int
    requires 0 <= k < |l|
  {
    if k == |l| - 1 then NULL else l[k + 1]
  }

  /** Following nx from head visits exactly l and ends in NULL. */
  ghost predicate Chain(nx: seq<int>, head: int, l: seq<int>) {
    && Within(l, |nx|) && head == HeadOf(l)
    && (forall k :: 0 <= k < |l| ==> nx[l[k]] == NextOf(l, k))
  }

  lemma ChainKept(nx: seq<int>, head: int, l: seq<int>, nx': seq<int>)
    requires Chain(nx, head, l) && |nx'| == |nx|
    requires forall x :: x in l ==> 0 <= x < |nx| && nx'[x] == nx[x]
    ensures Chain(nx', head, l)
  {
  }

  lemma ChainPop(nx: seq<int>, head: int, l: seq<int>)
    requires Chain(nx, head, l) && l != []
    ensures Chain(nx, nx[head], l[1..])
  {
    var t := l[1..];
    assert nx[l[0]] == HeadOf(t);
    forall k | 0 <= k < |t| ensures nx[t[k]] == NextOf(t, k) {
      assert t[k] == l[k + 1] && nx[l[k + 1]] == NextOf(l, k + 1);
    }
  }

  lemma ChainPush(nx: seq<int>, head: int, l: seq<int>, x: int)
    requires Chain(nx, head, l) && 0 <= x < |nx| && x !in l
    ensures Chain(nx[x := head], x, [x] + l)
  {
    var t := [x] + l;
    forall k | 0 <= k < |t| ensures nx[x := head][t[k]] == NextOf(t, k) {
      if k > 0 {
        assert t[k] == l[k - 1] && l[k - 1] in l && nx[l[k - 1]] == NextOf(l, k - 1);
      }
    }
  }

  lemma ChainAppend(nx: seq<int>, head: int, l: seq<int>, x: int)
    requires Chain(nx, head, l) && NoDup(l) && 0 <= x < |nx| && x !in l && nx[x] == NULL
    ensures Chain(if l == [] then nx else nx[LastOf(l) := x], if l == [] then x else head, l + [x])
  {
    if l != [] {
      assert nx[x := NULL] == nx;
      ChainJoin(nx, head, l, x, [x]);
    }
  }

  lemma ChainJoin(nx: seq<int>, head: int, l: seq<int>, head2: int, m: seq<int>)
    requires Chain(nx, head, l) && Chain(nx, head2, m) && NoDup(l) && l != []
    requires forall x :: x in l ==> x !in m
    ensures Chain(nx[LastOf(l) := head2], head, l + m)
  {
    var j := l + m;
    var nx' := nx[LastOf(l) := head2];
    forall k | 0 <= k < |j| ensures nx'[j[k]] == NextOf(j, k) {
      if k < |l| {
        assert j[k] == l[k] && nx[l[k]] == NextOf(l, k);
      } else {
        assert j[k] == m[k - |l|] && m[k - |l|] in m && LastOf(l) in l;
        assert nx[m[k - |l|]] == NextOf(m, k - |l|);
      }
    }
  }

  // ----- the tables as values

  /** The concrete tables hold what pt says; a port that is not linked has stale pointers. */
  ghost predicate TablesOk(tab: seq<PtEntry>, nx: seq<int>, msgs: seq<int>, fhead: int, nextid: int, pt: PState) {
    && |tab| == |pt.tab| == |pt.hist| && NodesWithin(pt)
    && |nx| == |pt.msgs| && msgs == pt.msgs && nextid == pt.nextid
    && Chain(nx, fhead, pt.free)
    && (forall i :: 0 <= i < |tab| ==> EntryOk(tab[i], nx, pt.tab[i]))
  }

  ghost predicate EntryOk(e: PtEntry, nx: seq<int>, p: Port) {
    && p == Port(e.state, e.ssem, e.rsem, p.list, p.linked, e.seqno, e.maxcnt)
    && (p.linked ==> Chain(nx, e.head, p.list) && e.tail == LastOf(p.list))
  }

  lemma EntryKept(e: PtEntry, nx: seq<int>, p: Port, nx': seq<int>)
    requires EntryOk(e, nx, p) && |nx'| == |nx|
    requires forall x :: x in p.list ==> 0 <= x < |nx| && nx'[x] == nx[x]
    ensures EntryOk(e, nx', p)
  {
    if p.linked {
      ChainKept(nx, e.head, p.list, nx');
    }
  }

  lemma TablesFacts(tab: seq<PtEntry>, nx: seq<int>, msgs: seq<int>, fhead: int, nextid: int, pt: PState, i: int)
    requires TablesOk(tab, nx, msgs, fhead, nextid, pt) && 0 <= i < |tab|
    ensures |tab| == |pt.tab| && EntryOk(tab[i], nx, pt.tab[i]) && fhead == HeadOf(pt.free)
    ensures pt.free != [] ==> 0 <= fhead < |nx|
    ensures pt.tab[i].linked && pt.tab[i].list != [] ==>
        0 <= tab[i].head < |nx| && 0 <= tab[i].tail < |nx| && tab[i].head == pt.tab[i].list[0]
    ensures pt.tab[i].linked && pt.tab[i].list == [] ==> tab[i].head == tab[i].tail == NULL
    ensures |nx| == |msgs| && msgs == pt.msgs && nextid == pt.nextid && |pt.hist| == |pt.tab| && NodesWithin(pt)
  {
  }

  /** What the link writes of ptsend do to the tables. */
  lemma AppendTables(tab: seq<PtEntry>, nx: seq<int>, msgs: seq<int>, fhead: int, nextid: int, pt: PState,
      i: int, m: int)
    requires TablesOk(tab, nx, msgs, fhead, nextid, pt) && NodesOk(pt)
    requires 0 <= i < |tab| && pt.tab[i].linked && pt.free != [] && 0 <= fhead < |nx|
    requires tab[i].tail != NULL ==> 0 <= tab[i].tail < |nx|
    ensures TablesOk(
              tab[i := if tab[i].tail == NULL then tab[i].(head := fhead, tail := fhead) else tab[i].(tail := fhead)],
              if tab[i].tail == NULL then nx[fhead := NULL] else nx[fhead := NULL][tab[i].tail := fhead],
              msgs[fhead := m], nx[fhead], nextid, Append(pt, i, m))
  {
    var n, l, t := fhead, pt.tab[i].list, tab[i].tail;
    var nx1 := nx[n := NULL];
    var nx' := if t == NULL then nx1 else nx1[t := n];
    assert EntryOk(tab[i], nx, pt.tab[i]) && n in pt.free;
    assert l != [] ==> LastOf(l) in l;
    assert t == LastOf(l) && forall x :: x in l ==> x != n;
    AppendFree(nx, pt, i, n, nx');
    assert Chain(nx', if l == [] then n else tab[i].head, l + [n]) by {
      ChainKept(nx, tab[i].head, l, nx1);
      ChainAppend(nx1, tab[i].head, l, n);
    }
    hide Chain;
    forall j | 0 <= j < |tab| && j != i ensures EntryOk(tab[j], nx', pt.tab[j]) {
      EntryKept(tab[j], nx, pt.tab[j], nx');
    }
    hide NodesOk;
  }

  lemma AppendFree(nx: seq<int>, pt: PState, i: int, n: int, nx': seq<int>)
    requires NodesOk(pt) && Chain(nx, n, pt.free) && pt.free != [] && 0 <= i < |pt.tab| && 0 <= n < |nx| == |nx'|
    requires forall x :: 0 <= x < |nx| && x != n && x !in pt.tab[i].list ==> nx'[x] == nx[x]
    ensures Chain(nx', nx[n], pt.free[1..])
  {
    WithoutHead(pt.free);
    ChainPop(nx, n, pt.free);
    ChainKept(nx, nx[n], pt.free[1..], nx');
  }

  /** What the link writes of ptrecv do to the tables. */
  lemma TakeTables(tab: seq<PtEntry>, nx: seq<int>, msgs: seq<int>, fhead: int, nextid: int, pt: PState, i: int)
    requires TablesOk(tab, nx, msgs, fhead, nextid, pt) && NodesOk(pt)
    requires 0 <= i < |tab| && pt.tab[i].linked && pt.tab[i].list != [] && 0 <= tab[i].head < |nx|
    ensures TablesOk(
              tab[i := if tab[i].head == tab[i].tail then tab[i].(head := NULL, tail := NULL)
                       else tab[i].(head := nx[tab[i].head])],
              nx[tab[i].head := fhead], msgs, tab[i].head, nextid, TakeHead(pt, i))
  {
    hide Chain, NodesOk, EntryOk, NoDup;
    var l, n := pt.tab[i].list, tab[i].head;
    var nx' := nx[n := fhead];
    TablesFacts(tab, nx, msgs, fhead, nextid, pt, i);
    OwnNodes(pt, i);
    TakeEntry(tab[i], nx, pt.tab[i], fhead);
    ChainPush(nx, fhead, pt.free, n);
    forall j | 0 <= j < |tab| && j != i ensures EntryOk(tab[j], nx', pt.tab[j]) {
      TablesFacts(tab, nx, msgs, fhead, nextid, pt, j);
      OwnNodes(pt, j);
      EntryKept(tab[j], nx, pt.tab[j], nx');
    }
  }

  /** A port's nodes are on its list once and on no other. */
  lemma OwnNodes(pt: PState, i: int)
    requires NodesOk(pt) && 0 <= i < |pt.tab|
    ensures NoDup(pt.tab[i].list)
    ensures forall x :: x in pt.tab[i].list ==> 0 <= x < |pt.msgs| && x !in pt.free
    ensures forall j :: 0 <= j < |pt.tab| && j != i && pt.tab[j].list != [] ==> pt.tab[j].list[0] !in pt.tab[i].list
  {
    hide SumLens;
    forall j | 0 <= j < |pt.tab| && j != i && pt.tab[j].list != [] ensures pt.tab[j].list[0] !in pt.tab[i].list {
      assert pt.tab[j].list[0] in pt.tab[j].list;
    }
  }

  lemma TakeEntry(e: PtEntry, nx: seq<int>, p: Port, fhead: int)
    requires EntryOk(e, nx, p) && p.linked && p.list != [] && NoDup(p.list) && 0 <= e.head < |nx|
    ensures e.head in p.list
    ensures EntryOk(if e.head == e.tail then e.(head := NULL, tail := NULL) else e.(head := nx[e.head]),
                    nx[e.head := fhead], p.(list := p.list[1..]))
  {
    var l := p.list;
    assert e.head == l[0] && nx[l[0]] == NextOf(l, 0);
    WithoutHead(l);
    ChainPop(nx, e.head, l);
    ChainKept(nx, nx[e.head], l[1..], nx[e.head := fhead]);
    LastOfTail(l);
    hide Chain, NoDup;
  }

  lemma LastOfTail(l: seq<int>)
    requires NoDup(l) && l != []
    ensures l[0] == LastOf(l) <==> |l| == 1
    ensures |l| > 1 ==> LastOf(l[1..]) == LastOf(l)
  {
  }

  /** What the splice of _ptclear does to the tables. */
  lemma FlushTables(tab: seq<PtEntry>, nx: seq<int>, msgs: seq<int>, fhead: int, nextid: int, pt: PState,
                    i: int, ns: PtState)
    requires TablesOk(tab, nx, msgs, fhead, nextid, pt) && NodesOk(pt)
    requires 0 <= i < |tab| && pt.tab[i].linked
    requires tab[i].head != NULL ==> 0 <= tab[i].tail < |nx|
    ensures var e := tab[i].(state := PtLimbo, seqno := tab[i].seqno + 1);
            TablesOk(tab[i := if ns == PtAlloc then e.(head := NULL, tail := NULL) else e],
                     if tab[i].head == NULL then nx else nx[tab[i].tail := fhead],
                     msgs, if tab[i].head == NULL then fhead else tab[i].head, nextid, Flush(pt, i, ns))
  {
    var l := pt.tab[i].list;
    var nx' := if tab[i].head == NULL then nx else nx[tab[i].tail := fhead];
    assert EntryOk(tab[i], nx, pt.tab[i]);
    if l != [] {
      ChainJoin(nx, tab[i].head, l, fhead, pt.free);
      assert LastOf(l) in l;
    } else {
      assert l + pt.free == pt.free;
    }
    forall j | 0 <= j < |tab| && j != i ensures EntryOk(tab[j], nx', pt.tab[j]) {
      EntryKept(tab[j], nx, pt.tab[j], nx');
    }
  }

  class PortSystem {
    const kern: KernelTables.Kernel
    const porttab: array<PtEntry>
    const ptnext: array<int>
    const ptmsg: array<int>
    var ptfree: int
    var ptnextid: int
    ghost var pt: PState
    ghost var owner: seq<Owner>

    ghost function Frame(): set<object> {
      kern.Frame() + {this, porttab, ptnext, ptmsg}
    }

    /** The port tables by themselves. */
    ghost predicate Own()
      reads this, porttab, ptnext, ptmsg
    {
      ptnext != ptmsg && TablesOk(porttab[..], ptnext[..], ptmsg[..], ptfree, ptnextid, pt)
    }

    ghost predicate Valid()
      reads Frame()
    {
      && kern.Valid() && Own() && |owner| == kern.semtab.Length
      && this !in kern.Frame() && porttab !in kern.Frame() && ptnext !in kern.Frame() && ptmsg !in kern.Frame()
    }

    ghost function Abs(): (s: Sys)
      reads Frame()
      requires Valid()
      ensures SizedSys(s)
    {
      Sys(kern.Abs(), pt, owner)
    }

    // ----- ptinit.c

    /** The static port table, zeroed, and memory for maxmsgs nodes. */
    constructor (kern: KernelTables.Kernel, nports: nat, maxmsgs: nat)
      ensures this.kern == kern && porttab.Length == nports && ptnext.Length == ptmsg.Length == maxmsgs
      ensures fresh(porttab) && fresh(ptnext) && fresh(ptmsg) && ptnext != ptmsg
      ensures forall i :: 0 <= i < nports ==> porttab[i] == Blank
      ensures forall a :: 0 <= a < maxmsgs ==> ptmsg[a] == 0
    {
      this.kern := kern;
      porttab := new PtEntry[nports](_ => Blank);
      ptnext := new int[maxmsgs](_ => 0);
      ptmsg := new int[maxmsgs](_ => 0);
      ptfree, ptnextid := NULL, 0;
      pt, owner := PState([], [], [], 0, Running, [], []), [];
    }

    /** ptinit: every port free, every node on the free list in the order of its address. */
    method PtInit()
      requires kern.Valid() && ptnext != ptmsg && ptnext.Length == ptmsg.Length > 0
      requires this !in kern.Frame() && porttab !in kern.Frame() && ptnext !in kern.Frame() && ptmsg !in kern.Frame()
      requires forall i :: 0 <= i < porttab.Length ==> porttab[i] == Blank
      requires forall a :: 0 <= a < ptmsg.Length ==> ptmsg[a] == 0
      modifies this, porttab, ptnext
      ensures Valid() && Abs() == Initial(kern.Abs(), porttab.Length, ptnext.Length)
    {
      hide KernelTables.Kernel.Valid;
      ptfree := 0;
      FreeEntries(porttab);
      ptnextid := 0;
      LinkNodes(ptnext);
      pt := InitialPorts(porttab.Length, ptnext.Length);
      owner := Repeat(kern.semtab.Length, UserSem);
      assert ptmsg[..] == pt.msgs;
      KernelKept();
    }

    static method FreeEntries(tab: array<PtEntry>)
      requires forall i :: 0 <= i < tab.Length ==> tab[i] == Blank
      modifies tab
      ensures forall i :: 0 <= i < tab.Length ==> tab[i] == Blank
    {
      for i := 0 to tab.Length
        invariant forall j :: 0 <= j < tab.Length ==> tab[j] == Blank
      {
        tab[i] := tab[i].(state := PtFree, seqno := 0);
      }
    }

    /** Each node points to the one behind it in memory, the last to NULL. */
    static method LinkNodes(nodes: array<int>)
      requires nodes.Length > 0
      modifies nodes
      ensures Chain(nodes[..], 0, UpTo(nodes.Length))
    {
      var curr, next, maxmsgs := 0, 0, nodes.Length;
      maxmsgs := maxmsgs - 1;
      while maxmsgs > 0
        invariant 0 <= maxmsgs < nodes.Length && curr == next == nodes.Length - 1 - maxmsgs
        invariant forall a :: 0 <= a < curr ==> nodes[a] == a + 1
      {
        next := next + 1;
        nodes[curr] := next;
        curr := next;
        maxmsgs := maxmsgs - 1;
      }
      nodes[curr] := NULL;
    }

    /** Writes to the port tables do not reach the kernel's. */
    twostate lemma KernelKept()
      requires old(kern.Valid()) && unchanged(kern.Frame())
      ensures kern.Valid() && kern.Abs() == old(kern.Abs())
    {
    }

    /** Calls on the kernel do not reach the port tables. */
    twostate lemma PortsKept()
      requires old(Valid()) && kern.Valid()
      requires unchanged(this, porttab, ptnext, ptmsg)
      ensures Valid() && Abs() == old(Abs()).(k := kern.Abs())
    {
    }

    // ----- the node lists

    /** Unlinks the first free node, fills it and links it in behind the tail. */
    method AppendNode(i: int, m: int)
      requires Own() && NodesOk(pt) && 0 <= i < porttab.Length && pt.tab[i].linked && pt.free != []
      modifies this`ptfree, this`pt, porttab, ptnext, ptmsg
      ensures Own() && pt == Append(old(pt), i, m)
    {
      TablesFacts(porttab[..], ptnext[..], ptmsg[..], ptfree, ptnextid, pt, i);
      AppendTables(porttab[..], ptnext[..], ptmsg[..], ptfree, ptnextid, pt, i, m);
      hide TablesOk, NodesOk, EntryOk;
      ghost var nx, tab := ptnext[..], porttab[..];
      var msgnode := ptfree;
      ptfree := ptnext[msgnode];
      ptnext[msgnode] := NULL;
      ptmsg[msgnode] := m;
      var tailnode := porttab[i].tail;
      if tailnode == NULL {
        porttab[i] := porttab[i].(head := msgnode, tail := msgnode);
      } else {
        ptnext[tailnode] := msgnode;
        porttab[i] := porttab[i].(tail := msgnode);
      }
      pt := Append(pt, i, m);
      assert ptnext[..] == if tailnode == NULL then nx[msgnode := NULL] else nx[msgnode := NULL][tailnode := msgnode];
    }

    /** Unlinks the head of a port's list and pushes it on the free list. */
    method UnlinkHead(i: int) returns (msg: int)
      requires Own() && NodesOk(pt) && 0 <= i < porttab.Length && pt.tab[i].linked && pt.tab[i].list != []
      modifies this`ptfree, this`pt, porttab, ptnext
      ensures Own() && pt == TakeHead(old(pt), i)
      ensures msg == old(pt).msgs[old(pt).tab[i].list[0]]
    {
      TablesFacts(porttab[..], ptnext[..], ptmsg[..], ptfree, ptnextid, pt, i);
      TakeTables(porttab[..], ptnext[..], ptmsg[..], ptfree, ptnextid, pt, i);
      hide TablesOk, NodesOk, EntryOk;
      ghost var nx, tab := ptnext[..], porttab[..];
      var msgnode := porttab[i].head;
      msg := ptmsg[msgnode];
      if porttab[i].head == porttab[i].tail {
        porttab[i] := porttab[i].(head := NULL, tail := NULL);
      } else {
        porttab[i] := porttab[i].(head := ptnext[msgnode]);
      }
      ptnext[msgnode] := ptfree;
      ptfree := msgnode;
      pt := TakeHead(pt, i);
      assert ptnext[..] == nx[msgnode := old(ptfree)];
      assert porttab[..] == tab[i := porttab[i]];
    }

    /** The part of _ptclear before the semaphores: limbo, disposal, and the whole list spliced
        in front of the free list. */
    method FlushPort(i: int, newstate: PtState)
      requires Own() && NodesOk(pt) && 0 <= i < porttab.Length && pt.tab[i].linked
      modifies this`ptfree, this`pt, porttab, ptnext
      ensures Own() && pt == Flush(old(pt), i, newstate)
    {
      hide NodesOk, EntryOk, TablesOk;
      TablesFacts(porttab[..], ptnext[..], ptmsg[..], ptfree, ptnextid, pt, i);
      FlushTables(porttab[..], ptnext[..], ptmsg[..], ptfree, ptnextid, pt, i, newstate);
      ghost var nx, tab := ptnext[..], porttab[..];
      porttab[i] := porttab[i].(state := PtLimbo, seqno := porttab[i].seqno + 1);
      ghost var log := WalkAndDispose(porttab[i].head, pt.tab[i].list);
      SpliceList(i, newstate);
      pt := Flush(pt, i, newstate).(disposed := pt.disposed + log);
      assert porttab[..] == tab[i := porttab[i]];
    }

    /** The whole list goes in front of the free list; a port that stays is left without one. */
    method SpliceList(i: int, newstate: PtState)
      requires 0 <= i < porttab.Length && (porttab[i].head != NULL ==> 0 <= porttab[i].tail < ptnext.Length)
      modifies this`ptfree, porttab, ptnext
      ensures var e := old(porttab[i]);
              && ptfree == (if e.head != NULL then e.head else old(ptfree))
              && ptnext[..] == (if e.head != NULL then old(ptnext[..])[e.tail := old(ptfree)] else old(ptnext[..]))
              && porttab[..] == old(porttab[..])[i := if newstate == PtAlloc then e.(head := NULL, tail := NULL) else e]
    {
      if porttab[i].head != NULL {
        ptnext[porttab[i].tail] := ptfree;
        ptfree := porttab[i].head;
      }
      if newstate == PtAlloc {
        porttab[i] := porttab[i].(head := NULL, tail := NULL);
      }
    }

    /** Walks the message list and records what the disposal function is called with. */
    method WalkAndDispose(head: int, ghost l: seq<int>) returns (ghost log: seq<int>)
      requires Chain(ptnext[..], head, l) && ptnext.Length == ptmsg.Length
      ensures Within(l, ptmsg.Length) && log == Contents(l, ptmsg[..])
    {
      ghost var k: nat := 0;
      log := [];
      var walk := head;
      while walk != NULL
        invariant k <= |l| && walk == (if k < |l| then l[k] else NULL)
        invariant log == Contents(l, ptmsg[..])[..k]
        decreases |l| - k
      {
        assert ptnext[..][l[k]] == NextOf(l, k);
        log := log + [ptmsg[walk]];
        walk := ptnext[walk];
        k := k + 1;
      }
    }

    // ----- ptsend.c, ptrecv.c

    predicate IsBadPort(portid: int) {
      portid < 0 || portid >= porttab.Length
    }

    lemma OpenFacts(portid: int)
      requires Valid()
      ensures |pt.tab| == porttab.Length
      ensures 0 <= portid < porttab.Length ==>
        var e, p := porttab[portid], pt.tab[portid];
        e.state == p.state && e.ssem == p.ssem && e.rsem == p.rsem && e.seqno == p.seqno && e.maxcnt == p.maxcnt
    {
      if 0 <= portid < porttab.Length {
        TablesFacts(porttab[..], ptnext[..], ptmsg[..], ptfree, ptnextid, pt, portid);
      }
    }

    /** A call ends and hands rv to its caller. */
    method ReturnTo(rv: int)
      requires Valid()
      modifies Frame()
      ensures Valid() && Abs() == Return(old(Abs()), rv)
    {
      assert 0 <= kern.currpid < kern.stacks.Length;
      hide KernelTables.Kernel.Valid, TablesOk;
      kern.WriteCont(kern.currpid, User(rv));
      PortsKept();
    }

    /** The wait of ptsend and of ptrecv, with what is left to do saved first. */
    method EnterPort(sem: int, c: Cont)
      requires Valid() && KInv(kern.Abs()) && kern.ndefers == 0 && kern.currpid != NULLPROC
      modifies Frame()
      ensures Valid() && Abs() == Enter(old(Abs()), sem, c)
    {
      hide KernelTables.Kernel.Valid, TablesOk, KInv, SemWait;
      var caller := kern.currpid;
      ContKeepsKInv(kern.Abs(), caller, c);
      kern.WriteCont(caller, c);
      ghost var k1 := kern.Abs();
      var r := kern.Wait(sem);
      if r == SYSERR {
        BadWait(k1, sem);
        kern.WriteCont(caller, User(SYSERR));
      }
      PortsKept();
    }

    static lemma BadWait(k: KState, sem: int)
      requires Sized(k) && BadSem(k, sem)
      ensures SemWait(k, sem) == k
    {
    }

    method PtSend(portid: int, msg: int)
      requires Valid() && Inv(Abs()) && Enabled(Abs(), SendToPort(portid, msg))
      modifies Frame()
      ensures Valid() && Abs() == Apply(old(Abs()), SendToPort(portid, msg))
    {
      hide KernelTables.Kernel.Valid, TablesOk, KInv, PInv, ContsSane, Enter, Return;
      OpenFacts(portid);
      if IsBadPort(portid) || porttab[portid].state != PtAlloc {
        ReturnTo(SYSERR);
        return;
      }
      EnterPort(porttab[portid].ssem, InSend(portid, porttab[portid].seqno, msg));
    }

    method PtRecv(portid: int)
      requires Valid() && Inv(Abs()) && Enabled(Abs(), ReceiveFromPort(portid))
      modifies Frame()
      ensures Valid() && Abs() == Apply(old(Abs()), ReceiveFromPort(portid))
    {
      hide KernelTables.Kernel.Valid, TablesOk, KInv, PInv, ContsSane, Enter, Return;
      OpenFacts(portid);
      if IsBadPort(portid) || porttab[portid].state != PtAlloc {
        ReturnTo(SYSERR);
        return;
      }
      EnterPort(porttab[portid].rsem, InRecv(portid, porttab[portid].seqno));
    }

    /** The last steps of ptsend and ptrecv: the caller's result, then the signal. */
    method PassOn(rv: int, sem: int)
      requires Valid() && KInv(kern.Abs())
      modifies Frame()
      ensures Valid()
      ensures var s := old(Abs()); Abs() == s.(k := KernelState.Signal(SetCont(s.k, s.k.curr, User(rv)), sem))
    {
      hide KernelTables.Kernel.Valid, TablesOk, KInv, KernelState.Signal;
      ContKeepsKInv(kern.Abs(), kern.currpid, User(rv));
      kern.WriteCont(kern.currpid, User(rv));
      var r := kern.Signal(sem);
      PortsKept();
    }

    method Panic(ghost why: Stop)
      requires Valid()
      modifies Frame()
      ensures Valid() && Abs() == Halt(old(Abs()), why)
    {
      kern.halted := true;
      pt := pt.(stop := why);
      assert kern.Valid();
    }

    method EndSend(portid: int, seqno: int, msg: int)
      requires Valid() && Inv(Abs()) && kern.stacks[kern.currpid] == InSend(portid, seqno, msg)
      modifies Frame()
      ensures Valid() && Abs() == SendEnd(old(Abs()), portid, seqno, msg)
    {
      OpenFacts(portid);
      EndFacts(portid, seqno, true);
      hide KernelTables.Kernel.Valid, Own, KInv, PInv, ContsSane, Return, NodesOk;
      if porttab[portid].state != PtAlloc || porttab[portid].seqno != seqno {
        ReturnTo(SYSERR);
        return;
      }
      FreeFacts();
      if ptfree == NULL {
        Panic(OutOfNodes);
        return;
      }
      var rsem := porttab[portid].rsem;
      AppendTo(portid, msg);
      PassOn(OK, rsem);
    }

    method AppendTo(portid: int, msg: int)
      requires Valid() && NodesOk(pt) && 0 <= portid < porttab.Length && pt.tab[portid].linked && pt.free != []
      modifies Frame()
      ensures Valid() && Abs() == old(Abs()).(pt := Append(old(pt), portid, msg))
    {
      hide KernelTables.Kernel.Valid, TablesOk, NodesOk;
      AppendNode(portid, msg);
      KernelKept();
    }

    method TakeFrom(portid: int) returns (msg: int)
      requires Valid() && NodesOk(pt) && 0 <= portid < porttab.Length && pt.tab[portid].linked
      requires pt.tab[portid].list != []
      modifies Frame()
      ensures Valid() && Abs() == old(Abs()).(pt := TakeHead(old(pt), portid))
      ensures msg == old(pt).msgs[old(pt).tab[portid].list[0]]
    {
      hide KernelTables.Kernel.Valid, TablesOk, NodesOk;
      msg := UnlinkHead(portid);
      KernelKept();
    }

    /** What a process inside a port call may rely on: the port exists and, if open, is linked. */
    lemma EndFacts(portid: int, seqno: int, send: bool)
      requires Valid() && Inv(Abs())
      requires var c := kern.stacks[kern.currpid];
               if send then c.InSend? && c.port == portid && c.seqno == seqno
               else c.InRecv? && c.port == portid && c.seqno == seqno
      ensures 0 <= portid < porttab.Length && NodesOk(pt)
      ensures |pt.tab| == porttab.Length
      ensures pt.tab[portid].state == PtAlloc ==> pt.tab[portid].linked
      ensures !send && Current(pt, portid, seqno) ==> pt.tab[portid].list != []
    {
      var s := Abs();
      var w := W(s.k);
      assert s.k.conts[s.k.curr] == kern.stacks[kern.currpid];
      assert ContOk(w, pt, owner, s.k.conts[s.k.curr]) && PortOk(w, pt, owner, portid);
      WaitsFromKernel(s.k);
      if !send && Current(pt, portid, seqno) {
        HeadExists(w, pt, owner, s.k.curr);
      }
    }

    lemma FreeFacts()
      requires Valid()
      ensures ptfree == NULL <==> pt.free == []
    {
    }

    method EndRecv(portid: int, seqno: int)
      requires Valid() && Inv(Abs()) && kern.stacks[kern.currpid] == InRecv(portid, seqno)
      modifies Frame()
      ensures Valid() && Abs() == RecvEnd(old(Abs()), portid, seqno)
    {
      OpenFacts(portid);
      EndFacts(portid, seqno, false);
      hide KernelTables.Kernel.Valid, Own, KInv, PInv, ContsSane, Return, NodesOk;
      if porttab[portid].state != PtAlloc || porttab[portid].seqno != seqno {
        ReturnTo(SYSERR);
        return;
      }
      var ssem := porttab[portid].ssem;
      var msg := TakeFrom(portid);
      PassOn(msg, ssem);
    }

    // ----- ptclear.c, ptreset.c, ptdelete.c

    /** semreset or semdelete on one of the port's semaphores. */
    method ClearOne(sem: int, newstate: PtState, count: int)
      requires Valid() && KInv(kern.Abs())
      modifies Frame()
      ensures Valid() && Abs() == ClearSem(old(Abs()), sem, newstate, count)
    {
      hide KernelTables.Kernel.Valid, Own, KInv, KernelState.SemReset, KernelState.SemDelete;
      ghost var s := Abs();
      if newstate == PtAlloc {
        var r := kern.SemReset(sem, count);
        PortsKept();
      } else {
        var r := kern.SemDelete(sem);
        PortsKept();
        SetOwner(if BadSem(s.k, sem) then owner else owner[sem := UserSem]);
      }
    }

    /** The model's note of who created which semaphore. */
    ghost method SetOwner(o: seq<Owner>)
      requires Valid() && |o| == |owner|
      modifies this`owner
      ensures Valid() && Abs() == old(Abs()).(owner := o)
    {
      owner := o;
    }

    /** _ptclear up to and including the first semaphore. */
    method PtClear(portid: int, newstate: PtState)
      requires Valid() && Inv(Abs()) && kern.stacks[kern.currpid].User? && kern.ndefers == 0
      modifies Frame()
      ensures Valid() && Abs() == PortState.PtClear(old(Abs()), portid, newstate)
    {
      OpenFacts(portid);
      OpenLinked(portid);
      hide KernelTables.Kernel.Valid, Own, KInv, PInv, ContsSane, Return, ClearSem, NodesOk, Flush;
      if IsBadPort(portid) || porttab[portid].state != PtAlloc {
        ReturnTo(SYSERR);
        return;
      }
      var ssem, maxcnt := porttab[portid].ssem, porttab[portid].maxcnt;
      FlushTo(portid, newstate);
      ContKeepsKInv(kern.Abs(), kern.currpid, InClear(portid, newstate, 1));
      SaveCont(InClear(portid, newstate, 1));
      ClearOne(ssem, newstate, maxcnt);
    }

    method FlushTo(portid: int, newstate: PtState)
      requires Valid() && NodesOk(pt) && 0 <= portid < porttab.Length && pt.tab[portid].linked
      modifies Frame()
      ensures Valid() && Abs() == old(Abs()).(pt := Flush(old(pt), portid, newstate))
    {
      hide KernelTables.Kernel.Valid, TablesOk, NodesOk;
      FlushPort(portid, newstate);
      KernelKept();
    }

    method SaveCont(c: Cont)
      requires Valid()
      modifies Frame()
      ensures Valid() && Abs() == old(Abs()).(k := SetCont(old(kern.Abs()), old(kern.currpid), c))
    {
      assert 0 <= kern.currpid < kern.stacks.Length;
      hide KernelTables.Kernel.Valid, TablesOk;
      kern.WriteCont(kern.currpid, c);
      PortsKept();
    }

    lemma OpenLinked(portid: int)
      requires Valid() && Inv(Abs())
      ensures NodesOk(pt) && 0 <= kern.currpid < kern.stacks.Length
      ensures IsOpen(pt, portid) ==> pt.tab[portid].linked
    {
      if IsOpen(pt, portid) {
        assert PortOk(W(kern.Abs()), pt, owner, portid);
      }
    }

    /** The second semaphore, and then the state that the caller of _ptclear asked for. */
    method EndClear(portid: int, newstate: PtState, phase: int)
      requires Valid() && Inv(Abs()) && kern.stacks[kern.currpid] == InClear(portid, newstate, phase)
      modifies Frame()
      ensures 0 <= portid < |old(pt).tab| && Valid() && Abs() == ClearEnd(old(Abs()), portid, newstate, phase)
    {
      OpenFacts(portid);
      OpenLinked(portid);
      ClearInRange(portid);
      hide KernelTables.Kernel.Valid, Own, KInv, PInv, ContsSane, Return, ClearSem, NodesOk;
      if phase == 1 {
        ContKeepsKInv(kern.Abs(), kern.currpid, InClear(portid, newstate, 2));
        var rsem := porttab[portid].rsem;
        SaveCont(InClear(portid, newstate, 2));
        ClearOne(rsem, newstate, 0);
      } else {
        LeaveLimbo(portid, newstate);
        ReturnTo(OK);
      }
    }

    lemma ClearInRange(portid: int)
      requires Valid() && Inv(Abs()) && kern.stacks[kern.currpid].InClear?
      requires kern.stacks[kern.currpid].port == portid
      ensures 0 <= portid < porttab.Length && |pt.tab| == porttab.Length
    {
      var s := Abs();
      assert s.k.conts[s.k.curr] == kern.stacks[kern.currpid];
      assert ContOk(W(s.k), pt, owner, s.k.conts[s.k.curr]);
    }

    method LeaveLimbo(portid: int, newstate: PtState)
      requires Valid() && 0 <= portid < porttab.Length == |pt.tab|
      modifies Frame()
      ensures Valid()
      ensures var p := old(pt);
              Abs() == old(Abs()).(pt := p.(tab := p.tab[portid := p.tab[portid].(state := newstate)],
                                            nextid := if newstate == PtFree then portid else p.nextid))
    {
      hide KernelTables.Kernel.Valid;
      ghost var tab := porttab[..];
      porttab[portid] := porttab[portid].(state := newstate);
      if newstate == PtFree {
        ptnextid := portid;
      }
      pt := pt.(tab := pt.tab[portid := pt.tab[portid].(state := newstate)],
                nextid := if newstate == PtFree then portid else pt.nextid);
      assert porttab[..] == tab[portid := porttab[portid]];
      KernelKept();
    }

    method PtReset(portid: int)
      requires Valid() && Inv(Abs()) && Enabled(Abs(), ResetPort(portid))
      modifies Frame()
      ensures Valid() && Abs() == Apply(old(Abs()), ResetPort(portid))
    {
      hide KernelTables.Kernel.Valid, Own, KInv, PInv, ContsSane, PortState.PtClear;
      PtClear(portid, PtAlloc);
    }

    method PtDelete(portid: int)
      requires Valid() && Inv(Abs()) && Enabled(Abs(), DeletePort(portid))
      modifies Frame()
      ensures Valid() && Abs() == Apply(old(Abs()), DeletePort(portid))
    {
      hide KernelTables.Kernel.Valid, Own, KInv, PInv, ContsSane, PortState.PtClear;
      PtClear(portid, PtFree);
    }

    // ----- ptcreate.c, ptcount.c

    /** semcreate for one side of a port. */
    method ClaimSem(count: int, ghost o: Owner) returns (sem: int)
      requires Valid() && Counters(kern.Abs())
      modifies Frame()
      ensures Valid()
      ensures var (k, own, id) := Claim(old(kern.Abs()), old(owner), count, o);
              sem == id && Abs() == Sys(k, old(pt), own)
    {
      hide KernelTables.Kernel.Valid, Own, KernelState.SemCreate;
      ghost var s := Abs();
      sem := kern.SemCreate(count);
      PortsKept();
      ClaimRange(s.k, count);
      SetOwner(if sem == SYSERR then owner else owner[sem := o]);
    }

    static lemma ClaimRange(k: KState, count: int)
      requires Sized(k)
      ensures NewSem(k) == SYSERR || 0 <= NewSem(k) < |k.sems|
      ensures Counters(k) ==> Counters(KernelState.SemCreate(k, count))
    {
    }

    /** The assignments of ptcreate to the free entry that it has found. */
    method FillEntry(portid: int, count: int)
      requires Valid() && KInv(kern.Abs()) && 0 <= portid < porttab.Length == |pt.tab|
      requires ptnextid == Next(portid, porttab.Length)
      modifies Frame()
      ensures Valid() && Abs() == OpenPort(old(Abs()), count, portid)
    {
      hide KernelTables.Kernel.Valid, Own, AtRest, SemExact, Claim, KernelState.SemCreate;
      OpenFacts(portid);
      SizesKept();
      ghost var s := Abs();
      var seqno := porttab[portid].seqno;
      ClaimCounters(s.k, s.owner, count, SendSide(portid));
      var ssem := ClaimSem(count, SendSide(portid));
      var rsem := ClaimSem(0, RecvSide(portid));
      SetEntry(portid, PtEntry(PtAlloc, ssem, rsem, NULL, NULL, seqno + 1, count));
      ReturnTo(portid);
    }

    lemma SizesKept()
      requires Valid()
      ensures |pt.tab| == porttab.Length && pt.nextid == ptnextid
    {
    }

    static lemma ClaimCounters(k: KState, o: seq<Owner>, count: int, side: Owner)
      requires Sized(k) && Counters(k) && |o| == |k.sems|
      ensures Counters(Claim(k, o, count, side).0)
    {
    }

    method SetEntry(portid: int, e: PtEntry)
      requires Valid() && 0 <= portid < porttab.Length && e.head == e.tail == NULL
      modifies Frame()
      ensures Valid()
      ensures var p := old(pt);
              Abs() == old(Abs()).(pt := p.(
                                     tab := p.tab[portid := Port(e.state, e.ssem, e.rsem, [], true, e.seqno, e.maxcnt)],
                                     hist := p.hist[portid := NewEpoch]))
    {
      hide KernelTables.Kernel.Valid;
      ghost var tab := porttab[..];
      porttab[portid] := e;
      pt := pt.(tab := pt.tab[portid := Port(e.state, e.ssem, e.rsem, [], true, e.seqno, e.maxcnt)],
                hist := pt.hist[portid := NewEpoch]);
      assert porttab[..] == tab[portid := e];
      KernelKept();
    }

    /** The loop of ptcreate: each entry once, starting where the last search stopped. */
    method SearchFree() returns (ptnum: int)
      requires Valid() && (porttab.Length > 0 ==> 0 <= ptnextid < porttab.Length)
      modifies this`ptnextid, this`pt
      ensures Valid() && |old(pt).tab| == porttab.Length
      ensures porttab.Length == 0 ==> ptnum == SYSERR
      ensures porttab.Length > 0 ==> ptnum == FindPort(old(pt).tab, old(ptnextid), porttab.Length)
      ensures ptnum == SYSERR ==> Abs() == old(Abs())
      ensures ptnum != SYSERR ==>
                0 <= ptnum < porttab.Length && ptnextid == Next(ptnum, porttab.Length)
                && Abs() == old(Abs()).(pt := old(pt).(nextid := ptnextid))
    {
      SizesKept();
      hide KernelTables.Kernel.Valid, Own;
      ghost var s := Abs();
      var n := porttab.Length;
      for i := 0 to n
        invariant Valid() && Abs() == s.(pt := s.pt.(nextid := ptnextid)) && (n > 0 ==> 0 <= ptnextid < n)
        invariant n > 0 ==> FindPort(s.pt.tab, s.pt.nextid, n) == FindPort(s.pt.tab, ptnextid, n - i)
        invariant n > 0 ==> ptnextid == if s.pt.nextid + i < n then s.pt.nextid + i else s.pt.nextid + i - n
        invariant n == 0 ==> ptnextid == s.pt.nextid
      {
        ptnum := ptnextid;
        OpenFacts(ptnum);
        AdvanceNext();
        if porttab[ptnum].state == PtFree {
          return;
        }
      }
      return SYSERR;
    }

    method PtCreate(count: int)
      requires Valid() && Inv(Abs()) && kern.stacks[kern.currpid].User?
      modifies Frame()
      ensures Valid() && Abs() == PortState.PtCreate(old(Abs()), count)
    {
      ghost var s := Abs();
      NextInRange(s);
      SizesKept();
      hide KernelTables.Kernel.Valid, Own, PInv, KInv, ContsSane, Inv, OpenPort, Return, FindPort, SizedSys, Sized;
      if count < 0 {
        ReturnTo(SYSERR);
        return;
      }
      var ptnum := SearchFree();
      if ptnum == SYSERR {
        ReturnTo(SYSERR);
      } else {
        FillEntry(ptnum, count);
        OpenIgnoresNext(s, count, ptnum);
      }
    }

    static lemma OpenIgnoresNext(s: Sys, count: int, i: int)
      requires SizedSys(s) && 0 <= i < |s.pt.tab|
      ensures forall x :: OpenPort(s.(pt := s.pt.(nextid := x)), count, i) == OpenPort(s, count, i)
    {
      hide Claim;
    }

    method AdvanceNext()
      requires Valid() && porttab.Length > 0
      modifies this`ptnextid, this`pt
      ensures Valid() && ptnextid == Next(old(ptnextid), porttab.Length)
      ensures Abs() == old(Abs()).(pt := old(pt).(nextid := ptnextid))
    {
      hide KernelTables.Kernel.Valid;
      ptnextid := ptnextid + 1;
      if ptnextid >= porttab.Length {
        ptnextid := 0;
      }
      pt := pt.(nextid := ptnextid);
    }

    method PtCount(portid: int) returns (count: int)
      requires Valid()
      ensures count == PortState.PtCount(Abs(), portid)
    {
      OpenFacts(portid);
      hide KernelTables.Kernel.Valid, Own;
      if IsBadPort(portid) || porttab[portid].state != PtAlloc {
        return SYSERR;
      }
      count := kern.SemCount(porttab[portid].rsem);
      if count >= 0 {
        var sndcnt := kern.SemCount(porttab[portid].ssem);
        if sndcnt < 0 {
          count := count - sndcnt;
        }
      }
    }

    // ----- a process that is resumed in the middle of a call

    /** The end of kill; if the victim had been let through a port's semaphore, the model notes the loss. */
    method EndKill(victim: int)
      requires Valid() && Inv(Abs()) && kern.stacks[kern.currpid] == InKill(victim)
      modifies Frame()
      ensures 0 < victim < |old(Abs()).k.procs| && Valid() && Abs() == PtKillEnd(old(Abs()), victim)
    {
      KillFacts(victim);
      hide KernelTables.Kernel.Valid, TablesOk, KInv, PInv, ContsSane, KillEnd, AfterLoss;
      ghost var s := Abs();
      kern.EndKill(victim);
      PortsKept();
      NoteLoss(AfterLoss(s.k.sq, s.k.conts, s.pt, victim));
    }

    lemma KillFacts(victim: int)
      requires Valid() && Inv(Abs()) && kern.stacks[kern.currpid] == InKill(victim)
      ensures 0 < victim < kern.proctab.Length && kern.ndefers == 0 && KInv(kern.Abs())
    {
      var s := Abs();
      assert s.k.conts[s.k.curr] == kern.stacks[kern.currpid];
    }

    ghost method NoteLoss(h: seq<History>)
      requires Valid() && |h| == |pt.hist|
      modifies this`pt
      ensures Valid() && Abs() == old(Abs()).(pt := old(pt).(hist := h))
    {
      pt := pt.(hist := h);
    }

    /** ctxsw has just returned in the current process: the rest of its call runs. */
    method Continue()
      requires Valid() && Inv(Abs()) && Enabled(Abs(), Event.Continue)
      modifies Frame()
      ensures Valid() && Abs() == Apply(old(Abs()), Event.Continue)
    {
      hide KernelTables.Kernel.Valid, Own, KInv, PInv, ContsSane;
      ghost var s := Abs();
      assert 0 <= kern.currpid < kern.stacks.Length && s.k.conts[s.k.curr] == kern.stacks[kern.currpid];
      match kern.stacks[kern.currpid] {
        case User(_) =>
        case InReceive =>
          hide TakeMessage;
          kern.EndReceive();
          PortsKept();
        case InRecvTime =>
          hide TakeMessage;
          kern.EndReceive();
          PortsKept();
        case InKill(v) =>
          hide PtKillEnd;
          EndKill(v);
        case InSend(i, e, m) =>
          hide SendEnd;
          EndSend(i, e, m);
        case InRecv(i, e) =>
          hide RecvEnd;
          EndRecv(i, e);
        case InClear(i, ns, phase) =>
          hide ClearEnd;
          EndClear(i, ns, phase);
      }
    }
  }
}
