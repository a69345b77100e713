/**
 Buffer pools. The first word of a buffer links it to the next free one while it lies in its
 pool, and holds the identifier of that pool while somebody uses it.
 */
module BufferPools {
  import opened Sequences
  import opened QueueTables
  import opened KernelState

  const NULL: int := 0

  /** The size of the header word. */
  const WORD: int := 4

  ghost predicate OnAList(free: seq<seq<int>>, a: int) {
    exists i :: 0 <= i < |free| && a in free[i]
  }

  function Successor(list: seq<int>, j: int): int
    requires -1 <= j < |list|
  {
    if j + 1 < |list| then list[j + 1] else NULL
  }

  ghost predicate Link(mem: map<int, int>, list: seq<int>, j: int)
    requires 0 <= j < |list|
  {
    list[j] in mem && list[j] > NULL && mem[list[j]] == Successor(list, j)
  }

  /** The words in memory link the buffers of the list, from the first one on. */
  ghost predicate LinkedFrom(mem: map<int, int>, first: int, list: seq<int>) {
    first == Successor(list, -1) && forall j :: 0 <= j < |list| ==> Link(mem, list, j)
  }

  lemma LinkedElsewhere(mem: map<int, int>, first: int, list: seq<int>, a: int, v: int)
    requires LinkedFrom(mem, first, list) && a !in list
    ensures LinkedFrom(mem[a := v], first, list)
  {
    var m := mem[a := v];
    forall j | 0 <= j < |list| ensures Link(m, list, j) {
      assert Link(mem, list, j) && list[j] in list;
    }
  }

  lemma LinkedMember(mem: map<int, int>, first: int, list: seq<int>, a: int)
    requires LinkedFrom(mem, first, list) && a in list
    ensures a in mem && a > NULL
  {
    var j :| 0 <= j < |list| && list[j] == a;
    assert Link(mem, list, j);
  }

  lemma LinkedGrown(mem: map<int, int>, mem': map<int, int>, first: int, list: seq<int>)
    requires LinkedFrom(mem, first, list) && forall a :: a in mem ==> a in mem' && mem'[a] == mem[a]
    ensures LinkedFrom(mem', first, list)
  {
    forall j | 0 <= j < |list| ensures Link(mem', list, j) {
      assert Link(mem, list, j);
    }
  }

  lemma TailLinked(mem: map<int, int>, first: int, list: seq<int>)
    requires LinkedFrom(mem, first, list) && list != []
    ensures first in mem && LinkedFrom(mem, mem[first], list[1..])
  {
    assert Link(mem, list, 0);
    forall j | 0 <= j < |list[1..]| ensures Link(mem, list[1..], j) {
      assert Link(mem, list, j + 1);
    }
  }

  lemma HeadLinked(mem: map<int, int>, first: int, list: seq<int>, a: int)
    requires LinkedFrom(mem, first, list) && a in mem && a > NULL && mem[a] == first
    ensures LinkedFrom(mem, a, [a] + list)
  {
    var l := [a] + list;
    forall j | 0 <= j < |l| ensures Link(mem, l, j) {
      assert j > 0 ==> Link(mem, list, j - 1);
    }
  }

  class BufferTable {
    const NBPOOLS: nat
    const MINB: int
    const MAXB: int
    const MAXN: int
    const bpnext: array<int>
    const bpsize: array<int>
    const bpsem: array<int>
    var nbpools: int
    var mem: map<int, int>
    /** The free buffers of every pool, first one first. */
    ghost var free: seq<seq<int>>
    /** The pools in the protocol below, with their semaphores. */
    ghost var bufs: Bufs

    /** The protocol's pools have the same free buffers, and its buffers in use bear the same headers. */
    ghost predicate Mirrors()
      reads this
    {
      Mirrored(mem, free, bufs)
    }

    ghost predicate Valid()
      reads this, bpnext
    {
      && bpnext.Length == bpsize.Length == bpsem.Length == NBPOOLS
      && bpnext != bpsize && bpnext != bpsem && bpsize != bpsem
      && 0 <= nbpools <= NBPOOLS && |free| == nbpools && MINB >= 4
      && (forall i :: 0 <= i < nbpools ==> LinkedFrom(mem, bpnext[i], free[i]) && NoDup(free[i]))
      && (forall i, j, a :: 0 <= i < nbpools && 0 <= j < nbpools && a in free[i] && a in free[j] ==> i == j)
    }

    constructor (npools: nat, minb: int, maxb: int, maxn: int, ghost nproc: nat)
      requires minb >= 4
      ensures Mirrors() && bufs == Bufs([], Repeat(nproc, -1), map[])
      ensures Valid() && fresh(bpnext) && fresh(bpsize) && fresh(bpsem) && nbpools == 0 && mem == map[]
    {
      NBPOOLS, MINB, MAXB, MAXN := npools, minb, maxb, maxn;
      bpnext := new int[npools](_ => 0);
      bpsize := new int[npools](_ => 0);
      bpsem := new int[npools](_ => 0);
      nbpools := 0;
      mem := map[];
      free := [];
      bufs := Bufs([], Repeat(nproc, -1), map[]);
      NoPools(nproc);
    }

    /** buf and sem are what getmem and semcreate returned, SYSERR if they failed; the region that
        getmem hands out holds no other buffer. */
    method MkBufPool(bufsiz: int, numbufs: int, buf: int, sem: int) returns (poolid: int)
      requires Valid() && Mirrors() && (buf == SYSERR || buf > NULL)
      requires numbufs >= 0 ==> forall a :: a in Buffers(buf, (bufsiz + 3) / 4 * 4 + WORD, numbufs) ==> a !in mem
      modifies this, bpnext, bpsize, bpsem
      ensures Valid() && Mirrors()
      ensures poolid == SYSERR ==> bufs == old(bufs)
      ensures poolid == if bufsiz < MINB || bufsiz > MAXB || numbufs < 1 || numbufs > MAXN
                           || old(nbpools) >= NBPOOLS || buf == SYSERR || sem == SYSERR
                        then SYSERR else old(nbpools)
      ensures poolid == SYSERR ==> nbpools == old(nbpools) && free == old(free) && mem == old(mem)
      ensures poolid != SYSERR ==>
          && nbpools == old(nbpools) + 1 && bpsem[poolid] == sem
          && bpsize[poolid] == (bufsiz + 3) / 4 * 4
          && free == old(free) + [Buffers(buf, bpsize[poolid] + WORD, numbufs)]
          && (forall a :: a in old(mem) ==> a in mem && mem[a] == old(mem)[a])
          && (var made := MakePool(Buffers(buf, bpsize[poolid] + WORD, numbufs));
              && BufEnabled(old(bufs), made) && FreshBuffers(old(bufs), made)
              && bufs == BufApply(old(bufs), made))
    {
      hide Buffers, NoDup, BufsOk, BufApply, FreshBuffers, Mirrored;
      if bufsiz < MINB || bufsiz > MAXB || numbufs < 1 || numbufs > MAXN || nbpools >= NBPOOLS {
        return SYSERR;
      }
      var size := (bufsiz + 3) / 4 * 4;
      if buf == SYSERR {
        return SYSERR;
      }
      poolid := nbpools;
      if sem == SYSERR {
        return SYSERR;
      }
      ghost var list := Buffers(buf, size + WORD, numbufs);
      BuffersDiffer(buf, size + WORD, numbufs);
      forall i, a | 0 <= i < nbpools && a in free[i] ensures a !in list {
        LinkedMember(mem, bpnext[i], free[i], a);
      }
      MirrorMake(mem, bpnext[..], free, bufs, list);
      LinkBuffers(buf, size + WORD, numbufs);
      MirrorGrown(old(mem), mem, free + [list], BufApply(bufs, MakePool(list)));
      forall i | 0 <= i < nbpools ensures LinkedFrom(mem, bpnext[i], free[i]) {
        LinkedGrown(old(mem), mem, bpnext[i], free[i]);
      }
      hide LinkedFrom;
      bpnext[poolid] := buf;
      bpsize[poolid] := size;
      bpsem[poolid] := sem;
      nbpools := nbpools + 1;
      bufs := BufApply(bufs, MakePool(list));
      free := free + [list];
    }

    /** Every buffer is linked to the one behind it in memory, the last one to none. */
    method LinkBuffers(buf: int, size: int, numbufs: int)
      requires buf > NULL && size > 0 && numbufs >= 1
      requires forall a :: a in Buffers(buf, size, numbufs) ==> a !in mem
      modifies this`mem
      ensures LinkedFrom(mem, buf, Buffers(buf, size, numbufs))
      ensures forall a :: a in old(mem) ==> a in mem && mem[a] == old(mem)[a]
    {
      hide Buffers;
      BuffersDiffer(buf, size, numbufs);
      var addr, left := buf, numbufs - 1;
      ghost var list := Buffers(buf, size, numbufs);
      while left > 0
        invariant 0 <= left < numbufs && addr == list[numbufs - 1 - left]
        invariant forall j :: 0 <= j < numbufs - 1 - left ==> list[j] in mem && mem[list[j]] == list[j + 1]
        invariant forall a :: a in old(mem) ==> a in mem && mem[a] == old(mem)[a]
      {
        assert list[numbufs - left] == addr + size && addr in list;
        mem := mem[addr := addr + size];
        addr := addr + size;
        left := left - 1;
      }
      mem := mem[addr := NULL];
    }

    /** getbuf up to and including wait, whose effect on the pool's semaphore bufs records. */
    method StartGet(poolid: int, ghost pid: int) returns (status: int)
      requires Valid() && Mirrors() && 0 <= pid < |bufs.taking| && bufs.taking[pid] == -1
      modifies this`bufs
      ensures Valid() && Mirrors() && status == if poolid < 0 || poolid >= nbpools then SYSERR else OK
      ensures bufs == BufApply(old(bufs), Get(pid, poolid))
    {
      MirrorSame(mem, free, bufs, Get(pid, poolid));
      bufs := BufApply(bufs, Get(pid, poolid));
      return if poolid < 0 || poolid >= nbpools then SYSERR else OK;
    }

    /** getbuf once wait has returned: the first free buffer leaves the pool with its identifier. */
    method TakeBuffer(poolid: int, ghost pid: int) returns (addr: int)
      requires Valid() && Mirrors() && 0 <= poolid < nbpools
      requires BufEnabled(bufs, Take(pid)) && bufs.taking[pid] == poolid
      modifies this, bpnext
      ensures Valid() && Mirrors() && nbpools == old(nbpools)
      ensures bufs == BufApply(old(bufs), Take(pid)) && old(free)[poolid] != []
      ensures var a := old(free)[poolid][0];
              && addr == a + WORD && free == old(free)[poolid := old(free)[poolid][1..]]
              && mem == old(mem)[a := poolid] && !OnAList(free, a)
    {
      hide BufsOk;
      MirrorTake(mem, bpnext[..], free, bufs, pid);
      bufs := BufApply(bufs, Take(pid));
      var bufptr := bpnext[poolid];
      assert free[poolid][0] == bufptr;
      forall i | 0 <= i < nbpools ensures bufptr !in (if i == poolid then free[i][1..] else free[i]) {
        assert bufptr in free[poolid];
      }
      TailLinked(mem, bufptr, free[poolid]);
      bpnext[poolid] := mem[bufptr];
      mem := mem[bufptr := poolid];
      free := free[poolid := free[poolid][1..]];
      forall i | 0 <= i < nbpools ensures LinkedFrom(mem, bpnext[i], free[i]) {
        LinkedElsewhere(old(mem), bpnext[i], free[i], bufptr, poolid);
      }
      return bufptr + WORD;
    }

    /** freebuf: the header names the pool that the buffer goes back to; bufs records the signal. A
        buffer in use always meets what is required here. */
    method FreeBuf(bufaddr: int) returns (poolid: int)
      requires Valid() && bufaddr - WORD in mem && bufaddr - WORD > NULL && !OnAList(free, bufaddr - WORD)
      modifies this, bpnext
      ensures Valid() && nbpools == old(nbpools)
      ensures old(Mirrors()) && bufaddr - WORD in old(bufs).held ==>
          poolid != SYSERR && Mirrors() && bufs == BufApply(old(bufs), Give(bufaddr - WORD))
      ensures var a := bufaddr - WORD;
              var home := old(mem)[a];
              if 0 <= home < nbpools
              then poolid == home && free == old(free)[home := [a] + old(free)[home]]
              else poolid == SYSERR && free == old(free) && mem == old(mem)
    {
      hide BufsOk;
      var a := bufaddr - WORD;
      ghost var s0 := bufs;
      if Mirrors() && a in bufs.held {
        MirrorGive(mem, bpnext[..], free, bufs, a);
      }
      poolid := mem[a];
      if poolid < 0 || poolid >= nbpools {
        return SYSERR;
      }
      forall i | 0 <= i < nbpools ensures LinkedFrom(mem[a := bpnext[poolid]], bpnext[i], free[i]) {
        LinkedElsewhere(mem, bpnext[i], free[i], a, bpnext[poolid]);
      }
      mem := mem[a := bpnext[poolid]];
      HeadLinked(mem, bpnext[poolid], free[poolid], a);
      if a in bufs.held {
        bufs := BufApply(bufs, Give(a));
      }
      bpnext[poolid] := a;
      free := free[poolid := [a] + free[poolid]];
    }
  }

  // ----- the table and the protocol

  ghost predicate Mirrored(mem: map<int, int>, free: seq<seq<int>>, s: Bufs) {
    && BufsOk(s) && |s.pools| == |free|
    && (forall i :: 0 <= i < |free| ==> s.pools[i].free == free[i])
    && (forall a :: a in s.held ==> a in mem && mem[a] == s.held[a] && a > NULL)
  }

  ghost predicate AllLinked(mem: map<int, int>, first: seq<int>, free: seq<seq<int>>) {
    |free| <= |first| && forall i :: 0 <= i < |free| ==> LinkedFrom(mem, first[i], free[i])
  }

  /** A buffer of a pool is a free one or one in use, and both are in memory. */
  lemma PoolInMemory(mem: map<int, int>, first: seq<int>, free: seq<seq<int>>, s: Bufs, i: int, a: int)
    requires Mirrored(mem, free, s) && AllLinked(mem, first, free)
    requires 0 <= i < |s.pools| && a in s.pools[i].buffers
    ensures a in mem
  {
    assert PoolOk(s.pools[i], s.taking, s.held, i);
    hide Tokens, QueueOk, LinkedFrom;
    if a in s.pools[i].free {
      assert a in free[i];
      LinkedMember(mem, first[i], free[i], a);
    }
  }

  lemma MirrorMake(mem: map<int, int>, first: seq<int>, free: seq<seq<int>>, s: Bufs, list: seq<int>)
    requires Mirrored(mem, free, s) && AllLinked(mem, first, free)
    requires list != [] && NoDup(list) && forall a :: a in list ==> a !in mem
    ensures FreshBuffers(s, MakePool(list)) && Mirrored(mem, free + [list], BufApply(s, MakePool(list)))
  {
    hide PoolOk, LinkedFrom, NoDup;
    forall i, a | 0 <= i < |s.pools| && a in list ensures a !in s.pools[i].buffers {
      if a in s.pools[i].buffers {
        PoolInMemory(mem, first, free, s, i, a);
      }
    }
    BufStep(s, MakePool(list));
    hide BufsOk;
  }

  lemma MirrorGrown(mem: map<int, int>, mem': map<int, int>, free: seq<seq<int>>, s: Bufs)
    requires Mirrored(mem, free, s) && forall a :: a in mem ==> a in mem' && mem'[a] == mem[a]
    ensures Mirrored(mem', free, s)
  {
    hide BufsOk;
  }

  lemma MirrorSame(mem: map<int, int>, free: seq<seq<int>>, s: Bufs, e: BufEvent)
    requires Mirrored(mem, free, s) && BufEnabled(s, e) && (e.Get? || e.Die?)
    ensures Mirrored(mem, free, BufApply(s, e))
  {
    hide BufsOk, Without;
    BufStep(s, e);
  }

  lemma MirrorTake(mem: map<int, int>, first: seq<int>, free: seq<seq<int>>, s: Bufs, pid: int)
    requires Mirrored(mem, free, s) && AllLinked(mem, first, free) && BufEnabled(s, Take(pid))
    ensures var i := s.taking[pid];
            && 0 <= i < |free| && free[i] != []
            && Mirrored(mem[free[i][0] := i], free[i := free[i][1..]], BufApply(s, Take(pid)))
  {
    var i := s.taking[pid];
    TakerFindsBuffer(s, pid);
    BufStep(s, Take(pid));
    HeadOfPool(s, i);
    LinkedMember(mem, first[i], free[i], free[i][0]);
    hide BufsOk, LinkedFrom;
  }

  lemma MirrorGive(mem: map<int, int>, first: seq<int>, free: seq<seq<int>>, s: Bufs, a: int)
    requires Mirrored(mem, free, s) && AllLinked(mem, first, free) && a in s.held
    ensures var i := mem[a];
            && 0 <= i < |free| && i < |first| && !OnAList(free, a)
            && Mirrored(mem[a := first[i]], free[i := [a] + free[i]], BufApply(s, Give(a)))
  {
    var i := s.held[a];
    BufStep(s, Give(a));
    BuffersGoHome(s, a);
    NotFree(s, a);
    hide BufsOk, LinkedFrom, PSignal;
  }

  lemma NotFree(s: Bufs, a: int)
    requires BufsOk(s) && a in s.held
    ensures forall i :: 0 <= i < |s.pools| ==> a !in s.pools[i].free
  {
    forall i | 0 <= i < |s.pools| ensures a !in s.pools[i].free {
      assert PoolOk(s.pools[i], s.taking, s.held, i);
    }
  }

  /** The addresses of n buffers in a row. */
  function Buffers(buf: int, size: int, n: nat): (r: seq<int>)
    ensures |r| == n && (n > 0 ==> r[0] == buf)
    decreases n
  {
    if n == 0 then [] else [buf] + Buffers(buf + size, size, n - 1)
  }

  lemma {:induction false} BuffersDiffer(buf: int, size: int, n: nat)
    requires size > 0
    ensures NoDup(Buffers(buf, size, n))
    ensures forall j :: 0 < j < n ==> Buffers(buf, size, n)[j] == Buffers(buf, size, n)[j - 1] + size
    ensures forall j :: 0 <= j < n ==> Buffers(buf, size, n)[j] >= buf
    decreases n
  {
    if n > 0 {
      var b, t := Buffers(buf, size, n), Buffers(buf + size, size, n - 1);
      BuffersDiffer(buf + size, size, n - 1);
      assert forall j :: 0 < j < n ==> b[j] == t[j - 1];
    }
  }

  // ----- the protocol

  /** A pool with the count and the queue of its semaphore. lost: takers that were killed after wait
      had let them through. */
  datatype Pool = Pool(count: int, queue: seq<int>, free: seq<int>, buffers: set<int>, lost: nat)

  /** taking: the pool whose getbuf a process is in the middle of, or -1. held: the header words of
      the buffers in use. */
  datatype Bufs = Bufs(pools: seq<Pool>, taking: seq<int>, held: map<int, int>)

  datatype BufEvent = MakePool(bufs: seq<int>) | Get(pid: int, pool: int) | Take(pid: int) | Give(addr: int)
      | Die(pid: int)

  function PWait(b: Pool, p: int): Pool {
    b.(count := b.count - 1, queue := if b.count - 1 < 0 then b.queue + [p] else b.queue)
  }

  function PSignal(b: Pool): Pool {
    b.(count := b.count + 1, queue := if b.count < 0 && b.queue != [] then b.queue[1..] else b.queue)
  }

  function PLeave(b: Pool, p: int): Pool {
    b.(count := b.count + 1, queue := Without(b.queue, p))
  }

  /** They are what wait and signal do to the pool's semaphore. */
  lemma PoolSemaphore(k: KState, s: int, b: Pool)
    requires Sized(k) && !BadSem(k, s) && b.count == k.sems[s].count && b.queue == k.sq[s]
    ensures SemWait(k, s).sems[s].count == PWait(b, k.curr).count && SemWait(k, s).sq[s] == PWait(b, k.curr).queue
    ensures Signal(k, s).sems[s].count == PSignal(b).count && Signal(k, s).sq[s] == PSignal(b).queue
  {
    hide Resched;
  }

  predicate Waiting(s: Bufs, p: int)
    requires 0 <= p < |s.taking|
  {
    0 <= s.taking[p] < |s.pools| && p in s.pools[s.taking[p]].queue
  }

  predicate BufEnabled(s: Bufs, e: BufEvent) {
    match e
    case MakePool(bufs) => bufs != []
    case Get(p, i) => 0 <= p < |s.taking| && s.taking[p] == -1
    case Take(p) => 0 <= p < |s.taking| && s.taking[p] != -1 && !Waiting(s, p)
    case Give(a) => a in s.held
    case Die(p) => 0 <= p < |s.taking|
  }

  /** Taking from an empty list would follow a NULL pointer: the state does not change, and the
      theorem below shows that it never happens. */
  function TakeFrom(s: Bufs, p: int, i: int): Bufs
    requires 0 <= p < |s.taking| && 0 <= i < |s.pools|
  {
    var b := s.pools[i];
    if b.free == [] then s
    else s.(pools := s.pools[i := b.(free := b.free[1..])], taking := s.taking[p := -1], held := s.held[b.free[0] := i])
  }

  function BufApply(s: Bufs, e: BufEvent): Bufs
    requires BufEnabled(s, e)
  {
    match e
    case MakePool(bufs) => s.(pools := s.pools + [Pool(|bufs|, [], bufs, set a | a in bufs, 0)])
    case Get(p, i) =>
      if 0 <= i < |s.pools| then s.(pools := s.pools[i := PWait(s.pools[i], p)], taking := s.taking[p := i]) else s
    case Take(p) => if 0 <= s.taking[p] < |s.pools| then TakeFrom(s, p, s.taking[p]) else s
    case Give(a) =>
      var i := s.held[a];
      if 0 <= i < |s.pools| then
        s.(pools := s.pools[i := PSignal(s.pools[i].(free := [a] + s.pools[i].free))], held := s.held - {a})
      else s
    case Die(p) =>
      var i := s.taking[p];
      if !(0 <= i < |s.pools|) then s
      else if p in s.pools[i].queue then s.(pools := s.pools[i := PLeave(s.pools[i], p)], taking := s.taking[p := -1])
      else s.(pools := s.pools[i := s.pools[i].(lost := s.pools[i].lost + 1)], taking := s.taking[p := -1])
  }

  /** The processes that the pool's semaphore has let through and that have not taken a buffer yet. */
  ghost function Granted(taking: seq<int>, queue: seq<int>, i: int): set<int> {
    set p | 0 <= p < |taking| && taking[p] == i && p !in queue
  }

  ghost predicate QueueOk(b: Pool, taking: seq<int>, i: int) {
    && NoDup(b.queue) && (forall p :: p in b.queue ==> 0 <= p < |taking| && taking[p] == i)
    && (b.count >= 0 ==> b.queue == []) && (b.count < 0 ==> |b.queue| == -b.count)
  }

  /** Every free buffer is one that the semaphore counts, one promised to a process on its way, or one
      left behind by a process that was killed on its way. */
  ghost predicate Tokens(b: Pool, taking: seq<int>, i: int) {
    |b.free| == (if b.count < 0 then 0 else b.count) + |Granted(taking, b.queue, i)| + b.lost
  }

  /** A pool's buffers are its free ones and those in use that bear its identifier. */
  ghost predicate BuffersOk(b: Pool, held: map<int, int>, i: int) {
    && NoDup(b.free)
    && (forall a :: a in b.free ==> a in b.buffers && a !in held)
    && (forall a :: a in b.buffers ==> a in b.free || (a in held && held[a] == i))
    && (forall a :: a in held && held[a] == i ==> a in b.buffers)
  }

  ghost predicate PoolOk(b: Pool, taking: seq<int>, held: map<int, int>, i: int) {
    QueueOk(b, taking, i) && Tokens(b, taking, i) && BuffersOk(b, held, i)
  }

  ghost predicate BufsOk(s: Bufs) {
    && (forall i :: 0 <= i < |s.pools| ==> PoolOk(s.pools[i], s.taking, s.held, i))
    && (forall i, j, a ::
          0 <= i < |s.pools| && 0 <= j < |s.pools| && a in s.pools[i].buffers && a in s.pools[j].buffers ==> i == j)
    && (forall a :: a in s.held ==> 0 <= s.held[a] < |s.pools|)
    && (forall p :: 0 <= p < |s.taking| ==> -1 <= s.taking[p] < |s.pools|)
  }

  /** New pools are made of memory that no pool has. */
  ghost predicate FreshBuffers(s: Bufs, e: BufEvent) {
    e.MakePool? ==>
      && NoDup(e.bufs)
      && (forall i, a :: 0 <= i < |s.pools| && a in e.bufs ==> a !in s.pools[i].buffers)
  }

  lemma GrantedSame(taking: seq<int>, taking': seq<int>, queue: seq<int>, queue': seq<int>, i: int)
    requires |taking'| == |taking|
    requires forall p :: 0 <= p < |taking| ==> (taking[p] == i && p !in queue <==> taking'[p] == i && p !in queue')
    ensures Granted(taking', queue', i) == Granted(taking, queue, i)
  {
  }

  lemma GrantedMore(taking: seq<int>, taking': seq<int>, queue: seq<int>, queue': seq<int>, i: int, x: int)
    requires |taking'| == |taking| && 0 <= x < |taking|
    requires forall p :: 0 <= p < |taking| && p != x ==>
        (taking[p] == i && p !in queue <==> taking'[p] == i && p !in queue')
    requires !(taking[x] == i && x !in queue) && taking'[x] == i && x !in queue'
    ensures |Granted(taking', queue', i)| == |Granted(taking, queue, i)| + 1
  {
    assert Granted(taking', queue', i) == Granted(taking, queue, i) + {x};
  }

  /** A process on its way finds a free buffer. */
  lemma TakerFindsBuffer(s: Bufs, p: int)
    requires BufsOk(s) && BufEnabled(s, Take(p))
    ensures 0 <= s.taking[p] < |s.pools| && s.pools[s.taking[p]].free != []
  {
    var i := s.taking[p];
    assert PoolOk(s.pools[i], s.taking, s.held, i);
    assert p in Granted(s.taking, s.pools[i].queue, i);
  }

  /** A pool that the event does not concern. */
  lemma OtherPool(b: Pool, taking: seq<int>, held: map<int, int>, taking': seq<int>, held': map<int, int>, i: int)
    requires PoolOk(b, taking, held, i) && |taking'| == |taking|
    requires forall p :: 0 <= p < |taking| && taking'[p] != taking[p] ==> taking[p] != i && taking'[p] != i
    requires forall a :: a in held && (a !in held' || held'[a] != held[a]) ==> held[a] != i
    requires forall a :: a in held' && (a !in held || held'[a] != held[a]) ==> held'[a] != i && a !in b.buffers
    ensures PoolOk(b, taking', held', i)
  {
    GrantedSame(taking, taking', b.queue, b.queue, i);
  }

  lemma NewPool(s: Bufs, bufs: seq<int>)
    requires BufsOk(s) && NoDup(bufs)
    requires forall i, a :: 0 <= i < |s.pools| && a in bufs ==> a !in s.pools[i].buffers
    ensures PoolOk(Pool(|bufs|, [], bufs, set a | a in bufs, 0), s.taking, s.held, |s.pools|)
  {
    assert Granted(s.taking, [], |s.pools|) == {};
    forall a | a in s.held ensures a !in bufs {
      assert PoolOk(s.pools[s.held[a]], s.taking, s.held, s.held[a]);
    }
  }

  lemma GetPool(s: Bufs, p: int, i: int)
    requires BufsOk(s) && 0 <= p < |s.taking| && s.taking[p] == -1 && 0 <= i < |s.pools|
    ensures PoolOk(PWait(s.pools[i], p), s.taking[p := i], s.held, i)
  {
    var b := s.pools[i];
    assert PoolOk(b, s.taking, s.held, i);
    var b', t' := PWait(b, p), s.taking[p := i];
    if b.count > 0 {
      GrantedMore(s.taking, t', b.queue, b'.queue, i, p);
    } else {
      GrantedSame(s.taking, t', b.queue, b'.queue, i);
    }
  }

  lemma TakePool(s: Bufs, p: int)
    requires BufsOk(s) && BufEnabled(s, Take(p))
    ensures var i := s.taking[p];
            && 0 <= i < |s.pools| && s.pools[i].free != []
            && (var b := s.pools[i];
                PoolOk(b.(free := b.free[1..]), s.taking[p := -1], s.held[b.free[0] := i], i))
  {
    TakerFindsBuffer(s, p);
    var i := s.taking[p];
    var b := s.pools[i];
    assert PoolOk(b, s.taking, s.held, i);
    GrantedMore(s.taking[p := -1], s.taking, b.queue, b.queue, i, p);
    hide Granted;
    WithoutHead(b.free);
    assert b.free[0] in b.free;
  }

  lemma GivePool(s: Bufs, a: int)
    requires BufsOk(s) && a in s.held
    ensures var i := s.held[a];
            0 <= i < |s.pools| && PoolOk(PSignal(s.pools[i].(free := [a] + s.pools[i].free)), s.taking, s.held - {a}, i)
  {
    var i := s.held[a];
    var b := s.pools[i].(free := [a] + s.pools[i].free);
    assert PoolOk(s.pools[i], s.taking, s.held, i);
    hide NoDup, Granted;
    GiveBuffer(s.pools[i], s.held, i, a);
    SignalQueue(b, s.taking, i);
  }

  lemma GiveBuffer(b: Pool, held: map<int, int>, i: int, a: int)
    requires BuffersOk(b, held, i) && a in held && held[a] == i
    ensures BuffersOk(b.(free := [a] + b.free), held - {a}, i)
  {
  }

  lemma SignalQueue(b: Pool, taking: seq<int>, i: int)
    requires QueueOk(b, taking, i)
    ensures QueueOk(PSignal(b), taking, i)
    ensures (if b.count < 0 then 0 else b.count) + |Granted(taking, b.queue, i)| + 1
         == (if PSignal(b).count < 0 then 0 else PSignal(b).count) + |Granted(taking, PSignal(b).queue, i)|
  {
    if b.count < 0 {
      WithoutHead(b.queue);
      assert b.queue[0] in b.queue;
      GrantedMore(taking, taking, b.queue, PSignal(b).queue, i, b.queue[0]);
    }
    hide Granted, NoDup;
  }

  lemma DiePool(s: Bufs, p: int)
    requires BufsOk(s) && 0 <= p < |s.taking| && 0 <= s.taking[p] < |s.pools|
    ensures var i := s.taking[p];
            PoolOk(BufApply(s, Die(p)).pools[i], s.taking[p := -1], s.held, i)
  {
    var i := s.taking[p];
    var b := s.pools[i];
    var t' := s.taking[p := -1];
    assert PoolOk(b, s.taking, s.held, i);
    if p in b.queue {
      WithoutElements(b.queue, p);
      GrantedSame(s.taking, t', b.queue, PLeave(b, p).queue, i);
    } else {
      GrantedMore(t', s.taking, b.queue, b.queue, i, p);
    }
    hide Granted, Without;
  }

  /** Only pool i has changed, and the other pools' processes and buffers are as they were. */
  ghost predicate OnlyPool(s: Bufs, r: Bufs, i: int) {
    && |r.pools| == |s.pools| && |r.taking| == |s.taking| && 0 <= i < |s.pools|
    && r.pools[i].buffers == s.pools[i].buffers
    && (forall j :: 0 <= j < |s.pools| && j != i ==> r.pools[j] == s.pools[j])
    && (forall p :: 0 <= p < |s.taking| && r.taking[p] != s.taking[p] ==>
          (s.taking[p] == -1 || s.taking[p] == i) && (r.taking[p] == -1 || r.taking[p] == i))
    && (forall a :: a in s.held && (a !in r.held || r.held[a] != s.held[a]) ==> s.held[a] == i)
    && (forall a :: a in r.held && (a !in s.held || r.held[a] != s.held[a]) ==>
          r.held[a] == i && a in s.pools[i].buffers)
  }

  lemma Assembled(s: Bufs, r: Bufs, i: int)
    requires BufsOk(s) && OnlyPool(s, r, i) && PoolOk(r.pools[i], r.taking, r.held, i)
    ensures BufsOk(r)
  {
    forall j | 0 <= j < |r.pools| ensures PoolOk(r.pools[j], r.taking, r.held, j) {
      if j != i {
        OtherPool(s.pools[j], s.taking, s.held, r.taking, r.held, j);
      }
    }
    hide PoolOk;
  }

  lemma TakeStep(s: Bufs, p: int)
    requires BufsOk(s) && BufEnabled(s, Take(p))
    ensures BufsOk(BufApply(s, Take(p)))
  {
    hide PoolOk;
    var i := s.taking[p];
    TakePool(s, p);
    HeadOfPool(s, i);
    var r := BufApply(s, Take(p));
    assert OnlyPool(s, r, i);
    hide BufApply;
    Assembled(s, r, i);
  }

  lemma GetStep(s: Bufs, p: int, i: int)
    requires BufsOk(s) && BufEnabled(s, Get(p, i)) && 0 <= i < |s.pools|
    ensures BufsOk(BufApply(s, Get(p, i)))
  {
    hide PoolOk, PWait;
    GetPool(s, p, i);
    PoolBuffers(s.pools[i], p);
    var r := BufApply(s, Get(p, i));
    assert OnlyPool(s, r, i);
    hide BufApply;
    Assembled(s, r, i);
  }

  lemma PoolBuffers(b: Pool, p: int)
    ensures PWait(b, p).buffers == b.buffers && PSignal(b).buffers == b.buffers && PLeave(b, p).buffers == b.buffers
  {
  }

  lemma GiveStep(s: Bufs, a: int)
    requires BufsOk(s) && BufEnabled(s, Give(a))
    ensures BufsOk(BufApply(s, Give(a)))
  {
    hide PoolOk, PSignal;
    var i := s.held[a];
    GivePool(s, a);
    PoolBuffers(s.pools[i].(free := [a] + s.pools[i].free), 0);
    var r := BufApply(s, Give(a));
    assert OnlyPool(s, r, i);
    hide BufApply;
    Assembled(s, r, i);
  }

  lemma DieStep(s: Bufs, p: int)
    requires BufsOk(s) && BufEnabled(s, Die(p)) && 0 <= s.taking[p] < |s.pools|
    ensures BufsOk(BufApply(s, Die(p)))
  {
    hide PoolOk, PLeave;
    var i := s.taking[p];
    DiePool(s, p);
    PoolBuffers(s.pools[i], p);
    var r := BufApply(s, Die(p));
    assert OnlyPool(s, r, i);
    hide BufApply;
    Assembled(s, r, i);
  }

  lemma MakeStep(s: Bufs, bufs: seq<int>)
    requires BufsOk(s) && BufEnabled(s, MakePool(bufs)) && FreshBuffers(s, MakePool(bufs))
    ensures BufsOk(BufApply(s, MakePool(bufs)))
  {
    NewPool(s, bufs);
    hide PoolOk;
  }

  /** Every step keeps all pools in order. */
  lemma BufStep(s: Bufs, e: BufEvent)
    requires BufsOk(s) && BufEnabled(s, e) && FreshBuffers(s, e)
    ensures BufsOk(BufApply(s, e))
  {
    hide BufsOk, PWait, PSignal, PLeave, TakeFrom;
    match e
    case MakePool(bufs) => MakeStep(s, bufs);
    case Get(p, i) => if 0 <= i < |s.pools| { GetStep(s, p, i); }
    case Take(p) => TakeStep(s, p);
    case Give(a) => GiveStep(s, a);
    case Die(p) => if 0 <= s.taking[p] < |s.pools| { DieStep(s, p); }
  }

  lemma FreeMember(b: Pool, held: map<int, int>, i: int, a: int)
    requires BuffersOk(b, held, i) && a in b.free
    ensures a in b.buffers && a !in held
  {
  }

  lemma HeadOfPool(s: Bufs, i: int)
    requires BufsOk(s) && 0 <= i < |s.pools| && s.pools[i].free != []
    ensures s.pools[i].free[0] in s.pools[i].buffers && s.pools[i].free[0] !in s.held
  {
    var b := s.pools[i];
    assert PoolOk(b, s.taking, s.held, i);
    FreeMember(b, s.held, i, b.free[0]);
  }

  ghost predicate BufRun(s: Bufs, es: seq<BufEvent>)
    decreases |es|
  {
    es != [] ==> BufEnabled(s, es[0]) && FreshBuffers(s, es[0]) && BufRun(BufApply(s, es[0]), es[1..])
  }

  function BufAfter(s: Bufs, es: seq<BufEvent>): Bufs
    requires BufRun(s, es)
    decreases |es|
  {
    if es == [] then s else BufAfter(BufApply(s, es[0]), es[1..])
  }

  /** From a state without pools, every run keeps them in order: getbuf never follows a NULL pointer,
      and a buffer that is given back goes to the pool it came from. */
  lemma {:induction false} BufRunOk(s: Bufs, es: seq<BufEvent>)
    requires BufsOk(s) && BufRun(s, es)
    ensures BufsOk(BufAfter(s, es))
    decreases |es|
  {
    if es != [] {
      BufStep(s, es[0]);
      hide BufsOk, BufEnabled, FreshBuffers;
      BufRunOk(BufApply(s, es[0]), es[1..]);
    }
  }

  lemma BuffersGoHome(s: Bufs, a: int)
    requires BufsOk(s) && BufEnabled(s, Give(a))
    ensures var i := s.held[a];
            0 <= i < |s.pools| && a in s.pools[i].buffers
            && BufApply(s, Give(a)).pools[i].free == [a] + s.pools[i].free
            && (forall j :: 0 <= j < |s.pools| && j != i ==> BufApply(s, Give(a)).pools[j] == s.pools[j])
  {
    assert PoolOk(s.pools[s.held[a]], s.taking, s.held, s.held[a]);
  }

  lemma NoPools(n: nat)
    ensures BufsOk(Bufs([], Repeat(n, -1), map[]))
  {
  }
}
