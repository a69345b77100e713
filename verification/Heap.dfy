/**
 The heap in memory: every free block begins with a header that holds its length and the
 address of the next one; memlist is the header of the list. The calls walk and relink these
 headers in place.
 */
module Heaps {
  import opened Sequences
  import opened QueueTables
  import opened FreeLists

  const NULL: int := 0

  /** The address of memlist, a variable below the heap. */
  const MEMLIST: int := 4

  datatype MemBlk = MemBlk(mnext: int, mlength: int)

  function NextAddr(bs: seq<Block>, i: nat): int {
    if i < |bs| then bs[i].addr else NULL
  }

  /** The header whose link leads to block i. */
  function PrevAddr(bs: seq<Block>, i: nat): int
    requires i <= |bs|
  {
    if i == 0 then MEMLIST else bs[i - 1].addr
  }

  ghost predicate Ascending(bs: seq<Block>) {
    && (forall i :: 0 <= i < |bs| ==> bs[i].addr > MEMLIST)
    && (forall i, j :: 0 <= i < j < |bs| ==> bs[i].addr < bs[j].addr)
  }

  ghost predicate Header(mem: map<int, MemBlk>, bs: seq<Block>, i: int)
    requires 0 <= i < |bs|
  {
    bs[i].addr in mem && mem[bs[i].addr] == MemBlk(NextAddr(bs, i + 1), bs[i].len)
  }

  /** The headers in memory are those of the list bs. */
  ghost predicate Chain(mem: map<int, MemBlk>, bs: seq<Block>) {
    && MEMLIST in mem && mem[MEMLIST].mnext == NextAddr(bs, 0)
    && Ascending(bs)
    && (forall i :: 0 <= i < |bs| ==> Header(mem, bs, i))
  }

  lemma ChainPrev(mem: map<int, MemBlk>, bs: seq<Block>, i: nat)
    requires Chain(mem, bs) && i <= |bs|
    ensures PrevAddr(bs, i) in mem && mem[PrevAddr(bs, i)].mnext == NextAddr(bs, i)
    ensures i > 0 ==> mem[PrevAddr(bs, i)].mlength == bs[i - 1].len && PrevAddr(bs, i) > MEMLIST
    ensures i < |bs| ==> bs[i].addr in mem && mem[bs[i].addr] == MemBlk(NextAddr(bs, i + 1), bs[i].len)
    ensures i < |bs| ==> bs[i].addr > MEMLIST && PrevAddr(bs, i) < bs[i].addr
  {
    assert i > 0 ==> Header(mem, bs, i - 1);
    assert i < |bs| ==> Header(mem, bs, i);
  }

  /** Block i gives way to the blocks mid: the predecessor's link and the new headers are written. */
  lemma ChainReplace(mem: map<int, MemBlk>, bs: seq<Block>, i: nat, j: nat, mid: seq<Block>,
                     mem': map<int, MemBlk>, r: seq<Block>)
    requires Chain(mem, bs) && i <= j <= |bs| && |mid| <= 1
    requires r == bs[..i] + mid + bs[j..]
    requires mid != [] ==> PrevAddr(bs, i) < mid[0].addr && (j < |bs| ==> mid[0].addr < bs[j].addr)
    requires forall x :: x in mem ==> x in mem'
    requires forall x :: x in mem && x != PrevAddr(bs, i) && (mid != [] ==> x != mid[0].addr) ==> mem'[x] == mem[x]
    requires var p := PrevAddr(bs, i);
             p in mem && p in mem' && mem'[p] == mem[p].(mnext := NextAddr(r, i))
    requires mid != [] ==> mid[0].addr in mem' && mem'[mid[0].addr] == MemBlk(NextAddr(bs, j), mid[0].len)
    ensures Chain(mem', r)
  {
    AscendingReplace(bs, i, j, mid, r);
    var m := |mid|;
    forall k | 0 <= k < |r| ensures Header(mem', r, k) {
      if k < i {
        assert Header(mem, bs, k) && r[k] == bs[k];
        assert k + 1 < i ==> r[k + 1] == bs[k + 1];
        assert k < i - 1 ==> bs[k].addr < bs[i - 1].addr;
      } else if k >= i + m {
        assert Header(mem, bs, k - i - m + j) && r[k] == bs[k - i - m + j];
        assert k + 1 < |r| ==> r[k + 1] == bs[k + 1 - i - m + j];
        assert i > 0 ==> bs[i - 1].addr < bs[k - i - m + j].addr;
      } else {
        assert r[k] == mid[0];
        assert k + 1 < |r| ==> r[k + 1] == bs[j];
      }
    }
  }

  lemma AscendingReplace(bs: seq<Block>, i: nat, j: nat, mid: seq<Block>, r: seq<Block>)
    requires Ascending(bs) && i <= j <= |bs| && |mid| <= 1 && r == bs[..i] + mid + bs[j..]
    requires mid != [] ==> PrevAddr(bs, i) < mid[0].addr && (j < |bs| ==> mid[0].addr < bs[j].addr)
    ensures Ascending(r)
  {
    var m := |mid|;
    forall k | 0 <= k < |r|
      ensures r[k] == if k < i then bs[k] else if k < i + m then mid[0] else bs[k - i - m + j]
      ensures m > 0 && k < i ==> r[k].addr < mid[0].addr
      ensures m > 0 && k > i ==> mid[0].addr < r[k].addr
    {
      assert k < i - 1 ==> bs[k].addr < bs[i - 1].addr;
      assert k > i + m ==> bs[j].addr < bs[k - i - m + j].addr;
    }
  }

  lemma ChainRemove(mem: map<int, MemBlk>, bs: seq<Block>, i: nat)
    requires Chain(mem, bs) && i < |bs|
    ensures var p := PrevAddr(bs, i);
            p in mem && Chain(mem[p := mem[p].(mnext := NextAddr(bs, i + 1))], RemoveAt(bs, i))
  {
    hide Chain, Ascending;
    var p, r := PrevAddr(bs, i), RemoveAt(bs, i);
    ChainPrev(mem, bs, i);
    assert r == bs[..i] + [] + bs[i + 1..];
    ChainReplace(mem, bs, i, i + 1, [], mem[p := mem[p].(mnext := NextAddr(bs, i + 1))], r);
  }

  /** Block i changes its length, or shrinks from below: its header moves up. */
  lemma ChainMove(mem: map<int, MemBlk>, bs: seq<Block>, i: nat, b: Block)
    requires Chain(mem, bs) && i < |bs| && bs[i].addr <= b.addr && (i + 1 < |bs| ==> b.addr < bs[i + 1].addr)
    ensures var p := PrevAddr(bs, i);
            p in mem && Chain(mem[p := mem[p].(mnext := b.addr)][b.addr := MemBlk(NextAddr(bs, i + 1), b.len)],
                bs[i := b])
  {
    hide Chain, Ascending;
    var p := PrevAddr(bs, i);
    ChainPrev(mem, bs, i);
    assert bs[i := b] == bs[..i] + [b] + bs[i + 1..];
    ChainReplace(mem, bs, i, i + 1, [b],
                 mem[p := mem[p].(mnext := b.addr)][b.addr := MemBlk(NextAddr(bs, i + 1), b.len)], bs[i := b]);
  }

  lemma ChainResize(mem: map<int, MemBlk>, bs: seq<Block>, i: nat, len: int)
    requires Chain(mem, bs) && i < |bs|
    ensures var a := bs[i].addr;
            a in mem && Chain(mem[a := mem[a].(mlength := len)], bs[i := Block(a, len)])
  {
    hide Chain, Ascending;
    var p, b := PrevAddr(bs, i), Block(bs[i].addr, len);
    ChainPrev(mem, bs, i);
    if i + 1 < |bs| {
      ChainPrev(mem, bs, i + 1);
    }
    ChainMove(mem, bs, i, b);
    assert mem[p := mem[p].(mnext := b.addr)] == mem;
  }

  lemma ChainInsert(mem: map<int, MemBlk>, bs: seq<Block>, i: nat, b: Block)
    requires Chain(mem, bs) && i <= |bs| && PrevAddr(bs, i) < b.addr && (i < |bs| ==> b.addr < bs[i].addr)
    ensures var p, m := PrevAddr(bs, i), mem[b.addr := MemBlk(NextAddr(bs, i), b.len)];
            p in m && Chain(m[p := m[p].(mnext := b.addr)], InsertAt(bs, i, b))
  {
    hide Chain, Ascending;
    var p, m := PrevAddr(bs, i), mem[b.addr := MemBlk(NextAddr(bs, i), b.len)];
    ChainPrev(mem, bs, i);
    ChainReplace(mem, bs, i, i, [b], m[p := m[p].(mnext := b.addr)], InsertAt(bs, i, b));
  }

  /** Block j swallows the one behind it. */
  lemma ChainJoin(mem: map<int, MemBlk>, bs: seq<Block>, j: nat)
    requires Chain(mem, bs) && j + 1 < |bs|
    ensures var b := Block(bs[j].addr, bs[j].len + bs[j + 1].len);
            Chain(mem[b.addr := MemBlk(NextAddr(bs, j + 2), b.len)], bs[..j] + [b] + bs[j + 2..])
  {
    hide Chain, Ascending;
    var p, b := PrevAddr(bs, j), Block(bs[j].addr, bs[j].len + bs[j + 1].len);
    ChainPrev(mem, bs, j);
    ChainPrev(mem, bs, j + 1);
    if j + 2 < |bs| {
      ChainPrev(mem, bs, j + 2);
    }
    ChainReplace(mem, bs, j, j + 2, [b], mem[b.addr := MemBlk(NextAddr(bs, j + 2), b.len)],
                 bs[..j] + [b] + bs[j + 2..]);
  }

  /** memlist.mlength is assigned. */
  function Counted(mem: map<int, MemBlk>, len: int): map<int, MemBlk>
    requires MEMLIST in mem
  {
    mem[MEMLIST := mem[MEMLIST].(mlength := len)]
  }

  lemma ChainLength(mem: map<int, MemBlk>, bs: seq<Block>, len: int)
    requires Chain(mem, bs)
    ensures Chain(Counted(mem, len), bs)
  {
    var m := Counted(mem, len);
    forall k | 0 <= k < |bs| ensures Header(m, bs, k) {
      assert Header(mem, bs, k);
    }
  }

  ghost predicate NoneBelow(bs: seq<Block>, min: int) {
    forall i :: 0 <= i < |bs| ==> bs[i].addr >= min
  }

  /** The memory holds the coalesced list bs, and memlist its number of bytes. */
  ghost predicate Represents(mem: map<int, MemBlk>, bs: seq<Block>, min: int) {
    Canonical(bs) && Chain(mem, bs) && mem[MEMLIST].mlength == Total(bs) && NoneBelow(bs, min)
  }

  lemma Neighbours(mem: map<int, MemBlk>, bs: seq<Block>, i: nat, min: int)
    requires Represents(mem, bs, min) && i <= |bs|
    ensures MEMLIST in mem && mem[MEMLIST] == MemBlk(NextAddr(bs, 0), Total(bs))
    ensures PrevAddr(bs, i) in mem && mem[PrevAddr(bs, i)].mnext == NextAddr(bs, i)
    ensures i > 0 ==> mem[PrevAddr(bs, i)].mlength == bs[i - 1].len && PrevAddr(bs, i) > MEMLIST
    ensures i < |bs| ==> bs[i].addr in mem && mem[bs[i].addr] == MemBlk(NextAddr(bs, i + 1), bs[i].len)
    ensures i < |bs| ==> bs[i].addr > MEMLIST
  {
    hide Canonical, Ascending;
    ChainPrev(mem, bs, i);
  }

  lemma UnlinkKept(mem: map<int, MemBlk>, bs: seq<Block>, i: nat, n: nat, low: bool, min: int)
    requires Represents(mem, bs, min) && i < |bs| && bs[i].len == n && n > 0 && n % 8 == 0
    ensures var p := PrevAddr(bs, i);
            && p in mem && MEMLIST in mem
            && Represents(Counted(mem[p := mem[p].(mnext := NextAddr(bs, i + 1))], Total(bs) - n),
                  Cut(bs, i, n, low), min)
  {
    hide Canonical, Chain, Total;
    var p := PrevAddr(bs, i);
    ChainPrev(mem, bs, i);
    Neighbours(mem, bs, 0, min);
    CutKept(bs, i, n, low, min);
    ChainRemove(mem, bs, i);
    ChainLength(mem[p := mem[p].(mnext := NextAddr(bs, i + 1))], Cut(bs, i, n, low), mem[MEMLIST].mlength - n);
  }

  lemma MoveKept(mem: map<int, MemBlk>, bs: seq<Block>, i: nat, n: nat, min: int)
    requires Represents(mem, bs, min) && i < |bs| && 0 < n < bs[i].len && n % 8 == 0
    ensures var p, b := PrevAddr(bs, i), Block(bs[i].addr + n, bs[i].len - n);
            && p in mem && MEMLIST in mem
            && Represents(Counted(mem[p := mem[p].(mnext := b.addr)]
                                  [b.addr := MemBlk(NextAddr(bs, i + 1), b.len)], Total(bs) - n),
                          Cut(bs, i, n, true), min)
  {
    hide Canonical, Chain, Total;
    var p, b := PrevAddr(bs, i), Block(bs[i].addr + n, bs[i].len - n);
    ChainPrev(mem, bs, i);
    Neighbours(mem, bs, 0, min);
    CutKept(bs, i, n, true, min);
    ChainMove(mem, bs, i, b);
    ChainLength(mem[p := mem[p].(mnext := b.addr)][b.addr := MemBlk(NextAddr(bs, i + 1), b.len)],
                Cut(bs, i, n, true), mem[MEMLIST].mlength - n);
  }

  lemma ShrinkKept(mem: map<int, MemBlk>, bs: seq<Block>, i: nat, n: nat, min: int)
    requires Represents(mem, bs, min) && i < |bs| && 0 < n < bs[i].len && n % 8 == 0
    ensures var a := bs[i].addr;
            && a in mem && MEMLIST in mem
            && Represents(Counted(mem[a := mem[a].(mlength := bs[i].len - n)], Total(bs) - n),
                  Cut(bs, i, n, false), min)
  {
    hide Canonical, Chain, Total;
    var a := bs[i].addr;
    ChainPrev(mem, bs, i);
    Neighbours(mem, bs, 0, min);
    CutKept(bs, i, n, false, min);
    ChainResize(mem, bs, i, bs[i].len - n);
    ChainLength(mem[a := mem[a].(mlength := bs[i].len - n)], Cut(bs, i, n, false), mem[MEMLIST].mlength - n);
  }

  /** The region has been counted and placed; its new block may still touch the next one. */
  ghost predicate Placed(mem: map<int, MemBlk>, bs: seq<Block>, a: int, n: nat) {
    Chain(mem, Place(bs, PosOf(bs, a), a, n)) && mem[MEMLIST].mlength == Total(bs) + n
  }

  lemma GrowPlaced(mem: map<int, MemBlk>, bs: seq<Block>, a: int, n: nat, min: int)
    requires Represents(mem, bs, min) && n > 0 && PosOf(bs, a) > 0 && End(bs[PosOf(bs, a) - 1]) == a
    ensures var p := bs[PosOf(bs, a) - 1];
            && MEMLIST in mem && p.addr in Counted(mem, Total(bs) + n)
            && Placed(Counted(mem, Total(bs) + n)[p.addr := Counted(mem, Total(bs) + n)[p.addr].(mlength := p.len + n)],
                      bs, a, n)
  {
    hide Canonical, Total, PosOf, Ascending;
    var i := PosOf(bs, a);
    Neighbours(mem, bs, i - 1, min);
    ChainLength(mem, bs, Total(bs) + n);
    ChainResize(Counted(mem, Total(bs) + n), bs, i - 1, bs[i - 1].len + n);
  }

  lemma InsertPlaced(mem: map<int, MemBlk>, bs: seq<Block>, a: int, n: nat, min: int)
    requires Represents(mem, bs, min) && n > 0 && !Overlaps(bs, a, n) && a > MEMLIST
    requires PosOf(bs, a) > 0 ==> End(bs[PosOf(bs, a) - 1]) != a
    ensures var i := PosOf(bs, a);
            MEMLIST in mem
            && (var p, m := PrevAddr(bs, i), Counted(mem, Total(bs) + n)[a := MemBlk(NextAddr(bs, i), n)];
                p in m && Placed(m[p := m[p].(mnext := a)], bs, a, n))
  {
    hide Canonical, Total, PosOf, Ascending;
    var i := PosOf(bs, a);
    Neighbours(mem, bs, i, min);
    ChainLength(mem, bs, Total(bs) + n);
    ChainInsert(Counted(mem, Total(bs) + n), bs, i, Block(a, n));
  }

  /** The block that holds the region, and what comes after it. */
  lemma PlacedHeader(mem: map<int, MemBlk>, bs: seq<Block>, a: int, n: nat)
    requires Placed(mem, bs, a, n) && n > 0 && !Overlaps(bs, a, n)
    ensures var i := PosOf(bs, a);
            var p, j := Place(bs, i, a, n), PlacedAt(bs, i, a);
            && j < |p| && p[j].addr == (if j < i then bs[i - 1].addr else a) && p[j].addr in mem
                  && mem[p[j].addr] == MemBlk(NextAddr(bs, i), p[j].len)
            && End(p[j]) == a + n && NextAddr(p, j + 1) == NextAddr(bs, i)
            && (j + 1 < |p| ==> p[j + 1].addr in mem && mem[p[j + 1].addr] == MemBlk(NextAddr(p, j + 2), p[j + 1].len))
  {
    hide Total, PosOf, Ascending;
    var i := PosOf(bs, a);
    var p, j := Place(bs, i, a, n), PlacedAt(bs, i, a);
    ChainPrev(mem, p, j);
    if j + 1 < |p| {
      ChainPrev(mem, p, j + 1);
    }
  }

  lemma JoinKept(mem: map<int, MemBlk>, bs: seq<Block>, a: int, n: nat, min: int)
    requires Placed(mem, bs, a, n) && Canonical(bs) && NoneBelow(bs, min) && a >= min && min > MEMLIST
    requires n > 0 && n % 8 == 0 && !Overlaps(bs, a, n)
    ensures var i := PosOf(bs, a);
            var p, j := Place(bs, i, a, n), PlacedAt(bs, i, a);
            && j < |p|
            && Represents(if a + n != NextAddr(bs, i) then mem
                          else mem[p[j].addr := MemBlk(NextAddr(p, j + 2), p[j].len + p[j + 1].len)],
                          Release(bs, a, n), min)
  {
    hide Canonical, Total, PosOf, Ascending, Chain, Place;
    var i := PosOf(bs, a);
    var p, j := Place(bs, i, a, n), PlacedAt(bs, i, a);
    PlacedHeader(mem, bs, a, n);
    ReleaseKept(bs, a, n, min);
    if j + 1 < |p| && End(p[j]) == p[j + 1].addr {
      ChainJoin(mem, p, j);
    }
  }

  class Heap {
    const minheap: int
    const maxheap: int
    var mem: map<int, MemBlk>
    ghost var blocks: seq<Block>

    /** The list in memory is blocks; it is coalesced; memlist.mlength is the number of free bytes. */
    ghost predicate Valid()
      reads this
    {
      MEMLIST < minheap < maxheap && Represents(mem, blocks, minheap)
    }

    constructor (minheap: int, maxheap: int)
      requires MEMLIST < minheap < maxheap && (maxheap - minheap) % 8 == 0
      ensures Valid() && this.minheap == minheap && this.maxheap == maxheap
      ensures blocks == [Block(minheap, maxheap - minheap)]
    {
      this.minheap := minheap;
      this.maxheap := maxheap;
      mem := map[MEMLIST := MemBlk(minheap, maxheap - minheap), minheap := MemBlk(NULL, maxheap - minheap)];
      blocks := [Block(minheap, maxheap - minheap)];
      new;
      assert Header(mem, blocks, 0);
    }

    method GetMem(nbytes: nat) returns (addr: int)
      requires Valid()
      modifies this
      ensures Valid()
      ensures addr == if nbytes == 0 then SYSERR else LowAddr(old(blocks), RoundMb(nbytes))
      ensures blocks == if nbytes == 0 then old(blocks) else TakeLow(old(blocks), RoundMb(nbytes))
      ensures addr == SYSERR ==> mem == old(mem)
    {
      hide Represents, Cut, FirstFit;
      if nbytes == 0 {
        return SYSERR;
      }
      var n := RoundMb(nbytes);
      Neighbours(mem, blocks, 0, minheap);
      var prev, curr := MEMLIST, mem[MEMLIST].mnext;
      ghost var i := 0;
      while curr != NULL
        invariant mem == old(mem) && blocks == old(blocks)
        invariant i <= |blocks| && prev == PrevAddr(blocks, i) && curr == NextAddr(blocks, i)
        invariant forall j :: 0 <= j < i ==> blocks[j].len < n
        decreases |blocks| - i
      {
        Neighbours(mem, blocks, i, minheap);
        if mem[curr].mlength == n {
          FirstFitUnique(blocks, n, i);
          UnlinkKept(mem, blocks, i, n, true, minheap);
          mem := mem[prev := mem[prev].(mnext := mem[curr].mnext)];
          mem := Counted(mem, mem[MEMLIST].mlength - n);
          blocks := Cut(blocks, i, n, true);
          return curr;
        } else if mem[curr].mlength > n {
          FirstFitUnique(blocks, n, i);
          MoveKept(mem, blocks, i, n, minheap);
          var leftover, blk := curr + n, mem[curr];
          mem := mem[prev := mem[prev].(mnext := leftover)];
          mem := mem[leftover := MemBlk(blk.mnext, blk.mlength - n)];
          mem := Counted(mem, mem[MEMLIST].mlength - n);
          blocks := Cut(blocks, i, n, true);
          return curr;
        }
        prev, curr := curr, mem[curr].mnext;
        i := i + 1;
      }
      Neighbours(mem, blocks, i, minheap);
      FirstFitUnique(blocks, n, i);
      return SYSERR;
    }

    method GetStk(nbytes: nat) returns (addr: int)
      requires Valid()
      modifies this
      ensures Valid()
      ensures addr == if nbytes == 0 || LastFit(old(blocks), RoundMb(nbytes)) < 0 then SYSERR
                      else HighEnd(old(blocks), RoundMb(nbytes)) - 4
      ensures blocks == if nbytes == 0 then old(blocks) else TakeHigh(old(blocks), RoundMb(nbytes))
      ensures addr == SYSERR ==> mem == old(mem)
    {
      hide Represents, Cut, LastFit;
      if nbytes == 0 {
        return SYSERR;
      }
      var n := RoundMb(nbytes);
      Neighbours(mem, blocks, 0, minheap);
      var prev, curr := MEMLIST, mem[MEMLIST].mnext;
      var fits, fitsprev := NULL, NULL;
      ghost var i, f := 0, -1;
      while curr != NULL
        invariant mem == old(mem) && blocks == old(blocks)
        invariant i <= |blocks| && prev == PrevAddr(blocks, i) && curr == NextAddr(blocks, i)
        invariant -1 <= f < i && (f < 0 <==> fits == NULL)
        invariant f >= 0 ==> fits == blocks[f].addr && fitsprev == PrevAddr(blocks, f) && blocks[f].len >= n
        invariant forall j :: f < j < i ==> blocks[j].len < n
        decreases |blocks| - i
      {
        Neighbours(mem, blocks, i, minheap);
        if mem[curr].mlength >= n {
          fits, fitsprev := curr, prev;
          f := i;
        }
        prev, curr := curr, mem[curr].mnext;
        i := i + 1;
      }
      Neighbours(mem, blocks, i, minheap);
      LastFitUnique(blocks, n, f);
      if fits == NULL {
        return SYSERR;
      }
      Neighbours(mem, blocks, f, minheap);
      fits := TakeTop(fits, fitsprev, n, f);
      return fits + n - 4;
    }

    /** The exact match is unlinked; a larger block loses its top section. */
    method TakeTop(fits: int, fitsprev: int, n: nat, ghost f: nat) returns (start: int)
      requires Valid() && f < |blocks| && fits == blocks[f].addr && fitsprev == PrevAddr(blocks, f)
      requires 0 < n <= blocks[f].len && n % 8 == 0
      modifies this
      ensures Valid() && blocks == Cut(old(blocks), f, n, false) && start == End(old(blocks)[f]) - n
    {
      hide Represents, Cut;
      Neighbours(mem, blocks, f, minheap);
      start := fits;
      if mem[fits].mlength == n {
        UnlinkKept(mem, blocks, f, n, false, minheap);
        mem := mem[fitsprev := mem[fitsprev].(mnext := mem[fits].mnext)];
      } else {
        ShrinkKept(mem, blocks, f, n, minheap);
        mem := mem[fits := mem[fits].(mlength := mem[fits].mlength - n)];
        start := fits + mem[fits].mlength;
      }
      mem := Counted(mem, mem[MEMLIST].mlength - n);
      blocks := Cut(blocks, f, n, false);
    }

    method FreeMem(blkaddr: int, nbytes: nat) returns (status: int)
      requires Valid()
      modifies this
      ensures Valid()
      ensures var refused := nbytes == 0 || blkaddr < minheap || blkaddr > maxheap
                             || Overlaps(old(blocks), blkaddr, RoundMb(nbytes));
              && status == (if refused then SYSERR else OK)
              && blocks == (if refused then old(blocks) else Release(old(blocks), blkaddr, RoundMb(nbytes)))
      ensures status == SYSERR ==> mem == old(mem)
    {
      hide Represents, Release, PosOf;
      if nbytes == 0 || blkaddr < minheap || blkaddr > maxheap {
        return SYSERR;
      }
      var n := RoundMb(nbytes);
      Neighbours(mem, blocks, 0, minheap);
      var prev, next := MEMLIST, mem[MEMLIST].mnext;
      ghost var i := 0;
      while next != NULL && next < blkaddr
        invariant mem == old(mem) && blocks == old(blocks)
        invariant i <= |blocks| && prev == PrevAddr(blocks, i) && next == NextAddr(blocks, i)
        invariant forall j :: 0 <= j < i ==> blocks[j].addr < blkaddr
        decreases |blocks| - i
      {
        Neighbours(mem, blocks, i, minheap);
        prev, next := next, mem[next].mnext;
        i := i + 1;
      }
      Neighbours(mem, blocks, i, minheap);
      PosUnique(blocks, blkaddr, i);
      var top := if prev == MEMLIST then NULL else prev + mem[prev].mlength;
      if (prev != MEMLIST && blkaddr < top) || (next != NULL && blkaddr + n > next) {
        return SYSERR;
      }
      LinkIn(blkaddr, n, prev, next, top);
      return OK;
    }

    /** The second half of freemem: the block joins its neighbours or becomes one of its own. */
    method LinkIn(blkaddr: int, n: nat, prev: int, next: int, top: int)
      requires Valid() && n > 0 && n % 8 == 0 && minheap <= blkaddr && !Overlaps(blocks, blkaddr, n)
      requires prev == PrevAddr(blocks, PosOf(blocks, blkaddr)) && next == NextAddr(blocks, PosOf(blocks, blkaddr))
      requires top == if PosOf(blocks, blkaddr) == 0 then NULL else End(blocks[PosOf(blocks, blkaddr) - 1])
      modifies this
      ensures Valid() && blocks == Release(old(blocks), blkaddr, n)
    {
      hide Represents, Release, PosOf, Placed, Place, Overlaps, Canonical, NoneBelow;
      ghost var bs := blocks;
      CanonicalRep(mem, bs, minheap);
      Neighbours(mem, bs, PosOf(bs, blkaddr), minheap);
      var block := blkaddr;
      if top == block {
        GrowPlaced(mem, bs, blkaddr, n, minheap);
        mem := Counted(mem, mem[MEMLIST].mlength + n);
        mem := mem[prev := mem[prev].(mlength := mem[prev].mlength + n)];
        block := prev;
      } else {
        InsertPlaced(mem, bs, blkaddr, n, minheap);
        mem := Counted(mem, mem[MEMLIST].mlength + n);
        mem := mem[block := MemBlk(next, n)];
        mem := mem[prev := mem[prev].(mnext := block)];
      }
      PlacedHeader(mem, bs, blkaddr, n);
      JoinKept(mem, bs, blkaddr, n, minheap);
      if block + mem[block].mlength == next {
        mem := mem[block := MemBlk(mem[next].mnext, mem[block].mlength + mem[next].mlength)];
      }
      blocks := Release(bs, blkaddr, n);
    }

    /** freestk: p is the address of the highest word. */
    method FreeStk(p: int, len: nat) returns (status: int)
      requires Valid()
      modifies this
      ensures Valid()
      ensures var a := p + 4 - RoundMb(len);
              var refused := len == 0 || a < minheap || a > maxheap || Overlaps(old(blocks), a, RoundMb(len));
              && status == (if refused then SYSERR else OK)
              && blocks == (if refused then old(blocks) else Release(old(blocks), a, RoundMb(len)))
    {
      hide Represents, Release, Overlaps;
      assert RoundMb(RoundMb(len)) == RoundMb(len);
      status := FreeMem(p - RoundMb(len) + 4, RoundMb(len));
    }
  }

  lemma CanonicalRep(mem: map<int, MemBlk>, bs: seq<Block>, min: int)
    requires Represents(mem, bs, min)
    ensures Canonical(bs) && NoneBelow(bs, min)
  {
  }

  lemma FirstFitUnique(bs: seq<Block>, n: nat, i: nat)
    requires i <= |bs| && (i < |bs| ==> bs[i].len >= n) && forall j :: 0 <= j < i ==> bs[j].len < n
    ensures FirstFit(bs, n) == i
  {
  }

  lemma LastFitUnique(bs: seq<Block>, n: nat, i: int)
    requires -1 <= i < |bs| && (i >= 0 ==> bs[i].len >= n) && forall j :: i < j < |bs| ==> bs[j].len < n
    ensures LastFit(bs, n) == i
  {
  }

  lemma PosUnique(bs: seq<Block>, a: int, i: nat)
    requires i <= |bs| && (i < |bs| ==> bs[i].addr >= a) && forall j :: 0 <= j < i ==> bs[j].addr < a
    ensures PosOf(bs, a) == i
  {
  }

  lemma CutKept(bs: seq<Block>, i: nat, n: nat, low: bool, min: int)
    requires Canonical(bs) && i < |bs| && 0 < n <= bs[i].len && n % 8 == 0
    requires NoneBelow(bs, min)
    ensures var r := Cut(bs, i, n, low);
            && Canonical(r) && Total(r) == Total(bs) - n
            && NoneBelow(r, min)
    ensures i + 1 < |bs| ==> bs[i].addr + bs[i].len < bs[i + 1].addr
  {
    CutCanonical(bs, i, n, low);
    CutTotal(bs, i, n, low);
  }

  lemma ReleaseKept(bs: seq<Block>, a: int, n: nat, min: int)
    requires Canonical(bs) && n > 0 && n % 8 == 0 && !Overlaps(bs, a, n) && a >= min
    requires NoneBelow(bs, min)
    ensures var r := Release(bs, a, n);
            && Canonical(r) && Total(r) == Total(bs) + n
            && NoneBelow(r, min)
  {
    ReleaseCanonical(bs, a, n);
    ReleaseTotal(bs, a, n);
    hide Total, Canonical;
  }
}
