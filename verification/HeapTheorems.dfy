/**
 What the heap promises over whole runs of allocations and releases.
 */
module HeapTheorems {
  import opened Sequences
  import opened QueueTables
  import opened FreeLists

  /** The free list, and the regions that have been handed out and not yet given back. */
  datatype HeapState = HeapState(free: seq<Block>, out: seq<Block>, min: int, max: int)

  datatype HeapEvent = GetMemory(nbytes: nat) | GetStack(nbytes: nat) | FreeMemory(addr: int, nbytes: nat)

  /** The region that an allocation of n bytes takes, if there is room. */
  function Region(bs: seq<Block>, n: nat, low: bool): seq<Block> {
    if low then (if FirstFit(bs, n) == |bs| then [] else [Block(LowAddr(bs, n), n)])
    else (if LastFit(bs, n) < 0 then [] else [Block(HighEnd(bs, n) - n, n)])
  }

  function Allocate(h: HeapState, nbytes: nat, low: bool): HeapState {
    var n := RoundMb(nbytes);
    if nbytes == 0 then h
    else h.(free := if low then TakeLow(h.free, n) else TakeHigh(h.free, n), out := h.out + Region(h.free, n, low))
  }

  predicate Refused(h: HeapState, a: int, nbytes: nat) {
    nbytes == 0 || a < h.min || a > h.max || Overlaps(h.free, a, RoundMb(nbytes))
  }

  function IndexOfBlock(out: seq<Block>, b: Block): (i: nat)
    ensures i <= |out| && (i < |out| ==> out[i] == b)
    ensures b in out ==> i < |out|
  {
    if out == [] || out[0] == b then 0 else 1 + IndexOfBlock(out[1..], b)
  }

  function Free(h: HeapState, a: int, nbytes: nat): HeapState {
    var i := IndexOfBlock(h.out, Block(a, RoundMb(nbytes)));
    if Refused(h, a, nbytes) then h
    else h.(free := Release(h.free, a, RoundMb(nbytes)), out := if i < |h.out| then RemoveAt(h.out, i) else h.out)
  }

  function HeapApply(h: HeapState, e: HeapEvent): HeapState {
    match e
    case GetMemory(n) => Allocate(h, n, true)
    case GetStack(n) => Allocate(h, n, false)
    case FreeMemory(a, n) => Free(h, a, n)
  }

  /** Callers give back what they were given. Frees that touch a free byte are allowed too. */
  predicate Honest(h: HeapState, e: HeapEvent) {
    e.FreeMemory? ==> Refused(h, e.addr, e.nbytes) || Block(e.addr, RoundMb(e.nbytes)) in h.out
  }

  ghost predicate Disjoint(out: seq<Block>) {
    forall i, j :: 0 <= i < j < |out| ==> End(out[i]) <= out[j].addr || End(out[j]) <= out[i].addr
  }

  /** Every byte of the heap is either free or in exactly one region handed out, and no other is. */
  ghost predicate HeapOk(h: HeapState) {
    && h.min < h.max && Canonical(h.free)
    && BlockSizes(h.out) && Disjoint(h.out)
    && (forall x :: Covered(h.free, x) <==> h.min <= x < h.max && !Covered(h.out, x))
    && (forall x :: Covered(h.out, x) ==> h.min <= x < h.max)
    && Total(h.free) + Total(h.out) == h.max - h.min
  }

  function Meminit(min: int, max: int): HeapState {
    HeapState([Block(min, max - min)], [], min, max)
  }

  lemma MeminitOk(min: int, max: int)
    requires min < max && (max - min) % 8 == 0
    ensures HeapOk(Meminit(min, max))
  {
    var h := Meminit(min, max);
    assert Total(h.free) == h.free[0].len + Total(h.free[1..]);
    forall x ensures Covered(h.free, x) <==> min <= x < max {
      if min <= x < max {
        CoveredSelf(h.free, 0, x);
      }
    }
  }

  // ----- allocation

  /** An allocated region was free, and exactly it stops being free. */
  lemma RegionFree(bs: seq<Block>, n: nat, low: bool)
    requires Canonical(bs) && n > 0 && n % 8 == 0 && Region(bs, n, low) != []
    ensures var b, r := Region(bs, n, low)[0], if low then TakeLow(bs, n) else TakeHigh(bs, n);
            && b.len == n && FreeRun(bs, b.addr, n) && Canonical(r) && Total(r) == Total(bs) - n
            && (forall x :: Covered(r, x) <==> Covered(bs, x) && !(b.addr <= x < End(b)))
  {
    hide FirstFit, LastFit;
    var i := if low then FirstFit(bs, n) else LastFit(bs, n);
    BlockIsRun(bs, i, Region(bs, n, low)[0].addr, n);
    CutCanonical(bs, i, n, low);
    CutTotal(bs, i, n, low);
    forall x ensures Covered(Cut(bs, i, n, low), x) <==>
        Covered(bs, x) && !(Region(bs, n, low)[0].addr <= x < End(Region(bs, n, low)[0]))
    {
      CutCovers(bs, i, n, low, x);
    }
  }

  lemma AppendCovers(out: seq<Block>, b: Block, x: int)
    ensures Covered(out + [b], x) <==> Covered(out, x) || b.addr <= x < End(b)
  {
    var r := out + [b];
    if i :| 0 <= i < |out| && out[i].addr <= x < End(out[i]) {
      assert r[i].addr <= x < End(r[i]);
    }
    assert r[|out|] == b;
  }

  lemma NotBoth(h: HeapState, x: int)
    requires HeapOk(h)
    ensures !(Covered(h.free, x) && Covered(h.out, x))
  {
  }

  /** A region that nobody holds is disjoint from all that somebody holds. */
  lemma FreshDisjoint(h: HeapState, b: Block)
    requires HeapOk(h) && b.len > 0 && FreeRun(h.free, b.addr, b.len)
    ensures Disjoint(h.out + [b])
  {
    forall i | 0 <= i < |h.out| ensures End(h.out[i]) <= b.addr || End(b) <= h.out[i].addr {
      var o := h.out[i];
      var x := if o.addr < b.addr then b.addr else o.addr;
      NotBoth(h, x);
      assert b.addr <= x < End(b) ==> Covered(h.free, x);
      if o.addr <= x < End(o) {
        CoveredSelf(h.out, i, x);
      }
    }
  }

  lemma OutMore(out: seq<Block>, b: Block)
    requires BlockSizes(out) && b.len > 0 && b.len % 8 == 0
    ensures BlockSizes(out + [b]) && Total(out + [b]) == Total(out) + b.len
  {
    TotalSplit(out, [b]);
    assert Total([b]) == b.len + Total([b][1..]);
  }

  lemma AllocateOk(h: HeapState, nbytes: nat, low: bool)
    requires HeapOk(h)
    ensures HeapOk(Allocate(h, nbytes, low))
  {
    hide TakeLow, TakeHigh, Region, Canonical, Covered, Disjoint, BlockSizes, Total, FreeRun;
    var n := RoundMb(nbytes);
    var r := Allocate(h, nbytes, low);
    if nbytes > 0 {
      var g := Region(h.free, n, low);
      RegionLength(h.free, n, low);
      if g == [] {
        assert r == h;
      } else {
        assert g == [g[0]];
        RegionFree(h.free, n, low);
        RunBytes(h.free, g[0]);
        FreshDisjoint(h, g[0]);
        OutMore(h.out, g[0]);
        forall x ensures Covered(r.out, x) <==> Covered(h.out, x) || g[0].addr <= x < End(g[0]) {
          AppendCovers(h.out, g[0], x);
        }
        forall x ensures Covered(r.out, x) ==> h.min <= x < h.max {
          if Covered(r.out, x) {
            assert Covered(h.out, x) || g[0].addr <= x < End(g[0]);
            assert Covered(h.out, x) || Covered(h.free, x);
          }
        }
        forall x ensures Covered(r.free, x) <==> h.min <= x < h.max && !Covered(r.out, x) {
          assert Covered(r.free, x) <==> Covered(h.free, x) && !(g[0].addr <= x < End(g[0]));
          assert Covered(r.out, x) <==> Covered(h.out, x) || (g[0].addr <= x < End(g[0]));
        }
      }
    }
  }

  lemma RegionLength(bs: seq<Block>, n: nat, low: bool)
    ensures |Region(bs, n, low)| <= 1
    ensures Region(bs, n, low) == [] ==> (if low then TakeLow(bs, n) else TakeHigh(bs, n)) == bs
  {
  }

  // ----- release

  lemma DropCovers(out: seq<Block>, i: nat, x: int)
    requires i < |out| && Disjoint(out)
    ensures Covered(RemoveAt(out, i), x) <==> Covered(out, x) && !(out[i].addr <= x < End(out[i]))
  {
    var r := RemoveAt(out, i);
    if j :| 0 <= j < |r| && r[j].addr <= x < End(r[j]) {
      assert r[j] == out[if j < i then j else j + 1];
    }
    if k :| 0 <= k < |out| && k != i && out[k].addr <= x < End(out[k]) {
      assert out[k] == r[if k < i then k else k - 1];
    }
  }

  lemma OutLess(out: seq<Block>, i: nat)
    requires i < |out| && BlockSizes(out) && Disjoint(out)
    ensures BlockSizes(RemoveAt(out, i)) && Disjoint(RemoveAt(out, i))
    ensures Total(RemoveAt(out, i)) == Total(out) - out[i].len
  {
    hide Total;
    var r := RemoveAt(out, i);
    assert forall j :: 0 <= j < |r| ==> r[j] == out[if j < i then j else j + 1];
    RemoveTotal(out, i);
  }

  lemma RemoveTotal(out: seq<Block>, i: nat)
    requires i < |out|
    ensures Total(RemoveAt(out, i)) == Total(out) - out[i].len
  {
    TotalReplaced(out, i, i + 1, []);
    assert out[i..i + 1] == [out[i]];
    assert RemoveAt(out, i) == out[..i] + [] + out[i + 1..];
  }

  lemma MemberCovers(out: seq<Block>, b: Block)
    requires b in out
    ensures forall x :: b.addr <= x < End(b) ==> Covered(out, x)
  {
    var i :| 0 <= i < |out| && out[i] == b;
    forall x | b.addr <= x < End(b) ensures Covered(out, x) {
      CoveredSelf(out, i, x);
    }
  }

  /** Whoever holds a region can give it back. */
  lemma HolderNotRefused(h: HeapState, a: int, nbytes: nat)
    requires HeapOk(h) && nbytes > 0 && Block(a, RoundMb(nbytes)) in h.out
    ensures !Refused(h, a, nbytes)
  {
    var n := RoundMb(nbytes);
    MemberCovers(h.out, Block(a, n));
    OverlapExact(h.free, a, n);
    assert Covered(h.out, a);
  }

  lemma FreeOk(h: HeapState, a: int, nbytes: nat)
    requires HeapOk(h) && (Refused(h, a, nbytes) || Block(a, RoundMb(nbytes)) in h.out)
    ensures HeapOk(Free(h, a, nbytes))
  {
    hide Release, Overlaps, IndexOfBlock, Canonical, Covered, Disjoint, BlockSizes, Total;
    if !Refused(h, a, nbytes) {
      var n, i := RoundMb(nbytes), IndexOfBlock(h.out, Block(a, RoundMb(nbytes)));
      var r := Free(h, a, nbytes);
      ReleaseCanonical(h.free, a, n);
      ReleaseTotal(h.free, a, n);
      OutLess(h.out, i);
      MemberCovers(h.out, Block(a, n));
      forall x ensures Covered(r.free, x) <==> Covered(h.free, x) || a <= x < a + n {
        ReleaseCovers(h.free, a, n, x);
      }
      forall x ensures Covered(r.out, x) <==> Covered(h.out, x) && !(a <= x < a + n) {
        DropCovers(h.out, i, x);
      }
      forall x ensures Covered(r.free, x) <==> h.min <= x < h.max && !Covered(r.out, x) {
        assert Covered(r.free, x) <==> Covered(h.free, x) || a <= x < a + n;
        assert Covered(r.out, x) <==> Covered(h.out, x) && !(a <= x < a + n);
        assert a <= x < a + n ==> Covered(h.out, x);
      }
    }
  }

  // ----- whole runs

  ghost predicate HonestRun(h: HeapState, es: seq<HeapEvent>)
    decreases |es|
  {
    es != [] ==> Honest(h, es[0]) && HonestRun(HeapApply(h, es[0]), es[1..])
  }

  function HeapAfter(h: HeapState, es: seq<HeapEvent>): HeapState
    decreases |es|
  {
    if es == [] then h else HeapAfter(HeapApply(h, es[0]), es[1..])
  }

  lemma HeapStep(h: HeapState, e: HeapEvent)
    requires HeapOk(h) && Honest(h, e)
    ensures HeapOk(HeapApply(h, e)) && HeapApply(h, e).min == h.min && HeapApply(h, e).max == h.max
  {
    hide HeapOk, Allocate, Free, Refused;
    match e
    case GetMemory(n) => AllocateOk(h, n, true); SameBounds(h, n, true);
    case GetStack(n) => AllocateOk(h, n, false); SameBounds(h, n, false);
    case FreeMemory(a, n) => FreeOk(h, a, n); SameBoundsFree(h, a, n);
  }

  lemma SameBounds(h: HeapState, n: nat, low: bool)
    ensures Allocate(h, n, low).min == h.min && Allocate(h, n, low).max == h.max
  {
  }

  lemma SameBoundsFree(h: HeapState, a: int, n: nat)
    ensures Free(h, a, n).min == h.min && Free(h, a, n).max == h.max
  {
  }

  lemma {:induction false} HeapRun(h: HeapState, es: seq<HeapEvent>)
    requires HeapOk(h) && HonestRun(h, es)
    ensures HeapOk(HeapAfter(h, es)) && HeapAfter(h, es).min == h.min && HeapAfter(h, es).max == h.max
    decreases |es|
  {
    hide HeapOk, Honest, HeapApply;
    if es != [] {
      HeapStep(h, es[0]);
      HeapRun(HeapApply(h, es[0]), es[1..]);
    }
  }

  /** Whatever was allocated and in whatever order it was given back: once nothing is outstanding,
      the free list is again the one block of meminit. */
  lemma EverythingFreed(min: int, max: int, es: seq<HeapEvent>)
    requires min < max && (max - min) % 8 == 0 && HonestRun(Meminit(min, max), es)
    requires HeapAfter(Meminit(min, max), es).out == []
    ensures HeapAfter(Meminit(min, max), es) == Meminit(min, max)
  {
    var h0 := Meminit(min, max);
    MeminitOk(min, max);
    HeapRun(h0, es);
    var h := HeapAfter(h0, es);
    hide HeapAfter, HonestRun;
    forall x ensures Covered(h.free, x) <==> Covered(h0.free, x) {
      assert !Covered(h.out, x);
    }
    CanonicalUnique(h.free, h0.free);
  }

  /** In every state of such a run the bytes are partitioned, and what is free and what is out add
      up to the whole heap; an allocation gets bytes that nobody holds. */
  lemma NothingTwice(min: int, max: int, es: seq<HeapEvent>, nbytes: nat, low: bool)
    requires min < max && (max - min) % 8 == 0 && HonestRun(Meminit(min, max), es) && nbytes > 0
    ensures var h := HeapAfter(Meminit(min, max), es);
            && Total(h.free) + Total(h.out) == max - min && Disjoint(h.out)
            && (Region(h.free, RoundMb(nbytes), low) == [] <==> !(exists s :: FreeRun(h.free, s, RoundMb(nbytes))))
            && (Region(h.free, RoundMb(nbytes), low) != [] ==> Unheld(h, Region(h.free, RoundMb(nbytes), low)[0]))
  {
    hide HeapAfter, HonestRun, HeapOk;
    MeminitOk(min, max);
    HeapRun(Meminit(min, max), es);
    NobodyHolds(HeapAfter(Meminit(min, max), es), RoundMb(nbytes), low);
    hide Region, Covered;
  }

  /** Every byte of the region belongs to the heap and to nobody. */
  ghost predicate Unheld(h: HeapState, b: Block) {
    h.min <= b.addr && End(b) <= h.max && forall x :: b.addr <= x < End(b) ==> !Covered(h.out, x)
  }

  lemma NobodyHolds(h: HeapState, n: nat, low: bool)
    requires HeapOk(h) && n > 0 && n % 8 == 0
    ensures Total(h.free) + Total(h.out) == h.max - h.min && Disjoint(h.out)
    ensures Region(h.free, n, low) == [] <==> !(exists s :: FreeRun(h.free, s, n))
    ensures Region(h.free, n, low) != [] ==> Unheld(h, Region(h.free, n, low)[0])
  {
    hide FreeRun, Covered, TakeLow, TakeHigh, Unheld;
    LowestRun(h.free, n);
    HighestRun(h.free, n);
    RegionLength(h.free, n, low);
    if Region(h.free, n, low) != [] {
      RegionFree(h.free, n, low);
      RunUnheld(h, Region(h.free, n, low)[0]);
    }
  }

  lemma RunUnheld(h: HeapState, b: Block)
    requires HeapOk(h) && b.len > 0 && FreeRun(h.free, b.addr, b.len)
    ensures Unheld(h, b)
  {
    hide HeapOk, FreeRun, Covered;
    FreeByte(h, b, b.addr);
    FreeByte(h, b, End(b) - 1);
    forall x | b.addr <= x < End(b) ensures !Covered(h.out, x) {
      FreeByte(h, b, x);
    }
  }

  lemma FreeByte(h: HeapState, b: Block, x: int)
    requires HeapOk(h) && b.len >= 0 && FreeRun(h.free, b.addr, b.len) && b.addr <= x < End(b)
    ensures h.min <= x < h.max && !Covered(h.out, x)
  {
    assert Covered(h.free, x);
  }

  lemma RunBytes(bs: seq<Block>, b: Block)
    requires b.len >= 0 && FreeRun(bs, b.addr, b.len)
    ensures forall x :: b.addr <= x < End(b) ==> Covered(bs, x)
  {
  }

  /** freemem does not look at the end of the region: what it accepts stays inside the heap exactly
      when the region does. */
  lemma RunsPastTheEnd(bs: seq<Block>, a: int, n: nat, max: int)
    requires Canonical(bs) && n > 0 && !Overlaps(bs, a, n) && forall x :: Covered(bs, x) ==> x < max
    ensures (forall x :: Covered(Release(bs, a, n), x) ==> x < max) <==> a + n <= max
  {
    hide Release, Overlaps, Canonical, Covered;
    forall x ensures Covered(Release(bs, a, n), x) <==> Covered(bs, x) || a <= x < a + n {
      ReleaseCovers(bs, a, n, x);
    }
    assert Covered(Release(bs, a, n), a + n - 1);
  }

  /** There is such a region: right after meminit, with all memory free, freemem accepts any number of
      bytes at the heap's end, and the one free block then runs that far past it. */
  lemma FreesPastTheEnd(min: int, max: int, nbytes: nat)
    requires 0 < min < max && (max - min) % 8 == 0 && nbytes > 0
    ensures var bs, n := Meminit(min, max).free, RoundMb(nbytes);
            && Canonical(bs) && !Overlaps(bs, max, n)
            && Release(bs, max, n) == [Block(min, max + n - min)]
  {
    var bs := Meminit(min, max).free;
    assert bs[1..] == [] && PosOf(bs, max) == 1;
    OneBlock(bs[0], max, RoundMb(nbytes));
  }

  lemma OneBlock(b: Block, a: int, n: nat)
    requires End(b) == a && b.addr < a && PosOf([b], a) == 1
    ensures !Overlaps([b], a, n) && Release([b], a, n) == [Block(b.addr, b.len + n)]
  {
    assert Place([b], 1, a, n) == [Block(b.addr, b.len + n)];
  }

  lemma NotOverlapping(bs: seq<Block>, b: Block)
    requires Canonical(bs) && b.len > 0 && forall x :: b.addr <= x < End(b) ==> !Covered(bs, x)
    ensures !Overlaps(bs, b.addr, b.len)
  {
    OverlapExact(bs, b.addr, b.len);
  }

  /** An allocation that is given back at once leaves the very list that it found. */
  lemma AllocateThenFree(bs: seq<Block>, n: nat, low: bool)
    requires Canonical(bs) && n > 0 && n % 8 == 0 && Region(bs, n, low) != []
    ensures var taken, b := if low then TakeLow(bs, n) else TakeHigh(bs, n), Region(bs, n, low)[0];
            !Overlaps(taken, b.addr, n) && Release(taken, b.addr, n) == bs
  {
    hide TakeLow, TakeHigh, Region, Overlaps, Release, FreeRun;
    var taken, b := if low then TakeLow(bs, n) else TakeHigh(bs, n), Region(bs, n, low)[0];
    RegionFree(bs, n, low);
    RunBytes(bs, b);
    forall x | b.addr <= x < End(b) ensures !Covered(taken, x) {
      assert Covered(taken, x) <==> Covered(bs, x) && !(b.addr <= x < End(b));
    }
    NotOverlapping(taken, b);
    ReleaseCanonical(taken, b.addr, n);
    forall x ensures Covered(Release(taken, b.addr, n), x) <==> Covered(bs, x) {
      ReleaseCovers(taken, b.addr, n, x);
      assert Covered(taken, x) <==> Covered(bs, x) && !(b.addr <= x < End(b));
    }
    CanonicalUnique(Release(taken, b.addr, n), bs);
  }
}
