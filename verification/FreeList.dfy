/**
 The heap's free list as a value: blocks in address order, never touching each other.
 What getmem, getstk and freemem do to it, and what that means for the bytes of the heap.
 */
module FreeLists {
  import opened Sequences
  import opened QueueTables

  datatype Block = Block(addr: int, len: int)

  function End(b: Block): int { b.addr + b.len }

  /** Requests are rounded up to multiples of the size of a list entry. */
  function RoundMb(n: nat): (r: nat)
    ensures r % 8 == 0 && n <= r < n + 8
  {
    (n + 7) / 8 * 8
  }

  /** Address order, with at least one allocated byte between any two blocks. */
  ghost predicate Apart(bs: seq<Block>) {
    forall i, j :: 0 <= i < j < |bs| ==> End(bs[i]) < bs[j].addr
  }

  ghost predicate BlockSizes(bs: seq<Block>) {
    forall i :: 0 <= i < |bs| ==> bs[i].len > 0 && bs[i].len % 8 == 0
  }

  ghost predicate Canonical(bs: seq<Block>) {
    Apart(bs) && BlockSizes(bs)
  }

  /** The byte at address x is free. */
  ghost predicate Covered(bs: seq<Block>, x: int) {
    exists i :: 0 <= i < |bs| && bs[i].addr <= x < End(bs[i])
  }

  ghost predicate FreeRun(bs: seq<Block>, start: int, n: nat) {
    forall x :: start <= x < start + n ==> Covered(bs, x)
  }

  function Total(bs: seq<Block>): int {
    if bs == [] then 0 else bs[0].len + Total(bs[1..])
  }

  // ----- what the three calls do

  function FirstFit(bs: seq<Block>, n: nat): (i: nat)
    ensures i <= |bs| && (i < |bs| ==> bs[i].len >= n)
    ensures forall j :: 0 <= j < i ==> bs[j].len < n
  {
    if bs == [] || bs[0].len >= n then 0 else 1 + FirstFit(bs[1..], n)
  }

  /** The last block that is long enough, or -1. */
  function LastFit(bs: seq<Block>, n: nat): (i: int)
    ensures -1 <= i < |bs| && (i >= 0 ==> bs[i].len >= n)
    ensures forall j :: i < j < |bs| ==> bs[j].len < n
  {
    if bs == [] then -1
    else if bs[|bs| - 1].len >= n then |bs| - 1
    else LastFit(bs[..|bs| - 1], n)
  }

  /** n bytes are cut off the low or the high end of block i. */
  function Cut(bs: seq<Block>, i: nat, n: nat, low: bool): seq<Block>
    requires i < |bs|
  {
    if bs[i].len == n then RemoveAt(bs, i)
    else bs[i := Block(if low then bs[i].addr + n else bs[i].addr, bs[i].len - n)]
  }

  function TakeLow(bs: seq<Block>, n: nat): seq<Block> {
    if FirstFit(bs, n) == |bs| then bs else Cut(bs, FirstFit(bs, n), n, true)
  }

  function LowAddr(bs: seq<Block>, n: nat): int {
    var i := FirstFit(bs, n);
    if i == |bs| then SYSERR else bs[i].addr
  }

  function TakeHigh(bs: seq<Block>, n: nat): seq<Block> {
    if LastFit(bs, n) < 0 then bs else Cut(bs, LastFit(bs, n), n, false)
  }

  /** The end of the region that getstk takes; the pointer it returns is to the last word. */
  function HighEnd(bs: seq<Block>, n: nat): int {
    var i := LastFit(bs, n);
    if i < 0 then SYSERR else End(bs[i])
  }

  /** The number of blocks that start below a. */
  function PosOf(bs: seq<Block>, a: int): (i: nat)
    ensures i <= |bs| && (i < |bs| ==> bs[i].addr >= a)
    ensures forall j :: 0 <= j < i ==> bs[j].addr < a
  {
    if bs == [] || bs[0].addr >= a then 0 else 1 + PosOf(bs[1..], a)
  }

  /** freemem's test: the two neighbours only. */
  predicate Overlaps(bs: seq<Block>, a: int, n: nat) {
    var i := PosOf(bs, a);
    (i > 0 && a < End(bs[i - 1])) || (i < |bs| && a + n > bs[i].addr)
  }

  /** The region joins the block below it, or becomes a block of its own, at position i. */
  function Place(bs: seq<Block>, i: nat, a: int, n: nat): seq<Block>
    requires i <= |bs|
  {
    if i > 0 && End(bs[i - 1]) == a then bs[i - 1 := Block(bs[i - 1].addr, bs[i - 1].len + n)]
    else InsertAt(bs, i, Block(a, n))
  }

  /** The position of the block that then holds the region. */
  function PlacedAt(bs: seq<Block>, i: nat, a: int): nat
    requires i <= |bs|
  {
    if i > 0 && End(bs[i - 1]) == a then i - 1 else i
  }

  /** Block j takes in its successor if they touch. */
  function Join(bs: seq<Block>, j: nat): seq<Block>
    requires j < |bs|
  {
    if j + 1 < |bs| && End(bs[j]) == bs[j + 1].addr
    then bs[..j] + [Block(bs[j].addr, bs[j].len + bs[j + 1].len)] + bs[j + 2..]
    else bs
  }

  function Release(bs: seq<Block>, a: int, n: nat): seq<Block> {
    var i := PosOf(bs, a);
    if Overlaps(bs, a, n) then bs else Join(Place(bs, i, a, n), PlacedAt(bs, i, a))
  }

  // ----- one list for each set of free bytes

  lemma CoveredHead(bs: seq<Block>, x: int)
    requires Canonical(bs) && bs != []
    ensures Covered(bs, x) <==> bs[0].addr <= x < End(bs[0]) || Covered(bs[1..], x)
    ensures Covered(bs, x) ==> x >= bs[0].addr
    ensures Covered(bs[1..], x) ==> x > End(bs[0])
    ensures Canonical(bs[1..])
  {
    if Covered(bs[1..], x) {
      var i :| 0 <= i < |bs[1..]| && bs[1..][i].addr <= x < End(bs[1..][i]);
      assert bs[i + 1].addr <= x < End(bs[i + 1]);
    }
    if Covered(bs, x) {
      var i :| 0 <= i < |bs| && bs[i].addr <= x < End(bs[i]);
      assert i > 0 ==> bs[1..][i - 1].addr <= x < End(bs[1..][i - 1]);
    }
  }

  lemma CoveredSelf(bs: seq<Block>, i: nat, x: int)
    requires i < |bs| && bs[i].addr <= x < End(bs[i])
    ensures Covered(bs, x)
  {
  }

  lemma SameFirst(a: seq<Block>, b: seq<Block>)
    requires Canonical(a) && Canonical(b) && (forall x :: Covered(a, x) ==> Covered(b, x))
    requires a != []
    ensures b != [] && b[0].addr <= a[0].addr
    ensures b[0].addr == a[0].addr ==> End(a[0]) <= End(b[0])
  {
    CoveredSelf(a, 0, a[0].addr);
    assert Covered(b, a[0].addr);
    CoveredHead(b, a[0].addr);
    if b[0].addr == a[0].addr && End(b[0]) < End(a[0]) {
      CoveredSelf(a, 0, End(b[0]));
      CoveredHead(b, End(b[0]));
    }
  }

  /** Two canonical lists of the same bytes are the same list. */
  lemma {:induction false} CanonicalUnique(a: seq<Block>, b: seq<Block>)
    requires Canonical(a) && Canonical(b) && (forall x :: Covered(a, x) <==> Covered(b, x))
    ensures a == b
    decreases |a|
  {
    if a != [] {
      SameFirst(a, b);
      SameFirst(b, a);
      forall x ensures Covered(a[1..], x) <==> Covered(b[1..], x) {
        CoveredHead(a, x);
        CoveredHead(b, x);
      }
      CoveredHead(a, 0);
      CoveredHead(b, 0);
      CanonicalUnique(a[1..], b[1..]);
    } else if b != [] {
      SameFirst(b, a);
    }
  }

  // ----- allocation

  /** A run of free bytes lies in one block, because blocks never touch. */
  lemma RunInBlock(bs: seq<Block>, start: int, n: nat) returns (i: nat)
    requires Canonical(bs) && n > 0 && FreeRun(bs, start, n)
    ensures i < |bs| && bs[i].addr <= start && start + n <= End(bs[i])
  {
    assert Covered(bs, start);
    i :| 0 <= i < |bs| && bs[i].addr <= start < End(bs[i]);
    if End(bs[i]) < start + n {
      assert Covered(bs, End(bs[i]));
      var k :| 0 <= k < |bs| && bs[k].addr <= End(bs[i]) < End(bs[k]);
    }
  }

  lemma BlockIsRun(bs: seq<Block>, i: nat, start: int, n: nat)
    requires i < |bs| && bs[i].addr <= start && start + n <= End(bs[i])
    ensures FreeRun(bs, start, n)
  {
    forall x | start <= x < start + n ensures Covered(bs, x) {
      CoveredSelf(bs, i, x);
    }
  }

  /** getmem fails exactly when there is no run of n free bytes; otherwise it returns the lowest. */
  lemma LowestRun(bs: seq<Block>, n: nat)
    requires Canonical(bs) && n > 0
    ensures FirstFit(bs, n) == |bs| <==> !(exists s :: FreeRun(bs, s, n))
    ensures FirstFit(bs, n) < |bs| ==> FreeRun(bs, LowAddr(bs, n), n)
    ensures forall s :: FreeRun(bs, s, n) ==> FirstFit(bs, n) < |bs| && LowAddr(bs, n) <= s
  {
    var i := FirstFit(bs, n);
    if i < |bs| {
      BlockIsRun(bs, i, bs[i].addr, n);
    }
    forall s | FreeRun(bs, s, n) ensures i < |bs| && LowAddr(bs, n) <= s {
      var k := RunInBlock(bs, s, n);
      assert i < k ==> End(bs[i]) < bs[k].addr;
    }
  }

  /** getstk fails in the same cases, and otherwise takes the run with the highest end. */
  lemma HighestRun(bs: seq<Block>, n: nat)
    requires Canonical(bs) && n > 0
    ensures LastFit(bs, n) < 0 <==> !(exists s :: FreeRun(bs, s, n))
    ensures LastFit(bs, n) >= 0 ==> FreeRun(bs, HighEnd(bs, n) - n, n)
    ensures forall s :: FreeRun(bs, s, n) ==> LastFit(bs, n) >= 0 && s + n <= HighEnd(bs, n)
  {
    var i := LastFit(bs, n);
    if i >= 0 {
      BlockIsRun(bs, i, End(bs[i]) - n, n);
    }
    forall s | FreeRun(bs, s, n) ensures i >= 0 && s + n <= HighEnd(bs, n) {
      var k := RunInBlock(bs, s, n);
      assert k < i ==> End(bs[k]) < bs[i].addr;
    }
  }

  lemma CutCanonical(bs: seq<Block>, i: nat, n: nat, low: bool)
    requires Canonical(bs) && i < |bs| && 0 < n <= bs[i].len && n % 8 == 0
    ensures Canonical(Cut(bs, i, n, low))
  {
    var r := Cut(bs, i, n, low);
    if bs[i].len == n {
      assert forall j :: 0 <= j < |r| ==> r[j] == bs[if j < i then j else j + 1];
    }
  }

  /** Exactly the bytes of the region stop being free. */
  lemma CutCovers(bs: seq<Block>, i: nat, n: nat, low: bool, x: int)
    requires Canonical(bs) && i < |bs| && 0 < n <= bs[i].len
    ensures var start := if low then bs[i].addr else End(bs[i]) - n;
            Covered(Cut(bs, i, n, low), x) <==> Covered(bs, x) && !(start <= x < start + n)
  {
    if bs[i].len == n {
      RemoveCovers(bs, i, x);
    } else {
      ShrinkCovers(bs, i, Cut(bs, i, n, low)[i], x);
    }
  }

  /** Away from block i the list decides as the other blocks do. */
  ghost predicate Elsewhere(bs: seq<Block>, i: nat, x: int) {
    exists k :: 0 <= k < |bs| && k != i && bs[k].addr <= x < End(bs[k])
  }

  lemma NotTwice(bs: seq<Block>, i: nat, x: int)
    requires Canonical(bs) && i < |bs|
    ensures Covered(bs, x) <==> bs[i].addr <= x < End(bs[i]) || Elsewhere(bs, i, x)
    ensures !(bs[i].addr <= x < End(bs[i]) && Elsewhere(bs, i, x))
  {
  }

  lemma ShrinkCovers(bs: seq<Block>, i: nat, b: Block, x: int)
    requires Canonical(bs) && i < |bs| && bs[i].addr <= b.addr < End(b) <= End(bs[i])
    ensures Covered(bs[i := b], x) <==>
            Covered(bs, x) && !(bs[i].addr <= x < b.addr) && !(End(b) <= x < End(bs[i]))
  {
    var r := bs[i := b];
    NotTwice(bs, i, x);
    if k :| 0 <= k < |bs| && k != i && bs[k].addr <= x < End(bs[k]) {
      CoveredSelf(r, k, x);
    }
    if b.addr <= x < End(b) {
      CoveredSelf(r, i, x);
    }
  }

  lemma RemoveCovers(bs: seq<Block>, i: nat, x: int)
    requires Canonical(bs) && i < |bs|
    ensures Covered(RemoveAt(bs, i), x) <==> Covered(bs, x) && !(bs[i].addr <= x < End(bs[i]))
  {
    var r := RemoveAt(bs, i);
    NotTwice(bs, i, x);
    if j :| 0 <= j < |r| && r[j].addr <= x < End(r[j]) {
      assert r[j] == bs[if j < i then j else j + 1];
    }
    if k :| 0 <= k < |bs| && k != i && bs[k].addr <= x < End(bs[k]) {
      CoveredSelf(r, if k < i then k else k - 1, x);
    }
  }

  lemma {:induction false} TotalSplit(a: seq<Block>, b: seq<Block>)
    ensures Total(a + b) == Total(a) + Total(b)
    decreases |a|
  {
    if a == [] {
      assert a + b == b;
    } else {
      assert (a + b)[1..] == a[1..] + b;
      TotalSplit(a[1..], b);
    }
  }

  /** The total when the blocks from i to j become mid. */
  lemma TotalReplaced(bs: seq<Block>, i: nat, j: nat, mid: seq<Block>)
    requires i <= j <= |bs|
    ensures Total(bs[..i] + mid + bs[j..]) == Total(bs) - Total(bs[i..j]) + Total(mid)
  {
    hide Total;
    TotalSplit(bs[..i] + mid, bs[j..]);
    TotalSplit(bs[..i], mid);
    ThreeParts(bs, i, j);
    TotalSplit(bs[..i] + bs[i..j], bs[j..]);
    TotalSplit(bs[..i], bs[i..j]);
  }

  lemma ThreeParts(bs: seq<Block>, i: nat, j: nat)
    requires i <= j <= |bs|
    ensures (bs[..i] + bs[i..j]) + bs[j..] == bs
  {
  }

  lemma CutIsSplice(bs: seq<Block>, i: nat, n: nat, low: bool)
    requires i < |bs|
    ensures var mid := if bs[i].len == n then [] else [Cut(bs, i, n, low)[i]];
            Cut(bs, i, n, low) == bs[..i] + mid + bs[i + 1..] && bs[i..i + 1] == [bs[i]]
  {
  }

  lemma CutTotal(bs: seq<Block>, i: nat, n: nat, low: bool)
    requires i < |bs| && n <= bs[i].len
    ensures Total(Cut(bs, i, n, low)) == Total(bs) - n
  {
    var mid := if bs[i].len == n then [] else [Cut(bs, i, n, low)[i]];
    TotalReplaced(bs, i, i + 1, mid);
    CutIsSplice(bs, i, n, low);
    hide Cut;
  }

  // ----- release

  /** The neighbours decide: on a canonical list their test is exact. */
  lemma OverlapExact(bs: seq<Block>, a: int, n: nat)
    requires Canonical(bs) && n > 0
    ensures Overlaps(bs, a, n) <==> exists x :: a <= x < a + n && Covered(bs, x)
  {
    var i := PosOf(bs, a);
    if i > 0 && a < End(bs[i - 1]) {
      CoveredSelf(bs, i - 1, a);
    }
    if i < |bs| && a + n > bs[i].addr {
      CoveredSelf(bs, i, bs[i].addr);
    }
    if x :| a <= x < a + n && Covered(bs, x) {
      var k :| 0 <= k < |bs| && bs[k].addr <= x < End(bs[k]);
      assert k < i - 1 ==> End(bs[k]) < bs[i - 1].addr;
      assert i < k ==> End(bs[i]) < bs[k].addr;
    }
  }

  /** The first block above the region that is not joined with it. */
  function Above(bs: seq<Block>, a: int, n: nat): (j: nat)
    ensures j <= |bs|
  {
    var i := PosOf(bs, a);
    if i < |bs| && bs[i].addr == a + n then i + 1 else i
  }

  /** The region and the neighbours that it touches become one block. */
  function Merged(bs: seq<Block>, a: int, n: nat): Block {
    var lo, hi := PlacedAt(bs, PosOf(bs, a), a), Above(bs, a, n);
    var start := if lo < PosOf(bs, a) then bs[lo].addr else a;
    var end := if hi > PosOf(bs, a) then End(bs[hi - 1]) else a + n;
    Block(start, end - start)
  }

  /** Blocks lo to hi give way to one. */
  function Splice(bs: seq<Block>, lo: nat, hi: nat, b: Block): (r: seq<Block>)
    requires lo <= hi <= |bs|
    ensures |r| == |bs| - (hi - lo) + 1 && r[lo] == b
    ensures forall j :: 0 <= j < lo ==> r[j] == bs[j]
    ensures forall j :: lo < j < |r| ==> r[j] == bs[j - lo - 1 + hi]
  {
    bs[..lo] + [b] + bs[hi..]
  }

  lemma PlaceSplice(bs: seq<Block>, i: nat, a: int, n: nat)
    requires i <= |bs|
    ensures var lo := PlacedAt(bs, i, a);
            Place(bs, i, a, n) == Splice(bs, lo, i, if lo < i then Block(bs[lo].addr, bs[lo].len + n) else Block(a, n))
  {
  }

  lemma JoinSplice(bs: seq<Block>, lo: nat, i: nat, b: Block)
    requires lo <= i <= |bs|
    ensures Join(Splice(bs, lo, i, b), lo) ==
            if i < |bs| && End(b) == bs[i].addr then Splice(bs, lo, i + 1, Block(b.addr, b.len + bs[i].len))
            else Splice(bs, lo, i, b)
  {
    SpliceParts(bs, lo, i, b);
    if i < |bs| && End(b) == bs[i].addr {
      var c := Block(b.addr, b.len + bs[i].len);
      assert Join(Splice(bs, lo, i, b), lo) == bs[..lo] + [c] + bs[i + 1..];
    }
    hide Splice;
  }

  lemma SpliceParts(bs: seq<Block>, lo: nat, hi: nat, b: Block)
    requires lo <= hi <= |bs|
    ensures Splice(bs, lo, hi, b)[..lo] == bs[..lo]
    ensures hi < |bs| ==> Splice(bs, lo, hi, b)[lo + 1] == bs[hi] && Splice(bs, lo, hi, b)[lo + 2..] == bs[hi + 1..]
  {
  }

  lemma ReleaseShape(bs: seq<Block>, a: int, n: nat)
    requires Canonical(bs) && n > 0 && !Overlaps(bs, a, n)
    ensures var lo, hi := PlacedAt(bs, PosOf(bs, a), a), Above(bs, a, n);
            lo <= hi && Release(bs, a, n) == Splice(bs, lo, hi, Merged(bs, a, n))
  {
    hide Place, Join, Splice, PosOf, Canonical, PlacedAt, Above, Merged;
    var i := PosOf(bs, a);
    PlacedBounds(bs, i, a);
    var lo := PlacedAt(bs, i, a);
    var b := if lo < i then Block(bs[lo].addr, bs[lo].len + n) else Block(a, n);
    PlaceSplice(bs, i, a, n);
    JoinSplice(bs, lo, i, b);
    MergedIs(bs, a, n);
  }

  lemma PlacedBounds(bs: seq<Block>, i: nat, a: int)
    requires i <= |bs|
    ensures i - 1 <= PlacedAt(bs, i, a) <= i
    ensures PlacedAt(bs, i, a) < i ==> i > 0 && End(bs[i - 1]) == a
  {
  }

  lemma MergedIs(bs: seq<Block>, a: int, n: nat)
    requires n > 0
    ensures var i := PosOf(bs, a);
            var lo := PlacedAt(bs, i, a);
            var b := if lo < i then Block(bs[lo].addr, bs[lo].len + n) else Block(a, n);
            var joins := i < |bs| && End(b) == bs[i].addr;
            && Above(bs, a, n) == (if joins then i + 1 else i)
            && Merged(bs, a, n) == if joins then Block(b.addr, b.len + bs[i].len) else b
  {
    hide PosOf;
  }

  /** The new block stands clear of those below and above it. */
  lemma MergedClear(bs: seq<Block>, a: int, n: nat)
    requires Canonical(bs) && n > 0 && !Overlaps(bs, a, n)
    ensures var lo, hi, b := PlacedAt(bs, PosOf(bs, a), a), Above(bs, a, n), Merged(bs, a, n);
            lo <= hi && (lo > 0 ==> End(bs[lo - 1]) < b.addr) && (hi < |bs| ==> End(b) < bs[hi].addr)
  {
    hide PosOf, BlockSizes;
  }

  lemma MergedSize(bs: seq<Block>, a: int, n: nat)
    requires BlockSizes(bs) && n > 0 && n % 8 == 0
    ensures Merged(bs, a, n).len > 0 && Merged(bs, a, n).len % 8 == 0
  {
    hide PosOf;
    var i := PosOf(bs, a);
    var lo, hi := PlacedAt(bs, i, a), Above(bs, a, n);
    var below, above := if lo < i then bs[lo].len else 0, if hi > i then bs[i].len else 0;
    assert Merged(bs, a, n).len == below + n + above;
    EightsAdd(below, n);
    EightsAdd(below + n, above);
  }

  lemma EightsAdd(a: nat, b: nat)
    requires a % 8 == 0 && b % 8 == 0
    ensures (a + b) % 8 == 0
  {
  }

  lemma SpliceCanonical(bs: seq<Block>, lo: nat, hi: nat, b: Block)
    requires Canonical(bs) && lo <= hi <= |bs| && b.len > 0 && b.len % 8 == 0
    requires (lo > 0 ==> End(bs[lo - 1]) < b.addr) && (hi < |bs| ==> End(b) < bs[hi].addr)
    ensures Canonical(Splice(bs, lo, hi, b))
  {
    hide Splice;
    var r := Splice(bs, lo, hi, b);
    forall j | 0 <= j < |r|
      ensures j < lo ==> r[j] == bs[j] && End(bs[j]) < b.addr
      ensures j > lo ==> r[j] == bs[j - lo - 1 + hi] && End(b) < bs[j - lo - 1 + hi].addr
    {
      assert j < lo - 1 ==> End(bs[j]) < bs[lo - 1].addr;
      assert j > lo + 1 ==> End(bs[hi]) < bs[j - lo - 1 + hi].addr;
    }
  }

  lemma SpliceCovers(bs: seq<Block>, lo: nat, hi: nat, b: Block, x: int)
    requires lo <= hi <= |bs|
    ensures Covered(Splice(bs, lo, hi, b), x) <==>
            || b.addr <= x < End(b)
            || exists k :: 0 <= k < |bs| && !(lo <= k < hi) && bs[k].addr <= x < End(bs[k])
  {
    hide Splice;
    var r := Splice(bs, lo, hi, b);
    if b.addr <= x < End(b) {
      CoveredSelf(r, lo, x);
    }
    if k :| 0 <= k < |bs| && !(lo <= k < hi) && bs[k].addr <= x < End(bs[k]) {
      CoveredSelf(r, if k < lo then k else k - hi + lo + 1, x);
    }
  }

  lemma ReleaseCanonical(bs: seq<Block>, a: int, n: nat)
    requires Canonical(bs) && n > 0 && n % 8 == 0
    ensures Canonical(Release(bs, a, n))
  {
    hide PosOf, Splice, Merged, PlacedAt, Above, Join, Place;
    if !Overlaps(bs, a, n) {
      hide Overlaps;
      ReleaseShape(bs, a, n);
      MergedClear(bs, a, n);
      MergedSize(bs, a, n);
      SpliceCanonical(bs, PlacedAt(bs, PosOf(bs, a), a), Above(bs, a, n), Merged(bs, a, n));
    }
  }

  /** Exactly the bytes of the region become free. */
  lemma ReleaseCovers(bs: seq<Block>, a: int, n: nat, x: int)
    requires Canonical(bs) && n > 0 && !Overlaps(bs, a, n)
    ensures Covered(Release(bs, a, n), x) <==> Covered(bs, x) || a <= x < a + n
  {
    hide PosOf, Splice, Join, Place, Release;
    ReleaseShape(bs, a, n);
    SpliceCovers(bs, PlacedAt(bs, PosOf(bs, a), a), Above(bs, a, n), Merged(bs, a, n), x);
  }

  lemma ReleaseTotal(bs: seq<Block>, a: int, n: nat)
    requires Canonical(bs) && n > 0 && !Overlaps(bs, a, n)
    ensures Total(Release(bs, a, n)) == Total(bs) + n
  {
    hide PosOf, Join, Place, Release;
    ReleaseShape(bs, a, n);
    var i := PosOf(bs, a);
    var lo, hi := PlacedAt(bs, i, a), Above(bs, a, n);
    TotalReplaced(bs, lo, hi, [Merged(bs, a, n)]);
    TotalTouching(bs, a, n);
  }

  lemma TotalTouching(bs: seq<Block>, a: int, n: nat)
    requires Canonical(bs) && n > 0 && !Overlaps(bs, a, n)
    ensures var lo, hi := PlacedAt(bs, PosOf(bs, a), a), Above(bs, a, n);
            lo <= hi && Total(bs[lo..hi]) + n == Merged(bs, a, n).len
  {
    hide PosOf;
    var i := PosOf(bs, a);
    var lo, hi := PlacedAt(bs, i, a), Above(bs, a, n);
    var below, above := if lo < i then [bs[lo]] else [], if hi > i then [bs[i]] else [];
    assert bs[lo..hi] == below + above;
    TotalSplit(below, above);
  }
}
