/**
 The table of doubly linked process lists that share one array, queuetab.
 Entries 0..nproc-1 belong to processes; each list owns two further entries, its
 head and its tail. A process lies on at most one list, so one pair of links and
 one key per process are enough.
 */
module QueueTables {
  import opened Sequences

  const EMPTY: int := -1
  const SYSERR: int := -1
  const OK: int := 1
  const MAXKEY: int := 0x7FFF_FFFF
  const MINKEY: int := -0x8000_0000

  function QueueHead(q: int): int { q }

  function QueueTail(q: int): int { q + 1 }

  /** The first position whose key is below kv: where insert (descending, stable) puts kv. */
  function InsertPos(list: seq<int>, key: seq<int>, kv: int): (i: nat)
    requires Within(list, |key|)
    ensures i <= |list|
    ensures forall j :: 0 <= j < i ==> key[list[j]] >= kv
    ensures i < |list| ==> key[list[i]] < kv
  {
    if list == [] || key[list[0]] < kv then 0 else 1 + InsertPos(list[1..], key, kv)
  }

  /** The position at which insertd puts a delay: before the first entry due strictly later. */
  function DeltaPos(list: seq<int>, key: seq<int>, delay: int): (i: nat)
    requires Within(list, |key|)
    ensures i <= |list|
  {
    if list == [] || key[list[0]] > delay then 0
    else 1 + DeltaPos(list[1..], key, delay - key[list[0]])
  }

  /** What is left of the delay at that position. */
  function DeltaRest(list: seq<int>, key: seq<int>, delay: int): int
    requires Within(list, |key|)
  {
    if list == [] || key[list[0]] > delay then delay
    else DeltaRest(list[1..], key, delay - key[list[0]])
  }

  function InsertList(list: seq<int>, key: seq<int>, pid: int, kv: int): seq<int>
    requires Within(list, |key|)
  {
    InsertAt(list, InsertPos(list, key, kv), pid)
  }

  function DeltaList(list: seq<int>, key: seq<int>, pid: int, delay: int): seq<int>
    requires Within(list, |key|)
  {
    InsertAt(list, DeltaPos(list, key, delay), pid)
  }

  /** The keys after insertd: pid gets the rest, its successor gives the rest up. */
  function DeltaKeys(list: seq<int>, key: seq<int>, pid: int, delay: int): (r: seq<int>)
    requires Within(list, |key|) && 0 <= pid < |key|
    ensures |r| == |key|
    ensures forall x :: 0 <= x < |key| && x != pid && x !in list ==> r[x] == key[x]
  {
    var i := DeltaPos(list, key, delay);
    var rest := DeltaRest(list, key, delay);
    var k1 := key[pid := rest];
    if i < |list| then k1[list[i] := k1[list[i]] - rest] else k1
  }

  // ----- the links of one list, and of all lists, as facts about plain sequences

  ghost function Full(n: int, lists: seq<seq<int>>, j: int): seq<int>
    requires 0 <= j < |lists|
  {
    [n + 2 * j] + lists[j] + [n + 2 * j + 1]
  }

  ghost predicate Linked(nx: seq<int>, pv: seq<int>, full: seq<int>) {
    && (forall i :: 0 <= i < |full| ==> 0 <= full[i] < |nx| && full[i] < |pv|)
    && (forall i :: 0 <= i < |full| - 1 ==> nx[full[i]] == full[i + 1])
    && (forall i :: 0 < i < |full| ==> pv[full[i]] == full[i - 1])
  }

  ghost predicate ListsOk(n: int, lists: seq<seq<int>>) {
    && (forall j :: 0 <= j < |lists| ==> NoDup(lists[j]) && Within(lists[j], n))
    && (forall j, k, p :: 0 <= j < |lists| && 0 <= k < |lists| && p in lists[j] && p in lists[k] ==> j == k)
  }

  ghost predicate OnNoList(lists: seq<seq<int>>, p: int) {
    forall j :: 0 <= j < |lists| ==> p !in lists[j]
  }

  ghost predicate TableOk(n: int, lists: seq<seq<int>>, nx: seq<int>, pv: seq<int>, key: seq<int>) {
    && 0 <= n && |nx| == |pv| == |key| && n + 2 * |lists| <= |nx|
    && ListsOk(n, lists)
    && (forall j :: 0 <= j < |lists| ==>
          && Linked(nx, pv, Full(n, lists, j))
          && key[n + 2 * j] == MAXKEY && key[n + 2 * j + 1] == MINKEY)
  }

  /** Entries of two different lists, sentinels included, never coincide. */
  lemma FullDisjoint(n: int, lists: seq<seq<int>>, j: int, k: int, x: int)
    requires ListsOk(n, lists) && 0 <= j < |lists| && 0 <= k < |lists|
    requires x in Full(n, lists, j) && x in Full(n, lists, k)
    ensures j == k
  {
    if x >= n {
      assert x !in lists[j] && x !in lists[k];
    }
  }

  lemma FullNoDup(n: int, lists: seq<seq<int>>, j: int)
    requires ListsOk(n, lists) && 0 <= j < |lists|
    ensures NoDup(Full(n, lists, j))
  {
    var f := Full(n, lists, j);
    forall a, b | 0 <= a < b < |f| ensures f[a] != f[b] {
      assert a > 0 ==> f[a] == lists[j][a - 1];
      assert b < |f| - 1 ==> f[b] == lists[j][b - 1];
    }
  }

  /** The list of j itself, with p between neighbours i and i+1. */
  lemma InsertOwnLinks(n: int, lists: seq<seq<int>>, nx: seq<int>, pv: seq<int>, j: int, i: nat, p: int)
    requires ListsOk(n, lists) && |nx| == |pv| && n <= |nx| && 0 <= j < |lists|
    requires Linked(nx, pv, Full(n, lists, j))
    requires i <= |lists[j]| && 0 <= p < n && OnNoList(lists, p)
    ensures var f := Full(n, lists, j);
            Linked(nx[p := f[i + 1]][f[i] := p], pv[p := f[i]][f[i + 1] := p],
                   Full(n, lists[j := InsertAt(lists[j], i, p)], j))
  {
    var f := Full(n, lists, j);
    var nx', pv' := nx[p := f[i + 1]][f[i] := p], pv[p := f[i]][f[i + 1] := p];
    FullNoDup(n, lists, j);
    assert p !in f;
    var f' := Full(n, lists[j := InsertAt(lists[j], i, p)], j);
    assert f' == f[..i + 1] + [p] + f[i + 1..];
    forall m | 0 <= m < |f'| - 1 ensures nx'[f'[m]] == f'[m + 1] && pv'[f'[m + 1]] == f'[m] {
      if m < i {
        assert f'[m] == f[m] && f'[m + 1] == f[m + 1];
      } else if m > i + 1 {
        assert f'[m] == f[m - 1] && f'[m + 1] == f[m];
      }
    }
  }

  /** Putting the free entry p between neighbours i and i+1 of list j. */
  lemma InsertLinks(n: int, lists: seq<seq<int>>, nx: seq<int>, pv: seq<int>, key: seq<int>, j: int, i: nat, p: int)
    requires TableOk(n, lists, nx, pv, key)
    requires 0 <= j < |lists| && i <= |lists[j]| && 0 <= p < n && OnNoList(lists, p)
    ensures var f := Full(n, lists, j);
            TableOk(n, lists[j := InsertAt(lists[j], i, p)],
                    nx[p := f[i + 1]][f[i] := p], pv[p := f[i]][f[i + 1] := p], key)
  {
    var f := Full(n, lists, j);
    var lists' := lists[j := InsertAt(lists[j], i, p)];
    var nx', pv' := nx[p := f[i + 1]][f[i] := p], pv[p := f[i]][f[i + 1] := p];
    InsertOwnLinks(n, lists, nx, pv, j, i, p);
    InsertAtElements(lists[j], i, p);
    assert f[i] in f && f[i + 1] in f;
    hide Linked;
    forall k | 0 <= k < |lists'| ensures Linked(nx', pv', Full(n, lists', k)) {
      assert Linked(nx, pv, Full(n, lists, k));
      if k != j {
        assert Full(n, lists', k) == Full(n, lists, k);
        OtherListKept(n, lists, nx, pv, nx', pv', j, k, p);
      }
    }
  }

  /** Unlinking the i-th entry of list j. */
  lemma RemoveLinks(n: int, lists: seq<seq<int>>, nx: seq<int>, pv: seq<int>, key: seq<int>, j: int, i: nat)
    requires TableOk(n, lists, nx, pv, key)
    requires 0 <= j < |lists| && i < |lists[j]|
    ensures var f := Full(n, lists, j);
            TableOk(n, lists[j := RemoveAt(lists[j], i)], nx[f[i] := f[i + 2]], pv[f[i + 2] := f[i]], key)
  {
    var f := Full(n, lists, j);
    var lists' := lists[j := RemoveAt(lists[j], i)];
    var nx', pv' := nx[f[i] := f[i + 2]], pv[f[i + 2] := f[i]];
    RemoveAtElements(lists[j], i);
    FullNoDup(n, lists, j);
    var f' := Full(n, lists', j);
    assert f' == f[..i + 1] + f[i + 2..];
    assert Linked(nx', pv', f') by {
      forall m | 0 <= m < |f'| - 1 ensures nx'[f'[m]] == f'[m + 1] && pv'[f'[m + 1]] == f'[m] {
        if m < i {
          assert f'[m] == f[m] && f'[m + 1] == f[m + 1];
        } else if m > i {
          assert f'[m] == f[m + 1] && f'[m + 1] == f[m + 2];
        }
      }
    }
    forall k | 0 <= k < |lists'| && k != j ensures Linked(nx', pv', Full(n, lists', k)) {
      OtherListKept(n, lists, nx, pv, nx', pv', j, k, -1);
      assert Full(n, lists', k) == Full(n, lists, k);
    }
  }

  /** Link changes confined to list j and to the free entry p leave list k linked. */
  lemma OtherListKept(n: int, lists: seq<seq<int>>, nx: seq<int>, pv: seq<int>, nx': seq<int>, pv': seq<int>,
                      j: int, k: int, p: int)
    requires ListsOk(n, lists) && 0 <= j < |lists| && 0 <= k < |lists| && k != j
    requires p < n && OnNoList(lists, p)
    requires Linked(nx, pv, Full(n, lists, k))
    requires |nx'| == |nx| && |pv'| == |pv|
    requires forall x :: 0 <= x < |nx| && x != p && x !in Full(n, lists, j) ==> nx'[x] == nx[x]
    requires forall x :: 0 <= x < |pv| && x != p && x !in Full(n, lists, j) ==> pv'[x] == pv[x]
    ensures Linked(nx', pv', Full(n, lists, k))
  {
    var g := Full(n, lists, k);
    forall m | 0 <= m < |g| ensures g[m] != p && g[m] !in Full(n, lists, j) {
      if g[m] in Full(n, lists, j) {
        FullDisjoint(n, lists, j, k, g[m]);
      }
      assert 0 < m < |g| - 1 ==> g[m] == lists[k][m - 1];
    }
  }

  /** Writing the links of an entry that is on no list. */
  lemma FloatLinks(n: int, lists: seq<seq<int>>, nx: seq<int>, pv: seq<int>, key: seq<int>, p: int, a: int, b: int)
    requires TableOk(n, lists, nx, pv, key) && 0 <= p < n && OnNoList(lists, p)
    ensures TableOk(n, lists, nx[p := a], pv[p := b], key)
  {
    forall k | 0 <= k < |lists| ensures Linked(nx[p := a], pv[p := b], Full(n, lists, k)) {
      var g := Full(n, lists, k);
      assert Linked(nx, pv, g);
      forall m | 0 <= m < |g| ensures g[m] != p {
        assert 0 < m < |g| - 1 ==> g[m] == lists[k][m - 1];
      }
    }
  }

  /** A fresh pair of sentinels is an empty list and disturbs no other. */
  lemma NewLinks(n: int, lists: seq<seq<int>>, nx: seq<int>, pv: seq<int>, key: seq<int>,
                 nx': seq<int>, pv': seq<int>, key': seq<int>)
    requires TableOk(n, lists, nx, pv, key)
    requires n + 2 * |lists| + 2 <= |nx|
    requires var q := n + 2 * |lists|;
             && nx' == nx[q := q + 1][q + 1 := EMPTY] && pv' == pv[q := EMPTY][q + 1 := q]
             && key' == key[q := MAXKEY][q + 1 := MINKEY]
    ensures TableOk(n, lists + [[]], nx', pv', key')
  {
    hide Linked, Full;
    var lists' := lists + [[]];
    forall k | 0 <= k < |lists'| ensures Linked(nx', pv', Full(n, lists', k)) {
      if k < |lists| {
        OldLinks(n, lists, nx, pv, key, nx', pv', k);
      } else {
        NewPair(n, lists, nx', pv', k);
      }
    }
  }

  lemma OldLinks(n: int, lists: seq<seq<int>>, nx: seq<int>, pv: seq<int>, key: seq<int>,
                 nx': seq<int>, pv': seq<int>, k: int)
    requires TableOk(n, lists, nx, pv, key) && 0 <= k < |lists| && |nx'| == |pv'| == |nx|
    requires forall x :: 0 <= x < n + 2 * |lists| ==> nx'[x] == nx[x] && pv'[x] == pv[x]
    ensures Linked(nx', pv', Full(n, lists + [[]], k))
  {
    var g := Full(n, lists, k);
    assert Full(n, lists + [[]], k) == g && Linked(nx, pv, g);
    forall m | 0 <= m < |g| ensures 0 <= g[m] < n + 2 * |lists| {
      assert 0 < m < |g| - 1 ==> g[m] == lists[k][m - 1];
    }
  }

  lemma NewPair(n: int, lists: seq<seq<int>>, nx: seq<int>, pv: seq<int>, k: int)
    requires k == |lists| && 0 <= n && n + 2 * k + 2 <= |nx| == |pv|
    requires nx[n + 2 * k] == n + 2 * k + 1 && pv[n + 2 * k + 1] == n + 2 * k
    ensures Linked(nx, pv, Full(n, lists + [[]], k))
  {
    assert Full(n, lists + [[]], k) == [n + 2 * k, n + 2 * k + 1];
  }

  class QueueTable {
    const nproc: nat
    const qnext: array<int>
    const qprev: array<int>
    const qkey: array<int>
    var nextqid: int
    ghost var lists: seq<seq<int>>

    ghost predicate Valid()
      reads this, qnext, qprev, qkey
    {
      && qnext != qprev && qnext != qkey && qprev != qkey
      && qnext.Length == qprev.Length == qkey.Length
      && nextqid == nproc + 2 * |lists|
      && (qnext.Length - nproc) % 2 == 0
      && TableOk(nproc, lists, qnext[..], qprev[..], qkey[..])
    }

    /** A queue identifier that newqueue has given out; it names list (q - nproc) / 2. */
    ghost predicate IsQueue(q: int)
      reads this
    {
      nproc <= q < nproc + 2 * |lists| && (q - nproc) % 2 == 0
    }

    ghost function Index(q: int): nat
      requires nproc <= q
    {
      (q - nproc) / 2
    }

    ghost function Keys(): seq<int>
      reads this, qnext, qprev, qkey
      requires Valid()
      ensures |Keys()| == nproc
    {
      qkey[..nproc]
    }

    constructor (nproc: nat, nqueues: nat)
      ensures Valid() && lists == [] && this.nproc == nproc
      ensures qnext.Length == nproc + 2 * nqueues
      ensures fresh(qnext) && fresh(qprev) && fresh(qkey)
      ensures Keys() == Repeat(nproc, 0)
    {
      this.nproc := nproc;
      qnext := new int[nproc + 2 * nqueues](i => 0);
      qprev := new int[nproc + 2 * nqueues](i => 0);
      qkey := new int[nproc + 2 * nqueues](i => 0);
      nextqid := nproc;
      lists := [];
    }

    function FirstId(q: int): int
      reads qnext
      requires 0 <= QueueHead(q) < qnext.Length
    {
      qnext[QueueHead(q)]
    }

    predicate IsEmpty(q: int)
      reads qnext
      requires 0 <= QueueHead(q) < qnext.Length
    {
      FirstId(q) >= nproc
    }

    /** The head's link tells the first process; the first key is that of the tail when the list is empty. */
    lemma FirstOfList(q: int)
      requires Valid() && IsQueue(q)
      ensures 0 <= FirstId(q) < qkey.Length
      ensures IsEmpty(q) <==> lists[Index(q)] == []
      ensures lists[Index(q)] != [] ==> FirstId(q) == lists[Index(q)][0]
      ensures lists[Index(q)] == [] ==> qkey[FirstId(q)] == MINKEY
    {
      var j := Index(q);
      var f := Full(nproc, lists, j);
      assert Linked(qnext[..], qprev[..], f);
      assert f[0] == q && qnext[..][f[0]] == f[1];
      assert qkey[..][nproc + 2 * j + 1] == MINKEY;
      if lists[j] != [] {
        assert f[1] == lists[j][0] && lists[j][0] in lists[j];
      }
    }

    /** What an operation on one list needs to know of the table. */
    lemma ListFacts(q: int)
      requires Valid() && IsQueue(q)
      ensures var l := lists[Index(q)]; var f := Full(nproc, lists, Index(q));
              && NoDup(l) && Within(l, nproc) && |Keys()| == nproc && f[0] == q
              && Linked(qnext[..], qprev[..], f) && qkey[q + 1] == MINKEY
              && nproc <= q < q + 1 < qnext.Length == qprev.Length == qkey.Length
    {
      assert qkey[..][nproc + 2 * Index(q) + 1] == MINKEY;
    }

    /** The i-th entry of a list has the neighbours that the list says. */
    lemma Neighbours(q: int, i: nat)
      requires Valid() && IsQueue(q) && i < |lists[Index(q)]|
      ensures var f := Full(nproc, lists, Index(q)); var p := lists[Index(q)][i];
              && f[i + 1] == p && 0 <= p < nproc
              && 0 <= f[i] < qnext.Length && 0 <= f[i + 2] < qnext.Length
              && qnext[p] == f[i + 2] && qprev[p] == f[i]
    {
      var f := Full(nproc, lists, Index(q));
      assert Linked(qnext[..], qprev[..], f);
      assert lists[Index(q)][i] in lists[Index(q)];
      assert qnext[..][f[i + 1]] == f[i + 2] && qprev[..][f[i + 1]] == f[i];
      assert f[i + 2] in f && f[i] in f;
    }

    method NewQueue() returns (q: int)
      requires Valid()
      modifies this, qnext, qprev, qkey
      ensures Valid()
      ensures if old(nextqid) < qnext.Length
              then q == old(nextqid) && lists == old(lists) + [[]] && IsQueue(q)
              else q == SYSERR && lists == old(lists)
      ensures Keys() == old(Keys())
    {
      q := nextqid;
      if q >= qnext.Length {
        return SYSERR;
      }
      ghost var nx, pv, key := qnext[..], qprev[..], qkey[..];
      nextqid := nextqid + 2;
      qnext[QueueHead(q)] := QueueTail(q);
      qprev[QueueHead(q)] := EMPTY;
      qkey[QueueHead(q)] := MAXKEY;
      qnext[QueueTail(q)] := EMPTY;
      qprev[QueueTail(q)] := QueueHead(q);
      qkey[QueueTail(q)] := MINKEY;
      NewLinks(nproc, lists, nx, pv, key, qnext[..], qprev[..], qkey[..]);
      lists := lists + [[]];
    }

    /** The four link writes that enqueue, insert and insertd share: pid goes between
        neighbours i and i+1 of list j, sentinels counted. */
    method Link(pid: int, prev: int, next: int, ghost j: int, ghost i: nat)
      requires Valid() && 0 <= pid < nproc && OnNoList(lists, pid)
      requires 0 <= j < |lists| && i <= |lists[j]|
      requires prev == Full(nproc, lists, j)[i] && next == Full(nproc, lists, j)[i + 1]
      modifies this`lists, qnext, qprev
      ensures Valid()
      ensures lists == old(lists)[j := InsertAt(old(lists)[j], i, pid)]
    {
      ghost var nx, pv := qnext[..], qprev[..];
      ghost var f := Full(nproc, lists, j);
      assert Linked(nx, pv, f);
      assert f[i] in f && f[i + 1] in f;
      qnext[pid] := next;
      qprev[pid] := prev;
      qnext[prev] := pid;
      qprev[next] := pid;
      assert qnext[..] == nx[pid := next][prev := pid];
      assert qprev[..] == pv[pid := prev][next := pid];
      InsertLinks(nproc, lists, nx, pv, qkey[..], j, i, pid);
      lists := lists[j := InsertAt(lists[j], i, pid)];
    }

    /** enqueue: the list grows at its end. */
    method Enqueue(pid: int, q: int) returns (r: int)
      requires Valid()
      requires IsQueue(q) && 0 <= pid < nproc ==> OnNoList(lists, pid)
      modifies this`lists, qnext, qprev
      ensures Valid()
      ensures if old(IsQueue(q)) && 0 <= pid < nproc
              then r == pid && lists == old(lists)[Index(q) := old(lists)[Index(q)] + [pid]]
              else r == SYSERR && lists == old(lists)
    {
      if BadQid(q) || BadPid(pid) {
        return SYSERR;
      }
      ghost var j, nx, pv := Index(q), qnext[..], qprev[..];
      ghost var f := Full(nproc, lists, j);
      ghost var i := |lists[j]|;
      assert Linked(nx, pv, f);
      var tail := QueueTail(q);
      var prev := qprev[tail];
      assert f[i + 1] == tail && pv[f[i + 1]] == f[i];
      assert InsertAt(lists[j], i, pid) == lists[j] + [pid];
      Link(pid, prev, tail, j, i);
      return pid;
    }

    predicate BadQid(q: int)
      reads this
      requires nextqid >= nproc
      ensures nextqid == nproc + 2 * |lists| ==> (BadQid(q) <==> !IsQueue(q))
    {
      q < nproc || q >= nextqid || (q - nproc) % 2 != 0
    }

    predicate BadPid(pid: int) {
      pid < 0 || pid >= nproc
    }

    /** getitem: the process leaves whichever list it is on; i is its place on list j. */
    method GetItem(pid: int, ghost j: int, ghost i: nat)
      requires Valid()
      requires 0 <= j < |lists| && i < |lists[j]| && lists[j][i] == pid
      modifies this`lists, qnext, qprev
      ensures Valid()
      ensures lists == old(lists)[j := RemoveAt(old(lists)[j], i)]
    {
      ghost var nx, pv := qnext[..], qprev[..];
      Neighbours(nproc + 2 * j, i);
      RemoveLinks(nproc, lists, nx, pv, qkey[..], j, i);
      var next := qnext[pid];
      var prev := qprev[pid];
      qnext[prev] := next;
      qprev[next] := prev;
      assert qnext[..] == nx[prev := next];
      assert qprev[..] == pv[next := prev];
      lists := lists[j := RemoveAt(lists[j], i)];
    }

    method GetFirst(q: int) returns (pid: int)
      requires Valid() && IsQueue(q)
      modifies this`lists, qnext, qprev
      ensures Valid()
      ensures var l := old(lists)[Index(q)];
              if l == [] then pid == EMPTY && lists == old(lists)
              else pid == l[0] && lists == old(lists)[Index(q) := l[1..]]
    {
      FirstOfList(q);
      if IsEmpty(q) {
        return EMPTY;
      }
      var head := QueueHead(q);
      pid := qnext[head];
      assert RemoveAt(lists[Index(q)], 0) == lists[Index(q)][1..];
      GetItem(pid, Index(q), 0);
    }

    method GetLast(q: int) returns (pid: int)
      requires Valid() && IsQueue(q)
      modifies this`lists, qnext, qprev
      ensures Valid()
      ensures var l := old(lists)[Index(q)];
              if l == [] then pid == EMPTY && lists == old(lists)
              else pid == l[|l| - 1] && lists == old(lists)[Index(q) := l[..|l| - 1]]
    {
      FirstOfList(q);
      if IsEmpty(q) {
        return EMPTY;
      }
      ghost var l := lists[Index(q)];
      ghost var f := Full(nproc, lists, Index(q));
      assert Linked(qnext[..], qprev[..], f);
      var tail := QueueTail(q);
      pid := qprev[tail];
      assert f[|l| + 1] == tail && f[|l|] == l[|l| - 1];
      assert qprev[..][f[|l| + 1]] == f[|l|];
      GetItem(pid, Index(q), |l| - 1);
      assert RemoveAt(l, |l| - 1) == l[..|l| - 1];
    }

    method Dequeue(q: int) returns (pid: int)
      requires Valid()
      modifies this`lists, qnext, qprev
      ensures Valid()
      ensures !old(IsQueue(q)) ==> pid == SYSERR && lists == old(lists)
      ensures old(IsQueue(q)) && old(lists)[Index(q)] == [] ==> pid == EMPTY && lists == old(lists)
      ensures old(IsQueue(q)) && old(lists)[Index(q)] != [] ==>
                && pid == old(lists)[Index(q)][0]
                && lists == old(lists)[Index(q) := old(lists)[Index(q)][1..]]
                && 0 <= pid < qnext.Length == qprev.Length && qnext[pid] == EMPTY && qprev[pid] == EMPTY
    {
      if BadQid(q) {
        return SYSERR;
      }
      FirstOfList(q);
      if IsEmpty(q) {
        return EMPTY;
      }
      ghost var j, l := Index(q), lists[Index(q)];
      assert l[0] in l && NoDup(l);
      pid := GetFirst(q);
      assert lists == old(lists)[j := l[1..]];
      assert OnNoList(lists, pid) by {
        WithoutHead(l);
        forall k | 0 <= k < |lists| ensures pid !in lists[k] {
          assert pid in old(lists)[j];
        }
      }
      FloatLinks(nproc, lists, qnext[..], qprev[..], qkey[..], pid, EMPTY, EMPTY);
      ghost var nx, pv := qnext[..], qprev[..];
      qprev[pid] := EMPTY;
      qnext[pid] := EMPTY;
      assert qnext[..] == nx[pid := EMPTY] && qprev[..] == pv[pid := EMPTY];
    }

    /** The scan of insert. It has no other stop than the tail's MINKEY. */
    method ScanInsert(q: int, key: int) returns (curr: int, ghost i: nat)
      requires Valid() && IsQueue(q) && key > MINKEY
      ensures var l := lists[Index(q)];
              && Within(l, nproc) && i == InsertPos(l, Keys(), key)
              && curr == Full(nproc, lists, Index(q))[i + 1] && 0 <= curr < qprev.Length
              && qprev[curr] == Full(nproc, lists, Index(q))[i]
    {
      ListFacts(q);
      hide TableOk;
      ghost var l, nx, pv := lists[Index(q)], qnext[..], qprev[..];
      ghost var f := Full(nproc, lists, Index(q));
      i := 0;
      curr := FirstId(q);
      assert nx[f[0]] == f[1];
      while qkey[curr] >= key
        invariant i <= |l| && curr == f[i + 1] && 0 <= curr < qkey.Length
        invariant forall m :: 0 <= m < i ==> qkey[l[m]] >= key
        decreases |l| - i
      {
        assert i == |l| ==> curr == QueueTail(q);
        assert f[i + 1] == l[i] && nx[f[i + 1]] == f[i + 2];
        curr := qnext[curr];
        i := i + 1;
      }
      assert pv[f[i + 1]] == f[i];
      assert i < |l| ==> f[i + 1] == l[i] && Keys()[l[i]] < key;
      InsertPosUnique(l, Keys(), key, i);
    }

    /** insert: behind every entry whose key is at least as large, so equal keys keep arrival order. */
    method Insert(pid: int, q: int, key: int) returns (r: int)
      requires Valid() && key > MINKEY
      requires IsQueue(q) && 0 <= pid < nproc ==> OnNoList(lists, pid)
      modifies this`lists, qnext, qprev, qkey
      ensures Valid()
      ensures if old(IsQueue(q)) && 0 <= pid < nproc
              then r == OK
                && lists == old(lists)[Index(q) := InsertList(old(lists)[Index(q)], old(Keys()), pid, key)]
                && Keys() == old(Keys())[pid := key]
              else r == SYSERR && lists == old(lists) && Keys() == old(Keys())
    {
      if BadQid(q) || BadPid(pid) {
        return SYSERR;
      }
      var curr, i := ScanInsert(q, key);
      var prev := qprev[curr];
      SetKey(pid, key);
      Link(pid, prev, curr, Index(q), i);
      return OK;
    }

    /** The scan of insertd: past every entry that is due no later than the new one. */
    method ScanDelta(q: int, delay: int) returns (prev: int, next: int, key: int, ghost i: nat)
      requires Valid() && IsQueue(q)
      ensures var l := lists[Index(q)]; var f := Full(nproc, lists, Index(q));
              && Within(l, nproc)
              && i == DeltaPos(l, Keys(), delay) && key == DeltaRest(l, Keys(), delay)
              && prev == f[i] && next == f[i + 1]
              && (next == QueueTail(q) <==> i == |l|)
    {
      ListFacts(q);
      hide TableOk;
      ghost var l, nx := lists[Index(q)], qnext[..];
      ghost var f := Full(nproc, lists, Index(q));
      i := 0;
      key := delay;
      prev := QueueHead(q);
      next := qnext[QueueHead(q)];
      assert nx[f[0]] == f[1];
      assert l[0..] == l;
      while next != QueueTail(q) && qkey[next] <= key
        invariant i <= |l| && prev == f[i] && next == f[i + 1] && 0 <= next < qkey.Length
        invariant DeltaPos(l, Keys(), delay) == i + DeltaPos(l[i..], Keys(), key)
        invariant DeltaRest(l, Keys(), delay) == DeltaRest(l[i..], Keys(), key)
        decreases |l| - i
      {
        assert f[i + 1] == l[i] && nx[f[i + 1]] == f[i + 2];
        assert l[i..][0] == l[i] && l[i..][1..] == l[i + 1..];
        key := key - qkey[next];
        prev := next;
        next := qnext[next];
        i := i + 1;
      }
      if i < |l| {
        assert l[i..][0] == l[i] && f[i + 1] == l[i];
      } else {
        assert l[i..] == [];
      }
    }

    /** insertd: the new entry keeps what is left of the delay, and its successor gives that up. */
    method InsertD(pid: int, q: int, delay: int) returns (r: int)
      requires Valid()
      requires IsQueue(q) && 0 <= pid < nproc ==> OnNoList(lists, pid)
      modifies this`lists, qnext, qprev, qkey
      ensures Valid()
      ensures if old(IsQueue(q)) && 0 <= pid < nproc
              then r == OK
                && lists == old(lists)[Index(q) := DeltaList(old(lists)[Index(q)], old(Keys()), pid, delay)]
                && Keys() == DeltaKeys(old(lists)[Index(q)], old(Keys()), pid, delay)
              else r == SYSERR && lists == old(lists) && Keys() == old(Keys())
    {
      if BadQid(q) || BadPid(pid) {
        return SYSERR;
      }
      ghost var j, l := Index(q), lists[Index(q)];
      var prev, next, key, i := ScanDelta(q, delay);
      assert next == if i < |l| then l[i] else QueueTail(q);
      SetKey(pid, key);
      Link(pid, prev, next, j, i);
      if next != QueueTail(q) {
        SetKey(next, qkey[next] - key);
      }
      return OK;
    }

    /** The write that unsleep and the clock make: the key of a process, wherever it is queued. */
    method SetKey(pid: int, v: int)
      requires Valid() && 0 <= pid < nproc
      modifies qkey
      ensures Valid()
      ensures Keys() == old(Keys())[pid := v]
    {
      ghost var keys := qkey[..];
      qkey[pid] := v;
      assert qkey[..] == keys[pid := v];
      assert TableOk(nproc, lists, qnext[..], qprev[..], qkey[..]);
    }
  }

  /** The scan of insert stops at the position the definition names, and at no other. */
  lemma {:induction false} InsertPosUnique(l: seq<int>, key: seq<int>, kv: int, i: nat)
    requires Within(l, |key|) && i <= |l|
    requires forall m :: 0 <= m < i ==> key[l[m]] >= kv
    requires i < |l| ==> key[l[i]] < kv
    ensures InsertPos(l, key, kv) == i
  {
    if i > 0 {
      InsertPosUnique(l[1..], key, kv, i - 1);
    }
  }
}
