/**
 The sleep queue holds differences of due times. What it stands for are the ticks that each
 entry still has to wait; insertd and unsleep keep exactly those.
 */
module DeltaLists {
  import opened Sequences
  import opened QueueTables
  import opened KernelState

  /** All but the first entry. */
  function Rest(l: seq<int>): (r: seq<int>)
    requires l != []
    ensures |r| == |l| - 1
  {
    l[1..]
  }

  /** No entry occurs twice, said from the front. */
  ghost predicate Distinct(l: seq<int>)
    decreases |l|
  {
    l != [] ==> l[0] !in Rest(l) && Distinct(Rest(l))
  }

  lemma {:induction false} DistinctEntries(l: seq<int>)
    requires NoDup(l)
    ensures Distinct(l)
    decreases |l|
  {
    if l != [] {
      assert NoDup(Rest(l));
      DistinctEntries(Rest(l));
    }
  }

  /** The ticks that p, a member of the list, has left: the sum of the keys up to its own. */
  ghost function LeftIn(list: seq<int>, key: seq<int>, p: int): int
    requires Within(list, |key|) && p in list
    decreases |list|
  {
    if list[0] == p then key[p] else key[list[0]] + LeftIn(Rest(list), key, p)
  }

  lemma {:induction false} LeftSameKeys(l: seq<int>, key: seq<int>, key': seq<int>, p: int)
    requires Within(l, |key|) && |key'| == |key| && p in l
    requires forall x :: x in l ==> key'[x] == key[x]
    ensures LeftIn(l, key', p) == LeftIn(l, key, p)
    decreases |l|
  {
    assert l[0] in l;
    if l[0] != p {
      LeftSameKeys(Rest(l), key, key', p);
    }
  }

  /** Only x's key has changed, by d. */
  ghost predicate Raised(key: seq<int>, key': seq<int>, x: int, d: int) {
    && |key'| == |key| && 0 <= x < |key| && key'[x] == key[x] + d
    && (forall y :: 0 <= y < |key| && y != x ==> key'[y] == key[y])
  }

  /** Changing the head's key by d changes everybody's remaining time by d. */
  lemma LeftHead(l: seq<int>, key: seq<int>, key': seq<int>, p: int, d: int)
    requires Within(l, |key|) && Distinct(l) && p in l && Raised(key, key', l[0], d)
    ensures LeftIn(l, key', p) == LeftIn(l, key, p) + d
  {
    if l[0] != p {
      LeftSameKeys(Rest(l), key, key', p);
    }
  }

  /** insertd gives the new entry exactly the delay asked for and changes no other remaining time. */
  lemma InsertDelay(l: seq<int>, key: seq<int>, pid: int, delay: int, q: int)
    requires Within(l, |key|) && Distinct(l) && 0 <= pid < |key| && pid !in l
    requires q == pid || q in l
    ensures Within(DeltaList(l, key, pid, delay), |key|) && q in DeltaList(l, key, pid, delay)
    ensures LeftIn(DeltaList(l, key, pid, delay), DeltaKeys(l, key, pid, delay), q)
         == if q == pid then delay else LeftIn(l, key, q)
  {
    hide *;
    if q == pid {
      InsertOwn(l, key, pid, delay);
    } else {
      InsertOther(l, key, pid, delay, q);
    }
  }

  lemma {:induction false} InsertOwn(l: seq<int>, key: seq<int>, pid: int, delay: int)
    requires Within(l, |key|) && Distinct(l) && 0 <= pid < |key| && pid !in l
    ensures Within(DeltaList(l, key, pid, delay), |key|) && pid in DeltaList(l, key, pid, delay)
    ensures LeftIn(DeltaList(l, key, pid, delay), DeltaKeys(l, key, pid, delay), pid) == delay
    decreases |l|
  {
    hide *;
    HeadWithin(l, |key|);
    DeltaElements(l, key, pid, delay);
    if l == [] || key[l[0]] > delay {
      InsertFirst(l, key, pid, delay, pid);
    } else {
      TailFacts(l, |key|, pid);
      DeltaTail(l, key, pid, delay);
      var L, K := DeltaList(l, key, pid, delay), DeltaKeys(l, key, pid, delay);
      assert pid in Rest(L) && LeftIn(L, K, pid) == key[l[0]] + LeftIn(Rest(L), K, pid) by {
        LeftBehind(L, K, pid);
      }
      InsertOwn(Rest(l), key, pid, delay - key[l[0]]);
    }
  }

  lemma {:induction false} InsertOther(l: seq<int>, key: seq<int>, pid: int, delay: int, q: int)
    requires Within(l, |key|) && Distinct(l) && 0 <= pid < |key| && pid !in l && q in l
    ensures Within(DeltaList(l, key, pid, delay), |key|) && q in DeltaList(l, key, pid, delay)
    ensures LeftIn(DeltaList(l, key, pid, delay), DeltaKeys(l, key, pid, delay), q) == LeftIn(l, key, q)
    decreases |l|
  {
    hide *;
    HeadWithin(l, |key|);
    DeltaElements(l, key, pid, delay);
    if key[l[0]] > delay {
      InsertFirst(l, key, pid, delay, q);
    } else {
      TailFacts(l, |key|, q);
      DeltaTail(l, key, pid, delay);
      if q != l[0] {
        InsertOther(Rest(l), key, pid, delay - key[l[0]], q);
      }
      DeltaElements(Rest(l), key, pid, delay - key[l[0]]);
      LeftAlike(l, key, DeltaList(l, key, pid, delay), DeltaKeys(l, key, pid, delay), q);
    }
  }

  lemma HeadWithin(l: seq<int>, n: int)
    requires Within(l, n)
    ensures l != [] ==> 0 <= l[0] < n
  {
  }

  /** Behind the first entry the remaining times are those of the rest of the list, plus its key. */
  lemma LeftBehind(l: seq<int>, key: seq<int>, q: int)
    requires Within(l, |key|) && q in l
    ensures 0 <= l[0] < |key| && Within(Rest(l), |key|)
    ensures q == l[0] ==> LeftIn(l, key, q) == key[q]
    ensures q != l[0] ==> q in Rest(l) && LeftIn(l, key, q) == key[l[0]] + LeftIn(Rest(l), key, q)
  {
  }

  /** Two lists that begin with the same entry agree on q if their tails do. */
  lemma LeftAlike(l: seq<int>, key: seq<int>, l': seq<int>, key': seq<int>, q: int)
    requires Within(l, |key|) && Within(l', |key'|) && q in l && q in l' && l'[0] == l[0]
    requires 0 <= l[0] < |key| && l[0] < |key'| && key'[l[0]] == key[l[0]]
    requires Within(Rest(l), |key|) && Within(Rest(l'), |key'|)
    requires q != l[0] ==> q in Rest(l) && q in Rest(l') && LeftIn(Rest(l'), key', q) == LeftIn(Rest(l), key, q)
    ensures LeftIn(l', key', q) == LeftIn(l, key, q)
  {
  }

  lemma TailFacts(l: seq<int>, n: int, q: int)
    requires Distinct(l) && l != [] && Within(l, n)
    ensures Distinct(Rest(l)) && l[0] !in Rest(l) && 0 <= l[0] < n && Within(Rest(l), n)
    ensures q in l && q != l[0] ==> q in Rest(l)
    ensures forall x :: x in Rest(l) ==> x in l
  {
  }

  lemma DeltaElements(l: seq<int>, key: seq<int>, pid: int, delay: int)
    requires Within(l, |key|) && 0 <= pid < |key|
    ensures Within(DeltaList(l, key, pid, delay), |key|)
    ensures forall x :: x in DeltaList(l, key, pid, delay) <==> x == pid || x in l
  {
    InsertAtElements(l, DeltaPos(l, key, delay), pid);
  }

  lemma InsertFirst(l: seq<int>, key: seq<int>, pid: int, delay: int, q: int)
    requires Within(l, |key|) && Distinct(l) && 0 <= pid < |key| && pid !in l && (q == pid || q in l)
    requires l == [] || key[l[0]] > delay
    ensures Within(DeltaList(l, key, pid, delay), |key|) && q in DeltaList(l, key, pid, delay)
    ensures LeftIn(DeltaList(l, key, pid, delay), DeltaKeys(l, key, pid, delay), q)
         == if q == pid then delay else LeftIn(l, key, q)
  {
    var l', key1 := DeltaList(l, key, pid, delay), key[pid := delay];
    assert l' == [pid] + l && Rest(l') == l;
    if q != pid {
      LeftHead(l, key1, DeltaKeys(l, key, pid, delay), q, -delay);
      LeftSameKeys(l, key, key1, q);
    }
  }

  /** Behind a first entry that is due no later, insertd works on the tail with what is left. */
  lemma DeltaTail(l: seq<int>, key: seq<int>, pid: int, delay: int)
    requires Within(l, |key|) && Distinct(l) && 0 <= pid < |key| && pid !in l && l != [] && key[l[0]] <= delay
    ensures DeltaList(l, key, pid, delay) != [] && DeltaList(l, key, pid, delay)[0] == l[0]
    ensures Rest(DeltaList(l, key, pid, delay)) == DeltaList(Rest(l), key, pid, delay - key[l[0]])
    ensures DeltaKeys(l, key, pid, delay) == DeltaKeys(Rest(l), key, pid, delay - key[l[0]])
    ensures DeltaKeys(l, key, pid, delay)[l[0]] == key[l[0]]
  {
    hide *;
    DeltaKeysTail(l, key, pid, delay);
    DeltaListTail(l, key, pid, delay);
    DeltaHeadKey(l, key, pid, delay);
  }

  lemma DeltaListTail(l: seq<int>, key: seq<int>, pid: int, delay: int)
    requires Within(l, |key|) && l != [] && key[l[0]] <= delay
    ensures DeltaList(l, key, pid, delay) != [] && DeltaList(l, key, pid, delay)[0] == l[0]
    ensures Rest(DeltaList(l, key, pid, delay)) == DeltaList(Rest(l), key, pid, delay - key[l[0]])
  {
    hide DeltaPos;
    var i := DeltaPos(l, key, delay);
    DeltaPosTail(l, key, delay);
    InsertAtTail(l, i, pid);
  }

  lemma DeltaPosTail(l: seq<int>, key: seq<int>, delay: int)
    requires Within(l, |key|) && l != [] && key[l[0]] <= delay
    ensures DeltaPos(l, key, delay) == 1 + DeltaPos(Rest(l), key, delay - key[l[0]])
  {
  }

  lemma InsertAtTail(l: seq<int>, i: nat, x: int)
    requires 0 < i <= |l|
    ensures InsertAt(l, i, x)[0] == l[0] && Rest(InsertAt(l, i, x)) == InsertAt(Rest(l), i - 1, x)
  {
  }

  lemma DeltaHeadKey(l: seq<int>, key: seq<int>, pid: int, delay: int)
    requires Within(l, |key|) && Distinct(l) && 0 <= pid < |key| && pid !in l && l != [] && key[l[0]] <= delay
    ensures DeltaKeys(l, key, pid, delay)[l[0]] == key[l[0]]
  {
    hide DeltaPos, DeltaRest, Rest;
    DeltaPosTail(l, key, delay);
    var i := DeltaPos(l, key, delay);
    if i < |l| {
      NotInTail(l, i);
    }
  }

  lemma DeltaKeysTail(l: seq<int>, key: seq<int>, pid: int, delay: int)
    requires Within(l, |key|) && 0 <= pid < |key| && l != [] && key[l[0]] <= delay
    ensures DeltaKeys(l, key, pid, delay) == DeltaKeys(Rest(l), key, pid, delay - key[l[0]])
  {
    var i := DeltaPos(l, key, delay);
    assert i < |l| ==> l[i] == Rest(l)[i - 1];
  }

  /** unsleep leaves the remaining times of all others as they are. */
  lemma {:induction false} RemoveDelay(l: seq<int>, key: seq<int>, p: int, q: int)
    requires Within(l, |key|) && Distinct(l) && p in l && q in l && q != p
    ensures Within(Without(l, p), |key|) && q in Without(l, p)
    ensures LeftIn(Without(l, p), UnsleepKeys(l, key, p), q) == LeftIn(l, key, q)
    decreases |l|
  {
    hide *;
    WithoutOther(l, p, q);
    WithoutWithin(l, p, |key|);
    TailFacts(l, |key|, q);
    if l[0] == p {
      RemoveFirst(l, key, q);
    } else {
      UnsleepTail(l, key, p);
      WithoutWithin(Rest(l), p, |key|);
      if q != l[0] {
        RemoveDelay(Rest(l), key, p, q);
      }
      LeftAlike(l, key, Without(l, p), UnsleepKeys(l, key, p), q);
    }
  }

  lemma RemoveFirst(l: seq<int>, key: seq<int>, q: int)
    requires Within(l, |key|) && Distinct(l) && q in l && q != l[0]
    ensures Without(l, l[0]) == Rest(l) && q in Rest(l) && Within(Rest(l), |key|)
    ensures LeftIn(Rest(l), UnsleepKeys(l, key, l[0]), q) == LeftIn(l, key, q)
  {
    InTail(l, q);
    TailFacts(l, |key|, q);
    LeftBehind(l, key, q);
    UnsleepKeysFirst(l, key);
    assert Without(l, l[0]) == Rest(l);
    hide *;
    LeftHead(Rest(l), key, UnsleepKeys(l, key, l[0]), q, key[l[0]]);
  }

  lemma WithoutOther(l: seq<int>, p: int, q: int)
    requires p in l && q in l && q != p
    ensures q in Without(l, p)
  {
    hide IndexOf;
    var i := IndexOf(l, p);
    var j :| 0 <= j < |l| && l[j] == q;
    assert Without(l, p)[if j < i then j else j - 1] == q;
  }

  lemma UnsleepKeysFirst(l: seq<int>, key: seq<int>)
    requires Within(l, |key|) && |l| > 1
    ensures Raised(key, UnsleepKeys(l, key, l[0]), Rest(l)[0], key[l[0]])
  {
  }

  lemma InTail(l: seq<int>, q: int)
    requires l != [] && q in l && q != l[0]
    ensures q in Rest(l)
  {
    var i :| 0 <= i < |l| && l[i] == q;
    assert Rest(l)[i - 1] == q;
  }

  lemma NotInTail(l: seq<int>, i: int)
    requires Distinct(l) && 0 < i < |l|
    ensures l[i] != l[0] && Rest(l)[i - 1] == l[i]
  {
    assert Rest(l)[i - 1] in Rest(l);
  }

  lemma WithoutTail(l: seq<int>, p: int)
    requires p in l && l[0] != p
    ensures p in Rest(l) && IndexOf(l, p) == 1 + IndexOf(Rest(l), p)
    ensures Without(l, p) != [] && Without(l, p)[0] == l[0] && Rest(Without(l, p)) == Without(Rest(l), p)
  {
    InTail(l, p);
  }

  lemma UnsleepTail(l: seq<int>, key: seq<int>, p: int)
    requires Within(l, |key|) && Distinct(l) && p in l && l[0] != p
    ensures p in Rest(l) && Without(l, p) != [] && Without(l, p)[0] == l[0]
    ensures Rest(Without(l, p)) == Without(Rest(l), p)
    ensures UnsleepKeys(l, key, p) == UnsleepKeys(Rest(l), key, p)
    ensures UnsleepKeys(l, key, p)[l[0]] == key[l[0]]
  {
    WithoutTail(l, p);
    UnsleepKeysTail(l, key, p);
    hide Without, UnsleepKeys;
  }

  lemma UnsleepKeysTail(l: seq<int>, key: seq<int>, p: int)
    requires Within(l, |key|) && Distinct(l) && p in l && p in Rest(l) && IndexOf(l, p) == 1 + IndexOf(Rest(l), p)
    ensures UnsleepKeys(l, key, p) == UnsleepKeys(Rest(l), key, p)
    ensures UnsleepKeys(l, key, p)[l[0]] == key[l[0]]
  {
    hide IndexOf, Distinct;
    var i := IndexOf(l, p);
    if i + 1 < |l| {
      NotInTail(l, i + 1);
      assert Rest(l)[i] == l[i + 1];
    }
  }

  /** The place of a new entry: behind all that are due no later, before all that are due later. */
  ghost predicate DueSplit(l: seq<int>, key: seq<int>, delay: int, i: int)
    requires Within(l, |key|) && 0 <= i <= |l|
  {
    && (forall j :: 0 <= j < i ==> LeftIn(l, key, l[j]) <= delay)
    && (forall j :: i <= j < |l| ==> LeftIn(l, key, l[j]) > delay)
  }

  /** Of two sleepers that are due at the same tick the one that fell asleep first is first. */
  lemma {:induction false} InsertBehindEquals(l: seq<int>, key: seq<int>, pid: int, delay: int)
    requires Within(l, |key|) && Distinct(l) && forall x :: x in l ==> key[x] >= 0
    ensures exists i ::
        0 <= i <= |l| && DueSplit(l, key, delay, i) && DeltaList(l, key, pid, delay) == InsertAt(l, i, pid)
    decreases |l|
  {
    if l == [] {
      assert DueSplit(l, key, delay, 0);
    } else if key[l[0]] > delay {
      AllLater(l, key, delay);
      assert DueSplit(l, key, delay, 0);
    } else {
      var t := Rest(l);
      TailFacts(l, |key|, l[0]);
      InsertBehindEquals(t, key, pid, delay - key[l[0]]);
      var i :| 0 <= i <= |t| && DueSplit(t, key, delay - key[l[0]], i)
               && DeltaList(t, key, pid, delay - key[l[0]]) == InsertAt(t, i, pid);
      SplitTail(l, key, delay, i);
      DeltaListTail(l, key, pid, delay);
      InsertTail(l, i, pid, DeltaList(l, key, pid, delay));
    }
  }

  lemma SplitTail(l: seq<int>, key: seq<int>, delay: int, i: int)
    requires Within(l, |key|) && Distinct(l) && l != [] && key[l[0]] <= delay
    requires 0 <= i <= |l| - 1 && Within(Rest(l), |key|) && DueSplit(Rest(l), key, delay - key[l[0]], i)
    ensures DueSplit(l, key, delay, i + 1)
  {
    var t := Rest(l);
    forall j | 0 <= j < |l| ensures if j < i + 1 then LeftIn(l, key, l[j]) <= delay else LeftIn(l, key, l[j]) > delay {
      LeftBehind(l, key, l[j]);
      if j > 0 {
        NotInTail(l, j);
        assert l[j] == t[j - 1];
      }
    }
  }

  lemma InsertTail(l: seq<int>, i: int, x: int, r: seq<int>)
    requires l != [] && 0 <= i <= |l| - 1 && r != [] && r[0] == l[0] && Rest(r) == InsertAt(Rest(l), i, x)
    ensures r == InsertAt(l, i + 1, x)
  {
    assert r == [r[0]] + Rest(r) && l == [l[0]] + Rest(l);
  }

  lemma AllLater(l: seq<int>, key: seq<int>, delay: int)
    requires Within(l, |key|) && l != [] && key[l[0]] > delay && forall x :: x in l ==> key[x] >= 0
    ensures forall j :: 0 <= j < |l| ==> LeftIn(l, key, l[j]) > delay
  {
    forall j | 0 <= j < |l| ensures LeftIn(l, key, l[j]) > delay {
      LeftAtLeast(l, key, l[j]);
    }
  }

  lemma {:induction false} LeftAtLeast(l: seq<int>, key: seq<int>, p: int)
    requires Within(l, |key|) && p in l && forall x :: x in l ==> key[x] >= 0
    ensures LeftIn(l, key, p) >= key[l[0]] >= 0
    decreases |l|
  {
    assert l[0] in l;
    if l[0] != p {
      InTail(l, p);
      LeftAtLeast(Rest(l), key, p);
    }
  }
}
