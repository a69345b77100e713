/**
 The three searches for an unused table entry, newsem's, newpid's and ptcreate's: each goes once
 round its table from where the last one stopped.
 */
module Searches {
  import opened QueueTables
  import opened KernelState
  import opened PortState

  /** How many places i is ahead of start, counting round a table of n entries. */
  function Ahead(start: int, i: int, n: int): int {
    if i >= start then i - start else i + n - start
  }

  /** i is the first entry with the property in cyclic order from start, or SYSERR if there is none. */
  ghost predicate FirstFrom(ok: seq<bool>, start: int, i: int) {
    if i == SYSERR then forall j :: 0 <= j < |ok| ==> !ok[j]
    else
      && 0 <= i < |ok| && ok[i]
      && (forall j :: 0 <= j < |ok| && ok[j] ==> Ahead(start, i, |ok|) <= Ahead(start, j, |ok|))
  }

  lemma FirstUnique(ok: seq<bool>, start: int, i: int, j: int)
    requires 0 <= start < |ok| && FirstFrom(ok, start, i) && FirstFrom(ok, start, j)
    ensures i == j
  {
  }

  /** The first n entries from start on have not the property. */
  ghost predicate NoneSoFar(ok: seq<bool>, start: int, n: int) {
    forall j :: 0 <= j < |ok| && ok[j] ==> Ahead(start, j, |ok|) >= n
  }

  /** The search that the three have in common. */
  ghost function Search(ok: seq<bool>, next: int, n: nat): int
    requires 0 <= next < |ok|
    decreases n
  {
    if n == 0 then SYSERR else if ok[next] then next else Search(ok, Next(next, |ok|), n - 1)
  }

  lemma {:induction false} SearchFrom(ok: seq<bool>, start: int, next: int, n: nat)
    requires 0 <= start < |ok| && 0 <= next < |ok| && n <= |ok|
    requires n > 0 ==> Ahead(start, next, |ok|) == |ok| - n
    requires NoneSoFar(ok, start, |ok| - n)
    ensures FirstFrom(ok, start, Search(ok, next, n))
    decreases n
  {
    if n > 0 && !ok[next] {
      SearchFrom(ok, start, Next(next, |ok|), n - 1);
    }
  }

  /** Once round the table is enough. */
  lemma SearchFirst(ok: seq<bool>, start: int)
    requires 0 <= start < |ok|
    ensures FirstFrom(ok, start, Search(ok, start, |ok|))
  {
    SearchFrom(ok, start, start, |ok|);
  }

  ghost function First(ok: seq<bool>, start: int): (i: int)
    requires ok == [] || 0 <= start < |ok|
    ensures FirstFrom(ok, start, i)
  {
    if ok == [] then SYSERR else
      SearchFirst(ok, start);
      var i :| FirstFrom(ok, start, i);
      i
  }

  // ----- semaphores

  ghost function Unused(sems: seq<Sem>): (r: seq<bool>)
    ensures |r| == |sems| && forall j :: 0 <= j < |r| ==> r[j] == !sems[j].used
  {
    seq(|sems|, j requires 0 <= j < |sems| => !sems[j].used)
  }

  lemma {:induction false} FindSemIs(sems: seq<Sem>, next: int, n: nat)
    requires 0 <= next < |sems|
    ensures FindSem(sems, next, n) == Search(Unused(sems), next, n)
    decreases n
  {
    hide Unused;
    if n > 0 && sems[next].used {
      FindSemIs(sems, Next(next, |sems|), n - 1);
    }
  }

  /** newsem finds the first unused entry at or after nextsem, and none exactly if all are used. */
  lemma NewSemFirst(k: KState)
    requires |k.sems| > 0 ==> 0 <= k.nextsem < |k.sems|
    ensures FirstFrom(Unused(k.sems), k.nextsem, NewSem(k))
  {
    hide Unused, FindSem, Search, FirstFrom;
    if |k.sems| > 0 {
      FindSemIs(k.sems, k.nextsem, |k.sems|);
      SearchFirst(Unused(k.sems), k.nextsem);
    } else {
      NoEntries(Unused(k.sems), k.nextsem);
    }
  }

  lemma NoEntries(ok: seq<bool>, start: int)
    requires ok == []
    ensures FirstFrom(ok, start, SYSERR)
  {
  }

  // ----- processes

  ghost function FreeProcs(procs: seq<Proc>): (r: seq<bool>)
    ensures |r| == |procs| && forall j :: 0 <= j < |r| ==> r[j] == (procs[j].state == Free)
  {
    seq(|procs|, j requires 0 <= j < |procs| => procs[j].state == Free)
  }

  /** newpid keeps its place as a number from 1 to the table's size. */
  function Place(next: int, n: int): int { if next == n then 0 else next }

  lemma {:induction false} FindPidIs(procs: seq<Proc>, next: int, n: nat)
    requires 1 <= next <= |procs|
    ensures FindPid(procs, next, n) == Search(FreeProcs(procs), Place(next, |procs|), n)
    decreases n
  {
    hide FreeProcs;
    PlaceIs(next, |procs|);
    if n > 0 && procs[Place(next, |procs|)].state != Free {
      FindPidIs(procs, Place(next, |procs|) + 1, n - 1);
    }
  }

  lemma PlaceIs(next: int, n: int)
    requires 1 <= next <= n
    ensures next % n == Place(next, n)
  {
  }

  lemma NewPidFirst(k: KState)
    requires 1 <= k.nextpid <= |k.procs|
    ensures FirstFrom(FreeProcs(k.procs), Place(k.nextpid, |k.procs|), FindPid(k.procs, k.nextpid, |k.procs|))
  {
    FindPidIs(k.procs, k.nextpid, |k.procs|);
    SearchFirst(FreeProcs(k.procs), Place(k.nextpid, |k.procs|));
  }

  // ----- ports

  ghost function FreePorts(tab: seq<Port>): (r: seq<bool>)
    ensures |r| == |tab| && forall j :: 0 <= j < |r| ==> r[j] == (tab[j].state == PtFree)
  {
    seq(|tab|, j requires 0 <= j < |tab| => tab[j].state == PtFree)
  }

  lemma {:induction false} FindPortIs(tab: seq<Port>, next: int, n: nat)
    requires 0 <= next < |tab|
    ensures FindPort(tab, next, n) == Search(FreePorts(tab), next, n)
    decreases n
  {
    hide FreePorts;
    if n > 0 && tab[next].state != PtFree {
      FindPortIs(tab, Next(next, |tab|), n - 1);
    }
  }

  lemma FindPortFirst(tab: seq<Port>, next: int)
    requires 0 <= next < |tab|
    ensures FirstFrom(FreePorts(tab), next, FindPort(tab, next, |tab|))
  {
    FindPortIs(tab, next, |tab|);
    SearchFirst(FreePorts(tab), next);
  }
}
