/** Facts about finite sequences that the table models share. */
module Sequences {

  ghost predicate NoDup<T>(s: seq<T>) {
    forall i, j :: 0 <= i < j < |s| ==> s[i] != s[j]
  }

  ghost predicate Within(s: seq<int>, n: int) {
    forall i :: 0 <= i < |s| ==> 0 <= s[i] < n
  }

  function Min(a: int, b: int): int { if a < b then a else b }

  function Repeat<T>(n: nat, x: T): (r: seq<T>)
    ensures |r| == n && forall i :: 0 <= i < n ==> r[i] == x
  {
    seq(n, _ => x)
  }

  function UpTo(n: nat): (r: seq<int>)
    ensures |r| == n && forall i :: 0 <= i < n ==> r[i] == i
  {
    seq(n, i => i)
  }

  function InsertAt<T>(s: seq<T>, i: nat, x: T): seq<T>
    requires i <= |s|
  {
    s[..i] + [x] + s[i..]
  }

  function RemoveAt<T>(s: seq<T>, i: nat): seq<T>
    requires i < |s|
  {
    s[..i] + s[i + 1..]
  }

  /** Position of the first occurrence of x. */
  function IndexOf(s: seq<int>, x: int): (i: nat)
    requires x in s
    ensures i < |s| && s[i] == x
  {
    if s[0] == x then 0 else 1 + IndexOf(s[1..], x)
  }

  /** s with the first occurrence of x taken out. */
  function Without(s: seq<int>, x: int): seq<int> {
    if x in s then RemoveAt(s, IndexOf(s, x)) else s
  }

  lemma InsertAtElements<T>(s: seq<T>, i: nat, x: T)
    requires i <= |s|
    ensures forall y :: y in InsertAt(s, i, x) <==> y == x || y in s
    ensures NoDup(s) && x !in s ==> NoDup(InsertAt(s, i, x))
  {
    var t := InsertAt(s, i, x);
    assert t[i] == x;
    forall y | y in s ensures y in t {
      var k :| 0 <= k < |s| && s[k] == y;
      assert t[if k < i then k else k + 1] == y;
    }
  }

  lemma RemoveAtElements<T>(s: seq<T>, i: nat)
    requires i < |s| && NoDup(s)
    ensures NoDup(RemoveAt(s, i))
    ensures forall y :: y in RemoveAt(s, i) <==> y in s && y != s[i]
  {
    var t := RemoveAt(s, i);
    forall y | y in s && y != s[i] ensures y in t {
      var k :| 0 <= k < |s| && s[k] == y;
      assert t[if k < i then k else k - 1] == y;
    }
  }

  lemma WithoutElements(s: seq<int>, x: int)
    requires NoDup(s)
    ensures NoDup(Without(s, x))
    ensures forall y :: y in Without(s, x) <==> y in s && y != x
    ensures |Without(s, x)| == if x in s then |s| - 1 else |s|
  {
    if x in s {
      RemoveAtElements(s, IndexOf(s, x));
    }
  }

  lemma WithoutHead(s: seq<int>)
    requires s != [] && NoDup(s)
    ensures Without(s, s[0]) == s[1..] && NoDup(s[1..])
    ensures forall y :: y in s[1..] <==> y in s && y != s[0]
  {
    WithoutElements(s, s[0]);
  }
}
