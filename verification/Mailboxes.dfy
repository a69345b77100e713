/**
 The ring of messages that every process owns besides its one-slot mailbox. A sender writes
 at qin, the owner reads at qout, and count says how many slots lie between.
 */
module Mailboxes {
  import opened Sequences
  import opened QueueTables

  /** Slot i of a ring that starts at qout. */
  function Slot(qout: int, i: int, max: int): int
    requires max > 0
  {
    (qout + i) % max
  }

  function RingContents(q: seq<int>, qout: int, count: int): (r: seq<int>)
    requires |q| > 0 && 0 <= qout && 0 <= count
    ensures |r| == count
  {
    seq(count, i requires 0 <= i < count => q[Slot(qout, i, |q|)])
  }

  /** Within one round of the ring no two slots coincide. */
  lemma SlotsDiffer(qout: int, i: int, j: int, max: int)
    requires max > 0 && 0 <= qout < max && 0 <= i < j < max
    ensures Slot(qout, i, max) != Slot(qout, j, max)
  {
    SlotIs(qout, i, max);
    SlotIs(qout, j, max);
  }

  lemma SlotIs(qout: int, i: int, max: int)
    requires max > 0 && 0 <= qout < max && 0 <= i <= max
    ensures Slot(qout, i, max) == if qout + i < max then qout + i else qout + i - max
  {
    assert Slot(qout, i, max) == (qout + i) % max;
    if qout + i >= max {
      ModOnce(qout + i, max);
    } else {
      ModNone(qout + i, max);
    }
  }

  lemma ModNone(x: int, m: int)
    requires 0 <= x < m
    ensures x % m == x
  {
  }

  lemma ModOnce(x: int, m: int)
    requires 0 < m <= x < 2 * m
    ensures x % m == x - m
  {
    var q := x / m;
    assert x == q * m + x % m && q * m == (q - 2) * m + 2 * m && q * m == -((-q) * m);
    if q >= 2 {
      NotNegative(q - 2, m);
    } else if q <= 0 {
      NotNegative(-q, m);
    }
  }

  lemma NotNegative(a: int, b: int)
    requires a >= 0 && b >= 0
    ensures a * b >= 0
  {
  }

  lemma PutContents(q: seq<int>, qout: int, count: int, m: int)
    requires |q| > 0 && 0 <= qout < |q| && 0 <= count < |q|
    ensures var s := Slot(qout, count, |q|);
            && 0 <= s < |q| && (s + 1) % |q| == Slot(qout, count + 1, |q|)
            && RingContents(q[s := m], qout, count + 1) == RingContents(q, qout, count) + [m]
  {
    var s := Slot(qout, count, |q|);
    SlotIs(qout, count, |q|);
    SlotIs(qout, count + 1, |q|);
    SlotIs(s, 1, |q|);
    hide Slot;
    forall i | 0 <= i < count ensures q[s := m][Slot(qout, i, |q|)] == q[Slot(qout, i, |q|)] {
      SlotsDiffer(qout, i, count, |q|);
    }
  }

  lemma GetContents(q: seq<int>, qout: int, count: int)
    requires |q| > 0 && 0 <= qout < |q| && 0 < count <= |q|
    ensures var next := (qout + 1) % |q|;
            && 0 <= next < |q| && Slot(next, count - 1, |q|) == Slot(qout, count, |q|)
            && RingContents(q, qout, count) == [q[qout]] + RingContents(q, next, count - 1)
  {
    var next := (qout + 1) % |q|;
    SlotIs(qout, 0, |q|);
    SlotIs(qout, 1, |q|);
    SlotIs(qout, count, |q|);
    SlotIs(next, count - 1, |q|);
    hide Slot;
    forall i | 0 <= i < count - 1 ensures q[Slot(next, i, |q|)] == q[Slot(qout, i + 1, |q|)] {
      SlotIs(next, i, |q|);
      SlotIs(qout, i + 1, |q|);
    }
  }

  class Mailbox {
    const msgq: array<int>
    var qin: int
    var qout: int
    var count: int
    /** The owner is in state PR_RECV or PR_RECTIM. */
    var waiting: bool
    /** The same mailbox in the protocol below. */
    ghost var box: Box

    ghost predicate Valid()
      reads this
    {
      && msgq.Length > 0 && 0 <= qout < msgq.Length && 0 <= count <= msgq.Length
      && qin == Slot(qout, count, msgq.Length)
    }

    ghost function Contents(): seq<int>
      reads this, msgq
      requires Valid()
    {
      RingContents(msgq[..], qout, count)
    }

    /** The object and the protocol's box hold the same messages and agree on who waits. */
    ghost predicate Mirrors()
      reads this, msgq
      requires Valid()
    {
      box.queue == Contents() && box.max == msgq.Length && box.waiting == waiting
    }

    constructor (max: nat)
      requires max > 0
      ensures Valid() && Mirrors() && fresh(msgq) && msgq.Length == max && Contents() == [] && !waiting
      ensures box == EmptyBox(max)
    {
      msgq := new int[max](_ => 0);
      qin, qout, count, waiting := 0, 0, 0, false;
      box := EmptyBox(max);
    }

    /** The statements that sendMsg, sendMsgs and sendnMsg share. */
    method Put(msg: int)
      requires Valid() && count < msgq.Length
      modifies this`qin, this`count, msgq
      ensures Valid() && Contents() == old(Contents()) + [msg]
    {
      PutContents(msgq[..], qout, count, msg);
      ghost var was := msgq[..];
      msgq[qin] := msg;
      assert msgq[..] == was[qin := msg];
      count := count + 1;
      qin := (qin + 1) % msgq.Length;
    }

    method SendMsg(msg: int) returns (status: int)
      requires Valid() && Mirrors()
      modifies this`qin, this`count, this`waiting, this`box, msgq
      ensures Valid() && Mirrors() && box == BoxApply(old(box), PutOne(msg))
      ensures if |old(Contents())| < msgq.Length
              then status == OK && Contents() == old(Contents()) + [msg] && !waiting
              else status == SYSERR && Contents() == old(Contents()) && waiting == old(waiting)
    {
      if count == msgq.Length {
        return SYSERR;
      }
      Put(msg);
      waiting := false;
      box := BoxApply(box, PutOne(msg));
      return OK;
    }

    /** As many messages as fit are taken, in order; the owner is woken even if none fits. */
    method SendMsgs(msgs: seq<int>) returns (sent: int)
      requires Valid() && Mirrors()
      modifies this`qin, this`count, this`waiting, this`box, msgq
      ensures Valid() && Mirrors() && box == BoxApply(old(box), PutMany(msgs))
      ensures msgs == [] ==> sent == SYSERR && Contents() == old(Contents()) && waiting == old(waiting)
      ensures msgs != [] ==>
          && 0 <= sent <= |msgs| && Contents() == old(Contents()) + msgs[..sent] && !waiting
          && (sent < |msgs| ==> |Contents()| == msgq.Length)
    {
      if |msgs| == 0 {
        return SYSERR;
      }
      sent := 0;
      while sent < |msgs| && count < msgq.Length
        invariant 0 <= sent <= |msgs| && Valid() && box == old(box)
        invariant Contents() == old(Contents()) + msgs[..sent]
      {
        Put(msgs[sent]);
        sent := sent + 1;
      }
      waiting := false;
      ManyTaken(box, msgs, sent);
      box := BoxApply(box, PutMany(msgs));
    }

    /** sendnMsg's share for one recipient. */
    method SendOneOfMany(msg: int) returns (sent: bool)
      requires Valid() && Mirrors()
      modifies this`qin, this`count, this`waiting, this`box, msgq
      ensures Valid() && Mirrors() && box == BoxApply(old(box), PutShared(msg))
      ensures !waiting && sent == (|old(Contents())| < msgq.Length)
      ensures Contents() == old(Contents()) + if sent then [msg] else []
    {
      sent := count != msgq.Length;
      if sent {
        Put(msg);
      }
      waiting := false;
      box := BoxApply(box, PutShared(msg));
    }

    /** receiveMsg and receiveMsgs up to the point where the owner is current again. The caller is the
        owner, so it neither waits nor is in another such call. */
    method StartReceive(n: nat) returns (r: int)
      requires Valid() && Mirrors() && box.want == 0 && !waiting
      modifies this`waiting, this`box
      ensures Valid() && Mirrors() && Contents() == old(Contents())
      ensures r == if n == 0 then SYSERR else OK
      ensures waiting == (n > 0 && |Contents()| < n)
      ensures box == if n == 0 then old(box) else BoxApply(old(box), Ask(n))
    {
      if n == 0 {
        return SYSERR;
      }
      if count < n {
        waiting := true;
      }
      box := BoxApply(box, Ask(n));
      return OK;
    }

    /** The copying loop. It does not look at count: with too few messages it reads stale slots and
        leaves a negative count. */
    method Copy(n: nat) returns (msgs: seq<int>)
      requires Valid() && Mirrors() && box.want == n && !waiting
      modifies this`qout, this`count, this`box
      ensures |msgs| == n && count == old(count) - n
      ensures Valid() <==> n <= old(count)
      ensures box == BoxApply(old(box), Resume)
      ensures n <= old(count) ==>
          && old(Contents()) == msgs + Contents() && Mirrors()
          && box.received == old(box.received) + msgs && box.broken == old(box.broken)
      ensures n > old(count) ==> box.broken
    {
      hide Slot, RingContents, BoxApply;
      ResumeShort(box);
      msgs := [];
      ghost var was, c := Contents(), count;
      var i := 0;
      while i < n
        invariant 0 <= i <= n && |msgs| == i && count == c - i && 0 <= qout < msgq.Length
        invariant box == old(box) && waiting == old(waiting)
        invariant i <= c ==> Valid() && was == msgs + Contents()
      {
        ghost var sofar, rest := msgs, if i < c then Contents() else [];
        if i < c {
          GetContents(msgq[..], qout, count);
        }
        msgs := msgs + [msgq[qout]];
        qout := (qout + 1) % msgq.Length;
        count := count - 1;
        i := i + 1;
        assert i <= c ==> msgs + Contents() == sofar + rest;
      }
      if n <= c {
        ResumeTakes(box, msgs, Contents());
      }
      box := BoxApply(box, Resume);
    }
  }

  // ----- the protocol of one mailbox

  /** want: how many messages the owner's call is to return, 0 outside a call. accepted and received
      record everything that went in and came out. */
  datatype Box = Box(
    queue: seq<int>, max: nat, want: nat, waiting: bool,
    accepted: seq<int>, received: seq<int>, broken: bool)

  function EmptyBox(max: nat): (b: Box)
    ensures max > 0 ==> BoxOk(b)
  {
    Box([], max, 0, false, [], [], false)
  }

  datatype BoxEvent =
    | PutOne(msg: int) | PutMany(msgs: seq<int>) | PutShared(msg: int) | Ask(n: nat) | Resume

  function Room(b: Box): int { b.max - |b.queue| }

  function Added(b: Box, ms: seq<int>): Box {
    b.(queue := b.queue + ms, accepted := b.accepted + ms, waiting := false)
  }

  predicate BoxEnabled(b: Box, e: BoxEvent) {
    match e
    case Ask(n) => b.want == 0 && n > 0
    case Resume => b.want > 0 && !b.waiting
    case _ => true
  }

  function BoxApply(b: Box, e: BoxEvent): Box {
    match e
    case PutOne(m) => if Room(b) > 0 then Added(b, [m]) else b
    case PutMany(ms) =>
      if ms == [] then b
      else if 0 <= Room(b) < |ms| then Added(b, ms[..Room(b)])
      else Added(b, ms)
    case PutShared(m) => Added(b, if Room(b) > 0 then [m] else [])
    case Ask(n) => b.(want := n, waiting := |b.queue| < n)
    case Resume =>
      if |b.queue| < b.want then b.(want := 0, broken := true)
      else b.(want := 0, received := b.received + b.queue[..b.want], queue := b.queue[b.want..])
  }

  lemma ManyTaken(b: Box, ms: seq<int>, sent: nat)
    requires ms != [] && sent <= |ms| && |b.queue| + sent <= b.max && (sent < |ms| ==> |b.queue| + sent == b.max)
    ensures BoxApply(b, PutMany(ms)) == Added(b, ms[..sent])
  {
    assert ms[..|ms|] == ms;
  }

  lemma ResumeTakes(b: Box, msgs: seq<int>, rest: seq<int>)
    requires b.queue == msgs + rest && |msgs| == b.want
    ensures BoxApply(b, Resume) == b.(want := 0, received := b.received + msgs, queue := rest)
  {
  }

  lemma ResumeShort(b: Box)
    ensures |b.queue| < b.want ==> BoxApply(b, Resume) == b.(want := 0, broken := true)
  {
  }

  /** Every accepted message is delivered once and in order, and a resumed receiver of one message
      finds it. */
  ghost predicate BoxOk(b: Box) {
    && b.max > 0 && |b.queue| <= b.max && b.accepted == b.received + b.queue
    && (b.waiting ==> b.want > 0 && |b.queue| < b.want)
    && (b.want > 0 && !b.waiting ==> |b.queue| >= 1)
  }

  /** The copying loop breaks exactly when it starts with too few messages; nothing else ever does. */
  lemma BoxStep(b: Box, e: BoxEvent)
    requires BoxOk(b) && BoxEnabled(b, e)
    ensures BoxOk(BoxApply(b, e))
    ensures BoxApply(b, e).broken <==> b.broken || (e == Resume && |b.queue| < b.want)
  {
  }

  ghost predicate BoxRun(b: Box, es: seq<BoxEvent>)
    decreases |es|
  {
    es != [] ==> BoxEnabled(b, es[0]) && BoxRun(BoxApply(b, es[0]), es[1..])
  }

  function BoxAfter(b: Box, es: seq<BoxEvent>): Box
    decreases |es|
  {
    if es == [] then b else BoxAfter(BoxApply(b, es[0]), es[1..])
  }

  /** As many messages as are there, or one more if the ring has room for it. */
  predicate SafeAsk(b: Box, n: nat) {
    n <= |b.queue| || n == |b.queue| + 1 <= b.max
  }

  ghost predicate SafeAsks(b: Box, es: seq<BoxEvent>)
    decreases |es|
  {
    es != [] ==> (es[0].Ask? ==> SafeAsk(b, es[0].n)) && SafeAsks(BoxApply(b, es[0]), es[1..])
  }

  /** The owner waits for one message more than there are, with room for it, or it has what it wants. */
  ghost predicate WantMet(b: Box) {
    if b.waiting then b.want == |b.queue| + 1 <= b.max else b.want <= |b.queue|
  }

  lemma WantStep(b: Box, e: BoxEvent)
    requires BoxOk(b) && BoxEnabled(b, e) && WantMet(b) && (e.Ask? ==> SafeAsk(b, e.n))
    ensures WantMet(BoxApply(b, e))
  {
  }

  /** Then, whatever the senders do, nothing is lost, repeated or reordered, and no receiver reads a
      slot that was not written. */
  lemma {:induction false} BoxRunOk(b: Box, es: seq<BoxEvent>)
    requires BoxOk(b) && WantMet(b) && !b.broken && BoxRun(b, es) && SafeAsks(b, es)
    ensures BoxOk(BoxAfter(b, es)) && !BoxAfter(b, es).broken
    decreases |es|
  {
    if es != [] {
      BoxStep(b, es[0]);
      WantStep(b, es[0]);
      assert !BoxApply(b, es[0]).broken;
      hide BoxOk, BoxEnabled, BoxApply, WantMet;
      BoxRunOk(BoxApply(b, es[0]), es[1..]);
    }
  }

  predicate NoAsks(es: seq<BoxEvent>) {
    forall j :: 0 <= j < |es| ==> !es[j].Ask?
  }

  lemma {:induction false} NoAsksSafe(b: Box, es: seq<BoxEvent>)
    requires NoAsks(es)
    ensures SafeAsks(b, es)
    decreases |es|
  {
    if es != [] {
      assert NoAsks(es[1..]) by { assert forall j :: 0 <= j < |es[1..]| ==> es[1..][j] == es[j + 1]; }
      NoAsksSafe(BoxApply(b, es[0]), es[1..]);
    }
  }

  /** Whatever is sent until the call returns, and after, it does not read a slot that was not written. */
  ghost predicate NeverBreaks(b: Box) {
    forall es :: NoAsks(es) && BoxRun(b, es) ==> !BoxAfter(b, es).broken
  }

  /** receiveMsgs (receiveMsg for one message) reads only written slots, whatever the senders do,
      exactly if at the call it asks for no more than is there, or for one more and the ring has room.
      Any other request breaks: every send wakes the owner, whether or not it has enough then. */
  lemma AskExact(b: Box, n: nat)
    requires BoxOk(b) && !b.broken && BoxEnabled(b, Ask(n))
    ensures NeverBreaks(BoxApply(b, Ask(n))) <==> SafeAsk(b, n)
  {
    var r := BoxApply(b, Ask(n));
    BoxStep(b, Ask(n));
    if SafeAsk(b, n) {
      WantStep(b, Ask(n));
      forall es | NoAsks(es) && BoxRun(r, es) ensures !BoxAfter(r, es).broken {
        NoAsksSafe(r, es);
        BoxRunOk(r, es);
      }
    } else {
      AskBreaks(r, 0);
    }
  }

  /** sendnMsg adds at most one message and wakes the owner. */
  lemma AskBreaks(r: Box, m: int)
    requires r.want > |r.queue| && (r.want > |r.queue| + 1 || |r.queue| >= r.max)
    ensures var es := [PutShared(m), Resume];
            NoAsks(es) && BoxRun(r, es) && BoxAfter(r, es).broken
  {
    var es := [PutShared(m), Resume];
    var r1 := BoxApply(r, PutShared(m));
    assert es[1..] == [Resume] && es[1..][1..] == [];
    assert BoxRun(BoxApply(r1, Resume), []);
    assert BoxRun(r1, [Resume]);
    assert BoxAfter(r, es) == BoxAfter(r1, [Resume]) == BoxApply(r1, Resume);
  }
}
