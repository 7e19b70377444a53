/**
 The queue as it is coded: a ring of raw cells and two intrusive lists of awaiters that live in the
 frames of the parked coroutines. Every method is proved to make the step of `QueueModel`.
 */
module Queues {
  import opened Wrappers
  import opened Sequences
  import M = QueueModel

  /** The awaiter of a send; it carries the value while its coroutine is parked. */
  class SendAwaiter<T(0)> {
    const q: Queue<T>
    const value: T
    var next: SendAwaiter?<T>
    var slot: nat
    var linked: bool

    constructor (q: Queue<T>, value: T)
      ensures this.q == q && this.value == value && next == null && !linked
    {
      this.q, this.value := q, value;
      next, slot, linked := null, 0, false;
    }

    /** The destructor: an awaiter that is still parked leaves its queue; else the queue is not touched. */
    method Destroy()
      requires linked ==> q.Valid() && this in q.senders
      modifies this`next, this`linked
      modifies (if linked then {q} else {})`sendHead, (if linked then {q} else {})`sendTail
      modifies (if linked then {q} else {})`senders, (if linked then {q} else {})`waitingSends
      modifies (if linked then q.senders else [])`next
      ensures !linked
      ensures old(linked) ==> q.Valid() && LeftSends(q.View(), old(q.View())) && this !in q.senders
    {
      if linked {
        Leave();
      }
    }

    /** A parked awaiter leaves its queue. */
    method Leave()
      requires q.Valid() && this in q.senders
      modifies this`linked, q`sendHead, q`sendTail, q`senders, q`waitingSends, q.senders`next
      ensures !linked && q.Valid() && LeftSends(q.View(), old(q.View())) && this !in q.senders
    {
      hide q.Ring, q.SendList, q.ReceiveList;
      ghost var k :| 0 <= k < |q.senders| && q.senders[k] == this;
      q.SendLengths();
      q.UnlinkSender(this, k);
      q.SendLengths();
    }
  }

  /**
   The awaiter of a receive. Its result cell is raw storage: `cell` is what has been constructed in it
   and not destroyed, `hasResult` is what the code knows of that.
   */
  class ReceiveAwaiter<T(0)> {
    const q: Queue<T>
    var cell: Option<T>
    var hasResult: bool
    var next: ReceiveAwaiter?<T>
    var slot: nat
    var linked: bool
    ghost var constructed: nat // payloads ever constructed in the cell, and destroyed there
    ghost var destroyed: nat

    constructor (q: Queue<T>)
      ensures this.q == q && Counted() && !hasResult && constructed == 0 && next == null && !linked
    {
      this.q := q;
      cell, hasResult, next, slot, linked := None, false, null, 0, false;
      constructed, destroyed := 0, 0;
    }

    /** The code knows whether the cell holds a payload, and what was constructed there was destroyed once. */
    ghost predicate Counted()
      reads this`cell, this`hasResult, this`constructed, this`destroyed
    {
      (hasResult <==> cell.Some?) && constructed == destroyed + (if cell.Some? then 1 else 0)
    }

    /** `construct_result`: the cell is raw. */
    method Construct(v: T)
      requires Counted() && !hasResult
      modifies this`cell, this`hasResult, this`constructed
      ensures Counted() && hasResult && cell == Some(v) && constructed == old(constructed) + 1
    {
      assert cell == None;
      cell := Some(v);
      hasResult := true;
      constructed := constructed + 1;
    }

    /** The payload's destructor: the cell holds one. */
    method DestroyPayload()
      requires Counted() && hasResult
      modifies this`cell, this`hasResult, this`destroyed
      ensures Counted() && !hasResult && destroyed == old(destroyed) + 1
    {
      assert cell.Some?;
      cell := None;
      hasResult := false;
      destroyed := destroyed + 1;
    }

    /** `await_resume`: the value is moved out and the stored copy destroyed. */
    method TakeResult() returns (v: T)
      requires Counted() && hasResult
      modifies this`cell, this`hasResult, this`destroyed
      ensures Counted() && !hasResult && Some(v) == old(cell) && destroyed == old(destroyed) + 1
    {
      v := cell.value;
      DestroyPayload();
    }

    /**
     The destructor: an awaiter that is still parked leaves its queue, a result that nobody took is
     destroyed. An awaiter that outlives its queue is not linked any more, and the queue is not touched.
     */
    method Destroy()
      requires Counted() && (linked ==> q.Valid() && this in q.receivers)
      modifies this`cell, this`hasResult, this`destroyed, this`next, this`linked
      modifies (if linked then {q} else {})`recvHead, (if linked then {q} else {})`recvTail
      modifies (if linked then {q} else {})`receivers, (if linked then {q} else {})`waitingReceives
      modifies (if linked then q.receivers else [])`next
      ensures !linked && cell == None && constructed == destroyed && constructed == old(constructed)
      ensures old(linked) ==> q.Valid() && LeftReceives(q.View(), old(q.View())) && this !in q.receivers
    {
      if linked {
        Leave();
      }
      if hasResult {
        DestroyPayload();
      }
    }

    /** A parked awaiter leaves its queue. */
    method Leave()
      requires q.Valid() && this in q.receivers
      modifies this`linked, q`recvHead, q`recvTail, q`receivers, q`waitingReceives, q.receivers`next
      ensures !linked && q.Valid() && LeftReceives(q.View(), old(q.View())) && this !in q.receivers
    {
      hide q.Ring, q.SendList, q.ReceiveList;
      ghost var k :| 0 <= k < |q.receivers| && q.receivers[k] == this;
      q.ReceiveLengths();
      q.UnlinkReceiver(this, k);
      q.ReceiveLengths();
    }
  }

  /** One parked sender left, from any position; everything else is as it was. */
  ghost predicate LeftSends<T>(q: M.Queue<T>, was: M.Queue<T>) {
    exists k: nat :: k < |was.senders| && q == was.(senders := Without(was.senders, k))
  }

  ghost predicate LeftReceives<T>(q: M.Queue<T>, was: M.Queue<T>) {
    exists k: nat :: k < |was.receivers| && q == was.(receivers := Without(was.receivers, k))
  }

  /** Index `i` lies in the wrapped window of `n` cells from `head` in a ring of `size` cells. */
  predicate InWindow(head: nat, n: nat, size: nat, i: nat) {
    head <= i < head + n || i + size < head + n
  }

  function Wrapped(head: nat, k: nat, size: nat): nat {
    if head + k < size then head + k else if head + k < 2 * size then head + k - size else 0
  }

  ghost predicate SendChain<T(0)>(nodes: seq<SendAwaiter<T>>, head: SendAwaiter?<T>, tail: SendAwaiter?<T>)
    reads nodes
  {
    && (forall i, j :: 0 <= i < j < |nodes| ==> nodes[i] != nodes[j])
    && head == (if nodes == [] then null else nodes[0])
    && tail == (if nodes == [] then null else nodes[|nodes| - 1])
    && (forall i :: 0 <= i < |nodes| ==> nodes[i].linked)
    && (forall i {:trigger nodes[i].next} :: 0 <= i < |nodes| - 1 ==> nodes[i].next == nodes[i + 1])
    && (nodes != [] ==> nodes[|nodes| - 1].next == null)
  }

  ghost predicate ReceiveChain<T(0)>(nodes: seq<ReceiveAwaiter<T>>, head: ReceiveAwaiter?<T>, tail: ReceiveAwaiter?<T>)
    reads nodes
  {
    && (forall i, j :: 0 <= i < j < |nodes| ==> nodes[i] != nodes[j])
    && head == (if nodes == [] then null else nodes[0])
    && tail == (if nodes == [] then null else nodes[|nodes| - 1])
    && (forall i :: 0 <= i < |nodes| ==> nodes[i].linked && !nodes[i].hasResult && nodes[i].Counted())
    && (forall i {:trigger nodes[i].next} :: 0 <= i < |nodes| - 1 ==> nodes[i].next == nodes[i + 1])
    && (nodes != [] ==> nodes[|nodes| - 1].next == null)
  }

  /** Relinking around node `k` leaves a chain of the others. */
  lemma SenderUnlinked<T(0)>(nodes: seq<SendAwaiter<T>>, k: nat, head: SendAwaiter?<T>, tail: SendAwaiter?<T>)
    requires k < |nodes| && forall i, j :: 0 <= i < j < |nodes| ==> nodes[i] != nodes[j]
    requires forall i :: 0 <= i < |nodes| && i != k ==> nodes[i].linked
    requires forall i {:trigger nodes[i].next} :: 0 <= i < |nodes| - 1 && i != k && i + 1 != k ==> nodes[i].next == nodes[i + 1]
    requires k > 0 ==> nodes[k - 1].next == if k + 1 < |nodes| then nodes[k + 1] else null
    requires k + 1 < |nodes| ==> nodes[|nodes| - 1].next == null
    requires head == if k > 0 then nodes[0] else if k + 1 < |nodes| then nodes[k + 1] else null
    requires tail == if k + 1 < |nodes| then nodes[|nodes| - 1] else if k > 0 then nodes[k - 1] else null
    ensures SendChain(Without(nodes, k), head, tail)
  {
    WithoutAt(nodes, k);
    var r := Without(nodes, k);
    hide Without;
    forall i | 0 <= i < |r| - 1
      ensures r[i].next == r[i + 1]
    {
      if i + 1 == k {
        assert r[i] == nodes[k - 1] && r[i + 1] == nodes[k + 1];
      }
    }
  }

  /** Relinking around node `k` leaves a chain of the others. */
  lemma ReceiverUnlinked<T(0)>(nodes: seq<ReceiveAwaiter<T>>, k: nat, head: ReceiveAwaiter?<T>, tail: ReceiveAwaiter?<T>)
    requires k < |nodes| && forall i, j :: 0 <= i < j < |nodes| ==> nodes[i] != nodes[j]
    requires forall i :: 0 <= i < |nodes| && i != k ==> nodes[i].linked && !nodes[i].hasResult && nodes[i].Counted()
    requires forall i {:trigger nodes[i].next} :: 0 <= i < |nodes| - 1 && i != k && i + 1 != k ==> nodes[i].next == nodes[i + 1]
    requires k > 0 ==> nodes[k - 1].next == if k + 1 < |nodes| then nodes[k + 1] else null
    requires k + 1 < |nodes| ==> nodes[|nodes| - 1].next == null
    requires head == if k > 0 then nodes[0] else if k + 1 < |nodes| then nodes[k + 1] else null
    requires tail == if k + 1 < |nodes| then nodes[|nodes| - 1] else if k > 0 then nodes[k - 1] else null
    ensures ReceiveChain(Without(nodes, k), head, tail)
  {
    WithoutAt(nodes, k);
    var r := Without(nodes, k);
    hide Without;
    forall i | 0 <= i < |r| - 1
      ensures r[i].next == r[i + 1]
    {
      if i + 1 == k {
        assert r[i] == nodes[k - 1] && r[i + 1] == nodes[k + 1];
      }
    }
  }

  class Queue<T(0)> {
    const cells: array<Option<T>> // raw cells: None; a live payload: Some
    var head: nat
    var count: nat
    var sendHead: SendAwaiter?<T>
    var sendTail: SendAwaiter?<T>
    var recvHead: ReceiveAwaiter?<T>
    var recvTail: ReceiveAwaiter?<T>
    ghost var buffer: seq<T>                  // the abstract queue, in three parts
    ghost var waitingSends: seq<M.Sender<T>>
    ghost var waitingReceives: seq<nat>
    ghost var senders: seq<SendAwaiter<T>>
    ghost var receivers: seq<ReceiveAwaiter<T>>
    ghost var constructed: nat // payloads ever constructed in cells, and destroyed there
    ghost var destroyed: nat

    ghost function View(): M.Queue<T>
      reads this`buffer, this`waitingSends, this`waitingReceives
    {
      M.Queue(buffer, waitingSends, waitingReceives)
    }

    /** The ring: exactly the cells of the window hold a payload, in order. */
    ghost predicate Ring()
      reads this`head, this`count, this`buffer, this`constructed, this`destroyed, cells
    {
      && head < cells.Length && count <= cells.Length && |buffer| == count
      && (forall i :: 0 <= i < cells.Length ==> (cells[i].Some? <==> InWindow(head, count, cells.Length, i)))
      && (forall k :: 0 <= k < count ==> cells[Wrapped(head, k, cells.Length)] == Some(buffer[k]))
      && constructed == destroyed + count
    }

    ghost predicate SendList()
      reads this`sendHead, this`sendTail, this`senders, this`waitingSends, senders
    {
      && SendChain(senders, sendHead, sendTail) && |waitingSends| == |senders|
      && forall k :: 0 <= k < |senders| ==> waitingSends[k] == M.Sender(senders[k].slot, senders[k].value)
    }

    ghost predicate ReceiveList()
      reads this`recvHead, this`recvTail, this`receivers, this`waitingReceives, receivers
    {
      && ReceiveChain(receivers, recvHead, recvTail) && |waitingReceives| == |receivers|
      && forall k :: 0 <= k < |receivers| ==> waitingReceives[k] == receivers[k].slot
    }

    ghost predicate Valid()
      reads this, cells, senders, receivers
    {
      Ring() && SendList() && ReceiveList()
    }

    constructor (capacity: nat)
      requires capacity > 0
      ensures Valid() && fresh(cells) && cells.Length == capacity
      ensures View() == M.Queue([], [], []) && senders == [] && receivers == []
    {
      cells := new Option<T>[capacity](_ => None);
      head, count := 0, 0;
      sendHead, sendTail, recvHead, recvTail := null, null, null, null;
      buffer, waitingSends, waitingReceives, senders, receivers := [], [], [], [], [];
      constructed, destroyed := 0, 0;
    }

    // ----- cells -------------------------------------------------------------------------------

    /** Placement construction at the tail: the cell there is raw. */
    method StoreBack(v: T)
      requires Ring() && count < cells.Length
      modifies this`count, this`buffer, this`constructed, cells
      ensures Ring() && buffer == old(buffer) + [v] && constructed == old(constructed) + 1
    {
      var t := head + count;
      if t >= cells.Length {
        t := t - cells.Length;
      }
      assert cells[t] == None;
      cells[t] := Some(v);
      count := count + 1;
      constructed := constructed + 1;
      buffer := buffer + [v];
    }

    /** Destruction at the head: the cell there is live. */
    method PopFrontStorage()
      requires Ring() && count > 0
      modifies this`head, this`count, this`buffer, this`destroyed, cells
      ensures Ring() && buffer == old(buffer)[1..]
      ensures count == old(count) - 1 && destroyed == old(destroyed) + 1
    {
      assert cells[head] == Some(buffer[0]) by { assert Wrapped(head, 0, cells.Length) == head; }
      ghost var was := head;
      assert forall k :: 1 <= k < count ==> Wrapped(was, k, cells.Length) != was;
      cells[head] := None;
      head := if head + 1 == cells.Length then 0 else head + 1;
      count := count - 1;
      destroyed := destroyed + 1;
      buffer := buffer[1..];
      assert forall k :: 0 <= k < count ==> Wrapped(head, k, cells.Length) == Wrapped(was, k + 1, cells.Length);
    }

    /** The value at the head of a queue that is not empty. */
    method Front() returns (v: T)
      requires Ring() && count > 0
      ensures v == buffer[0]
    {
      assert Wrapped(head, 0, cells.Length) == head;
      v := cells[head].value;
    }

    // ----- the lists of awaiters ----------------------------------------------------------------

    method ParkSender(a: SendAwaiter<T>, slot: nat)
      requires SendList() && !a.linked && a !in senders
      modifies this`sendHead, this`sendTail, this`senders, this`waitingSends, a`next, a`slot, a`linked, senders`next
      ensures SendList() && senders == old(senders) + [a]
      ensures waitingSends == old(waitingSends) + [M.Sender(slot, a.value)]
    {
      a.slot := slot;
      a.next := null;
      if sendTail == null {
        sendHead := a;
      } else {
        sendTail.next := a;
      }
      sendTail := a;
      a.linked := true;
      senders := senders + [a];
      waitingSends := waitingSends + [M.Sender(slot, a.value)];
    }

    method SendPopFront() returns (a: SendAwaiter<T>)
      requires SendList() && senders != []
      modifies this`sendHead, this`sendTail, this`senders, this`waitingSends, senders[0]
      ensures SendList() && a == old(senders)[0] && senders == old(senders)[1..]
      ensures !a.linked && a.next == null
      ensures waitingSends == old(waitingSends)[1..]
      ensures old(waitingSends)[0] == M.Sender(a.slot, a.value)
    {
      a := sendHead;
      sendHead := a.next;
      if sendHead == null {
        sendTail := null;
      }
      a.next := null;
      a.linked := false;
      senders := senders[1..];
      waitingSends := waitingSends[1..];
    }

    method ParkReceiver(a: ReceiveAwaiter<T>, slot: nat)
      requires ReceiveList() && !a.linked && !a.hasResult && a.Counted() && a !in receivers
      modifies this`recvHead, this`recvTail, this`receivers, this`waitingReceives, a`next, a`slot, a`linked, receivers`next
      ensures ReceiveList() && receivers == old(receivers) + [a]
      ensures waitingReceives == old(waitingReceives) + [slot]
    {
      hide a.Counted;
      a.slot := slot;
      a.next := null;
      if recvTail == null {
        recvHead := a;
      } else {
        recvTail.next := a;
      }
      recvTail := a;
      a.linked := true;
      receivers := receivers + [a];
      waitingReceives := waitingReceives + [slot];
    }

    method RecvPopFront() returns (a: ReceiveAwaiter<T>)
      requires ReceiveList() && receivers != []
      modifies this`recvHead, this`recvTail, this`receivers, this`waitingReceives, receivers[0]
      ensures ReceiveList() && a == old(receivers)[0] && receivers == old(receivers)[1..] && a !in receivers
      ensures !a.linked && a.next == null && !a.hasResult && a.Counted()
      ensures waitingReceives == old(waitingReceives)[1..]
      ensures old(waitingReceives)[0] == a.slot
    {
      a := recvHead;
      recvHead := a.next;
      if recvHead == null {
        recvTail := null;
      }
      a.next := null;
      a.linked := false;
      receivers := receivers[1..];
      waitingReceives := waitingReceives[1..];
    }

    /** The walk to a parked sender, which keeps the node before it. */
    method BeforeSender(a: SendAwaiter<T>, ghost k: nat) returns (prev: SendAwaiter?<T>)
      requires SendList() && k < |senders| && senders[k] == a
      ensures prev == if k == 0 then null else senders[k - 1]
    {
      prev := null;
      var s := sendHead;
      ghost var i := 0;
      while s != a
        invariant i <= k && s == senders[i] && prev == (if i == 0 then null else senders[i - 1])
        decreases k - i
      {
        prev := s;
        s := s.next;
        i := i + 1;
      }
    }

    /** A parked sender's frame is destroyed: the others keep their order. */
    method UnlinkSender(a: SendAwaiter<T>, ghost k: nat)
      requires SendList() && k < |senders| && senders[k] == a
      modifies this`sendHead, this`sendTail, this`senders, this`waitingSends, senders`next, a`linked
      ensures SendList() && senders == Without(old(senders), k) && !a.linked && a.next == null
      ensures waitingSends == Without(old(waitingSends), k)
    {
      hide Without, SendChain;
      var prev := BeforeSender(a, k);
      SpliceSender(a, prev, k);
      WithoutAt(senders, k);
      WithoutAt(waitingSends, k);
      senders := Without(senders, k);
      waitingSends := Without(waitingSends, k);
    }

    /** The links around a parked node are closed. */
    method SpliceSender(a: SendAwaiter<T>, prev: SendAwaiter?<T>, ghost k: nat)
      requires SendChain(senders, sendHead, sendTail) && k < |senders| && senders[k] == a
      requires prev == if k == 0 then null else senders[k - 1]
      modifies this`sendHead, this`sendTail, senders`next, a`linked
      ensures SendChain(Without(senders, k), sendHead, sendTail) && !a.linked && a.next == null
    {
      hide Without;
      if prev == null {
        sendHead := a.next;
      } else {
        prev.next := a.next;
      }
      if sendTail == a {
        sendTail := prev;
      }
      a.next := null;
      a.linked := false;
      SenderUnlinked(senders, k, sendHead, sendTail);
    }

    /** The walk to a parked receiver, which keeps the node before it. */
    method BeforeReceiver(a: ReceiveAwaiter<T>, ghost k: nat) returns (prev: ReceiveAwaiter?<T>)
      requires ReceiveList() && k < |receivers| && receivers[k] == a
      ensures prev == if k == 0 then null else receivers[k - 1]
    {
      prev := null;
      var r := recvHead;
      ghost var i := 0;
      while r != a
        invariant i <= k && r == receivers[i] && prev == (if i == 0 then null else receivers[i - 1])
        decreases k - i
      {
        prev := r;
        r := r.next;
        i := i + 1;
      }
    }

    /** A parked receiver's frame is destroyed: the others keep their order. */
    method UnlinkReceiver(a: ReceiveAwaiter<T>, ghost k: nat)
      requires ReceiveList() && k < |receivers| && receivers[k] == a
      modifies this`recvHead, this`recvTail, this`receivers, this`waitingReceives, receivers`next, a`linked
      ensures ReceiveList() && receivers == Without(old(receivers), k) && !a.linked && a.next == null
      ensures waitingReceives == Without(old(waitingReceives), k)
    {
      hide Without, ReceiveChain;
      var prev := BeforeReceiver(a, k);
      SpliceReceiver(a, prev, k);
      WithoutAt(receivers, k);
      WithoutAt(waitingReceives, k);
      receivers := Without(receivers, k);
      waitingReceives := Without(waitingReceives, k);
    }

    /** The links around a parked node are closed. */
    method SpliceReceiver(a: ReceiveAwaiter<T>, prev: ReceiveAwaiter?<T>, ghost k: nat)
      requires ReceiveChain(receivers, recvHead, recvTail) && k < |receivers| && receivers[k] == a
      requires prev == if k == 0 then null else receivers[k - 1]
      modifies this`recvHead, this`recvTail, receivers`next, a`linked
      ensures ReceiveChain(Without(receivers, k), recvHead, recvTail) && !a.linked && a.next == null
    {
      hide Without;
      if prev == null {
        recvHead := a.next;
      } else {
        prev.next := a.next;
      }
      if recvTail == a {
        recvTail := prev;
      }
      a.next := null;
      a.linked := false;
      ReceiverUnlinked(receivers, k, recvHead, recvTail);
    }

    lemma SendLengths()
      requires SendList()
      ensures |waitingSends| == |senders| && forall a :: a in senders ==> a.linked
    {
    }

    lemma ReceiveLengths()
      requires ReceiveList()
      ensures |waitingReceives| == |receivers| && forall a :: a in receivers ==> a.linked && !a.hasResult
    {
    }

    lemma Shape()
      requires Valid()
      ensures |buffer| == count <= cells.Length && |waitingSends| == |senders| && |waitingReceives| == |receivers|
      ensures (sendHead == null <==> senders == []) && (recvHead == null <==> receivers == [])
    {
    }

    // ----- operations ----------------------------------------------------------------------------

    /** `do_send`; `woken` is the slot handed to `wake_slot`. */
    method DoSend(v: T) returns (ok: bool, woken: Option<nat>)
      requires Valid()
      modifies this, cells, receivers
      ensures Valid() && senders == old(senders)
      ensures View() == M.DoSend(old(View()), cells.Length, v).0
      ensures M.Effect(ok, woken, None) == M.DoSend(old(View()), cells.Length, v).1
      ensures old(receivers) != [] ==> receivers == old(receivers)[1..]
      ensures old(receivers) != [] ==> old(receivers)[0].Counted() && old(receivers)[0].cell == Some(v)
    {
      hide Ring, SendList, ReceiveChain, SendChain;
      Shape();
      if recvHead != null {
        var r := RecvPopFront();
        r.Construct(v);
        return true, Some(r.slot);
      }
      if count < cells.Length {
        StoreBack(v);
        return true, None;
      }
      return false, None;
    }

    method AdmitOldestSender() returns (woken: Option<nat>)
      requires Valid() && count < cells.Length
      modifies this, cells, senders
      ensures Valid() && receivers == old(receivers)
      ensures old(waitingSends) == [] ==> woken == None && View() == old(View())
      ensures old(waitingSends) != [] ==>
                var s := old(waitingSends)[0];
                woken == Some(s.slot) && View() == M.Queue(old(buffer) + [s.value], old(waitingSends)[1..], old(waitingReceives))
    {
      hide Ring, ReceiveList, ReceiveChain, SendChain;
      Shape();
      if sendHead != null {
        var s := SendPopFront();
        StoreBack(s.value);
        return Some(s.slot);
      }
      return None;
    }

    /** `tryReceive`, and the value part of a receive that does not suspend. */
    method TryReceive() returns (v: Option<T>, woken: Option<nat>)
      requires Valid()
      modifies this, cells, senders
      ensures Valid() && receivers == old(receivers)
      ensures View() == M.DoReceive(old(View())).0
      ensures M.Effect(v.Some?, woken, v) == M.DoReceive(old(View())).1
    {
      hide Ring, SendList, ReceiveList;
      Shape();
      if count == 0 {
        return None, None;
      }
      var x := Front();
      PopFrontStorage();
      woken := AdmitOldestSender();
      v := Some(x);
    }

    /** `await_ready` of a receive: the value is constructed in the awaiter's result cell. */
    method ReceiveReady(a: ReceiveAwaiter<T>) returns (ok: bool, woken: Option<nat>)
      requires Valid() && a.Counted() && !a.hasResult && a !in receivers
      modifies this, cells, senders, a`cell, a`hasResult, a`constructed
      ensures Valid() && receivers == old(receivers) && a.Counted() && a.hasResult == ok
      ensures View() == M.DoReceive(old(View())).0
      ensures M.Effect(ok, woken, a.cell) == M.DoReceive(old(View())).1
    {
      hide Ring, SendList, ReceiveList;
      Shape();
      if count == 0 {
        return false, None;
      }
      var x := Front();
      a.Construct(x);
      PopFrontStorage();
      woken := AdmitOldestSender();
      ok := true;
    }

    /** The destructor: parked awaiters are detached, buffered payloads destroyed exactly once. */
    method Destruct() returns (error: bool)
      requires Valid()
      modifies this, cells, senders`linked, receivers`linked
      ensures error <==> old(senders) != [] || old(receivers) != []
      ensures forall i :: 0 <= i < |old(senders)| ==> !old(senders)[i].linked
      ensures forall i :: 0 <= i < |old(receivers)| ==> !old(receivers)[i].linked && !old(receivers)[i].hasResult && old(receivers)[i].Counted()
      ensures count == 0 && constructed == destroyed && constructed == old(constructed)
      ensures forall i :: 0 <= i < cells.Length ==> cells[i] == None
    {
      error := sendHead != null || recvHead != null;
      DetachSenders();
      DetachReceivers();
      while count > 0
        invariant Ring() && constructed == old(constructed)
        invariant forall i :: 0 <= i < |old(senders)| ==> !old(senders)[i].linked
        invariant forall i :: 0 <= i < |old(receivers)| ==> !old(receivers)[i].linked && !old(receivers)[i].hasResult && old(receivers)[i].Counted()
        decreases count
      {
        PopFrontStorage();
      }
    }

    method DetachSenders()
      requires SendChain(senders, sendHead, sendTail)
      modifies senders`linked
      ensures forall i :: 0 <= i < |senders| ==> !senders[i].linked
    {
      var s := sendHead;
      ghost var i := 0;
      while s != null
        invariant i <= |senders| && s == (if i < |senders| then senders[i] else null)
        invariant forall k :: 0 <= k < i ==> !senders[k].linked
        invariant forall k {:trigger senders[k].next} :: 0 <= k < |senders| - 1 ==> senders[k].next == senders[k + 1]
        invariant senders != [] ==> senders[|senders| - 1].next == null
        decreases |senders| - i
      {
        s.linked := false;
        s := s.next;
        i := i + 1;
      }
    }

    method DetachReceivers()
      requires ReceiveChain(receivers, recvHead, recvTail)
      modifies receivers`linked
      ensures forall i :: 0 <= i < |receivers| ==> !receivers[i].linked && !receivers[i].hasResult && receivers[i].Counted()
    {
      var r := recvHead;
      ghost var i := 0;
      while r != null
        invariant i <= |receivers| && r == (if i < |receivers| then receivers[i] else null)
        invariant forall k :: 0 <= k < i ==> !receivers[k].linked
        invariant forall k :: 0 <= k < |receivers| ==> !receivers[k].hasResult && receivers[k].Counted()
        invariant forall k {:trigger receivers[k].next} :: 0 <= k < |receivers| - 1 ==> receivers[k].next == receivers[k + 1]
        invariant receivers != [] ==> receivers[|receivers| - 1].next == null
        decreases |receivers| - i
      {
        r.linked := false;
        r := r.next;
        i := i + 1;
      }
    }
  }

  /**
   A queue is destroyed before the frames that hold its awaiters: whatever was parked, buffered or
   received and not yet taken, every payload constructed in a ring cell or a result cell is destroyed
   once, and no awaiter touches the queue that is gone.
   */
  method QueueGoesFirst<T(0)>(q: Queue<T>, awaiters: seq<ReceiveAwaiter<T>>)
    requires q.Valid() && forall i, j :: 0 <= i < j < |awaiters| ==> awaiters[i] != awaiters[j]
    requires forall a :: a in awaiters ==> a.Counted() && (a.linked ==> a in q.receivers)
    modifies q, q.cells, q.senders`linked, q.receivers`linked, awaiters
    ensures q.constructed == q.destroyed == old(q.constructed) && q.count == 0
    ensures forall i :: 0 <= i < q.cells.Length ==> q.cells[i] == None
    ensures forall a :: a in awaiters ==>
              !a.linked && a.cell == None && a.constructed == a.destroyed && a.constructed == old(a.constructed)
  {
    ghost var parked := q.receivers;
    var error := q.Destruct();
    assert forall a :: a in awaiters && a in parked ==> exists k :: 0 <= k < |parked| && parked[k] == a;
    DestroyAll(awaiters);
  }

  /** The frames of awaiters that are not parked are destroyed. */
  method DestroyAll<T(0)>(awaiters: seq<ReceiveAwaiter<T>>)
    requires forall i, j :: 0 <= i < j < |awaiters| ==> awaiters[i] != awaiters[j]
    requires forall a :: a in awaiters ==> a.Counted() && !a.linked
    modifies awaiters
    ensures forall a :: a in awaiters ==>
              !a.linked && a.cell == None && a.constructed == a.destroyed && a.constructed == old(a.constructed)
  {
    var i := 0;
    while i < |awaiters|
      invariant i <= |awaiters|
      invariant forall k :: 0 <= k < i ==>
                  !awaiters[k].linked && awaiters[k].cell == None && awaiters[k].constructed == awaiters[k].destroyed
      invariant forall k :: i <= k < |awaiters| ==> awaiters[k].Counted() && !awaiters[k].linked
      invariant forall k :: 0 <= k < |awaiters| ==> awaiters[k].constructed == old(awaiters[k].constructed)
    {
      awaiters[i].Destroy();
      i := i + 1;
    }
  }
}
