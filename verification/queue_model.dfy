/**
 A bounded queue with parked senders and receivers, and the stream it refines: whatever is parked
 or buffered, the k-th receive gets the k-th value sent.
 */
module QueueModel {
  import opened Wrappers
  import opened Sequences

  datatype Sender<T> = Sender(slot: nat, value: T)

  /** The buffered values, the parked senders with their values, the parked receivers; oldest first. */
  datatype Queue<T> = Queue(buffer: seq<T>, senders: seq<Sender<T>>, receivers: seq<nat>)

  /** What an operation did: whether it went through, the slot it woke, the value it took out. */
  datatype Effect<T> = Effect(done: bool, woken: Option<nat>, value: Option<T>)

  /** `do_send`: to the oldest parked receiver, else into the buffer if there is room. */
  function DoSend<T>(q: Queue<T>, capacity: nat, v: T): (Queue<T>, Effect<T>) {
    if q.receivers != [] then (q.(receivers := q.receivers[1..]), Effect(true, Some(q.receivers[0]), None))
    else if |q.buffer| < capacity then (q.(buffer := q.buffer + [v]), Effect(true, None, None))
    else (q, Effect(false, None, None))
  }

  /** A receive that finds a value: the oldest one leaves, and the oldest parked sender moves in. */
  function DoReceive<T>(q: Queue<T>): (Queue<T>, Effect<T>) {
    if q.buffer == [] then (q, Effect(false, None, None))
    else if q.senders == [] then (q.(buffer := q.buffer[1..]), Effect(true, None, Some(q.buffer[0])))
    else (Queue(q.buffer[1..] + [q.senders[0].value], q.senders[1..], q.receivers),
          Effect(true, Some(q.senders[0].slot), Some(q.buffer[0])))
  }

  // ----- runs ------------------------------------------------------------------------------------

  datatype Op<T> = Send(slot: nat, v: T) | TrySend(v: T) | Receive(slot: nat) | TryReceive

  /**
   A queue with its history: the values of all sends that were taken or parked, the number of
   receives that were served or parked, the numbers of the parked ones, and what each served
   receive got.
   */
  datatype Run<T> = Run(q: Queue<T>, sent: seq<T>, received: nat, tickets: seq<nat>, results: map<nat, T>)

  function Start<T>(): Run<T> { Run(Queue([], [], []), [], 0, [], map[]) }

  /** The bookkeeping of a value that went through `do_send`. */
  function Sent<T>(r: Run<T>, capacity: nat, v: T): Run<T> {
    var q := DoSend(r.q, capacity, v).0;
    if r.q.receivers != [] && r.tickets != [] then
      Run(q, r.sent + [v], r.received, r.tickets[1..], r.results[r.tickets[0] := v])
    else Run(q, r.sent + [v], r.received, r.tickets, r.results)
  }

  function Step<T>(r: Run<T>, capacity: nat, op: Op<T>): Run<T> {
    match op
    case TrySend(v) => if DoSend(r.q, capacity, v).1.done then Sent(r, capacity, v) else r
    case Send(slot, v) =>
      if DoSend(r.q, capacity, v).1.done then Sent(r, capacity, v)
      else r.(q := r.q.(senders := r.q.senders + [Sender(slot, v)]), sent := r.sent + [v])
    case TryReceive =>
      var (q, e) := DoReceive(r.q);
      if e.value.Some? then r.(q := q, received := r.received + 1, results := r.results[r.received := e.value.value]) else r
    case Receive(slot) =>
      var (q, e) := DoReceive(r.q);
      if e.value.Some? then r.(q := q, received := r.received + 1, results := r.results[r.received := e.value.value])
      else r.(q := r.q.(receivers := r.q.receivers + [slot]), received := r.received + 1, tickets := r.tickets + [r.received])
  }

  function Execute<T>(capacity: nat, ops: seq<Op<T>>): Run<T> {
    if ops == [] then Start() else Step(Execute(capacity, ops[..|ops| - 1]), capacity, ops[|ops| - 1])
  }

  function Values<T>(senders: seq<Sender<T>>): seq<T> {
    seq(|senders|, i requires 0 <= i < |senders| => senders[i].value)
  }

  function Max(a: int, b: int): int { if a >= b then a else b }

  /** The numbers `a`, ..., `b - 1`. */
  function Numbers(a: nat, b: nat): seq<nat>
    requires a <= b
  {
    seq(b - a, i requires 0 <= i < b - a => a + i)
  }

  /**
   The stream: with S values sent and R receives, the state is a function of the values sent and
   of R, and every receive numbered below both got exactly the value of its number.
   */
  ghost predicate Stream<T>(r: Run<T>, capacity: nat) {
    var S, R := |r.sent|, r.received;
    && r.q.buffer == r.sent[Min(R, S)..Min(R + capacity, S)]
    && Values(r.q.senders) == r.sent[Min(R + capacity, S)..]
    && |r.q.receivers| == |r.tickets|
    && r.tickets == Numbers(Min(R, S), R)
    && (forall k :: k in r.results <==> 0 <= k < Min(R, S))
    && (forall k :: 0 <= k < Min(R, S) ==> k in r.results && r.results[k] == r.sent[k])
  }

  lemma ValuesAppend<T>(senders: seq<Sender<T>>, s: Sender<T>)
    ensures Values(senders + [s]) == Values(senders) + [s.value]
  {
  }

  lemma StreamSent<T>(r: Run<T>, capacity: nat, v: T)
    requires capacity > 0 && Stream(r, capacity) && DoSend(r.q, capacity, v).1.done
    ensures Stream(Sent(r, capacity, v), capacity)
  {
    var S, R := |r.sent|, r.received;
    var t := Sent(r, capacity, v);
    assert Values(r.q.senders) == r.sent[Min(R + capacity, S)..];
    if r.q.receivers != [] {
      assert r.tickets[0] == S && S < R;
      assert t.tickets == Numbers(S + 1, R);
    } else {
      assert |r.tickets| == 0 && R <= S && S < R + capacity;
      assert t.q.buffer == t.sent[R..S + 1];
    }
  }

  lemma StreamParked<T>(r: Run<T>, capacity: nat, slot: nat, v: T)
    requires capacity > 0 && Stream(r, capacity) && !DoSend(r.q, capacity, v).1.done
    ensures Stream(Step(r, capacity, Send(slot, v)), capacity)
  {
    var S, R := |r.sent|, r.received;
    var t := Step(r, capacity, Send(slot, v));
    ValuesAppend(r.q.senders, Sender(slot, v));
    assert |r.tickets| == 0 && R <= S;
    assert |r.q.buffer| == capacity;
    assert t.q.buffer == t.sent[R..R + capacity];
    assert Values(t.q.senders) == t.sent[R + capacity..];
  }

  /** The sizes of the parts, as the counts of sends and receives decide them. */
  lemma Sizes<T>(r: Run<T>, capacity: nat)
    requires capacity > 0 && Stream(r, capacity)
    ensures var S, R := |r.sent|, r.received;
            && |r.q.buffer| == Max(0, Min(S - R, capacity))
            && |r.q.senders| == Max(0, S - R - capacity)
            && |r.q.receivers| == Max(0, R - S)
    ensures r.q.buffer != [] ==> r.received < |r.sent| && r.q.buffer[0] == r.sent[r.received]
    ensures r.q.senders != [] ==> r.received + capacity < |r.sent| && r.q.senders[0].value == r.sent[r.received + capacity]
  {
    var S, R := |r.sent|, r.received;
    assert |Values(r.q.senders)| == |r.q.senders|;
    if r.q.senders != [] {
      assert Values(r.q.senders)[0] == r.q.senders[0].value;
    }
  }

  lemma ReceivedParts<T>(sent: seq<T>, R: nat, capacity: nat, buffer: seq<T>, rest: seq<T>)
    requires capacity > 0 && R < |sent|
    requires buffer == sent[R..Min(R + capacity, |sent|)] && rest == sent[Min(R + capacity, |sent|)..]
    ensures rest == [] ==> buffer[1..] == sent[R + 1..Min(R + 1 + capacity, |sent|)] && [] == sent[Min(R + 1 + capacity, |sent|)..]
    ensures rest != [] ==> buffer[1..] + [rest[0]] == sent[R + 1..Min(R + 1 + capacity, |sent|)]
                           && rest[1..] == sent[Min(R + 1 + capacity, |sent|)..]
  {
  }

  lemma StreamReceived<T>(r: Run<T>, capacity: nat)
    requires capacity > 0 && Stream(r, capacity) && r.q.buffer != []
    ensures Stream(Step(r, capacity, TryReceive), capacity)
  {
    Sizes(r, capacity);
    var S, R := |r.sent|, r.received;
    var t := Step(r, capacity, TryReceive);
    ReceivedParts(r.sent, R, capacity, r.q.buffer, Values(r.q.senders));
    assert Numbers(R + 1, R + 1) == [];
    ReceivedQueue(r.q);
    assert forall k :: 0 <= k < R ==> t.results[k] == r.results[k];
  }

  /** The queue after a receive, by the buffer and the parked values alone. */
  lemma ReceivedQueue<T>(q: Queue<T>)
    requires q.buffer != []
    ensures var (d, e) := DoReceive(q);
            var v, w := Values(q.senders), Values(d.senders);
            && e.value == Some(q.buffer[0]) && d.receivers == q.receivers
            && (v == [] ==> d.buffer == q.buffer[1..] && w == [])
            && (v != [] ==> d.buffer == q.buffer[1..] + [v[0]] && w == v[1..])
  {
    assert |Values(q.senders)| == |q.senders|;
  }

  lemma StreamWaiting<T>(r: Run<T>, capacity: nat, slot: nat)
    requires capacity > 0 && Stream(r, capacity) && r.q.buffer == []
    ensures Stream(Step(r, capacity, Receive(slot)), capacity)
  {
    var S, R := |r.sent|, r.received;
    var t := Step(r, capacity, Receive(slot));
    assert |r.sent[Min(R, S)..Min(R + capacity, S)]| == 0;
    assert S <= R;
    assert t.q.buffer == [] && Values(t.q.senders) == [];
    assert t.tickets == Numbers(S, R + 1);
  }

  /** Every run of sends and receives, blocking or not, refines the stream. */
  lemma {:induction false} EveryRunIsAStream<T>(capacity: nat, ops: seq<Op<T>>)
    requires capacity > 0
    ensures Stream(Execute(capacity, ops), capacity)
  {
    if ops != [] {
      var r := Execute(capacity, ops[..|ops| - 1]);
      EveryRunIsAStream(capacity, ops[..|ops| - 1]);
      match ops[|ops| - 1]
      case TrySend(v) => if DoSend(r.q, capacity, v).1.done { StreamSent(r, capacity, v); }
      case Send(slot, v) => if DoSend(r.q, capacity, v).1.done { StreamSent(r, capacity, v); } else { StreamParked(r, capacity, slot, v); }
      case TryReceive => if r.q.buffer != [] { StreamReceived(r, capacity); }
      case Receive(slot) => if r.q.buffer != [] { StreamReceived(r, capacity); } else { StreamWaiting(r, capacity, slot); }
    }
  }

  /**
   What the counts alone decide: how much is buffered and parked, and when the non-blocking
   operations refuse. In particular nobody passes a parked sender or receiver.
   */
  lemma CountsDecide<T>(capacity: nat, ops: seq<Op<T>>, v: T)
    requires capacity > 0
    ensures var r := Execute(capacity, ops);
            var S, R := |r.sent|, r.received;
            && |r.q.buffer| == Max(0, Min(S - R, capacity))
            && |r.q.senders| == Max(0, S - R - capacity)
            && |r.q.receivers| == Max(0, R - S)
            && (DoSend(r.q, capacity, v).1.done <==> S < R + capacity)
            && (DoReceive(r.q).1.done <==> R < S)
            && (R < S ==> DoReceive(r.q).1.value == Some(r.sent[R]))
  {
    hide Stream, Execute;
    EveryRunIsAStream(capacity, ops);
    Sizes(Execute(capacity, ops), capacity);
  }
}
