/**
 The queues inside the whole runtime. The machine keeps how full a queue is and which slots are
 parked on it; this module gives the values back: seen from one queue, every run of the machine is a
 run of `QueueModel`, so the stream law holds under scheduling, awaits, timers and other contexts.
 */
module RuntimeQueues {
  import opened SchedulerCore
  import opened Runtime
  import opened RuntimeRuns
  import opened RuntimePlaces
  import opened Sequences
  import M = QueueModel

  function Slots<T>(senders: seq<M.Sender<T>>): seq<nat> {
    seq(|senders|, i requires 0 <= i < |senders| => senders[i].slot)
  }

  /** Queue `q` of the machine is as full as `m`, and the same slots are parked on it in the same order. */
  predicate Agrees<T>(s: Sys, q: nat, m: M.Queue<T>) {
    && q < |s.queues| && s.queues[q].count == |m.buffer|
    && Waiters(s.core, ReceiveWait(q)) == m.receivers && Waiters(s.core, SendWait(q)) == Slots(m.senders)
  }

  /** What one action is for queue `q`; `v` is the value that it sends, if it sends one. */
  function OpOf<T>(s: Sys, a: Action, q: nat, v: T): seq<M.Op<T>>
    requires Enabled(s, a)
  {
    match a
    case TrySend(r) => if r == q then [M.TrySend(v)] else []
    case TryReceive(r) => if r == q then [M.TryReceive] else []
    case AwaitSend(r) => if r == q then [M.Send(Who(s), v)] else []
    case AwaitReceive(r) => if r == q then [M.Receive(Who(s))] else []
    case _ => []
  }

  /** What a run is for queue `q`, in the order of the actions; `vs` are the values sent. */
  function OpsOf<T>(s: Sys, acts: seq<Action>, q: nat, vs: seq<T>): seq<M.Op<T>>
    requires CanRun(s, acts) && |vs| == |acts|
    decreases |acts|
  {
    if acts == [] then [] else OpOf(s, acts[0], q, vs[0]) + OpsOf(Step(s, acts[0]), acts[1..], q, vs[1..])
  }

  predicate SameQueue(s: Sys, t: Sys, q: nat) {
    && |t.queues| == |s.queues| && (q < |s.queues| ==> t.queues[q] == s.queues[q])
    && Waiters(t.core, ReceiveWait(q)) == Waiters(s.core, ReceiveWait(q))
    && Waiters(t.core, SendWait(q)) == Waiters(s.core, SendWait(q))
  }

  // ----- actions on the queue ----------------------------------------------------------------------------

  /** Both send paths agree, on whether the send goes through and on the slot that is woken. */
  lemma SendAgrees<T>(s: Sys, q: nat, m: M.Queue<T>, v: T)
    requires Agrees(s, q, m)
    ensures var (m', e) := M.DoSend(m, s.queues[q].capacity, v);
            && Agrees(DoSend(s, q), q, m') && (SendFits(s, q) <==> e.done)
            && DoSend(s, q).core.ready == s.core.ready + (if e.woken.Some? then [e.woken.value] else [])
  {
    hide WakeFirst;
    if m.receivers != [] {
      WakeElsewhere(s.core, ReceiveWait(q), SendWait(q));
    }
  }

  /** Both receive paths agree in the same way. */
  lemma ReceiveAgrees<T>(s: Sys, q: nat, m: M.Queue<T>)
    requires Agrees(s, q, m)
    ensures var (m', e) := M.DoReceive(m);
            && Agrees(DoReceive(s, q), q, m') && (s.queues[q].count > 0 <==> e.done)
            && DoReceive(s, q).core.ready == s.core.ready + (if e.woken.Some? then [e.woken.value] else [])
  {
    hide WakeFirst;
    if m.buffer != [] && m.senders != [] {
      WakeElsewhere(s.core, SendWait(q), ReceiveWait(q));
      assert Slots(m.senders)[1..] == Slots(m.senders[1..]);
    }
  }

  lemma ParkedSend<T>(s: Sys, q: nat, m: M.Queue<T>, v: T)
    requires Agrees(s, q, m) && InSlot(s)
    ensures Agrees(ParkAt(s, SendWait(q)), q, m.(senders := m.senders + [M.Sender(Who(s), v)]))
  {
    hide ParkAt;
    ParkWaits(s, SendWait(q), SendWait(q));
    ParkWaits(s, SendWait(q), ReceiveWait(q));
    assert Slots(m.senders + [M.Sender(Who(s), v)]) == Slots(m.senders) + [Who(s)];
  }

  lemma ParkedReceive<T>(s: Sys, q: nat, m: M.Queue<T>)
    requires Agrees(s, q, m) && InSlot(s)
    ensures Agrees(ParkAt(s, ReceiveWait(q)), q, m.(receivers := m.receivers + [Who(s)]))
  {
    hide ParkAt;
    ParkWaits(s, ReceiveWait(q), SendWait(q));
    ParkWaits(s, ReceiveWait(q), ReceiveWait(q));
  }

  lemma OpAgrees<T>(s: Sys, a: Action, q: nat, r: M.Run<T>, v: T)
    requires Enabled(s, a) && Agrees(s, q, r.q) && OpOf(s, a, q, v) != []
    ensures Agrees(Step(s, a), q, M.Step(r, s.queues[q].capacity, OpOf(s, a, q, v)[0]).q)
  {
    hide Agrees, DoSend, DoReceive, ParkAt, M.DoSend;
    AgreesFacts(s, q, r.q);
    SendAgrees(s, q, r.q, v);
    ReceiveAgrees(s, q, r.q);
    if a.AwaitSend? {
      ParkedSend(s, q, r.q, v);
      RefusedSend(r.q, s.queues[q].capacity, v);
    } else if a.AwaitReceive? {
      ParkedReceive(s, q, r.q);
    } else {
      RefusedSend(r.q, s.queues[q].capacity, v);
    }
  }

  lemma AgreesFacts<T>(s: Sys, q: nat, m: M.Queue<T>)
    requires Agrees(s, q, m)
    ensures q < |s.queues| && s.queues[q].count == |m.buffer|
  {
  }

  lemma RefusedSend<T>(m: M.Queue<T>, capacity: nat, v: T)
    ensures !M.DoSend(m, capacity, v).1.done ==> M.DoSend(m, capacity, v).0 == m
  {
  }

  lemma StepElsewhere(s: Sys, a: Action, q: nat)
    requires Enabled(s, a) && OpOf(s, a, q, 0) == []
    ensures SameQueue(s, Step(s, a), q)
  {
    hide Enabled, Step;
    QueuesStay(s, a, q);
    PlaceStays(s, a, SendWait(q));
    PlaceStays(s, a, ReceiveWait(q));
  }

  lemma CapacityStays(s: Sys, a: Action, q: nat)
    requires Enabled(s, a) && q < |s.queues|
    ensures q < |Step(s, a).queues| && Step(s, a).queues[q].capacity == s.queues[q].capacity
  {
    if OpOf(s, a, q, 0) == [] {
      hide Enabled, Step;
      StepElsewhere(s, a, q);
    } else {
      hide WakeFirst, Suspend;
      if a.AwaitSend? || a.AwaitReceive? {
        SuspendWaits(s, Park(s.core, Who(s), SendWait(q)));
        SuspendWaits(s, Park(s.core, Who(s), ReceiveWait(q)));
      }
    }
  }

  lemma StepAgrees<T>(s: Sys, a: Action, q: nat, capacity: nat, ops: seq<M.Op<T>>, v: T)
    requires Enabled(s, a) && q < |s.queues| && s.queues[q].capacity == capacity
    requires Agrees(s, q, M.Execute(capacity, ops).q)
    ensures Agrees(Step(s, a), q, M.Execute(capacity, ops + OpOf(s, a, q, v)).q)
  {
    hide Enabled, Step, Agrees;
    var op := OpOf(s, a, q, v);
    if op == [] {
      StepElsewhere(s, a, q);
      StillAgrees(s, Step(s, a), q, M.Execute(capacity, ops).q);
      assert ops + op == ops;
    } else {
      OpAgrees(s, a, q, M.Execute(capacity, ops), v);
      assert (ops + op)[..|ops + op| - 1] == ops;
    }
  }

  lemma StillAgrees<T>(s: Sys, t: Sys, q: nat, m: M.Queue<T>)
    requires SameQueue(s, t, q) && Agrees(s, q, m)
    ensures Agrees(t, q, m)
  {
  }

  /**
   Seen from one queue, a run of the whole machine is the run of the queue model on the operations
   that the run performs on that queue, with any values: the same slots are parked in the same order,
   and as many values are buffered.
   */
  lemma {:induction false} RunAgrees<T>(s: Sys, acts: seq<Action>, q: nat, capacity: nat, ops: seq<M.Op<T>>, vs: seq<T>)
    requires CanRun(s, acts) && |vs| == |acts| && q < |s.queues| && s.queues[q].capacity == capacity
    requires Agrees(s, q, M.Execute(capacity, ops).q)
    ensures Agrees(Run(s, acts), q, M.Execute(capacity, ops + OpsOf(s, acts, q, vs)).q)
    decreases |acts|
  {
    hide Enabled, Step, Agrees, M.Execute, OpOf;
    if acts == [] {
      assert ops + OpsOf(s, acts, q, vs) == ops;
    } else {
      var op := OpOf(s, acts[0], q, vs[0]);
      StepAgrees(s, acts[0], q, capacity, ops, vs[0]);
      CapacityStays(s, acts[0], q);
      RunAgrees(Step(s, acts[0]), acts[1..], q, capacity, ops + op, vs[1..]);
      assert ops + OpsOf(s, acts, q, vs) == (ops + op) + OpsOf(Step(s, acts[0]), acts[1..], q, vs[1..]);
    }
  }

  /**
   The stream law in the running system: from the start of the runtime, whatever tasks, timers,
   events, flags and other contexts do, the operations on queue `q` form a stream, and the machine's
   queue is as full, and has as many parked senders and receivers, as the numbers S of sends and R of
   receives say.
   */
  lemma QueueIsAStream<T>(n: nat, events: nat, capacities: seq<nat>, flags: nat, acts: seq<Action>, q: nat, vs: seq<T>)
    requires CanRun(Start(n, events, capacities, flags), acts) && |vs| == |acts| && q < |capacities| && capacities[q] > 0
    ensures var t := Run(Start(n, events, capacities, flags), acts);
            var r := M.Execute(capacities[q], OpsOf(Start(n, events, capacities, flags), acts, q, vs));
            var S, R := |r.sent|, r.received;
            && M.Stream(r, capacities[q]) && q < |t.queues|
            && t.queues[q].count == M.Max(0, Min(S - R, capacities[q]))
            && |Waiters(t.core, SendWait(q))| == M.Max(0, S - R - capacities[q])
            && |Waiters(t.core, ReceiveWait(q))| == M.Max(0, R - S)
  {
    hide CanRun, Run, Start, Agrees, M.Execute, M.Stream, OpsOf;
    StartAgrees<T>(n, events, capacities, flags, q);
    StreamCounts(Start(n, events, capacities, flags), acts, q, capacities[q], vs);
  }

  lemma StartAgrees<T>(n: nat, events: nat, capacities: seq<nat>, flags: nat, q: nat)
    requires q < |capacities|
    ensures var s := Start(n, events, capacities, flags);
            q < |s.queues| && s.queues[q].capacity == capacities[q] && Agrees(s, q, M.Execute<T>(capacities[q], []).q)
  {
  }

  lemma StreamCounts<T>(s: Sys, acts: seq<Action>, q: nat, capacity: nat, vs: seq<T>)
    requires CanRun(s, acts) && |vs| == |acts| && q < |s.queues| && s.queues[q].capacity == capacity > 0
    requires Agrees(s, q, M.Execute<T>(capacity, []).q)
    ensures var t := Run(s, acts);
            var r := M.Execute(capacity, OpsOf(s, acts, q, vs));
            var S, R := |r.sent|, r.received;
            && M.Stream(r, capacity) && q < |t.queues|
            && t.queues[q].count == M.Max(0, Min(S - R, capacity))
            && |Waiters(t.core, SendWait(q))| == M.Max(0, S - R - capacity)
            && |Waiters(t.core, ReceiveWait(q))| == M.Max(0, R - S)
  {
    hide CanRun, Run, Agrees, M.Execute, M.Stream, OpsOf;
    var ops := OpsOf(s, acts, q, vs);
    RunAgrees(s, acts, q, capacity, [], vs);
    assert [] + ops == ops;
    M.EveryRunIsAStream(capacity, ops);
    M.Sizes(M.Execute(capacity, ops), capacity);
    Counts(Run(s, acts), q, M.Execute(capacity, ops).q);
  }

  lemma Counts<T>(s: Sys, q: nat, m: M.Queue<T>)
    requires Agrees(s, q, m)
    ensures q < |s.queues| && s.queues[q].count == |m.buffer|
    ensures |Waiters(s.core, SendWait(q))| == |m.senders| && |Waiters(s.core, ReceiveWait(q))| == |m.receivers|
  {
  }
}
