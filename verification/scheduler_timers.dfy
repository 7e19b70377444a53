/** Due timers: the selection scan, the cached deadline, and the order in which timers wake. */
module SchedulerTimers {
  import opened Wrappers
  import opened SchedulerCore

  predicate Due(s: Slot, now: nat) { s.state == WaitingTimer && s.deadline <= now }

  /** Slot `a` wakes before slot `b`: by deadline, equal deadlines by slot index. */
  predicate Before(slots: seq<Slot>, a: nat, b: nat)
  {
    a < |slots| && b < |slots| &&
    (slots[a].deadline < slots[b].deadline || (slots[a].deadline == slots[b].deadline && a < b))
  }

  /** The due slot below `n` that wakes first, if any. */
  function Soonest(slots: seq<Slot>, now: nat, n: nat): (r: Option<nat>)
    requires n <= |slots|
    ensures r == None ==> forall i :: 0 <= i < n ==> !Due(slots[i], now)
    ensures r.Some? ==> r.value < n && Due(slots[r.value], now)
    ensures r.Some? ==> forall i :: 0 <= i < n && Due(slots[i], now) ==> i == r.value || Before(slots, r.value, i)
  {
    if n == 0 then None
    else
      var best := Soonest(slots, now, n - 1);
      if Due(slots[n - 1], now) && (best == None || slots[n - 1].deadline < slots[best.value].deadline) then Some(n - 1)
      else best
  }

  /** The selection loop: one due timer after the other to the tail of the ready FIFO. */
  function WakeDue(c: Core): Core
    decreases Count(c.slots, Timer)
  {
    match Soonest(c.slots, c.now, |c.slots|)
    case None => c
    case Some(i) =>
      CountUpdate(c.slots, i, c.slots[i].(state := Ready), Timer);
      WakeDue(Requeue(c, i))
  }

  /** The slots that the selection loop wakes, in order. */
  function Woken(c: Core): seq<nat>
    decreases Count(c.slots, Timer)
  {
    match Soonest(c.slots, c.now, |c.slots|)
    case None => []
    case Some(i) =>
      CountUpdate(c.slots, i, c.slots[i].(state := Ready), Timer);
      [i] + Woken(Requeue(c, i))
  }

  function MinDeadline(slots: seq<Slot>, n: nat): (m: nat)
    requires n <= |slots|
    ensures m <= UINT64_MAX
    ensures forall i :: 0 <= i < n && slots[i].state == WaitingTimer ==> m <= slots[i].deadline
    ensures m == UINT64_MAX || exists i :: 0 <= i < n && slots[i].state == WaitingTimer && slots[i].deadline == m
  {
    if n == 0 then UINT64_MAX
    else
      var m := MinDeadline(slots, n - 1);
      if slots[n - 1].state == WaitingTimer && slots[n - 1].deadline < m then slots[n - 1].deadline else m
  }

  /** The scan without the cache. */
  function FullScan(c: Core): Core {
    var d := WakeDue(c);
    d.(nearest := MinDeadline(d.slots, |d.slots|))
  }

  /** `process_due_timers`. */
  function ProcessDue(c: Core): Core {
    if c.now < c.nearest then c else FullScan(c)
  }

  /** The cache refines the scan: skipping it when the nearest deadline is ahead changes nothing. */
  lemma FastPathRefinesScan(c: Core)
    requires TimerInv(c.slots, c.nearest)
    ensures ProcessDue(c) == FullScan(c)
  {
    if c.now < c.nearest {
      assert Soonest(c.slots, c.now, |c.slots|) == None;
      assert MinDeadline(c.slots, |c.slots|) == c.nearest;
    }
  }

  lemma {:induction false} WokenMembers(c: Core)
    ensures forall i :: i in Woken(c) <==> 0 <= i < |c.slots| && Due(c.slots[i], c.now)
    decreases Count(c.slots, Timer)
  {
    var r := Soonest(c.slots, c.now, |c.slots|);
    if r.Some? {
      var i := r.value;
      CountUpdate(c.slots, i, c.slots[i].(state := Ready), Timer);
      var e := Requeue(c, i);
      WokenMembers(e);
      assert forall j :: j in Woken(c) <==> j == i || j in Woken(e);
    }
  }

  lemma {:induction false} WakeDueSlots(c: Core)
    ensures |WakeDue(c).slots| == |c.slots|
    ensures forall i :: 0 <= i < |c.slots| ==>
              WakeDue(c).slots[i] == if Due(c.slots[i], c.now) then c.slots[i].(state := Ready) else c.slots[i]
    decreases Count(c.slots, Timer)
  {
    var r := Soonest(c.slots, c.now, |c.slots|);
    if r.Some? {
      var i := r.value;
      CountUpdate(c.slots, i, c.slots[i].(state := Ready), Timer);
      WakeDueSlots(Requeue(c, i));
    }
  }

  lemma {:induction false} WakeDueFifos(c: Core)
    ensures WakeDue(c) == c.(slots := WakeDue(c).slots, ready := WakeDue(c).ready, log := WakeDue(c).log)
    ensures WakeDue(c).ready == c.ready + Woken(c) && WakeDue(c).log == c.log + Woken(c)
    decreases Count(c.slots, Timer)
  {
    var r := Soonest(c.slots, c.now, |c.slots|);
    if r.Some? {
      var i := r.value;
      CountUpdate(c.slots, i, c.slots[i].(state := Ready), Timer);
      var e := Requeue(c, i);
      WakeDueFifos(e);
      Append(c.ready, i, Woken(e));
      Append(c.log, i, Woken(e));
    }
  }

  lemma Append(s: seq<nat>, i: nat, t: seq<nat>)
    ensures (s + [i]) + t == s + ([i] + t)
  {
  }

  /**
   The scan wakes exactly the due timers, each once, in ascending order of (deadline, slot index),
   behind whatever was ready; it touches no other slot and leaves none due.
   */
  lemma WakesExactlyTheDue(c: Core)
    ensures var w, d := Woken(c), WakeDue(c);
            && d == c.(slots := d.slots, ready := c.ready + w, log := c.log + w)
            && |d.slots| == |c.slots|
            && (forall i :: 0 <= i < |c.slots| ==>
                  d.slots[i] == if Due(c.slots[i], c.now) then c.slots[i].(state := Ready) else c.slots[i])
            && (forall i :: i in w <==> 0 <= i < |c.slots| && Due(c.slots[i], c.now))
            && (forall a, b :: 0 <= a < b < |w| ==> Before(c.slots, w[a], w[b]))
  {
    WokenMembers(c);
    WakeDueSlots(c);
    WakeDueFifos(c);
    WakesInDeadlineOrder(c);
  }

  lemma {:induction false} WakesInDeadlineOrder(c: Core)
    ensures forall a, b :: 0 <= a < b < |Woken(c)| ==> Before(c.slots, Woken(c)[a], Woken(c)[b])
    decreases Count(c.slots, Timer)
  {
    var r := Soonest(c.slots, c.now, |c.slots|);
    if r.Some? {
      var i := r.value;
      CountUpdate(c.slots, i, c.slots[i].(state := Ready), Timer);
      var e := Requeue(c, i);
      var w := Woken(e);
      WakesInDeadlineOrder(e);
      WokenMembers(e);
      forall a, b | 0 <= a < b < |Woken(c)|
        ensures Before(c.slots, Woken(c)[a], Woken(c)[b])
      {
        assert w[b - 1] in w;
        if a > 0 {
          assert Before(e.slots, w[a - 1], w[b - 1]);
        }
      }
    }
  }

  /** In plain words: deadlines ascend, and of equal ones the lower slot comes first. */
  lemma WokenAscend(c: Core, a: nat, b: nat)
    requires a < b < |Woken(c)|
    ensures var x, y := Woken(c)[a], Woken(c)[b];
            && x < |c.slots| && y < |c.slots| && c.slots[x].deadline <= c.slots[y].deadline <= c.now
            && (c.slots[x].deadline == c.slots[y].deadline ==> x < y)
  {
    WakesInDeadlineOrder(c);
    WokenMembers(c);
    assert Woken(c)[b] in Woken(c);
  }

  /** Keeping the partition. */
  lemma {:induction false} WakeDueKeeps(c: Core)
    requires BaseInv(c)
    ensures BaseInv(WakeDue(c))
    decreases Count(c.slots, Timer)
  {
    var r := Soonest(c.slots, c.now, |c.slots|);
    if r.Some? {
      CountUpdate(c.slots, r.value, c.slots[r.value].(state := Ready), Timer);
      RequeueBase(c, r.value);
      WakeDueKeeps(Requeue(c, r.value));
    }
  }

  lemma FullScanTimers(c: Core)
    requires TimerInv(c.slots, c.nearest)
    ensures TimerInv(FullScan(c).slots, FullScan(c).nearest)
    ensures |FullScan(c).slots| == |c.slots|
    ensures forall i :: 0 <= i < |c.slots| ==> !Due(FullScan(c).slots[i], c.now)
  {
    WakeDueSlots(c);
    var slots := WakeDue(c).slots;
    var m := MinDeadline(slots, |slots|);
  }

  lemma ProcessDueKeeps(c: Core)
    requires CoreInv(c)
    ensures CoreInv(ProcessDue(c))
  {
    if c.now >= c.nearest {
      FullScanTimers(c);
      WakeDueKeeps(c);
      assert BaseInv(FullScan(c));
    }
  }

  lemma NoneDueAfter(c: Core)
    requires TimerInv(c.slots, c.nearest)
    ensures |ProcessDue(c).slots| == |c.slots|
    ensures forall i :: 0 <= i < |c.slots| ==> !Due(ProcessDue(c).slots[i], c.now)
    ensures forall i :: 0 <= i < |c.slots| && ProcessDue(c).slots[i].state == WaitingTimer ==> c.now < ProcessDue(c).slots[i].deadline
  {
    WakeDueSlots(c);
    FullScanTimers(c);
    FastPathRefinesScan(c);
  }
}
