/**
 The scheduler as it is coded: fixed slots, one intrusive `next` link per slot that is shared by
 the ready FIFO and the wait queues of the events, and loops over the slots. Every method is proved
 to make the move of `SchedulerCore`. The links are kept in an array beside the other slot fields.
 */
module Schedulers {
  import opened Wrappers
  import opened SchedulerCore
  import opened SchedulerTimers
  import opened SchedulerHandles
  import opened SchedulerMoves
  import opened SchedulerLinks
  import opened SchedulerPass
  import opened SchedulerTeardown

  /** The head and tail of one event's wait queue; the links are those of the slots. */
  class WaitQueue {
    const place: Place
    var head: Option<nat>
    var tail: Option<nat>

    constructor (place: Place)
      ensures this.place == place && head == None && tail == None
    {
      this.place := place;
      head, tail := None, None;
    }
  }

  /** What a destructor that runs during the teardown may ask of the scheduler. */
  datatype Reentry = Polls(now: nat) | CreatesTask(frame: nat)

  class Scheduler {
    const slots: array<Slot>
    const next: array<Option<nat>>
    var readyHead: Option<nat>
    var readyTail: Option<nat>
    var readyCount: nat
    var activeCount: nat
    var current: Option<nat>
    var inPoll: bool
    var shuttingDown: bool
    var now: nat
    var nearest: nat
    var queues: map<Place, WaitQueue> // the wait queues of the events that exist
    var waits: Waits                  // the wait FIFOs; those of queues and flags are the objects' own lists
    ghost var ready: seq<nat>
    ghost var log: seq<nat>
    ghost var resumed: seq<nat>
    ghost var issued: seq<Handle>
    ghost var born: seq<nat>
    ghost var finished: set<Handle>

    ghost function View(): Core
      reads this, slots
    {
      Core(slots[..], ready, current, activeCount, now, nearest, waits, log, resumed, issued, born, finished)
    }

    /** The links represent the ready FIFO and the wait queues, which share no slot. */
    ghost predicate Chains()
      reads this`readyHead, this`readyTail, this`readyCount, this`ready, this`waits, this`queues, next, queues.Values
    {
      && next.Length == slots.Length
      && ListOf(next[..], ready, readyHead, readyTail) && readyCount == |ready|
      && (forall p :: p in queues ==> queues[p].place == p && ListOf(next[..], WaitersIn(waits, p), queues[p].head, queues[p].tail))
      && Separate(ready, waits)
    }

    ghost predicate Valid()
      reads this, slots, next, queues.Values
    {
      Chains() && Good(View())
    }

    constructor (n: nat)
      ensures Valid() && View() == Init(n) && fresh(slots) && fresh(next)
      ensures queues == map[] && !inPoll && !shuttingDown
    {
      slots := new Slot[n](_ => Slot(None, None, 0, 0, Free));
      next := new Option<nat>[n](_ => None);
      readyHead, readyTail, readyCount, activeCount := None, None, 0, 0;
      current, inPoll, shuttingDown, now, nearest := None, false, false, 0, UINT64_MAX;
      queues := map[];
      ready, waits, log, resumed, issued, born, finished := [], map[], [], [], [], seq(n, _ => 0), {};
      new;
      hide CoreInv, IssuedInv, FinishedInv, Separate, ListOf, Init, Good;
      FreshFields(n);
    }

    /** A scheduler whose fields have their initial values is the initial state. */
    lemma FreshFields(n: nat)
      requires slots.Length == next.Length == n && forall i :: 0 <= i < n ==> slots[i] == Slot(None, None, 0, 0, Free)
      requires readyHead == readyTail == None && readyCount == activeCount == now == 0 && nearest == UINT64_MAX
      requires current == None && queues == map[] && ready == log == resumed == [] && waits == map[] && issued == []
      requires born == seq(n, _ => 0) && finished == {}
      ensures Valid() && View() == Init(n)
    {
      hide CoreInv, IssuedInv, FinishedInv, Separate, Init;
      InitFields(n, slots[..]);
      NoneApart();
      InitInv(n);
      InitHandles(n);
    }

    // ----- the lists -----------------------------------------------------------------------------

    method ReadyPush(slot: nat)
      requires Chains() && slot < slots.Length && Unlisted(ready, waits, slot)
      modifies this`readyHead, this`readyTail, this`readyCount, this`ready, this`log, next
      ensures Chains() && ready == old(ready) + [slot] && log == old(log) + [slot]
    {
      hide ListOf, Separate, Unlisted;
      ListsAroundReady(slot);
      next[slot] := None;
      if readyTail == None {
        readyHead := Some(slot);
      } else {
        next[readyTail.value] := Some(slot);
      }
      readyTail := Some(slot);
      readyCount := readyCount + 1;
      ready := ready + [slot];
      log := log + [slot];
      assert next[..] == LinkLast(old(next[..]), old(readyTail), slot);
    }

    /** What pushing `slot` on the ready FIFO does to every list. */
    lemma ListsAroundReady(slot: nat)
      requires Chains() && slot < slots.Length && Unlisted(ready, waits, slot)
      ensures readyTail.Some? ==> readyTail.value < next.Length
      ensures ListOf(LinkLast(next[..], readyTail, slot), ready + [slot], if readyHead == None then Some(slot) else readyHead, Some(slot))
      ensures forall p :: p in queues ==> ListOf(LinkLast(next[..], readyTail, slot), WaitersIn(waits, p), queues[p].head, queues[p].tail)
      ensures Separate(ready + [slot], waits)
      ensures (readyHead == None <==> readyTail == None)
    {
      PushList(next[..], ready, readyHead, readyTail, slot);
      forall p | p in queues
        ensures ListOf(LinkLast(next[..], readyTail, slot), WaitersIn(waits, p), queues[p].head, queues[p].tail)
      {
        ReadyTailElsewhere(ready, waits, p, slot);
        OtherList(next[..], readyTail, slot, WaitersIn(waits, p), queues[p].head, queues[p].tail);
      }
      SeparatePush(ready, waits, slot);
    }

    method ReadyPop() returns (r: Option<nat>)
      requires Chains()
      modifies this`readyHead, this`readyTail, this`readyCount, this`ready, next
      ensures Chains()
      ensures old(ready) == [] ==> r == None && ready == []
      ensures old(ready) != [] ==> r == Some(old(ready)[0]) && ready == old(ready)[1..]
    {
      r := readyHead;
      if r != None {
        ListsAfterPop();
        readyHead := next[r.value];
        if readyHead == None {
          readyTail := None;
        }
        next[r.value] := None;
        readyCount := readyCount - 1;
        ready := ready[1..];
        assert next[..] == old(next[..])[r.value := None];
      }
    }

    lemma ListsAfterPop()
      requires Chains() && ready != []
      ensures ready[0] < next.Length
      ensures var rest := next[ready[0]];
              ListOf(next[..][ready[0] := None], ready[1..], rest, if rest == None then None else readyTail)
      ensures forall p :: p in queues ==> ListOf(next[..][ready[0] := None], WaitersIn(waits, p), queues[p].head, queues[p].tail)
      ensures Separate(ready[1..], waits)
    {
      PopList(next[..], ready, readyHead, readyTail);
      forall p | p in queues
        ensures ListOf(next[..][ready[0] := None], WaitersIn(waits, p), queues[p].head, queues[p].tail)
      {
        assert ready[0] in ready;
        NotWaiting(ready, waits, p, ready[0]);
        UntouchedList(next[..], ready[0], WaitersIn(waits, p), queues[p].head, queues[p].tail);
      }
    }

    /** `WaitQueue::push_back`. */
    method PushBack(q: WaitQueue, slot: nat)
      requires Chains() && slot < slots.Length && Unlisted(ready, waits, slot)
      requires q.place in queues && queues[q.place] == q
      modifies q`head, q`tail, this`waits, next
      ensures Chains() && waits == old(waits)[q.place := WaitersIn(old(waits), q.place) + [slot]]
    {
      hide ListOf, Separate, Unlisted;
      ListsAroundWait(q, slot);
      next[slot] := None;
      if q.tail == None {
        q.head := Some(slot);
      } else {
        next[q.tail.value] := Some(slot);
      }
      q.tail := Some(slot);
      waits := waits[q.place := WaitersIn(waits, q.place) + [slot]];
      assert next[..] == LinkLast(old(next[..]), old(q.tail), slot);
    }

    lemma ListsAroundWait(q: WaitQueue, slot: nat)
      requires Chains() && slot < slots.Length && Unlisted(ready, waits, slot)
      requires q.place in queues && queues[q.place] == q
      ensures q.tail.Some? ==> q.tail.value < next.Length
      ensures q.head == None <==> q.tail == None
      ensures var next' := LinkLast(next[..], q.tail, slot);
              && ListOf(next', ready, readyHead, readyTail)
              && ListOf(next', WaitersIn(waits, q.place) + [slot], if q.head == None then Some(slot) else q.head, Some(slot))
              && (forall p :: p in queues && p != q.place ==> ListOf(next', WaitersIn(waits, p), queues[p].head, queues[p].tail))
      ensures Separate(ready, waits[q.place := WaitersIn(waits, q.place) + [slot]])
    {
      var w := WaitersIn(waits, q.place);
      NotWaiting([], waits, q.place, slot);
      PushList(next[..], w, q.head, q.tail, slot);
      WaitTailElsewhere(ready, waits, q.place);
      OtherList(next[..], q.tail, slot, ready, readyHead, readyTail);
      forall p | p in queues && p != q.place
        ensures ListOf(LinkLast(next[..], q.tail, slot), WaitersIn(waits, p), queues[p].head, queues[p].tail)
      {
        NotWaiting([], waits, p, slot);
        WaitTailNotIn(ready, waits, q.place, p);
        OtherList(next[..], q.tail, slot, WaitersIn(waits, p), queues[p].head, queues[p].tail);
      }
      SeparateWait(ready, waits, q.place, slot);
    }

    /** `WaitQueue::pop_front`. */
    method PopFront(q: WaitQueue) returns (r: Option<nat>)
      requires Chains() && q.place in queues && queues[q.place] == q
      modifies q`head, q`tail, this`waits, next
      ensures Chains()
      ensures var w := WaitersIn(old(waits), q.place);
              if w == [] then r == None && waits == old(waits)
              else r == Some(w[0]) && w[0] < slots.Length && waits == old(waits)[q.place := w[1..]] && Unlisted(ready, waits, w[0])
    {
      hide ListOf, Separate, Unlisted;
      EmptyQueue(q);
      r := q.head;
      if r != None {
        ListsAfterPopFront(q);
        var slot := r.value;
        q.head := next[slot];
        if q.head == None {
          q.tail := None;
        }
        next[slot] := None;
        waits := waits[q.place := WaitersIn(waits, q.place)[1..]];
        assert next[..] == old(next[..])[slot := None];
      }
    }

    lemma ListsAfterPopFront(q: WaitQueue)
      requires Chains() && q.place in queues && queues[q.place] == q && WaitersIn(waits, q.place) != []
      ensures var w := WaitersIn(waits, q.place);
              && w[0] < next.Length && q.head == Some(w[0])
              && (var rest := next[w[0]];
                  ListOf(next[..][w[0] := None], w[1..], rest, if rest == None then None else q.tail))
              && ListOf(next[..][w[0] := None], ready, readyHead, readyTail)
              && (forall p :: p in queues && p != q.place ==>
                    ListOf(next[..][w[0] := None], WaitersIn(waits, p), queues[p].head, queues[p].tail))
              && Separate(ready, waits[q.place := w[1..]]) && Unlisted(ready, waits[q.place := w[1..]], w[0])
    {
      var w := WaitersIn(waits, q.place);
      PopList(next[..], w, q.head, q.tail);
      WaitHeadApart(ready, waits, q.place);
      UntouchedList(next[..], w[0], ready, readyHead, readyTail);
      forall p | p in queues && p != q.place
        ensures ListOf(next[..][w[0] := None], WaitersIn(waits, p), queues[p].head, queues[p].tail)
      {
        WaitHeadNotIn(ready, waits, q.place, p);
        UntouchedList(next[..], w[0], WaitersIn(waits, p), queues[p].head, queues[p].tail);
      }
    }

    /** An event comes to exist: its wait queue is empty. */
    method Register(p: Place) returns (q: WaitQueue)
      requires Valid() && p !in queues && WaitersIn(waits, p) == []
      modifies this`queues
      ensures Valid() && View() == old(View()) && fresh(q) && q.place == p && queues == old(queues)[p := q]
    {
      hide Good, Separate, ListOf;
      q := new WaitQueue(p);
      NoList(next[..]);
      queues := queues[p := q];
    }

    // ----- slots -----------------------------------------------------------------------------------

    /** A slot's state is set; nothing else of it changes. */
    method SetState(i: nat, st: State)
      requires i < slots.Length
      modifies slots
      ensures slots[..] == old(slots[..])[i := old(slots[..])[i].(state := st)]
    {
      slots[i] := slots[i].(state := st);
    }

    /** `acquire_slot`: the lowest free slot, else the lowest tombstone; its generation is bumped. */
    method AcquireSlot() returns (r: Option<nat>)
      modifies slots
      ensures r == Acquirable(old(slots[..]))
      ensures forall i: nat :: r == Some(i) <==>
                Lowest(old(slots[..]), Free, i) || (NoneUsable(old(slots[..]), Free) && Lowest(old(slots[..]), Completed, i))
      ensures r == None ==> slots[..] == old(slots[..])
      ensures r.Some? ==> var s := old(slots[..])[r.value];
                          slots[..] == old(slots[..])[r.value := s.(generation := s.generation + 1)]
    {
      AcquiresFreeFirst(slots[..]);
      hide Lowest, NoneUsable;
      var i := FindUsable(Free);
      if i == slots.Length {
        i := FindUsable(Completed);
      }
      if i == slots.Length {
        return None;
      }
      slots[i] := slots[i].(generation := slots[i].generation + 1);
      r := Some(i);
    }

    method FindUsable(st: State) returns (i: nat)
      ensures i == FirstUsable(slots[..], st, 0)
    {
      i := 0;
      while i < slots.Length
        invariant i <= slots.Length
        invariant FirstUsable(slots[..], st, 0) == FirstUsable(slots[..], st, i)
      {
        if slots[i].state == st && slots[i].generation != MAX_GENERATION {
          return;
        }
        i := i + 1;
      }
    }

    // ----- scheduling ------------------------------------------------------------------------------

    /** The slot for a new task is filled and put on the ready FIFO. */
    method Install(i: nat, frame: nat, parent: Option<nat>, ghost before: Core)
      requires Chains() && i < slots.Length && Unlisted(ready, waits, i) && i < |before.slots|
      requires View() == before.(slots := before.slots[i := before.slots[i].(generation := before.slots[i].generation + 1)])
      modifies this`readyHead, this`readyTail, this`readyCount, this`ready, this`log, this`activeCount, this`issued, this`born, slots, next
      ensures Chains()
      ensures View() == SchedulerCore.Install(before, i, frame, parent)
    {
      hide Chains, Unlisted;
      var generation := Fill(i, frame, parent);
      ReadyPush(i);
      activeCount := activeCount + 1;
      born := if i < |born| then born[i := |issued|] else born;
      issued := issued + [(i, generation)];
    }

    method Fill(i: nat, frame: nat, parent: Option<nat>) returns (generation: nat)
      requires i < slots.Length
      modifies slots
      ensures generation == old(slots[i]).generation
      ensures slots[..] == old(slots[..])[i := old(slots[i]).(frame := Some(frame), parent := parent, state := Ready)]
    {
      generation := slots[i].generation;
      slots[i] := slots[i].(frame := Some(frame), parent := parent, state := Ready);
    }

    /** `schedule`; on refusal the task keeps its frame. */
    method Schedule(frame: nat) returns (handle: Option<Handle>)
      requires shuttingDown || Valid()
      modifies this`readyHead, this`readyTail, this`readyCount, this`ready, this`log, this`activeCount, this`issued, this`born, slots, next
      ensures shuttingDown ==> handle == None && unchanged(this) && unchanged(slots) && unchanged(next)
      ensures !shuttingDown ==> Valid() && (View(), handle) == SchedulerCore.Schedule(old(View()), frame)
    {
      hide ListOf, Separate, Unlisted, CoreInv, HandleInv;
      if shuttingDown {
        return None;
      }
      ghost var before := View();
      ScheduleGood(before, frame);
      var r := AcquireSlot();
      if r == None {
        assert View() == before;
        return None;
      }
      DeadSlotUnlisted(before, r.value);
      Install(r.value, frame, None, before);
      handle := Some((r.value, slots[r.value].generation));
    }

    // ----- what a running task does -----------------------------------------------------------------

    /** The slot goes to the tail of the ready FIFO: yield, a wake-up, an overflowing delay. */
    method Requeue(i: nat)
      requires Chains() && i < slots.Length && Unlisted(ready, waits, i)
      modifies this`readyHead, this`readyTail, this`readyCount, this`ready, this`log, slots, next
      ensures Chains() && View() == SchedulerCore.Requeue(old(View()), i)
    {
      hide ListOf, Separate, Unlisted;
      SetState(i, Ready);
      ReadyPush(i);
    }

    method YieldCurrent()
      requires Valid() && RunningSlot()
      modifies this`readyHead, this`readyTail, this`readyCount, this`ready, this`log, slots, next
      ensures Valid() && View() == SchedulerCore.Requeue(old(View()), current.value)
    {
      hide ListOf, Separate, Unlisted, CoreInv, HandleInv;
      UnlistedSlot(View(), current.value);
      RequeueGood(View(), current.value);
      Requeue(current.value);
    }

    /** Some slot runs and is the current one. */
    ghost predicate RunningSlot()
      reads this, slots
    {
      current.Some? && current.value < slots.Length && slots[current.value].state == Running
    }

    /** `arm_current_timer`; the result tells that the deadline would not fit 64 bits. */
    method ArmCurrentTimer(duration: nat) returns (overflow: bool)
      requires Valid() && RunningSlot()
      modifies this`readyHead, this`readyTail, this`readyCount, this`ready, this`log, this`nearest, slots, next
      ensures Valid() && (View(), overflow) == ArmTimer(old(View()), current.value, duration)
    {
      hide ListOf, Separate, Unlisted, CoreInv, HandleInv;
      var i := current.value;
      ArmTimerGood(View(), i, duration);
      UnlistedSlot(View(), i);
      overflow := false;
      if duration == 0 {
        Requeue(i);
      } else if now <= UINT64_MAX && duration <= UINT64_MAX - now {
        var deadline := now + duration;
        slots[i] := slots[i].(deadline := deadline, state := WaitingTimer);
        if deadline < nearest {
          nearest := deadline;
        }
        assert View() == Arm(old(View()), i, deadline);
      } else {
        Requeue(i);
        overflow := true;
      }
    }

    /** `start_child_await` of the running task; `false` means that no slot was free. */
    method StartChildAwait(child: nat) returns (adopted: bool)
      requires Valid() && RunningSlot()
      modifies this`readyHead, this`readyTail, this`readyCount, this`ready, this`log, this`activeCount, this`issued, this`born, slots, next
      ensures Valid() && (View(), adopted) == StartChild(old(View()), current.value, child)
      ensures !adopted ==> ready == old(ready) + [current.value]
                           && slots[..] == old(slots[..])[current.value := old(slots[current.value]).(state := Ready)]
      ensures adopted <==> exists i :: 0 <= i < slots.Length && !old(Live(slots[i])) && old(slots[i]).generation != MAX_GENERATION
      ensures adopted ==> slots[current.value] == old(slots[current.value]).(state := WaitingChild)
      ensures adopted ==>
                exists k :: 0 <= k < slots.Length && ready == old(ready) + [k] && slots[k].state == Ready
                            && slots[k].frame == Some(child) && slots[k].parent == Some(current.value)
    {
      hide ListOf, Separate, Unlisted, CoreInv, HandleInv;
      ghost var before := View();
      var parent := current.value;
      StartChildGood(before, parent, child);
      UnlistedSlot(before, parent);
      var r := AcquireSlot();
      if r == None {
        assert View() == before;
        Requeue(parent);
        adopted := false;
      } else {
        DeadSlotUnlisted(before, r.value);
        Install(r.value, child, Some(parent), before);
        SetState(parent, WaitingChild);
        adopted := true;
      }
    }

    /** `wait_on`: park the running task on an event's wait queue. */
    method WaitOn(q: WaitQueue)
      requires Valid() && RunningSlot() && q.place in queues && queues[q.place] == q
      modifies q`head, q`tail, this`waits, slots, next
      ensures Valid() && View() == Park(old(View()), current.value, q.place)
    {
      hide ListOf, Separate, Unlisted, CoreInv, HandleInv;
      var i := current.value;
      ParkGood(View(), i, q.place);
      UnlistedSlot(View(), i);
      SetState(i, WaitingLocal);
      PushBack(q, i);
    }

    /** `park_running`: the caller (a queue or a flag) keeps the slot in its own list, which `waits` shows. */
    method ParkRunning(p: Place) returns (slot: nat)
      requires Valid() && RunningSlot() && p !in queues
      modifies this`waits, slots
      ensures Valid() && View() == Park(old(View()), current.value, p) && slot == current.value
    {
      hide ListOf, CoreInv, HandleInv;
      slot := current.value;
      ParkGood(View(), slot, p);
      UnlistedSlot(View(), slot);
      SetState(slot, WaitingLocal);
      SeparateWait(ready, waits, p, slot);
      waits := waits[p := WaitersIn(waits, p) + [slot]];
    }

    /** `wake_slot` of the first task that a queue or a flag keeps parked at `p`. */
    method WakeSlot(slot: nat, p: Place)
      requires Valid() && p !in queues && WaitersIn(waits, p) != [] && slot == WaitersIn(waits, p)[0]
      modifies this`readyHead, this`readyTail, this`readyCount, this`ready, this`log, this`waits, slots, next
      ensures Valid() && View() == WakeFirst(old(View()), p)
    {
      hide ListOf, CoreInv, HandleInv, Separate, Unlisted;
      WakeFirstGood(View(), p);
      DistinctWaiters(View(), p);
      WaitHeadApart(ready, waits, p);
      waits := waits[p := WaitersIn(waits, p)[1..]];
      Requeue(slot);
    }

    /** `wake_all` of an event's wait queue. */
    method WakeAll(q: WaitQueue)
      requires Valid() && q.place in queues && queues[q.place] == q
      modifies this`readyHead, this`readyTail, this`readyCount, this`ready, this`log, this`waits, q`head, q`tail, slots, next
      ensures Valid() && View() == SchedulerCore.WakeAll(old(View()), q.place)
    {
      hide CoreInv, HandleInv, Separate, Unlisted, ListOf, SchedulerCore.WakeFirst, Good;
      ghost var before := View();
      var more := true;
      while more
        invariant Valid() && SchedulerCore.WakeAll(View(), q.place) == SchedulerCore.WakeAll(before, q.place)
        invariant !more ==> WaitersIn(waits, q.place) == []
        decreases |WaitersIn(waits, q.place)|, more
      {
        more := WakeHead(q);
      }
    }

    lemma EmptyQueue(q: WaitQueue)
      requires Chains() && q.place in queues && queues[q.place] == q
      ensures q.head == None <==> WaitersIn(waits, q.place) == []
    {
    }

    /** One round of `wake_all`: the oldest waiter, if there is one, becomes ready. */
    method WakeHead(q: WaitQueue) returns (woke: bool)
      requires Valid() && q.place in queues && queues[q.place] == q
      modifies this`readyHead, this`readyTail, this`readyCount, this`ready, this`log, this`waits, q`head, q`tail, slots, next
      ensures Valid() && woke == (WaitersIn(old(waits), q.place) != [])
      ensures View() == if woke then WakeFirst(old(View()), q.place) else old(View())
      ensures woke ==> |WaitersIn(waits, q.place)| < |WaitersIn(old(waits), q.place)|
    {
      hide CoreInv, HandleInv, Separate, Unlisted, ListOf;
      if WaitersIn(waits, q.place) != [] {
        WakeFirstGood(View(), q.place);
      }
      var s := PopFront(q);
      woke := s != None;
      if woke {
        Requeue(s.value);
      }
    }

    // ----- timers ------------------------------------------------------------------------------------

    /** The selection scan: the due timer that wakes first. */
    method FindSoonest() returns (soonest: Option<nat>)
      ensures soonest == Soonest(slots[..], now, slots.Length)
    {
      soonest := None;
      var i := 0;
      while i < slots.Length
        invariant i <= slots.Length && soonest == Soonest(slots[..], now, i)
      {
        if slots[i].state == WaitingTimer && slots[i].deadline <= now
           && (soonest == None || slots[i].deadline < slots[soonest.value].deadline) {
          soonest := Some(i);
        }
        i := i + 1;
      }
    }

    method RecomputeNearestDeadline()
      modifies this`nearest
      ensures nearest == MinDeadline(slots[..], slots.Length)
    {
      var m := UINT64_MAX;
      var i := 0;
      while i < slots.Length
        invariant i <= slots.Length && m == MinDeadline(slots[..], i)
      {
        if slots[i].state == WaitingTimer && slots[i].deadline < m {
          m := slots[i].deadline;
        }
        i := i + 1;
      }
      nearest := m;
    }

    /** `process_due_timers`, with its fast path. */
    method ProcessDueTimers()
      requires Valid()
      modifies this`readyHead, this`readyTail, this`readyCount, this`ready, this`log, this`nearest, slots, next
      ensures Valid() && View() == ProcessDue(old(View()))
    {
      hide ListOf, Separate, Unlisted, CoreInv, HandleInv;
      ghost var before := View();
      DueGood(before);
      if now < nearest {
        return;
      }
      BaseOf(before);
      WakeDueTimers();
      RecomputeNearestDeadline();
      assert View() == FullScan(before);
    }

    method WakeDueTimers()
      requires Chains() && BaseInv(View())
      modifies this`readyHead, this`readyTail, this`readyCount, this`ready, this`log, slots, next
      ensures Chains() && View() == WakeDue(old(View()))
    {
      hide ListOf, Separate, Unlisted, BaseInv;
      var soonest := FindSoonest();
      while soonest != None
        invariant Chains() && BaseInv(View()) && WakeDue(View()) == WakeDue(old(View()))
        invariant soonest == Soonest(slots[..], now, slots.Length)
        decreases Count(slots[..], Timer)
      {
        BaseApart(View(), soonest.value);
        RequeueBase(View(), soonest.value);
        CountUpdate(slots[..], soonest.value, slots[soonest.value].(state := Ready), Timer);
        Requeue(soonest.value);
        soonest := FindSoonest();
      }
    }

    // ----- a pass ------------------------------------------------------------------------------------

    /** The places in a behaviour are those of existing events, or lists kept elsewhere. */
    ghost predicate Knows(b: Behaviour)
      reads this`queues
    {
      && (forall k :: 0 <= k < |b.ops| ==> KnowsOp(b.ops[k]))
      && (b.end.WaitsOn? ==> b.end.p in queues) && (b.end.ParksAt? ==> b.end.p !in queues)
    }

    ghost predicate KnowsOp(op: Op)
      reads this`queues
    {
      (op.SetEvent? ==> op.p in queues) && (op.WakeOne? ==> op.p !in queues)
    }

    /** The scheduler calls that a coroutine makes before it suspends. */
    method RunOps(ops: seq<Op>)
      requires Valid() && RunningSlot() && !shuttingDown
      requires forall k :: 0 <= k < |ops| ==> KnowsOp(ops[k])
      modifies this`readyHead, this`readyTail, this`readyCount, this`ready, this`log, this`activeCount, this`issued, this`born,
               this`waits, slots, next, queues.Values
      ensures Valid() && RunningSlot() && View() == DoOps(old(View()), ops)
    {
      hide Good, ListOf, Separate, Unlisted, DoOp;
      var k := 0;
      assert ops[0..] == ops;
      while k < |ops|
        invariant k <= |ops| && Valid() && RunningSlot()
        invariant DoOps(View(), ops[k..]) == DoOps(old(View()), ops)
      {
        assert ops[k..][0] == ops[k] && ops[k..][1..] == ops[k + 1..];
        RunOp(ops[k]);
        k := k + 1;
      }
    }

    method RunOp(op: Op)
      requires Valid() && RunningSlot() && !shuttingDown && KnowsOp(op)
      modifies this`readyHead, this`readyTail, this`readyCount, this`ready, this`log, this`activeCount, this`issued, this`born,
               this`waits, slots, next, queues.Values
      ensures Valid() && RunningSlot() && View() == DoOp(old(View()), op)
    {
      hide Good, ListOf, Separate, Unlisted, SchedulerCore.WakeAll, SchedulerCore.Schedule, WakeFirst;
      OpGoesOn(View(), current.value, op);
      match op
      case SpawnTask(frame) => var handle := Schedule(frame);
      case SetEvent(p) => WakeAll(queues[p]);
      case WakeOne(p) =>
        var waiters := WaitersIn(waits, p);
        if waiters != [] {
          WakeSlot(waiters[0], p);
        }
    }

    /** The coroutine's part of a resume, up to its suspension or its end. */
    method RunBody(b: Behaviour)
      requires Valid() && RunningSlot() && !shuttingDown && Knows(b)
      modifies this`readyHead, this`readyTail, this`readyCount, this`ready, this`log, this`activeCount, this`issued, this`born,
               this`waits, this`nearest, slots, next, queues.Values
      ensures Valid()
      ensures slots.Length == |DoOps(old(View()), b.ops).slots|
      ensures View() == DoEnd(DoOps(old(View()), b.ops), current.value, b.end)
    {
      hide Good, Chains, DoOps, DoEnd;
      RunOps(b.ops);
      RunEnd(b.end);
    }

    lemma QueueAt(p: Place)
      requires Chains() && p in queues
      ensures queues[p].place == p
    {
    }

    /** How the coroutine's part of a resume ends. */
    method RunEnd(end: Ending)
      requires Valid() && RunningSlot() && !shuttingDown && (end.WaitsOn? ==> end.p in queues) && (end.ParksAt? ==> end.p !in queues)
      modifies this`readyHead, this`readyTail, this`readyCount, this`ready, this`log, this`activeCount, this`issued, this`born,
               this`waits, this`nearest, slots, next, queues.Values
      ensures Valid()
      ensures View() == DoEnd(old(View()), current.value, end)
    {
      hide Good, Chains;
      match end
      case Yields => YieldCurrent();
      case Delays(d) => var overflow := ArmCurrentTimer(d);
      case WaitsOn(p) =>
        QueueAt(p);
        WaitOn(queues[p]);
      case ParksAt(p) => var slot := ParkRunning(p);
      case AwaitsChild(frame) => var adopted := StartChildAwait(frame);
      case Suspends =>
      case Returns =>
    }

    /** The tail of the loop body: destroy a finished frame and wake its parent, or park an opaque suspension. */
    method FinishRound(slot: nat, done: bool)
      requires Valid() && slot < slots.Length && current == Some(slot) && (done ==> slots[slot].state == Running)
      modifies this`readyHead, this`readyTail, this`readyCount, this`ready, this`log, this`activeCount, this`current, this`finished, slots, next
      ensures Valid() && View() == EndResume(old(View()), slot, done)
    {
      hide CoreInv, HandleInv, ListOf, Separate, Unlisted;
      current := None;
      if done {
        ghost var before := old(View());
        ReturnGood(before, slot);
        var parent := slots[slot].parent;
        finished := finished + {(slot, slots[slot].generation)};
        slots[slot] := slots[slot].(frame := None, parent := None, state := Completed);
        activeCount := if activeCount > 0 then activeCount - 1 else 0;
        if parent != None && slots[parent.value].state == WaitingChild {
          UnlistedSlot(before, parent.value);
          Requeue(parent.value);
        }
      } else {
        SuspendGood(old(View()), slot);
        if slots[slot].state == Running {
          SetState(slot, Suspended);
        }
      }
    }

    /** `run_pass`: the budget is what is ready now. */
    method RunPass(bs: nat -> Behaviour)
      requires Valid() && current == None && !shuttingDown && forall k :: Knows(bs(k))
      modifies this`readyHead, this`readyTail, this`readyCount, this`ready, this`log, this`activeCount, this`issued, this`born,
               this`waits, this`nearest, this`current, this`resumed, this`finished, slots, next, queues.Values
      ensures Valid() && View() == SchedulerPass.RunPass(old(View()), bs)
      ensures current == None && resumed == old(resumed) + old(ready)
      ensures old(log) <= log && ready == log[|old(log)|..]
    {
      hide Good, ListOf, Separate, Unlisted, Round;
      ghost var before := View();
      PassIsFair(before, bs);
      var budget := readyCount;
      var i := 0;
      while i < budget
        invariant i <= budget == |before.ready| && Valid() && current == None
        invariant View() == Rounds(before, bs, i)
      {
        MoreToResume(before, bs, i);
        RunRound(bs(i));
        i := i + 1;
      }
    }

    /** Pop the head of the ready FIFO and let it run. */
    method StartRound() returns (slot: nat)
      requires Valid() && current == None && ready != []
      modifies this`readyHead, this`readyTail, this`readyCount, this`ready, this`current, this`resumed, slots, next
      ensures Valid() && View() == BeginResume(old(View()))
      ensures slot == old(ready)[0] && current == Some(slot) && RunningSlot()
    {
      hide Good, ListOf, Separate, Unlisted, BeginResume;
      BeginGood(View());
      var r := ReadyPop();
      slot := r.value;
      SetState(slot, Running);
      current := Some(slot);
      resumed := resumed + [slot];
      BeginIs(old(View()), View());
    }

    /** One round of `run_pass`. */
    method RunRound(b: Behaviour)
      requires Valid() && current == None && !shuttingDown && ready != [] && Knows(b)
      modifies this`readyHead, this`readyTail, this`readyCount, this`ready, this`log, this`activeCount, this`issued, this`born,
               this`waits, this`nearest, this`current, this`resumed, this`finished, slots, next, queues.Values
      ensures Valid() && View() == Round(old(View()), b) && current == None
    {
      hide Good, ListOf, Separate, Unlisted, DoOps, DoEnd, EndResume, BeginResume, Round;
      ghost var before := View();
      RoundResumesHead(before, b);
      RoundIs(before, b);
      var slot := StartRound();
      OpsGoOn(View(), slot, b.ops);
      EndingRuns(DoOps(View(), b.ops), slot, b.end);
      RunBody(b);
      FinishRound(slot, b.end.Returns?);
    }

    /** `run_poll_pass`, with the signals resolved: refused in a teardown or from within a pass. */
    method RunPollPass(sample: nat, bs: nat -> Behaviour) returns (ran: bool, reentry: bool)
      requires shuttingDown || (Valid() && (current == None || inPoll) && forall k :: Knows(bs(k)))
      modifies this`readyHead, this`readyTail, this`readyCount, this`ready, this`log, this`activeCount, this`issued, this`born,
               this`waits, this`nearest, this`current, this`resumed, this`finished, this`inPoll, this`now, slots, next, queues.Values
      ensures ran == (!old(shuttingDown) && !old(inPoll)) && reentry == (!old(shuttingDown) && old(inPoll))
      ensures !ran ==> unchanged(this) && unchanged(slots) && unchanged(next) && unchanged(queues.Values)
      ensures !shuttingDown ==> Valid()
      ensures ran ==> View() == SchedulerPass.RunPass(ProcessDue(old(View()).(now := sample)), bs)
      ensures inPoll == old(inPoll)
    {
      hide Good, ListOf, Separate, Unlisted, ProcessDue, SchedulerPass.RunPass;
      if shuttingDown {
        return false, false;
      }
      if inPoll {
        return false, true;
      }
      inPoll := true;
      TimersAndPass(sample, bs);
      inPoll := false;
      return true, false;
    }

    method TimersAndPass(sample: nat, bs: nat -> Behaviour)
      requires Valid() && current == None && !shuttingDown && forall k :: Knows(bs(k))
      modifies this`readyHead, this`readyTail, this`readyCount, this`ready, this`log, this`activeCount, this`issued, this`born,
               this`waits, this`nearest, this`current, this`resumed, this`finished, this`now, slots, next, queues.Values
      ensures Valid() && View() == SchedulerPass.RunPass(ProcessDue(old(View()).(now := sample)), bs)
    {
      hide Good, ListOf, Separate, Unlisted, ProcessDue, SchedulerPass.RunPass;
      NowGood(View(), sample);
      now := sample;
      DueGood(View());
      ProcessDueTimers();
      RunPass(bs);
    }

    /**
     The destructor: shutdown is marked first, then each slot is detached before its frame is destroyed.
     The destructors that run in the frame of slot `i` make the calls `reentries(i)`; all are refused.
     Nothing is asked of the state, and a state in the middle of it is not `Valid()`.
     */
    method Teardown(reentries: nat -> seq<Reentry>) returns (destroyed: seq<nat>)
      modifies this`shuttingDown, this`readyHead, this`readyTail, this`readyCount, this`ready, this`log, this`activeCount,
               this`issued, this`born, this`waits, this`nearest, this`current, this`resumed, this`finished, this`inPoll,
               this`now, slots, next, queues.Values
      ensures shuttingDown && destroyed == OwnedFrames(old(slots[..]), slots.Length)
      ensures View() == old(View()).(slots := Torn(old(slots[..]), slots.Length))
    {
      hide Torn, OwnedFrames, Emptied;
      shuttingDown := true;
      destroyed := [];
      var i := 0;
      TornNone(slots[..]);
      while i < slots.Length
        invariant shuttingDown && i <= slots.Length && destroyed == OwnedFrames(old(slots[..]), i)
        invariant View() == old(View()).(slots := Torn(old(slots[..]), i)) && unchanged(next) && unchanged(queues.Values)
        invariant queues == old(queues)
      {
        TornNext(old(slots[..]), i);
        if slots[i].frame != None && slots[i].state != Completed {
          var frame := slots[i].frame.value;
          slots[i] := slots[i].(frame := None, state := Completed);
          destroyed := destroyed + [frame];
          Reenter(reentries(i));
        }
        i := i + 1;
      }
    }

    /** Calls that come back into a scheduler that is shutting down change nothing. */
    method Reenter(calls: seq<Reentry>)
      requires shuttingDown
      modifies this`readyHead, this`readyTail, this`readyCount, this`ready, this`log, this`activeCount, this`issued, this`born,
               this`waits, this`nearest, this`current, this`resumed, this`finished, this`inPoll, this`now, slots, next, queues.Values
      ensures unchanged(this) && unchanged(slots) && unchanged(next) && unchanged(queues.Values)
    {
      var k := 0;
      while k < |calls|
        invariant k <= |calls|
        invariant unchanged(this) && unchanged(slots) && unchanged(next) && unchanged(queues.Values)
      {
        match calls[k] {
          case Polls(now) =>
            var ran, reentry := RunPollPass(now, _ => Behaviour([], Suspends));
            assert !ran && !reentry;
          case CreatesTask(frame) =>
            var handle := Schedule(frame);
            assert handle == None;
        }
        k := k + 1;
      }
    }
  }

  lemma NoList(next: Links)
    ensures ListOf(next, [], None, None)
  {
  }

  lemma NoneApart()
    ensures Separate([], map[])
  {
  }

  lemma InitFields(n: nat, slots: seq<Slot>)
    requires |slots| == n && forall i :: 0 <= i < n ==> slots[i] == Slot(None, None, 0, 0, Free)
    ensures Core(slots, [], None, 0, 0, UINT64_MAX, map[], [], [], [], seq(n, _ => 0), {}) == Init(n)
  {
    assert slots == Init(n).slots;
  }

  lemma InitHandles(n: nat)
    ensures HandleInv(Init(n))
  {
    assert forall i :: 0 <= i < n ==> Init(n).slots[i] == Slot(None, None, 0, 0, Free);
  }

  // ----- lists apart, one fact each ----------------------------------------------------------------

  lemma NotWaiting(ready: seq<nat>, waits: Waits, p: Place, i: nat)
    requires (Separate(ready, waits) && i in ready) || Unlisted(ready, waits, i) || (ready == [] && forall q: Place :: !Parked(waits, q, i))
    ensures i !in WaitersIn(waits, p)
  {
    assert i in WaitersIn(waits, p) ==> Parked(waits, p, i);
  }

  lemma ReadyTailElsewhere(ready: seq<nat>, waits: Waits, p: Place, slot: nat)
    requires Separate(ready, waits) && Unlisted(ready, waits, slot)
    ensures slot !in WaitersIn(waits, p) && (ready != [] ==> ready[|ready| - 1] !in WaitersIn(waits, p))
  {
    assert slot in WaitersIn(waits, p) ==> Parked(waits, p, slot);
    if ready != [] {
      var t := ready[|ready| - 1];
      assert t in ready;
      assert t in WaitersIn(waits, p) ==> Parked(waits, p, t);
    }
  }

  lemma SeparatePush(ready: seq<nat>, waits: Waits, slot: nat)
    requires Separate(ready, waits) && Unlisted(ready, waits, slot)
    ensures Separate(ready + [slot], waits)
  {
    assert forall i :: i in ready + [slot] <==> i in ready || i == slot;
  }

  lemma WaitTailElsewhere(ready: seq<nat>, waits: Waits, p: Place)
    requires Separate(ready, waits)
    ensures var w := WaitersIn(waits, p); w != [] ==> w[|w| - 1] !in ready
  {
    var w := WaitersIn(waits, p);
    if w != [] {
      assert Parked(waits, p, w[|w| - 1]);
    }
  }

  lemma WaitTailNotIn(ready: seq<nat>, waits: Waits, p: Place, p': Place)
    requires Separate(ready, waits) && p != p'
    ensures var w := WaitersIn(waits, p); w != [] ==> w[|w| - 1] !in WaitersIn(waits, p')
  {
    var w := WaitersIn(waits, p);
    if w != [] {
      var t := w[|w| - 1];
      assert Parked(waits, p, t);
      assert t in WaitersIn(waits, p') ==> Parked(waits, p', t);
    }
  }

  lemma SeparateWait(ready: seq<nat>, waits: Waits, p: Place, slot: nat)
    requires Separate(ready, waits) && Unlisted(ready, waits, slot)
    ensures Separate(ready, waits[p := WaitersIn(waits, p) + [slot]])
  {
    var waits' := waits[p := WaitersIn(waits, p) + [slot]];
    forall q: Place, i: nat
      ensures Parked(waits', q, i) <==> Parked(waits, q, i) || (q == p && i == slot)
    {
      assert i in WaitersIn(waits, p) + [slot] <==> i in WaitersIn(waits, p) || i == slot;
    }
  }

  lemma WaitHeadApart(ready: seq<nat>, waits: Waits, p: Place)
    requires Separate(ready, waits) && WaitersIn(waits, p) != [] && Distinct(WaitersIn(waits, p))
    ensures var w := WaitersIn(waits, p);
            && w[0] !in ready && Separate(ready, waits[p := w[1..]]) && Unlisted(ready, waits[p := w[1..]], w[0])
  {
    var w := WaitersIn(waits, p);
    var waits' := waits[p := w[1..]];
    assert Parked(waits, p, w[0]);
    assert w[0] !in w[1..];
    forall q: Place, i: nat
      ensures Parked(waits', q, i) ==> Parked(waits, q, i) && i != w[0]
    {
      if Parked(waits', q, i) {
        assert q == p ==> i in w[1..] && i in w;
        assert Parked(waits, q, i);
      }
    }
  }

  lemma WaitHeadNotIn(ready: seq<nat>, waits: Waits, p: Place, p': Place)
    requires Separate(ready, waits) && p != p' && WaitersIn(waits, p) != []
    ensures WaitersIn(waits, p)[0] !in WaitersIn(waits, p')
  {
    var i := WaitersIn(waits, p)[0];
    assert Parked(waits, p, i);
    assert i in WaitersIn(waits, p') ==> Parked(waits, p', i);
  }

  lemma DeadSlotUnlisted(c: Core, i: nat)
    requires CoreInv(c) && i < |c.slots| && !Live(c.slots[i])
    ensures Unlisted(c.ready, c.waits, i)
  {
    hide CoreInv;
    UnlistedSlot(c, i);
  }

  lemma DistinctWaiters(c: Core, p: Place)
    requires CoreInv(c)
    ensures Distinct(WaitersIn(c.waits, p))
  {
    hide StableInv, TimerInv, CurrentInv, ReadyInv;
  }

  lemma BaseOf(c: Core)
    requires Good(c)
    ensures BaseInv(c)
  {
    hide BaseInv, TimerInv, HandleInv;
  }

  lemma MoreToResume(c: Core, bs: nat -> Behaviour, i: nat)
    requires Good(c) && c.current == None && i < |c.ready|
    ensures Rounds(c, bs, i).ready != []
  {
    hide Good, Round;
    RoundsResumeInOrder(c, bs, i);
    LogOf(c);
    var d := Rounds(c, bs, i);
    assert |d.log| == |d.resumed| + |d.ready|;
  }

  lemma BeginIs(c: Core, d: Core)
    requires c.ready != [] && c.ready[0] < |c.slots|
    requires d == c.(slots := c.slots[c.ready[0] := c.slots[c.ready[0]].(state := Running)], ready := c.ready[1..],
                     current := Some(c.ready[0]), resumed := c.resumed + [c.ready[0]])
    ensures d == BeginResume(c)
  {
  }

  lemma RoundIs(c: Core, b: Behaviour)
    requires Good(c) && c.current == None && c.ready != []
    ensures var i, d := c.ready[0], DoOps(BeginResume(c), b.ops);
            && i < |d.slots| && i < |DoEnd(d, i, b.end).slots|
            && Round(c, b) == EndResume(DoEnd(d, i, b.end), i, b.end.Returns?)
            && d.slots[i].state == Running && d.current == Some(i)
            && Good(BeginResume(c)) && BeginResume(c).current == Some(i) && i < |c.slots| && BeginResume(c).slots[i].state == Running
  {
    hide Good, DoOps, DoEnd, EndResume;
    var i := c.ready[0];
    BeginGood(c);
    OpsGoOn(BeginResume(c), i, b.ops);
    EndIsOver(DoOps(BeginResume(c), b.ops), i, b.end);
  }

  /** A coroutine that returns is still the running one; a slot index stays in range. */
  lemma EndingRuns(c: Core, i: nat, end: Ending)
    requires i < |c.slots| && c.slots[i].state == Running && c.current == Some(i)
    ensures var d := DoEnd(c, i, end);
            |d.slots| == |c.slots| && d.current == Some(i) && (end.Returns? ==> d.slots[i].state == Running)
  {
  }
}
