/** The manual-reset event over the scheduler's wait queue. */
module Events {
  import opened Wrappers
  import opened SchedulerCore
  import opened SchedulerHandles
  import opened SchedulerMoves
  import opened SchedulerLinks
  import opened Schedulers

  class Event {
    var isSet: bool
    const waiters: WaitQueue

    /** The event's queue is known to the scheduler, and a set event has no waiters. */
    ghost predicate Valid(s: Scheduler)
      reads this, s
    {
      && waiters.place.EventWait? && waiters.place in s.queues && s.queues[waiters.place] == waiters
      && (isSet ==> WaitersIn(s.waits, waiters.place) == [])
    }

    constructor (s: Scheduler, e: nat)
      requires s.Valid() && EventWait(e) !in s.queues && WaitersIn(s.waits, EventWait(e)) == []
      modifies s`queues
      ensures Valid(s) && s.Valid() && s.View() == old(s.View()) && !isSet && waiters.place == EventWait(e)
      ensures fresh(waiters) && s.queues == old(s.queues)[EventWait(e) := waiters]
    {
      isSet := false;
      var q := s.Register(EventWait(e));
      waiters := q;
    }

    /** Latch, and move all waiters to the ready FIFO in their order. */
    method Set(s: Scheduler)
      requires Valid(s) && s.Valid()
      modifies this`isSet, s`readyHead, s`readyTail, s`readyCount, s`ready, s`log, s`waits, waiters`head, waiters`tail, s.slots, s.next
      ensures Valid(s) && s.Valid() && isSet && s.View() == WakeAll(old(s.View()), waiters.place)
      ensures s.ready == old(s.ready) + WaitersIn(old(s.waits), waiters.place)
    {
      hide Good, Separate, ListOf;
      WakeAllEffect(s.View(), waiters.place);
      isSet := true;
      s.WakeAll(waiters);
    }

    method Clear(ghost s: Scheduler)
      requires Valid(s)
      modifies this`isSet
      ensures Valid(s) && !isSet
    {
      isSet := false;
    }

    /** `co_await event.wait()`: go on if it is set, else park at the tail of its queue. */
    method Wait(s: Scheduler) returns (suspended: bool)
      requires Valid(s) && s.Valid() && s.RunningSlot()
      modifies s`waits, waiters`head, waiters`tail, s.slots, s.next
      ensures Valid(s) && s.Valid() && suspended == !isSet
      ensures s.View() == if suspended then Park(old(s.View()), s.current.value, waiters.place) else old(s.View())
    {
      hide Good, Separate, ListOf;
      if isSet {
        return false;
      }
      s.WaitOn(waiters);
      return true;
    }

    /** The destructor reports waiters that are still parked. */
    method Destruct(s: Scheduler) returns (error: bool)
      requires Valid(s) && s.Valid()
      ensures error <==> WaitersIn(s.waits, waiters.place) != []
    {
      hide Good, Separate;
      s.EmptyQueue(waiters);
      error := waiters.head != None;
    }
  }
}
