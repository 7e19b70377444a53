/** Each primitive move keeps the scheduler invariants, handles included, and the lists apart. */
module SchedulerMoves {
  import opened Wrappers
  import opened SchedulerCore
  import opened SchedulerTimers
  import opened SchedulerHandles

  lemma RequeueGood(c: Core, i: nat)
    requires Good(c) && i < |c.slots| && c.slots[i].state == Running
    ensures Good(Requeue(c, i))
  {
    hide CoreInv, IssuedInv, FinishedInv;
    RequeueKeeps(c, i);
    HandlesSame(c.slots, Requeue(c, i).slots, c.issued, c.finished);
  }

  lemma ArmGood(c: Core, i: nat, deadline: nat)
    requires Good(c) && i < |c.slots| && c.slots[i].state == Running && deadline <= UINT64_MAX
    ensures Good(Arm(c, i, deadline))
  {
    hide CoreInv, IssuedInv, FinishedInv;
    ArmKeeps(c, i, deadline);
    HandlesSame(c.slots, Arm(c, i, deadline).slots, c.issued, c.finished);
  }

  lemma ArmTimerGood(c: Core, i: nat, duration: nat)
    requires Good(c) && i < |c.slots| && c.slots[i].state == Running
    ensures Good(ArmTimer(c, i, duration).0)
  {
    hide Good;
    if duration > 0 && c.now <= UINT64_MAX && duration <= UINT64_MAX - c.now {
      ArmGood(c, i, c.now + duration);
    } else {
      RequeueGood(c, i);
    }
  }

  lemma ParkGood(c: Core, i: nat, p: Place)
    requires Good(c) && i < |c.slots| && c.slots[i].state == Running
    ensures Good(Park(c, i, p))
  {
    hide CoreInv, IssuedInv, FinishedInv;
    ParkKeeps(c, i, p);
    HandlesSame(c.slots, Park(c, i, p).slots, c.issued, c.finished);
  }

  lemma WakeFirstGood(c: Core, p: Place)
    requires Good(c) && Waiters(c, p) != []
    ensures Waiters(c, p)[0] < |c.slots| && c.slots[Waiters(c, p)[0]].state == WaitingLocal
    ensures Good(WakeFirst(c, p))
  {
    hide CoreInv, IssuedInv, FinishedInv;
    WakeFirstKeeps(c, p);
    HandlesSame(c.slots, WakeFirst(c, p).slots, c.issued, c.finished);
  }

  lemma {:induction false} WakeAllGood(c: Core, p: Place)
    requires Good(c)
    ensures Good(WakeAll(c, p)) && WakeAll(c, p).current == c.current && |WakeAll(c, p).slots| == |c.slots|
    decreases |Waiters(c, p)|
  {
    hide Good;
    if Waiters(c, p) != [] {
      WakeFirstGood(c, p);
      WakeAllGood(WakeFirst(c, p), p);
    }
  }

  lemma ScheduleGood(c: Core, frame: nat)
    requires Good(c)
    ensures Good(Schedule(c, frame).0)
  {
    hide CoreInv, IssuedInv, FinishedInv;
    ScheduleKeeps(c, frame);
    ScheduleHandles(c, frame);
  }

  lemma StartChildGood(c: Core, i: nat, frame: nat)
    requires Good(c) && i < |c.slots| && c.slots[i].state == Running
    ensures Good(StartChild(c, i, frame).0)
  {
    hide CoreInv, IssuedInv, FinishedInv;
    StartChildKeeps(c, i, frame);
    StartChildHandles(c, i, frame);
  }

  lemma BeginGood(c: Core)
    requires Good(c) && c.current == None && c.ready != []
    ensures c.ready[0] < |c.slots| && c.slots[c.ready[0]].state == Ready
    ensures Good(BeginResume(c))
  {
    hide CoreInv, IssuedInv, FinishedInv;
    BeginResumeKeeps(c);
    HandlesSame(c.slots, BeginResume(c).slots, c.issued, c.finished);
  }

  lemma ReturnGood(c: Core, i: nat)
    requires Good(c) && i < |c.slots| && c.slots[i].state == Running
    ensures Good(EndResume(c, i, true)) && c.slots[i].frame.Some?
    ensures c.slots[i].parent.Some? ==>
              c.slots[i].parent.value < |c.slots| && c.slots[i].parent.value != i
              && c.slots[c.slots[i].parent.value].state == WaitingChild
  {
    hide CoreInv, IssuedInv, FinishedInv;
    CompleteKeeps(c, i);
    RunningFacts(c, i);
    HandlesComplete(c, i);
  }

  lemma RunningFacts(c: Core, i: nat)
    requires CoreInv(c) && i < |c.slots| && c.slots[i].state == Running
    ensures c.slots[i].frame.Some?
    ensures c.slots[i].parent.Some? ==>
              c.slots[i].parent.value < |c.slots| && c.slots[i].parent.value != i
              && c.slots[c.slots[i].parent.value].state == WaitingChild
  {
    hide ReadyInv, WaitInv, TimerInv, CurrentInv, ParentInv;
    ParentsComplete(c.slots, c.born, |c.issued|, i);
  }

  lemma SuspendGood(c: Core, i: nat)
    requires Good(c) && i < |c.slots| && c.current == Some(i)
    ensures Good(EndResume(c, i, false))
  {
    hide CoreInv, IssuedInv, FinishedInv;
    if c.slots[i].state == Running {
      SuspendKeeps(c, i);
      HandlesSame(c.slots, EndResume(c, i, false).slots, c.issued, c.finished);
    } else {
      LeaveAlone(c, i);
    }
  }

  lemma LeaveAlone(d: Core, i: nat)
    requires CoreInv(d) && i < |d.slots| && d.slots[i].state != Running && d.current == Some(i)
    ensures CoreInv(EndResume(d, i, false)) && EndResume(d, i, false) == d.(current := None)
  {
    hide ReadyInv, WaitInv, StableInv, TimerInv;
  }

  lemma DueGood(c: Core)
    requires Good(c)
    ensures Good(ProcessDue(c)) && ProcessDue(c).current == c.current
  {
    hide CoreInv, IssuedInv, FinishedInv;
    ProcessDueKeeps(c);
    DueHandles(c);
    WakeDueFifos(c);
  }

  lemma NowGood(c: Core, now: nat)
    requires Good(c)
    ensures Good(c.(now := now))
  {
    hide ReadyInv, WaitInv, StableInv, TimerInv, CurrentInv, IssuedInv, FinishedInv;
  }

  // ----- lists apart -------------------------------------------------------------------------------

  /** The ready FIFO and the wait FIFOs share no slot. */
  ghost predicate Separate(ready: seq<nat>, waits: Waits) {
    && (forall p: Place, i: nat :: Parked(waits, p, i) ==> i !in ready)
    && (forall p: Place, p': Place, i: nat :: Parked(waits, p, i) && Parked(waits, p', i) ==> p == p')
  }

  /** Slot `i` is in no FIFO. */
  ghost predicate Unlisted(ready: seq<nat>, waits: Waits, i: nat) {
    i !in ready && forall p: Place :: !Parked(waits, p, i)
  }

  lemma UnlistedSlot(c: Core, i: nat)
    requires CoreInv(c) && i < |c.slots| && c.slots[i].state != Ready && c.slots[i].state != WaitingLocal
    ensures Unlisted(c.ready, c.waits, i)
  {
    hide StableInv, TimerInv, CurrentInv;
  }

  /** While due timers are being woken the cached deadline is stale; the lists are as apart as ever. */
  lemma BaseApart(c: Core, i: nat)
    requires BaseInv(c)
    ensures Separate(c.ready, c.waits)
    ensures i < |c.slots| && c.slots[i].state == WaitingTimer ==> Unlisted(c.ready, c.waits, i)
  {
    hide StableInv, CurrentInv;
  }
}
