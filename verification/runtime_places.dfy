/** Which action touches which wait place, and that every other place keeps its waiters in order. */
module RuntimePlaces {
  import opened SchedulerCore
  import opened SchedulerTimers
  import opened Runtime

  /** The action may park a task at `p` or wake one there. */
  predicate Touches(s: Sys, a: Action, p: Place) {
    match a
    case SetEvent(e) => p == EventWait(e)
    case AwaitEvent(e) => p == EventWait(e)
    case TrySend(q) => p == SendWait(q) || p == ReceiveWait(q)
    case AwaitSend(q) => p == SendWait(q) || p == ReceiveWait(q)
    case TryReceive(q) => p == SendWait(q) || p == ReceiveWait(q)
    case AwaitReceive(q) => p == SendWait(q) || p == ReceiveWait(q)
    case ParkFlag => s.phase.Parking? && p == FlagWait(s.phase.f)
    case MoveFlag => s.phase.Tested? && s.phase.rest != [] && p == FlagWait(s.phase.rest[0])
    case _ => false
  }

  predicate SameAt(s: Sys, t: Sys, p: Place) { Waiters(t.core, p) == Waiters(s.core, p) }

  // ----- the moves of the scheduler -----------------------------------------------------------------------

  lemma WakeElsewhere(c: Core, p: Place, p': Place)
    requires Waiters(c, p) != []
    ensures p' != p ==> Waiters(WakeFirst(c, p), p') == Waiters(c, p')
    ensures Waiters(WakeFirst(c, p), p) == Waiters(c, p)[1..]
    ensures WakeFirst(c, p).ready == c.ready + [Waiters(c, p)[0]]
  {
  }

  /** The end of a resume moves nobody from or to a wait place. */
  lemma EndWaits(c: Core, i: nat, done: bool)
    requires i < |c.slots|
    ensures EndResume(c, i, done).waits == c.waits
  {
  }

  lemma SuspendWaits(s: Sys, c: Core)
    requires InSlot(s)
    ensures Suspend(s, c).core.waits == c.waits && Suspend(s, c).queues == s.queues
  {
    hide EndResume;
    if Who(s) < |c.slots| {
      EndWaits(c, Who(s), false);
    }
  }

  /** Parking appends the running task to the one place. */
  lemma ParkWaits(s: Sys, p: Place, p': Place)
    requires InSlot(s)
    ensures ParkAt(s, p).queues == s.queues
    ensures Waiters(ParkAt(s, p).core, p') == Waiters(s.core, p') + (if p' == p then [Who(s)] else [])
  {
    hide Suspend;
    SuspendWaits(s, Park(s.core, Who(s), p));
  }

  lemma ChildWaits(c: Core, i: nat, frame: nat)
    ensures StartChild(c, i, frame).0.waits == c.waits
  {
  }

  lemma DelayWaits(c: Core, i: nat, d: nat)
    requires i < |c.slots|
    ensures ArmTimer(c, i, d).0.waits == c.waits
  {
  }

  lemma ScheduleWaits(c: Core, frame: nat)
    ensures Schedule(c, frame).0.waits == c.waits
  {
  }

  lemma DueWaits(c: Core)
    ensures ProcessDue(c).waits == c.waits
  {
    WakeDueFifos(c);
  }

  lemma ResumeWaits(s: Sys)
    requires Enabled(s, Resume)
    ensures ResumeNext(s).core.waits == s.core.waits && ResumeNext(s).queues == s.queues
  {
  }

  lemma AwaitChildWaits(s: Sys, t: nat)
    requires InSlot(s)
    ensures AwaitChild(s, t).core.waits == s.core.waits && AwaitChild(s, t).queues == s.queues
  {
    hide Suspend, StartChild, Drop, TakeFrame;
    if t in s.frames.tokens {
      ChildWaits(s.core, Who(s), s.frames.tokens[t]);
      SuspendWaits(s, StartChild(s.core, Who(s), s.frames.tokens[t]).0);
    }
  }

  lemma SendWaits(s: Sys, r: nat, p: Place)
    requires r < |s.queues|
    ensures p != ReceiveWait(r) ==> SameAt(s, DoSend(s, r), p)
    ensures |DoSend(s, r).queues| == |s.queues| && forall q :: 0 <= q < |s.queues| && q != r ==> DoSend(s, r).queues[q] == s.queues[q]
  {
    hide WakeFirst;
    if Waiters(s.core, ReceiveWait(r)) != [] {
      WakeElsewhere(s.core, ReceiveWait(r), p);
    }
  }

  lemma ReceiveWaits(s: Sys, r: nat, p: Place)
    requires r < |s.queues|
    ensures p != SendWait(r) ==> SameAt(s, DoReceive(s, r), p)
    ensures |DoReceive(s, r).queues| == |s.queues| && forall q :: 0 <= q < |s.queues| && q != r ==> DoReceive(s, r).queues[q] == s.queues[q]
  {
    hide WakeFirst;
    if Waiters(s.core, SendWait(r)) != [] {
      WakeElsewhere(s.core, SendWait(r), p);
    }
  }

  // ----- the actions ---------------------------------------------------------------------------------------

  predicate OnQueue(a: Action) { a.TrySend? || a.TryReceive? || a.AwaitSend? || a.AwaitReceive? }

  predicate Parks(a: Action) { a.AwaitEvent? || a.ParkFlag? }

  /** The actions that move the scheduler without an await or a queue. */
  predicate Moves(a: Action) { a.Spawn? || a.SetEvent? || a.MoveFlag? || a.RunTimers? || a.Resume? }

  lemma QueueElsewhere(s: Sys, a: Action, p: Place)
    requires Enabled(s, a) && OnQueue(a) && !Touches(s, a, p)
    ensures SameAt(s, Step(s, a), p)
  {
    hide DoSend, DoReceive, ParkAt;
    match a
    case TrySend(r) => SendWaits(s, r, p);
    case TryReceive(r) => ReceiveWaits(s, r, p);
    case AwaitSend(r) => SendWaits(s, r, p); ParkWaits(s, SendWait(r), p);
    case AwaitReceive(r) => ReceiveWaits(s, r, p); ParkWaits(s, ReceiveWait(r), p);
  }

  lemma ParkElsewhere(s: Sys, a: Action, p: Place)
    requires Enabled(s, a) && Parks(a) && !Touches(s, a, p)
    ensures SameAt(s, Step(s, a), p) && Step(s, a).queues == s.queues
  {
    hide ParkAt;
    match a
    case AwaitEvent(e) => ParkWaits(s, EventWait(e), p);
    case ParkFlag => ParkWaits(s, FlagWait(s.phase.f), p);
  }

  lemma LeaveElsewhere(s: Sys, a: Action)
    requires Enabled(s, a) && Awaits(a) && !OnQueue(a) && !Parks(a)
    ensures Step(s, a).core.waits == s.core.waits && Step(s, a).queues == s.queues
  {
    hide Suspend, EndResume, ArmTimer, AwaitChild;
    match a
    case AwaitTask(t) => AwaitChildWaits(s, t);
    case AwaitHeld(h) => AwaitChildWaits(s, h);
    case AwaitFlag(f) =>
    case Yield => SuspendWaits(s, Requeue(s.core, Who(s)));
    case Delay(d) => DelayWaits(s.core, Who(s), d); SuspendWaits(s, ArmTimer(s.core, Who(s), d).0);
    case Opaque => SuspendWaits(s, s.core);
    case Return => EndWaits(s.core, Who(s), true);
  }

  lemma MoveElsewhere(s: Sys, a: Action, p: Place)
    requires Enabled(s, a) && Moves(a) && !Touches(s, a, p)
    ensures SameAt(s, Step(s, a), p) && Step(s, a).queues == s.queues
  {
    hide Schedule, WakeAll, WakeFirst, ProcessDue, BeginResume;
    match a
    case Spawn(t) => if t in s.frames.tokens { ScheduleWaits(s.core, s.frames.tokens[t]); }
    case SetEvent(e) => WakeAllFrame(s.core, EventWait(e));
    case MoveFlag =>
      var g := FlagWait(s.phase.rest[0]);
      if Waiters(s.core, g) != [] {
        WakeElsewhere(s.core, g, p);
      }
    case RunTimers => DueWaits(s.core);
    case Resume => ResumeWaits(s);
  }

  /** The actions that leave the scheduler alone, but for its clock. */
  lemma RestElsewhere(s: Sys, a: Action)
    requires Enabled(s, a) && !Awaits(a) && !Moves(a) && !OnQueue(a)
    ensures Step(s, a).core.waits == s.core.waits && Step(s, a).queues == s.queues
  {
    hide TokenStep, TokenEnabled;
  }

  /** A place that the action does not touch keeps its waiters. */
  lemma PlaceStays(s: Sys, a: Action, p: Place)
    requires Enabled(s, a) && !Touches(s, a, p)
    ensures Waiters(Step(s, a).core, p) == Waiters(s.core, p)
  {
    hide Enabled, Step, Touches;
    if OnQueue(a) {
      QueueElsewhere(s, a, p);
    } else if Parks(a) {
      ParkElsewhere(s, a, p);
    } else if Awaits(a) {
      LeaveElsewhere(s, a);
    } else if Moves(a) {
      MoveElsewhere(s, a, p);
    } else {
      RestElsewhere(s, a);
    }
  }

  predicate OnThisQueue(a: Action, q: nat) {
    (a.TrySend? && a.q == q) || (a.TryReceive? && a.q == q) || (a.AwaitSend? && a.q == q) || (a.AwaitReceive? && a.q == q)
  }

  lemma OtherQueues(s: Sys, a: Action, q: nat)
    requires Enabled(s, a) && OnQueue(a) && !OnThisQueue(a, q)
    ensures |Step(s, a).queues| == |s.queues| && (q < |s.queues| ==> Step(s, a).queues[q] == s.queues[q])
  {
    hide DoSend, DoReceive, ParkAt;
    match a
    case TrySend(r) => SendWaits(s, r, SendWait(q));
    case TryReceive(r) => ReceiveWaits(s, r, SendWait(q));
    case AwaitSend(r) => SendWaits(s, r, SendWait(q)); ParkWaits(s, SendWait(r), SendWait(q));
    case AwaitReceive(r) => ReceiveWaits(s, r, SendWait(q)); ParkWaits(s, ReceiveWait(r), SendWait(q));
  }

  /** A queue is changed by its own operations only. */
  lemma QueuesStay(s: Sys, a: Action, q: nat)
    requires Enabled(s, a) && !OnThisQueue(a, q)
    ensures |Step(s, a).queues| == |s.queues| && (q < |s.queues| ==> Step(s, a).queues[q] == s.queues[q])
  {
    hide Enabled, Step;
    if OnQueue(a) {
      OtherQueues(s, a, q);
    } else if Parks(a) {
      ParkQueues(s, a);
    } else if Awaits(a) {
      LeaveElsewhere(s, a);
    } else if Moves(a) {
      MoveQueues(s, a);
    } else {
      RestElsewhere(s, a);
    }
  }

  lemma ParkQueues(s: Sys, a: Action)
    requires Enabled(s, a) && Parks(a)
    ensures Step(s, a).queues == s.queues
  {
    hide Suspend, Park;
    match a
    case AwaitEvent(e) => SuspendWaits(s, Park(s.core, Who(s), EventWait(e)));
    case ParkFlag => SuspendWaits(s, Park(s.core, Who(s), FlagWait(s.phase.f)));
  }

  lemma MoveQueues(s: Sys, a: Action)
    requires Enabled(s, a) && Moves(a)
    ensures Step(s, a).queues == s.queues
  {
    hide Schedule, WakeAll, WakeFirst, ProcessDue, BeginResume;
  }
}
