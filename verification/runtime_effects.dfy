/**
 What the operations of user code do to the tasks: who becomes ready, who suspends, which errors are
 reported, and when the tasks that were put on the ready FIFO run.
 */
module RuntimeEffects {
  import opened Wrappers
  import opened SchedulerCore
  import opened SchedulerHandles
  import opened SchedulerTimers
  import opened Runtime
  import opened RuntimeInv
  import opened RuntimeQuiet
  import opened RuntimeRuns
  import opened RuntimePasses
  import opened RuntimePlaces
  import RuntimeSteps

  /** No slot can be acquired. */
  ghost predicate NoSlot(c: Core) { forall i :: 0 <= i < |c.slots| ==> Live(c.slots[i]) || c.slots[i].generation == MAX_GENERATION }

  // ----- tasks that give way ------------------------------------------------------------------------------

  /** The action awaits a child that is there: the Task's or the awaiter's frame. */
  predicate AwaitsChild(s: Sys, a: Action) {
    || (a.AwaitTask? && a.t in s.frames.tokens)
    || (a.AwaitHeld? && a.a in s.frames.awaiters && !s.frames.awaiters[a.a] && a.a in s.frames.tokens)
  }

  function ChildToken(a: Action): nat
    requires a.AwaitTask? || a.AwaitHeld?
  {
    if a.AwaitTask? then a.t else a.a
  }

  /** The running task gives way and is to go on: it yields, delays by nothing or too much, or gets no slot for a child. */
  ghost predicate GivesWay(s: Sys, a: Action) {
    || a.Yield?
    || (a.Delay? && (a.d == 0 || s.core.now + a.d > UINT64_MAX))
    || (AwaitsChild(s, a) && NoSlot(s.core))
  }

  /** Then it is at the tail of the ready FIFO and its part of the pass is over. */
  ghost predicate IsRequeued(s: Sys, t: Sys) {
    && InSlot(s) && t.core.ready == s.core.ready + [Who(s)] && t.core.log == s.core.log + [Who(s)]
    && t.core.resumed == s.core.resumed && t.mark == s.mark && s.phase.Body? && t.phase == Pass(s.phase.left)
    && |t.core.slots| == |s.core.slots| && t.core.slots[Who(s)] == s.core.slots[Who(s)].(state := Ready)
  }

  lemma SuspendedReady(s: Sys)
    requires InSlot(s) && s.phase.Body? && s.core.slots[Who(s)].state == Running
    ensures IsRequeued(s, Suspend(s, Requeue(s.core, Who(s))))
  {
  }

  lemma RequeueEnds(s: Sys, a: Action)
    requires Inv(s) && Enabled(s, a) && (a.Yield? || (a.Delay? && (a.d == 0 || s.core.now + a.d > UINT64_MAX)))
    ensures IsRequeued(s, Step(s, a)) && Step(s, a).frames == s.frames
  {
    hide Inv, Suspend, Requeue, IsRequeued;
    BodyFacts(s);
    SuspendedReady(s);
    SuspendErrors(s, Requeue(s.core, Who(s)));
    FailKeeps(s, Suspend(s, Requeue(s.core, Who(s))), DeadlineOverflow);
  }

  lemma FailKeeps(s: Sys, t: Sys, e: Error)
    ensures IsRequeued(s, t) ==> IsRequeued(s, Fail(t, e))
  {
  }

  lemma FramesDontCount(s: Sys, t: Sys, fr: Frames)
    ensures IsRequeued(s, t) ==> IsRequeued(s, t.(frames := fr))
  {
  }

  /** `co_await` of a child for which there is no slot, in the terms of `AwaitChild`. */
  lemma NoSlotForChild(s: Sys, t: nat)
    requires InBody(s) && s.core.slots[Who(s)].state == Running && t in s.frames.tokens && NoSlot(s.core)
    ensures var u := AwaitChild(s, t);
            IsRequeued(s, u) && u.frames == Drop(s.frames, t) && u.errors == s.errors + [Error.TaskLimit]
  {
    hide Suspend, Requeue, IsRequeued, Drop, Acquirable;
    assert StartChild(s.core, Who(s), s.frames.tokens[t]) == (Requeue(s.core, Who(s)), false);
    var v := Suspend(s, Requeue(s.core, Who(s)));
    SuspendedReady(s);
    FramesDontCount(s, v, Drop(s.frames, t));
    FailKeeps(s, v.(frames := Drop(s.frames, t)), Error.TaskLimit);
    SuspendErrors(s, Requeue(s.core, Who(s)));
  }

  lemma SuspendErrors(s: Sys, c: Core)
    requires InSlot(s)
    ensures Suspend(s, c).errors == s.errors && Suspend(s, c).frames == s.frames
  {
    hide EndResume;
  }

  lemma ChildIs(s: Sys, a: Action)
    requires Enabled(s, a) && AwaitsChild(s, a)
    ensures InBody(s) && Step(s, a) == AwaitChild(s, ChildToken(a))
  {
    hide AwaitChild;
  }

  /**
   A child that finds no slot: nothing is adopted, its frame is destroyed once, the error is reported, and
   the parent is requeued.
   */
  lemma AdoptionFails(s: Sys, a: Action)
    requires Inv(s) && Enabled(s, a) && AwaitsChild(s, a) && NoSlot(s.core)
    ensures ChildToken(a) in s.frames.tokens
    ensures var t, frame := Step(s, a), s.frames.tokens[ChildToken(a)];
            && IsRequeued(s, t) && t.errors == s.errors + [Error.TaskLimit]
            && frame in s.frames.live && frame !in s.frames.destroyed
            && t.frames.live == s.frames.live - {frame} && t.frames.destroyed == s.frames.destroyed + [frame]
            && t.frames.tokens == Runtime.Without(s.frames.tokens, ChildToken(a))
  {
    hide Good, PhaseInv, ObjectsInv, ArmedInv, SignalInv, TokenInv, NoSlot, IsRequeued, AwaitChild, Step, Enabled;
    ChildIs(s, a);
    BodyFacts(s);
    NoSlotForChild(s, ChildToken(a));
    assert Owns(s.core.slots, s.frames.tokens, TokenOwner(ChildToken(a)), s.frames.tokens[ChildToken(a)]);
  }

  /** A task that gives way is not resumed in the rest of the pass and exactly once in the next one. */
  lemma GivesWayOnce(s: Sys, a: Action, rest: seq<Action>, before: seq<Action>, during: seq<Action>)
    requires Inv(s) && Enabled(s, a) && GivesWay(s, a)
    requires CanRun(Step(s, a), rest) && NoTimers(rest) && Run(Step(s, a), rest).phase == Pass(0)
    requires var u := Run(Step(s, a), rest); CanRun(u, before) && NoTimers(before) && Run(u, before).phase.Timers?
    requires var v := Snapshot(Run(Run(Step(s, a), rest), before)); CanRun(v, during) && NoTimers(during) && Run(v, during).phase == Pass(0)
    ensures InSlot(s) && IsRequeued(s, Step(s, a))
    ensures var u := Run(Step(s, a), rest);
            var w := Run(Snapshot(Run(u, before)), during);
            && !ResumedSince(u, |s.core.resumed|, Who(s))
            && u.core.resumed <= w.core.resumed && multiset(w.core.resumed[|u.core.resumed|..])[Who(s)] == 1
  {
    hide Inv, Enabled, CanRun, Run, Step, Snapshot, NoTimers, ResumedSince, NoSlot, AwaitsChild;
    if AwaitsChild(s, a) && NoSlot(s.core) {
      AdoptionFails(s, a);
    } else {
      RequeueEnds(s, a);
    }
    var t := Step(s, a);
    RuntimeSteps.StepKeepsInv(s, a);
    FifoFacts(s);
    QueuedRunsOnceNext(t, rest, before, during, Who(s), |s.core.log|);
  }

  // ----- children and spawns ----------------------------------------------------------------------------------

  /** Slot `k` was acquired: the lowest one never used, else the lowest tombstone. */
  ghost predicate Chosen(c: Core, k: nat) { Lowest(c.slots, Free, k) || (NoneUsable(c.slots, Free) && Lowest(c.slots, Completed, k)) }

  /** A new task is in slot `k`, ready, with this frame and this parent, and no other slot but `but` changed. */
  ghost predicate NewTask(c: Core, d: Core, k: nat, frame: nat, parent: Option<nat>, but: Option<nat>) {
    && k < |c.slots| && |d.slots| == |c.slots| && Chosen(c, k)
    && d.slots[k].state == Ready && d.slots[k].frame == Some(frame) && d.slots[k].parent == parent
    && d.slots[k].generation == c.slots[k].generation + 1
    && d.ready == c.ready + [k] && d.log == c.log + [k] && d.active == c.active + 1
    && forall i :: 0 <= i < |c.slots| && i != k && Some(i) != but ==> d.slots[i] == c.slots[i]
  }

  lemma Installs(c: Core, frame: nat)
    ensures Schedule(c, frame).1 == None <==> NoSlot(c)
    ensures Schedule(c, frame).1 == None ==> Schedule(c, frame).0 == c
    ensures Schedule(c, frame).1.Some? ==> NewTask(c, Schedule(c, frame).0, Schedule(c, frame).1.value.0, frame, None, None)
  {
    AcquiresFreeFirst(c.slots);
    hide Lowest, NoneUsable;
  }

  /**
   A spawn: an empty Task is reported; with no slot the limit is reported and the Task keeps its frame; else
   the frame is in a new ready task, which has no parent, at the tail of the ready FIFO, and the Task is empty.
   */
  lemma SpawnEffect(s: Sys, t: nat)
    requires Enabled(s, Spawn(t))
    ensures var u := Step(s, Spawn(t));
            && (t !in s.frames.tokens ==> u == Fail(s, InvalidTask))
            && (t in s.frames.tokens && NoSlot(s.core) ==> u == Fail(s, Error.TaskLimit))
            && (t in s.frames.tokens && !NoSlot(s.core) ==>
                  && u.errors == s.errors && t !in u.frames.tokens && u.frames.live == s.frames.live
                  && exists k: nat :: NewTask(s.core, u.core, k, s.frames.tokens[t], None, None))
  {
    hide NoSlot, Schedule;
    if t in s.frames.tokens {
      Installs(s.core, s.frames.tokens[t]);
      hide NewTask;
    }
  }

  /** An adopted child: a new ready task with the running one as its parent, which waits for it. */
  lemma AdoptionSucceeds(s: Sys, a: Action)
    requires Inv(s) && Enabled(s, a) && AwaitsChild(s, a) && !NoSlot(s.core)
    ensures ChildToken(a) in s.frames.tokens && InSlot(s)
    ensures var t := Step(s, a);
            && t.errors == s.errors && ChildToken(a) !in t.frames.tokens && t.frames.live == s.frames.live
            && Who(s) < |t.core.slots| && t.core.slots[Who(s)] == s.core.slots[Who(s)].(state := WaitingChild)
            && exists k: nat :: NewTask(s.core, t.core, k, s.frames.tokens[ChildToken(a)], Some(Who(s)), Some(Who(s)))
  {
    hide Inv, NoSlot, AwaitChild, Step, Enabled, NewTask;
    ChildIs(s, a);
    BodyFacts(s);
    SlotForChild(s, ChildToken(a));
  }

  lemma SlotForChild(s: Sys, t: nat)
    requires InBody(s) && s.core.slots[Who(s)].state == Running && t in s.frames.tokens && !NoSlot(s.core)
    ensures var u := AwaitChild(s, t);
            && u.errors == s.errors && t !in u.frames.tokens && u.frames.live == s.frames.live
            && Who(s) < |u.core.slots| && u.core.slots[Who(s)] == s.core.slots[Who(s)].(state := WaitingChild)
            && exists k: nat :: NewTask(s.core, u.core, k, s.frames.tokens[t], Some(Who(s)), Some(Who(s)))
  {
    AcquiresFreeFirst(s.core.slots);
    hide Lowest, NoneUsable;
    var k := Acquirable(s.core.slots).value;
    hide Acquirable;
    var (c, adopted) := StartChild(s.core, Who(s), s.frames.tokens[t]);
    assert adopted && c.slots[Who(s)].state == WaitingChild && k != Who(s);
    var u := Suspend(s, c);
    assert u.core.slots == c.slots && u.core.ready == c.ready && u.core.log == c.log && u.core.active == c.active;
    assert NewTask(s.core, u.core, k, s.frames.tokens[t], Some(Who(s)), Some(Who(s)));
    assert AwaitChild(s, t).core == u.core;
  }

  // ----- tasks that suspend for good ----------------------------------------------------------------------------

  /** A suspension without a wake source: the task is suspended, on no list, and its part of the pass is over. */
  lemma OpaqueSuspends(s: Sys)
    requires Inv(s) && Enabled(s, Opaque)
    ensures InSlot(s) && s.phase.Body?
    ensures var t := Step(s, Opaque);
            && |t.core.slots| == |s.core.slots| && t.core.slots == s.core.slots[Who(s) := s.core.slots[Who(s)].(state := State.Suspended)]
            && t.core.ready == s.core.ready && t.core.waits == s.core.waits && t.phase == Pass(s.phase.left)
  {
    hide Inv;
    BodyFacts(s);
  }

  lemma SuspendedStep(s: Sys, a: Action, i: nat)
    requires Inv(s) && Enabled(s, a) && i < |s.core.slots| && s.core.slots[i].state == State.Suspended
    ensures i < |Step(s, a).core.slots| && Step(s, a).core.slots[i] == s.core.slots[i]
  {
    hide Inv;
    if a.RunTimers? {
      WakeDueSlots(s.core);
    } else {
      hide Enabled, Step;
      StepQuiet(s, a);
    }
  }

  /** Nothing in the runtime readies it: over every run it stays as it is and is not resumed. */
  lemma {:induction false} SuspendedStays(s: Sys, acts: seq<Action>, i: nat, base: seq<nat>)
    requires Inv(s) && CanRun(s, acts) && i < |s.core.slots| && s.core.slots[i].state == State.Suspended
    requires base <= s.core.resumed && i !in s.core.resumed[|base|..]
    ensures i < |Run(s, acts).core.slots| && Run(s, acts).core.slots[i] == s.core.slots[i]
    ensures base <= Run(s, acts).core.resumed && !ResumedSince(Run(s, acts), |base|, i)
    decreases |acts|
  {
    hide Inv, Enabled, Step;
    if acts != [] {
      SuspendedStep(s, acts[0], i);
      UnreadyNotResumed(s, acts[0], i);
      NotAppended(base, s.core.resumed, Step(s, acts[0]).core.resumed, i);
      RuntimeSteps.StepKeepsInv(s, acts[0]);
      SuspendedStays(Step(s, acts[0]), acts[1..], i, base);
    }
  }

  // ----- events --------------------------------------------------------------------------------------------------

  lemma AwaitEvents(s: Sys, a: Action)
    requires Awaits(a) && AwaitEnabled(s, a)
    ensures AwaitStep(s, a).events == s.events
  {
    hide EndResume, Park, StartChild, WakeFirst, ArmTimer;
  }

  lemma SchedulerEvents(s: Sys, a: Action)
    requires ByScheduler(a) && SchedulerEnabled(s, a)
    ensures SchedulerStep(s, a).events == s.events
  {
    hide ProcessDue, BeginResume, WakeFirst;
  }

  lemma EventsElsewhere(s: Sys, a: Action)
    requires Enabled(s, a) && !a.SetEvent? && !a.ClearEvent?
    ensures Step(s, a).events == s.events
  {
    hide AwaitStep, SchedulerStep, AwaitEnabled, SchedulerEnabled, TokenStep, TokenEnabled, Schedule, WakeFirst;
    if Awaits(a) {
      AwaitEvents(s, a);
    } else if ByScheduler(a) {
      SchedulerEvents(s, a);
    }
  }

  /** A set latches the event, a clear unlatches it, nothing else does. */
  lemma LatchFollows(s: Sys, a: Action, e: nat)
    requires Enabled(s, a) && e < |s.events|
    ensures |Step(s, a).events| == |s.events|
    ensures Step(s, a).events[e] <==> a == SetEvent(e) || (s.events[e] && a != ClearEvent(e))
  {
    if !a.SetEvent? && !a.ClearEvent? {
      EventsElsewhere(s, a);
      hide Enabled, Step;
    } else {
      hide WakeAll;
    }
  }

  /** Whether the event is set after these actions: the last set or clear decides. */
  function Latch(acts: seq<Action>, e: nat, was: bool): bool
    decreases |acts|
  {
    if acts == [] then was else Latch(acts[1..], e, acts[0] == SetEvent(e) || (was && acts[0] != ClearEvent(e)))
  }

  lemma {:induction false} EventIsLatch(s: Sys, acts: seq<Action>, e: nat)
    requires CanRun(s, acts) && e < |s.events|
    ensures |Run(s, acts).events| == |s.events| && Run(s, acts).events[e] == Latch(acts, e, s.events[e])
    decreases |acts|
  {
    hide Enabled, Step;
    if acts != [] {
      LatchFollows(s, acts[0], e);
      EventIsLatch(Step(s, acts[0]), acts[1..], e);
    }
  }

  /** An await of a set event goes on and changes nothing; of an unset one it parks the task last. */
  lemma AwaitEventIff(s: Sys, e: nat)
    requires Inv(s) && Enabled(s, AwaitEvent(e))
    ensures e < |s.events| && InSlot(s)
    ensures var t := Step(s, AwaitEvent(e));
            && (s.events[e] ==> t == s)
            && (!s.events[e] ==> t.phase.Pass? && Waiters(t.core, EventWait(e)) == Waiters(s.core, EventWait(e)) + [Who(s)])
  {
    hide Inv, ParkAt;
    ParkWaits(s, EventWait(e), EventWait(e));
    ParkPhase(s, EventWait(e));
  }

  lemma ParkPhase(s: Sys, p: Place)
    requires InSlot(s)
    ensures ParkAt(s, p).phase == Pass(Left(s)) && ParkAt(s, p).errors == s.errors && ParkAt(s, p).frames == s.frames
    ensures ParkAt(s, p).armed == s.armed
  {
    hide EndResume, Park;
  }

  /** A set makes all waiters ready, in their order. */
  lemma SetWakesAll(s: Sys, e: nat)
    requires Enabled(s, SetEvent(e))
    ensures var t := Step(s, SetEvent(e));
            && t.core.ready == s.core.ready + Waiters(s.core, EventWait(e)) && t.core.log == s.core.log + Waiters(s.core, EventWait(e))
            && Waiters(t.core, EventWait(e)) == [] && t.core.resumed == s.core.resumed && t.mark == s.mark && t.phase == s.phase
  {
    hide WakeAll;
    WakeAllEffect(s.core, EventWait(e));
    WakeAllFrame(s.core, EventWait(e));
  }

  predicate NoEvent(acts: seq<Action>, e: nat) { forall k :: 0 <= k < |acts| ==> acts[k] != SetEvent(e) }

  lemma EventPlace(s: Sys, a: Action, e: nat)
    requires Inv(s) && Enabled(s, a) && a != SetEvent(e)
    ensures Waiters(s.core, EventWait(e)) <= Waiters(Step(s, a).core, EventWait(e))
  {
    hide Inv, Step, Enabled;
    if a == AwaitEvent(e) {
      AwaitEventIff(s, e);
    } else {
      PlaceStays(s, a, EventWait(e));
    }
  }

  lemma EventWaiterUnready(s: Sys, e: nat, w: nat)
    requires Inv(s) && w in Waiters(s.core, EventWait(e))
    ensures w < |s.core.slots| && s.core.slots[w].state == WaitingLocal
  {
    hide HandleInv, PhaseInv, ObjectsInv, ArmedInv, SignalInv, TokenInv, FramesInv, ReadyInv, StableInv, CurrentInv, TimerInv;
    assert Parked(s.core.waits, EventWait(e), w);
  }

  /** Until the event is set, a task that waits for it is neither made ready nor resumed, and nobody overtakes it. */
  lemma {:induction false} WaitsForSet(s: Sys, acts: seq<Action>, e: nat, w: nat, base: seq<nat>)
    requires Inv(s) && CanRun(s, acts) && w in Waiters(s.core, EventWait(e)) && NoEvent(acts, e)
    requires base <= s.core.resumed && w !in s.core.resumed[|base|..]
    ensures Waiters(s.core, EventWait(e)) <= Waiters(Run(s, acts).core, EventWait(e))
    ensures base <= Run(s, acts).core.resumed && !ResumedSince(Run(s, acts), |base|, w)
    decreases |acts|
  {
    hide Inv, Enabled, Step;
    if acts != [] {
      EventPlace(s, acts[0], e);
      EventWaiterUnready(s, e, w);
      UnreadyNotResumed(s, acts[0], w);
      NotAppended(base, s.core.resumed, Step(s, acts[0]).core.resumed, w);
      RuntimeSteps.StepKeepsInv(s, acts[0]);
      assert forall k :: 0 <= k < |acts[1..]| ==> acts[1..][k] == acts[k + 1];
      WaitsForSet(Step(s, acts[0]), acts[1..], e, w, base);
    }
  }

  /** A set from within a pass: every waiter runs exactly once in the next pass, and not in the rest of this one. */
  lemma SetRunsWaitersNext(s: Sys, e: nat, w: nat, rest: seq<Action>, before: seq<Action>, during: seq<Action>)
    requires Inv(s) && Enabled(s, SetEvent(e)) && InPass(s.phase) && w in Waiters(s.core, EventWait(e))
    requires CanRun(Step(s, SetEvent(e)), rest) && NoTimers(rest) && Run(Step(s, SetEvent(e)), rest).phase == Pass(0)
    requires var u := Run(Step(s, SetEvent(e)), rest); CanRun(u, before) && NoTimers(before) && Run(u, before).phase.Timers?
    requires var v := Snapshot(Run(Run(Step(s, SetEvent(e)), rest), before));
             CanRun(v, during) && NoTimers(during) && Run(v, during).phase == Pass(0)
    ensures var u := Run(Step(s, SetEvent(e)), rest);
            var x := Run(Snapshot(Run(u, before)), during);
            && !ResumedSince(u, |s.core.resumed|, w)
            && u.core.resumed <= x.core.resumed && multiset(x.core.resumed[|u.core.resumed|..])[w] == 1
  {
    hide Inv, Enabled, CanRun, Run, Step, Snapshot, NoTimers, ResumedSince;
    SetWakesAll(s, e);
    RuntimeSteps.StepKeepsInv(s, SetEvent(e));
    FifoFacts(s);
    PassHere(s, SetEvent(e));
    var k :| 0 <= k < |Waiters(s.core, EventWait(e))| && Waiters(s.core, EventWait(e))[k] == w;
    QueuedRunsOnceNext(Step(s, SetEvent(e)), rest, before, during, w, |s.core.log| + k);
  }

  lemma PassHere(s: Sys, a: Action)
    requires Enabled(s, a) && a.SetEvent? && InPass(s.phase)
    ensures s.phase.Body?
  {
  }

  // ----- flags ---------------------------------------------------------------------------------------------------

  /** An await of a signaled flag goes on; of an unset one it comes to the park. */
  lemma AwaitFlagIff(s: Sys, f: nat)
    requires Enabled(s, AwaitFlag(f))
    ensures f < |s.shared.signaled| && s.phase.Body?
    ensures Step(s, AwaitFlag(f)) == if s.shared.signaled[f] then s.(shared := s.shared.(signaled := s.shared.signaled[f := false]))
                                     else s.(phase := Parking(s.phase.left, f))
  {
  }

  /** The park is refused, with an error and no other change, exactly when the flag has a waiter. */
  lemma ParkFlagIff(s: Sys)
    requires Inv(s) && Enabled(s, ParkFlag)
    ensures s.phase.Parking? && InSlot(s)
    ensures var t, f := Step(s, ParkFlag), s.phase.f;
            && (Waiters(s.core, FlagWait(f)) != [] ==> t == Fail(s.(phase := Body(s.phase.left)), MultipleFlagWaiters))
            && (Waiters(s.core, FlagWait(f)) == [] ==>
                  t.phase == Pass(s.phase.left) && Waiters(t.core, FlagWait(f)) == [Who(s)] && t.armed == [f] + s.armed
                  && t.errors == s.errors)
  {
    hide Inv, ParkAt;
    ParkWaits(s, FlagWait(s.phase.f), FlagWait(s.phase.f));
    ParkPhase(s, FlagWait(s.phase.f));
  }

  // ----- the clock, and errors --------------------------------------------------------------------------------

  /** The clock of the scheduler is the last sample. */
  lemma ClockFollows(s: Sys, a: Action)
    requires Inv(s) && Enabled(s, a)
    ensures Step(s, a).core.now == if a.PollBegin? then a.now else s.core.now
    ensures a.PollBegin? ==> Step(s, a).core == s.core.(now := a.now)
  {
    hide Inv;
    if a.PollBegin? {
    } else if a.RunTimers? {
      TimersHistory(s);
    } else {
      hide Step, Enabled;
      StepQuiet(s, a);
    }
  }

  /** What an action reports: these errors, in these cases, and no others. */
  ghost function Reported(s: Sys, a: Action): seq<Error> {
    match a
    case MakeTask(_, exhausted) => if exhausted then [FramePoolExhausted] else []
    case Spawn(t) => if t !in s.frames.tokens then [InvalidTask] else if NoSlot(s.core) then [Error.TaskLimit] else []
    case Reenter(_) => [SchedulerReentry]
    case ParkFlag => if s.phase.Parking? && Waiters(s.core, FlagWait(s.phase.f)) != [] then [MultipleFlagWaiters] else []
    case AwaitTask(t) => if t !in s.frames.tokens then [TaskAwaitedTwice] else if NoSlot(s.core) then [Error.TaskLimit] else []
    case AwaitHeld(h) =>
      if h in s.frames.awaiters && s.frames.awaiters[h] then [TaskAwaitedTwice] else if NoSlot(s.core) then [Error.TaskLimit] else []
    case Delay(d) => if d > 0 && s.core.now + d > UINT64_MAX then [DeadlineOverflow] else []
    case _ => []
  }

  /** The awaits that adopt no child and do not park on a flag. */
  lemma AwaitErrors(s: Sys, a: Action)
    requires Awaits(a) && AwaitEnabled(s, a) && !AwaitsChild(s, a) && !a.ParkFlag?
    requires a.Delay? ==> Who(s) < |s.core.slots|
    ensures AwaitStep(s, a).errors == s.errors + Reported(s, a)
  {
    hide Suspend, EndResume, Park, NoSlot, StartChild, WakeFirst, ArmTimer;
    match a
    case AwaitEvent(e) => ParkPhase(s, EventWait(e));
    case AwaitSend(q) => ParkPhase(s, SendWait(q));
    case AwaitReceive(q) => ParkPhase(s, ReceiveWait(q));
    case Yield => SuspendErrors(s, Requeue(s.core, Who(s)));
    case Opaque => SuspendErrors(s, s.core);
    case Delay(d) => DelayErrors(s, d);
    case _ =>
  }

  lemma DelayErrors(s: Sys, d: nat)
    requires InSlot(s)
    ensures ArmTimer(s.core, Who(s), d).1 <==> d > 0 && s.core.now + d > UINT64_MAX
    ensures Suspend(s, ArmTimer(s.core, Who(s), d).0).errors == s.errors
  {
    hide Suspend;
    SuspendErrors(s, ArmTimer(s.core, Who(s), d).0);
  }

  lemma ErrorsOfAwaits(s: Sys, a: Action)
    requires Inv(s) && Enabled(s, a) && Awaits(a)
    ensures Step(s, a).errors == s.errors + Reported(s, a)
  {
    hide Inv, NoSlot, AwaitStep, SchedulerStep, UserStep;
    if AwaitsChild(s, a) {
      hide Enabled, Step, AwaitEnabled;
      if NoSlot(s.core) {
        AdoptionFails(s, a);
      } else {
        AdoptionSucceeds(s, a);
      }
    } else if a.ParkFlag? {
      ParkFlagIff(s);
    } else {
      AwaitErrors(s, a);
    }
  }

  lemma SchedulerErrors(s: Sys, a: Action)
    requires ByScheduler(a) && SchedulerEnabled(s, a)
    ensures SchedulerStep(s, a).errors == s.errors && Reported(s, a) == []
  {
    hide ProcessDue, BeginResume, WakeFirst;
  }

  lemma UserErrors(s: Sys, a: Action)
    requires !Awaits(a) && !ByScheduler(a) && !ByTokens(a) && UserEnabled(s, a) && !a.Spawn?
    ensures UserStep(s, a).errors == s.errors + Reported(s, a)
  {
    hide WakeAll, WakeFirst;
  }

  lemma TokenErrors(s: Sys, a: Action)
    requires ByTokens(a) && TokenEnabled(s.frames, a)
    ensures UseTokens(s, a).errors == s.errors + Reported(s, a)
  {
    hide TokenStep, TokenEnabled;
  }

  /** Every error is reported exactly when its case arises. */
  lemma ErrorsExact(s: Sys, a: Action)
    requires Inv(s) && Enabled(s, a)
    ensures Step(s, a).errors == s.errors + Reported(s, a)
  {
    hide Inv, NoSlot, AwaitStep, SchedulerStep, UserStep, UseTokens, AwaitEnabled, SchedulerEnabled, UserEnabled, TokenEnabled, Reported;
    if Awaits(a) {
      ErrorsOfAwaits(s, a);
    } else if a.Spawn? {
      SpawnErrors(s, a.t);
    } else if ByScheduler(a) {
      SchedulerErrors(s, a);
    } else if ByTokens(a) {
      TokenErrors(s, a);
    } else {
      UserErrors(s, a);
    }
  }

  lemma SpawnErrors(s: Sys, t: nat)
    requires Enabled(s, Spawn(t))
    ensures Step(s, Spawn(t)).errors == s.errors + Reported(s, Spawn(t))
  {
    hide NoSlot, Enabled, Step;
    SpawnEffect(s, t);
  }

  // ----- Tasks and awaiters as objects -------------------------------------------------------------------------

  /** What `t` owns after an action, if anything. */
  function OwnedBy(fr: Frames, t: nat): Option<nat> { if t in fr.tokens then Some(fr.tokens[t]) else None }

  /** Nothing is made, and exactly the frame that `t` owned, if any, is destroyed. */
  ghost predicate Destroys(fr: Frames, fr': Frames, t: nat) {
    && fr'.made == fr.made
    && (t in fr.tokens ==> fr'.live == fr.live - {fr.tokens[t]} && fr'.destroyed == fr.destroyed + [fr.tokens[t]])
    && (t !in fr.tokens ==> fr'.live == fr.live && fr'.destroyed == fr.destroyed)
  }

  /**
   Who owns what after each operation on Tasks and awaiters, what is destroyed, and what an awaiter notes.
   Every object that the operation does not name owns what it owned.
   */
  lemma TokenEffects(fr: Frames, a: Action)
    requires ByTokens(a) && TokenEnabled(fr, a)
    ensures var fr' := TokenStep(fr, a);
            match a
            case MakeTask(t, exhausted) =>
              if exhausted then fr' == fr
              else
                && OwnedBy(fr', t) == Some(fr.made) && fr'.live == fr.live + {fr.made} && fr'.made == fr.made + 1
                && fr'.destroyed == fr.destroyed && fr'.awaiters == fr.awaiters
                && (forall x :: x != t ==> OwnedBy(fr', x) == OwnedBy(fr, x))
            case MoveTask(src, dst) =>
              if src == dst then fr' == fr
              else
                && OwnedBy(fr', dst) == OwnedBy(fr, src) && OwnedBy(fr', src) == None && Destroys(fr, fr', dst)
                && fr'.awaiters == fr.awaiters && (forall x :: x != src && x != dst ==> OwnedBy(fr', x) == OwnedBy(fr, x))
            case DropTask(t) =>
              && OwnedBy(fr', t) == None && Destroys(fr, fr', t) && fr'.awaiters == fr.awaiters
              && (forall x :: x != t ==> OwnedBy(fr', x) == OwnedBy(fr, x))
            case CoAwait(t, b) =>
              && OwnedBy(fr', b) == OwnedBy(fr, t) && OwnedBy(fr', t) == None && fr'.live == fr.live && fr'.destroyed == fr.destroyed
              && fr'.awaiters == fr.awaiters[b := OwnedBy(fr, t) == None]
              && (forall x :: x != t && x != b ==> OwnedBy(fr', x) == OwnedBy(fr, x))
            case MoveAwaiter(src, dst) =>
              && OwnedBy(fr', dst) == OwnedBy(fr, src) && OwnedBy(fr', src) == None && fr'.live == fr.live && fr'.destroyed == fr.destroyed
              && src in fr.awaiters && fr'.awaiters == fr.awaiters[dst := fr.awaiters[src]]
              && (forall x :: x != src && x != dst ==> OwnedBy(fr', x) == OwnedBy(fr, x))
            case DropAwaiter(b) =>
              && OwnedBy(fr', b) == None && Destroys(fr, fr', b) && b !in fr'.awaiters
              && (forall x :: x != b ==> OwnedBy(fr', x) == OwnedBy(fr, x))
              && (forall x :: x != b && x in fr.awaiters ==> x in fr'.awaiters && fr'.awaiters[x] == fr.awaiters[x])
  {
  }
}
