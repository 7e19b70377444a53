/** Whole runs: what every reachable state satisfies, and what happens over a pass. */
module RuntimeRuns {
  import opened Wrappers
  import opened SchedulerCore
  import opened SchedulerTimers
  import opened SchedulerHandles
  import opened Runtime
  import opened RuntimeInv
  import opened RuntimeQuiet
  import RuntimeSteps
  import RuntimeFrames

  /** A sequence of actions, each enabled when its turn comes. */
  predicate CanRun(s: Sys, acts: seq<Action>)
    decreases |acts|
  {
    acts == [] || (Enabled(s, acts[0]) && CanRun(Step(s, acts[0]), acts[1..]))
  }

  function Run(s: Sys, acts: seq<Action>): Sys
    requires CanRun(s, acts)
    decreases |acts|
  {
    if acts == [] then s else Run(Step(s, acts[0]), acts[1..])
  }

  lemma {:induction false} RunKeepsInv(s: Sys, acts: seq<Action>)
    requires Inv(s) && CanRun(s, acts)
    ensures Inv(Run(s, acts))
    decreases |acts|
  {
    hide Inv, Enabled, Step;
    if acts != [] {
      RuntimeSteps.StepKeepsInv(s, acts[0]);
      RunKeepsInv(Step(s, acts[0]), acts[1..]);
    }
  }

  lemma StartInv(n: nat, events: nat, capacities: seq<nat>, flags: nat)
    requires forall q :: 0 <= q < |capacities| ==> capacities[q] > 0
    ensures Inv(Start(n, events, capacities, flags))
  {
    hide CoreInv;
    var s := Start(n, events, capacities, flags);
    InitInv(n);
    assert forall i :: 0 <= i < n ==> s.core.slots[i] == Slot(None, None, 0, 0, Free);
    assert forall p :: WaitersIn(s.core.waits, p) == [];
    assert forall f :: !Signaled(s.phase, s.armed, s.shared, f);
    assert forall o, f: nat :: !Owns(s.core.slots, s.frames.tokens, o, f);
  }

  /**
   Every state of every run from the start satisfies the global invariant: the partition of the
   slots over the ready FIFO and the wait places, well-founded parents, exact handles, the promises
   of the flags and of the semaphore, and single ownership of frames.
   */
  lemma EveryRun(n: nat, events: nat, capacities: seq<nat>, flags: nat, acts: seq<Action>)
    requires forall q :: 0 <= q < |capacities| ==> capacities[q] > 0
    requires CanRun(Start(n, events, capacities, flags), acts)
    ensures Inv(Run(Start(n, events, capacities, flags), acts))
  {
    hide Inv, Start;
    StartInv(n, events, capacities, flags);
    RunKeepsInv(Start(n, events, capacities, flags), acts);
  }

  // ----- what the invariant says ---------------------------------------------------------------------

  /** The occurrences of a slot over all FIFOs: exactly one place for a waiting or ready task. */
  lemma OnePlaceEach(s: Sys, i: nat)
    requires Inv(s) && i < |s.core.slots|
    ensures s.core.slots[i].state == Ready <==> i in s.core.ready
    ensures s.core.slots[i].state == WaitingLocal <==> exists p :: Parked(s.core.waits, p, i)
    ensures forall p, p' :: Parked(s.core.waits, p, i) && Parked(s.core.waits, p', i) ==> p == p'
    ensures Distinct(s.core.ready) && forall p :: p in s.core.waits ==> Distinct(s.core.waits[p])
    ensures s.core.active == Count(s.core.slots, Active)
  {
    hide HandleInv, PhaseInv, ObjectsInv, ArmedInv, SignalInv, TokenInv, FramesInv, ParentInv, TimerInv;
  }

  /** So it is in every state of every run. */
  lemma OnePlaceInEveryRun(n: nat, events: nat, capacities: seq<nat>, flags: nat, acts: seq<Action>, i: nat)
    requires forall q :: 0 <= q < |capacities| ==> capacities[q] > 0
    requires CanRun(Start(n, events, capacities, flags), acts)
    requires i < |Run(Start(n, events, capacities, flags), acts).core.slots|
    ensures var c := Run(Start(n, events, capacities, flags), acts).core;
            && (c.slots[i].state == Ready <==> i in c.ready)
            && (c.slots[i].state == WaitingLocal <==> exists p :: Parked(c.waits, p, i))
            && (forall p, p' :: Parked(c.waits, p, i) && Parked(c.waits, p', i) ==> p == p')
            && Distinct(c.ready) && (forall p :: p in c.waits ==> Distinct(c.waits[p]))
            && c.active == Count(c.slots, Active)
  {
    hide Inv, CanRun, Run, Start, Distinct, Parked;
    EveryRun(n, events, capacities, flags, acts);
    OnePlaceEach(Run(Start(n, events, capacities, flags), acts), i);
  }

  /**
   With no owning Task or awaiter and no active task every frame is destroyed, each exactly once:
   the frame pool is empty.
   */
  lemma PoolEmpties(s: Sys)
    requires Inv(s) && s.frames.tokens == map[] && s.core.active == 0
    ensures s.frames.live == {} && Distinct(s.frames.destroyed)
    ensures forall f :: f in s.frames.destroyed <==> 0 <= f < s.frames.made
  {
    hide HandleInv, PhaseInv, ObjectsInv, ArmedInv, SignalInv, TokenInv, ReadyInv, WaitInv, TimerInv, ParentInv;
    RuntimeFrames.NothingLeft(s.core.slots, s.frames);
  }

  /**
   No missed idle wake: at the semaphore take, if some flag with a waiter is signaled, a token is
   there or a setter is about to give one. And the plain one-tick delay is never chosen while a
   flag has a waiter and the pass belongs to `poll_and_wait`.
   */
  lemma IdleWaitIsSafe(s: Sys, f: nat)
    requires Inv(s) && f in s.armed
    ensures s.phase.WaitTake? && s.shared.signaled[f] ==> Announced(s.shared)
    ensures s.phase.WaitCheck? && s.core.ready == [] && s.core.nearest == UINT64_MAX ==>
              forall expired :: Step(s, DecideWait(expired)).phase.WaitTake?
  {
    hide Good, PhaseInv, ObjectsInv, FramesInv;
    assert f < |s.shared.signaled|;
    assert s.phase.WaitTake? && s.shared.signaled[f] ==> Signaled(s.phase, s.armed, s.shared, f) && Settled(s.phase, f);
  }

  // ----- histories over a run --------------------------------------------------------------------------

  predicate NoTimers(acts: seq<Action>) { forall k :: 0 <= k < |acts| ==> !acts[k].RunTimers? }

  lemma TimersHistory(s: Sys)
    requires Inv(s) && Enabled(s, RunTimers)
    ensures var t := Step(s, RunTimers); s.core.log <= t.core.log && t.core.resumed == s.core.resumed && t.core.now == s.core.now
  {
    hide Inv;
    WakeDueFifos(s.core);
  }

  lemma {:induction false} RunHistory(s: Sys, acts: seq<Action>)
    requires Inv(s) && CanRun(s, acts) && NoTimers(acts)
    ensures var t := Run(s, acts); s.core.log <= t.core.log && s.core.resumed <= t.core.resumed && t.mark == s.mark
    decreases |acts|
  {
    hide Inv, Enabled, Step, DormantUntouched;
    if acts != [] {
      assert !acts[0].RunTimers?;
      StepQuiet(s, acts[0]);
      RuntimeSteps.StepKeepsInv(s, acts[0]);
      assert forall k :: 0 <= k < |acts[1..]| ==> acts[1..][k] == acts[k + 1];
      RunHistory(Step(s, acts[0]), acts[1..]);
    }
  }

  lemma FifoFacts(s: Sys)
    requires Inv(s)
    ensures s.core.resumed + s.core.ready == s.core.log
    ensures s.phase.Pass? || s.phase.Body? || s.phase.Parking? ==> |s.core.resumed| + s.phase.left == s.mark <= |s.core.log|
  {
    hide HandleInv, ObjectsInv, ArmedInv, SignalInv, TokenInv, FramesInv, ReadyInv, WaitInv, TimerInv, StableInv, CurrentInv;
  }

  /**
   The bounded fair pass. Whatever the resumed coroutines and the other contexts do, from the
   snapshot to the end of the pass exactly the slots that were ready are resumed, in FIFO order and
   once each, and the new ready FIFO is exactly what was pushed during the pass, in push order.
   */
  lemma BoundedFairPass(s: Sys, acts: seq<Action>)
    requires Inv(s) && s.phase == Pass(|s.core.ready|) && s.mark == |s.core.log|
    requires CanRun(s, acts) && NoTimers(acts) && Run(s, acts).phase == Pass(0)
    ensures var t := Run(s, acts);
            && t.core.resumed == s.core.resumed + s.core.ready
            && s.core.log <= t.core.log && t.core.ready == t.core.log[|s.core.log|..]
            && Distinct(s.core.ready)
  {
    hide CanRun, Run, CoreInv, PhaseInv, ObjectsInv, ArmedInv, SignalInv, TokenInv, FramesInv, IssuedInv, FinishedInv;
    var t := Run(s, acts);
    RunKeepsInv(s, acts);
    RunHistory(s, acts);
    FifoFacts(s);
    FifoFacts(t);
    ReadyDistinct(s.core);
    assert t.core.resumed == t.core.log[..s.mark] == s.core.log;
  }

  lemma ReadyDistinct(c: Core)
    requires CoreInv(c)
    ensures Distinct(c.ready)
  {
    hide WaitInv, TimerInv, StableInv, CurrentInv;
  }
}
