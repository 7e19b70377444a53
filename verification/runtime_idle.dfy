/**
 The idle wait of `poll_and_wait`: when it is reached, when it waits, and that it ends. It never waits
 while a task is ready, nor without anything that can end the wait.
 */
module RuntimeIdle {
  import opened SchedulerCore
  import opened SchedulerHandles
  import opened SchedulerTimers
  import opened Runtime
  import opened RuntimeInv
  import opened RuntimeRuns
  import opened RuntimeShared

  // ----- the semaphore and the debts to it -----------------------------------------------------------------

  /** What an action does to the part of the shared state that is not the signals. */
  ghost predicate Follows(h: Shared, h': Shared, a: Action) {
    && (h'.token <==> (h.token && a != Take) || (a == Give && h.prepared))
    && (h'.prepared <==> h.prepared || (a.PollBegin? && a.wait) || (a.Reenter? && a.wait))
    && (h'.pending <==> a.SetFlag? || (h.pending && a != CheckPending))
    && (a.SetFlag? ==> a.f < |h.signaled|) && (a == Give ==> h.gives > 0)
    && h'.gives == (if a.SetFlag? && !h.signaled[a.f] then h.gives + 1 else if a == Give then h.gives - 1 else h.gives)
  }

  /**
   The token comes from a give to a semaphore that is there, and goes with a take. The semaphore is made
   by the first `poll_and_wait` and stays. The pending mark comes with every `set()` and goes with the test
   at the start of a scan. A set owes a give exactly when the flag was unset, and each give pays one.
   */
  lemma SharedFollows(s: Sys, a: Action)
    requires Enabled(s, a)
    ensures Follows(s.shared, Step(s, a).shared, a)
  {
    hide Enabled, Step;
    if a.TestFlag? {
      TestSignals(s);
    } else if TouchesShared(a) {
      SharedTouched(s, a);
    } else {
      SharedStays(s, a);
    }
  }

  /** Gives that are owed: one for each time that some flag was raised, less those made. */
  function Owed(s: Sys, acts: seq<Action>): int
    requires CanRun(s, acts)
    decreases |acts|
  {
    if acts == [] then 0
    else
      var a := acts[0];
      (if a.SetFlag? && a.f < |s.shared.signaled| && !s.shared.signaled[a.f] then 1 else if a == Give then -1 else 0)
      + Owed(Step(s, a), acts[1..])
  }

  lemma {:induction false} GivesConserved(s: Sys, acts: seq<Action>)
    requires CanRun(s, acts)
    ensures Run(s, acts).shared.gives == s.shared.gives + Owed(s, acts)
    decreases |acts|
  {
    hide Enabled, Step;
    if acts != [] {
      SharedFollows(s, acts[0]);
      GivesConserved(Step(s, acts[0]), acts[1..]);
    }
  }

  /** A scan is run exactly when the mark is pending, over all armed flags. */
  lemma ScansIff(s: Sys)
    requires Enabled(s, CheckPending)
    ensures Step(s, CheckPending).phase == if s.shared.pending then Scan([], s.armed) else Timers
  {
  }

  // ----- reaching the wait -----------------------------------------------------------------------------------

  /** Whether the pass belongs to `poll_and_wait` is settled when it begins. */
  lemma WaitingFollows(s: Sys, a: Action)
    requires Enabled(s, a)
    ensures Step(s, a).waiting == if a.PollBegin? then a.wait else s.waiting
  {
    hide TokenStep, TokenEnabled, Schedule, WakeAll, WakeFirst, EndResume, Park, StartChild, ArmTimer, BeginResume, ProcessDue;
  }

  lemma {:induction false} WaitingRun(s: Sys, acts: seq<Action>)
    requires CanRun(s, acts) && forall k :: 0 <= k < |acts| ==> !acts[k].PollBegin?
    ensures Run(s, acts).waiting == s.waiting
    decreases |acts|
  {
    hide Enabled, Step;
    if acts != [] {
      WaitingFollows(s, acts[0]);
      assert forall k :: 0 <= k < |acts[1..]| ==> acts[1..][k] == acts[k + 1];
      WaitingRun(Step(s, acts[0]), acts[1..]);
    }
  }

  /** A complete pass of `poll_and_wait` comes to the decision whether to wait; one of `poll` is over. */
  lemma PassDecides(s: Sys, a: Action, pass: seq<Action>)
    requires Enabled(s, a) && a.PollBegin? && CanRun(Step(s, a), pass)
    requires forall k :: 0 <= k < |pass| ==> !pass[k].PollBegin?
    requires Run(Step(s, a), pass).phase == Pass(0)
    ensures var u := Run(Step(s, a), pass);
            Enabled(u, PassEnd) && Step(u, PassEnd).phase == if a.wait then WaitCheck else Idle
  {
    hide CanRun, Run;
    WaitingFollows(s, a);
    WaitingRun(Step(s, a), pass);
  }

  /**
   The wait is entered exactly when no task is ready and there is something to wait for: a timer that
   has not expired meanwhile, or, without any timer, a flag with a waiter.
   */
  lemma DecidesIff(s: Sys, expired: bool)
    requires Inv(s) && s.phase.WaitCheck?
    ensures Enabled(s, DecideWait(expired))
    ensures Step(s, DecideWait(expired)).phase ==
            if s.core.ready == [] && (if s.core.nearest != UINT64_MAX then !expired else s.armed != []) then WaitTake else Idle
  {
    hide Good, PhaseInv, ObjectsInv, ArmedInv, SignalInv, FramesInv;
  }

  lemma AtTake(s: Sys)
    requires Inv(s) && s.phase.WaitTake?
    ensures s.core.ready == [] && (s.core.nearest != UINT64_MAX || s.armed != []) && s.shared.prepared
  {
    hide Good, ObjectsInv, ArmedInv, SignalInv, FramesInv;
  }

  /** Over every run: whoever waits on the semaphore leaves no ready task behind, and something can end the wait. */
  lemma NeverWaitsWithWork(n: nat, events: nat, capacities: seq<nat>, flags: nat, acts: seq<Action>)
    requires forall q :: 0 <= q < |capacities| ==> capacities[q] > 0
    requires CanRun(Start(n, events, capacities, flags), acts)
    requires Run(Start(n, events, capacities, flags), acts).phase.WaitTake?
    ensures var s := Run(Start(n, events, capacities, flags), acts);
            s.core.ready == [] && (s.core.nearest != UINT64_MAX || s.armed != []) && s.shared.prepared
  {
    hide Inv, CanRun, Run, Start;
    EveryRun(n, events, capacities, flags, acts);
    AtTake(Run(Start(n, events, capacities, flags), acts));
  }

  // ----- leaving the wait --------------------------------------------------------------------------------------

  /** The wait ends by a token or, with a timer, by its timeout, and in no other way. */
  lemma TakesIff(s: Sys)
    requires s.phase.WaitTake?
    ensures Enabled(s, Take) <==> s.shared.token || s.core.nearest != UINT64_MAX
    ensures Enabled(s, Take) ==> Step(s, Take).phase.Idle? && !Step(s, Take).shared.token && Step(s, Take).core == s.core
    ensures forall a :: Enabled(s, a) && a != Take ==> Step(s, a).phase.WaitTake? && Step(s, a).core == s.core
  {
    forall a | Enabled(s, a) && a != Take
      ensures Step(s, a).phase.WaitTake? && Step(s, a).core == s.core
    {
      assert a.SetFlag? || a.Give?;
    }
  }

  /** A wait with a signaled armed flag ends: now, or after the give of a setter that is about to come. */
  lemma SignalEndsWait(s: Sys, f: nat)
    requires Inv(s) && s.phase.WaitTake? && f in s.armed && f < |s.shared.signaled| && s.shared.signaled[f]
    ensures Enabled(s, Take) || (Enabled(s, Give) && Enabled(Step(s, Give), Take))
  {
    hide Inv;
    IdleWaitIsSafe(s, f);
    AtTake(s);
  }

  /** And a `set()` of an unset flag during the wait makes the give that ends it. */
  lemma SetEndsWait(s: Sys, f: nat)
    requires Inv(s) && s.phase.WaitTake? && Enabled(s, SetFlag(f)) && !s.shared.signaled[f]
    ensures var t := Step(s, SetFlag(f)); Enabled(t, Give) && Enabled(Step(t, Give), Take)
  {
    hide Inv;
    AtTake(s);
  }
}
