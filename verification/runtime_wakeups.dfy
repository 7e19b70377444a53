/**
 A `set()` is not lost, from the set to the resume: what becomes of a signal, who can take it, and that
 it resumes the waiter in the first whole pass that follows unless somebody else takes it before.
 */
module RuntimeWakeups {
  import opened Wrappers
  import opened SchedulerCore
  import opened SchedulerHandles
  import opened Runtime
  import opened RuntimeInv
  import opened RuntimeQuiet
  import opened RuntimeRuns
  import opened RuntimePlaces
  import opened RuntimeShared
  import opened RuntimePasses
  import RuntimeSteps

  // ----- the signal of one flag ------------------------------------------------------------------------

  /** User code takes the signal away, by `clear()` or by an await that finds it. */
  predicate UserTakes(a: Action, f: nat) { a == ClearFlag(f) || a == AwaitFlag(f) }

  /** The scan takes the signal away, for the waiter. */
  predicate ScanTakes(s: Sys, a: Action, f: nat) {
    && a.TestFlag? && s.phase.Scan? && s.phase.rest != [] && s.phase.rest[0] == f
    && Waiters(s.core, FlagWait(f)) != [] && f < |s.shared.signaled| && s.shared.signaled[f]
  }

  /** A set makes the signal, only a clear, a consuming await or the scan unmakes it. */
  lemma SignalFollows(s: Sys, a: Action, f: nat)
    requires Enabled(s, a) && f < |s.shared.signaled|
    ensures var t := Step(s, a);
            && |t.shared.signaled| == |s.shared.signaled|
            && (t.shared.signaled[f] <==> a == SetFlag(f) || (s.shared.signaled[f] && !UserTakes(a, f) && !ScanTakes(s, a, f)))
  {
    hide Enabled, Step, UserTakes, ScanTakes;
    if a.TestFlag? {
      AtTest(s, f);
    } else if TouchesShared(a) {
      AtTouch(s, a, f);
    } else {
      SharedStays(s, a);
      NotTaken(s, a, f);
    }
  }

  lemma NotTaken(s: Sys, a: Action, f: nat)
    requires !TouchesShared(a)
    ensures !UserTakes(a, f) && !ScanTakes(s, a, f) && a != SetFlag(f)
  {
  }

  lemma AtTest(s: Sys, f: nat)
    requires Enabled(s, TestFlag) && f < |s.shared.signaled|
    ensures var t := Step(s, TestFlag);
            && |t.shared.signaled| == |s.shared.signaled| && !UserTakes(TestFlag, f)
            && (t.shared.signaled[f] <==> s.shared.signaled[f] && !ScanTakes(s, TestFlag, f))
  {
    TestNeedsScan(s, TestFlag);
    TestSignals(s);
    hide Enabled, Step;
  }

  lemma AtTouch(s: Sys, a: Action, f: nat)
    requires Enabled(s, a) && TouchesShared(a) && !a.TestFlag? && f < |s.shared.signaled|
    ensures var t := Step(s, a);
            && |t.shared.signaled| == |s.shared.signaled| && !ScanTakes(s, a, f)
            && (t.shared.signaled[f] <==> a == SetFlag(f) || (s.shared.signaled[f] && !UserTakes(a, f)))
  {
    hide Enabled, Step;
    SharedTouched(s, a);
  }

  lemma TestNeedsScan(s: Sys, a: Action)
    requires Enabled(s, a)
    ensures a.TestFlag? ==> s.phase.Scan? && (s.phase.rest != [] ==> s.phase.rest[0] < |s.shared.signaled|)
    ensures a.MoveFlag? ==> s.phase.Tested? && s.phase.rest != []
  {
  }

  function One(b: bool): nat { if b then 1 else 0 }

  /** How often the flag went from unset to set in a run, and how often its signal was taken. */
  function Raised(s: Sys, acts: seq<Action>, f: nat): nat
    requires CanRun(s, acts) && f < |s.shared.signaled|
    decreases |acts|
  {
    if acts == [] then 0
    else
      SignalFollows(s, acts[0], f);
      One(acts[0] == SetFlag(f) && !s.shared.signaled[f]) + Raised(Step(s, acts[0]), acts[1..], f)
  }

  function Taken(s: Sys, acts: seq<Action>, f: nat): nat
    requires CanRun(s, acts) && f < |s.shared.signaled|
    decreases |acts|
  {
    if acts == [] then 0
    else
      SignalFollows(s, acts[0], f);
      One(s.shared.signaled[f] && (UserTakes(acts[0], f) || ScanTakes(s, acts[0], f))) + Taken(Step(s, acts[0]), acts[1..], f)
  }

  /** Signals are conserved: each is made by a set of an unset flag and taken once, or still there. */
  lemma {:induction false} SignalsConserved(s: Sys, acts: seq<Action>, f: nat)
    requires CanRun(s, acts) && f < |s.shared.signaled|
    ensures |Run(s, acts).shared.signaled| == |s.shared.signaled|
    ensures One(s.shared.signaled[f]) + Raised(s, acts, f) == Taken(s, acts, f) + One(Run(s, acts).shared.signaled[f])
    decreases |acts|
  {
    hide Enabled, Step;
    if acts != [] {
      SignalFollows(s, acts[0], f);
      SignalsConserved(Step(s, acts[0]), acts[1..], f);
    }
  }

  /** The flag is tested and its waiter about to be woken. */
  predicate Waking(s: Sys, f: nat) { s.phase.Tested? && s.phase.rest != [] && s.phase.rest[0] == f && s.phase.wake }

  function ScanTaken(s: Sys, acts: seq<Action>, f: nat): nat
    requires CanRun(s, acts)
    decreases |acts|
  {
    if acts == [] then 0 else One(ScanTakes(s, acts[0], f)) + ScanTaken(Step(s, acts[0]), acts[1..], f)
  }

  /** How often the scan woke the waiter of the flag. */
  function Woken(s: Sys, acts: seq<Action>, f: nat): nat
    requires CanRun(s, acts)
    decreases |acts|
  {
    if acts == [] then 0 else One(Waking(s, f) && acts[0].MoveFlag?) + Woken(Step(s, acts[0]), acts[1..], f)
  }

  lemma WakingFollows(s: Sys, a: Action, f: nat)
    requires Enabled(s, a)
    ensures Waking(Step(s, a), f) <==> ScanTakes(s, a, f) || (Waking(s, f) && !a.MoveFlag?)
  {
    hide Enabled, Step;
    TestedFollows(s, a);
    TestNeedsScan(s, a);
    if a.TestFlag? {
      TestSignals(s);
    }
  }

  /** Auto-reset: the scan wakes once for each signal that it takes. */
  lemma {:induction false} OneWakeEach(s: Sys, acts: seq<Action>, f: nat)
    requires CanRun(s, acts)
    ensures One(Waking(s, f)) + ScanTaken(s, acts, f) == Woken(s, acts, f) + One(Waking(Run(s, acts), f))
    decreases |acts|
  {
    hide Enabled, Step;
    if acts != [] {
      WakingFollows(s, acts[0], f);
      WakingOnly(s, acts[0], f);
      hide ScanTakes, Waking;
      OneWakeEach(Step(s, acts[0]), acts[1..], f);
    }
  }

  lemma WakingOnly(s: Sys, a: Action, f: nat)
    requires Enabled(s, a)
    ensures !(Waking(s, f) && ScanTakes(s, a, f))
  {
  }

  // ----- a waiting task and its signal ------------------------------------------------------------------

  /** `w` is parked on the flag, or runs and is about to be. */
  predicate WaitsOn(s: Sys, f: nat, w: nat) {
    || Waiters(s.core, FlagWait(f)) == [w]
    || (s.phase.Parking? && s.phase.f == f && s.core.current == Some(w) && Waiters(s.core, FlagWait(f)) == [])
  }

  /** The wait of `w` will end: its signal is there, or was just taken for it. */
  predicate Awaited(s: Sys, f: nat, w: nat) {
    f < |s.shared.signaled| && WaitsOn(s, f, w) && (s.shared.signaled[f] || (Waking(s, f) && Waiters(s.core, FlagWait(f)) == [w]))
  }

  /** The wait of `w` goes on: there is no signal, and none was taken for it. */
  predicate Stranded(s: Sys, f: nat, w: nat) {
    f < |s.shared.signaled| && Waiters(s.core, FlagWait(f)) == [w] && !s.shared.signaled[f] && !Waking(s, f)
  }

  /** Somebody else takes the signal that `w` is due to get. */
  predicate Steals(s: Sys, a: Action, f: nat, w: nat) { UserTakes(a, f) && Waiters(s.core, FlagWait(f)) == [w] }

  predicate Stolen(s: Sys, acts: seq<Action>, f: nat, w: nat)
    requires CanRun(s, acts)
    decreases |acts|
  {
    acts != [] && ((Steals(s, acts[0], f, w) && Awaited(s, f, w)) || Stolen(Step(s, acts[0]), acts[1..], f, w))
  }

  /** Of the flag's own place: parking in a Parking phase, leaving by the move of the scan, nothing else. */
  lemma PlaceOfFlag(s: Sys, a: Action, f: nat, w: nat)
    requires Inv(s) && Enabled(s, a) && WaitsOn(s, f, w)
    ensures var t := Step(s, a);
            if a.MoveFlag? && Waking(s, f) then t.core.log == s.core.log + [w]
            else
              && WaitsOn(t, f, w) && (a.ParkFlag? && s.phase.f == f ==> Waiters(t.core, FlagWait(f)) == [w])
              && (Waiters(s.core, FlagWait(f)) == [w] ==> Waiters(t.core, FlagWait(f)) == [w])
  {
    hide Inv;
    if a.ParkFlag? && s.phase.f == f {
      hide Suspend;
      SuspendWaits(s, Park(s.core, Who(s), FlagWait(f)));
    } else if a.MoveFlag? && s.phase.rest[0] == f {
      hide Enabled;
    } else {
      hide Enabled, Step;
      PlaceStays(s, a, FlagWait(f));
      if Waiters(s.core, FlagWait(f)) != [w] {
        ParkingOnly(s, a);
      }
    }
  }

  lemma ParkingOnly(s: Sys, a: Action)
    requires Enabled(s, a) && s.phase.Parking? && !a.ParkFlag?
    ensures (a.SetFlag? || a.Give?) && Step(s, a).phase == s.phase && Step(s, a).core == s.core
  {
    hide TokenStep, TokenEnabled;
  }

  /** One action: the wait is still due to end, or `w` is on the ready FIFO, or the signal was stolen. */
  lemma AwaitedStep(s: Sys, a: Action, f: nat, w: nat)
    requires Inv(s) && Enabled(s, a) && Awaited(s, f, w)
    ensures var t := Step(s, a);
            if Steals(s, a, f, w) then Stranded(t, f, w)
            else Awaited(t, f, w) || t.core.log == s.core.log + [w]
  {
    hide Inv, Enabled, Step;
    SignalFollows(s, a, f);
    WakingFollows(s, a, f);
    PlaceOfFlag(s, a, f, w);
    if UserTakes(a, f) {
      UserPhase(s, a, f);
    }
  }

  lemma UserPhase(s: Sys, a: Action, f: nat)
    requires Enabled(s, a) && UserTakes(a, f)
    ensures !s.phase.Parking? && !s.phase.Tested?
  {
  }

  // ----- runs --------------------------------------------------------------------------------------------

  lemma {:induction false} AnyGrows(s: Sys, acts: seq<Action>)
    requires Inv(s) && CanRun(s, acts)
    ensures s.core.log <= Run(s, acts).core.log && s.core.resumed <= Run(s, acts).core.resumed
    decreases |acts|
  {
    hide Inv, Enabled, Step, DormantUntouched;
    if acts != [] {
      if acts[0].RunTimers? {
        TimersHistory(s);
      } else {
        StepQuiet(s, acts[0]);
      }
      RuntimeSteps.StepKeepsInv(s, acts[0]);
      AnyGrows(Step(s, acts[0]), acts[1..]);
    }
  }

  /** `w` was put on the ready FIFO after the first `base` pushes. */
  ghost predicate Queued(s: Sys, w: nat, base: nat) { Logged(s.core, w, base, |s.core.log|) }

  lemma QueuedRun(s: Sys, acts: seq<Action>, w: nat, base: nat)
    requires Inv(s) && CanRun(s, acts) && Queued(s, w, base)
    ensures Queued(Run(s, acts), w, base)
  {
    hide Inv, CanRun, Run, Logged;
    AnyGrows(s, acts);
    LoggedGrows(s.core, Run(s, acts).core, w, base, |s.core.log|, |Run(s, acts).core.log|);
  }

  lemma JustQueued(c: Core, d: Core, w: nat, base: nat)
    requires d.log == c.log + [w] && base <= |c.log|
    ensures Logged(d, w, base, |d.log|)
  {
    assert d.log[|c.log|] == w;
  }

  /** Unless the signal is stolen, a due wait stays due or `w` is put on the ready FIFO. */
  lemma {:induction false} AwaitedRun(s: Sys, acts: seq<Action>, f: nat, w: nat, base: nat)
    requires Inv(s) && CanRun(s, acts) && Awaited(s, f, w) && !Stolen(s, acts, f, w) && base <= |s.core.log|
    ensures Awaited(Run(s, acts), f, w) || Queued(Run(s, acts), w, base)
    decreases |acts|
  {
    hide Inv, Enabled, Step, Awaited, Steals;
    if acts != [] {
      var t := Step(s, acts[0]);
      AwaitedStep(s, acts[0], f, w);
      RuntimeSteps.StepKeepsInv(s, acts[0]);
      OneGrows(s, acts[0]);
      if Awaited(t, f, w) {
        AwaitedRun(t, acts[1..], f, w, base);
      } else {
        JustQueued(s.core, t.core, w, base);
        QueuedRun(t, acts[1..], w, base);
      }
    }
  }

  lemma OneGrows(s: Sys, a: Action)
    requires Inv(s) && Enabled(s, a)
    ensures |s.core.log| <= |Step(s, a).core.log|
  {
    hide Inv, Step, DormantUntouched;
    if a.RunTimers? {
      TimersHistory(s);
    } else {
      StepQuiet(s, a);
    }
  }

  lemma AwaitedIsDue(s: Sys, f: nat, w: nat)
    requires Inv(s) && Awaited(s, f, w) && s.phase.Idle?
    ensures Due1(s, f, w)
  {
    hide Good, PhaseInv, ObjectsInv, SignalInv, TokenInv, FramesInv;
  }

  lemma BeginKeepsDue(s: Sys, a: Action, f: nat, w: nat, base: nat)
    requires Enabled(s, a) && a.PollBegin? && (Due1(s, f, w) || Queued(s, w, base))
    ensures var t := Step(s, a); BeforePass(t.phase) && WillWake(t, f, w, base) && t.core.log == s.core.log && t.core.resumed == s.core.resumed
  {
    hide Logged;
    assert Queued(s, w, base) ==> Logged(Step(s, a).core, w, base, |Step(s, a).core.log|) by {
      if Queued(s, w, base) {
        LoggedGrows(s.core, Step(s, a).core, w, base, |s.core.log|, |s.core.log|);
      }
    }
  }

  /** From the start of a poll to the end of its pass. */
  lemma PollResumes(s: Sys, poll: seq<Action>, f: nat, w: nat, base: nat)
    requires Inv(s) && (Due1(s, f, w) || Queued(s, w, base)) && base <= |s.core.log|
    requires poll != [] && poll[0].PollBegin? && CanRun(s, poll) && SamePass(poll) && Run(s, poll).phase == Pass(0)
    ensures ResumedSince(Run(s, poll), base, w)
  {
    hide Inv, Enabled, Step, InThisPass, WillWake, Due1, Queued, ResumedSince;
    BeginKeepsDue(s, poll[0], f, w, base);
    var t := Step(s, poll[0]);
    RuntimeSteps.StepKeepsInv(s, poll[0]);
    assert forall k :: 0 <= k < |poll[1..]| ==> poll[1..][k] == poll[k + 1];
    SignalPromise(t, poll[1..], f, w, base);
    RunKeepsInv(t, poll[1..]);
    PromiseKept(Run(t, poll[1..]), w, base);
  }

  lemma SetMakesDue(s: Sys, f: nat, w: nat)
    requires Enabled(s, SetFlag(f)) && WaitsOn(s, f, w)
    ensures Awaited(Step(s, SetFlag(f)), f, w) && Step(s, SetFlag(f)).core == s.core
    ensures !Waking(s, f) ==> Exact(Step(s, SetFlag(f)), f, w)
  {
  }

  lemma ResumedStays(s: Sys, acts: seq<Action>, w: nat, base: nat)
    requires Inv(s) && CanRun(s, acts) && ResumedSince(s, base, w)
    ensures ResumedSince(Run(s, acts), base, w)
  {
    hide Inv, CanRun, Run;
    AnyGrows(s, acts);
    var t := Run(s, acts);
    var k :| 0 <= k < |s.core.resumed[base..]| && s.core.resumed[base..][k] == w;
    assert t.core.resumed[base..][k] == w;
  }

  /**
   No lost wake-up, from the `set()` to the resume. A task waits on a flag, or is between the failed
   consume and the park; `set()` comes in whatever state the scheduler is. Then, whatever happens before
   and after, the task is resumed by the end of any later whole pass, unless the user took the signal
   away from it: by `clear()`, or by another await of the flag, which takes it without an error.
   */
  lemma SetResumesWaiter(s: Sys, f: nat, w: nat, before: seq<Action>, poll: seq<Action>, after: seq<Action>)
    requires Inv(s) && Enabled(s, SetFlag(f)) && WaitsOn(s, f, w)
    requires CanRun(Step(s, SetFlag(f)), before) && !Stolen(Step(s, SetFlag(f)), before, f, w)
    requires var u := Run(Step(s, SetFlag(f)), before);
             u.phase.Idle? && poll != [] && poll[0].PollBegin? && CanRun(u, poll) && SamePass(poll) && Run(u, poll).phase == Pass(0)
    requires CanRun(Run(Run(Step(s, SetFlag(f)), before), poll), after)
    ensures ResumedSince(Run(Run(Run(Step(s, SetFlag(f)), before), poll), after), |s.core.log|, w)
  {
    hide Inv, Enabled, Step, CanRun, Run, SamePass, Awaited, Due1, Queued, Stolen, WaitsOn, Waking, Exact, ResumedSince;
    SetMakesDue(s, f, w);
    var t := Step(s, SetFlag(f));
    RuntimeSteps.StepKeepsInv(s, SetFlag(f));
    AwaitedRun(t, before, f, w, |s.core.log|);
    RunKeepsInv(t, before);
    AnyGrows(t, before);
    var u := Run(t, before);
    if Awaited(u, f, w) {
      AwaitedIsDue(u, f, w);
    }
    PollResumes(u, poll, f, w, |s.core.log|);
    RunKeepsInv(u, poll);
    ResumedStays(Run(u, poll), after, w, |s.core.log|);
  }

  // ----- the exact condition -------------------------------------------------------------------------------

  predicate NoSet(acts: seq<Action>, f: nat) { forall k :: 0 <= k < |acts| ==> acts[k] != SetFlag(f) }

  /** Since `base` was resumed, `w` was not. */
  predicate NotYet(s: Sys, w: nat, base: seq<nat>) { base <= s.core.resumed && w !in s.core.resumed[|base|..] }

  lemma WaiterUnready(s: Sys, f: nat, w: nat)
    requires Inv(s) && WaitsOn(s, f, w)
    ensures w < |s.core.slots| && s.core.slots[w].state != Ready
  {
    hide HandleInv, ObjectsInv, ArmedInv, SignalInv, TokenInv, FramesInv, ReadyInv, StableInv, CurrentInv, TimerInv;
    if Waiters(s.core, FlagWait(f)) == [w] {
      WaitHead(s.core.slots, s.core.waits, FlagWait(f));
    }
  }

  lemma NotYetStep(s: Sys, a: Action, f: nat, w: nat, base: seq<nat>)
    requires Inv(s) && Enabled(s, a) && WaitsOn(s, f, w) && NotYet(s, w, base)
    ensures NotYet(Step(s, a), w, base)
  {
    hide Inv, Enabled, Step, WaitsOn;
    WaiterUnready(s, f, w);
    UnreadyNotResumed(s, a, w);
    NotAppended(base, s.core.resumed, Step(s, a).core.resumed, w);
  }

  lemma StrandedStep(s: Sys, a: Action, f: nat, w: nat)
    requires Inv(s) && Enabled(s, a) && Stranded(s, f, w) && a != SetFlag(f)
    ensures Stranded(Step(s, a), f, w)
  {
    hide Inv, Enabled, Step;
    SignalFollows(s, a, f);
    WakingFollows(s, a, f);
    PlaceOfFlag(s, a, f, w);
  }

  /** Without a signal nobody is woken: no spurious wake-up. */
  lemma {:induction false} StrandedRun(s: Sys, acts: seq<Action>, f: nat, w: nat, base: seq<nat>)
    requires Inv(s) && CanRun(s, acts) && Stranded(s, f, w) && NoSet(acts, f) && NotYet(s, w, base)
    ensures Stranded(Run(s, acts), f, w) && NotYet(Run(s, acts), w, base)
    decreases |acts|
  {
    hide Inv, Enabled, Step, NotYet, Waking;
    if acts != [] {
      StrandedStep(s, acts[0], f, w);
      NotYetStep(s, acts[0], f, w, base);
      RuntimeSteps.StepKeepsInv(s, acts[0]);
      assert forall k :: 0 <= k < |acts[1..]| ==> acts[1..][k] == acts[k + 1];
      StrandedRun(Step(s, acts[0]), acts[1..], f, w, base);
    }
  }

  /** A due wait with one signal: it is there, or it was just taken for `w`. */
  predicate Exact(s: Sys, f: nat, w: nat) { Awaited(s, f, w) && (Waking(s, f) ==> !s.shared.signaled[f]) }

  /** The flag has no signal, and none is on its way to a waiter. */
  predicate Unset(s: Sys, f: nat) { f < |s.shared.signaled| && !s.shared.signaled[f] && !Waking(s, f) }

  lemma ExactStep(s: Sys, a: Action, f: nat, w: nat)
    requires Inv(s) && Enabled(s, a) && Exact(s, f, w) && a != SetFlag(f)
    ensures var t := Step(s, a);
            if Steals(s, a, f, w) then Stranded(t, f, w)
            else Exact(t, f, w) || (t.core.log == s.core.log + [w] && Unset(t, f))
  {
    hide Inv, Enabled, Step;
    SignalFollows(s, a, f);
    WakingFollows(s, a, f);
    PlaceOfFlag(s, a, f, w);
    if UserTakes(a, f) {
      UserPhase(s, a, f);
    }
  }

  lemma {:induction false} UnsetRun(s: Sys, acts: seq<Action>, f: nat, w: nat)
    requires CanRun(s, acts) && Unset(s, f) && NoSet(acts, f)
    ensures !Stolen(s, acts, f, w)
    decreases |acts|
  {
    hide Enabled, Step;
    if acts != [] {
      SignalFollows(s, acts[0], f);
      WakingFollows(s, acts[0], f);
      assert forall k :: 0 <= k < |acts[1..]| ==> acts[1..][k] == acts[k + 1];
      UnsetRun(Step(s, acts[0]), acts[1..], f, w);
    }
  }

  lemma {:induction false} ExactRun(s: Sys, acts: seq<Action>, f: nat, w: nat, base: nat, was: seq<nat>)
    requires Inv(s) && CanRun(s, acts) && Exact(s, f, w) && NoSet(acts, f) && base <= |s.core.log| && NotYet(s, w, was)
    ensures var t := Run(s, acts);
            if Stolen(s, acts, f, w) then Stranded(t, f, w) && NotYet(t, w, was) else Exact(t, f, w) || Queued(t, w, base)
    decreases |acts|
  {
    hide Inv, Enabled, Step, Exact, Stranded, Unset, NotYet, Queued, UserTakes;
    if acts != [] {
      var a, t := acts[0], Step(s, acts[0]);
      ExactIs(s, f, w);
      ExactStep(s, a, f, w);
      NotYetStep(s, a, f, w, was);
      RuntimeSteps.StepKeepsInv(s, a);
      OneGrows(s, a);
      assert forall k :: 0 <= k < |acts[1..]| ==> acts[1..][k] == acts[k + 1];
      hide Steals, Awaited, WaitsOn;
      if Steals(s, a, f, w) {
        StrandedRun(t, acts[1..], f, w, was);
      } else if Exact(t, f, w) {
        ExactRun(t, acts[1..], f, w, base, was);
      } else {
        UnsetRun(t, acts[1..], f, w);
        QueuedNow(s, t, w, base);
        QueuedRun(t, acts[1..], w, base);
      }
    }
  }

  lemma QueuedNow(s: Sys, t: Sys, w: nat, base: nat)
    requires t.core.log == s.core.log + [w] && base <= |s.core.log|
    ensures Queued(t, w, base)
  {
    JustQueued(s.core, t.core, w, base);
  }

  lemma ExactIs(s: Sys, f: nat, w: nat)
    requires Exact(s, f, w)
    ensures Awaited(s, f, w) && WaitsOn(s, f, w)
  {
  }

  lemma StrandedEnds(s: Sys, w: nat, base: seq<nat>)
    requires NotYet(s, w, base)
    ensures !ResumedSince(s, |base|, w)
  {
  }

  /**
   The exact condition. After a single `set()` of the flag, the waiting task is resumed by the end of a
   later whole pass if and only if nobody stole the signal before that pass; a task whose signal was
   stolen stays parked, and no error is reported.
   */
  lemma SetResumesIff(s: Sys, f: nat, w: nat, before: seq<Action>, poll: seq<Action>)
    requires Inv(s) && Enabled(s, SetFlag(f)) && WaitsOn(s, f, w) && !Waking(s, f)
    requires CanRun(Step(s, SetFlag(f)), before) && NoSet(before, f) && NoSet(poll, f)
    requires var u := Run(Step(s, SetFlag(f)), before);
             u.phase.Idle? && poll != [] && poll[0].PollBegin? && CanRun(u, poll) && SamePass(poll) && Run(u, poll).phase == Pass(0)
    ensures var u := Run(Step(s, SetFlag(f)), before);
            ResumedSince(Run(u, poll), |s.core.resumed|, w) <==> !Stolen(Step(s, SetFlag(f)), before, f, w)
  {
    hide Inv, Enabled, Step, CanRun, Run, SamePass, NoSet, Due1, Queued, Stolen, WaitsOn, Waking, Exact, ResumedSince, Stranded, NotYet, Awaited;
    SetMakesDue(s, f, w);
    var t := Step(s, SetFlag(f));
    RuntimeSteps.StepKeepsInv(s, SetFlag(f));
    StartsNotYet(t, w);
    FifoFacts(s);
    ExactRun(t, before, f, w, |s.core.resumed|, s.core.resumed);
    RunKeepsInv(t, before);
    AnyGrows(t, before);
    var u := Run(t, before);
    if Stolen(t, before, f, w) {
      StrandedRun(u, poll, f, w, s.core.resumed);
      StrandedEnds(Run(u, poll), w, s.core.resumed);
    } else {
      if Exact(u, f, w) {
        ExactIs(u, f, w);
        AwaitedIsDue(u, f, w);
      }
      PollResumes(u, poll, f, w, |s.core.resumed|);
    }
  }

  lemma StartsNotYet(s: Sys, w: nat)
    ensures NotYet(s, w, s.core.resumed)
  {
  }

  /** An input on which a signal is stolen: another task that runs awaits the flag before the next pass. */
  lemma StolenByAwait(s: Sys, f: nat, w: nat)
    requires Inv(s) && InBody(s) && Waiters(s.core, FlagWait(f)) == [w] && f < |s.shared.signaled| && s.shared.signaled[f]
    ensures Enabled(s, AwaitFlag(f)) && Stranded(Step(s, AwaitFlag(f)), f, w) && Step(s, AwaitFlag(f)).errors == s.errors
    ensures Stolen(s, [AwaitFlag(f)], f, w)
  {
    hide Inv;
    assert Step(s, AwaitFlag(f)) == s.(shared := ClearSignal(s.shared, f));
    assert CanRun(Step(s, AwaitFlag(f)), [AwaitFlag(f)][1..]);
  }
}
