/**
 Promises over whole passes: a signaled waiter is resumed in the pass that sees its signal, a
 sleeping task in the first pass that is late enough and in no earlier one, a parent exactly once
 in the pass after the one in which its child completed.
 */
module RuntimePasses {
  import opened Wrappers
  import opened SchedulerCore
  import opened SchedulerHandles
  import opened SchedulerTimers
  import opened Runtime
  import opened RuntimeInv
  import opened RuntimeQuiet
  import opened RuntimeRuns
  import RuntimeSteps

  /** Position `k` of the push log, from `base` on and below `end`, holds slot `w`. */
  ghost predicate Logged(c: Core, w: nat, base: nat, end: nat) {
    end <= |c.log| && exists k :: base <= k < end && c.log[k] == w
  }

  lemma LoggedGrows(c: Core, d: Core, w: nat, base: nat, end: nat, end': nat)
    requires Logged(c, w, base, end) && c.log <= d.log && end <= end' <= |d.log|
    ensures Logged(d, w, base, end')
  {
    var k :| base <= k < end && c.log[k] == w;
    assert d.log[k] == w;
  }

  predicate InPass(phase: Phase) { phase.Pass? || phase.Body? || phase.Parking? }

  /** The part of a poll before the snapshot. */
  predicate BeforePass(phase: Phase) { phase.Signals? || phase.Scan? || phase.Tested? || phase.Timers? }

  predicate SamePass(acts: seq<Action>) { forall k :: 0 <= k < |acts| ==> !acts[k].PassEnd? }

  /** Once the snapshot is taken, every action of the pass stays in the pass. */
  lemma PassPhases(s: Sys, a: Action)
    requires Enabled(s, a) && InPass(s.phase) && !a.PassEnd?
    ensures InPass(Step(s, a).phase) && !a.RunTimers?
  {
    hide TokenStep, TokenEnabled, Schedule, WakeAll, WakeFirst, EndResume, Park, StartChild, ArmTimer, BeginResume;
  }

  /** Before the snapshot only these actions are possible, and nobody is resumed. */
  lemma EarlyPhases(s: Sys, a: Action)
    requires Enabled(s, a) && BeforePass(s.phase)
    ensures a.SetFlag? || a.Give? || a.CheckPending? || a.TestFlag? || a.MoveFlag? || a.RunTimers?
    ensures a.RunTimers? <==> s.phase.Timers? && !a.SetFlag? && !a.Give?
    ensures if a.RunTimers? then Step(s, a).phase.Pass? else BeforePass(Step(s, a).phase)
  {
    hide TokenStep, TokenEnabled, Schedule, WakeAll, WakeFirst, EndResume, Park, StartChild, ArmTimer, BeginResume;
  }

  // ----- a promise that is kept in the pass -------------------------------------------------------------

  /** After the snapshot: slot `w` was pushed at a position that this pass still resumes or has resumed. */
  ghost predicate InThisPass(s: Sys, w: nat, base: nat) { InPass(s.phase) && Logged(s.core, w, base, s.mark) }

  lemma {:induction false} PassKeepsPromise(s: Sys, acts: seq<Action>, w: nat, base: nat)
    requires Inv(s) && CanRun(s, acts) && SamePass(acts) && InThisPass(s, w, base)
    ensures InThisPass(Run(s, acts), w, base)
    decreases |acts|
  {
    hide Inv, Enabled, Step, DormantUntouched, Logged;
    if acts != [] {
      assert !acts[0].PassEnd?;
      PassPhases(s, acts[0]);
      var t := Step(s, acts[0]);
      StepQuiet(s, acts[0]);
      RuntimeSteps.StepKeepsInv(s, acts[0]);
      LoggedBound(s.core, w, base, s.mark);
      LoggedGrows(s.core, t.core, w, base, s.mark, s.mark);
      assert forall k :: 0 <= k < |acts[1..]| ==> acts[1..][k] == acts[k + 1];
      PassKeepsPromise(t, acts[1..], w, base);
    }
  }

  lemma LoggedBound(c: Core, w: nat, base: nat, end: nat)
    requires Logged(c, w, base, end)
    ensures end <= |c.log|
  {
  }

  /** Slot `w` is among the slots resumed after the first `base` ones. */
  predicate ResumedSince(s: Sys, base: nat, w: nat) { base <= |s.core.resumed| && w in s.core.resumed[base..] }

  /** At the end of the pass the promised slot has been resumed. */
  lemma PromiseKept(s: Sys, w: nat, base: nat)
    requires Inv(s) && InThisPass(s, w, base) && s.phase == Pass(0)
    ensures ResumedSince(s, base, w)
  {
    hide Inv;
    FifoFacts(s);
    var k :| base <= k < s.mark && s.core.log[k] == w;
    assert s.core.resumed[k] == s.core.log[k];
    assert s.core.resumed[base..][k - base] == w;
  }

  // ----- flags: no lost wake-up -------------------------------------------------------------------------

  /** The flag is armed for slot `w` and its signal is there. */
  predicate Due1(s: Sys, f: nat, w: nat) {
    f in s.armed && f < |s.shared.signaled| && s.shared.signaled[f] && WaitersIn(s.core.waits, FlagWait(f)) == [w]
  }

  /** What is known of the waiter of flag `f` from the start of the poll to the snapshot. */
  ghost predicate WillWake(s: Sys, f: nat, w: nat, base: nat) {
    || Logged(s.core, w, base, |s.core.log|)
    || match s.phase
       case Signals => Due1(s, f, w)
       case Scan(_, rest) => Due1(s, f, w) && f in rest
       case Tested(_, rest, wake) =>
         WaitersIn(s.core.waits, FlagWait(f)) == [w] && rest != []
         && ((rest[0] == f && wake) || (Due1(s, f, w) && f in rest[1..]))
       case _ => false
  }

  lemma PendingSeen(s: Sys, f: nat, w: nat)
    requires Inv(s) && s.phase.Signals? && Due1(s, f, w)
    ensures s.shared.pending
  {
    hide Good, PhaseInv, ObjectsInv, ArmedInv, TokenInv, FramesInv;
    assert Signaled(s.phase, s.armed, s.shared, f);
  }

  lemma WokenLogged(c: Core, f: nat, w: nat, base: nat)
    requires WaitersIn(c.waits, FlagWait(f)) == [w] && base <= |c.log|
    ensures Logged(WakeFirst(c, FlagWait(f)), w, base, |WakeFirst(c, FlagWait(f)).log|)
  {
    assert WakeFirst(c, FlagWait(f)).log[|c.log|] == w;
  }

  /** Another flag is woken: the waiters of this one stay. */
  lemma OthersStay(c: Core, g: nat, f: nat)
    requires g != f && Waiters(c, FlagWait(g)) != []
    ensures WaitersIn(WakeFirst(c, FlagWait(g)).waits, FlagWait(f)) == WaitersIn(c.waits, FlagWait(f))
    ensures c.log <= WakeFirst(c, FlagWait(g)).log
  {
  }

  lemma ScanShape(s: Sys)
    requires Inv(s) && (s.phase.Scan? || s.phase.Tested?)
    ensures s.armed == s.phase.kept + s.phase.rest && Distinct(s.armed)
  {
    hide Good, ObjectsInv, SignalInv, TokenInv, FramesInv;
  }

  lemma RestDistinct(kept: seq<nat>, rest: seq<nat>)
    requires Distinct(kept + rest) && rest != []
    ensures rest[0] !in rest[1..]
  {
    forall k | 0 <= k < |rest[1..]|
      ensures rest[1..][k] != rest[0]
    {
      assert (kept + rest)[|kept|] == rest[0] && (kept + rest)[|kept| + k + 1] == rest[1..][k];
    }
  }

  lemma EarlyStep(s: Sys, a: Action, f: nat, w: nat, base: nat)
    requires Inv(s) && Enabled(s, a) && BeforePass(s.phase) && !a.RunTimers?
    requires WillWake(s, f, w, base) && base <= |s.core.log|
    ensures WillWake(Step(s, a), f, w, base)
  {
    hide Inv, Logged;
    EarlyPhases(s, a);
    StepQuiet(s, a);
    var t := Step(s, a);
    if Logged(s.core, w, base, |s.core.log|) {
      LoggedGrows(s.core, t.core, w, base, |s.core.log|, |t.core.log|);
    } else {
      EarlyStepOpen(s, a, f, w, base);
    }
  }

  lemma EarlyStepOpen(s: Sys, a: Action, f: nat, w: nat, base: nat)
    requires Inv(s) && Enabled(s, a) && BeforePass(s.phase) && !a.RunTimers?
    requires WillWake(s, f, w, base) && base <= |s.core.log| && !Logged(s.core, w, base, |s.core.log|)
    ensures WillWake(Step(s, a), f, w, base)
  {
    hide Inv, Logged, WakeFirst;
    EarlyPhases(s, a);
    if s.phase.Signals? {
      PendingSeen(s, f, w);
    } else if s.phase.Scan? || s.phase.Tested? {
      ScanShape(s);
      if s.phase.rest != [] {
        RestDistinct(s.phase.kept, s.phase.rest);
      }
      if a.MoveFlag? {
        WokenLogged(s.core, f, w, base);
        if s.phase.rest[0] != f && Waiters(s.core, FlagWait(s.phase.rest[0])) != [] {
          OthersStay(s.core, s.phase.rest[0], f);
        }
      }
    }
  }

  /** The snapshot includes everything that is ready. */
  lemma SnapshotLogged(s: Sys, w: nat, base: nat)
    requires Inv(s) && Enabled(s, RunTimers) && Logged(s.core, w, base, |s.core.log|)
    ensures InThisPass(Step(s, RunTimers), w, base)
  {
    hide Inv, Logged, ProcessDue;
    TimersHistory(s);
    var t := Step(s, RunTimers);
    LoggedGrows(s.core, t.core, w, base, |s.core.log|, |t.core.log|);
  }

  lemma TimersOpen(s: Sys, f: nat, w: nat, base: nat)
    requires WillWake(s, f, w, base) && s.phase.Timers?
    ensures Logged(s.core, w, base, |s.core.log|)
  {
  }

  lemma {:induction false} SignalPromise(s: Sys, acts: seq<Action>, f: nat, w: nat, base: nat)
    requires Inv(s) && CanRun(s, acts) && SamePass(acts)
    requires BeforePass(s.phase) && WillWake(s, f, w, base) && base <= |s.core.log|
    ensures InThisPass(Run(s, acts), w, base) || (BeforePass(Run(s, acts).phase) && WillWake(Run(s, acts), f, w, base))
    decreases |acts|
  {
    hide Inv, Enabled, Step, WillWake, InThisPass;
    if acts != [] {
      var a, t := acts[0], Step(s, acts[0]);
      EarlyPhases(s, a);
      RuntimeSteps.StepKeepsInv(s, a);
      assert forall k :: 0 <= k < |acts[1..]| ==> acts[1..][k] == acts[k + 1];
      if a.RunTimers? {
        TimersOpen(s, f, w, base);
        SnapshotLogged(s, w, base);
        PassKeepsPromise(t, acts[1..], w, base);
      } else {
        EarlyStep(s, a, f, w, base);
        StepQuiet(s, a);
        SignalPromise(t, acts[1..], f, w, base);
      }
    }
  }

  /**
   No lost wake-up: a waiter whose flag is signaled when a poll comes to look for signals is woken
   by that scan and resumed in that same pass, whatever other contexts do in between.
   */
  lemma SignaledWaiterResumes(s: Sys, acts: seq<Action>, f: nat, w: nat)
    requires Inv(s) && s.phase.Signals? && Due1(s, f, w)
    requires CanRun(s, acts) && SamePass(acts) && Run(s, acts).phase == Pass(0)
    ensures ResumedSince(Run(s, acts), |s.core.resumed|, w)
  {
    hide Inv, Enabled, Step, InThisPass, Due1, CanRun, Run, ResumedSince, Logged;
    FifoFacts(s);
    SignalPromise(s, acts, f, w, |s.core.resumed|);
    RunKeepsInv(s, acts);
    PromiseKept(Run(s, acts), w, |s.core.resumed|);
  }

  // ----- delays ------------------------------------------------------------------------------------------

  predicate Sleeping(s: Sys, i: nat, deadline: nat) {
    i < |s.core.slots| && s.core.slots[i].state == WaitingTimer && s.core.slots[i].deadline == deadline
  }

  /** A positive delay that fits puts the task to sleep until exactly `now + d`. */
  lemma DelayArms(s: Sys, d: nat)
    requires Inv(s) && Enabled(s, Delay(d)) && 0 < d && s.core.now + d <= UINT64_MAX
    ensures Sleeping(Step(s, Delay(d)), Who(s), s.core.now + d) && Step(s, Delay(d)).core.now == s.core.now
    ensures Step(s, Delay(d)).errors == s.errors
  {
    hide Inv, Enabled, Step;
    DelayIs(s, d);
    BodyFacts(s);
  }

  /** A delay of zero, or one that would pass the 64-bit range, requeues the task for the next pass. */
  lemma DelayRequeues(s: Sys, d: nat)
    requires Inv(s) && Enabled(s, Delay(d)) && (d == 0 || s.core.now + d > UINT64_MAX)
    ensures Step(s, Delay(d)).core.ready == s.core.ready + [Who(s)]
    ensures Step(s, Delay(d)).errors == if d == 0 then s.errors else s.errors + [DeadlineOverflow]
  {
    hide Inv, Enabled, Step;
    DelayIs(s, d);
    BodyFacts(s);
  }

  predicate Earlier(acts: seq<Action>, deadline: nat) {
    forall k :: 0 <= k < |acts| && acts[k].PollBegin? ==> acts[k].now < deadline
  }

  lemma SleepStep(s: Sys, a: Action, i: nat, deadline: nat)
    requires Inv(s) && Enabled(s, a) && Sleeping(s, i, deadline) && s.core.now < deadline
    requires a.PollBegin? ==> a.now < deadline
    ensures Sleeping(Step(s, a), i, deadline) && Step(s, a).core.now < deadline
  {
    hide Inv;
    if a.RunTimers? {
      TimersHistory(s);
      WakeDueSlots(s.core);
    } else {
      StepQuiet(s, a);
    }
  }

  /** In no earlier pass: as long as every sample is before the deadline the task sleeps on. */
  lemma {:induction false} SleepsOn(s: Sys, acts: seq<Action>, i: nat, deadline: nat)
    requires Inv(s) && CanRun(s, acts) && Sleeping(s, i, deadline) && s.core.now < deadline && Earlier(acts, deadline)
    ensures Sleeping(Run(s, acts), i, deadline) && Run(s, acts).core.now < deadline
    decreases |acts|
  {
    hide Inv, Enabled, Step, Sleeping;
    if acts != [] {
      SleepStep(s, acts[0], i, deadline);
      RuntimeSteps.StepKeepsInv(s, acts[0]);
      assert forall k :: 0 <= k < |acts[1..]| ==> acts[1..][k] == acts[k + 1];
      SleepsOn(Step(s, acts[0]), acts[1..], i, deadline);
    }
  }

  lemma OverdueStep(s: Sys, a: Action, i: nat, deadline: nat)
    requires Inv(s) && Enabled(s, a) && BeforePass(s.phase) && Sleeping(s, i, deadline) && deadline <= s.core.now
    ensures !a.RunTimers? ==> Sleeping(Step(s, a), i, deadline) && Step(s, a).core.now == s.core.now
                              && Step(s, a).core.resumed == s.core.resumed
    ensures a.RunTimers? ==> InThisPass(Step(s, a), i, |s.core.resumed|)
  {
    hide Inv, Enabled, Step;
    EarlyPhases(s, a);
    if a.RunTimers? {
      OverdueWakes(s, i, deadline);
    } else {
      StepQuiet(s, a);
    }
  }

  lemma OverdueWakes(s: Sys, i: nat, deadline: nat)
    requires Inv(s) && Enabled(s, RunTimers) && Sleeping(s, i, deadline) && deadline <= s.core.now
    ensures InThisPass(Step(s, RunTimers), i, |s.core.resumed|)
  {
    hide Inv, TimerInv;
    FifoFacts(s);
    TimerFacts(s);
    FastPathRefinesScan(s.core);
    WokenMembers(s.core);
    WakeDueFifos(s.core);
    var w, d := Woken(s.core), ProcessDue(s.core);
    assert i in w;
    var k :| 0 <= k < |w| && w[k] == i;
    assert d.log[|s.core.log| + k] == i;
  }

  lemma TimerFacts(s: Sys)
    requires Inv(s)
    ensures TimerInv(s.core.slots, s.core.nearest)
  {
    hide PhaseInv, ObjectsInv, ArmedInv, SignalInv, TokenInv, FramesInv, BaseInv;
  }

  lemma {:induction false} OverduePromise(s: Sys, acts: seq<Action>, i: nat, deadline: nat, base: nat)
    requires Inv(s) && CanRun(s, acts) && SamePass(acts) && |s.core.resumed| == base
    requires BeforePass(s.phase) && Sleeping(s, i, deadline) && deadline <= s.core.now
    ensures InThisPass(Run(s, acts), i, base) || BeforePass(Run(s, acts).phase)
    decreases |acts|
  {
    hide Inv, Enabled, Step, InThisPass, Sleeping;
    if acts != [] {
      var a, t := acts[0], Step(s, acts[0]);
      EarlyPhases(s, a);
      OverdueStep(s, a, i, deadline);
      RuntimeSteps.StepKeepsInv(s, a);
      assert forall k :: 0 <= k < |acts[1..]| ==> acts[1..][k] == acts[k + 1];
      if a.RunTimers? {
        PassKeepsPromise(t, acts[1..], i, base);
      } else {
        OverduePromise(t, acts[1..], i, deadline, base);
      }
    }
  }

  /** In the first pass whose sample reaches the deadline the task is resumed. */
  lemma WakesInTime(s: Sys, acts: seq<Action>, i: nat, deadline: nat)
    requires Inv(s) && s.phase.Idle? && Sleeping(s, i, deadline)
    requires acts != [] && acts[0].PollBegin? && deadline <= acts[0].now
    requires CanRun(s, acts) && SamePass(acts) && Run(s, acts).phase == Pass(0)
    ensures ResumedSince(Run(s, acts), |s.core.resumed|, i)
  {
    hide Inv, Enabled, Step, InThisPass, Sleeping, ResumedSince;
    BeginSleeping(s, acts[0], i, deadline);
    var t := Step(s, acts[0]);
    RuntimeSteps.StepKeepsInv(s, acts[0]);
    assert forall k :: 0 <= k < |acts[1..]| ==> acts[1..][k] == acts[k + 1];
    OverduePromise(t, acts[1..], i, deadline, |s.core.resumed|);
    RunKeepsInv(t, acts[1..]);
    PromiseKept(Run(t, acts[1..]), i, |s.core.resumed|);
  }

  lemma BeginSleeping(s: Sys, a: Action, i: nat, deadline: nat)
    requires Enabled(s, a) && a.PollBegin? && Sleeping(s, i, deadline) && deadline <= a.now
    ensures var t := Step(s, a); Sleeping(t, i, deadline) && deadline <= t.core.now && t.phase.Signals? && t.core.resumed == s.core.resumed
  {
  }

  /** A task that is not ready is not the one that an action resumes. */
  lemma UnreadyNotResumed(s: Sys, a: Action, i: nat)
    requires Inv(s) && Enabled(s, a) && i < |s.core.slots| && s.core.slots[i].state != Ready
    ensures var t := Step(s, a); t.core.resumed == s.core.resumed || exists x: nat :: x != i && t.core.resumed == s.core.resumed + [x]
  {
    hide Inv, DormantUntouched;
    if a.RunTimers? {
      TimersHistory(s);
    } else if a.Resume? {
      ResumeAppends(s);
    } else {
      StepQuiet(s, a);
    }
  }

  lemma ResumeAppends(s: Sys)
    requires Enabled(s, Resume)
    ensures var t := Step(s, Resume);
            t.core.resumed == s.core.resumed
            || exists x: nat :: x < |s.core.slots| && s.core.slots[x].state == Ready && t.core.resumed == s.core.resumed + [x]
  {
  }

  lemma NotAppended(a: seq<nat>, b: seq<nat>, c: seq<nat>, i: nat)
    requires a <= b && i !in b[|a|..] && (c == b || exists x: nat :: x != i && c == b + [x])
    ensures a <= c && i !in c[|a|..]
  {
    if c != b {
      var x: nat :| x != i && c == b + [x];
      assert c[|a|..] == b[|a|..] + [x];
    }
  }

  lemma SleeperUnready(s: Sys, i: nat, deadline: nat)
    requires Sleeping(s, i, deadline)
    ensures i < |s.core.slots| && s.core.slots[i].state != Ready
  {
  }

  /** While it sleeps it is not resumed. */
  lemma {:induction false} NotBefore(s: Sys, acts: seq<Action>, i: nat, deadline: nat, base: seq<nat>)
    requires Inv(s) && CanRun(s, acts) && Sleeping(s, i, deadline) && s.core.now < deadline && Earlier(acts, deadline)
    requires base <= s.core.resumed && i !in s.core.resumed[|base|..]
    ensures base <= Run(s, acts).core.resumed && !ResumedSince(Run(s, acts), |base|, i)
    decreases |acts|
  {
    hide Inv, Enabled, Step, Sleeping;
    if acts != [] {
      SleepStep(s, acts[0], i, deadline);
      SleeperUnready(s, i, deadline);
      UnreadyNotResumed(s, acts[0], i);
      NotAppended(base, s.core.resumed, Step(s, acts[0]).core.resumed, i);
      RuntimeSteps.StepKeepsInv(s, acts[0]);
      assert forall k :: 0 <= k < |acts[1..]| ==> acts[1..][k] == acts[k + 1];
      NotBefore(Step(s, acts[0]), acts[1..], i, deadline, base);
    }
  }

  /**
   The whole life of a delay `d > 0` started in a pass that sampled the clock at `t`, with `t + d` in
   range: through any further actions whose passes sample less than `t + d` the task is not resumed,
   and the first pass that samples `t + d` or more resumes it before it ends.
   */
  lemma DelayTiming(s: Sys, d: nat, before: seq<Action>, pass: seq<Action>)
    requires Inv(s) && Enabled(s, Delay(d)) && 0 < d && s.core.now + d <= UINT64_MAX
    requires CanRun(Step(s, Delay(d)), before) && Earlier(before, s.core.now + d)
    requires Run(Step(s, Delay(d)), before).phase.Idle?
    requires pass != [] && pass[0].PollBegin? && s.core.now + d <= pass[0].now && SamePass(pass)
    requires CanRun(Run(Step(s, Delay(d)), before), pass) && Run(Run(Step(s, Delay(d)), before), pass).phase == Pass(0)
    ensures var t := Step(s, Delay(d));
            var u := Run(t, before);
            && !ResumedSince(u, |t.core.resumed|, Who(s))
            && ResumedSince(Run(u, pass), |u.core.resumed|, Who(s))
  {
    hide Inv, Enabled, Step, DelayTask, Run, CanRun, Sleeping, ResumedSince, Earlier, SamePass;
    DelayIs(s, d);
    var t, i, deadline := Step(s, Delay(d)), Who(s), s.core.now + d;
    DelayArms(s, d);
    RuntimeSteps.StepKeepsInv(s, Delay(d));
    assert t.core.resumed[|t.core.resumed|..] == [];
    NotBefore(t, before, i, deadline, t.core.resumed);
    SleepsOn(t, before, i, deadline);
    RunKeepsInv(t, before);
    WakesInTime(Run(t, before), pass, i, deadline);
  }

  // ----- ready tasks and parents ---------------------------------------------------------------------------

  /** Nobody is resumed before the next snapshot. */
  predicate Between(phase: Phase) { !phase.Body? && !phase.Parking? && (phase.Pass? ==> phase.left == 0) }

  lemma BetweenStep(s: Sys, a: Action)
    requires Enabled(s, a) && Between(s.phase) && !a.RunTimers?
    ensures Between(Step(s, a).phase) && !a.Resume?
  {
    hide TokenStep, TokenEnabled, Schedule, WakeAll, WakeFirst, EndResume, Park, StartChild, ArmTimer, BeginResume;
  }

  lemma {:induction false} BetweenRun(s: Sys, acts: seq<Action>)
    requires Inv(s) && CanRun(s, acts) && NoTimers(acts) && Between(s.phase)
    ensures var t := Run(s, acts); Inv(t) && t.core.resumed == s.core.resumed && s.core.log <= t.core.log
    decreases |acts|
  {
    hide Inv, Enabled, Step, DormantUntouched;
    if acts != [] {
      assert !acts[0].RunTimers?;
      BetweenStep(s, acts[0]);
      StepQuiet(s, acts[0]);
      RuntimeSteps.StepKeepsInv(s, acts[0]);
      assert forall k :: 0 <= k < |acts[1..]| ==> acts[1..][k] == acts[k + 1];
      BetweenRun(Step(s, acts[0]), acts[1..]);
    }
  }

  /**
   Whatever is ready at the end of a pass is resumed exactly once in the next one: the next pass,
   which starts with the step `RunTimers` (that is, `Snapshot`), resumes a list without repetitions that starts with the ready FIFO of now.
   */
  lemma ReadyRunsNext(s: Sys, before: seq<Action>, during: seq<Action>)
    requires Inv(s) && Between(s.phase)
    requires CanRun(s, before) && NoTimers(before) && Run(s, before).phase.Timers?
    requires var v := Snapshot(Run(s, before));
             CanRun(v, during) && NoTimers(during) && Run(v, during).phase == Pass(0)
    ensures var t := Run(Snapshot(Run(s, before)), during);
            && s.core.resumed <= t.core.resumed
            && s.core.ready <= t.core.resumed[|s.core.resumed|..]
            && Distinct(t.core.resumed[|s.core.resumed|..])
  {
    hide Inv, Enabled, CanRun, Run, Step, Snapshot, DormantUntouched, NoTimers;
    var u := Run(s, before);
    BetweenRun(s, before);
    TimersEnabled(u);
    var v := Step(u, RunTimers);
    TimersHistory(u);
    RuntimeSteps.StepKeepsInv(u, RunTimers);
    SnapshotPhase(u);
    BoundedFairPass(v, during);
    FifoFacts(s);
    FifoFacts(v);
    NextList(s.core, v.core, Run(v, during).core.resumed);
  }

  lemma NextList(c: Core, d: Core, resumed: seq<nat>)
    requires c.resumed + c.ready == c.log && d.resumed + d.ready == d.log && c.log <= d.log
    requires d.resumed == c.resumed && resumed == d.resumed + d.ready
    ensures c.resumed <= resumed && resumed[|c.resumed|..] == d.ready && c.ready <= d.ready
  {
    assert c.ready == c.log[|c.resumed|..] && d.ready == d.log[|c.resumed|..];
  }

  lemma TimersEnabled(s: Sys)
    requires s.phase.Timers?
    ensures Enabled(s, RunTimers)
  {
  }

  lemma SnapshotPhase(s: Sys)
    requires Enabled(s, RunTimers)
    ensures var t := Step(s, RunTimers); t == Snapshot(s) && t.phase == Pass(|t.core.ready|) && t.mark == |t.core.log|
  {
  }

  /**
   A parent waits until its child completes, and is then at the tail of the ready FIFO: it is not
   resumed in the rest of that pass, and by `ReadyRunsNext` exactly once in the next one.
   */
  lemma ParentWaitsForNextPass(s: Sys, acts: seq<Action>, p: nat)
    requires Inv(s) && Enabled(s, Return) && s.core.slots[Who(s)].parent == Some(p)
    requires var t := Step(s, Return); CanRun(t, acts) && NoTimers(acts) && Run(t, acts).phase == Pass(0)
    ensures var t := Step(s, Return);
            && p < |s.core.slots| && s.core.slots[p].state == WaitingChild && t.core.ready == s.core.ready + [p]
            && !ResumedSince(Run(t, acts), |s.core.resumed|, p) && p in Run(t, acts).core.ready
  {
    hide Inv, Enabled, CanRun, Run, Step, DormantUntouched, NoTimers, ResumedSince;
    ReturnWakes(s, p);
    var t := Step(s, Return);
    RuntimeSteps.StepKeepsInv(s, Return);
    var u := Run(t, acts);
    RunKeepsInv(t, acts);
    RunHistory(t, acts);
    FifoFacts(s);
    FifoFacts(t);
    FifoFacts(u);
    DistinctReady(t);
    LastStays(t.core, u.core, t.mark, p);
    NotResumedYet(t.core, u, t.mark, p);
  }

  /**
   The two together: a parent is not resumed in the rest of the pass in which its child completed and was
   destroyed, and it is resumed exactly once in the next pass, whatever happens in and between them.
   */
  lemma ParentRunsOnceNext(s: Sys, rest: seq<Action>, before: seq<Action>, during: seq<Action>, p: nat)
    requires Inv(s) && Enabled(s, Return) && s.core.slots[Who(s)].parent == Some(p)
    requires var t := Step(s, Return); CanRun(t, rest) && NoTimers(rest) && Run(t, rest).phase == Pass(0)
    requires var u := Run(Step(s, Return), rest); CanRun(u, before) && NoTimers(before) && Run(u, before).phase.Timers?
    requires var v := Snapshot(Run(Run(Step(s, Return), rest), before));
             CanRun(v, during) && NoTimers(during) && Run(v, during).phase == Pass(0)
    ensures var u := Run(Step(s, Return), rest);
            var w := Run(Snapshot(Run(u, before)), during);
            && !ResumedSince(u, |s.core.resumed|, p)
            && u.core.resumed <= w.core.resumed && multiset(w.core.resumed[|u.core.resumed|..])[p] == 1
  {
    hide Inv, Enabled, CanRun, Run, Step, Snapshot, NoTimers, ResumedSince, Distinct;
    ParentWaitsForNextPass(s, rest, p);
    RuntimeSteps.StepKeepsInv(s, Return);
    RunKeepsInv(Step(s, Return), rest);
    var u := Run(Step(s, Return), rest);
    ReadyRunsNext(u, before, during);
    OnceIn(u.core.ready, Run(Snapshot(Run(u, before)), during).core.resumed[|u.core.resumed|..], p);
  }

  lemma OnceIn(ready: seq<nat>, list: seq<nat>, p: nat)
    requires p in ready && ready <= list && Distinct(list)
    ensures multiset(list)[p] == 1
  {
    var k :| 0 <= k < |ready| && ready[k] == p;
    assert list[k] == p;
    NoneIn(list[..k], p);
    NoneIn(list[k + 1..], p);
    assert list == list[..k] + [p] + list[k + 1..];
  }

  lemma NoneIn(list: seq<nat>, p: nat)
    requires p !in list
    ensures multiset(list)[p] == 0
  {
  }

  /**
   Whoever is put on the ready FIFO during a pass, at position `k` of the push log, is not resumed in the
   rest of that pass and is resumed exactly once in the next one.
   */
  lemma QueuedRunsOnceNext(s: Sys, rest: seq<Action>, before: seq<Action>, during: seq<Action>, p: nat, k: nat)
    requires Inv(s) && InPass(s.phase) && s.mark <= k < |s.core.log| && s.core.log[k] == p
    requires CanRun(s, rest) && NoTimers(rest) && Run(s, rest).phase == Pass(0)
    requires CanRun(Run(s, rest), before) && NoTimers(before) && Run(Run(s, rest), before).phase.Timers?
    requires var v := Snapshot(Run(Run(s, rest), before)); CanRun(v, during) && NoTimers(during) && Run(v, during).phase == Pass(0)
    ensures var u := Run(s, rest);
            var w := Run(Snapshot(Run(u, before)), during);
            && !ResumedSince(u, |s.core.resumed|, p)
            && u.core.resumed <= w.core.resumed && multiset(w.core.resumed[|u.core.resumed|..])[p] == 1
  {
    hide Inv, Enabled, CanRun, Run, Step, Snapshot, NoTimers, ResumedSince, Distinct;
    var u := Run(s, rest);
    RunKeepsInv(s, rest);
    RunHistory(s, rest);
    FifoFacts(s);
    FifoFacts(u);
    DistinctReady(s);
    StillQueued(s.core, u, s.mark, p, k);
    ReadyRunsNext(u, before, during);
    OnceIn(u.core.ready, Run(Snapshot(Run(u, before)), during).core.resumed[|u.core.resumed|..], p);
  }

  lemma StillQueued(c: Core, u: Sys, mark: nat, p: nat, k: nat)
    requires c.log <= u.core.log && c.resumed + c.ready == c.log && Distinct(c.ready)
    requires |c.resumed| <= mark <= k < |c.log| && c.log[k] == p
    requires u.core.resumed + u.core.ready == u.core.log && |u.core.resumed| == mark
    ensures p in u.core.ready && !ResumedSince(u, |c.resumed|, p)
  {
    var n := |c.resumed|;
    assert u.core.ready[k - mark] == u.core.log[k];
    assert c.ready[k - n] == p;
    forall j | 0 <= j < mark - n
      ensures u.core.resumed[n..][j] == c.ready[j] && c.ready[j] != p
    {
      assert u.core.resumed[n + j] == u.core.log[n + j] == c.log[n + j];
    }
  }

  /** The last entry of the push log is beyond the mark of the pass, so it is still ready. */
  lemma LastStays(c: Core, d: Core, mark: nat, p: nat)
    requires c.log <= d.log && c.log != [] && c.log[|c.log| - 1] == p && mark < |c.log|
    requires d.resumed + d.ready == d.log && |d.resumed| == mark
    ensures p in d.ready
  {
    assert d.ready[|c.log| - 1 - mark] == d.log[|c.log| - 1];
  }

  lemma NotResumedYet(c: Core, u: Sys, mark: nat, p: nat)
    requires c.log <= u.core.log && c.resumed + c.ready == c.log && Distinct(c.ready)
    requires c.ready != [] && c.ready[|c.ready| - 1] == p && |c.resumed| <= mark < |c.log|
    requires u.core.resumed + u.core.ready == u.core.log && |u.core.resumed| == mark
    ensures !ResumedSince(u, |c.resumed|, p)
  {
    var n := |c.resumed|;
    forall k | 0 <= k < mark - n
      ensures u.core.resumed[n..][k] == c.ready[k] && c.ready[k] != p
    {
      assert u.core.resumed[n + k] == u.core.log[n + k] == c.log[n + k];
    }
  }

  lemma DistinctReady(s: Sys)
    requires Inv(s)
    ensures Distinct(s.core.ready)
  {
    hide PhaseInv, ObjectsInv, ArmedInv, SignalInv, TokenInv, FramesInv, CoreInv;
    ReadyDistinct(s.core);
  }

  lemma ReturnWakes(s: Sys, p: nat)
    requires Inv(s) && Enabled(s, Return) && s.core.slots[Who(s)].parent == Some(p)
    ensures var t := Step(s, Return);
            && p < |s.core.slots| && s.core.slots[p].state == WaitingChild
            && t.core.ready == s.core.ready + [p] && t.core.resumed == s.core.resumed
            && t.mark == s.mark && t.phase == Pass(s.phase.left)
            && |s.core.resumed| + s.phase.left == s.mark <= |s.core.log|
            && t.core.log == s.core.log + [p]
  {
    hide Inv, Enabled, Step, EndResume, Destroy;
    ReturnIs(s);
    BodyFacts(s);
    FifoFacts(s);
    GoodCore(s);
    ParentOf(s.core, Who(s));
    CompletionWakes(s.core, Who(s), p);
  }

  lemma ReturnIs(s: Sys)
    requires Enabled(s, Return)
    ensures s.phase.Body? && InSlot(s) && Step(s, Return) == Finish(s)
  {
    hide Finish;
  }

  lemma DelayIs(s: Sys, d: nat)
    requires Enabled(s, Delay(d))
    ensures s.phase.Body? && InSlot(s) && Step(s, Delay(d)) == DelayTask(s, d)
  {
    hide DelayTask;
  }

  lemma GoodCore(s: Sys)
    requires Inv(s)
    ensures Good(s.core)
  {
    hide Good, PhaseInv, ObjectsInv, ArmedInv, SignalInv, TokenInv, FramesInv;
  }

  lemma CompletionWakes(c: Core, i: nat, p: nat)
    requires i < |c.slots| && c.slots[i].parent == Some(p) && p < |c.slots| && p != i && c.slots[p].state == WaitingChild
    ensures var d := EndResume(c, i, true); d.ready == c.ready + [p] && d.log == c.log + [p] && d.resumed == c.resumed
  {
  }

  lemma ParentOf(c: Core, i: nat)
    requires Good(c) && i < |c.slots| && c.slots[i].state == Running && c.slots[i].parent.Some?
    ensures var p := c.slots[i].parent.value; p < |c.slots| && p != i && c.slots[p].state == WaitingChild
  {
    hide ReadyInv, WaitInv, TimerInv, CurrentInv, FrameInv, ParentInv;
    ParentsComplete(c.slots, c.born, |c.issued|, i);
  }
}
