/**
 What no action but the timer scan does: it never touches a waiting timer, nor a task that suspended
 without a wake source, and histories only grow.
 */
module RuntimeQuiet {
  import opened SchedulerCore
  import opened SchedulerHandles
  import opened Runtime
  import opened RuntimeInv
  import M = RuntimeMoves
  import RuntimeSteps
  import SchedulerMoves

  ghost predicate DormantUntouched(a: seq<Slot>, b: seq<Slot>) {
    |b| == |a| && forall i :: 0 <= i < |a| && (a[i].state == WaitingTimer || a[i].state == Suspended) ==> b[i] == a[i]
  }

  ghost predicate Quiet(c: Core, d: Core) {
    DormantUntouched(c.slots, d.slots) && c.log <= d.log && c.resumed <= d.resumed
  }

  lemma QuietTwice(c: Core, d: Core, e: Core)
    requires Quiet(c, d) && Quiet(d, e)
    ensures Quiet(c, e)
  {
  }

  lemma WakeFirstQuiet(c: Core, p: Place)
    requires Good(c) && Waiters(c, p) != []
    ensures Quiet(c, WakeFirst(c, p)) && WakeFirst(c, p).resumed == c.resumed
  {
    hide Good;
    SchedulerMoves.WakeFirstGood(c, p);
  }

  lemma {:induction false} WakeAllQuiet(c: Core, p: Place)
    requires Good(c)
    ensures Quiet(c, WakeAll(c, p)) && WakeAll(c, p).resumed == c.resumed
    decreases |Waiters(c, p)|
  {
    hide Good, DormantUntouched;
    if Waiters(c, p) != [] {
      WakeFirstQuiet(c, p);
      M.WakeFirstMove(c, p);
      WakeAllQuiet(WakeFirst(c, p), p);
      QuietTwice(c, WakeFirst(c, p), WakeAll(c, p));
    } else {
      Same(c, c);
    }
  }

  lemma Same(c: Core, d: Core)
    requires d.slots == c.slots && d.log == c.log && d.resumed == c.resumed
    ensures Quiet(c, d)
  {
  }

  lemma ScheduleQuiet(c: Core, frame: nat)
    ensures var d := Schedule(c, frame).0; Quiet(c, d) && d.resumed == c.resumed
  {
  }

  /** The running slot `i` suspends, whatever it recorded; only it and an empty slot change. */
  lemma SuspendQuiet(c: Core, i: nat, p: Place)
    requires i < |c.slots| && c.slots[i].state == Running
    ensures var d := EndResume(Requeue(c, i), i, false); Quiet(c, d) && d.resumed == c.resumed
    ensures var d := EndResume(Park(c, i, p), i, false); Quiet(c, d) && d.resumed == c.resumed
    ensures var d := EndResume(c, i, false); Quiet(c, d) && d.resumed == c.resumed
  {
  }

  lemma DelayQuiet(c: Core, i: nat, duration: nat)
    requires i < |c.slots| && c.slots[i].state == Running
    ensures var d := EndResume(ArmTimer(c, i, duration).0, i, false); Quiet(c, d) && d.resumed == c.resumed
  {
  }

  lemma ChildQuiet(c: Core, i: nat, frame: nat)
    requires i < |c.slots| && c.slots[i].state == Running
    ensures var m := StartChild(c, i, frame).0; |m.slots| == |c.slots|
    ensures var d := EndResume(StartChild(c, i, frame).0, i, false); Quiet(c, d) && d.resumed == c.resumed
  {
  }

  lemma ReturnQuiet(c: Core, i: nat)
    requires i < |c.slots| && c.slots[i].state == Running
    ensures var d := EndResume(c, i, true); Quiet(c, d) && d.resumed == c.resumed
  {
  }

  lemma ResumeQuiet(c: Core)
    requires c.ready != [] && c.ready[0] < |c.slots| && c.slots[c.ready[0]].state == Ready
    ensures Quiet(c, BeginResume(c)) && BeginResume(c).resumed == c.resumed + [c.ready[0]]
  {
  }

  // ----- every action ------------------------------------------------------------------------------

  predicate AwaitOrEnd(a: Action) {
    a.AwaitEvent? || a.AwaitSend? || a.AwaitReceive? || a.ParkFlag? || a.AwaitTask? || a.AwaitHeld?
    || a.Yield? || a.Delay? || a.Opaque? || a.Return?
  }

  predicate Waking(a: Action) { a.Spawn? || a.SetEvent? || a.TrySend? || a.TryReceive? || a.MoveFlag? }

  /** What the theorem says of one action. */
  ghost predicate StepIsQuiet(s: Sys, a: Action, t: Sys) {
    && Quiet(s.core, t.core) && t.mark == s.mark
    && (!a.Resume? ==> t.core.resumed == s.core.resumed)
    && (!a.PollBegin? ==> t.core.now == s.core.now)
  }

  lemma BodyFacts(s: Sys)
    requires Inv(s) && (s.phase.Body? || s.phase.Parking?)
    ensures RunningInv(s.core)
  {
    hide Good, ObjectsInv, ArmedInv, SignalInv, TokenInv, FramesInv;
  }

  lemma SendQuiet(s: Sys, q: nat)
    requires Inv(s) && q < |s.queues|
    ensures var t := DoSend(s, q); Quiet(s.core, t.core) && t.core.resumed == s.core.resumed && t.core.now == s.core.now && t.mark == s.mark
  {
    hide Good, PhaseInv, ObjectsInv, ArmedInv, SignalInv, TokenInv, FramesInv;
    Same(s.core, s.core);
    if Waiters(s.core, ReceiveWait(q)) != [] {
      WakeFirstQuiet(s.core, ReceiveWait(q));
    }
  }

  lemma ReceiveQuiet(s: Sys, q: nat)
    requires Inv(s) && q < |s.queues|
    ensures var t := DoReceive(s, q); Quiet(s.core, t.core) && t.core.resumed == s.core.resumed && t.core.now == s.core.now && t.mark == s.mark
  {
    hide Good, PhaseInv, ObjectsInv, ArmedInv, SignalInv, TokenInv, FramesInv;
    Same(s.core, s.core);
    if Waiters(s.core, SendWait(q)) != [] {
      WakeFirstQuiet(s.core, SendWait(q));
    }
  }

  lemma SpawnQuiet(s: Sys, t: nat)
    requires Enabled(s, Spawn(t))
    ensures StepIsQuiet(s, Spawn(t), Step(s, Spawn(t)))
  {
    hide DormantUntouched;
    Same(s.core, s.core);
    if t in s.frames.tokens {
      ScheduleQuiet(s.core, s.frames.tokens[t]);
    }
  }

  lemma LatchQuiet(s: Sys, e: nat)
    requires Inv(s) && Enabled(s, SetEvent(e))
    ensures StepIsQuiet(s, SetEvent(e), Step(s, SetEvent(e)))
  {
    hide Good, PhaseInv, ObjectsInv, ArmedInv, SignalInv, TokenInv, FramesInv, DormantUntouched, WakeAll;
    WakeAllQuiet(s.core, EventWait(e));
    WakeAllFrame(s.core, EventWait(e));
  }

  lemma MoveFlagQuiet(s: Sys)
    requires Inv(s) && Enabled(s, MoveFlag)
    ensures StepIsQuiet(s, MoveFlag, Step(s, MoveFlag))
  {
    hide Good, PhaseInv, ObjectsInv, ArmedInv, SignalInv, TokenInv, FramesInv, DormantUntouched;
    Same(s.core, s.core);
    if Waiters(s.core, FlagWait(s.phase.rest[0])) != [] {
      WakeFirstQuiet(s.core, FlagWait(s.phase.rest[0]));
    }
  }

  lemma WakingQuiet(s: Sys, a: Action)
    requires Inv(s) && Enabled(s, a) && Waking(a)
    ensures StepIsQuiet(s, a, Step(s, a))
  {
    hide Inv, Quiet, DoSend, DoReceive;
    match a
    case Spawn(t) => SpawnQuiet(s, t);
    case SetEvent(e) => LatchQuiet(s, e);
    case TrySend(q) => SendQuiet(s, q);
    case TryReceive(q) => ReceiveQuiet(s, q);
    case MoveFlag => MoveFlagQuiet(s);
  }

  lemma ChildAwaitQuiet(s: Sys, t: nat)
    requires Inv(s) && InBody(s)
    ensures var d := AwaitChild(s, t); Quiet(s.core, d.core) && d.core.resumed == s.core.resumed && d.core.now == s.core.now && d.mark == s.mark
  {
    hide Inv, DormantUntouched, StartChild, EndResume;
    BodyFacts(s);
    Same(s.core, s.core);
    if t in s.frames.tokens {
      ChildQuiet(s.core, Who(s), s.frames.tokens[t]);
      ChildNow(s.core, Who(s), s.frames.tokens[t]);
    }
  }

  lemma ChildNow(c: Core, i: nat, frame: nat)
    requires i < |c.slots|
    ensures var m := StartChild(c, i, frame).0; |m.slots| == |c.slots| && EndResume(m, i, false).now == c.now
  {
  }

  lemma DelayEndQuiet(s: Sys, d: nat)
    requires Inv(s) && Enabled(s, Delay(d))
    ensures StepIsQuiet(s, Delay(d), Step(s, Delay(d)))
  {
    hide Inv, DormantUntouched;
    BodyFacts(s);
    DelayQuiet(s.core, Who(s), d);
  }

  lemma ReturnEndQuiet(s: Sys)
    requires Inv(s) && Enabled(s, Return)
    ensures StepIsQuiet(s, Return, Step(s, Return))
  {
    hide Inv, DormantUntouched;
    BodyFacts(s);
    ReturnQuiet(s.core, Who(s));
  }

  lemma ParkQuiet(s: Sys, p: Place)
    requires Inv(s) && (s.phase.Body? || s.phase.Parking?) && InSlot(s)
    ensures var t := ParkAt(s, p); Quiet(s.core, t.core) && t.core.resumed == s.core.resumed && t.core.now == s.core.now && t.mark == s.mark
  {
    hide Inv, DormantUntouched;
    BodyFacts(s);
    SuspendQuiet(s.core, Who(s), p);
  }

  predicate Parks(a: Action) { a.AwaitEvent? || a.AwaitSend? || a.AwaitReceive? || a.ParkFlag? }

  lemma AwaitQuiet(s: Sys, a: Action)
    requires Inv(s) && Enabled(s, a) && AwaitOrEnd(a)
    ensures StepIsQuiet(s, a, Step(s, a))
  {
    hide Inv, Enabled, Step, StepIsQuiet;
    if Parks(a) {
      ParksQuiet(s, a);
    } else {
      LeavesQuiet(s, a);
    }
  }

  lemma ParksQuiet(s: Sys, a: Action)
    requires Inv(s) && Enabled(s, a) && Parks(a)
    ensures StepIsQuiet(s, a, Step(s, a))
  {
    hide Inv, DormantUntouched, EndResume, DoSend, DoReceive, ParkAt;
    Same(s.core, s.core);
    match a
    case AwaitEvent(e) => ParkQuiet(s, EventWait(e));
    case AwaitSend(q) => SendQuiet(s, q); ParkQuiet(s, SendWait(q));
    case AwaitReceive(q) => ReceiveQuiet(s, q); ParkQuiet(s, ReceiveWait(q));
    case ParkFlag => ParkQuiet(s, FlagWait(s.phase.f));
  }

  lemma LeavesQuiet(s: Sys, a: Action)
    requires Inv(s) && Enabled(s, a) && AwaitOrEnd(a) && !Parks(a)
    ensures StepIsQuiet(s, a, Step(s, a))
  {
    hide Inv, DormantUntouched, EndResume, AwaitChild, DelayTask, Finish;
    BodyFacts(s);
    Same(s.core, s.core);
    SuspendQuiet(s.core, Who(s), EventWait(0));
    match a
    case AwaitTask(t) => ChildAwaitQuiet(s, t);
    case AwaitHeld(h) => ChildAwaitQuiet(s, h);
    case Yield => EndNow(s.core, Who(s));
    case Delay(d) => DelayEndQuiet(s, d);
    case Opaque => EndNow(s.core, Who(s));
    case Return => ReturnEndQuiet(s);
  }

  lemma EndNow(c: Core, i: nat)
    requires i < |c.slots|
    ensures |Requeue(c, i).slots| == |c.slots| && EndResume(Requeue(c, i), i, false).now == c.now && EndResume(c, i, false).now == c.now
  {
  }

  /** The actions in which the scheduler stands still, or only its clock moves. */
  predicate Standing(a: Action) {
    !AwaitOrEnd(a) && !Waking(a) && !a.RunTimers? && !a.Resume?
  }

  lemma StandingQuiet(s: Sys, a: Action)
    requires Enabled(s, a) && Standing(a)
    ensures Step(s, a).core == s.core.(now := Step(s, a).core.now) && Step(s, a).mark == s.mark
    ensures !a.PollBegin? ==> Step(s, a).core == s.core
  {
  }

  lemma StepQuiet(s: Sys, a: Action)
    requires Inv(s) && Enabled(s, a) && !a.RunTimers?
    ensures StepIsQuiet(s, a, Step(s, a))
  {
    hide Inv, Step, DormantUntouched;
    if AwaitOrEnd(a) {
      AwaitQuiet(s, a);
    } else if Waking(a) {
      WakingQuiet(s, a);
    } else if a.Resume? {
      ResumeIsQuiet(s);
    } else {
      StandingQuiet(s, a);
      Same(s.core, Step(s, a).core);
    }
  }

  lemma ResumeIsQuiet(s: Sys)
    requires Inv(s) && Enabled(s, Resume)
    ensures StepIsQuiet(s, Resume, Step(s, Resume))
    ensures s.core.ready != [] && Step(s, Resume).core.resumed == s.core.resumed + [s.core.ready[0]]
  {
    hide Inv, DormantUntouched;
    RuntimeSteps.PassCanPop(s);
    ResumeQuiet(s.core);
  }
}
