/** Every action of the machine keeps the invariant. */
module RuntimeSteps {
  import opened Wrappers
  import opened SchedulerCore
  import opened SchedulerHandles
  import opened SchedulerTimers
  import opened Runtime
  import opened RuntimeInv
  import opened RuntimeMoves
  import opened SchedulerMoves
  import opened RuntimeSignals
  import F = RuntimeFrames

  // ----- other contexts and user code without the scheduler --------------------------------------------

  lemma SetFlagStep(s: Sys, f: nat)
    requires Inv(s) && Enabled(s, SetFlag(f))
    ensures Inv(Step(s, SetFlag(f)))
  {
    hide Good, PhaseInv, ObjectsInv, ArmedInv, SignalInv, TokenInv, FramesInv;
    SetKeeps(s.phase, s.armed, s.waiting, s.shared, f);
  }

  lemma GiveStep(s: Sys)
    requires Inv(s) && Enabled(s, Give)
    ensures Inv(Step(s, Give))
  {
    hide Good, PhaseInv, ObjectsInv, ArmedInv, SignalInv, TokenInv, FramesInv;
    GiveKeeps(s.phase, s.armed, s.waiting, s.shared);
  }

  lemma ClearFlagStep(s: Sys, f: nat)
    requires Inv(s) && Enabled(s, ClearFlag(f))
    ensures Inv(Step(s, ClearFlag(f)))
  {
    hide Good, PhaseInv, ObjectsInv, ArmedInv, SignalInv, TokenInv, FramesInv;
    ClearKeeps(s.phase, s.armed, s.waiting, s.shared, f);
  }

  lemma ReenterStep(s: Sys, wait: bool)
    requires Inv(s) && Enabled(s, Reenter(wait))
    ensures Inv(Step(s, Reenter(wait)))
  {
    hide Good, PhaseInv, ObjectsInv, ArmedInv, SignalInv, TokenInv, FramesInv;
    PrepareKeeps(s.phase, s.armed, s.waiting, s.shared, s.shared.prepared || wait);
  }

  lemma TokensStep(s: Sys, a: Action)
    requires Inv(s) && Enabled(s, a) && ByTokens(a)
    ensures Inv(Step(s, a))
  {
    hide Good, PhaseInv, ObjectsInv, ArmedInv, SignalInv, TokenInv, FramesInv, TokenStep, TokenEnabled;
    assert Step(s, a) == UseTokens(s, a);
    F.TokensKeep(s.core.slots, s.frames, a);
  }

  lemma ClearEventStep(s: Sys, e: nat)
    requires Inv(s) && Enabled(s, ClearEvent(e))
    ensures Inv(Step(s, ClearEvent(e)))
  {
    hide Good, PhaseInv, ObjectsInv, ArmedInv, SignalInv, TokenInv, FramesInv;
    ObjectsClear(s.events, s.queues, s.core.waits, e);
  }

  // ----- user code that moves the scheduler -------------------------------------------------------------

  lemma SpawnStep(s: Sys, t: nat)
    requires Inv(s) && Enabled(s, Spawn(t))
    ensures Inv(Step(s, Spawn(t)))
  {
    hide Good, PhaseInv, ObjectsInv, ArmedInv, SignalInv, TokenInv, FramesInv, Schedule, Grows;
    if t in s.frames.tokens {
      var frame := s.frames.tokens[t];
      ScheduleMove(s.core, frame);
      var (d, h) := Schedule(s.core, frame);
      if h.Some? {
        PhaseGrows(s.phase, s.core, d, s.mark, s.armed, |s.shared.signaled|);
        F.TakeKeeps(s.core.slots, d.slots, s.frames, t, h.value.0);
      }
    }
  }

  lemma SetEventStep(s: Sys, e: nat)
    requires Inv(s) && Enabled(s, SetEvent(e))
    ensures Inv(Step(s, SetEvent(e)))
  {
    hide Good, PhaseInv, ObjectsInv, ArmedInv, SignalInv, TokenInv, FramesInv, WakeAll, Grows, SameButReady;
    var d := WakeAll(s.core, EventWait(e));
    WakeAllMove(s.core, EventWait(e));
    WakeAllEffect(s.core, EventWait(e));
    WakeAllFrame(s.core, EventWait(e));
    WaitersElsewhere(s.core, d, EventWait(e));
    PhaseGrows(s.phase, s.core, d, s.mark, s.armed, |s.shared.signaled|);
    ObjectsLatch(s.events, s.queues, s.core.waits, e, d.waits);
    ArmedSame(s.armed, s.core.waits, |s.shared.signaled|, d.waits);
    F.FramesSame(s.core.slots, d.slots, s.frames);
  }

  lemma WaitersElsewhere(c: Core, d: Core, p: Place)
    requires Waiters(d, p) == [] && forall q :: q != p ==> Waiters(d, q) == Waiters(c, q)
    ensures WaitersIn(d.waits, p) == [] && forall q :: q != p ==> WaitersIn(d.waits, q) == WaitersIn(c.waits, q)
  {
    forall q | q != p
      ensures WaitersIn(d.waits, q) == WaitersIn(c.waits, q)
    {
      assert Waiters(d, q) == Waiters(c, q);
    }
  }

  /** Waking the head of a place that is not a flag's, in user code. */
  lemma WakeInv(s: Sys, p: Place)
    requires Inv(s) && (s.phase.Idle? || s.phase.Body?) && WaitersIn(s.core.waits, p) != [] && !p.FlagWait?
    ensures Inv(s.(core := WakeFirst(s.core, p)))
  {
    hide Good, PhaseInv, ObjectsInv, ArmedInv, SignalInv, TokenInv, FramesInv, WakeFirst, Grows;
    var d := WakeFirst(s.core, p);
    WakeFirstMove(s.core, p);
    PhaseGrows(s.phase, s.core, d, s.mark, s.armed, |s.shared.signaled|);
    ObjectsWake(s.events, s.queues, s.core.waits, p);
    ArmedWake(s.armed, s.core.waits, |s.shared.signaled|, p);
    F.FramesSame(s.core.slots, d.slots, s.frames);
  }

  lemma SendInv(s: Sys, q: nat)
    requires Inv(s) && (s.phase.Idle? || s.phase.Body?) && q < |s.queues|
    ensures Inv(DoSend(s, q))
  {
    hide Good, PhaseInv, ObjectsInv, ArmedInv, SignalInv, TokenInv, FramesInv, WakeFirst;
    BufferFacts(s.events, s.queues, s.core.waits, q);
    if WaitersIn(s.core.waits, ReceiveWait(q)) != [] {
      WakeInv(s, ReceiveWait(q));
    } else if s.queues[q].count < s.queues[q].capacity {
      ObjectsFill(s.events, s.queues, s.core.waits, q, s.queues[q].count + 1);
    }
  }

  lemma ReceiveInv(s: Sys, q: nat)
    requires Inv(s) && (s.phase.Idle? || s.phase.Body?) && q < |s.queues|
    ensures Inv(DoReceive(s, q))
  {
    hide Good, PhaseInv, ObjectsInv, ArmedInv, SignalInv, TokenInv, FramesInv, WakeFirst;
    BufferFacts(s.events, s.queues, s.core.waits, q);
    if s.queues[q].count > 0 {
      if WaitersIn(s.core.waits, SendWait(q)) != [] {
        WakeInv(s, SendWait(q));
      } else {
        ObjectsFill(s.events, s.queues, s.core.waits, q, s.queues[q].count - 1);
      }
    }
  }

  lemma BufferFacts(events: seq<bool>, queues: seq<Buffer>, waits: Waits, q: nat)
    requires ObjectsInv(events, queues, waits) && q < |queues|
    ensures queues[q].count <= queues[q].capacity && queues[q].capacity > 0
    ensures WaitersIn(waits, ReceiveWait(q)) != [] ==> queues[q].count == 0
    ensures WaitersIn(waits, SendWait(q)) != [] ==> queues[q].count == queues[q].capacity
  {
  }

  lemma TrySendStep(s: Sys, q: nat)
    requires Inv(s) && Enabled(s, TrySend(q))
    ensures Inv(Step(s, TrySend(q)))
  {
    hide Good, PhaseInv, ObjectsInv, ArmedInv, SignalInv, TokenInv, FramesInv, DoSend;
    SendInv(s, q);
  }

  lemma TryReceiveStep(s: Sys, q: nat)
    requires Inv(s) && Enabled(s, TryReceive(q))
    ensures Inv(Step(s, TryReceive(q)))
  {
    hide Good, PhaseInv, ObjectsInv, ArmedInv, SignalInv, TokenInv, FramesInv, DoReceive;
    ReceiveInv(s, q);
  }

  // ----- awaits ------------------------------------------------------------------------------------

  /** The running task parks on an event or a queue. */
  lemma ParkInv(s: Sys, p: Place)
    requires Inv(s) && s.phase.Body? && InSlot(s) && MayPark(s.events, s.queues, s.core.waits, p) && !p.FlagWait?
    ensures Inv(ParkAt(s, p))
  {
    hide Good, PhaseInv, ObjectsInv, ArmedInv, SignalInv, TokenInv, FramesInv, Park, EndResume, Ends;
    BodyRuns(s);
    var i := Who(s);
    ParkSlots(s.core, i, p);
    ParkMove(s.core, i, p);
    var d := EndResume(Park(s.core, i, p), i, false);
    PhaseEnds(s.phase, s.core, d, s.mark, s.armed, s.armed, |s.shared.signaled|);
    ObjectsPark(s.events, s.queues, s.core.waits, p, i);
    ArmedPark(s.armed, s.core.waits, |s.shared.signaled|, p, i);
    PhaseKeeps(s.phase, Pass(Left(s)), s.armed, s.waiting, s.shared);
    F.FramesSame(s.core.slots, d.slots, s.frames);
  }

  lemma ParkSlots(c: Core, i: nat, p: Place)
    ensures |Park(c, i, p).slots| == |c.slots|
  {
  }

  lemma BodyRuns(s: Sys)
    requires PhaseInv(s.phase, s.core, s.mark, s.armed, |s.shared.signaled|) && (s.phase.Body? || s.phase.Parking?)
    ensures RunningInv(s.core) && (s.phase.Parking? ==> s.phase.f < |s.shared.signaled|)
  {
  }

  lemma AwaitEventStep(s: Sys, e: nat)
    requires Inv(s) && Enabled(s, AwaitEvent(e))
    ensures Inv(Step(s, AwaitEvent(e)))
  {
    hide Good, PhaseInv, ObjectsInv, ArmedInv, SignalInv, TokenInv, FramesInv, ParkAt;
    if !s.events[e] {
      ParkInv(s, EventWait(e));
    }
  }

  lemma AwaitSendStep(s: Sys, q: nat)
    requires Inv(s) && Enabled(s, AwaitSend(q))
    ensures Inv(Step(s, AwaitSend(q)))
  {
    hide Good, PhaseInv, ObjectsInv, ArmedInv, SignalInv, TokenInv, FramesInv, ParkAt, DoSend;
    if SendFits(s, q) {
      SendInv(s, q);
    } else {
      BufferFacts(s.events, s.queues, s.core.waits, q);
      ParkInv(s, SendWait(q));
    }
  }

  lemma AwaitReceiveStep(s: Sys, q: nat)
    requires Inv(s) && Enabled(s, AwaitReceive(q))
    ensures Inv(Step(s, AwaitReceive(q)))
  {
    hide Good, PhaseInv, ObjectsInv, ArmedInv, SignalInv, TokenInv, FramesInv, ParkAt, DoReceive;
    if s.queues[q].count > 0 {
      ReceiveInv(s, q);
    } else {
      ParkInv(s, ReceiveWait(q));
    }
  }

  lemma AwaitFlagStep(s: Sys, f: nat)
    requires Inv(s) && Enabled(s, AwaitFlag(f))
    ensures Inv(Step(s, AwaitFlag(f)))
  {
    hide Good, PhaseInv, ObjectsInv, ArmedInv, SignalInv, TokenInv, FramesInv;
    if s.shared.signaled[f] {
      ClearKeeps(s.phase, s.armed, s.waiting, s.shared, f);
    } else {
      ConsumeKeeps(s.phase, Left(s), f, s.armed, s.waiting, s.shared);
      ToParking(s.phase, s.core, s.mark, s.armed, |s.shared.signaled|, f);
    }
  }

  lemma ToParking(phase: Phase, c: Core, mark: nat, armed: seq<nat>, flags: nat, f: nat)
    requires PhaseInv(phase, c, mark, armed, flags) && phase.Body? && f < flags
    ensures PhaseInv(Parking(phase.left, f), c, mark, armed, flags)
  {
  }

  lemma BackToBody(phase: Phase, c: Core, mark: nat, armed: seq<nat>, flags: nat)
    requires PhaseInv(phase, c, mark, armed, flags) && phase.Parking?
    ensures PhaseInv(Body(phase.left), c, mark, armed, flags)
  {
  }

  lemma ParkFlagStep(s: Sys)
    requires Inv(s) && Enabled(s, ParkFlag)
    ensures Inv(Step(s, ParkFlag))
  {
    hide Good, PhaseInv, ObjectsInv, ArmedInv, SignalInv, TokenInv, FramesInv, Park, EndResume, Ends;
    BodyRuns(s);
    var f, i := s.phase.f, Who(s);
    if WaitersIn(s.core.waits, FlagWait(f)) != [] {
      BackToBody(s.phase, s.core, s.mark, s.armed, |s.shared.signaled|);
      PhaseKeeps(s.phase, Body(Left(s)), s.armed, s.waiting, s.shared);
    } else {
      ParkSlots(s.core, i, FlagWait(f));
      ParkMove(s.core, i, FlagWait(f));
      var d := EndResume(Park(s.core, i, FlagWait(f)), i, false);
      PhaseEnds(s.phase, s.core, d, s.mark, s.armed, [f] + s.armed, |s.shared.signaled|);
      ObjectsPark(s.events, s.queues, s.core.waits, FlagWait(f), i);
      ArmedPark(s.armed, s.core.waits, |s.shared.signaled|, FlagWait(f), i);
      RuntimeSignals.ParkKeeps(s.phase, Left(s), s.armed, s.waiting, s.shared);
      F.FramesSame(s.core.slots, d.slots, s.frames);
    }
  }

  /** `co_await` of a Task or of an awaiter that owns what `t` owns. */
  lemma AwaitChildInv(s: Sys, t: nat)
    requires Inv(s) && InBody(s)
    ensures Inv(AwaitChild(s, t))
  {
    hide Good, PhaseInv, ObjectsInv, ArmedInv, SignalInv, TokenInv, FramesInv, StartChild, EndResume, Ends, Drop;
    BodyRuns(s);
    ChildSlots(s.core, Who(s), if t in s.frames.tokens then s.frames.tokens[t] else 0);
    if t in s.frames.tokens {
      var i, frame := Who(s), s.frames.tokens[t];
      ChildMove(s.core, i, frame);
      var (m, adopted) := StartChild(s.core, i, frame);
      var d := EndResume(m, i, false);
      PhaseEnds(s.phase, s.core, d, s.mark, s.armed, s.armed, |s.shared.signaled|);
      PhaseKeeps(s.phase, Pass(Left(s)), s.armed, s.waiting, s.shared);
      if adopted {
        var k :| Installed(s.core.slots, d.slots, k, frame);
        F.TakeKeeps(s.core.slots, d.slots, s.frames, t, k);
      } else {
        F.FramesSame(s.core.slots, d.slots, s.frames);
        F.DropKeeps(d.slots, s.frames, t);
      }
    }
  }

  lemma AwaitTaskStep(s: Sys, t: nat)
    requires Inv(s) && Enabled(s, AwaitTask(t))
    ensures Inv(Step(s, AwaitTask(t)))
  {
    hide Inv, AwaitChild;
    AwaitChildInv(s, t);
  }

  lemma AwaitHeldStep(s: Sys, a: nat)
    requires Inv(s) && Enabled(s, AwaitHeld(a))
    ensures Inv(Step(s, AwaitHeld(a)))
  {
    hide Inv, AwaitChild, Fail;
    AwaitChildInv(s, a);
    ErrorInv(s, TaskAwaitedTwice);
  }

  lemma MoveSlots(c: Core, i: nat, d: nat)
    requires i < |c.slots|
    ensures |Requeue(c, i).slots| == |c.slots| && |ArmTimer(c, i, d).0.slots| == |c.slots|
  {
  }

  lemma ChildSlots(c: Core, i: nat, frame: nat)
    ensures |StartChild(c, i, frame).0.slots| == |c.slots|
  {
  }

  // ----- the end of a resume --------------------------------------------------------------------------

  /** The running task left its body for `d` without touching wait lists or frames. */
  lemma EndInv(s: Sys, d: Core)
    requires Inv(s) && s.phase.Body?
    requires Good(d) && Ends(s.core, d) && SameFrames(s.core.slots, d.slots) && d.waits == s.core.waits
    ensures Inv(s.(core := d, phase := Pass(Left(s))))
  {
    hide Good, PhaseInv, ObjectsInv, ArmedInv, SignalInv, TokenInv, FramesInv, Ends;
    PhaseEnds(s.phase, s.core, d, s.mark, s.armed, s.armed, |s.shared.signaled|);
    PhaseKeeps(s.phase, Pass(Left(s)), s.armed, s.waiting, s.shared);
    F.FramesSame(s.core.slots, d.slots, s.frames);
  }

  lemma ErrorInv(s: Sys, e: Error)
    requires Inv(s)
    ensures Inv(Fail(s, e))
  {
    hide Good, PhaseInv, ObjectsInv, ArmedInv, SignalInv, TokenInv, FramesInv;
  }

  lemma YieldStep(s: Sys)
    requires Inv(s) && Enabled(s, Yield)
    ensures Inv(Step(s, Yield))
  {
    hide Good, PhaseInv, ObjectsInv, ArmedInv, SignalInv, TokenInv, FramesInv, Requeue, EndResume, Ends, SameFrames;
    BodyRuns(s);
    MoveSlots(s.core, Who(s), 0);
    RequeueMove(s.core, Who(s));
    EndInv(s, EndResume(Requeue(s.core, Who(s)), Who(s), false));
  }

  lemma DelayStep(s: Sys, d: nat)
    requires Inv(s) && Enabled(s, Delay(d))
    ensures Inv(Step(s, Delay(d)))
  {
    hide Good, PhaseInv, ObjectsInv, ArmedInv, SignalInv, TokenInv, FramesInv, ArmTimer, EndResume, Ends, SameFrames;
    BodyRuns(s);
    MoveSlots(s.core, Who(s), d);
    var (m, overflow) := ArmTimer(s.core, Who(s), d);
    DelayMove(s.core, Who(s), d);
    EndInv(s, EndResume(m, Who(s), false));
    if overflow {
      ErrorInv(Suspend(s, m), DeadlineOverflow);
    }
  }

  lemma OpaqueStep(s: Sys)
    requires Inv(s) && Enabled(s, Opaque)
    ensures Inv(Step(s, Opaque))
  {
    hide Good, PhaseInv, ObjectsInv, ArmedInv, SignalInv, TokenInv, FramesInv, EndResume, Ends, SameFrames;
    BodyRuns(s);
    OpaqueMove(s.core, Who(s));
    EndInv(s, EndResume(s.core, Who(s), false));
  }

  lemma ReturnStep(s: Sys)
    requires Inv(s) && Enabled(s, Return)
    ensures Inv(Step(s, Return))
  {
    hide Good, PhaseInv, ObjectsInv, ArmedInv, SignalInv, TokenInv, FramesInv, EndResume, Ends, Destroy;
    BodyRuns(s);
    var i := Who(s);
    var d := EndResume(s.core, i, true);
    ReturnMove(s.core, i);
    PhaseEnds(s.phase, s.core, d, s.mark, s.armed, s.armed, |s.shared.signaled|);
    PhaseKeeps(s.phase, Pass(Left(s)), s.armed, s.waiting, s.shared);
    F.FinishKeeps(s.core.slots, d.slots, s.frames, i);
  }

  // ----- the scheduler --------------------------------------------------------------------------------

  /** A change of phase in which nobody runs. */
  lemma PhaseMoves(phase: Phase, phase': Phase, c: Core, c': Core, mark: nat, armed: seq<nat>, flags: nat)
    requires PhaseInv(phase, c, mark, armed, flags) && c'.current == c.current
    requires !phase.Body? && !phase.Parking? && (phase'.WaitTake? ==> c'.ready == [] && (c'.nearest != UINT64_MAX || armed != []))
    requires phase'.Idle? || phase'.Signals? || phase'.Timers? || phase'.WaitCheck? || phase'.WaitTake?
             || (phase'.Scan? && phase'.kept + phase'.rest == armed)
             || (phase'.Tested? && phase'.kept + phase'.rest == armed && phase'.rest != [])
    ensures PhaseInv(phase', c', mark, armed, flags)
  {
  }

  lemma NobodyRuns(s: Sys)
    requires PhaseInv(s.phase, s.core, s.mark, s.armed, |s.shared.signaled|) && !s.phase.Body? && !s.phase.Parking?
    ensures s.core.current == None
    ensures s.phase.Scan? ==> s.armed == s.phase.kept + s.phase.rest
    ensures s.phase.Tested? ==> s.armed == s.phase.kept + s.phase.rest && s.phase.rest != []
    ensures s.phase.Pass? ==> |s.core.resumed| + s.phase.left == s.mark <= |s.core.log|
  {
  }

  lemma PollBeginStep(s: Sys, now: nat, wait: bool)
    requires Inv(s) && Enabled(s, PollBegin(now, wait))
    ensures Inv(Step(s, PollBegin(now, wait)))
  {
    hide Good, PhaseInv, ObjectsInv, ArmedInv, SignalInv, TokenInv, FramesInv;
    NowGood(s.core, now);
    PhaseMoves(s.phase, Signals, s.core, s.core.(now := now), s.mark, s.armed, |s.shared.signaled|);
    BeginKeeps(s.armed, s.waiting, s.shared, wait);
  }

  lemma CheckPendingStep(s: Sys)
    requires Inv(s) && Enabled(s, CheckPending)
    ensures Inv(Step(s, CheckPending))
  {
    hide Good, PhaseInv, ObjectsInv, ArmedInv, SignalInv, TokenInv, FramesInv;
    CheckKeeps(s.armed, s.waiting, s.shared);
    assert [] + s.armed == s.armed;
    PhaseMoves(s.phase, Step(s, CheckPending).phase, s.core, s.core, s.mark, s.armed, |s.shared.signaled|);
  }

  lemma TestFlagStep(s: Sys)
    requires Inv(s) && Enabled(s, TestFlag)
    ensures Inv(Step(s, TestFlag))
  {
    hide Good, PhaseInv, ObjectsInv, ArmedInv, SignalInv, TokenInv, FramesInv;
    var kept, rest := s.phase.kept, s.phase.rest;
    NobodyRuns(s);
    if rest == [] {
      ScanEndKeeps(kept, s.armed, s.waiting, s.shared);
    } else {
      ArmedHead(kept, rest, s.core.waits, |s.shared.signaled|);
      TestKeeps(kept, rest, s.armed, s.waiting, s.shared, s.shared.signaled[rest[0]]);
    }
    PhaseMoves(s.phase, Step(s, TestFlag).phase, s.core, s.core, s.mark, s.armed, |s.shared.signaled|);
  }

  lemma ArmedHead(kept: seq<nat>, rest: seq<nat>, waits: Waits, flags: nat)
    requires rest != [] && ArmedInv(kept + rest, waits, flags)
    ensures rest[0] < flags && WaitersIn(waits, FlagWait(rest[0])) != []
  {
    assert (kept + rest)[|kept|] == rest[0];
    assert rest[0] in kept + rest;
  }

  lemma MoveFlagStep(s: Sys)
    requires Inv(s) && Enabled(s, MoveFlag)
    ensures Inv(Step(s, MoveFlag))
  {
    hide Good, PhaseInv, ObjectsInv, ArmedInv, SignalInv, TokenInv, FramesInv, WakeFirst;
    var kept, rest := s.phase.kept, s.phase.rest;
    var f := rest[0];
    NobodyRuns(s);
    if s.phase.wake && WaitersIn(s.core.waits, FlagWait(f)) != [] {
      var d := WakeFirst(s.core, FlagWait(f));
      WakeFirstMove(s.core, FlagWait(f));
      ObjectsWake(s.events, s.queues, s.core.waits, FlagWait(f));
      ArmedUnlink(kept, rest, s.core.waits, |s.shared.signaled|);
      RuntimeSignals.MoveKeeps(kept, rest, s.phase.wake, s.armed, s.waiting, s.shared, kept, kept + rest[1..]);
      F.FramesSame(s.core.slots, d.slots, s.frames);
      ScanFrom(Scan(kept, rest[1..]), d, s.mark, kept + rest[1..], |s.shared.signaled|);
    } else {
      assert (kept + [f]) + rest[1..] == kept + rest;
      RuntimeSignals.MoveKeeps(kept, rest, s.phase.wake, s.armed, s.waiting, s.shared, kept + [f], s.armed);
      ScanFrom(Scan(kept + [f], rest[1..]), s.core, s.mark, s.armed, |s.shared.signaled|);
    }
  }

  lemma ScanFrom(phase: Phase, c: Core, mark: nat, armed: seq<nat>, flags: nat)
    requires phase.Scan? && c.current == None && armed == phase.kept + phase.rest
    ensures PhaseInv(phase, c, mark, armed, flags)
  {
  }

  lemma RunTimersStep(s: Sys)
    requires Inv(s) && Enabled(s, RunTimers)
    ensures Inv(Step(s, RunTimers))
  {
    hide Good, PhaseInv, ObjectsInv, ArmedInv, SignalInv, TokenInv, FramesInv, ProcessDue;
    var d := ProcessDue(s.core);
    NobodyRuns(s);
    DueMove(s.core);
    ToPass(d, |d.ready|, s.armed, |s.shared.signaled|);
    PhaseKeeps(s.phase, Pass(|d.ready|), s.armed, s.waiting, s.shared);
    F.FramesSame(s.core.slots, d.slots, s.frames);
  }

  lemma ToPass(c: Core, left: nat, armed: seq<nat>, flags: nat)
    requires c.current == None && |c.log| == |c.resumed| + left
    ensures PhaseInv(Pass(left), c, |c.log|, armed, flags)
  {
  }

  lemma ToBody(c: Core, left: nat, mark: nat, armed: seq<nat>, flags: nat)
    requires RunningInv(c) && |c.resumed| + left == mark <= |c.log|
    ensures PhaseInv(Body(left), c, mark, armed, flags)
  {
  }

  /** While the pass has rounds left, the ready FIFO is not empty and its head is ready. */
  lemma PassCanPop(s: Sys)
    requires Inv(s) && s.phase.Pass? && s.phase.left > 0
    ensures s.core.ready != [] && s.core.ready[0] < |s.core.slots| && s.core.slots[s.core.ready[0]].state == Ready
  {
    hide ObjectsInv, ArmedInv, SignalInv, TokenInv, FramesInv, CoreInv, PhaseInv;
    NobodyRuns(s);
    LogLength(s.core);
    ResumeMove(s.core);
  }

  lemma ResumeStep(s: Sys)
    requires Inv(s) && Enabled(s, Resume)
    ensures Inv(Step(s, Resume))
  {
    hide Good, PhaseInv, ObjectsInv, ArmedInv, SignalInv, TokenInv, FramesInv, BeginResume;
    NobodyRuns(s);
    PassCanPop(s);
    ResumeMove(s.core);
    var d := BeginResume(s.core);
    ToBody(d, s.phase.left - 1, s.mark, s.armed, |s.shared.signaled|);
    PhaseKeeps(s.phase, Body(s.phase.left - 1), s.armed, s.waiting, s.shared);
    F.FramesSame(s.core.slots, d.slots, s.frames);
  }

  lemma PassEndStep(s: Sys)
    requires Inv(s) && Enabled(s, PassEnd)
    ensures Inv(Step(s, PassEnd))
  {
    hide Good, PhaseInv, ObjectsInv, ArmedInv, SignalInv, TokenInv, FramesInv;
    var phase := Step(s, PassEnd).phase;
    PhaseMoves(s.phase, phase, s.core, s.core, s.mark, s.armed, |s.shared.signaled|);
    ToOutside(s.phase, phase, s.armed, s.waiting, s.shared);
  }

  lemma DecideWaitStep(s: Sys, expired: bool)
    requires Inv(s) && Enabled(s, DecideWait(expired))
    ensures Inv(Step(s, DecideWait(expired)))
  {
    hide Good, PhaseInv, ObjectsInv, ArmedInv, SignalInv, TokenInv, FramesInv;
    var phase := Step(s, DecideWait(expired)).phase;
    PhaseMoves(s.phase, phase, s.core, s.core, s.mark, s.armed, |s.shared.signaled|);
    WaitsOnly(s.phase, s.armed, s.waiting, s.shared);
    ToOutside(s.phase, phase, s.armed, s.waiting, s.shared);
  }

  lemma TakeStep(s: Sys)
    requires Inv(s) && Enabled(s, Take)
    ensures Inv(Step(s, Take))
  {
    hide Good, PhaseInv, ObjectsInv, ArmedInv, SignalInv, TokenInv, FramesInv;
    PhaseMoves(s.phase, Idle, s.core, s.core, s.mark, s.armed, |s.shared.signaled|);
    TakeKeeps(s.phase, s.armed, s.waiting, s.shared);
  }

  lemma ToOutside(phase: Phase, phase': Phase, armed: seq<nat>, waiting: bool, h: Shared)
    requires Promises(phase, armed, waiting, h) && Unvisited(phase) == [] && !Outside(phase)
    requires phase'.Idle? || ((phase'.WaitCheck? || phase'.WaitTake?) && waiting)
    ensures Promises(phase', armed, waiting, h)
  {
    hide SignalInv, TokenInv;
    PhaseKeeps(phase, phase', armed, waiting, h);
  }

  lemma WaitsOnly(phase: Phase, armed: seq<nat>, waiting: bool, h: Shared)
    requires TokenInv(phase, armed, waiting, h) && (phase.WaitCheck? || phase.WaitTake?)
    ensures waiting
  {
  }

  /** Taking the token is harmless: outside a pass nothing is promised about it. */
  lemma TakeKeeps(phase: Phase, armed: seq<nat>, waiting: bool, h: Shared)
    requires Promises(phase, armed, waiting, h) && phase.WaitTake?
    ensures Promises(Idle, armed, waiting, h.(token := false))
  {
    var h' := h.(token := false);
    forall g | Signaled(Idle, armed, h', g)
      ensures h'.pending
    {
      assert Signaled(phase, armed, h, g);
    }
  }

  // ----- any action, any run ----------------------------------------------------------------------------

  predicate BySharing(a: Action) {
    a.SetFlag? || a.Give? || a.ClearFlag? || a.Reenter? || a.ClearEvent?
  }

  lemma SharingSteps(s: Sys, a: Action)
    requires Inv(s) && Enabled(s, a) && BySharing(a)
    ensures Inv(Step(s, a))
  {
    hide Inv, Step;
    match a
    case SetFlag(f) => SetFlagStep(s, f);
    case Give => GiveStep(s);
    case ClearFlag(f) => ClearFlagStep(s, f);
    case Reenter(wait) => ReenterStep(s, wait);
    case ClearEvent(e) => ClearEventStep(s, e);
  }

  /** Every action keeps the invariant. */
  lemma StepKeepsInv(s: Sys, a: Action)
    requires Inv(s) && Enabled(s, a)
    ensures Inv(Step(s, a))
  {
    hide Inv, Step;
    match a
    case Spawn(t) => SpawnStep(s, t);
    case SetEvent(e) => SetEventStep(s, e);
    case TrySend(q) => TrySendStep(s, q);
    case TryReceive(q) => TryReceiveStep(s, q);
    case AwaitEvent(e) => AwaitEventStep(s, e);
    case AwaitSend(q) => AwaitSendStep(s, q);
    case AwaitReceive(q) => AwaitReceiveStep(s, q);
    case AwaitFlag(f) => AwaitFlagStep(s, f);
    case ParkFlag => ParkFlagStep(s);
    case AwaitTask(t) => AwaitTaskStep(s, t);
    case AwaitHeld(h) => AwaitHeldStep(s, h);
    case Yield => YieldStep(s);
    case Delay(d) => DelayStep(s, d);
    case Opaque => OpaqueStep(s);
    case Return => ReturnStep(s);
    case PollBegin(now, wait) => PollBeginStep(s, now, wait);
    case CheckPending => CheckPendingStep(s);
    case TestFlag => TestFlagStep(s);
    case MoveFlag => MoveFlagStep(s);
    case RunTimers => RunTimersStep(s);
    case Resume => ResumeStep(s);
    case PassEnd => PassEndStep(s);
    case DecideWait(expired) => DecideWaitStep(s, expired);
    case Take => TakeStep(s);
    case _ => if ByTokens(a) { TokensStep(s, a); } else { SharingSteps(s, a); }
  }
}
