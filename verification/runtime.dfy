/**
 The whole runtime as a state machine: the scheduler, the events, queues and flags that tasks
 wait on, the frames they own, the setters running in other contexts, and the idle wait. One
 action is one critical section, one scheduler step, or one operation of user code; a run is any
 sequence of enabled actions.
 */
module Runtime {
  import opened Wrappers
  import opened SchedulerCore
  import opened SchedulerTimers

  datatype Error = TaskLimit | FramePoolExhausted | SchedulerReentry | InvalidTask | TaskAwaitedTwice
                 | MultipleFlagWaiters | DeadlineOverflow

  /** Where the scheduler context is. `left` counts the pops that the pass still has to do. */
  datatype Phase =
    | Idle                                           // outside poll()
    | Signals                                        // the clock is sampled
    | Scan(kept: seq<nat>, rest: seq<nat>)           // about to test the flag rest[0]
    | Tested(kept: seq<nat>, rest: seq<nat>, wake: bool) // rest[0] is tested, not yet moved
    | Timers
    | Pass(left: nat)                                // between two resumes
    | Body(left: nat)                                // a coroutine runs
    | Parking(left: nat, f: nat)                     // between consume() and park() of a flag await
    | WaitCheck                                      // a complete pass of poll_and_wait() is over
    | WaitTake                                       // at the semaphore take, until a token or a timeout

  /** How full a queue is; the values themselves are the matter of `QueueModel`. */
  datatype Buffer = Buffer(count: nat, capacity: nat)

  /** The state shared with other contexts: signals, the pending mark, the semaphore, the setters. */
  datatype Shared = Shared(
    signaled: seq<bool>,
    pending: bool,
    token: bool,       // the binary semaphore
    gives: nat,        // setters between their critical section and their give
    prepared: bool)    // the semaphore exists

  /**
   Frames: what Task and TaskAwaiter objects own, for each awaiter whether it was made from an empty
   Task, what is allocated, what was destroyed.
   */
  datatype Frames = Frames(tokens: map<nat, nat>, awaiters: map<nat, bool>, live: set<nat>, made: nat, destroyed: seq<nat>)

  datatype Sys = Sys(
    core: Core,
    phase: Phase,
    waiting: bool,     // the running pass belongs to poll_and_wait()
    mark: nat,         // the length of the push log at the last snapshot
    events: seq<bool>,
    queues: seq<Buffer>,
    armed: seq<nat>,   // the armed list, head first
    shared: Shared,
    frames: Frames,
    errors: seq<Error>)

  datatype Action =
    // other contexts, at any time
    | SetFlag(f: nat) | Give
    // user code, in a coroutine or outside
    | MakeTask(t: nat, exhausted: bool) | MoveTask(src: nat, dst: nat) | DropTask(t: nat) | Spawn(t: nat)
    | CoAwait(t: nat, a: nat) | MoveAwaiter(src: nat, dst: nat) | DropAwaiter(a: nat)
    | SetEvent(e: nat) | ClearEvent(e: nat) | TrySend(q: nat) | TryReceive(q: nat) | ClearFlag(f: nat) | Reenter(wait: bool)
    // awaits and the end of a coroutine
    | AwaitEvent(e: nat) | AwaitSend(q: nat) | AwaitReceive(q: nat) | AwaitFlag(f: nat) | ParkFlag | AwaitTask(t: nat) | AwaitHeld(a: nat)
    | Yield | Delay(d: nat) | Opaque | Return
    // the scheduler
    | PollBegin(now: nat, wait: bool) | CheckPending | TestFlag | MoveFlag | RunTimers | Resume | PassEnd
    | DecideWait(expired: bool) | Take

  function Start(n: nat, events: nat, capacities: seq<nat>, flags: nat): Sys {
    Sys(Init(n), Idle, false, 0, seq(events, _ => false),
        seq(|capacities|, i requires 0 <= i < |capacities| => Buffer(0, capacities[i])), [],
        Shared(seq(flags, _ => false), false, false, 0, false), Frames(map[], map[], {}, 0, []), [])
  }

  function Fail(s: Sys, e: Error): Sys { s.(errors := s.errors + [e]) }

  // ----- other contexts ----------------------------------------------------------------------------

  /** The critical section of `ThreadSafeFlag::set`; the give follows as an action of its own. */
  function SetSignal(h: Shared, f: nat): Shared
    requires f < |h.signaled|
  {
    h.(signaled := h.signaled[f := true], pending := true, gives := if h.signaled[f] then h.gives else h.gives + 1)
  }

  /** `platform_wake_scheduler`: without a semaphore the give is lost. */
  function GiveToken(h: Shared): Shared
    requires h.gives > 0
  {
    h.(gives := h.gives - 1, token := h.token || h.prepared)
  }

  function ClearSignal(h: Shared, f: nat): Shared
    requires f < |h.signaled|
  {
    h.(signaled := h.signaled[f := false])
  }

  // ----- frames ----------------------------------------------------------------------------------

  function Destroy(fr: Frames, frame: nat): Frames {
    fr.(live := fr.live - {frame}, destroyed := fr.destroyed + [frame])
  }

  function Without(m: map<nat, nat>, t: nat): map<nat, nat> { map x | x in m && x != t :: m[x] }

  /** A Task-returning function is called: the new frame is owned by the Task it returns. */
  function Make(fr: Frames, t: nat): Frames {
    fr.(tokens := fr.tokens[t := fr.made], live := fr.live + {fr.made}, made := fr.made + 1)
  }

  /** Move construction and assignment: the previous frame of `dst` goes last. */
  function Move(fr: Frames, src: nat, dst: nat): Frames {
    if src == dst then fr
    else
      var emptied := Without(Without(fr.tokens, src), dst);
      var moved := fr.(tokens := if src in fr.tokens then emptied[dst := fr.tokens[src]] else emptied);
      if dst in fr.tokens then Destroy(moved, fr.tokens[dst]) else moved
  }

  /** `reset()` and the destructors. */
  function Drop(fr: Frames, t: nat): Frames {
    if t in fr.tokens then Destroy(fr.(tokens := Without(fr.tokens, t)), fr.tokens[t]) else fr
  }

  /** `take_frame`: the scheduler becomes the owner. */
  function TakeFrame(fr: Frames, t: nat): Frames { fr.(tokens := Without(fr.tokens, t)) }

  function Remembered(awaiters: map<nat, bool>, a: nat): map<nat, bool> { map x | x in awaiters && x != a :: awaiters[x] }

  /** What user code does with Task and awaiter objects alone. */
  predicate ByTokens(a: Action) {
    a.MakeTask? || a.MoveTask? || a.DropTask? || a.CoAwait? || a.MoveAwaiter? || a.DropAwaiter?
  }

  /** A Task that owns nothing is no key of `tokens`; objects are made under unused identities. */
  predicate TokenEnabled(fr: Frames, a: Action) {
    match a
    case MakeTask(t, _) => t !in fr.tokens && t !in fr.awaiters
    case MoveTask(src, dst) => src !in fr.awaiters && dst !in fr.awaiters
    case DropTask(t) => t !in fr.awaiters
    case CoAwait(t, b) => t !in fr.awaiters && b !in fr.tokens && b !in fr.awaiters && b != t
    case MoveAwaiter(src, dst) => src in fr.awaiters && dst !in fr.tokens && dst !in fr.awaiters
    case DropAwaiter(b) => b in fr.awaiters
    case _ => false
  }

  /** An awaiter takes the Task's frame and notes if there was none; a move copies the note. */
  function TokenStep(fr: Frames, a: Action): Frames
    requires ByTokens(a) && TokenEnabled(fr, a)
  {
    match a
    case MakeTask(t, exhausted) => if exhausted then fr else Make(fr, t)
    case MoveTask(src, dst) => Move(fr, src, dst)
    case DropTask(t) => Drop(fr, t)
    case CoAwait(t, b) => Move(fr, t, b).(awaiters := fr.awaiters[b := t !in fr.tokens])
    case MoveAwaiter(src, dst) => Move(fr, src, dst).(awaiters := fr.awaiters[dst := fr.awaiters[src]])
    case DropAwaiter(b) => Drop(fr, b).(awaiters := Remembered(fr.awaiters, b))
  }

  function UseTokens(s: Sys, a: Action): Sys
    requires ByTokens(a) && TokenEnabled(s.frames, a)
  {
    var t := s.(frames := TokenStep(s.frames, a));
    if a.MakeTask? && a.exhausted then Fail(t, FramePoolExhausted) else t
  }

  // ----- user code -------------------------------------------------------------------------------

  function SpawnTask(s: Sys, t: nat): Sys {
    if t !in s.frames.tokens then Fail(s, InvalidTask)
    else
      var (core, handle) := Schedule(s.core, s.frames.tokens[t]);
      if handle == None then Fail(s, Error.TaskLimit)
      else s.(core := core, frames := TakeFrame(s.frames, t))
  }

  function SetLatch(s: Sys, e: nat): Sys
    requires e < |s.events|
  {
    s.(events := s.events[e := true], core := WakeAll(s.core, EventWait(e)))
  }

  function ClearLatch(s: Sys, e: nat): Sys
    requires e < |s.events|
  {
    s.(events := s.events[e := false])
  }

  /** A send is taken by the oldest parked receiver or by the buffer. */
  predicate SendFits(s: Sys, q: nat)
    requires q < |s.queues|
  {
    Waiters(s.core, ReceiveWait(q)) != [] || s.queues[q].count < s.queues[q].capacity
  }

  function DoSend(s: Sys, q: nat): Sys
    requires q < |s.queues|
  {
    var b := s.queues[q];
    if Waiters(s.core, ReceiveWait(q)) != [] then s.(core := WakeFirst(s.core, ReceiveWait(q)))
    else if b.count < b.capacity then s.(queues := s.queues[q := b.(count := b.count + 1)])
    else s
  }

  /** A receive that finds a value: it frees a cell, which admits the oldest parked sender. */
  function DoReceive(s: Sys, q: nat): Sys
    requires q < |s.queues|
  {
    var b := s.queues[q];
    if b.count == 0 then s
    else if Waiters(s.core, SendWait(q)) != [] then s.(core := WakeFirst(s.core, SendWait(q)))
    else s.(queues := s.queues[q := b.(count := b.count - 1)])
  }

  // ----- suspending and returning ------------------------------------------------------------------

  /** A coroutine body runs on the slot `Who(s)`. */
  predicate InSlot(s: Sys) { s.core.current.Some? && s.core.current.value < |s.core.slots| }

  function Who(s: Sys): nat
    requires s.core.current.Some?
  {
    s.core.current.value
  }

  function Left(s: Sys): nat {
    if s.phase.Body? || s.phase.Parking? || s.phase.Pass? then s.phase.left else 0
  }

  /** The coroutine suspended after `core` recorded why: the tail of the loop body of the pass. */
  function Suspend(s: Sys, core: Core): Sys
    requires InSlot(s)
  {
    s.(core := if Who(s) < |core.slots| then EndResume(core, Who(s), false) else core, phase := Pass(Left(s)))
  }

  function ParkAt(s: Sys, p: Place): Sys
    requires InSlot(s)
  {
    Suspend(s, Park(s.core, Who(s), p))
  }

  function WaitEvent(s: Sys, e: nat): Sys
    requires InSlot(s) && e < |s.events|
  {
    if s.events[e] then s else ParkAt(s, EventWait(e))
  }

  function WaitSend(s: Sys, q: nat): Sys
    requires InSlot(s) && q < |s.queues|
  {
    if SendFits(s, q) then DoSend(s, q) else ParkAt(s, SendWait(q))
  }

  function WaitReceive(s: Sys, q: nat): Sys
    requires InSlot(s) && q < |s.queues|
  {
    if s.queues[q].count > 0 then DoReceive(s, q) else ParkAt(s, ReceiveWait(q))
  }

  /** `consume`: go on with the signal taken, or go to `park`. */
  function WaitFlag(s: Sys, f: nat): Sys
    requires InSlot(s) && f < |s.shared.signaled|
  {
    if s.shared.signaled[f] then s.(shared := ClearSignal(s.shared, f)) else s.(phase := Parking(Left(s), f))
  }

  function ParkOnFlag(s: Sys): Sys
    requires InSlot(s) && s.phase.Parking?
  {
    var f := s.phase.f;
    if Waiters(s.core, FlagWait(f)) != [] then Fail(s.(phase := Body(Left(s))), MultipleFlagWaiters)
    else ParkAt(s, FlagWait(f)).(armed := [f] + s.armed)
  }

  /** `co_await` of a Task: adopt the child, or release it and requeue the parent. */
  function AwaitChild(s: Sys, t: nat): Sys
    requires InSlot(s)
  {
    if t !in s.frames.tokens then Fail(s, TaskAwaitedTwice)
    else
      var (core, adopted) := StartChild(s.core, Who(s), s.frames.tokens[t]);
      if adopted then Suspend(s, core).(frames := TakeFrame(s.frames, t))
      else Fail(Suspend(s, core).(frames := Drop(s.frames, t)), Error.TaskLimit)
  }

  /** `co_await` of an awaiter object: ready at once, with an error, if it was made from an empty Task. */
  function AwaitAwaiter(s: Sys, a: nat): Sys
    requires InSlot(s) && a in s.frames.awaiters
  {
    if s.frames.awaiters[a] then Fail(s, TaskAwaitedTwice) else AwaitChild(s, a)
  }

  function YieldTask(s: Sys): Sys
    requires InSlot(s)
  {
    Suspend(s, Requeue(s.core, Who(s)))
  }

  function DelayTask(s: Sys, d: nat): Sys
    requires InSlot(s)
  {
    var (core, overflow) := ArmTimer(s.core, Who(s), d);
    if overflow then Fail(Suspend(s, core), DeadlineOverflow) else Suspend(s, core)
  }

  /** The coroutine returned: its frame is destroyed, a waiting parent becomes ready. */
  function Finish(s: Sys): Sys
    requires InSlot(s)
  {
    var f := s.core.slots[Who(s)].frame;
    s.(core := EndResume(s.core, Who(s), true), phase := Pass(Left(s)),
       frames := if f.Some? then Destroy(s.frames, f.value) else s.frames)
  }

  // ----- scheduler steps ---------------------------------------------------------------------------

  function Begin(s: Sys, now: nat, wait: bool): Sys {
    s.(core := s.core.(now := now), phase := Signals, waiting := wait,
       shared := s.shared.(prepared := s.shared.prepared || wait))
  }

  function Check(s: Sys): Sys {
    if s.shared.pending then s.(shared := s.shared.(pending := false), phase := Scan([], s.armed)) else s.(phase := Timers)
  }

  /** The critical section of one round of the scan, or its end. */
  function Test(s: Sys): Sys
    requires s.phase.Scan? && (s.phase.rest != [] ==> s.phase.rest[0] < |s.shared.signaled|)
  {
    if s.phase.rest == [] then s.(phase := Timers)
    else
      var f := s.phase.rest[0];
      var wake := s.shared.signaled[f] && Waiters(s.core, FlagWait(f)) != [];
      s.(shared := if wake then ClearSignal(s.shared, f) else s.shared, phase := Tested(s.phase.kept, s.phase.rest, wake))
  }

  /** The rest of one round: wake the waiter and unlink the flag, or step over it. */
  function MoveOn(s: Sys): Sys
    requires s.phase.Tested? && s.phase.rest != []
  {
    var kept, rest := s.phase.kept, s.phase.rest;
    if s.phase.wake && Waiters(s.core, FlagWait(rest[0])) != [] then
      s.(core := WakeFirst(s.core, FlagWait(rest[0])), armed := kept + rest[1..], phase := Scan(kept, rest[1..]))
    else s.(phase := Scan(kept + [rest[0]], rest[1..]))
  }

  function Snapshot(s: Sys): Sys {
    var c := ProcessDue(s.core);
    s.(core := c, phase := Pass(|c.ready|), mark := |c.log|)
  }

  /** One round of the loop of `run_pass` up to the resume, with the branches that guard it. */
  function ResumeNext(s: Sys): Sys
    requires s.phase.Pass? && s.phase.left > 0
  {
    var c, left := s.core, s.phase.left - 1;
    if c.ready == [] then s.(phase := Pass(0))
    else if c.ready[0] >= |c.slots| || c.slots[c.ready[0]].state != Ready then
      s.(core := c.(ready := c.ready[1..]), phase := Pass(left))
    else s.(core := BeginResume(c), phase := Body(left))
  }

  function EndPass(s: Sys): Sys { s.(phase := if s.waiting then WaitCheck else Idle) }

  /** `wait_for_work` and the guards of `platform_wait_until`. */
  function Decide(s: Sys, expired: bool): Sys {
    var sleeps := s.core.ready == [] && s.shared.prepared && (s.core.nearest != UINT64_MAX || s.armed != [])
                  && !(expired && s.core.nearest != UINT64_MAX);
    s.(phase := if sleeps then WaitTake else Idle)
  }

  function TakeToken(s: Sys): Sys { s.(shared := s.shared.(token := false), phase := Idle) }

  // ----- the machine -------------------------------------------------------------------------------

  predicate InBody(s: Sys) { s.phase.Body? && InSlot(s) }

  /** User code runs in a coroutine body or outside poll(). */
  predicate UserCode(s: Sys) { s.phase.Idle? || InBody(s) }

  /** Awaits and the end of a coroutine. */
  predicate Awaits(a: Action) {
    a.AwaitEvent? || a.AwaitSend? || a.AwaitReceive? || a.AwaitFlag? || a.ParkFlag? || a.AwaitTask? || a.AwaitHeld?
    || a.Yield? || a.Delay? || a.Opaque? || a.Return?
  }

  predicate ByScheduler(a: Action) {
    a.PollBegin? || a.CheckPending? || a.TestFlag? || a.MoveFlag? || a.RunTimers? || a.Resume? || a.PassEnd? || a.DecideWait? || a.Take?
  }

  /** An awaiter that neither owns a frame nor knows that it has none is not awaited: see `RuntimeAwaiters`. */
  predicate AwaitEnabled(s: Sys, a: Action)
    requires Awaits(a)
  {
    match a
    case AwaitEvent(e) => InBody(s) && e < |s.events|
    case AwaitSend(q) => InBody(s) && q < |s.queues|
    case AwaitReceive(q) => InBody(s) && q < |s.queues|
    case AwaitFlag(f) => InBody(s) && f < |s.shared.signaled|
    case ParkFlag => s.phase.Parking? && InSlot(s)
    case AwaitTask(t) => InBody(s) && t !in s.frames.awaiters
    case AwaitHeld(h) => InBody(s) && h in s.frames.awaiters && (s.frames.awaiters[h] || h in s.frames.tokens)
    case Yield => InBody(s)
    case Delay(_) => InBody(s)
    case Opaque => InBody(s)
    case Return => InBody(s)
  }

  predicate SchedulerEnabled(s: Sys, a: Action)
    requires ByScheduler(a)
  {
    match a
    case PollBegin(now, _) => s.phase.Idle? && now <= UINT64_MAX
    case CheckPending => s.phase.Signals?
    case TestFlag => s.phase.Scan? && (s.phase.rest != [] ==> s.phase.rest[0] < |s.shared.signaled|)
    case MoveFlag => s.phase.Tested? && s.phase.rest != []
    case RunTimers => s.phase.Timers?
    case Resume => s.phase.Pass? && s.phase.left > 0
    case PassEnd => s.phase.Pass? && s.phase.left == 0
    case DecideWait(_) => s.phase.WaitCheck?
    case Take => s.phase.WaitTake? && (s.shared.token || s.core.nearest != UINT64_MAX)
  }

  /** Other contexts, and user code that neither awaits nor only handles Tasks. */
  predicate UserEnabled(s: Sys, a: Action)
    requires !Awaits(a) && !ByScheduler(a) && !ByTokens(a)
  {
    match a
    case SetFlag(f) => f < |s.shared.signaled|
    case Give => s.shared.gives > 0
    case Spawn(t) => UserCode(s) && t !in s.frames.awaiters
    case SetEvent(e) => UserCode(s) && e < |s.events|
    case ClearEvent(e) => UserCode(s) && e < |s.events|
    case TrySend(q) => UserCode(s) && q < |s.queues|
    case TryReceive(q) => UserCode(s) && q < |s.queues|
    case ClearFlag(f) => UserCode(s) && f < |s.shared.signaled|
    case Reenter(_) => InBody(s)
  }

  predicate Enabled(s: Sys, a: Action) {
    if Awaits(a) then AwaitEnabled(s, a)
    else if ByScheduler(a) then SchedulerEnabled(s, a)
    else if ByTokens(a) then UserCode(s) && TokenEnabled(s.frames, a)
    else UserEnabled(s, a)
  }

  function AwaitStep(s: Sys, a: Action): Sys
    requires Awaits(a) && AwaitEnabled(s, a)
  {
    match a
    case AwaitEvent(e) => WaitEvent(s, e)
    case AwaitSend(q) => WaitSend(s, q)
    case AwaitReceive(q) => WaitReceive(s, q)
    case AwaitFlag(f) => WaitFlag(s, f)
    case ParkFlag => ParkOnFlag(s)
    case AwaitTask(t) => AwaitChild(s, t)
    case AwaitHeld(h) => AwaitAwaiter(s, h)
    case Yield => YieldTask(s)
    case Delay(d) => DelayTask(s, d)
    case Opaque => Suspend(s, s.core)
    case Return => Finish(s)
  }

  function SchedulerStep(s: Sys, a: Action): Sys
    requires ByScheduler(a) && SchedulerEnabled(s, a)
  {
    match a
    case PollBegin(now, wait) => Begin(s, now, wait)
    case CheckPending => Check(s)
    case TestFlag => Test(s)
    case MoveFlag => MoveOn(s)
    case RunTimers => Snapshot(s)
    case Resume => ResumeNext(s)
    case PassEnd => EndPass(s)
    case DecideWait(expired) => Decide(s, expired)
    case Take => TakeToken(s)
  }

  function UserStep(s: Sys, a: Action): Sys
    requires !Awaits(a) && !ByScheduler(a) && !ByTokens(a) && UserEnabled(s, a)
  {
    match a
    case SetFlag(f) => s.(shared := SetSignal(s.shared, f))
    case Give => s.(shared := GiveToken(s.shared))
    case Spawn(t) => SpawnTask(s, t)
    case SetEvent(e) => SetLatch(s, e)
    case ClearEvent(e) => ClearLatch(s, e)
    case TrySend(q) => DoSend(s, q)
    case TryReceive(q) => DoReceive(s, q)
    case ClearFlag(f) => s.(shared := ClearSignal(s.shared, f))
    case Reenter(wait) => Fail(s.(shared := s.shared.(prepared := s.shared.prepared || wait)), SchedulerReentry)
  }

  function Step(s: Sys, a: Action): Sys
    requires Enabled(s, a)
  {
    if Awaits(a) then AwaitStep(s, a)
    else if ByScheduler(a) then SchedulerStep(s, a)
    else if ByTokens(a) then UseTokens(s, a)
    else UserStep(s, a)
  }
}
