/** One bounded pass as a function of what the resumed coroutines do, and why it is fair. */
module SchedulerPass {
  import opened Wrappers
  import opened SchedulerCore
  import opened SchedulerHandles
  import opened SchedulerMoves

  /**
   What a coroutine does to the scheduler while it runs: spawn, set an event, or hand over to the task
   that waits first at a place, as sends and receives do. Clearing an event and the awaits and queue
   operations that find nobody parked do nothing to the scheduler ...
   */
  datatype Op = SpawnTask(frame: nat) | SetEvent(p: Place) | WakeOne(p: Place)

  /** ... and how its resume ends. */
  datatype Ending =
    | Yields | Delays(duration: nat) | WaitsOn(p: Place) | ParksAt(p: Place) | AwaitsChild(frame: nat) | Suspends | Returns

  datatype Behaviour = Behaviour(ops: seq<Op>, end: Ending)

  function DoOp(c: Core, op: Op): Core {
    match op
    case SpawnTask(frame) => Schedule(c, frame).0
    case SetEvent(p) => WakeAll(c, p)
    case WakeOne(p) => if Waiters(c, p) != [] then WakeFirst(c, p) else c
  }

  function DoOps(c: Core, ops: seq<Op>): Core
    decreases |ops|
  {
    if ops == [] then c else DoOps(DoOp(c, ops[0]), ops[1..])
  }

  function DoEnd(c: Core, i: nat, end: Ending): Core
    requires i < |c.slots|
  {
    match end
    case Yields => Requeue(c, i)
    case Delays(d) => ArmTimer(c, i, d).0
    case WaitsOn(p) => Park(c, i, p)
    case ParksAt(p) => Park(c, i, p)
    case AwaitsChild(frame) => StartChild(c, i, frame).0
    case Suspends => c
    case Returns => c
  }

  /** Slot `i` is resumed, runs to its next suspension or its end, and the loop body finishes. */
  function Resume(c: Core, i: nat, b: Behaviour): Core {
    var d := DoOps(c, b.ops);
    if i >= |d.slots| then d
    else
      var e := DoEnd(d, i, b.end);
      if i < |e.slots| then EndResume(e, i, b.end.Returns?) else e
  }

  /** One round of the loop of `run_pass`, with the branches that guard the resume. */
  function Round(c: Core, b: Behaviour): Core {
    if c.ready == [] then c
    else if c.ready[0] >= |c.slots| || c.slots[c.ready[0]].state != Ready then c.(ready := c.ready[1..])
    else Resume(BeginResume(c), c.ready[0], b)
  }

  function Rounds(c: Core, bs: nat -> Behaviour, n: nat): Core {
    if n == 0 then c else Round(Rounds(c, bs, n - 1), bs(n - 1))
  }

  /** `run_pass`: as many rounds as tasks are ready at its start. */
  function RunPass(c: Core, bs: nat -> Behaviour): Core { Rounds(c, bs, |c.ready|) }

  // ----- keeping the invariants ----------------------------------------------------------------------

  /** The coroutine in slot `i` goes on: the slot still runs and the histories only grew. */
  ghost predicate GoesOn(c: Core, d: Core, i: nat) {
    && Good(d) && d.current == Some(i) && i < |d.slots| && d.slots[i].state == Running
    && d.resumed == c.resumed && c.log <= d.log
  }

  lemma OpGoesOn(c: Core, i: nat, op: Op)
    requires Good(c) && c.current == Some(i) && i < |c.slots| && c.slots[i].state == Running
    ensures GoesOn(c, DoOp(c, op), i)
  {
    hide Good;
    match op
    case SpawnTask(frame) => ScheduleGood(c, frame);
    case SetEvent(p) => WakeAllGoesOn(c, i, p);
    case WakeOne(p) =>
      if Waiters(c, p) != [] {
        WakeFirstGood(c, p);
      }
  }

  lemma {:induction false} WakeAllGoesOn(c: Core, i: nat, p: Place)
    requires Good(c) && c.current == Some(i) && i < |c.slots| && c.slots[i].state == Running
    ensures GoesOn(c, WakeAll(c, p), i)
    decreases |Waiters(c, p)|
  {
    hide Good;
    if Waiters(c, p) != [] {
      WakeFirstGood(c, p);
      WakeAllGoesOn(WakeFirst(c, p), i, p);
    }
  }

  lemma {:induction false} OpsGoOn(c: Core, i: nat, ops: seq<Op>)
    requires Good(c) && c.current == Some(i) && i < |c.slots| && c.slots[i].state == Running
    ensures GoesOn(c, DoOps(c, ops), i)
    decreases |ops|
  {
    hide Good, DoOp;
    if ops != [] {
      OpGoesOn(c, i, ops[0]);
      OpsGoOn(DoOp(c, ops[0]), i, ops[1..]);
    }
  }

  /** The resume is over: nobody runs, and the histories only grew. */
  ghost predicate IsOver(c: Core, d: Core) {
    Good(d) && d.current == None && d.resumed == c.resumed && c.log <= d.log
  }

  lemma EndIsOver(c: Core, i: nat, end: Ending)
    requires Good(c) && c.current == Some(i) && i < |c.slots| && c.slots[i].state == Running
    ensures var e := DoEnd(c, i, end); i < |e.slots| && IsOver(c, EndResume(e, i, end.Returns?))
  {
    hide Good;
    match end
    case Yields => RequeueGood(c, i); SuspendGood(Requeue(c, i), i);
    case Delays(d) => ArmTimerGood(c, i, d); SuspendGood(ArmTimer(c, i, d).0, i);
    case WaitsOn(p) => ParkGood(c, i, p); SuspendGood(Park(c, i, p), i);
    case ParksAt(p) => ParkGood(c, i, p); SuspendGood(Park(c, i, p), i);
    case AwaitsChild(frame) => StartChildGood(c, i, frame); SuspendGood(StartChild(c, i, frame).0, i);
    case Suspends => SuspendGood(c, i);
    case Returns => ReturnGood(c, i);
  }

  lemma RoundResumesHead(c: Core, b: Behaviour)
    requires Good(c) && c.current == None && c.ready != []
    ensures var d := Round(c, b);
            && Good(d) && d.current == None && c.log <= d.log
            && d.resumed == c.resumed + [c.ready[0]]
  {
    hide Good, DoOps, DoEnd, EndResume;
    var i := c.ready[0];
    BeginGood(c);
    OpsGoOn(BeginResume(c), i, b.ops);
    EndIsOver(DoOps(BeginResume(c), b.ops), i, b.end);
  }

  lemma {:induction false} RoundsResumeInOrder(c: Core, bs: nat -> Behaviour, n: nat)
    requires Good(c) && c.current == None && n <= |c.ready|
    ensures var d := Rounds(c, bs, n);
            && Good(d) && d.current == None && c.log <= d.log
            && d.resumed == c.resumed + c.ready[..n] && d.resumed + d.ready == d.log
  {
    hide Good, Round;
    LogOf(c);
    if n > 0 {
      RoundsResumeInOrder(c, bs, n - 1);
      var e := Rounds(c, bs, n - 1);
      assert e.log[|c.resumed| + n - 1] == c.log[|c.resumed| + n - 1] == c.ready[n - 1];
      assert e.ready[0] == c.ready[n - 1];
      RoundResumesHead(e, bs(n - 1));
      LogOf(Rounds(c, bs, n));
      assert c.ready[..n] == c.ready[..n - 1] + [c.ready[n - 1]];
    }
  }

  lemma LogOf(c: Core)
    requires Good(c)
    ensures c.resumed + c.ready == c.log
  {
    hide ReadyInv, WaitInv, StableInv, TimerInv, CurrentInv, HandleInv;
  }

  /**
   Whatever the coroutines do, the pass resumes exactly the tasks ready at its start, in FIFO
   order, and leaves as the new ready FIFO exactly what was pushed meanwhile, in push order.
   */
  lemma PassIsFair(c: Core, bs: nat -> Behaviour)
    requires Good(c) && c.current == None
    ensures var d := RunPass(c, bs);
            && Good(d) && d.current == None
            && d.resumed == c.resumed + c.ready
            && c.log <= d.log && d.ready == d.log[|c.log|..]
  {
    hide Good;
    LogOf(c);
    RoundsResumeInOrder(c, bs, |c.ready|);
    var d := RunPass(c, bs);
    assert c.ready[..|c.ready|] == c.ready;
    assert d.log[|c.log|..] == d.ready;
  }
}
