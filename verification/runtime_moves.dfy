/** The moves of the scheduler as the runtime uses them, each with its whole effect. */
module RuntimeMoves {
  import opened Wrappers
  import opened SchedulerCore
  import opened SchedulerTimers
  import opened SchedulerHandles
  import opened SchedulerMoves
  import opened Runtime
  import opened RuntimeInv

  ghost predicate SameFrames(a: seq<Slot>, b: seq<Slot>) {
    |b| == |a| && forall i :: 0 <= i < |a| ==> b[i].frame == a[i].frame
  }

  /** From `c` to `d` the histories only grow, and whoever ran still runs. */
  ghost predicate Grows(c: Core, d: Core) {
    && |d.slots| == |c.slots| && c.log <= d.log && d.resumed == c.resumed && d.current == c.current
    && (RunningInv(c) ==> RunningInv(d))
  }

  /** From `c` to `d` the histories only grow, and nobody runs any more. */
  ghost predicate Ends(c: Core, d: Core) {
    |d.slots| == |c.slots| && c.log <= d.log && d.resumed == c.resumed && d.current == None
  }

  lemma PhaseGrows(phase: Phase, c: Core, d: Core, mark: nat, armed: seq<nat>, flags: nat)
    requires PhaseInv(phase, c, mark, armed, flags) && Grows(c, d)
    requires !phase.Scan? && !phase.Tested? && !phase.WaitTake?
    ensures PhaseInv(phase, d, mark, armed, flags)
  {
  }

  lemma PhaseEnds(phase: Phase, c: Core, d: Core, mark: nat, armed: seq<nat>, armed': seq<nat>, flags: nat)
    requires PhaseInv(phase, c, mark, armed, flags) && Ends(c, d) && (phase.Body? || phase.Parking?)
    ensures PhaseInv(Pass(phase.left), d, mark, armed', flags)
  {
  }

  // ----- moves that let the coroutine go on ----------------------------------------------------------

  lemma WakeFirstMove(c: Core, p: Place)
    requires Good(c) && Waiters(c, p) != []
    ensures var d := WakeFirst(c, p); Good(d) && Grows(c, d) && SameFrames(c.slots, d.slots) && d.waits == Popped(c.waits, p)
  {
    hide Good;
    WakeFirstGood(c, p);
  }

  lemma {:induction false} WakeAllMove(c: Core, p: Place)
    requires Good(c)
    ensures var d := WakeAll(c, p); Good(d) && Grows(c, d) && SameFrames(c.slots, d.slots)
    decreases |Waiters(c, p)|
  {
    hide Good, RunningInv;
    if Waiters(c, p) != [] {
      WakeFirstMove(c, p);
      WakeAllMove(WakeFirst(c, p), p);
    }
  }

  /** A frame went to the empty slot `k`. */
  ghost predicate Installed(a: seq<Slot>, b: seq<Slot>, k: nat, frame: nat) {
    && |b| == |a| && k < |a| && a[k].frame == None && b[k].frame == Some(frame)
    && forall i :: 0 <= i < |a| && i != k ==> b[i].frame == a[i].frame
  }

  lemma FreeSlot(c: Core, k: nat)
    requires CoreInv(c) && k < |c.slots| && !Live(c.slots[k])
    ensures c.slots[k].frame == None
  {
  }

  lemma ScheduleMove(c: Core, frame: nat)
    requires Good(c)
    ensures var (d, h) := Schedule(c, frame);
            && Good(d) && Grows(c, d) && d.waits == c.waits
            && (h == None ==> d == c)
            && (h.Some? ==> Installed(c.slots, d.slots, h.value.0, frame))
  {
    hide CoreInv, IssuedInv, FinishedInv;
    ScheduleGood(c, frame);
    var r := Acquirable(c.slots);
    if r.Some? {
      FreeSlot(c, r.value);
    }
  }

  lemma DueMove(c: Core)
    requires Good(c)
    ensures var d := ProcessDue(c); Good(d) && Grows(c, d) && SameFrames(c.slots, d.slots) && d.waits == c.waits
    ensures |ProcessDue(c).log| == |ProcessDue(c).resumed| + |ProcessDue(c).ready|
  {
    hide CoreInv, IssuedInv, FinishedInv;
    DueGood(c);
    LogLength(ProcessDue(c));
    WakeDueSlots(c);
    WakeDueFifos(c);
  }

  lemma LogLength(c: Core)
    requires CoreInv(c)
    ensures |c.log| == |c.resumed| + |c.ready|
  {
  }

  lemma ResumeMove(c: Core)
    requires Good(c) && c.current == None && c.ready != []
    ensures c.ready[0] < |c.slots| && c.slots[c.ready[0]].state == Ready
    ensures var d := BeginResume(c);
            && Good(d) && RunningInv(d) && SameFrames(c.slots, d.slots) && d.waits == c.waits
            && d.log == c.log && |d.resumed| == |c.resumed| + 1
  {
    hide Good;
    BeginGood(c);
  }

  // ----- moves that end a resume ---------------------------------------------------------------------

  lemma RequeueMove(c: Core, i: nat)
    requires Good(c) && i < |c.slots| && c.slots[i].state == Running && c.current == Some(i)
    ensures var d := EndResume(Requeue(c, i), i, false);
            Good(d) && Ends(c, d) && SameFrames(c.slots, d.slots) && d.waits == c.waits
  {
    hide Good;
    RequeueGood(c, i);
    SuspendGood(Requeue(c, i), i);
  }

  lemma ParkMove(c: Core, i: nat, p: Place)
    requires Good(c) && i < |c.slots| && c.slots[i].state == Running && c.current == Some(i)
    ensures var d := EndResume(Park(c, i, p), i, false);
            Good(d) && Ends(c, d) && SameFrames(c.slots, d.slots) && d.waits == Pushed(c.waits, p, i)
  {
    hide Good;
    ParkGood(c, i, p);
    SuspendGood(Park(c, i, p), i);
  }

  lemma DelayMove(c: Core, i: nat, duration: nat)
    requires Good(c) && i < |c.slots| && c.slots[i].state == Running && c.current == Some(i)
    ensures var d := EndResume(ArmTimer(c, i, duration).0, i, false);
            Good(d) && Ends(c, d) && SameFrames(c.slots, d.slots) && d.waits == c.waits
  {
    hide Good;
    ArmTimerGood(c, i, duration);
    SuspendGood(ArmTimer(c, i, duration).0, i);
  }

  lemma ChildMove(c: Core, i: nat, frame: nat)
    requires Good(c) && i < |c.slots| && c.slots[i].state == Running && c.current == Some(i)
    ensures var (m, adopted) := StartChild(c, i, frame);
            var d := EndResume(m, i, false);
            && Good(d) && Ends(c, d) && d.waits == c.waits
            && (adopted ==> exists k :: Installed(c.slots, d.slots, k, frame))
            && (!adopted ==> SameFrames(c.slots, d.slots))
  {
    hide CoreInv, IssuedInv, FinishedInv;
    var m, r := StartChild(c, i, frame).0, Acquirable(c.slots);
    StartChildGood(c, i, frame);
    SuspendGood(m, i);
    if r.Some? {
      FreeSlot(c, r.value);
      assert Installed(c.slots, m.slots, r.value, frame);
    }
  }

  lemma OpaqueMove(c: Core, i: nat)
    requires Good(c) && i < |c.slots| && c.slots[i].state == Running && c.current == Some(i)
    ensures var d := EndResume(c, i, false);
            Good(d) && Ends(c, d) && SameFrames(c.slots, d.slots) && d.waits == c.waits
  {
    hide Good;
    SuspendGood(c, i);
  }

  /** Slot `i` gave up its frame. */
  ghost predicate Emptied(a: seq<Slot>, b: seq<Slot>, i: nat) {
    && |b| == |a| && i < |a| && a[i].frame.Some? && b[i].frame == None
    && forall k :: 0 <= k < |a| && k != i ==> b[k].frame == a[k].frame
  }

  lemma ReturnMove(c: Core, i: nat)
    requires Good(c) && i < |c.slots| && c.slots[i].state == Running && c.current == Some(i)
    ensures var d := EndResume(c, i, true);
            Good(d) && Ends(c, d) && Emptied(c.slots, d.slots, i) && d.waits == c.waits
  {
    hide Good;
    ReturnGood(c, i);
  }
}
