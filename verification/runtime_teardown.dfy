/**
 The destruction of the scheduler in any reachable state: each slot's frame is destroyed once, in slot
 order, while destructors of what is inside may go on using Tasks and may call back into the scheduler.
 */
module RuntimeTeardown {
  import opened Wrappers
  import opened SchedulerCore
  import opened SchedulerHandles
  import opened SchedulerTeardown
  import opened Runtime
  import opened RuntimeInv
  import opened RuntimeRuns
  import RuntimeFrames

  /** The slots, the number of slots already visited, the frames. */
  datatype Down = Down(slots: seq<Slot>, visited: nat, frames: Frames)

  /** The destructor visits a slot, or code that it runs uses Tasks and awaiters or calls the scheduler. */
  datatype DownAction = Visit | UseTask(a: Action) | CreateTask(t: nat) | PollAgain

  function Begin(s: Sys): Down { Down(s.core.slots, 0, s.frames) }

  predicate DownEnabled(d: Down, a: DownAction) {
    match a
    case Visit => d.visited < |d.slots|
    case UseTask(b) => ByTokens(b) && TokenEnabled(d.frames, b)
    case CreateTask(t) => t !in d.frames.awaiters
    case PollAgain => true
  }

  /** The slot is detached, then its frame destroyed; what comes back into the scheduler is refused. */
  function DownStep(d: Down, a: DownAction): Down
    requires DownEnabled(d, a)
  {
    match a
    case Visit =>
      var s := d.slots[d.visited];
      Down(d.slots[d.visited := Emptied(s)], d.visited + 1, if Owning(s) then Destroy(d.frames, s.frame.value) else d.frames)
    case UseTask(b) => d.(frames := TokenStep(d.frames, b))
    case CreateTask(_) => d
    case PollAgain => d
  }

  predicate CanTear(d: Down, acts: seq<DownAction>)
    decreases |acts|
  {
    acts == [] || (DownEnabled(d, acts[0]) && CanTear(DownStep(d, acts[0]), acts[1..]))
  }

  function Tear(d: Down, acts: seq<DownAction>): Down
    requires CanTear(d, acts)
    decreases |acts|
  {
    if acts == [] then d else Tear(DownStep(d, acts[0]), acts[1..])
  }

  /** What holds in the middle of the teardown of `slots`, which began with the frames `before` destroyed. */
  ghost predicate DownInv(d: Down, slots: seq<Slot>, before: seq<nat>) {
    && FramesInv(d.slots, d.frames) && d.visited <= |slots| && d.slots == Torn(slots, d.visited)
    && before <= d.frames.destroyed
    && forall i :: 0 <= i < d.visited && Owning(slots[i]) ==> slots[i].frame.value in d.frames.destroyed[|before|..]
  }

  lemma DestroyedGrows(fr: Frames, a: Action)
    requires ByTokens(a) && TokenEnabled(fr, a)
    ensures fr.destroyed <= TokenStep(fr, a).destroyed
  {
  }

  lemma TailGrows(before: seq<nat>, a: seq<nat>, b: seq<nat>)
    requires before <= a <= b
    ensures before <= b && a[|before|..] <= b[|before|..]
  {
  }

  lemma StepKeepsDown(d: Down, a: DownAction, slots: seq<Slot>, before: seq<nat>)
    requires DownInv(d, slots, before) && DownEnabled(d, a)
    ensures DownInv(DownStep(d, a), slots, before)
  {
    hide FramesInv, TokenStep, TokenEnabled, Torn, Emptied, Owning;
    match a
    case Visit => VisitKeeps(d, slots, before);
    case UseTask(b) =>
      RuntimeFrames.TokensKeep(d.slots, d.frames, b);
      DestroyedGrows(d.frames, b);
      TailGrows(before, d.frames.destroyed, TokenStep(d.frames, b).destroyed);
    case _ =>
  }

  lemma VisitKeeps(d: Down, slots: seq<Slot>, before: seq<nat>)
    requires DownInv(d, slots, before) && DownEnabled(d, Visit)
    ensures DownInv(DownStep(d, Visit), slots, before)
  {
    hide FramesInv, Torn;
    var i := d.visited;
    TornNext(slots, i);
    if Owning(slots[i]) {
      var after := Destroy(d.frames, slots[i].frame.value).destroyed;
      RuntimeFrames.FinishKeeps(d.slots, d.slots[i := Emptied(slots[i])], d.frames, i);
      TailGrows(before, d.frames.destroyed, after);
      assert after[|before|..][|d.frames.destroyed| - |before|] == slots[i].frame.value;
    } else {
      assert d.slots[i := Emptied(slots[i])] == d.slots;
    }
  }

  lemma {:induction false} TearKeepsDown(d: Down, acts: seq<DownAction>, slots: seq<Slot>, before: seq<nat>)
    requires DownInv(d, slots, before) && CanTear(d, acts)
    ensures DownInv(Tear(d, acts), slots, before)
    decreases |acts|
  {
    hide DownInv, DownEnabled, DownStep;
    if acts != [] {
      StepKeepsDown(d, acts[0], slots, before);
      TearKeepsDown(DownStep(d, acts[0]), acts[1..], slots, before);
    }
  }

  /** A frame is owned by a Task or an awaiter. */
  predicate TokenOwned(fr: Frames, f: nat) { exists t :: t in fr.tokens && fr.tokens[t] == f }

  lemma AtBegin(s: Sys)
    requires Inv(s)
    ensures DownInv(Begin(s), s.core.slots, s.frames.destroyed)
    ensures forall i :: 0 <= i < |s.core.slots| && s.core.slots[i].frame.Some? ==> Owning(s.core.slots[i])
  {
    hide HandleInv, PhaseInv, ObjectsInv, ArmedInv, SignalInv, TokenInv, ReadyInv, WaitInv, TimerInv, ParentInv, FramesInv;
    TornNone(s.core.slots);
  }

  lemma TokensOnly(slots: seq<Slot>, fr: Frames)
    requires FramesInv(slots, fr) && forall i :: 0 <= i < |slots| ==> slots[i].frame == None
    ensures forall f :: f in fr.live <==> TokenOwned(fr, f)
    ensures Distinct(fr.destroyed) && forall f :: f in fr.destroyed ==> f !in fr.live
  {
    forall f
      ensures f in fr.live <==> TokenOwned(fr, f)
    {
      if f in fr.live {
        var o :| Owns(slots, fr.tokens, o, f);
        assert o.TokenOwner? && o.t in fr.tokens && fr.tokens[o.t] == f;
      }
      if TokenOwned(fr, f) {
        var t :| t in fr.tokens && fr.tokens[t] == f;
        assert Owns(slots, fr.tokens, TokenOwner(t), f);
      }
    }
  }

  lemma OldInNew(before: seq<nat>, after: seq<nat>, f: nat)
    requires before <= after && Distinct(after) && f in after[|before|..]
    ensures f !in before
  {
    var k :| 0 <= k < |after[|before|..]| && after[|before|..][k] == f;
    assert after[|before| + k] == f;
  }

  /**
   Teardown of any state that satisfies the global invariant, whatever the destructors do meanwhile:
   when every slot was visited, each frame that a slot owned was destroyed in the teardown, exactly
   once and none before; no slot owns a frame; and the frames that are left are exactly those that
   Tasks and awaiters own.
   */
  lemma TeardownDestroysOnce(s: Sys, acts: seq<DownAction>)
    requires Inv(s) && CanTear(Begin(s), acts) && Tear(Begin(s), acts).visited == |s.core.slots|
    ensures var d := Tear(Begin(s), acts);
            && s.frames.destroyed <= d.frames.destroyed && Distinct(d.frames.destroyed)
            && (forall i :: 0 <= i < |s.core.slots| && s.core.slots[i].frame.Some? ==>
                  && s.core.slots[i].frame.value in d.frames.destroyed[|s.frames.destroyed|..]
                  && s.core.slots[i].frame.value !in s.frames.destroyed)
            && d.slots == Torn(s.core.slots, |s.core.slots|) && (forall i :: 0 <= i < |d.slots| ==> d.slots[i].frame == None)
            && |d.slots| == |s.core.slots| && (forall i :: 0 <= i < |d.slots| ==>
                  d.slots[i] == if s.core.slots[i].frame.Some? then s.core.slots[i].(frame := None, state := Completed) else s.core.slots[i])
            && forall f :: f in d.frames.live <==> TokenOwned(d.frames, f)
  {
    hide Inv, CanTear, Tear, FramesInv, TokenOwned;
    AtBegin(s);
    TearKeepsDown(Begin(s), acts, s.core.slots, s.frames.destroyed);
    var d := Tear(Begin(s), acts);
    assert forall i :: 0 <= i < |d.slots| ==> d.slots[i] == Emptied(s.core.slots[i]);
    TokensOnly(d.slots, d.frames);
    forall i | 0 <= i < |s.core.slots| && s.core.slots[i].frame.Some?
      ensures s.core.slots[i].frame.value !in s.frames.destroyed
    {
      OldInNew(s.frames.destroyed, d.frames.destroyed, s.core.slots[i].frame.value);
    }
  }

  /** The same from the start of the runtime, over every run and every teardown. */
  lemma TeardownOfEveryRun(n: nat, events: nat, capacities: seq<nat>, flags: nat, run: seq<Action>, acts: seq<DownAction>)
    requires forall q :: 0 <= q < |capacities| ==> capacities[q] > 0
    requires CanRun(Start(n, events, capacities, flags), run)
    requires CanTear(Begin(Run(Start(n, events, capacities, flags), run)), acts)
    requires var s := Run(Start(n, events, capacities, flags), run); Tear(Begin(s), acts).visited == |s.core.slots|
    ensures var d := Tear(Begin(Run(Start(n, events, capacities, flags), run)), acts);
            && (forall i :: 0 <= i < |d.slots| ==> d.slots[i].frame == None)
            && (forall f :: f in d.frames.live <==> TokenOwned(d.frames, f))
            && (d.frames.tokens == map[] ==>
                  d.frames.live == {} && Distinct(d.frames.destroyed) && forall f :: f in d.frames.destroyed <==> 0 <= f < d.frames.made)
  {
    hide Inv, CanRun, Run, CanTear, Tear, Start, FramesInv;
    EveryRun(n, events, capacities, flags, run);
    var s := Run(Start(n, events, capacities, flags), run);
    TeardownDestroysOnce(s, acts);
    AtBegin(s);
    TearKeepsDown(Begin(s), acts, s.core.slots, s.frames.destroyed);
    if Tear(Begin(s), acts).frames.tokens == map[] {
      AllAccounted(Tear(Begin(s), acts));
    }
  }

  lemma AllAccounted(d: Down)
    requires FramesInv(d.slots, d.frames)
    requires d.frames.tokens == map[] && forall f :: f in d.frames.live <==> TokenOwned(d.frames, f)
    ensures d.frames.live == {} && forall f :: f in d.frames.destroyed <==> 0 <= f < d.frames.made
  {
    assert forall f :: f !in d.frames.live;
  }

  // ----- a teardown in which no destructor interferes ------------------------------------------------------

  function Visits(n: nat): seq<DownAction> { seq(n, _ => Visit) }

  lemma {:induction false} VisitsFrom(d: Down, slots: seq<Slot>, destroyed: seq<nat>, n: nat)
    requires d.visited + n == |slots| && d.slots == Torn(slots, d.visited)
    requires d.frames.destroyed == destroyed + OwnedFrames(slots, d.visited)
    ensures CanTear(d, Visits(n))
    ensures var e := Tear(d, Visits(n));
            && e.visited == |slots| && e.frames.destroyed == destroyed + OwnedFrames(slots, |slots|)
            && e.frames.tokens == d.frames.tokens
    decreases n
  {
    hide Torn, OwnedFrames, Owning, Emptied;
    if n > 0 {
      TornNext(slots, d.visited);
      assert Visits(n)[0] == Visit && Visits(n)[1..] == Visits(n - 1);
      VisitsOne(d, slots, destroyed);
      VisitsFrom(DownStep(d, Visit), slots, destroyed, n - 1);
    }
  }

  lemma VisitsOne(d: Down, slots: seq<Slot>, destroyed: seq<nat>)
    requires d.visited < |slots| && d.slots == Torn(slots, d.visited)
    requires d.frames.destroyed == destroyed + OwnedFrames(slots, d.visited)
    ensures DownEnabled(d, Visit)
    ensures var e := DownStep(d, Visit);
            && e.visited == d.visited + 1 && e.slots == Torn(slots, d.visited + 1)
            && e.frames.destroyed == destroyed + OwnedFrames(slots, d.visited + 1) && e.frames.tokens == d.frames.tokens
  {
    hide Torn, OwnedFrames;
    TornNext(slots, d.visited);
    if !Owning(slots[d.visited]) {
      assert d.slots[d.visited := Emptied(slots[d.visited])] == d.slots;
    }
  }

  /** Then the destroyed frames are exactly the owned ones in slot order, as the scheduler's destructor returns them. */
  lemma TeardownInOrder(s: Sys)
    requires Inv(s)
    ensures CanTear(Begin(s), Visits(|s.core.slots|))
    ensures var d := Tear(Begin(s), Visits(|s.core.slots|));
            && d.slots == Torn(s.core.slots, |s.core.slots|)
            && d.frames.destroyed == s.frames.destroyed + OwnedFrames(s.core.slots, |s.core.slots|)
            && d.frames.tokens == s.frames.tokens && forall f :: f in d.frames.live <==> TokenOwned(s.frames, f)
  {
    hide Inv, CanTear, Tear;
    TornNone(s.core.slots);
    VisitsFrom(Begin(s), s.core.slots, s.frames.destroyed, |s.core.slots|);
    TeardownDestroysOnce(s, Visits(|s.core.slots|));
  }
}
