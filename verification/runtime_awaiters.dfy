/**
 Awaiter objects for a child Task, which may be kept and moved before they are awaited. Only the move
 and the first await empty an awaiter that was made from a Task with a frame, and neither notes it: the
 code then hands a null handle to the scheduler. This module says exactly when an await is safe.
 */
module RuntimeAwaiters {
  import opened Wrappers
  import opened SchedulerCore
  import opened SchedulerHandles
  import opened Runtime
  import opened RuntimeInv
  import opened RuntimeQuiet
  import opened RuntimeRuns
  import opened RuntimeOwners
  import RuntimeSteps

  /** The await goes on in a state of the machine, or the code destroys a null handle, which is undefined. */
  datatype Outcome = Goes(s: Sys) | DestroysNull

  /** `co_await` of any awaiter, with what the code does when it owns nothing and does not know it. */
  function AwaitOn(s: Sys, a: nat): Outcome
    requires InSlot(s) && a in s.frames.awaiters
  {
    if s.frames.awaiters[a] || a in s.frames.tokens then Goes(AwaitAwaiter(s, a))
    else
      match Acquirable(s.core.slots)
      case None => DestroysNull
      case Some(k) => Goes(Suspend(s, AdoptNull(s.core, Who(s), k)))
  }

  /** `start_child_await` of a null handle: slot `k` is queued as ready without a frame. */
  function AdoptNull(c: Core, i: nat, k: nat): Core
    requires k < |c.slots|
  {
    var d := SetState(Install(c, k, 0, Some(i)), i, WaitingChild);
    d.(slots := d.slots[k := d.slots[k].(frame := None)])
  }

  /** Nothing is adopted, nothing is destroyed, the running task goes on and the error is reported. */
  predicate ReportsOnly(s: Sys, o: Outcome) { o == Goes(Fail(s, TaskAwaitedTwice)) }

  /** A slot is queued to be resumed although it has no frame. */
  predicate QueuesNull(o: Outcome) {
    o.Goes? && exists k: nat :: k < |o.s.core.slots| && k in o.s.core.ready && o.s.core.slots[k].state == Ready && o.s.core.slots[k].frame == None
  }

  lemma AdoptsNull(c: Core, i: nat, k: nat)
    requires CoreInv(c) && k < |c.slots| && i < |c.slots| && c.slots[i].state == Running && !Live(c.slots[k])
    ensures var d := AdoptNull(c, i, k);
            && k < |d.slots| && i < |d.slots| && d.slots[i].state == WaitingChild && i != k
            && d.ready == c.ready + [k] && d.slots[k].state == Ready && d.slots[k].frame == None
  {
  }

  lemma SlotKept(s: Sys, c: Core, k: nat)
    requires InSlot(s) && Who(s) < |c.slots| && c.slots[Who(s)].state != Running && k < |c.slots|
    ensures Suspend(s, c).core.slots == c.slots && Suspend(s, c).core.ready == c.ready
  {
  }

  /**
   Awaiting an awaiter that owns nothing is reported, and adopts nothing, if and only if the awaiter was
   made from an empty Task. Otherwise a slot without a frame is queued for the next pass, or, with no
   slot to be had, a null handle is destroyed.
   */
  lemma OwnerlessAwait(s: Sys, a: nat)
    requires Inv(s) && InBody(s) && a in s.frames.awaiters && a !in s.frames.tokens
    ensures ReportsOnly(s, AwaitOn(s, a)) <==> s.frames.awaiters[a]
    ensures !s.frames.awaiters[a] ==> QueuesNull(AwaitOn(s, a)) || AwaitOn(s, a) == DestroysNull
    ensures !s.frames.awaiters[a] && Acquirable(s.core.slots).Some? ==> !Inv(AwaitOn(s, a).s)
  {
    hide Inv, Suspend, AdoptNull, Acquirable;
    BodyFacts(s);
    CoreOf(s);
    if !s.frames.awaiters[a] && Acquirable(s.core.slots).Some? {
      var i, k := Who(s), Acquirable(s.core.slots).value;
      AdoptsNull(s.core, i, k);
      var c := AdoptNull(s.core, i, k);
      SlotKept(s, c, k);
      var t := Suspend(s, c);
      assert k in t.core.ready;
      assert QueuesNull(Goes(t));
      NotInv(t, k);
      assert t.core.slots[i].state != s.core.slots[i].state;
    }
  }

  lemma CoreOf(s: Sys)
    requires Inv(s)
    ensures CoreInv(s.core)
  {
    hide CoreInv, HandleInv, PhaseInv, ObjectsInv, ArmedInv, SignalInv, TokenInv, FramesInv;
  }

  lemma NotInv(s: Sys, k: nat)
    requires k < |s.core.slots| && s.core.slots[k].state == Ready && s.core.slots[k].frame == None
    ensures !Inv(s)
  {
    hide HandleInv, PhaseInv, ObjectsInv, ArmedInv, SignalInv, TokenInv, FramesInv, ReadyInv, WaitInv, TimerInv, ParentInv, CurrentInv;
  }

  /** Where the machine lets an awaiter be awaited, it does what the code does. */
  lemma AwaitAgrees(s: Sys, a: nat)
    requires Enabled(s, AwaitHeld(a))
    ensures AwaitOn(s, a) == Goes(Step(s, AwaitHeld(a)))
  {
  }

  /** In every state of every run, an awaiter made from an empty Task owns nothing. */
  ghost predicate NotesInv(fr: Frames) { forall a :: a in fr.awaiters && fr.awaiters[a] ==> a !in fr.tokens }

  lemma TokensKeepNotes(fr: Frames, a: Action)
    requires NotesInv(fr) && ByTokens(a) && TokenEnabled(fr, a)
    ensures NotesInv(TokenStep(fr, a))
  {
  }

  lemma GivingUpKeepsNotes(fr: Frames, fr': Frames)
    requires NotesInv(fr) && GivesUp(fr, fr')
    ensures NotesInv(fr')
  {
  }

  lemma StepKeepsNotes(s: Sys, a: Action)
    requires Inv(s) && Enabled(s, a) && NotesInv(s.frames)
    ensures NotesInv(Step(s, a).frames)
  {
    hide Inv, TokenStep, TokenEnabled, NotesInv, GivesUp;
    hide Enabled, Step;
    if ByTokens(a) {
      FramesByTokens(s, a);
      TokensKeepNotes(s.frames, a);
    } else if TouchesFrames(a) {
      TouchGivesUp(s, a);
      GivingUpKeepsNotes(s.frames, Step(s, a).frames);
    } else {
      FramesStay(s, a);
    }
  }

  lemma {:induction false} RunKeepsNotes(s: Sys, acts: seq<Action>)
    requires Inv(s) && CanRun(s, acts) && NotesInv(s.frames)
    ensures NotesInv(Run(s, acts).frames)
    decreases |acts|
  {
    hide Inv, Enabled, Step, NotesInv;
    if acts != [] {
      StepKeepsNotes(s, acts[0]);
      RuntimeSteps.StepKeepsInv(s, acts[0]);
      RunKeepsNotes(Step(s, acts[0]), acts[1..]);
    }
  }

  /**
   In every state of every run, awaiting an awaiter keeps to the machine exactly when its note tells
   whether it owns a frame; what the machine excludes is just the awaiter that lost its frame to a move
   or to an earlier await.
   */
  lemma AwaitIsSafeIff(n: nat, events: nat, capacities: seq<nat>, flags: nat, acts: seq<Action>, a: nat)
    requires forall q :: 0 <= q < |capacities| ==> capacities[q] > 0
    requires CanRun(Start(n, events, capacities, flags), acts)
    requires var s := Run(Start(n, events, capacities, flags), acts); InBody(s) && a in s.frames.awaiters
    ensures var s := Run(Start(n, events, capacities, flags), acts);
            && (Enabled(s, AwaitHeld(a)) <==> (s.frames.awaiters[a] <==> a !in s.frames.tokens))
            && (Enabled(s, AwaitHeld(a)) ==> AwaitOn(s, a) == Goes(Step(s, AwaitHeld(a))) && Inv(AwaitOn(s, a).s))
            && (!Enabled(s, AwaitHeld(a)) ==> QueuesNull(AwaitOn(s, a)) || AwaitOn(s, a) == DestroysNull)
  {
    hide Inv, CanRun, Run, NotesInv, Step, AwaitOn, QueuesNull;
    var s := Run(Start(n, events, capacities, flags), acts);
    StartNotes(n, events, capacities, flags);
    StartInv(n, events, capacities, flags);
    EveryRun(n, events, capacities, flags, acts);
    RunKeepsNotes(Start(n, events, capacities, flags), acts);
    NoteAt(s.frames, a);
    if Enabled(s, AwaitHeld(a)) {
      AwaitAgrees(s, a);
      RuntimeSteps.StepKeepsInv(s, AwaitHeld(a));
    } else {
      OwnerlessAwait(s, a);
    }
  }

  lemma StartNotes(n: nat, events: nat, capacities: seq<nat>, flags: nat)
    ensures NotesInv(Start(n, events, capacities, flags).frames)
  {
  }

  lemma NoteAt(fr: Frames, a: nat)
    requires NotesInv(fr) && a in fr.awaiters
    ensures fr.awaiters[a] ==> a !in fr.tokens
  {
  }

  /** An input for which it fails, from any state in which a task runs: make, `co_await`, move, await the old one. */
  lemma MovedFromAwaiter(s: Sys, t: nat, a: nat, b: nat)
    requires Inv(s) && InBody(s) && t != a && t != b && a != b
    requires forall x :: x == t || x == a || x == b ==> x !in s.frames.tokens && x !in s.frames.awaiters
    ensures CanRun(s, [MakeTask(t, false), CoAwait(t, a), MoveAwaiter(a, b)])
    ensures var u := Run(s, [MakeTask(t, false), CoAwait(t, a), MoveAwaiter(a, b)]);
            && Inv(u) && InBody(u) && u.core == s.core && u.frames.tokens == s.frames.tokens[b := s.frames.made]
            && a in u.frames.awaiters && !Enabled(u, AwaitHeld(a)) && Enabled(u, AwaitHeld(b))
            && !ReportsOnly(u, AwaitOn(u, a)) && (QueuesNull(AwaitOn(u, a)) || AwaitOn(u, a) == DestroysNull)
  {
    hide Inv, Step, Enabled, TokenStep, AwaitOn, QueuesNull, ReportsOnly;
    var x, y, z := MakeTask(t, false), CoAwait(t, a), MoveAwaiter(a, b);
    TokensAfter(s.frames, t, a, b);
    Using(s, x);
    Using(Step(s, x), y);
    Using(Step(Step(s, x), y), z);
    ThreeSteps(s, x, y, z);
    RunKeepsInv(s, [x, y, z]);
    var u := Run(s, [x, y, z]);
    OwnerlessAwait(u, a);
    HeldIff(u, a);
    HeldIff(u, b);
  }

  lemma HeldIff(s: Sys, a: nat)
    requires InBody(s) && a in s.frames.awaiters
    ensures Enabled(s, AwaitHeld(a)) <==> s.frames.awaiters[a] || a in s.frames.tokens
  {
  }

  lemma Using(s: Sys, a: Action)
    requires InBody(s) && ByTokens(a) && TokenEnabled(s.frames, a) && !(a.MakeTask? && a.exhausted)
    ensures Enabled(s, a) && Step(s, a) == s.(frames := TokenStep(s.frames, a))
  {
  }

  lemma ThreeSteps(s: Sys, x: Action, y: Action, z: Action)
    requires Enabled(s, x) && Enabled(Step(s, x), y) && Enabled(Step(Step(s, x), y), z)
    ensures CanRun(s, [x, y, z]) && Run(s, [x, y, z]) == Step(Step(Step(s, x), y), z)
  {
    hide Enabled, Step;
    assert [x, y, z][1..] == [y, z] && [y, z][1..] == [z] && [z][1..] == [];
    var u := Step(Step(s, x), y);
    assert CanRun(Step(u, z), []) && Run(Step(u, z), []) == Step(u, z);
    assert CanRun(u, [z]) && Run(u, [z]) == Step(u, z);
    assert CanRun(Step(s, x), [y, z]) && Run(Step(s, x), [y, z]) == Step(u, z);
  }

  lemma TokensAfter(fr: Frames, t: nat, a: nat, b: nat)
    requires t != a && t != b && a != b
    requires forall x :: x == t || x == a || x == b ==> x !in fr.tokens && x !in fr.awaiters
    ensures TokenEnabled(fr, MakeTask(t, false))
    ensures var f := TokenStep(fr, MakeTask(t, false));
            TokenEnabled(f, CoAwait(t, a)) && TokenEnabled(TokenStep(f, CoAwait(t, a)), MoveAwaiter(a, b))
    ensures var f := TokenStep(TokenStep(fr, MakeTask(t, false)), CoAwait(t, a));
            var g := TokenStep(f, MoveAwaiter(a, b));
            g.tokens == fr.tokens[b := fr.made] && g.awaiters == fr.awaiters[a := false][b := false]
  {
    var f := TokenStep(fr, MakeTask(t, false));
    assert f.tokens == fr.tokens[t := fr.made];
    var g := TokenStep(f, CoAwait(t, a));
    assert g.tokens == fr.tokens[a := fr.made];
  }
}
