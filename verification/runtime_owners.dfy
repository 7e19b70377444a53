/** What one action of the machine does to the frames: at most one is made or at most one destroyed. */
module RuntimeOwners {
  import opened SchedulerCore
  import opened Runtime
  import opened RuntimeInv
  import opened SchedulerHandles
  import opened SchedulerTimers

  predicate TouchesFrames(a: Action) { a.Spawn? || a.AwaitTask? || a.AwaitHeld? || a.Return? }

  lemma FramesStay(s: Sys, a: Action)
    requires Enabled(s, a) && !ByTokens(a) && !TouchesFrames(a)
    ensures Step(s, a).frames == s.frames
  {
    hide Schedule, WakeAll, WakeFirst, ProcessDue, BeginResume, EndResume, Park, Requeue, ArmTimer, TokenStep, TokenEnabled;
  }

  lemma FramesByTokens(s: Sys, a: Action)
    requires Enabled(s, a) && ByTokens(a)
    ensures TokenEnabled(s.frames, a) && Step(s, a).frames == TokenStep(s.frames, a)
  {
    hide TokenStep, TokenEnabled;
  }

  /** A frame is taken from its token, or one frame of `owners` is destroyed, or nothing happens. */
  ghost predicate GivesUp(fr: Frames, fr': Frames) {
    && fr'.made == fr.made && fr'.awaiters == fr.awaiters
    && (forall t :: t in fr'.tokens ==> t in fr.tokens && fr'.tokens[t] == fr.tokens[t])
    && ((fr'.live == fr.live && fr'.destroyed == fr.destroyed)
        || exists f :: f in fr.live && fr'.live == fr.live - {f} && fr'.destroyed == fr.destroyed + [f])
  }

  lemma DropGivesUp(slots: seq<Slot>, fr: Frames, t: nat)
    requires FramesInv(slots, fr)
    ensures GivesUp(fr, Drop(fr, t)) && GivesUp(fr, TakeFrame(fr, t)) && GivesUp(fr, fr)
  {
    assert t in fr.tokens ==> Owns(slots, fr.tokens, TokenOwner(t), fr.tokens[t]);
  }

  lemma DestroyGivesUp(slots: seq<Slot>, fr: Frames, i: nat)
    requires FramesInv(slots, fr) && i < |slots| && slots[i].frame.Some?
    ensures GivesUp(fr, Destroy(fr, slots[i].frame.value))
  {
    assert Owns(slots, fr.tokens, SlotOwner(i), slots[i].frame.value);
  }

  lemma Same(slots: seq<Slot>, fr: Frames)
    ensures GivesUp(fr, fr)
  {
  }

  lemma TouchGivesUp(s: Sys, a: Action)
    requires Inv(s) && Enabled(s, a) && TouchesFrames(a)
    ensures GivesUp(s.frames, Step(s, a).frames)
  {
    hide Good, PhaseInv, ObjectsInv, ArmedInv, SignalInv, TokenInv, FramesInv, GivesUp;
    hide Drop, TakeFrame, Destroy, Schedule, StartChild, EndResume;
    Same(s.core.slots, s.frames);
    match a
    case Spawn(t) => DropGivesUp(s.core.slots, s.frames, t);
    case AwaitTask(t) => DropGivesUp(s.core.slots, s.frames, t);
    case AwaitHeld(t) => DropGivesUp(s.core.slots, s.frames, t);
    case Return =>
      var i := Who(s);
      if s.core.slots[i].frame.Some? {
        DestroyGivesUp(s.core.slots, s.frames, i);
      }
  }

  /** Nothing is made, and nothing or one allocated frame is destroyed. */
  ghost predicate Releases(fr: Frames, fr': Frames) {
    && fr'.made == fr.made
    && ((fr'.live == fr.live && fr'.destroyed == fr.destroyed)
        || exists f :: f in fr.live && fr'.live == fr.live - {f} && fr'.destroyed == fr.destroyed + [f])
  }

  lemma TokensRelease(slots: seq<Slot>, fr: Frames, a: Action)
    requires FramesInv(slots, fr) && ByTokens(a) && TokenEnabled(fr, a) && !a.MakeTask?
    ensures Releases(fr, TokenStep(fr, a))
  {
    forall t | t in fr.tokens
      ensures fr.tokens[t] in fr.live
    {
      assert Owns(slots, fr.tokens, TokenOwner(t), fr.tokens[t]);
    }
    hide FramesInv;
  }

  /** The machine makes a frame in one action only, and any other action destroys at most one frame. */
  lemma MakesOrReleases(s: Sys, a: Action)
    requires Inv(s) && Enabled(s, a)
    ensures !a.MakeTask? || a.exhausted ==> Releases(s.frames, Step(s, a).frames)
    ensures a.MakeTask? && !a.exhausted ==>
              var fr := Step(s, a).frames;
              && fr.made == s.frames.made + 1 && fr.live == s.frames.live + {s.frames.made} && fr.destroyed == s.frames.destroyed
  {
    hide Inv, Enabled, Step, TokenEnabled;
    if ByTokens(a) {
      FramesByTokens(s, a);
      if !a.MakeTask? {
        FramesOf(s);
        TokensRelease(s.core.slots, s.frames, a);
      }
    } else if TouchesFrames(a) {
      TouchGivesUp(s, a);
    } else {
      FramesStay(s, a);
    }
  }

  lemma FramesOf(s: Sys)
    requires Inv(s)
    ensures FramesInv(s.core.slots, s.frames)
  {
    hide Good, PhaseInv, ObjectsInv, ArmedInv, SignalInv, TokenInv, FramesInv;
  }
}
