/** Which action changes what is shared with other contexts, and when the scan is between two steps. */
module RuntimeShared {
  import opened SchedulerCore
  import opened SchedulerTimers
  import opened Runtime

  predicate TouchesShared(a: Action) {
    a.SetFlag? || a.Give? || a.ClearFlag? || a.Reenter? || a.AwaitFlag? || a.PollBegin? || a.CheckPending? || a.TestFlag? || a.Take?
  }

  lemma AwaitShared(s: Sys, a: Action)
    requires Awaits(a) && AwaitEnabled(s, a) && !a.AwaitFlag?
    ensures AwaitStep(s, a).shared == s.shared && !AwaitStep(s, a).phase.Tested?
  {
    hide EndResume, Park, StartChild, ArmTimer, WakeFirst;
  }

  lemma SchedulerShared(s: Sys, a: Action)
    requires ByScheduler(a) && SchedulerEnabled(s, a)
    ensures !TouchesShared(a) ==> SchedulerStep(s, a).shared == s.shared
    ensures SchedulerStep(s, a).phase.Tested? ==> a.TestFlag?
  {
    hide ProcessDue, BeginResume, WakeFirst;
  }

  lemma UserShared(s: Sys, a: Action)
    requires !Awaits(a) && !ByScheduler(a) && !ByTokens(a) && UserEnabled(s, a)
    ensures !TouchesShared(a) ==> UserStep(s, a).shared == s.shared
    ensures UserStep(s, a).phase == s.phase
  {
    hide Schedule, WakeAll, WakeFirst;
  }

  /** What the action does not touch stays. */
  lemma SharedStays(s: Sys, a: Action)
    requires Enabled(s, a) && !TouchesShared(a)
    ensures Step(s, a).shared == s.shared
  {
    hide AwaitStep, SchedulerStep, UserStep, AwaitEnabled, SchedulerEnabled, UserEnabled, TokenStep, TokenEnabled;
    if Awaits(a) {
      AwaitShared(s, a);
    } else if ByScheduler(a) {
      SchedulerShared(s, a);
    } else if !ByTokens(a) {
      UserShared(s, a);
    }
  }

  /** The scan is in the middle of a round after its test only, until its move. */
  lemma TestedFollows(s: Sys, a: Action)
    requires Enabled(s, a)
    ensures s.phase.Tested? ==> a.SetFlag? || a.Give? || a.MoveFlag?
    ensures s.phase.Tested? && !a.MoveFlag? ==> Step(s, a).phase == s.phase
    ensures !s.phase.Tested? && !a.TestFlag? ==> !Step(s, a).phase.Tested?
    ensures a.MoveFlag? ==> !Step(s, a).phase.Tested?
  {
    hide AwaitStep, SchedulerStep, UserStep, TokenStep, TokenEnabled;
    if Awaits(a) {
      if !a.AwaitFlag? {
        AwaitShared(s, a);
      } else {
        AwaitFlagPhase(s, a);
      }
    } else if ByScheduler(a) {
      SchedulerShared(s, a);
    } else if !ByTokens(a) {
      UserShared(s, a);
    }
  }

  lemma AwaitFlagPhase(s: Sys, a: Action)
    requires a.AwaitFlag? && AwaitEnabled(s, a)
    ensures !AwaitStep(s, a).phase.Tested?
  {
  }

  /** What the touching actions do. */
  lemma SharedTouched(s: Sys, a: Action)
    requires Enabled(s, a) && TouchesShared(a) && !a.TestFlag?
    ensures var h, h' := s.shared, Step(s, a).shared;
            && (a.SetFlag? ==>
                  a.f < |h.signaled| && h'.signaled == h.signaled[a.f := true] && h'.pending && h'.token == h.token && h'.prepared == h.prepared
                  && h'.gives == if h.signaled[a.f] then h.gives else h.gives + 1)
            && (a.Give? ==> h.gives > 0 && h' == h.(gives := h.gives - 1, token := h.token || h.prepared))
            && (a.ClearFlag? || a.AwaitFlag? ==> a.f < |h.signaled| && h' == h.(signaled := h.signaled[a.f := false]))
            && (a.Reenter? ==> h' == h.(prepared := h.prepared || a.wait))
            && (a.PollBegin? ==> h' == h.(prepared := h.prepared || a.wait))
            && (a.CheckPending? ==> h' == h.(pending := false))
            && (a.Take? ==> h' == h.(token := false))
  {
    assert a.AwaitFlag? && !s.shared.signaled[a.f] ==> s.shared.signaled == s.shared.signaled[a.f := false];
  }

  /** The test takes a signal exactly when there is one and somebody waits for it. */
  lemma TestSignals(s: Sys)
    requires Enabled(s, TestFlag)
    ensures var h, h', rest := s.shared, Step(s, TestFlag).shared, s.phase.rest;
            if rest == [] then h' == h && !Step(s, TestFlag).phase.Tested?
            else
              var taken := h.signaled[rest[0]] && Waiters(s.core, FlagWait(rest[0])) != [];
              && h' == h.(signaled := if taken then h.signaled[rest[0] := false] else h.signaled)
              && Step(s, TestFlag).phase == Tested(s.phase.kept, rest, taken)
  {
  }
}
