/** How each step of the flag protocol keeps wake-ups from being lost. */
module RuntimeSignals {
  import opened Runtime
  import opened RuntimeInv

  /** Both promises of the protocol. */
  ghost predicate Promises(phase: Phase, armed: seq<nat>, waiting: bool, h: Shared) {
    SignalInv(phase, armed, h) && TokenInv(phase, armed, waiting, h)
  }

  lemma SetKeeps(phase: Phase, armed: seq<nat>, waiting: bool, h: Shared, f: nat)
    requires Promises(phase, armed, waiting, h) && f < |h.signaled|
    ensures Promises(phase, armed, waiting, SetSignal(h, f))
  {
    var h' := SetSignal(h, f);
    assert forall g :: g != f && Signaled(phase, armed, h', g) ==> Signaled(phase, armed, h, g);
    assert h.signaled[f] && Signaled(phase, armed, h', f) ==> Signaled(phase, armed, h, f);
  }

  lemma GiveKeeps(phase: Phase, armed: seq<nat>, waiting: bool, h: Shared)
    requires Promises(phase, armed, waiting, h) && h.gives > 0
    ensures Promises(phase, armed, waiting, GiveToken(h))
  {
    assert forall g :: Signaled(phase, armed, GiveToken(h), g) ==> Signaled(phase, armed, h, g);
  }

  lemma ClearKeeps(phase: Phase, armed: seq<nat>, waiting: bool, h: Shared, f: nat)
    requires Promises(phase, armed, waiting, h) && f < |h.signaled|
    ensures Promises(phase, armed, waiting, ClearSignal(h, f))
  {
    assert forall g :: Signaled(phase, armed, ClearSignal(h, f), g) ==> Signaled(phase, armed, h, g);
  }

  lemma PrepareKeeps(phase: Phase, armed: seq<nat>, waiting: bool, h: Shared, p: bool)
    requires Promises(phase, armed, waiting, h) && (h.prepared ==> p)
    ensures Promises(phase, armed, waiting, h.(prepared := p))
  {
    assert forall g :: Signaled(phase, armed, h.(prepared := p), g) ==> Signaled(phase, armed, h, g);
  }

  predicate Calm(phase: Phase) { Unvisited(phase) == [] && !phase.Parking? }

  predicate Outside(phase: Phase) { phase.Idle? || phase.Signals? }

  /** A step of the scheduler that is not part of the scan. */
  lemma PhaseKeeps(phase: Phase, phase': Phase, armed: seq<nat>, waiting: bool, h: Shared)
    requires Promises(phase, armed, waiting, h)
    requires Unvisited(phase) == [] && Calm(phase')
    requires Outside(phase) ==> Outside(phase')
    requires phase'.WaitCheck? || phase'.WaitTake? ==> waiting
    ensures Promises(phase', armed, waiting, h)
  {
    assert forall g :: Signaled(phase', armed, h, g) ==> Signaled(phase, armed, h, g);
  }

  /** `park` arms the flag that the await was about to wait for. */
  lemma ParkKeeps(phase: Phase, left: nat, armed: seq<nat>, waiting: bool, h: Shared)
    requires Promises(phase, armed, waiting, h) && phase.Parking?
    ensures Promises(Pass(left), [phase.f] + armed, waiting, h)
  {
    var armed' := [phase.f] + armed;
    assert forall g :: g in armed' <==> g in armed || g == phase.f;
    assert forall g :: Signaled(Pass(left), armed', h, g) ==> Signaled(phase, armed, h, g);
  }

  /** `consume` saw no signal; a `set()` may land before `park`. */
  lemma ConsumeKeeps(phase: Phase, left: nat, f: nat, armed: seq<nat>, waiting: bool, h: Shared)
    requires Promises(phase, armed, waiting, h) && phase.Body? && f < |h.signaled| && !h.signaled[f]
    ensures Promises(Parking(left, f), armed, waiting, h)
  {
    assert forall g :: Signaled(Parking(left, f), armed, h, g) ==> Signaled(phase, armed, h, g);
  }

  lemma BeginKeeps(armed: seq<nat>, waiting: bool, h: Shared, wait: bool)
    requires Promises(Idle, armed, waiting, h)
    ensures Promises(Signals, armed, wait, h.(prepared := h.prepared || wait))
  {
    var h' := h.(prepared := h.prepared || wait);
    forall g | Signaled(Signals, armed, h', g)
      ensures h'.pending
    {
      assert Signaled(Idle, armed, h, g);
    }
  }

  /** Testing the pending mark: from here on, all armed flags are unvisited, or none is signaled. */
  lemma CheckKeeps(armed: seq<nat>, waiting: bool, h: Shared)
    requires Promises(Signals, armed, waiting, h)
    ensures h.pending ==> Promises(Scan([], armed), armed, waiting, h.(pending := false))
    ensures !h.pending ==> Promises(Timers, armed, waiting, h)
  {
    assert forall g :: Signaled(Timers, armed, h, g) ==> Signaled(Signals, armed, h, g);
  }

  lemma ScanEndKeeps(kept: seq<nat>, armed: seq<nat>, waiting: bool, h: Shared)
    requires Promises(Scan(kept, []), armed, waiting, h)
    ensures Promises(Timers, armed, waiting, h)
  {
    assert forall g :: Signaled(Timers, armed, h, g) ==> Signaled(Scan(kept, []), armed, h, g);
  }

  /** Testing one flag: a signaled one is consumed, so it may be counted as visited. */
  lemma TestKeeps(kept: seq<nat>, rest: seq<nat>, armed: seq<nat>, waiting: bool, h: Shared, wake: bool)
    requires Promises(Scan(kept, rest), armed, waiting, h) && rest != [] && rest[0] < |h.signaled|
    requires wake <==> h.signaled[rest[0]]
    ensures Promises(Tested(kept, rest, wake), armed, waiting, if wake then ClearSignal(h, rest[0]) else h)
  {
    var h' := if wake then ClearSignal(h, rest[0]) else h;
    var t := Tested(kept, rest, wake);
    forall g | Signaled(t, armed, h', g)
      ensures Signaled(Scan(kept, rest), armed, h, g) && g != rest[0]
    {
    }
    assert forall g :: g in rest && g != rest[0] ==> g in rest[1..];
  }

  /** Going on: the flag is unlinked, or stays behind as visited. */
  lemma MoveKeeps(kept: seq<nat>, rest: seq<nat>, wake: bool, armed: seq<nat>, waiting: bool, h: Shared, kept': seq<nat>, armed': seq<nat>)
    requires Promises(Tested(kept, rest, wake), armed, waiting, h) && rest != []
    requires forall f :: f in armed' ==> f in armed
    ensures Promises(Scan(kept', rest[1..]), armed', waiting, h)
  {
    assert forall g :: Signaled(Scan(kept', rest[1..]), armed', h, g) ==> Signaled(Tested(kept, rest, wake), armed, h, g);
  }
}
