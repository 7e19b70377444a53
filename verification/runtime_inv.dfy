/** What holds in every state of every run, component by component. */
module RuntimeInv {
  import opened Wrappers
  import opened SchedulerCore
  import opened SchedulerHandles
  import opened Runtime

  /** Where the pass is: who runs, and how many of the snapshotted slots are still to be resumed. */
  ghost predicate PhaseInv(phase: Phase, c: Core, mark: nat, armed: seq<nat>, flags: nat) {
    match phase
    case Pass(left) => c.current == None && |c.resumed| + left == mark <= |c.log|
    case Body(left) => RunningInv(c) && |c.resumed| + left == mark <= |c.log|
    case Parking(left, f) => RunningInv(c) && |c.resumed| + left == mark <= |c.log| && f < flags
    case Scan(kept, rest) => c.current == None && armed == kept + rest
    case Tested(kept, rest, _) => c.current == None && armed == kept + rest && rest != []
    case WaitTake => c.current == None && c.ready == [] && (c.nearest != UINT64_MAX || armed != [])
    case _ => c.current == None
  }

  ghost predicate RunningInv(c: Core) {
    c.current.Some? && c.current.value < |c.slots| && c.slots[c.current.value].state == Running
  }

  /** A set event has no waiters; waits on a queue mean that it is empty or full. */
  ghost predicate ObjectsInv(events: seq<bool>, queues: seq<Buffer>, waits: Waits) {
    && (forall e :: 0 <= e < |events| && events[e] ==> WaitersIn(waits, EventWait(e)) == [])
    && (forall q :: 0 <= q < |queues| ==>
          && queues[q].count <= queues[q].capacity && queues[q].capacity > 0
          && (WaitersIn(waits, ReceiveWait(q)) != [] ==> queues[q].count == 0)
          && (WaitersIn(waits, SendWait(q)) != [] ==> queues[q].count == queues[q].capacity))
  }

  /** The armed list holds exactly the flags with a waiter, once each; a flag has at most one waiter. */
  ghost predicate ArmedInv(armed: seq<nat>, waits: Waits, flags: nat) {
    && Distinct(armed)
    && (forall f :: f in armed ==> f < flags && |WaitersIn(waits, FlagWait(f))| == 1)
    && (forall f :: WaitersIn(waits, FlagWait(f)) != [] ==> f in armed)
  }

  /** The flags that the running scan has still to test. */
  function Unvisited(phase: Phase): seq<nat> {
    match phase
    case Scan(_, rest) => rest
    case Tested(_, rest, _) => if rest == [] then [] else rest[1..]
    case _ => []
  }

  /** A waiter is waiting for a signal that came: the flag is armed or about to be, and signaled. */
  predicate Signaled(phase: Phase, armed: seq<nat>, h: Shared, f: nat) {
    f < |h.signaled| && h.signaled[f] && (f in armed || (phase.Parking? && phase.f == f))
  }

  /** No lost wake-up: such a flag is marked pending, or the running scan has yet to test it. */
  ghost predicate SignalInv(phase: Phase, armed: seq<nat>, h: Shared) {
    forall f :: Signaled(phase, armed, h, f) ==> h.pending || f in Unvisited(phase)
  }

  /** The semaphore holds a token, or some setter is still to give one. */
  predicate Announced(h: Shared) { h.token || h.gives > 0 }

  /** The scan of the running pass is over, or has passed this flag. */
  predicate Settled(phase: Phase, f: nat) {
    !phase.Idle? && !phase.Signals? && f !in Unvisited(phase)
  }

  /** No missed idle wake: a pass of `poll_and_wait` never leaves such a flag unannounced. */
  ghost predicate TokenInv(phase: Phase, armed: seq<nat>, waiting: bool, h: Shared) {
    && (waiting ==> h.prepared) && (h.token ==> h.prepared)
    && (waiting ==> forall f :: Signaled(phase, armed, h, f) && Settled(phase, f) ==> Announced(h))
    && ((phase.WaitCheck? || phase.WaitTake?) ==> waiting)
  }

  datatype Owner = TokenOwner(t: nat) | SlotOwner(i: nat)

  predicate Owns(slots: seq<Slot>, tokens: map<nat, nat>, o: Owner, f: nat) {
    match o
    case TokenOwner(t) => t in tokens && tokens[t] == f
    case SlotOwner(i) => i < |slots| && slots[i].frame == Some(f)
  }

  /** Every allocated frame has exactly one owner; frames are destroyed once, after their owners gave them up. */
  ghost predicate FramesInv(slots: seq<Slot>, fr: Frames) {
    && (forall o, f: nat :: Owns(slots, fr.tokens, o, f) ==> f in fr.live)
    && (forall o, o', f: nat :: Owns(slots, fr.tokens, o, f) && Owns(slots, fr.tokens, o', f) ==> o == o')
    && (forall f :: f in fr.live ==> exists o :: Owns(slots, fr.tokens, o, f))
    && DestroyedInv(fr)
  }

  ghost predicate DestroyedInv(fr: Frames) {
    && Distinct(fr.destroyed)
    && (forall f :: f in fr.destroyed ==> f < fr.made && f !in fr.live)
    && (forall f :: f in fr.live ==> f < fr.made)
    && (forall f :: 0 <= f < fr.made ==> f in fr.live || f in fr.destroyed)
  }

  ghost predicate Inv(s: Sys) {
    && Good(s.core)
    && PhaseInv(s.phase, s.core, s.mark, s.armed, |s.shared.signaled|)
    && ObjectsInv(s.events, s.queues, s.core.waits)
    && ArmedInv(s.armed, s.core.waits, |s.shared.signaled|)
    && SignalInv(s.phase, s.armed, s.shared)
    && TokenInv(s.phase, s.armed, s.waiting, s.shared)
    && FramesInv(s.core.slots, s.frames)
  }

  // ----- wait lists ------------------------------------------------------------------------------

  function Pushed(waits: Waits, p: Place, i: nat): Waits { waits[p := WaitersIn(waits, p) + [i]] }

  function Popped(waits: Waits, p: Place): Waits
    requires WaitersIn(waits, p) != []
  {
    waits[p := WaitersIn(waits, p)[1..]]
  }

  predicate MayPark(events: seq<bool>, queues: seq<Buffer>, waits: Waits, p: Place) {
    match p
    case EventWait(e) => e < |events| && !events[e]
    case SendWait(q) => q < |queues| && queues[q].count == queues[q].capacity
    case ReceiveWait(q) => q < |queues| && queues[q].count == 0
    case FlagWait(f) => true
  }

  lemma ObjectsPark(events: seq<bool>, queues: seq<Buffer>, waits: Waits, p: Place, i: nat)
    requires ObjectsInv(events, queues, waits) && MayPark(events, queues, waits, p)
    ensures ObjectsInv(events, queues, Pushed(waits, p, i))
  {
  }

  lemma ObjectsWake(events: seq<bool>, queues: seq<Buffer>, waits: Waits, p: Place)
    requires ObjectsInv(events, queues, waits) && WaitersIn(waits, p) != []
    ensures ObjectsInv(events, queues, Popped(waits, p))
  {
  }

  lemma ObjectsLatch(events: seq<bool>, queues: seq<Buffer>, waits: Waits, e: nat, waits': Waits)
    requires ObjectsInv(events, queues, waits) && e < |events|
    requires WaitersIn(waits', EventWait(e)) == [] && forall p :: p != EventWait(e) ==> WaitersIn(waits', p) == WaitersIn(waits, p)
    ensures ObjectsInv(events[e := true], queues, waits')
  {
  }

  lemma ObjectsClear(events: seq<bool>, queues: seq<Buffer>, waits: Waits, e: nat)
    requires ObjectsInv(events, queues, waits) && e < |events|
    ensures ObjectsInv(events[e := false], queues, waits)
  {
  }

  lemma ObjectsFill(events: seq<bool>, queues: seq<Buffer>, waits: Waits, q: nat, n: nat)
    requires ObjectsInv(events, queues, waits) && q < |queues| && n <= queues[q].capacity
    requires WaitersIn(waits, ReceiveWait(q)) == [] || n == 0
    requires WaitersIn(waits, SendWait(q)) == []
    ensures ObjectsInv(events, queues[q := queues[q].(count := n)], waits)
  {
  }

  lemma ArmedPark(armed: seq<nat>, waits: Waits, flags: nat, p: Place, i: nat)
    requires ArmedInv(armed, waits, flags)
    requires p.FlagWait? ==> p.f < flags && WaitersIn(waits, p) == []
    ensures ArmedInv(if p.FlagWait? then [p.f] + armed else armed, Pushed(waits, p, i), flags)
  {
    var armed' := if p.FlagWait? then [p.f] + armed else armed;
    assert p.FlagWait? ==> p.f !in armed;
    assert forall f :: f in armed' <==> f in armed || (p.FlagWait? && f == p.f);
  }

  lemma ArmedWake(armed: seq<nat>, waits: Waits, flags: nat, p: Place)
    requires ArmedInv(armed, waits, flags) && WaitersIn(waits, p) != [] && !p.FlagWait?
    ensures ArmedInv(armed, Popped(waits, p), flags)
  {
  }

  lemma ArmedSame(armed: seq<nat>, waits: Waits, flags: nat, waits': Waits)
    requires ArmedInv(armed, waits, flags)
    requires forall f :: WaitersIn(waits', FlagWait(f)) == WaitersIn(waits, FlagWait(f))
    ensures ArmedInv(armed, waits', flags)
  {
    assert forall f :: WaitersIn(waits', FlagWait(f)) != [] ==> WaitersIn(waits, FlagWait(f)) != [];
  }

  lemma ArmedUnlink(kept: seq<nat>, rest: seq<nat>, waits: Waits, flags: nat)
    requires rest != [] && ArmedInv(kept + rest, waits, flags)
    ensures WaitersIn(waits, FlagWait(rest[0])) != []
    ensures ArmedInv(kept + rest[1..], Popped(waits, FlagWait(rest[0])), flags)
  {
    var armed, f := kept + rest, rest[0];
    assert armed[|kept|] == f;
    var armed' := kept + rest[1..];
    assert forall k :: 0 <= k < |armed'| ==> armed'[k] == armed[if k < |kept| then k else k + 1];
    assert f !in armed';
    assert forall g :: g in armed <==> g in armed' || g == f;
    assert WaitersIn(Popped(waits, FlagWait(f)), FlagWait(f)) == [];
  }
}
