/**
 The scheduler as a state and its primitive moves. Intrusive lists appear as sequences of slot
 indices; class `Scheduler` is proved to keep the links that represent them. Four history fields
 (`log`, `resumed`, `issued`, `finished`, and the birth numbers `born`) record what happened and
 influence nothing.
 */
module SchedulerCore {
  import opened Wrappers

  const UINT64_MAX: nat := 0xFFFF_FFFF_FFFF_FFFF
  const MAX_GENERATION: nat := 0xFFFF_FFFF

  datatype State = Free | Ready | Running | WaitingTimer | WaitingChild | WaitingLocal | Suspended | Completed

  datatype Slot = Slot(frame: Option<nat>, parent: Option<nat>, deadline: nat, generation: nat, state: State)

  /** Where a task in state `WaitingLocal` can be parked. */
  datatype Place = EventWait(e: nat) | SendWait(q: nat) | ReceiveWait(q: nat) | FlagWait(f: nat)

  type Handle = (nat, nat) // slot index and generation

  datatype Core = Core(
    slots: seq<Slot>,
    ready: seq<nat>,             // the ready FIFO
    current: Option<nat>,
    active: nat,
    now: nat,
    nearest: nat,
    waits: map<Place, seq<nat>>, // the wait FIFOs
    log: seq<nat>,               // history: every push on the ready FIFO, in order
    resumed: seq<nat>,           // history: every pop and resume, in order
    issued: seq<Handle>,         // history: every successful acquisition, in order
    born: seq<nat>,              // history: per slot, the number of acquisitions before its last one
    finished: set<Handle>)       // history: the tasks that ran to completion

  predicate Live(s: Slot) { s.state != Free && s.state != Completed }

  type Waits = map<Place, seq<nat>>

  function WaitersIn(waits: Waits, p: Place): seq<nat> {
    if p in waits then waits[p] else []
  }

  function Waiters(c: Core, p: Place): seq<nat> { WaitersIn(c.waits, p) }

  function Init(n: nat): Core {
    Core(seq(n, _ => Slot(None, None, 0, 0, Free)), [], None, 0, 0, UINT64_MAX, map[], [], [], [], seq(n, _ => 0), {})
  }

  // ----- primitive moves -----------------------------------------------------------------------

  function SetState(c: Core, i: nat, st: State): Core {
    if i < |c.slots| then c.(slots := c.slots[i := c.slots[i].(state := st)]) else c
  }

  function Push(c: Core, i: nat): Core {
    c.(ready := c.ready + [i], log := c.log + [i])
  }

  /** The lowest slot from `i` on in this state whose generation is not exhausted, or `|slots|`. */
  function FirstUsable(slots: seq<Slot>, st: State, i: nat): (k: nat)
    requires i <= |slots|
    ensures i <= k <= |slots|
    ensures k < |slots| ==> slots[k].state == st && slots[k].generation != MAX_GENERATION
    ensures forall j :: i <= j < k ==> slots[j].state != st || slots[j].generation == MAX_GENERATION
    decreases |slots| - i
  {
    if i == |slots| || (slots[i].state == st && slots[i].generation != MAX_GENERATION) then i
    else FirstUsable(slots, st, i + 1)
  }

  /** A free slot before a tombstone, the lowest index of either. */
  function Acquirable(slots: seq<Slot>): (r: Option<nat>)
    ensures r.Some? ==> r.value < |slots| && slots[r.value].generation != MAX_GENERATION
    ensures r.Some? ==> !Live(slots[r.value])
    ensures r == None <==> forall i :: 0 <= i < |slots| ==> Live(slots[i]) || slots[i].generation == MAX_GENERATION
  {
    var f := FirstUsable(slots, Free, 0);
    var d := FirstUsable(slots, Completed, 0);
    if f < |slots| then Some(f) else if d < |slots| then Some(d) else None
  }

  /** Give slot `i` to a frame: next generation, ready, at the tail of the ready FIFO. */
  function Install(c: Core, i: nat, frame: nat, parent: Option<nat>): Core
    requires i < |c.slots|
  {
    var s := c.slots[i];
    Push(c.(slots := c.slots[i := s.(frame := Some(frame), parent := parent, generation := s.generation + 1, state := Ready)],
            active := c.active + 1,
            issued := c.issued + [(i, s.generation + 1)],
            born := if i < |c.born| then c.born[i := |c.issued|] else c.born), i)
  }

  /** `schedule`: the new state and, on success, the handle. */
  function Schedule(c: Core, frame: nat): (Core, Option<Handle>) {
    match Acquirable(c.slots)
    case None => (c, None)
    case Some(i) => (Install(c, i, frame, None), Some((i, c.slots[i].generation + 1)))
  }

  /** The pop and resume of `run_pass`. */
  function BeginResume(c: Core): Core
    requires c.ready != []
  {
    var i := c.ready[0];
    SetState(c, i, Running).(ready := c.ready[1..], current := Some(i), resumed := c.resumed + [i])
  }

  function Requeue(c: Core, i: nat): Core {
    Push(SetState(c, i, Ready), i)
  }

  function Arm(c: Core, i: nat, deadline: nat): Core
    requires i < |c.slots|
  {
    c.(slots := c.slots[i := c.slots[i].(deadline := deadline, state := WaitingTimer)],
       nearest := if deadline < c.nearest then deadline else c.nearest)
  }

  /** `arm_current_timer` for the running slot `i`; the flag tells that the deadline overflowed. */
  function ArmTimer(c: Core, i: nat, duration: nat): (Core, bool)
    requires i < |c.slots|
  {
    if duration == 0 then (Requeue(c, i), false)
    else if c.now <= UINT64_MAX && duration <= UINT64_MAX - c.now then
      (Arm(c, i, c.now + duration), false)
    else (Requeue(c, i), true)
  }

  /** `start_child_await` of the running slot `i`; the flag tells that the child was adopted. */
  function StartChild(c: Core, i: nat, frame: nat): (Core, bool)
  {
    match Acquirable(c.slots)
    case None => (Requeue(c, i), false)
    case Some(k) => (SetState(Install(c, k, frame, Some(i)), i, WaitingChild), true)
  }

  /** Park the running slot `i` at the tail of a wait FIFO. */
  function Park(c: Core, i: nat, p: Place): Core {
    SetState(c, i, WaitingLocal).(waits := c.waits[p := Waiters(c, p) + [i]])
  }

  /** Move the head of a wait FIFO to the tail of the ready FIFO. */
  function WakeFirst(c: Core, p: Place): Core
    requires Waiters(c, p) != []
  {
    Requeue(c.(waits := c.waits[p := Waiters(c, p)[1..]]), Waiters(c, p)[0])
  }

  function WakeAll(c: Core, p: Place): Core
    decreases |Waiters(c, p)|
  {
    if Waiters(c, p) == [] then c else WakeAll(WakeFirst(c, p), p)
  }

  /** The tail of the loop body of `run_pass`, after the resume of slot `i` returned. */
  function EndResume(c: Core, i: nat, done: bool): Core
    requires i < |c.slots|
  {
    var d := c.(current := None);
    var s := c.slots[i];
    if done then
      var e := d.(slots := d.slots[i := s.(frame := None, parent := None, state := Completed)],
                  active := if d.active > 0 then d.active - 1 else 0,
                  finished := d.finished + {(i, s.generation)});
      if s.parent.Some? && s.parent.value < |e.slots| && e.slots[s.parent.value].state == WaitingChild
      then Requeue(e, s.parent.value) else e
    else if s.state == Running then SetState(d, i, Suspended)
    else d
  }

  // ----- invariants ----------------------------------------------------------------------------

  ghost predicate Distinct<T(!new)>(s: seq<T>) {
    forall i, j :: 0 <= i < j < |s| ==> s[i] != s[j]
  }

  /** The ready FIFO holds exactly the ready slots, once each. */
  ghost predicate ReadyInv(slots: seq<Slot>, ready: seq<nat>) {
    && Distinct(ready)
    && (forall i :: i in ready ==> i < |slots| && slots[i].state == Ready)
    && (forall i :: 0 <= i < |slots| && slots[i].state == Ready ==> i in ready)
  }

  predicate Parked(waits: map<Place, seq<nat>>, p: Place, i: nat) {
    p in waits && i in waits[p]
  }

  /** Each slot in `WaitingLocal` is in exactly one wait FIFO, once, and no other slot is in any. */
  ghost predicate WaitInv(slots: seq<Slot>, waits: map<Place, seq<nat>>) {
    && (forall p :: p in waits ==> Distinct(waits[p]))
    && (forall p: Place, i: nat :: Parked(waits, p, i) ==> i < |slots| && slots[i].state == WaitingLocal)
    && (forall p: Place, p': Place, i: nat :: Parked(waits, p, i) && Parked(waits, p', i) ==> p == p')
    && (forall i :: 0 <= i < |slots| && slots[i].state == WaitingLocal ==> exists p :: Parked(waits, p, i))
  }

  predicate ChildOf(slots: seq<Slot>, i: nat, p: nat) {
    i < |slots| && slots[i].parent == Some(p)
  }

  /** Parent links go from live slots to older slots that wait for that one child. */
  ghost predicate ParentInv(slots: seq<Slot>, born: seq<nat>, births: nat) {
    && |born| == |slots|
    && (forall i :: 0 <= i < |slots| && Live(slots[i]) ==> born[i] < births)
    && (forall i: nat, p: nat :: ChildOf(slots, i, p) ==>
          Live(slots[i]) && p < |slots| && slots[p].state == WaitingChild && born[p] < born[i])
    && (forall i: nat, j: nat, p: nat :: ChildOf(slots, i, p) && ChildOf(slots, j, p) ==> i == j)
    && (forall p :: 0 <= p < |slots| && slots[p].state == WaitingChild ==> exists i: nat :: ChildOf(slots, i, p))
  }

  datatype Kind = Active | Timer

  predicate Is(s: Slot, k: Kind) {
    match k
    case Active => Live(s)
    case Timer => s.state == WaitingTimer
  }

  function Count(slots: seq<Slot>, k: Kind): nat {
    if slots == [] then 0 else Count(slots[..|slots| - 1], k) + (if Is(slots[|slots| - 1], k) then 1 else 0)
  }

  /** The cached deadline is the minimum over the waiting timers. */
  ghost predicate TimerInv(slots: seq<Slot>, nearest: nat) {
    && nearest <= UINT64_MAX
    && (forall i :: 0 <= i < |slots| && slots[i].state == WaitingTimer ==> nearest <= slots[i].deadline <= UINT64_MAX)
    && (nearest == UINT64_MAX || exists i :: 0 <= i < |slots| && slots[i].state == WaitingTimer && slots[i].deadline == nearest)
  }

  /** A slot owns a frame exactly while its task is live. */
  ghost predicate FrameInv(slots: seq<Slot>) {
    forall i :: 0 <= i < |slots| ==> (Live(slots[i]) <==> slots[i].frame.Some?)
  }

  ghost predicate CurrentInv(slots: seq<Slot>, current: Option<nat>) {
    && (current.Some? ==> current.value < |slots| && Live(slots[current.value]))
    && (forall i :: 0 <= i < |slots| && slots[i].state == Running ==> current == Some(i))
  }

  /** Parents, the count of live tasks and the frames. */
  ghost predicate StableInv(slots: seq<Slot>, born: seq<nat>, births: nat, active: nat) {
    ParentInv(slots, born, births) && active == Count(slots, Active) && FrameInv(slots)
  }

  /** Everything but the cached deadline, which is stale while due timers are being woken. */
  ghost predicate BaseInv(c: Core) {
    && ReadyInv(c.slots, c.ready)
    && WaitInv(c.slots, c.waits)
    && StableInv(c.slots, c.born, |c.issued|, c.active)
    && CurrentInv(c.slots, c.current)
    && c.resumed + c.ready == c.log
  }

  /** The global partition: what every reachable scheduler state satisfies. */
  ghost predicate CoreInv(c: Core) {
    BaseInv(c) && TimerInv(c.slots, c.nearest)
  }

  lemma {:induction false} CountUpdate(slots: seq<Slot>, i: nat, s: Slot, k: Kind)
    requires i < |slots|
    ensures Count(slots[i := s], k) + (if Is(slots[i], k) then 1 else 0) == Count(slots, k) + (if Is(s, k) then 1 else 0)
  {
    var n := |slots| - 1;
    if i == n {
      assert slots[i := s][..n] == slots[..n];
    } else {
      assert slots[i := s][..n] == slots[..n][i := s];
      CountUpdate(slots[..n], i, s, k);
    }
  }

  lemma {:induction false} CountNone(slots: seq<Slot>, k: Kind)
    requires forall i :: 0 <= i < |slots| ==> !Is(slots[i], k)
    ensures Count(slots, k) == 0
  {
    if slots != [] {
      CountNone(slots[..|slots| - 1], k);
    }
  }

  lemma InitParents(n: nat)
    ensures ParentInv(Init(n).slots, Init(n).born, 0)
  {
    assert forall i :: 0 <= i < n ==> Init(n).slots[i] == Slot(None, None, 0, 0, Free);
  }

  lemma InitInv(n: nat)
    ensures CoreInv(Init(n))
  {
    var c := Init(n);
    assert forall i :: 0 <= i < n ==> c.slots[i] == Slot(None, None, 0, 0, Free);
    CountNone(c.slots, Active);
    InitParents(n);
    assert ReadyInv(c.slots, c.ready) && WaitInv(c.slots, c.waits);
    assert TimerInv(c.slots, c.nearest);
  }

  // ----- relabelling one live slot -----------------------------------------------------------------

  /** `s` is slot `i` in another live state that is not a wait for a child, nor was the old one. */
  predicate Relabels(slots: seq<Slot>, i: nat, s: Slot) {
    && i < |slots| && s.frame == slots[i].frame && s.parent == slots[i].parent && s.generation == slots[i].generation
    && Live(slots[i]) && Live(s) && slots[i].state != WaitingChild && s.state != WaitingChild
  }

  lemma ParentsRelabel(slots: seq<Slot>, born: seq<nat>, births: nat, i: nat, s: Slot)
    requires ParentInv(slots, born, births) && Relabels(slots, i, s)
    ensures ParentInv(slots[i := s], born, births)
  {
    var slots' := slots[i := s];
    assert forall a: nat, p: nat :: ChildOf(slots', a, p) <==> ChildOf(slots, a, p);
    forall p | 0 <= p < |slots'| && slots'[p].state == WaitingChild
      ensures exists a: nat :: ChildOf(slots', a, p)
    {
      var a: nat :| ChildOf(slots, a, p);
      assert ChildOf(slots', a, p);
    }
  }

  lemma TimersRelabel(slots: seq<Slot>, nearest: nat, i: nat, s: Slot)
    requires TimerInv(slots, nearest) && i < |slots|
    requires slots[i].state != WaitingTimer && s.state != WaitingTimer
    ensures TimerInv(slots[i := s], nearest)
  {
    if nearest != UINT64_MAX {
      var k :| 0 <= k < |slots| && slots[k].state == WaitingTimer && slots[k].deadline == nearest;
      assert slots[i := s][k] == slots[k];
    }
  }

  lemma RelabelKeeps(slots: seq<Slot>, born: seq<nat>, births: nat, active: nat, i: nat, s: Slot)
    requires StableInv(slots, born, births, active) && Relabels(slots, i, s)
    ensures StableInv(slots[i := s], born, births, active)
  {
    CountUpdate(slots, i, s, Active);
    ParentsRelabel(slots, born, births, i, s);
  }

  // ----- the FIFOs -----------------------------------------------------------------------------

  lemma ReadyPop(slots: seq<Slot>, ready: seq<nat>, s: Slot)
    requires ReadyInv(slots, ready) && ready != [] && s.state != Ready
    ensures ready[0] < |slots| && ReadyInv(slots[ready[0] := s], ready[1..])
  {
    var i := ready[0];
    assert i in ready;
    assert forall j :: j in ready <==> j == i || j in ready[1..];
    assert i !in ready[1..];
  }

  lemma ReadyPush(slots: seq<Slot>, ready: seq<nat>, i: nat, s: Slot)
    requires ReadyInv(slots, ready) && i < |slots| && slots[i].state != Ready && s.state == Ready
    ensures ReadyInv(slots[i := s], ready + [i])
  {
    assert forall j :: j in ready + [i] <==> j in ready || j == i;
  }

  lemma ReadyOther(slots: seq<Slot>, ready: seq<nat>, i: nat, s: Slot)
    requires ReadyInv(slots, ready) && i < |slots| && slots[i].state != Ready && s.state != Ready
    ensures ReadyInv(slots[i := s], ready)
  {
  }

  lemma WaitOther(slots: seq<Slot>, waits: map<Place, seq<nat>>, i: nat, s: Slot)
    requires WaitInv(slots, waits) && i < |slots| && slots[i].state != WaitingLocal && s.state != WaitingLocal
    ensures WaitInv(slots[i := s], waits)
  {
  }

  lemma WaitPush(slots: seq<Slot>, waits: map<Place, seq<nat>>, p: Place, i: nat, s: Slot)
    requires WaitInv(slots, waits) && i < |slots| && slots[i].state != WaitingLocal && s.state == WaitingLocal
    ensures WaitInv(slots[i := s], waits[p := (if p in waits then waits[p] else []) + [i]])
  {
    var q := if p in waits then waits[p] else [];
    var slots', waits' := slots[i := s], waits[p := q + [i]];
    assert forall j: nat :: j in q ==> Parked(waits, p, j);
    assert i !in q;
    forall r: Place, j: nat
      ensures Parked(waits', r, j) <==> Parked(waits, r, j) || (r == p && j == i)
    {
      assert j in q + [i] <==> j in q || j == i;
    }
    forall j | 0 <= j < |slots'| && slots'[j].state == WaitingLocal
      ensures exists r :: Parked(waits', r, j)
    {
      if j == i {
        assert Parked(waits', p, i);
      } else {
        var r :| Parked(waits, r, j);
        assert Parked(waits', r, j);
      }
    }
  }

  lemma WaitPop(slots: seq<Slot>, waits: map<Place, seq<nat>>, p: Place, s: Slot)
    requires WaitInv(slots, waits) && p in waits && waits[p] != [] && s.state != WaitingLocal
    ensures waits[p][0] < |slots| && slots[waits[p][0]].state == WaitingLocal
    ensures WaitInv(slots[waits[p][0] := s], waits[p := waits[p][1..]])
  {
    var q := waits[p];
    var i := q[0];
    assert Parked(waits, p, i);
    var slots', waits' := slots[i := s], waits[p := q[1..]];
    assert i !in q[1..];
    forall r: Place, j: nat
      ensures Parked(waits', r, j) <==> Parked(waits, r, j) && j != i
    {
      assert j in q <==> j in q[1..] || j == i;
      if Parked(waits, r, i) {
        assert r == p;
      }
    }
    forall j | 0 <= j < |slots'| && slots'[j].state == WaitingLocal
      ensures exists r :: Parked(waits', r, j)
    {
      var r :| Parked(waits, r, j);
      assert Parked(waits', r, j);
    }
  }

  // ----- each move keeps the invariants ----------------------------------------------------------

  lemma ReadyHead(slots: seq<Slot>, ready: seq<nat>)
    requires ReadyInv(slots, ready) && ready != []
    ensures ready[0] < |slots| && slots[ready[0]].state == Ready
  {
    assert ready[0] in ready;
  }

  lemma WaitHead(slots: seq<Slot>, waits: map<Place, seq<nat>>, p: Place)
    requires WaitInv(slots, waits) && p in waits && waits[p] != []
    ensures waits[p][0] < |slots| && slots[waits[p][0]].state == WaitingLocal
  {
    assert Parked(waits, p, waits[p][0]);
  }

  lemma CurrentStay(slots: seq<Slot>, current: Option<nat>, i: nat, s: Slot)
    requires CurrentInv(slots, current) && i < |slots| && Live(s) && s.state != Running
    ensures CurrentInv(slots[i := s], current)
  {
  }

  lemma CurrentEnter(slots: seq<Slot>, i: nat, s: Slot)
    requires CurrentInv(slots, None) && i < |slots| && Live(s)
    ensures CurrentInv(slots[i := s], Some(i))
  {
  }

  lemma CurrentLeave(slots: seq<Slot>, current: Option<nat>, i: nat, s: Slot)
    requires CurrentInv(slots, current) && i < |slots| && slots[i].state == Running && s.state != Running
    ensures CurrentInv(slots[i := s], None)
  {
  }

  lemma BeginResumeKeeps(c: Core)
    requires CoreInv(c) && c.current == None && c.ready != []
    ensures c.ready[0] < |c.slots| && c.slots[c.ready[0]].state == Ready
    ensures CoreInv(BeginResume(c))
  {
    hide ReadyInv, WaitInv, StableInv, TimerInv, CurrentInv;
    ReadyHead(c.slots, c.ready);
    var i := c.ready[0];
    var s, d := c.slots[i].(state := Running), BeginResume(c);
    assert ReadyInv(d.slots, d.ready) by { ReadyPop(c.slots, c.ready, s); }
    assert WaitInv(d.slots, d.waits) by { WaitOther(c.slots, c.waits, i, s); }
    assert StableInv(d.slots, d.born, |d.issued|, d.active) by { RelabelKeeps(c.slots, c.born, |c.issued|, c.active, i, s); }
    assert TimerInv(d.slots, d.nearest) by { TimersRelabel(c.slots, c.nearest, i, s); }
    assert CurrentInv(d.slots, d.current) by { CurrentEnter(c.slots, i, s); }
    assert d.resumed + d.ready == d.log by { assert c.resumed + c.ready == c.resumed + [i] + c.ready[1..]; }
  }

  /** A running slot, or one whose timer is due, goes to the tail of the ready FIFO. */
  lemma RequeueBase(c: Core, i: nat)
    requires BaseInv(c) && i < |c.slots| && (c.slots[i].state == Running || c.slots[i].state == WaitingTimer)
    ensures BaseInv(Requeue(c, i))
  {
    hide ReadyInv, WaitInv, StableInv, TimerInv, CurrentInv;
    var s, d := c.slots[i].(state := Ready), Requeue(c, i);
    assert ReadyInv(d.slots, d.ready) by { ReadyPush(c.slots, c.ready, i, s); }
    assert WaitInv(d.slots, d.waits) by { WaitOther(c.slots, c.waits, i, s); }
    assert StableInv(d.slots, d.born, |d.issued|, d.active) by { RelabelKeeps(c.slots, c.born, |c.issued|, c.active, i, s); }
    assert CurrentInv(d.slots, d.current) by { CurrentStay(c.slots, c.current, i, s); }
    assert d.resumed + d.ready == d.log by { assert d.resumed + d.ready == (c.resumed + c.ready) + [i]; }
  }

  lemma RequeueKeeps(c: Core, i: nat)
    requires CoreInv(c) && i < |c.slots| && c.slots[i].state == Running
    ensures CoreInv(Requeue(c, i))
  {
    hide BaseInv, TimerInv;
    RequeueBase(c, i);
    TimersRelabel(c.slots, c.nearest, i, c.slots[i].(state := Ready));
  }

  lemma ParkKeeps(c: Core, i: nat, p: Place)
    requires CoreInv(c) && i < |c.slots| && c.slots[i].state == Running
    ensures CoreInv(Park(c, i, p))
  {
    hide ReadyInv, WaitInv, StableInv, TimerInv, CurrentInv;
    var s, d := c.slots[i].(state := WaitingLocal), Park(c, i, p);
    assert ReadyInv(d.slots, d.ready) by { ReadyOther(c.slots, c.ready, i, s); }
    assert WaitInv(d.slots, d.waits) by { WaitPush(c.slots, c.waits, p, i, s); }
    assert StableInv(d.slots, d.born, |d.issued|, d.active) by { RelabelKeeps(c.slots, c.born, |c.issued|, c.active, i, s); }
    assert TimerInv(d.slots, d.nearest) by { TimersRelabel(c.slots, c.nearest, i, s); }
    assert CurrentInv(d.slots, d.current) by { CurrentStay(c.slots, c.current, i, s); }
  }

  lemma WakeFirstKeeps(c: Core, p: Place)
    requires CoreInv(c) && Waiters(c, p) != []
    ensures Waiters(c, p)[0] < |c.slots| && c.slots[Waiters(c, p)[0]].state == WaitingLocal
    ensures CoreInv(WakeFirst(c, p))
  {
    hide ReadyInv, WaitInv, StableInv, TimerInv, CurrentInv;
    WaitHead(c.slots, c.waits, p);
    var i := Waiters(c, p)[0];
    var s, d := c.slots[i].(state := Ready), WakeFirst(c, p);
    assert ReadyInv(d.slots, d.ready) by { ReadyPush(c.slots, c.ready, i, s); }
    assert WaitInv(d.slots, d.waits) by { WaitPop(c.slots, c.waits, p, s); }
    assert StableInv(d.slots, d.born, |d.issued|, d.active) by { RelabelKeeps(c.slots, c.born, |c.issued|, c.active, i, s); }
    assert TimerInv(d.slots, d.nearest) by { TimersRelabel(c.slots, c.nearest, i, s); }
    assert CurrentInv(d.slots, d.current) by { CurrentStay(c.slots, c.current, i, s); }
    assert d.resumed + d.ready == d.log by { assert d.resumed + d.ready == (c.resumed + c.ready) + [i]; }
  }

  lemma ArmKeeps(c: Core, i: nat, deadline: nat)
    requires CoreInv(c) && i < |c.slots| && c.slots[i].state == Running && deadline <= UINT64_MAX
    ensures CoreInv(Arm(c, i, deadline))
  {
    hide ReadyInv, WaitInv, StableInv, TimerInv, CurrentInv;
    var s, d := c.slots[i].(deadline := deadline, state := WaitingTimer), Arm(c, i, deadline);
    assert ReadyInv(d.slots, d.ready) by { ReadyOther(c.slots, c.ready, i, s); }
    assert WaitInv(d.slots, d.waits) by { WaitOther(c.slots, c.waits, i, s); }
    assert StableInv(d.slots, d.born, |d.issued|, d.active) by { RelabelKeeps(c.slots, c.born, |c.issued|, c.active, i, s); }
    assert TimerInv(d.slots, d.nearest) by { TimersArm(c.slots, c.nearest, i, s); }
    assert CurrentInv(d.slots, d.current) by { CurrentStay(c.slots, c.current, i, s); }
  }

  lemma SuspendKeeps(c: Core, i: nat)
    requires CoreInv(c) && i < |c.slots| && c.slots[i].state == Running
    ensures CoreInv(EndResume(c, i, false))
  {
    hide ReadyInv, WaitInv, StableInv, TimerInv, CurrentInv;
    var s, d := c.slots[i].(state := Suspended), EndResume(c, i, false);
    assert ReadyInv(d.slots, d.ready) by { ReadyOther(c.slots, c.ready, i, s); }
    assert WaitInv(d.slots, d.waits) by { WaitOther(c.slots, c.waits, i, s); }
    assert StableInv(d.slots, d.born, |d.issued|, d.active) by { RelabelKeeps(c.slots, c.born, |c.issued|, c.active, i, s); }
    assert TimerInv(d.slots, d.nearest) by { TimersRelabel(c.slots, c.nearest, i, s); }
    assert CurrentInv(d.slots, d.current) by { CurrentLeave(c.slots, c.current, i, s); }
  }

  lemma {:induction false} WakeAllKeeps(c: Core, p: Place)
    requires CoreInv(c)
    ensures CoreInv(WakeAll(c, p))
    decreases |Waiters(c, p)|
  {
    if Waiters(c, p) != [] {
      WakeFirstKeeps(c, p);
      WakeAllKeeps(WakeFirst(c, p), p);
    }
  }

  /** Waking all: the waiters go to the ready FIFO in their order, and none is left. */
  lemma {:induction false} WakeAllEffect(c: Core, p: Place)
    ensures Waiters(WakeAll(c, p), p) == []
    ensures WakeAll(c, p).ready == c.ready + Waiters(c, p)
    ensures WakeAll(c, p).log == c.log + Waiters(c, p)
    decreases |Waiters(c, p)|
  {
    var w := Waiters(c, p);
    if w != [] {
      var d := WakeFirst(c, p);
      assert Waiters(d, p) == w[1..];
      WakeAllEffect(d, p);
      assert c.ready + w == (c.ready + [w[0]]) + w[1..];
      assert c.log + w == (c.log + [w[0]]) + w[1..];
    }
  }

  /** Waking all on one place touches only the FIFOs, the log and the states of the woken slots. */
  lemma {:induction false} WakeAllFrame(c: Core, p: Place)
    ensures forall q :: q != p ==> Waiters(WakeAll(c, p), q) == Waiters(c, q)
    ensures SameButReady(c, WakeAll(c, p))
    decreases |Waiters(c, p)|
  {
    if Waiters(c, p) != [] {
      WakeAllFrame(WakeFirst(c, p), p);
    }
  }

  /** `d` differs from `c` only in wake-ups: no field outside slots' states, FIFOs and the log. */
  ghost predicate SameButReady(c: Core, d: Core) {
    && d == c.(slots := d.slots, ready := d.ready, log := d.log, waits := d.waits)
    && |d.slots| == |c.slots|
    && forall i :: 0 <= i < |c.slots| ==>
         d.slots[i] == c.slots[i] || d.slots[i] == c.slots[i].(state := Ready)
  }

  lemma TimersArm(slots: seq<Slot>, nearest: nat, i: nat, s: Slot)
    requires TimerInv(slots, nearest) && i < |slots| && slots[i].state != WaitingTimer
    requires s.state == WaitingTimer && s.deadline <= UINT64_MAX
    ensures TimerInv(slots[i := s], if s.deadline < nearest then s.deadline else nearest)
  {
    assert slots[i := s][i] == s;
    if nearest != UINT64_MAX && nearest <= s.deadline {
      var k :| 0 <= k < |slots| && slots[k].state == WaitingTimer && slots[k].deadline == nearest;
      assert slots[i := s][k] == slots[k];
    }
  }

  // ----- acquiring a slot ------------------------------------------------------------------------

  lemma ParentsInstall(slots: seq<Slot>, born: seq<nat>, births: nat, k: nat, s: Slot)
    requires ParentInv(slots, born, births) && k < |slots| && !Live(slots[k])
    requires s.parent == None && s.state == Ready
    ensures ParentInv(slots[k := s], born[k := births], births + 1)
  {
    var slots' := slots[k := s];
    assert forall a: nat, p: nat :: ChildOf(slots, a, p) ==> a != k && p != k;
    assert forall a: nat, p: nat :: ChildOf(slots', a, p) <==> ChildOf(slots, a, p);
    forall p | 0 <= p < |slots'| && slots'[p].state == WaitingChild
      ensures exists a: nat :: ChildOf(slots', a, p)
    {
      var a: nat :| ChildOf(slots, a, p);
      assert ChildOf(slots', a, p);
    }
  }

  lemma ParentsAdopt(slots: seq<Slot>, born: seq<nat>, births: nat, k: nat, s: Slot, i: nat, t: Slot)
    requires ParentInv(slots, born, births) && k < |slots| && !Live(slots[k])
    requires i < |slots| && slots[i].state == Running && t == slots[i].(state := WaitingChild)
    requires s.parent == Some(i) && s.state == Ready
    ensures ParentInv(slots[k := s][i := t], born[k := births], births + 1)
  {
    var slots' := slots[k := s][i := t];
    assert forall a: nat, p: nat :: ChildOf(slots, a, p) ==> a != k && p != k && p != i;
    assert forall a: nat, p: nat :: ChildOf(slots', a, p) <==> ChildOf(slots, a, p) || (a == k && p == i);
    forall p | 0 <= p < |slots'| && slots'[p].state == WaitingChild
      ensures exists a: nat :: ChildOf(slots', a, p)
    {
      if p == i {
        assert ChildOf(slots', k, i);
      } else {
        var a: nat :| ChildOf(slots, a, p);
        assert ChildOf(slots', a, p);
      }
    }
  }

  lemma BornOf(slots: seq<Slot>, born: seq<nat>, births: nat)
    requires ParentInv(slots, born, births)
    ensures |born| == |slots|
  {
  }

  lemma FrameUpdate(slots: seq<Slot>, i: nat, s: Slot)
    requires FrameInv(slots) && i < |slots| && (Live(s) <==> s.frame.Some?)
    ensures FrameInv(slots[i := s])
  {
  }

  lemma InstallKeeps(c: Core, k: nat, frame: nat)
    requires CoreInv(c) && k < |c.slots| && !Live(c.slots[k])
    ensures CoreInv(Install(c, k, frame, None))
  {
    var d := Install(c, k, frame, None);
    var s := d.slots[k];
    hide ReadyInv, WaitInv, TimerInv, CurrentInv, FrameInv, ParentInv;
    BornOf(c.slots, c.born, |c.issued|);
    assert FrameInv(d.slots) by { FrameUpdate(c.slots, k, s); }
    assert CurrentInv(d.slots, d.current) by { CurrentStay(c.slots, c.current, k, s); }
    assert ReadyInv(d.slots, d.ready) by { ReadyPush(c.slots, c.ready, k, s); }
    assert WaitInv(d.slots, d.waits) by { WaitOther(c.slots, c.waits, k, s); }
    assert ParentInv(d.slots, d.born, |d.issued|) by { ParentsInstall(c.slots, c.born, |c.issued|, k, s); }
    assert d.active == Count(d.slots, Active) by { CountUpdate(c.slots, k, s, Active); }
    assert TimerInv(d.slots, d.nearest) by { TimersRelabel(c.slots, c.nearest, k, s); }
    assert d.resumed + d.ready == d.log by { assert d.resumed + d.ready == (c.resumed + c.ready) + [k]; }
  }

  lemma ScheduleKeeps(c: Core, frame: nat)
    requires CoreInv(c)
    ensures CoreInv(Schedule(c, frame).0)
  {
    var r := Acquirable(c.slots);
    if r.Some? {
      InstallKeeps(c, r.value, frame);
    }
  }

  /** The invariants apart from the history, on the fields they speak of. */
  ghost predicate PartsInv(slots: seq<Slot>, ready: seq<nat>, waits: map<Place, seq<nat>>, nearest: nat, current: Option<nat>) {
    && ReadyInv(slots, ready) && WaitInv(slots, waits) && TimerInv(slots, nearest)
    && FrameInv(slots) && CurrentInv(slots, current)
  }

  lemma AdoptParts(slots: seq<Slot>, ready: seq<nat>, waits: map<Place, seq<nat>>, nearest: nat, current: Option<nat>,
                   k: nat, s: Slot, i: nat, t: Slot)
    requires PartsInv(slots, ready, waits, nearest, current)
    requires k < |slots| && !Live(slots[k]) && s.state == Ready && s.frame.Some?
    requires i < |slots| && slots[i].state == Running && t == slots[i].(state := WaitingChild) && t.frame.Some?
    ensures PartsInv(slots[k := s][i := t], ready + [k], waits, nearest, current)
    ensures Count(slots[k := s][i := t], Active) == Count(slots, Active) + 1
  {
    hide ReadyInv, WaitInv, TimerInv, FrameInv, CurrentInv;
    var mid := slots[k := s];
    ReadyPush(slots, ready, k, s);
    ReadyOther(mid, ready + [k], i, t);
    WaitOther(slots, waits, k, s);
    WaitOther(mid, waits, i, t);
    TimersRelabel(slots, nearest, k, s);
    TimersRelabel(mid, nearest, i, t);
    FrameUpdate(slots, k, s);
    FrameUpdate(mid, i, t);
    CurrentStay(slots, current, k, s);
    CurrentStay(mid, current, i, t);
    CountUpdate(slots, k, s, Active);
    CountUpdate(mid, i, t, Active);
  }

  lemma FrameOf(slots: seq<Slot>, i: nat)
    requires FrameInv(slots) && i < |slots| && Live(slots[i])
    ensures slots[i].frame.Some?
  {
  }

  lemma AdoptKeeps(c: Core, i: nat, k: nat, frame: nat)
    requires CoreInv(c) && i < |c.slots| && c.slots[i].state == Running && k < |c.slots| && !Live(c.slots[k])
    ensures CoreInv(SetState(Install(c, k, frame, Some(i)), i, WaitingChild))
  {
    hide ReadyInv, WaitInv, TimerInv, CurrentInv, FrameInv, ParentInv;
    var m := Install(c, k, frame, Some(i));
    var d := SetState(m, i, WaitingChild);
    var s, t := m.slots[k], c.slots[i].(state := WaitingChild);
    BornOf(c.slots, c.born, |c.issued|);
    FrameOf(c.slots, i);
    assert d.slots == c.slots[k := s][i := t];
    AdoptParts(c.slots, c.ready, c.waits, c.nearest, c.current, k, s, i, t);
    ParentsAdopt(c.slots, c.born, |c.issued|, k, s, i, t);
    assert d.resumed + d.ready == d.log by { assert d.resumed + d.ready == (c.resumed + c.ready) + [k]; }
  }

  lemma StartChildKeeps(c: Core, i: nat, frame: nat)
    requires CoreInv(c) && i < |c.slots| && c.slots[i].state == Running
    ensures CoreInv(StartChild(c, i, frame).0)
  {
    var r := Acquirable(c.slots);
    if r.Some? {
      AdoptKeeps(c, i, r.value, frame);
    } else {
      RequeueKeeps(c, i);
    }
  }

  // ----- completing a task -----------------------------------------------------------------------

  function Tombstone(s: Slot): Slot { s.(frame := None, parent := None, state := Completed) }

  lemma ParentsComplete(slots: seq<Slot>, born: seq<nat>, births: nat, i: nat)
    requires ParentInv(slots, born, births) && i < |slots| && slots[i].state == Running
    ensures slots[i].parent == None ==> ParentInv(slots[i := Tombstone(slots[i])], born, births)
    ensures slots[i].parent.Some? ==>
              var p := slots[i].parent.value;
              && p < |slots| && p != i && slots[p].state == WaitingChild
              && ParentInv(slots[i := Tombstone(slots[i])][p := slots[p].(state := Ready)], born, births)
  {
    var mid := slots[i := Tombstone(slots[i])];
    assert slots[i].parent.Some? ==> ChildOf(slots, i, slots[i].parent.value);
    var slots' := if slots[i].parent.Some? then mid[slots[i].parent.value := slots[slots[i].parent.value].(state := Ready)] else mid;
    assert forall a: nat, p: nat :: ChildOf(slots', a, p) <==> ChildOf(slots, a, p) && a != i;
    forall p | 0 <= p < |slots'| && slots'[p].state == WaitingChild
      ensures exists a: nat :: ChildOf(slots', a, p)
    {
      var a: nat :| ChildOf(slots, a, p);
      assert ChildOf(slots', a, p);
    }
  }

  lemma CompleteParts(slots: seq<Slot>, ready: seq<nat>, waits: map<Place, seq<nat>>, nearest: nat, current: Option<nat>, i: nat)
    requires PartsInv(slots, ready, waits, nearest, current)
    requires i < |slots| && slots[i].state == Running
    ensures PartsInv(slots[i := Tombstone(slots[i])], ready, waits, nearest, None)
    ensures Count(slots[i := Tombstone(slots[i])], Active) + 1 == Count(slots, Active)
  {
    hide ReadyInv, WaitInv, TimerInv, FrameInv, CurrentInv;
    var s := Tombstone(slots[i]);
    FrameUpdate(slots, i, s);
    CurrentLeave(slots, current, i, s);
    CountUpdate(slots, i, s, Active);
    ReadyOther(slots, ready, i, s);
    WaitOther(slots, waits, i, s);
    TimersRelabel(slots, nearest, i, s);
  }

  lemma ParentParts(slots: seq<Slot>, ready: seq<nat>, waits: map<Place, seq<nat>>, nearest: nat, p: nat)
    requires PartsInv(slots, ready, waits, nearest, None)
    requires p < |slots| && slots[p].state == WaitingChild
    ensures PartsInv(slots[p := slots[p].(state := Ready)], ready + [p], waits, nearest, None)
    ensures Count(slots[p := slots[p].(state := Ready)], Active) == Count(slots, Active)
  {
    hide ReadyInv, WaitInv, TimerInv, FrameInv, CurrentInv;
    var t := slots[p].(state := Ready);
    FrameOf(slots, p);
    FrameUpdate(slots, p, t);
    CurrentStay(slots, None, p, t);
    CountUpdate(slots, p, t, Active);
    ReadyPush(slots, ready, p, t);
    WaitOther(slots, waits, p, t);
    TimersRelabel(slots, nearest, p, t);
  }

  lemma CompleteKeeps(c: Core, i: nat)
    requires CoreInv(c) && i < |c.slots| && c.slots[i].state == Running
    ensures CoreInv(EndResume(c, i, true))
  {
    hide ReadyInv, WaitInv, ParentInv, TimerInv, FrameInv, CurrentInv;
    var d, mid := EndResume(c, i, true), c.slots[i := Tombstone(c.slots[i])];
    ParentsComplete(c.slots, c.born, |c.issued|, i);
    CompleteParts(c.slots, c.ready, c.waits, c.nearest, c.current, i);
    if c.slots[i].parent.Some? {
      var p := c.slots[i].parent.value;
      ParentParts(mid, c.ready, c.waits, c.nearest, p);
      assert d.slots == mid[p := mid[p].(state := Ready)];
      assert d.resumed + d.ready == d.log by { assert d.resumed + d.ready == (c.resumed + c.ready) + [p]; }
    } else {
      assert d.slots == mid;
    }
  }
}
