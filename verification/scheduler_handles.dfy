/** Generation-tagged handles: no identity is ever issued twice, and what a handle tells. */
module SchedulerHandles {
  import opened Wrappers
  import opened SchedulerCore
  import opened SchedulerTimers

  /** `TaskHandle::valid` and `TaskHandle::done`. */
  predicate HandleValid(c: Core, h: Handle) {
    h.0 < |c.slots| && c.slots[h.0].generation == h.1 && c.slots[h.0].state != Free
  }

  predicate HandleDone(c: Core, h: Handle) {
    h.0 < |c.slots| && c.slots[h.0].generation == h.1 && c.slots[h.0].state == Completed
  }

  /** The acquisitions of one slot have increasing generations and the last one is current. */
  ghost predicate IssuedInv(slots: seq<Slot>, issued: seq<Handle>) {
    && (forall k, l :: 0 <= k < l < |issued| && issued[k].0 == issued[l].0 ==> issued[k].1 < issued[l].1)
    && (forall k :: 0 <= k < |issued| ==> issued[k].0 < |slots| && 1 <= issued[k].1 <= slots[issued[k].0].generation)
    && (forall i :: 0 <= i < |slots| && slots[i].generation > 0 ==> (i, slots[i].generation) in issued)
    && (forall i :: 0 <= i < |slots| ==> slots[i].generation <= MAX_GENERATION)
    && (forall i :: 0 <= i < |slots| ==> (slots[i].state == Free <==> slots[i].generation == 0))
  }

  ghost predicate FinishedInv(slots: seq<Slot>, finished: set<Handle>) {
    && (forall h :: h in finished ==> h.0 < |slots| && 1 <= h.1 <= slots[h.0].generation)
    && (forall i :: 0 <= i < |slots| && slots[i].generation > 0 ==>
          (slots[i].state == Completed <==> (i, slots[i].generation) in finished))
  }

  ghost predicate HandleInv(c: Core) {
    IssuedInv(c.slots, c.issued) && FinishedInv(c.slots, c.finished)
  }

  /** What every reachable scheduler state satisfies. */
  ghost predicate Good(c: Core) { CoreInv(c) && HandleInv(c) }

  /** No two acquisitions ever give the same slot and generation. */
  lemma HandlesUnique(c: Core, k: nat, l: nat)
    requires HandleInv(c) && k < |c.issued| && l < |c.issued|
    ensures c.issued[k] == c.issued[l] <==> k == l
  {
    if k < l && c.issued[k].0 == c.issued[l].0 {
      assert c.issued[k].1 < c.issued[l].1;
    } else if l < k && c.issued[k].0 == c.issued[l].0 {
      assert c.issued[l].1 < c.issued[k].1;
    }
  }

  /** The `k`-th acquisition is the last one of its slot. */
  ghost predicate NotReacquired(c: Core, k: nat)
    requires k < |c.issued|
  {
    forall l :: k < l < |c.issued| ==> c.issued[l].0 != c.issued[k].0
  }

  /**
   A handle is valid exactly when it was issued and its slot was not acquired again since, and
   done exactly when, in addition, its own task ran to completion. No other pair is ever valid.
   */
  lemma HandleMeaning(c: Core, h: Handle)
    requires HandleInv(c)
    ensures HandleValid(c, h) <==> exists k :: 0 <= k < |c.issued| && c.issued[k] == h && NotReacquired(c, k)
    ensures HandleDone(c, h) <==> HandleValid(c, h) && h in c.finished
  {
    assert HandleDone(c, h) <==> HandleValid(c, h) && h in c.finished;
    hide FinishedInv, HandleDone;
    if HandleValid(c, h) {
      assert h in c.issued;
      var k :| 0 <= k < |c.issued| && c.issued[k] == h;
      assert NotReacquired(c, k);
    }
    if exists k :: 0 <= k < |c.issued| && c.issued[k] == h && NotReacquired(c, k) {
      var k :| 0 <= k < |c.issued| && c.issued[k] == h && NotReacquired(c, k);
      var last := (h.0, c.slots[h.0].generation);
      assert last in c.issued;
      var l :| 0 <= l < |c.issued| && c.issued[l] == last;
    }
  }

  /** Generations, free slots and tombstones are the same. */
  ghost predicate SameIdentity(a: seq<Slot>, b: seq<Slot>) {
    && |a| == |b|
    && forall i :: 0 <= i < |a| ==>
         a[i].generation == b[i].generation && (a[i].state == Free <==> b[i].state == Free)
         && (a[i].state == Completed <==> b[i].state == Completed)
  }

  lemma HandlesSame(a: seq<Slot>, b: seq<Slot>, issued: seq<Handle>, finished: set<Handle>)
    requires IssuedInv(a, issued) && FinishedInv(a, finished) && SameIdentity(a, b)
    ensures IssuedInv(b, issued) && FinishedInv(b, finished)
  {
  }

  lemma HandlesInstall(c: Core, k: nat, frame: nat, parent: Option<nat>)
    requires HandleInv(c) && k < |c.slots|
    requires !Live(c.slots[k]) && c.slots[k].generation != MAX_GENERATION
    ensures HandleInv(Install(c, k, frame, parent))
  {
    var s := Install(c, k, frame, parent).slots[k];
    hide IssuedInv, FinishedInv;
    IssueNext(c.slots, c.issued, k, s);
    FinishedNext(c.slots, c.finished, k, s);
  }

  lemma IssueNext(slots: seq<Slot>, issued: seq<Handle>, k: nat, s: Slot)
    requires IssuedInv(slots, issued) && k < |slots| && slots[k].generation < MAX_GENERATION
    requires s.generation == slots[k].generation + 1 && s.state != Free
    ensures IssuedInv(slots[k := s], issued + [(k, s.generation)])
  {
    var slots', issued' := slots[k := s], issued + [(k, s.generation)];
    forall i | 0 <= i < |slots'| && slots'[i].generation > 0
      ensures (i, slots'[i].generation) in issued'
    {
      if i == k {
        assert issued'[|issued|] == (k, s.generation);
      } else {
        assert (i, slots[i].generation) in issued;
      }
    }
  }

  lemma FinishedNext(slots: seq<Slot>, finished: set<Handle>, k: nat, s: Slot)
    requires FinishedInv(slots, finished) && k < |slots|
    requires s.generation == slots[k].generation + 1 && s.state != Completed
    ensures FinishedInv(slots[k := s], finished)
  {
    assert (k, s.generation) !in finished;
  }

  lemma HandlesComplete(c: Core, i: nat)
    requires HandleInv(c) && i < |c.slots| && Live(c.slots[i])
    requires c.slots[i].parent.Some? ==> c.slots[i].parent.value != i
    ensures HandleInv(EndResume(c, i, true))
  {
    var d := EndResume(c, i, true);
    var mid := c.slots[i := Tombstone(c.slots[i])];
    var finished := c.finished + {(i, c.slots[i].generation)};
    assert IssuedInv(mid, c.issued) && FinishedInv(mid, finished) by {
      HandlesTombstone(c.slots, c.issued, c.finished, i);
    }
    assert SameIdentity(mid, d.slots);
    HandlesSame(mid, d.slots, c.issued, finished);
  }

  lemma HandlesTombstone(slots: seq<Slot>, issued: seq<Handle>, finished: set<Handle>, i: nat)
    requires IssuedInv(slots, issued) && FinishedInv(slots, finished) && i < |slots| && Live(slots[i])
    ensures IssuedInv(slots[i := Tombstone(slots[i])], issued)
    ensures FinishedInv(slots[i := Tombstone(slots[i])], finished + {(i, slots[i].generation)})
  {
  }

  // ----- every move ----------------------------------------------------------------------------

  lemma ScheduleHandles(c: Core, frame: nat)
    requires HandleInv(c)
    ensures HandleInv(Schedule(c, frame).0)
  {
    var r := Acquirable(c.slots);
    if r.Some? {
      HandlesInstall(c, r.value, frame, None);
    }
  }

  lemma StartChildHandles(c: Core, i: nat, frame: nat)
    requires HandleInv(c) && i < |c.slots| && Live(c.slots[i])
    ensures HandleInv(StartChild(c, i, frame).0)
  {
    hide IssuedInv, FinishedInv;
    var r, d := Acquirable(c.slots), StartChild(c, i, frame).0;
    if r.Some? {
      HandlesInstall(c, r.value, frame, Some(i));
      HandlesSame(Install(c, r.value, frame, Some(i)).slots, d.slots, d.issued, d.finished);
    } else {
      HandlesSame(c.slots, d.slots, c.issued, c.finished);
    }
  }

  lemma DueHandles(c: Core)
    requires HandleInv(c)
    ensures HandleInv(ProcessDue(c))
  {
    WakeDueSlots(c);
    WakeDueFifos(c);
    HandlesSame(c.slots, WakeDue(c).slots, c.issued, c.finished);
  }

  /** The slot is in this state and not retired. */
  predicate Usable(s: Slot, st: State) { s.state == st && s.generation != MAX_GENERATION }

  /** Slot `i` is the lowest usable one in this state. */
  ghost predicate Lowest(slots: seq<Slot>, st: State, i: nat) {
    i < |slots| && Usable(slots[i], st) && forall j :: 0 <= j < i ==> !Usable(slots[j], st)
  }

  ghost predicate NoneUsable(slots: seq<Slot>, st: State) { forall j :: 0 <= j < |slots| ==> !Usable(slots[j], st) }

  /**
   The slot that is acquired: the lowest one never used, else the lowest tombstone; none if and only if
   there is neither.
   */
  lemma AcquiresFreeFirst(slots: seq<Slot>)
    ensures var r := Acquirable(slots);
            && (forall i: nat :: r == Some(i) <==>
                  Lowest(slots, Free, i) || (NoneUsable(slots, Free) && Lowest(slots, Completed, i)))
            && (r == None <==> NoneUsable(slots, Free) && NoneUsable(slots, Completed))
  {
    var f, d := FirstUsable(slots, Free, 0), FirstUsable(slots, Completed, 0);
    assert f < |slots| ==> Lowest(slots, Free, f);
    assert d < |slots| ==> Lowest(slots, Completed, d);
    forall i: nat, j: nat, st | Lowest(slots, st, i) && Lowest(slots, st, j)
      ensures i == j
    {
      assert !(i < j) && !(j < i);
    }
    assert f < |slots| <==> !NoneUsable(slots, Free);
    assert forall i: nat :: Lowest(slots, Free, i) ==> !NoneUsable(slots, Free);
  }

  /**
   The handle of a finished task becomes invalid by a spawn exactly when no slot is left that was never used
   and its own is the lowest tombstone; until then it stays valid and done.
   */
  lemma DoneHandleLasts(c: Core, frame: nat, h: Handle)
    requires HandleDone(c, h)
    ensures var d := Schedule(c, frame).0;
            && (!HandleValid(d, h) <==> NoneUsable(c.slots, Free) && Lowest(c.slots, Completed, h.0))
            && (HandleValid(d, h) ==> HandleDone(d, h))
  {
    AcquiresFreeFirst(c.slots);
    hide Acquirable, NoneUsable;
    assert forall i: nat :: Lowest(c.slots, Free, i) ==> i != h.0;
  }

  /**
   Acquisition fails exactly when every slot is active or retired at the largest generation; else the
   handle is the last one issued, valid and not done.
   */
  lemma ScheduleFailsIff(c: Core, frame: nat)
    ensures Schedule(c, frame).1 == None <==>
            forall i :: 0 <= i < |c.slots| ==> Live(c.slots[i]) || c.slots[i].generation == MAX_GENERATION
    ensures Schedule(c, frame).1 == None ==> Schedule(c, frame).0 == c
    ensures Schedule(c, frame).1.Some? ==>
              var (d, h) := (Schedule(c, frame).0, Schedule(c, frame).1.value);
              d.issued == c.issued + [h] && HandleValid(d, h) && !HandleDone(d, h)
  {
  }
}
