/** The destructor of the scheduler, slot by slot. */
module SchedulerTeardown {
  import opened Wrappers
  import opened SchedulerCore

  /** The slot owns a frame that the destructor releases. */
  predicate Owning(s: Slot) { s.frame.Some? && s.state != Completed }

  function Emptied(s: Slot): Slot {
    if Owning(s) then s.(frame := None, state := Completed) else s
  }

  /** The slots when the destructor has detached the first `n` of them. */
  function Torn(slots: seq<Slot>, n: nat): (r: seq<Slot>)
    ensures |r| == |slots|
  {
    seq(|slots|, i requires 0 <= i < |slots| => if i < n then Emptied(slots[i]) else slots[i])
  }

  /** The frames that the first `n` slots own, in slot order. */
  function OwnedFrames(slots: seq<Slot>, n: nat): seq<nat>
    requires n <= |slots|
  {
    if n == 0 then []
    else OwnedFrames(slots, n - 1) + (if Owning(slots[n - 1]) then [slots[n - 1].frame.value] else [])
  }

  lemma TornNone(slots: seq<Slot>)
    ensures Torn(slots, 0) == slots && OwnedFrames(slots, 0) == []
  {
  }

  /** One more slot: its frame is released if it owns one, else nothing happens. */
  lemma TornNext(slots: seq<Slot>, n: nat)
    requires n < |slots|
    ensures Torn(slots, n)[n] == slots[n]
    ensures Owning(slots[n]) ==>
              && Torn(slots, n + 1) == Torn(slots, n)[n := slots[n].(frame := None, state := Completed)]
              && OwnedFrames(slots, n + 1) == OwnedFrames(slots, n) + [slots[n].frame.value]
    ensures !Owning(slots[n]) ==> Torn(slots, n + 1) == Torn(slots, n) && OwnedFrames(slots, n + 1) == OwnedFrames(slots, n)
  {
  }
}
