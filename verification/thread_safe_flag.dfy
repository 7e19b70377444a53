/**
 The thread-safe flag as it is coded: the armed list threaded through the flags, the pending mark,
 and the scan, with other contexts calling `set()` before any of its critical sections.
 */
module ThreadSafeFlags {
  import opened Wrappers
  import opened Sequences

  class ThreadSafeFlag {
    var signaled: bool
    var waiter: Option<nat>
    var armedNext: ThreadSafeFlag?

    constructor ()
      ensures !signaled && waiter == None && armedNext == null
    {
      signaled, waiter, armedNext := false, None, null;
    }
  }

  ghost function Signals(fs: seq<ThreadSafeFlag>): (s: seq<bool>)
    reads fs
    ensures |s| == |fs| && forall i :: 0 <= i < |fs| ==> s[i] == fs[i].signaled
  {
    seq(|fs|, i requires 0 <= i < |fs| reads fs => fs[i].signaled)
  }

  /** The elements of `s` at the positions where `d` has the value `v`, in order. */
  function Pick<T>(s: seq<T>, d: seq<bool>, v: bool): seq<T>
    requires |s| == |d|
  {
    if s == [] then []
    else Pick(s[..|s| - 1], d[..|s| - 1], v) + (if d[|s| - 1] == v then [s[|s| - 1]] else [])
  }

  lemma PickNext<T>(s: seq<T>, d: seq<bool>, x: T, b: bool, v: bool)
    requires |s| == |d|
    ensures Pick(s + [x], d + [b], v) == Pick(s, d, v) + (if b == v then [x] else [])
  {
    assert (s + [x])[..|s|] == s && (d + [b])[..|s|] == d;
  }

  function Add<T>(s: seq<T>, x: T, add: bool): seq<T> {
    if add then s + [x] else s
  }

  /** The static members of the class: the armed list and the pending mark. */
  class Registry {
    var armedHead: ThreadSafeFlag?
    var pending: bool
    ghost var armed: seq<ThreadSafeFlag>
    ghost var slots: seq<nat> // the waiters of the armed flags

    ghost predicate Chain()
      reads this`armedHead, this`armed, this`slots, armed`armedNext, armed`waiter
    {
      && (forall i, j :: 0 <= i < j < |armed| ==> armed[i] != armed[j])
      && armedHead == (if armed == [] then null else armed[0])
      && (forall i {:trigger armed[i].armedNext} :: 0 <= i < |armed| - 1 ==> armed[i].armedNext == armed[i + 1])
      && (armed != [] ==> armed[|armed| - 1].armedNext == null)
      && |slots| == |armed| && (forall i :: 0 <= i < |armed| ==> armed[i].waiter == Some(slots[i]))
    }

    /** A signaled armed flag is marked pending: its wake-up is not lost. */
    ghost predicate Valid()
      reads this, armed
    {
      Chain() && forall i :: 0 <= i < |armed| && armed[i].signaled ==> pending
    }

    constructor ()
      ensures Valid() && armed == []
    {
      armedHead, pending, armed, slots := null, false, [], [];
    }

    // ----- single critical sections --------------------------------------------------------------

    /** The critical section of `set()`; the result tells whether the semaphore is to be given. */
    method Set(f: ThreadSafeFlag) returns (newly: bool)
      modifies f`signaled, this`pending
      ensures f.signaled && pending && newly == !old(f.signaled)
      ensures old(Valid()) ==> Valid()
    {
      newly := !f.signaled;
      f.signaled := true;
      pending := true;
    }

    method Clear(f: ThreadSafeFlag)
      requires Valid()
      modifies f`signaled
      ensures Valid() && !f.signaled
    {
      f.signaled := false;
    }

    /** `consume`: auto-reset. */
    method Consume(f: ThreadSafeFlag) returns (was: bool)
      requires Valid()
      modifies f`signaled
      ensures Valid() && was == old(f.signaled) && !f.signaled
    {
      was := f.signaled;
      if f.signaled {
        f.signaled := false;
      }
    }

    // ----- arming ----------------------------------------------------------------------------------

    /**
     `park` of the running slot: refused when there is a waiter, else the flag becomes the head of
     the armed list. A signal that came since `consume` has set the pending mark.
     */
    method Park(f: ThreadSafeFlag, slot: nat) returns (suspended: bool)
      requires Valid() && (f.waiter == None <==> f !in armed) && (f.signaled ==> pending)
      modifies f`waiter, f`armedNext, this`armedHead, this`armed, this`slots
      ensures Valid() && suspended == (old(f.waiter) == None)
      ensures suspended ==> armed == [f] + old(armed) && slots == [slot] + old(slots) && f.waiter == Some(slot)
      ensures !suspended ==> armed == old(armed) && slots == old(slots) && f.waiter == old(f.waiter)
    {
      if f.waiter != None {
        return false;
      }
      f.waiter := Some(slot);
      f.armedNext := armedHead;
      armedHead := f;
      armed := [f] + armed;
      slots := [slot] + slots;
      suspended := true;
    }

    /** `unarm`, for the destruction of a flag that still has a waiter. */
    method Unarm(f: ThreadSafeFlag, ghost k: nat)
      requires Valid() && k < |armed| && armed[k] == f
      modifies f`waiter, armed`armedNext, this`armedHead, this`armed, this`slots
      ensures Valid() && armed == Without(old(armed), k) && slots == Without(old(slots), k)
      ensures f.waiter == None && f.armedNext == null
    {
      var prev := Before(f, k);
      var slot := Unlink(f, prev, k);
      WithoutAt(old(armed), k);
    }

    method Before(f: ThreadSafeFlag, ghost k: nat) returns (prev: ThreadSafeFlag?)
      requires Chain() && k < |armed| && armed[k] == f
      ensures prev == if k == 0 then null else armed[k - 1]
    {
      prev := null;
      var link := armedHead;
      ghost var i := 0;
      while link != f
        invariant i <= k && link == armed[i] && prev == (if i == 0 then null else armed[i - 1])
        decreases k - i
      {
        prev := link;
        link := link.armedNext;
        i := i + 1;
      }
    }

    // ----- the scan ----------------------------------------------------------------------------------

    /** Other contexts call `set()` on these flags. */
    method OtherContexts(fs: seq<ThreadSafeFlag>, ghost flags: set<ThreadSafeFlag>)
      requires forall f :: f in fs ==> f in flags
      modifies flags`signaled, this`pending
      ensures forall f :: f in flags ==> (f.signaled <==> old(f.signaled) || f in fs)
      ensures pending <==> old(pending) || fs != []
    {
      var i := 0;
      while i < |fs|
        invariant i <= |fs|
        invariant forall f :: f in flags ==> (f.signaled <==> old(f.signaled) || f in fs[..i])
        invariant pending <==> old(pending) || i > 0
      {
        var newly := Set(fs[i]);
        assert fs[..i + 1] == fs[..i] + [fs[i]];
        i := i + 1;
      }
      assert fs[..|fs|] == fs;
    }

    /** Unlink the flag at position `k` during the scan; `prev` is the flag before it, if any. */
    method Unlink(f: ThreadSafeFlag, prev: ThreadSafeFlag?, ghost k: nat) returns (slot: nat)
      requires Chain() && k < |armed| && armed[k] == f && prev == (if k == 0 then null else armed[k - 1])
      modifies f`waiter, f`armedNext, this`armedHead, this`armed, this`slots, armed`armedNext
      ensures Chain() && armed == Without(old(armed), k) && slots == Without(old(slots), k)
      ensures slot == old(slots)[k] && f.waiter == None && f.armedNext == null
    {
      var next := f.armedNext;
      slot := f.waiter.value;
      f.waiter := None;
      f.armedNext := null;
      if prev == null {
        armedHead := next;
      } else {
        prev.armedNext := next;
      }
      WithoutAt(armed, k);
      WithoutAt(slots, k);
      hide Without;
      armed := Without(armed, k);
      slots := Without(slots, k);
    }

    /**
     `poll_external_signals`. Other contexts may call `set()` on the flags `env(0)` before the pending
     mark is tested and on `env(k + 1)` before the `k`-th armed flag is tested. If the mark was there,
     exactly the flags that were signaled when tested are unlinked and their waiters woken, in list
     order; the others stay armed, in their order, and no signal of theirs is lost. Afterwards a flag is
     signaled exactly if it was set again after its test: one signal wakes once.
     */
    method PollExternalSignals(ghost flags: set<ThreadSafeFlag>, env: nat -> seq<ThreadSafeFlag>)
      returns (woken: seq<nat>, ghost decided: seq<bool>)
      requires Valid()
      requires Within(env, flags)
      requires forall f :: f in armed ==> f in flags
      modifies this, flags
      ensures Valid() && |decided| == |old(armed)| == |old(slots)|
      ensures armed == Pick(old(armed), decided, false) && slots == Pick(old(slots), decided, false)
      ensures woken == Pick(old(slots), decided, true)
      ensures forall k :: 0 <= k < |decided| ==>
                (decided[k] <==> (old(pending) || env(0) != []) && (old(armed[k].signaled) || SetIn(env, 0, k + 2, old(armed)[k])))
      ensures old(pending) || env(0) != [] ==>
                forall k :: 0 <= k < |decided| ==> (old(armed)[k].signaled <==> SetIn(env, k + 2, |decided| + 1, old(armed)[k]))
      ensures !old(pending) && env(0) == [] ==> forall f :: f in flags ==> f.signaled == old(f.signaled)
    {
      ghost var flagsBefore, slotsBefore := armed, slots;
      hide Chain, Pick, SetIn;
      OtherContexts(env(0), flags);
      if !pending {
        woken, decided := [], seq(|armed|, _ => false);
        NothingPicked(decided);
        return;
      }
      pending := false;
      woken, decided := Scan(flags, env);
      SetFirst(env);
    }

    lemma NothingPicked(decided: seq<bool>)
      requires Chain() && |decided| == |armed| && forall k :: 0 <= k < |decided| ==> !decided[k]
      ensures |armed| == |slots|
      ensures Pick(armed, decided, false) == armed && Pick(slots, decided, false) == slots && Pick(slots, decided, true) == []
    {
      PickNone(armed, decided);
      PickNone(slots, decided);
    }

    /** The scan proper, started with the pending mark just cleared. */
    method Scan(ghost flags: set<ThreadSafeFlag>, env: nat -> seq<ThreadSafeFlag>)
      returns (woken: seq<nat>, ghost decided: seq<bool>)
      requires Chain()
      requires Within(env, flags)
      requires forall f :: f in armed ==> f in flags
      modifies this, flags
      ensures Valid() && |decided| == |old(armed)| == |old(slots)|
      ensures armed == Pick(old(armed), decided, false) && slots == Pick(old(slots), decided, false)
      ensures woken == Pick(old(slots), decided, true)
      ensures forall k :: 0 <= k < |decided| ==> (decided[k] <==> old(armed[k].signaled) || SetIn(env, 1, k + 2, old(armed)[k]))
      ensures forall k :: 0 <= k < |decided| ==> (old(armed)[k].signaled <==> SetIn(env, k + 2, |decided| + 1, old(armed)[k]))
    {
      hide Scanning, Chain, Pick, SetIn, Recorded, Decided, Unlost, Within, Valid;
      ghost var fb, sb, was := armed, slots, Signals(armed);
      ghost var kept, keptSlots, prev;
      StartSignals(flags, env, was);
      woken, decided, kept, keptSlots, prev := TestAll(flags, env, was);
      EndScan(kept, keptSlots, woken, decided, fb, sb, |fb|, prev);
      AllDecided(env, was, fb, decided);
      SignalsAfter(flags, env, was, fb, kept);
    }

    lemma SignalsAfter(flags: set<ThreadSafeFlag>, env: nat -> seq<ThreadSafeFlag>, was: seq<bool>,
                       fb: seq<ThreadSafeFlag>, kept: seq<ThreadSafeFlag>)
      requires Unlost(flags, env, was, fb, kept, |fb|)
      ensures forall k :: 0 <= k < |fb| ==> (fb[k].signaled <==> SetIn(env, k + 2, |fb| + 1, fb[k]))
    {
    }

    /** The loop of the scan, with what it has kept and its last cursor. */
    method TestAll(ghost flags: set<ThreadSafeFlag>, env: nat -> seq<ThreadSafeFlag>, ghost was: seq<bool>)
      returns (woken: seq<nat>, ghost decided: seq<bool>, ghost kept: seq<ThreadSafeFlag>,
               ghost keptSlots: seq<nat>, prev: ThreadSafeFlag?)
      requires Chain() && Within(env, flags) && Unlost(flags, env, was, armed, [], 0) && |was| == |armed|
      modifies this, flags
      ensures |old(slots)| == |old(armed)| && Recorded(kept, keptSlots, woken, decided, old(armed), old(slots), |old(armed)|)
      ensures Scanning(kept, keptSlots, old(armed)[|old(armed)|..], old(slots)[|old(armed)|..], null, prev)
      ensures Unlost(flags, env, was, old(armed), kept, |old(armed)|)
      ensures Decided(env, was, old(armed), decided)
    {
      hide Scanning, Chain, Pick, SetIn, Recorded, Decided, Unlost, Add, Within;
      ghost var fb, sb := armed, slots;
      woken, decided, kept, keptSlots := [], [], [], [];
      var n := 0;
      var f := armedHead;
      prev := null;
      StartScan();
      DecideNone(env, was, fb);
      while f != null
        invariant |decided| == n <= |fb| == |sb| && Scanning(kept, keptSlots, fb[n..], sb[n..], f, prev)
        invariant Recorded(kept, keptSlots, woken, decided, fb, sb, n)
        invariant Unlost(flags, env, was, fb, kept, n)
        invariant Decided(env, was, fb, decided)
        decreases |fb| - n
      {
        ScanFacts(kept, keptSlots, fb, sb, n, f, prev);
        var wake, slot;
        wake, slot, f, prev := Round(f, prev, env, flags, was, fb, sb, kept, keptSlots, n);
        DecideOne(env, was, fb, decided, wake);
        RecordOne(kept, keptSlots, woken, decided, fb, sb, n, wake);
        if wake {
          woken := woken + [slot];
        }
        kept, keptSlots := Add(kept, fb[n], !wake), Add(keptSlots, sb[n], !wake);
        decided := decided + [wake];
        n := n + 1;
      }
      AllTested(kept, keptSlots, fb, sb, n, prev);
    }

    lemma AllTested(kept: seq<ThreadSafeFlag>, keptSlots: seq<nat>, fb: seq<ThreadSafeFlag>, sb: seq<nat>, n: nat,
                    prev: ThreadSafeFlag?)
      requires n <= |fb| == |sb| && Scanning(kept, keptSlots, fb[n..], sb[n..], null, prev)
      ensures n == |fb|
    {
    }

    lemma StartScan()
      requires Chain()
      ensures |armed| == |slots| && Scanning([], [], armed[0..], slots[0..], armedHead, null)
      ensures Recorded([], [], [], [], armed, slots, 0)
    {
      assert armed == [] + armed[0..] && slots == [] + slots[0..];
    }

    lemma StartSignals(flags: set<ThreadSafeFlag>, env: nat -> seq<ThreadSafeFlag>, was: seq<bool>)
      requires Chain() && was == Signals(armed) && forall g :: g in armed ==> g in flags
      ensures Unlost(flags, env, was, armed, [], 0)
    {
    }

    lemma ScanFacts(kept: seq<ThreadSafeFlag>, keptSlots: seq<nat>, fb: seq<ThreadSafeFlag>, sb: seq<nat>, n: nat,
                    f: ThreadSafeFlag, prev: ThreadSafeFlag?)
      requires n <= |fb| == |sb| && Scanning(kept, keptSlots, fb[n..], sb[n..], f, prev)
      ensures n < |fb| && f == fb[n] && (forall j :: n < j < |fb| ==> fb[j] != f) && (forall g :: g in kept ==> g != f)
    {
      assert forall j :: n <= j < |fb| ==> fb[j] == armed[|kept| + (j - n)];
      assert forall i :: 0 <= i < |kept| ==> kept[i] == armed[i];
    }

    lemma EndScan(kept: seq<ThreadSafeFlag>, keptSlots: seq<nat>, woken: seq<nat>, decided: seq<bool>,
                  fb: seq<ThreadSafeFlag>, sb: seq<nat>, n: nat, prev: ThreadSafeFlag?)
      requires n <= |fb| == |sb| && Scanning(kept, keptSlots, fb[n..], sb[n..], null, prev)
      requires Recorded(kept, keptSlots, woken, decided, fb, sb, n)
      requires exists flags, env, was :: Unlost(flags, env, was, fb, kept, n)
      ensures Valid() && n == |fb| == |sb| == |decided|
      ensures armed == Pick(fb, decided, false) && slots == Pick(sb, decided, false) && woken == Pick(sb, decided, true)
    {
      hide Pick;
      assert n == |fb| && armed == kept && slots == keptSlots;
      assert fb[..n] == fb && sb[..n] == sb;
    }

    /** `kept` has been tested and stays, `rest` is still to be tested, and the cursors agree with that. */
    ghost predicate Scanning(kept: seq<ThreadSafeFlag>, keptSlots: seq<nat>, rest: seq<ThreadSafeFlag>,
                             restSlots: seq<nat>, f: ThreadSafeFlag?, prev: ThreadSafeFlag?)
      reads this`armedHead, this`armed, this`slots, armed`armedNext, armed`waiter
    {
      && Chain() && |kept| == |keptSlots| && |rest| == |restSlots|
      && armed == kept + rest && slots == keptSlots + restSlots
      && f == (if rest != [] then rest[0] else null)
      && prev == (if kept == [] then null else kept[|kept| - 1])
    }

    /** No signal of a kept flag is lost; the flags to be tested hold what was set by now, the others what was set since. */
    ghost predicate Unlost(flags: set<ThreadSafeFlag>, env: nat -> seq<ThreadSafeFlag>, was: seq<bool>,
                           fb: seq<ThreadSafeFlag>, kept: seq<ThreadSafeFlag>, n: nat)
      reads this, flags
    {
      && |was| == |fb| && (forall g :: g in armed ==> g in flags) && (forall i :: 0 <= i < |fb| ==> fb[i] in flags)
      && (forall g :: g in kept ==> g in flags && (g.signaled ==> pending))
      && (forall i, j :: 0 <= i < j < |fb| ==> fb[i] != fb[j])
      && (forall i :: n <= i < |fb| ==> (fb[i].signaled <==> was[i] || SetIn(env, 1, n + 1, fb[i])))
      && (forall i :: 0 <= i < n && i < |fb| ==> (fb[i].signaled <==> SetIn(env, i + 2, n + 1, fb[i])))
    }

    /** Other contexts run, then the flag `f` is tested. */
    method Round(f: ThreadSafeFlag, prev: ThreadSafeFlag?, env: nat -> seq<ThreadSafeFlag>,
                 ghost flags: set<ThreadSafeFlag>, ghost was: seq<bool>,
                 ghost fb: seq<ThreadSafeFlag>, ghost sb: seq<nat>,
                 ghost kept: seq<ThreadSafeFlag>, ghost keptSlots: seq<nat>, n: nat)
      returns (wake: bool, slot: nat, next: ThreadSafeFlag?, prev': ThreadSafeFlag?)
      requires n < |fb| == |sb| == |was| && Scanning(kept, keptSlots, fb[n..], sb[n..], f, prev)
      requires f == fb[n] && (forall j :: n < j < |fb| ==> fb[j] != f) && (forall g :: g in kept ==> g != f)
      requires Unlost(flags, env, was, fb, kept, n)
      requires Within(env, flags)
      modifies this, flags
      ensures Scanning(Add(kept, fb[n], !wake), Add(keptSlots, sb[n], !wake), fb[n + 1..], sb[n + 1..], next, prev')
      ensures Unlost(flags, env, was, fb, Add(kept, fb[n], !wake), n + 1)
      ensures (wake <==> was[n] || SetIn(env, 1, n + 2, fb[n])) && (wake ==> slot == sb[n])
    {
      hide Scanning, Chain, SetIn;
      SetSplits(env, n + 1);
      OtherContexts(env(n + 1), flags);
      wake, slot, next, prev' := TestOne(f, prev, kept, keptSlots, fb[n..], sb[n..]);
      assert fb[n..][1..] == fb[n + 1..] && sb[n..][1..] == sb[n + 1..];
    }

    /** One round of the scan: the critical section, and the move that follows it. */
    method TestOne(f: ThreadSafeFlag, prev: ThreadSafeFlag?, ghost kept: seq<ThreadSafeFlag>,
                   ghost keptSlots: seq<nat>, ghost rest: seq<ThreadSafeFlag>, ghost restSlots: seq<nat>)
      returns (wake: bool, slot: nat, next: ThreadSafeFlag?, prev': ThreadSafeFlag?)
      requires Scanning(kept, keptSlots, rest, restSlots, f, prev) && rest != [] && restSlots != []
      modifies f`signaled, f`waiter, armed`armedNext, this`armedHead, this`armed, this`slots
      ensures Scanning(Add(kept, rest[0], !wake), Add(keptSlots, restSlots[0], !wake), rest[1..], restSlots[1..], next, prev')
      ensures wake == old(f.signaled) && !f.signaled && (wake ==> slot == restSlots[0])
      ensures forall g :: g in armed ==> g in old(armed)
    {
      hide Chain, Without, Scanning;
      TestFacts(kept, keptSlots, rest, restSlots, f, prev);
      wake := f.signaled && f.waiter != None;
      if wake {
        f.signaled := false;
      }
      next := f.armedNext;
      if wake {
        slot := Unlink(f, prev, |kept|);
        prev' := prev;
        Woken(kept, keptSlots, rest[1..], restSlots[1..], next, prev);
      } else {
        slot, prev' := 0, f;
        Kept(kept, keptSlots, rest, restSlots, f, prev);
      }
    }

    lemma TestFacts(kept: seq<ThreadSafeFlag>, keptSlots: seq<nat>, rest: seq<ThreadSafeFlag>, restSlots: seq<nat>,
                    f: ThreadSafeFlag, prev: ThreadSafeFlag?)
      requires Scanning(kept, keptSlots, rest, restSlots, f, prev) && rest != [] && restSlots != []
      ensures Chain() && |kept| == |keptSlots| && |rest| == |restSlots| && f == rest[0]
      ensures prev == if kept == [] then null else kept[|kept| - 1]
      ensures var k := |kept|;
              && k < |armed| == |slots| && armed[k] == f && f in armed && slots[k] == restSlots[0]
              && prev == (if k == 0 then null else armed[k - 1])
      ensures Without(armed, |kept|) == kept + rest[1..] && Without(slots, |kept|) == keptSlots + restSlots[1..]
      ensures f.waiter.Some? && f.armedNext == if rest[1..] != [] then rest[1..][0] else null
      ensures armed == kept + rest && slots == keptSlots + restSlots
      ensures forall g :: g in Without(armed, |kept|) ==> g in armed
    {
      var k := |kept|;
      assert armed[k] == f && (|rest| > 1 ==> armed[k + 1] == rest[1]);
    }

    lemma Woken(kept: seq<ThreadSafeFlag>, keptSlots: seq<nat>, rest: seq<ThreadSafeFlag>, restSlots: seq<nat>,
                f: ThreadSafeFlag?, prev: ThreadSafeFlag?)
      requires Chain() && |kept| == |keptSlots| && |rest| == |restSlots|
      requires armed == kept + rest && slots == keptSlots + restSlots
      requires f == (if rest != [] then rest[0] else null) && prev == (if kept == [] then null else kept[|kept| - 1])
      ensures Scanning(kept, keptSlots, rest, restSlots, f, prev)
    {
    }

    lemma Kept(kept: seq<ThreadSafeFlag>, keptSlots: seq<nat>, rest: seq<ThreadSafeFlag>, restSlots: seq<nat>,
               f: ThreadSafeFlag, prev: ThreadSafeFlag?)
      requires Scanning(kept, keptSlots, rest, restSlots, f, prev) && rest != [] && restSlots != []
      ensures Scanning(kept + [rest[0]], keptSlots + [restSlots[0]], rest[1..], restSlots[1..], f.armedNext, f)
    {
      hide Chain, Without, Scanning;
      TestFacts(kept, keptSlots, rest, restSlots, f, prev);
      Shift(kept, rest);
      Shift(keptSlots, restSlots);
      Woken(kept + [rest[0]], keptSlots + [restSlots[0]], rest[1..], restSlots[1..], f.armedNext, f);
    }
  }

  lemma Shift<T>(kept: seq<T>, rest: seq<T>)
    requires rest != []
    ensures kept + rest == (kept + [rest[0]]) + rest[1..]
  {
  }

  /** The scan's record: what stays and who is woken are picked by the decisions so far. */
  ghost predicate Recorded(kept: seq<ThreadSafeFlag>, keptSlots: seq<nat>, woken: seq<nat>, decided: seq<bool>,
                           fb: seq<ThreadSafeFlag>, sb: seq<nat>, n: nat)
  {
    && |decided| == n <= |fb| == |sb|
    && kept == Pick(fb[..n], decided, false) && keptSlots == Pick(sb[..n], decided, false)
    && woken == Pick(sb[..n], decided, true)
  }

  lemma RecordOne(kept: seq<ThreadSafeFlag>, keptSlots: seq<nat>, woken: seq<nat>, decided: seq<bool>,
                  fb: seq<ThreadSafeFlag>, sb: seq<nat>, n: nat, wake: bool)
    requires Recorded(kept, keptSlots, woken, decided, fb, sb, n) && n < |fb|
    ensures Recorded(Add(kept, fb[n], !wake), Add(keptSlots, sb[n], !wake), if wake then woken + [sb[n]] else woken,
                     decided + [wake], fb, sb, n + 1)
  {
    hide Pick;
    PickAt(fb, decided, n, false);
    PickAt(sb, decided, n, true);
    PickAt(sb, decided, n, false);
  }

  lemma PickAt<T>(s: seq<T>, d: seq<bool>, n: nat, v: bool)
    requires |d| == n < |s|
    ensures forall b :: Pick(s[..n + 1], d + [b], v) == Pick(s[..n], d, v) + (if b == v then [s[n]] else [])
  {
    assert s[..n + 1] == s[..n] + [s[n]];
    forall b
      ensures Pick(s[..n + 1], d + [b], v) == Pick(s[..n], d, v) + (if b == v then [s[n]] else [])
    {
      PickNext(s[..n], d, s[n], b, v);
    }
  }

  /** The interruptions set flags among `flags` only. */
  ghost predicate Within(env: nat -> seq<ThreadSafeFlag>, flags: set<ThreadSafeFlag>) {
    forall k, f :: f in env(k) ==> f in flags
  }

  /** Some interruption from number `lo` to before number `hi` sets flag `f`. */
  predicate SetIn(env: nat -> seq<ThreadSafeFlag>, lo: nat, hi: nat, f: ThreadSafeFlag) {
    exists i :: lo <= i < hi && f in env(i)
  }

  lemma SetSplit(env: nat -> seq<ThreadSafeFlag>, lo: nat, mid: nat, f: ThreadSafeFlag)
    requires lo <= mid
    ensures SetIn(env, lo, mid + 1, f) <==> SetIn(env, lo, mid, f) || f in env(mid)
    ensures SetIn(env, lo, mid + 1, f) <==> f in env(lo) || SetIn(env, lo + 1, mid + 1, f)
    ensures !SetIn(env, lo, lo, f)
  {
  }

  /** The decisions so far are right: a flag was set before the scan or by an interruption up to its test. */
  ghost predicate Decided(env: nat -> seq<ThreadSafeFlag>, was: seq<bool>, fb: seq<ThreadSafeFlag>, decided: seq<bool>) {
    && |decided| <= |was| == |fb|
    && forall k :: 0 <= k < |decided| ==> (decided[k] <==> was[k] || SetIn(env, 1, k + 2, fb[k]))
  }

  lemma DecideNone(env: nat -> seq<ThreadSafeFlag>, was: seq<bool>, fb: seq<ThreadSafeFlag>)
    requires |was| == |fb|
    ensures Decided(env, was, fb, [])
  {
  }

  lemma DecideOne(env: nat -> seq<ThreadSafeFlag>, was: seq<bool>, fb: seq<ThreadSafeFlag>, decided: seq<bool>, b: bool)
    requires Decided(env, was, fb, decided) && |decided| < |fb|
    requires b <==> was[|decided|] || SetIn(env, 1, |decided| + 2, fb[|decided|])
    ensures Decided(env, was, fb, decided + [b])
  {
    hide SetIn;
  }

  lemma AllDecided(env: nat -> seq<ThreadSafeFlag>, was: seq<bool>, fb: seq<ThreadSafeFlag>, decided: seq<bool>)
    requires Decided(env, was, fb, decided)
    ensures forall k :: 0 <= k < |decided| ==> (decided[k] <==> was[k] || SetIn(env, 1, k + 2, fb[k]))
  {
  }

  lemma SetFirst(env: nat -> seq<ThreadSafeFlag>)
    ensures forall n: nat, f {:trigger SetIn(env, 0, n, f)} :: n > 0 ==> (SetIn(env, 0, n, f) <==> f in env(0) || SetIn(env, 1, n, f))
  {
  }

  lemma SetSplits(env: nat -> seq<ThreadSafeFlag>, mid: nat)
    requires 1 <= mid
    ensures forall lo: nat, f :: lo <= mid ==> (SetIn(env, lo, mid + 1, f) <==> SetIn(env, lo, mid, f) || f in env(mid))
    ensures forall lo: nat, f :: !SetIn(env, lo, lo, f)
  {
    forall lo: nat, f | lo <= mid
      ensures SetIn(env, lo, mid + 1, f) <==> SetIn(env, lo, mid, f) || f in env(mid)
    {
      SetSplit(env, lo, mid, f);
    }
  }

  lemma {:induction false} PickNone<T>(s: seq<T>, d: seq<bool>)
    requires |s| == |d| && forall k :: 0 <= k < |d| ==> !d[k]
    ensures Pick(s, d, false) == s && Pick(s, d, true) == []
  {
    if s != [] {
      PickNone(s[..|s| - 1], d[..|s| - 1]);
    }
  }
}
