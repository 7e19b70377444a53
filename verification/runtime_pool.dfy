/**
 The frame pool under the whole runtime: a run of the machine asks the pool for the frames that it
 makes and gives back the frames that it destroys. The pool never sees a wrong address, its live blocks
 are the allocated frames, and without owners it is as new.
 */
module RuntimePool {
  import opened Runtime
  import opened RuntimeInv
  import opened RuntimeRuns
  import opened RuntimeOwners
  import RuntimeSteps
  import L = FrameLayout
  import P = FramePoolModel

  /** The pool, the address that it gave for each frame made, and the errors that it reported. */
  datatype Store = Store(pool: P.Pool, addresses: seq<nat>, errors: nat)

  function Release(t: L.Target, st: Store, f: nat): Store
    requires f < |st.addresses|
  {
    var (q, error) := P.Deallocate(t, st.pool, st.addresses[f]);
    st.(pool := q, errors := if error then st.errors + 1 else st.errors)
  }

  /** What an action that turns the frames `fr` into `fr'` asks of the pool; a frame made takes `size` bytes. */
  function Follow(t: L.Target, st: Store, fr: Frames, fr': Frames, a: Action, size: nat): Store
    requires L.ValidTarget(t) && |st.addresses| == fr.made
  {
    if a.MakeTask? then
      var (q, address) := P.Allocate(t, st.pool, size, t.align);
      st.(pool := q, addresses := if a.exhausted then st.addresses else st.addresses + [address])
    else if |fr'.destroyed| > |fr.destroyed| && fr'.destroyed[|fr.destroyed|] < |st.addresses|
      then Release(t, st, fr'.destroyed[|fr.destroyed|])
    else st
  }

  /** The machine's choice that the pool is exhausted is the pool's own answer. */
  predicate Honest(t: L.Target, st: Store, a: Action, size: nat)
    requires L.ValidTarget(t)
  {
    a.MakeTask? ==> (a.exhausted <==> P.Allocate(t, st.pool, size, t.align).1 == P.NULL)
  }

  predicate HonestRun(t: L.Target, s: Sys, acts: seq<Action>, sizes: seq<nat>, st: Store)
    requires L.ValidTarget(t) && |sizes| == |acts|
    decreases |acts|
  {
    acts == [] ||
    (Enabled(s, acts[0]) && |st.addresses| == s.frames.made && Honest(t, st, acts[0], sizes[0])
     && HonestRun(t, Step(s, acts[0]), acts[1..], sizes[1..], Follow(t, st, s.frames, Step(s, acts[0]).frames, acts[0], sizes[0])))
  }

  /** The store after the run. */
  function FollowRun(t: L.Target, s: Sys, acts: seq<Action>, sizes: seq<nat>, st: Store): Store
    requires L.ValidTarget(t) && |sizes| == |acts| && HonestRun(t, s, acts, sizes, st)
    decreases |acts|
  {
    if acts == [] then st
    else FollowRun(t, Step(s, acts[0]), acts[1..], sizes[1..],
                   Follow(t, st, s.frames, Step(s, acts[0]).frames, acts[0], sizes[0]))
  }

  /** The addresses of the live blocks. */
  ghost function Addresses(t: L.Target, p: P.Pool): set<nat> {
    set b | b in L.LiveSet(p.blocks) :: L.Address(t, b)
  }

  /** Each allocated frame has an address of its own among `used`, and these are all. */
  ghost predicate OneEach(addresses: seq<nat>, live: set<nat>, used: set<nat>) {
    && (forall f :: f in live ==> f < |addresses| && addresses[f] in used)
    && (forall f, g :: f in live && g in live && addresses[f] == addresses[g] ==> f == g)
    && (forall x :: x in used ==> exists f :: f in live && addresses[f] == x)
  }

  /** The live blocks of the pool are the allocated frames, one block each, and no error was reported. */
  ghost predicate Backs(t: L.Target, st: Store, live: set<nat>, made: nat)
    requires t.align > 0
  {
    P.PoolInv(t, st.pool) && |st.addresses| == made && st.errors == 0 && OneEach(st.addresses, live, Addresses(t, st.pool))
  }

  lemma Granted(t: L.Target, p: P.Pool, size: nat)
    requires L.ValidTarget(t) && P.PoolInv(t, p)
    ensures var (q, address) := P.Allocate(t, p, size, t.align);
            && P.PoolInv(t, q)
            && (address != P.NULL ==> address !in Addresses(t, p) && Addresses(t, q) == Addresses(t, p) + {address})
            && (address == P.NULL ==> Addresses(t, q) == Addresses(t, p))
  {
    P.AllocateCorrect(t, p, size, t.align);
    hide P.Allocate, P.PoolInv, L.LiveSet, L.Address;
    var (q, address) := P.Allocate(t, p, size, t.align);
    if address != P.NULL {
      assert !P.IsLive(t, p, address);
      forall x
        ensures x in Addresses(t, q) <==> x in Addresses(t, p) || x == address
      {
      }
    } else {
      assert q.blocks == p.blocks;
    }
  }

  lemma GivenBack(t: L.Target, p: P.Pool, address: nat)
    requires L.ValidTarget(t) && P.PoolInv(t, p) && address in Addresses(t, p)
    ensures var (q, error) := P.Deallocate(t, p, address);
            P.PoolInv(t, q) && !error && Addresses(t, q) == Addresses(t, p) - {address}
  {
    P.DeallocateCorrect(t, p, address);
    hide P.Deallocate, P.PoolInv, L.LiveSet, L.Address;
    var (q, error) := P.Deallocate(t, p, address);
    assert P.IsLive(t, p, address);
    var c :| c in L.LiveSet(p.blocks) && L.Address(t, c) == address;
    assert L.LiveSet(q.blocks) == L.LiveSet(p.blocks) - {c};
    forall x
      ensures x in Addresses(t, q) <==> x in Addresses(t, p) && x != address
    {
      if x in Addresses(t, p) && x != address {
        var b :| b in L.LiveSet(p.blocks) && L.Address(t, b) == x;
        assert b in L.LiveSet(q.blocks);
      }
    }
  }

  lemma OneMore(addresses: seq<nat>, live: set<nat>, used: set<nat>, x: nat)
    requires OneEach(addresses, live, used) && x !in used
    ensures OneEach(addresses + [x], live + {|addresses|}, used + {x})
  {
    var a := addresses + [x];
    assert a[|addresses|] == x && |addresses| in live + {|addresses|};
    forall y | y in used
      ensures exists f :: f in live + {|addresses|} && a[f] == y
    {
      var f :| f in live && addresses[f] == y;
      assert a[f] == y;
    }
  }

  lemma OneLess(addresses: seq<nat>, live: set<nat>, used: set<nat>, f: nat)
    requires OneEach(addresses, live, used) && f in live
    ensures OneEach(addresses, live - {f}, used - {addresses[f]})
  {
    forall y | y in used - {addresses[f]}
      ensures exists g :: g in live - {f} && addresses[g] == y
    {
      var g :| g in live && addresses[g] == y;
      assert g in live - {f};
    }
  }

  /** The pool grants a frame: a fresh block at a fresh address. */
  lemma MakeBacks(t: L.Target, st: Store, live: set<nat>, made: nat, size: nat)
    requires L.ValidTarget(t) && Backs(t, st, live, made)
    requires P.Allocate(t, st.pool, size, t.align).1 != P.NULL
    ensures var (q, address) := P.Allocate(t, st.pool, size, t.align);
            Backs(t, st.(pool := q, addresses := st.addresses + [address]), live + {made}, made + 1)
  {
    hide P.Allocate, P.PoolInv, OneEach, Addresses;
    Granted(t, st.pool, size);
    OneMore(st.addresses, live, Addresses(t, st.pool), P.Allocate(t, st.pool, size, t.align).1);
  }

  lemma RefuseBacks(t: L.Target, st: Store, live: set<nat>, made: nat, size: nat)
    requires L.ValidTarget(t) && Backs(t, st, live, made)
    requires P.Allocate(t, st.pool, size, t.align).1 == P.NULL
    ensures Backs(t, st.(pool := P.Allocate(t, st.pool, size, t.align).0), live, made)
  {
    hide P.Allocate, P.PoolInv, OneEach, Addresses;
    Granted(t, st.pool, size);
  }

  /** A frame goes back: exactly its block is removed, and the pool reports nothing. */
  lemma ReleaseBacks(t: L.Target, st: Store, live: set<nat>, made: nat, f: nat)
    requires L.ValidTarget(t) && Backs(t, st, live, made) && f in live
    ensures f < |st.addresses| && Backs(t, Release(t, st, f), live - {f}, made)
  {
    hide P.Deallocate, P.PoolInv, Addresses;
    OneLess(st.addresses, live, Addresses(t, st.pool), f);
    hide OneEach;
    GivenBack(t, st.pool, st.addresses[f]);
  }

  lemma StepBacks(t: L.Target, s: Sys, a: Action, st: Store, size: nat)
    requires L.ValidTarget(t) && Inv(s) && Enabled(s, a) && Backs(t, st, s.frames.live, s.frames.made) && Honest(t, st, a, size)
    ensures |st.addresses| == s.frames.made
    ensures var u := Step(s, a); Backs(t, Follow(t, st, s.frames, u.frames, a, size), u.frames.live, u.frames.made)
  {
    hide Inv, Enabled, Step, P.Allocate, P.Deallocate, Backs, Releases;
    MakesOrReleases(s, a);
    BacksLength(t, st, s.frames.live, s.frames.made);
    if a.MakeTask? {
      if a.exhausted {
        RefuseBacks(t, st, s.frames.live, s.frames.made, size);
        FailedMake(s, a);
      } else {
        MakeBacks(t, st, s.frames.live, s.frames.made, size);
      }
    } else {
      FollowReleases(t, s.frames, Step(s, a).frames, a, st, size);
    }
  }

  lemma FailedMake(s: Sys, a: Action)
    requires Enabled(s, a) && a.MakeTask? && a.exhausted
    ensures Step(s, a).frames == s.frames
  {
  }

  lemma BacksLength(t: L.Target, st: Store, live: set<nat>, made: nat)
    requires t.align > 0 && Backs(t, st, live, made)
    ensures |st.addresses| == made
  {
  }

  lemma FollowReleases(t: L.Target, fr: Frames, fr': Frames, a: Action, st: Store, size: nat)
    requires L.ValidTarget(t) && Backs(t, st, fr.live, fr.made) && Releases(fr, fr') && !a.MakeTask? && |st.addresses| == fr.made
    ensures Backs(t, Follow(t, st, fr, fr', a, size), fr'.live, fr'.made)
  {
    hide Backs, Release, P.Allocate;
    if |fr'.destroyed| > |fr.destroyed| {
      var f :| f in fr.live && fr'.live == fr.live - {f} && fr'.destroyed == fr.destroyed + [f];
      ReleaseBacks(t, st, fr.live, fr.made, f);
    }
  }

  lemma {:induction false} RunBacks(t: L.Target, s: Sys, acts: seq<Action>, sizes: seq<nat>, st: Store)
    requires L.ValidTarget(t) && |sizes| == |acts| && Inv(s) && HonestRun(t, s, acts, sizes, st)
    requires Backs(t, st, s.frames.live, s.frames.made)
    ensures CanRun(s, acts)
    ensures Backs(t, FollowRun(t, s, acts, sizes, st), Run(s, acts).frames.live, Run(s, acts).frames.made)
    decreases |acts|
  {
    hide Inv, Enabled, Step, Backs, Honest, Follow;
    if acts != [] {
      StepBacks(t, s, acts[0], st, sizes[0]);
      RuntimeSteps.StepKeepsInv(s, acts[0]);
      RunBacks(t, Step(s, acts[0]), acts[1..], sizes[1..], Follow(t, st, s.frames, Step(s, acts[0]).frames, acts[0], sizes[0]));
    }
  }

  function NewStore(t: L.Target): Store
    requires L.ValidTarget(t)
  {
    Store(P.New(t), [], 0)
  }

  lemma NewBacks(t: L.Target)
    requires L.ValidTarget(t)
    ensures Backs(t, NewStore(t), {}, 0)
  {
    P.NewIsValid(t);
    L.InitialIsLayout(t);
  }

  /**
   From the start of the runtime, with frames of any sizes, over every run: the pool's layout holds, its
   live blocks are exactly the allocated frames, and no deallocation is ever refused. In a state with no
   owning Task or awaiter and no active task the pool is its one initial block and has no bytes in use.
   */
  lemma PoolIsEmpty(t: L.Target, n: nat, events: nat, capacities: seq<nat>, flags: nat, acts: seq<Action>, sizes: seq<nat>)
    requires L.ValidTarget(t) && |sizes| == |acts| && forall q :: 0 <= q < |capacities| ==> capacities[q] > 0
    requires HonestRun(t, Start(n, events, capacities, flags), acts, sizes, NewStore(t))
    ensures CanRun(Start(n, events, capacities, flags), acts)
    ensures var s := Run(Start(n, events, capacities, flags), acts);
            var st := FollowRun(t, Start(n, events, capacities, flags), acts, sizes, NewStore(t));
            && Backs(t, st, s.frames.live, s.frames.made)
            && (s.frames.tokens == map[] && s.core.active == 0 ==> st.pool.blocks == L.Initial(t) && st.pool.used == 0)
  {
    hide Inv, CanRun, Run, FollowRun, HonestRun, Backs;
    var s0 := Start(n, events, capacities, flags);
    StartFrames(n, events, capacities, flags);
    StartInv(n, events, capacities, flags);
    NewBacks(t);
    RunBacks(t, s0, acts, sizes, NewStore(t));
    EveryRun(n, events, capacities, flags, acts);
    var s := Run(s0, acts);
    if s.frames.tokens == map[] && s.core.active == 0 {
      PoolEmpties(s);
      NothingBacked(t, FollowRun(t, s0, acts, sizes, NewStore(t)), s.frames.made);
    }
  }

  lemma StartFrames(n: nat, events: nat, capacities: seq<nat>, flags: nat)
    ensures Start(n, events, capacities, flags).frames.live == {} && Start(n, events, capacities, flags).frames.made == 0
  {
  }

  lemma NothingBacked(t: L.Target, st: Store, made: nat)
    requires L.ValidTarget(t) && Backs(t, st, {}, made)
    ensures st.pool.blocks == L.Initial(t) && st.pool.used == 0
  {
    assert forall b :: b in L.LiveSet(st.pool.blocks) ==> L.Address(t, b) in Addresses(t, st.pool);
    assert L.LiveSet(st.pool.blocks) == {};
    L.FullRecovery(t, st.pool.blocks);
  }
}
