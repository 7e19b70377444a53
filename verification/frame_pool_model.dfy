/** The frame pool as a state and two operations, and what holds over every run of them. */
module FramePoolModel {
  import opened Words
  import opened FrameLayout
  import opened FrameAllocation

  datatype Pool = Pool(blocks: Blocks, used: nat, peak: nat, failures: nat)

  const NULL: nat := 0

  /** An alignment below the default means the default. */
  function Effective(t: Target, align: nat): nat {
    if align < t.align then t.align else align
  }

  /** The failure counter is a word that wraps. */
  function Failed(t: Target, p: Pool): Pool
    requires t.word > 0
  {
    p.(failures := Add(p.failures, 1, t.word))
  }

  /** The new pool and the returned address, `NULL` on failure. */
  function Allocate(t: Target, p: Pool, size: nat, align: nat): (Pool, nat)
    requires t.align > 0 && t.word > 0
  {
    var a := Effective(t, align);
    var k := FirstFit(t, p.blocks, size, a, 0);
    if !PowerOfTwo(a) || k == |p.blocks| then (Failed(t, p), NULL)
    else
      var b := Taken(t, p.blocks[k], size, a);
      var used := p.used + b.size;
      (Pool(Place(t, p.blocks, k, size, a), used, if used > p.peak then used else p.peak, p.failures), Address(t, b))
  }

  /** The index of the live block with this address from `i` on, or `|bs|`. */
  function FindLive(t: Target, bs: Blocks, p: nat, i: nat): (k: nat)
    requires i <= |bs|
    ensures i <= k <= |bs|
    ensures k < |bs| ==> bs[k].Live? && Address(t, bs[k]) == p
    ensures forall j :: i <= j < k && bs[j].Live? ==> Address(t, bs[j]) != p
    decreases |bs| - i
  {
    if i == |bs| || (bs[i].Live? && Address(t, bs[i]) == p) then i else FindLive(t, bs, p, i + 1)
  }

  /** The new pool, and whether the error hook was told that the pointer is not a live one. */
  function Deallocate(t: Target, p: Pool, address: nat): (Pool, bool) {
    var k := FindLive(t, p.blocks, address, 0);
    if address == NULL then (p, false)
    else if k == |p.blocks| then (p, true)
    else
      var size := p.blocks[k].size;
      (p.(blocks := Released(p.blocks, k), used := if size <= p.used then p.used - size else 0), false)
  }

  ghost predicate PoolInv(t: Target, p: Pool)
    requires t.align > 0
  {
    && Layout(t, p.blocks) && p.used == LiveBytes(p.blocks)
    && p.used <= p.peak && p.failures < t.word
  }

  function New(t: Target): Pool
    requires t.align > 0
  {
    Pool(Initial(t), 0, 0, 0)
  }

  // ----- one operation -------------------------------------------------------------------------

  /** The live block of this address, if there is one. */
  ghost predicate IsLive(t: Target, p: Pool, address: nat) {
    exists b :: b in LiveSet(p.blocks) && Address(t, b) == address
  }

  /**
   `q` has one live block more than `p`, at this address and with room for `size` bytes. It is at the start
   of a maximal gap, which it takes whole, with slack below a header and an alignment unit, or leaves by
   at least a header and an alignment unit, with slack below an alignment unit.
   */
  ghost predicate GrewBy(t: Target, p: Pool, q: Pool, address: nat, size: nat)
    requires t.align > 0
  {
    exists b: Block, z: nat ::
      && b.Live? && b !in LiveSet(p.blocks) && LiveSet(q.blocks) == LiveSet(p.blocks) + {b}
      && Address(t, b) == address && b.payload + size <= b.size && Gap(t, LiveSet(p.blocks), b.off, z)
      && if End(b) == z then b.size < b.payload + size + Header(t) + t.align
         else End(b) + Header(t) + t.align <= z && b.size < b.payload + size + t.align
  }

  /**
   Allocation with the effective alignment `a`: on success exactly one live block is added, at an aligned
   fresh address and at no higher address than any at which a gap could hold the request; it fails exactly
   when the alignment is no power of two or no gap has room, and then only the failure count changes.
   */
  lemma AllocateWith(t: Target, p: Pool, size: nat, align: nat, a: nat)
    requires ValidTarget(t) && PoolInv(t, p) && a == Effective(t, align)
    ensures var (q, address) := Allocate(t, p, size, align);
            && PoolInv(t, q) && a > 0
            && (address == NULL <==> !PowerOfTwo(a) || !SomeGapHolds(t, LiveSet(p.blocks), size, a))
            && (address == NULL ==> q == p.(failures := (p.failures + 1) % t.word))
            && (address != NULL ==>
                  && address % a == 0 && !IsLive(t, p, address)
                  && GrewBy(t, p, q, address, size) && q.failures == p.failures
                  && (forall x :: HoldsAt(t, LiveSet(p.blocks), size, a, x) ==> address <= x))
  {
    hide Layout, Place, Taken, HoldsAt, SomeGapHolds, IsLive, GrewBy, Fits;
    FirstFitComplete(t, p.blocks, size, a);
    var k := FirstFit(t, p.blocks, size, a, 0);
    if PowerOfTwo(a) && k < |p.blocks| {
      Placed(t, p, k, size, a);
      forall x | HoldsAt(t, LiveSet(p.blocks), size, a, x)
        ensures Address(t, Taken(t, p.blocks[k], size, a)) <= x
      {
        FirstFitLowest(t, p.blocks, size, a, x);
      }
    }
  }

  /**
   Allocation, in terms of the alignment that the caller asks for. A power of two is always honoured. Above
   the default, the request fails exactly when it is no power of two or no gap between live blocks holds it,
   and gets the lowest address that does; at or below the default, it is served exactly as one for the
   default, by the same law.
   */
  lemma AllocateCorrect(t: Target, p: Pool, size: nat, align: nat)
    requires ValidTarget(t) && PoolInv(t, p)
    ensures var (q, address) := Allocate(t, p, size, align);
            var live := LiveSet(p.blocks);
            && PoolInv(t, q)
            && (address == NULL ==> q == p.(failures := (p.failures + 1) % t.word))
            && (address != NULL ==> !IsLive(t, p, address) && GrewBy(t, p, q, address, size) && q.failures == p.failures)
            && (PowerOfTwo(align) && address != NULL ==> address % align == 0)
            && (align > t.align ==>
                  && (address == NULL <==> !PowerOfTwo(align) || !SomeGapHolds(t, live, size, align))
                  && (address != NULL ==> forall x :: HoldsAt(t, live, size, align, x) ==> address <= x))
            && (align <= t.align ==>
                  && (q, address) == Allocate(t, p, size, t.align)
                  && (address == NULL <==> !SomeGapHolds(t, live, size, t.align))
                  && (address != NULL ==>
                        address % t.align == 0 && forall x :: HoldsAt(t, live, size, t.align, x) ==> address <= x))
  {
    hide PoolInv, Allocate, SomeGapHolds, HoldsAt, IsLive, GrewBy, PowerOfTwo;
    AllocateWith(t, p, size, align, Effective(t, align));
    assert PowerOfTwo(t.align);
    if align <= t.align {
      SameAsDefault(t, p, size, align);
      var address := Allocate(t, p, size, align).1;
      if PowerOfTwo(align) && address != NULL {
        PositivePower(align);
        PowersDivide(align, t.align);
        MultipleOfMultiple(address, t.align, align);
      }
    }
  }

  lemma SameAsDefault(t: Target, p: Pool, size: nat, align: nat)
    requires ValidTarget(t) && align <= t.align
    ensures Effective(t, align) == t.align && Allocate(t, p, size, align) == Allocate(t, p, size, t.align)
  {
  }

  /** What placing the request into the fitting block `k` gives. */
  lemma Placed(t: Target, p: Pool, k: nat, size: nat, a: nat)
    requires ValidTarget(t) && PoolInv(t, p) && a > 0 && k < |p.blocks| && Fits(t, p.blocks[k], size, a)
    ensures var b, placed := Taken(t, p.blocks[k], size, a), Place(t, p.blocks, k, size, a);
            && Layout(t, placed) && LiveBytes(placed) == p.used + b.size
            && b.Live? && Address(t, b) != NULL && Address(t, b) % a == 0 && !IsLive(t, p, Address(t, b))
            && forall q: Pool :: q.blocks == placed ==> GrewBy(t, p, q, Address(t, b), size)
  {
    var b := Taken(t, p.blocks[k], size, a);
    assert WellSized(t, p.blocks[k]) && t.base > 0 && p.used == LiveBytes(p.blocks);
    TakenFacts(t, p.blocks[k], size, a);
    TakenTightly(t, p.blocks[k], size, a);
    FreeBlockIsGap(t, p.blocks, k);
    hide Layout, Place, Gap, LiveSet, LiveBytes, IsLive, PoolInv, GrewBy, WellSized, ValidTarget, PadTo;
    PlaceSound(t, p.blocks, k, size, a);
    FreshAddress(t, p, k, size, a);
    forall q: Pool | q.blocks == Place(t, p.blocks, k, size, a)
      ensures GrewBy(t, p, q, Address(t, b), size)
    {
      Grew(t, p, q, b, End(p.blocks[k]), size);
    }
  }

  lemma Grew(t: Target, p: Pool, q: Pool, b: Block, z: nat, size: nat)
    requires t.align > 0
    requires b.Live? && b !in LiveSet(p.blocks) && LiveSet(q.blocks) == LiveSet(p.blocks) + {b}
    requires b.payload + size <= b.size && Gap(t, LiveSet(p.blocks), b.off, z)
    requires if End(b) == z then b.size < b.payload + size + Header(t) + t.align
             else End(b) + Header(t) + t.align <= z && b.size < b.payload + size + t.align
    ensures GrewBy(t, p, q, Address(t, b), size)
  {
  }

  lemma FreshAddress(t: Target, p: Pool, k: nat, size: nat, a: nat)
    requires ValidTarget(t) && PoolInv(t, p) && a > 0 && k < |p.blocks| && Fits(t, p.blocks[k], size, a)
    ensures !IsLive(t, p, Address(t, Taken(t, p.blocks[k], size, a)))
  {
    var bs, b := Place(t, p.blocks, k, size, a), Taken(t, p.blocks[k], size, a);
    PlaceSound(t, p.blocks, k, size, a);
    if IsLive(t, p, Address(t, b)) {
      var c :| c in LiveSet(p.blocks) && Address(t, c) == Address(t, b);
      assert c in LiveSet(bs) && b in LiveSet(bs);
      var i :| 0 <= i < |bs| && bs[i] == c;
      var j :| 0 <= j < |bs| && bs[j] == b;
      AddressesDistinct(t, bs, i, j);
    }
  }

  /**
   Deallocation: it removes exactly the live block of that address and keeps the place and size
   of every other one; the error hook is told exactly for non-null addresses that are not live,
   and then nothing changes.
   */
  lemma DeallocateCorrect(t: Target, p: Pool, address: nat)
    requires ValidTarget(t) && PoolInv(t, p)
    ensures var (q, error) := Deallocate(t, p, address);
            && PoolInv(t, q)
            && (error <==> address != NULL && !IsLive(t, p, address))
            && (!IsLive(t, p, address) ==> q == p)
            && (forall b :: b in LiveSet(p.blocks) ==>
                  (b in LiveSet(q.blocks) <==> Address(t, b) != address)
                  && (Address(t, b) == address ==> LiveSet(q.blocks) == LiveSet(p.blocks) - {b} && q.used + b.size == p.used))
  {
    var k := FindLive(t, p.blocks, address, 0);
    hide Layout, Released;
    forall b | b in LiveSet(p.blocks)
      ensures Address(t, b) != NULL
      ensures Address(t, b) == address ==> k < |p.blocks| && b == p.blocks[k]
    {
      var i :| 0 <= i < |p.blocks| && p.blocks[i] == b;
      AddressesDistinct(t, p.blocks, i, i);
      if Address(t, b) == address {
        AddressesDistinct(t, p.blocks, i, k);
      }
    }
    if k < |p.blocks| {
      assert p.blocks[k] in LiveSet(p.blocks);
      ReleasedSound(t, p.blocks, k);
    }
  }

  // ----- whole runs ----------------------------------------------------------------------------

  datatype Op = OpAllocate(size: nat, align: nat) | OpDeallocate(address: nat)

  function Step(t: Target, p: Pool, op: Op): Pool
    requires t.align > 0 && t.word > 0
  {
    match op
    case OpAllocate(size, align) => Allocate(t, p, size, align).0
    case OpDeallocate(address) => Deallocate(t, p, address).0
  }

  function Run(t: Target, p: Pool, ops: seq<Op>): Pool
    requires t.align > 0 && t.word > 0
    decreases |ops|
  {
    if ops == [] then p else Step(t, Run(t, p, ops[..|ops| - 1]), ops[|ops| - 1])
  }

  /** Every run of allocations and deallocations, right or wrong ones, keeps the layout invariant. */
  lemma {:induction false} RunKeepsLayout(t: Target, p: Pool, ops: seq<Op>)
    requires ValidTarget(t) && PoolInv(t, p)
    ensures PoolInv(t, Run(t, p, ops))
  {
    if ops != [] {
      var q := Run(t, p, ops[..|ops| - 1]);
      RunKeepsLayout(t, p, ops[..|ops| - 1]);
      match ops[|ops| - 1]
      case OpAllocate(size, align) => AllocateCorrect(t, q, size, align);
      case OpDeallocate(address) => DeallocateCorrect(t, q, address);
    }
  }

  lemma NewIsValid(t: Target)
    requires ValidTarget(t)
    ensures PoolInv(t, New(t))
  {
    InitialIsLayout(t);
  }

  /**
   Full recovery over whole runs: after any run, if no block is live the pool has the single
   initial block and no used bytes, whatever order of operations led there; and two runs that
   leave the same live blocks leave the very same block list and used bytes.
   */
  lemma RunsAreCanonical(t: Target, ops: seq<Op>, ops': seq<Op>)
    requires ValidTarget(t)
    requires LiveSet(Run(t, New(t), ops).blocks) == LiveSet(Run(t, New(t), ops').blocks)
    ensures var p, q := Run(t, New(t), ops), Run(t, New(t), ops');
            && p.blocks == q.blocks && p.used == q.used
            && (LiveSet(p.blocks) == {} ==> p.blocks == Initial(t) && p.used == 0)
  {
    var p, q := Run(t, New(t), ops), Run(t, New(t), ops');
    NewIsValid(t);
    RunKeepsLayout(t, New(t), ops);
    RunKeepsLayout(t, New(t), ops');
    LayoutCanonical(t, p.blocks, q.blocks);
    if LiveSet(p.blocks) == {} {
      FullRecovery(t, p.blocks);
    }
  }

  /** The number of allocations of a run that failed. */
  function Failures(t: Target, p: Pool, ops: seq<Op>): nat
    requires t.align > 0 && t.word > 0
    decreases |ops|
  {
    if ops == [] then 0
    else
      var before, op := ops[..|ops| - 1], ops[|ops| - 1];
      Failures(t, p, before) + (if op.OpAllocate? && Allocate(t, Run(t, p, before), op.size, op.align).1 == NULL then 1 else 0)
  }

  /** The most bytes that were in use at any time of a run. */
  function MostUsed(t: Target, p: Pool, ops: seq<Op>): nat
    requires t.align > 0 && t.word > 0
    decreases |ops|
  {
    if ops == [] then p.used
    else
      var earlier, now := MostUsed(t, p, ops[..|ops| - 1]), Run(t, p, ops).used;
      if now > earlier then now else earlier
  }

  /** The counters tell the history: failed allocations, up to the wrap of the word, and the peak of the bytes in use. */
  lemma {:induction false} CountersTell(t: Target, ops: seq<Op>)
    requires ValidTarget(t)
    ensures Run(t, New(t), ops).failures == Failures(t, New(t), ops) % t.word
    ensures Run(t, New(t), ops).peak == MostUsed(t, New(t), ops)
  {
    hide PoolInv, Allocate, Deallocate, Step;
    NewIsValid(t);
    if ops != [] {
      var before := ops[..|ops| - 1];
      CountersTell(t, before);
      RunKeepsLayout(t, New(t), before);
      var p, op := Run(t, New(t), before), ops[|ops| - 1];
      StepCounters(t, p, op);
      assert Run(t, New(t), ops) == Step(t, p, op);
      NextRemainder(Failures(t, New(t), before), t.word);
    } else {
      ModSmall(0, t.word);
    }
  }

  lemma NextRemainder(x: nat, w: nat)
    requires w > 0
    ensures (x % w + 1) % w == (x + 1) % w
  {
    var q, r := x / w, x % w;
    assert x == q * w + r;
    if r + 1 < w {
      ModUnique(x + 1, w, q, r + 1);
      ModSmall(r + 1, w);
    } else {
      assert x + 1 == (q + 1) * w;
      ModUnique(x + 1, w, q + 1, 0);
      ModUnique(r + 1, w, 1, 0);
    }
  }

  lemma StepCounters(t: Target, p: Pool, op: Op)
    requires ValidTarget(t) && PoolInv(t, p)
    ensures var q := Step(t, p, op);
            && q.peak == (if q.used > p.peak then q.used else p.peak)
            && q.failures == if op.OpAllocate? && Allocate(t, p, op.size, op.align).1 == NULL then (p.failures + 1) % t.word else p.failures
  {
    if op.OpAllocate? {
      hide Layout, LiveBytes, LiveSet;
      AllocateWith(t, p, op.size, op.align, Effective(t, op.align));
    }
  }

  function Drain(addresses: seq<nat>): seq<Op> {
    seq(|addresses|, i requires 0 <= i < |addresses| => OpDeallocate(addresses[i]))
  }

  /** Freeing every live address, in any order, gives back the single initial block. */
  lemma {:induction false} DrainRecovers(t: Target, p: Pool, addresses: seq<nat>)
    requires ValidTarget(t) && PoolInv(t, p)
    requires forall b :: b in LiveSet(p.blocks) ==> Address(t, b) in addresses
    ensures Run(t, p, Drain(addresses)).blocks == Initial(t) && Run(t, p, Drain(addresses)).used == 0
  {
    var q := Run(t, p, Drain(addresses));
    RunKeepsLayout(t, p, Drain(addresses));
    DrainLeaves(t, p, addresses);
    assert LiveSet(q.blocks) == {};
    FullRecovery(t, q.blocks);
  }

  lemma {:induction false} DrainLeaves(t: Target, p: Pool, addresses: seq<nat>)
    requires ValidTarget(t) && PoolInv(t, p)
    ensures forall b :: b in LiveSet(Run(t, p, Drain(addresses)).blocks) <==>
                        b in LiveSet(p.blocks) && Address(t, b) !in addresses
  {
    hide PoolInv, Deallocate;
    if addresses != [] {
      var n := |addresses| - 1;
      assert Drain(addresses)[..n] == Drain(addresses[..n]);
      DrainLeaves(t, p, addresses[..n]);
      RunKeepsLayout(t, p, Drain(addresses[..n]));
      var q := Run(t, p, Drain(addresses[..n]));
      DeallocateCorrect(t, q, addresses[n]);
      var r := Deallocate(t, q, addresses[n]).0;
      assert r == Run(t, p, Drain(addresses));
      DeallocateSubset(t, q, addresses[n]);
      assert addresses == addresses[..n] + [addresses[n]];
    }
  }

  lemma DeallocateSubset(t: Target, p: Pool, address: nat)
    requires ValidTarget(t) && PoolInv(t, p)
    ensures LiveSet(Deallocate(t, p, address).0.blocks) <= LiveSet(p.blocks)
  {
    var k := FindLive(t, p.blocks, address, 0);
    if k < |p.blocks| {
      ReleasedSound(t, p.blocks, k);
    }
  }
}
