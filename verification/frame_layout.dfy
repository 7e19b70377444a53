/**
 The abstract arena of the frame pool: the list of blocks found by walking the headers from
 offset 0, with the theorems about it. `FramePool` is proved to move along these layouts.
 */
module FrameLayout {
  import opened Words

  const HEADER_BYTES: nat := 12 // sizeof(BlockHeader): two 32-bit fields and a flag
  const UINT32_MAX: nat := 0xFFFF_FFFF

  /** A build: word size, default alignment, arena length and arena address. */
  datatype Target = Target(word: nat, align: nat, bytes: nat, base: nat)

  /** The effective header slot: the header size rounded up to the default alignment. */
  function Header(t: Target): nat
    requires t.align > 0
  {
    HEADER_BYTES + (t.align - HEADER_BYTES % t.align) % t.align
  }

  function Usable(t: Target): nat
    requires t.align > 0
  {
    t.bytes - t.bytes % t.align
  }

  /** What the static assertions of the class and the placement of the arena in memory give. */
  predicate ValidTarget(t: Target) {
    && PowerOfTwo(t.word) && PowerOfTwo(t.align) && t.align <= 256
    && t.bytes >= Header(t) + t.align
    && Usable(t) <= UINT32_MAX < t.word
    && 0 < t.base && t.base % t.align == 0 && t.base + t.bytes < t.word
  }

  /** One block, by its offset in the arena. Only a live block has a payload offset that matters. */
  datatype Block =
    | Free(off: nat, size: nat)
    | Live(off: nat, size: nat, payload: nat)

  type Blocks = seq<Block>

  function End(b: Block): nat { b.off + b.size }

  /** The address handed to the client of a live block. */
  function Address(t: Target, b: Block): nat
    requires b.Live?
  {
    t.base + b.off + b.payload
  }

  predicate WellSized(t: Target, b: Block)
    requires t.align > 0
  {
    && b.off % t.align == 0 && b.size % t.align == 0 && Header(t) <= b.size
    && (b.Live? ==> Header(t) <= b.payload <= b.size)
  }

  /** The blocks tile `[0, end)` exactly. */
  predicate Tiles(bs: Blocks, end: nat) {
    && |bs| > 0 && bs[0].off == 0 && End(bs[|bs| - 1]) == end
    && forall i :: 0 <= i < |bs| - 1 ==> End(bs[i]) == bs[i + 1].off
  }

  predicate Coalesced(bs: Blocks) {
    forall i :: 0 <= i < |bs| - 1 ==> bs[i].Live? || bs[i + 1].Live?
  }

  predicate Layout(t: Target, bs: Blocks)
    requires t.align > 0
  {
    && Tiles(bs, Usable(t))
    && (forall i :: 0 <= i < |bs| ==> WellSized(t, bs[i]))
    && Coalesced(bs)
  }

  function LiveSet(bs: Blocks): set<Block> {
    set b | b in bs && b.Live?
  }

  function LiveBytes(bs: Blocks): nat {
    if bs == [] then 0 else LiveBytes(bs[..|bs| - 1]) + (if bs[|bs| - 1].Live? then bs[|bs| - 1].size else 0)
  }

  // ----- order of blocks ---------------------------------------------------------------------

  lemma {:induction false} Ordered(t: Target, bs: Blocks, i: nat, j: nat)
    requires ValidTarget(t) && Tiles(bs, Usable(t))
    requires i < j < |bs|
    ensures End(bs[i]) <= bs[j].off
    decreases j - i
  {
    if i + 1 < j {
      Ordered(t, bs, i + 1, j);
    }
  }

  /** Every block lies inside the arena. */
  lemma InArena(t: Target, bs: Blocks, i: nat)
    requires ValidTarget(t) && Layout(t, bs)
    requires i < |bs|
    ensures End(bs[i]) <= Usable(t)
    ensures i + 1 < |bs| <==> End(bs[i]) < Usable(t)
  {
    if i + 1 < |bs| {
      Ordered(t, bs, i, |bs| - 1);
      assert WellSized(t, bs[|bs| - 1]);
    }
  }

  /** Two blocks that overlap, or one that starts inside another, are the same block. */
  lemma SameBlock(t: Target, bs: Blocks, i: nat, j: nat)
    requires ValidTarget(t) && Tiles(bs, Usable(t))
    requires i < |bs| && j < |bs| && bs[i].off <= bs[j].off < End(bs[i])
    requires bs[j].size > 0
    ensures i == j
  {
    if i < j {
      Ordered(t, bs, i, j);
    } else if j < i {
      Ordered(t, bs, j, i);
    }
  }

  /**
   Live payload pointers are pairwise distinct, also for zero-size requests: a pointer lies in
   the half-open interval `(off, end]` of its own block.
   */
  lemma AddressesDistinct(t: Target, bs: Blocks, i: nat, j: nat)
    requires ValidTarget(t) && Layout(t, bs)
    requires i < |bs| && j < |bs| && bs[i].Live? && bs[j].Live?
    ensures Address(t, bs[i]) == Address(t, bs[j]) <==> i == j
    ensures 0 < Address(t, bs[i]) <= t.base + Usable(t) < t.word
  {
    InArena(t, bs, i);
    if i < j {
      Ordered(t, bs, i, j);
    } else if j < i {
      Ordered(t, bs, j, i);
    }
  }

  /**
   Payload ranges, from the returned pointer to the end of the block, are pairwise disjoint and
   never meet the header of any block, so no write of a client reaches another frame or a header.
   */
  lemma PayloadsDisjoint(t: Target, bs: Blocks, i: nat, j: nat, x: nat)
    requires ValidTarget(t) && Layout(t, bs)
    requires i < |bs| && j < |bs| && bs[i].Live?
    requires bs[i].off + bs[i].payload <= x < End(bs[i])
    ensures !(bs[j].off <= x < bs[j].off + Header(t))
    ensures j != i && bs[j].Live? ==> !(bs[j].off + bs[j].payload <= x < End(bs[j]))
  {
    if i < j {
      Ordered(t, bs, i, j);
    } else if j < i {
      Ordered(t, bs, j, i);
    }
  }

  // ----- the layout is a function of the live blocks -------------------------------------------

  /** The layout is canonical: the live blocks alone determine every block, free ones included. */
  lemma LayoutCanonical(t: Target, a: Blocks, b: Blocks)
    requires ValidTarget(t) && Layout(t, a) && Layout(t, b) && LiveSet(a) == LiveSet(b)
    ensures a == b
  {
    var n := if |a| <= |b| then |a| else |b|;
    SamePrefix(t, a, b, n);
    if |a| < |b| {
      InArena(t, b, |a| - 1);
    } else if |b| < |a| {
      InArena(t, a, |b| - 1);
    }
  }

  lemma {:induction false} SamePrefix(t: Target, a: Blocks, b: Blocks, n: nat)
    requires ValidTarget(t) && Layout(t, a) && Layout(t, b) && LiveSet(a) == LiveSet(b)
    requires n <= |a| && n <= |b|
    ensures a[..n] == b[..n]
  {
    if n > 0 {
      SamePrefix(t, a, b, n - 1);
      assert n > 1 ==> a[n - 2] == a[..n - 1][n - 2] && b[n - 2] == b[..n - 1][n - 2];
      assert a[n - 1].off == b[n - 1].off;
      if a[n - 1].Live? {
        SameLive(t, a, b, n - 1);
      } else if b[n - 1].Live? {
        SameLive(t, b, a, n - 1);
      } else {
        NotShorter(t, a, b, n - 1);
        NotShorter(t, b, a, n - 1);
      }
      assert a[..n] == a[..n - 1] + [a[n - 1]] && b[..n] == b[..n - 1] + [b[n - 1]];
    }
  }

  lemma SameLive(t: Target, a: Blocks, b: Blocks, k: nat)
    requires ValidTarget(t) && Layout(t, a) && Layout(t, b) && LiveSet(a) == LiveSet(b)
    requires k < |a| && k < |b| && a[k].off == b[k].off && a[k].Live?
    ensures a[k] == b[k]
  {
    assert a[k] in LiveSet(b);
    var j :| 0 <= j < |b| && b[j] == a[k];
    assert WellSized(t, b[k]) && WellSized(t, b[j]);
    SameBlock(t, b, k, j);
  }

  lemma NotShorter(t: Target, a: Blocks, b: Blocks, k: nat)
    requires ValidTarget(t) && Layout(t, a) && Layout(t, b) && LiveSet(a) == LiveSet(b)
    requires k < |a| && k < |b| && a[k].off == b[k].off && a[k].Free? && b[k].Free?
    ensures a[k].size >= b[k].size
  {
    if a[k].size < b[k].size {
      InArena(t, b, k);
      InArena(t, a, k);
      assert a[k + 1] in LiveSet(b);
      var j :| 0 <= j < |b| && b[j] == a[k + 1];
      assert WellSized(t, b[j]) && WellSized(t, a[k]);
      SameBlock(t, b, k, j);
    }
  }

  function Initial(t: Target): Blocks
    requires t.align > 0
  {
    [Free(0, Usable(t))]
  }

  lemma RemainderTotal(x: nat, a: nat)
    requires a > 0
    ensures (x - x % a) % a == 0
    ensures (x + (a - x % a) % a) % a == 0
  {
    var q, r := x / a, x % a;
    assert x == q * a + r;
    ModUnique(x - r, a, q, 0);
    if r == 0 {
      ModSmall(0, a);
      assert (a - r) % a == 0 by { ModUnique(a, a, 1, 0); }
    } else {
      ModSmall(a - r, a);
      assert x + (a - r) == (q + 1) * a + 0;
      ModUnique(x + (a - r), a, q + 1, 0);
    }
  }

  lemma TargetFacts(t: Target)
    requires ValidTarget(t)
    ensures Header(t) % t.align == 0 && HEADER_BYTES <= Header(t) < HEADER_BYTES + t.align
    ensures t.bytes < Usable(t) + t.align
    ensures Usable(t) % t.align == 0 && Header(t) + t.align <= Usable(t) <= t.bytes
  {
    RemainderTotal(HEADER_BYTES, t.align);
    RemainderTotal(t.bytes, t.align);
    if Usable(t) < Header(t) + t.align {
      MultipleSum(Header(t), t.align, t.align);
      MultipleSum(Header(t) + t.align, Usable(t), t.align);
      var d := Header(t) + t.align - Usable(t);
      ModSmall(d, t.align);
    }
  }

  lemma InitialIsLayout(t: Target)
    requires ValidTarget(t)
    ensures Layout(t, Initial(t)) && LiveSet(Initial(t)) == {} && LiveBytes(Initial(t)) == 0
  {
    TargetFacts(t);
    ModSmall(0, t.align);
  }

  /** Full recovery: a pool without live blocks is the single initial block again. */
  lemma FullRecovery(t: Target, bs: Blocks)
    requires ValidTarget(t) && Layout(t, bs) && LiveSet(bs) == {}
    ensures bs == Initial(t) && LiveBytes(bs) == 0
  {
    InitialIsLayout(t);
    LayoutCanonical(t, bs, Initial(t));
  }
}
