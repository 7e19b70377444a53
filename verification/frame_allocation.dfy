/**
 First-fit allocation and coalescing release as functions on layouts: soundness, completeness,
 the exact effect on the live blocks, and whole runs of the pool.
 */
module FrameAllocation {
  import opened Words
  import opened FrameLayout

  // ----- alignment arithmetic ------------------------------------------------------------------

  /** The distance from `addr` up to the next multiple of `align`. */
  function PadTo(addr: nat, align: nat): (pad: nat)
    requires align > 0
  {
    (align - addr % align) % align
  }

  lemma PadToIsLeast(addr: nat, align: nat, x: nat)
    requires align > 0
    ensures PadTo(addr, align) < align && (addr + PadTo(addr, align)) % align == 0
    ensures x >= addr && x % align == 0 ==> x >= addr + PadTo(addr, align)
  {
    RemainderTotal(addr, align);
    if addr <= x < addr + PadTo(addr, align) && x % align == 0 {
      MultipleSum(addr + PadTo(addr, align), x, align);
      ModSmall(addr + PadTo(addr, align) - x, align);
    }
  }

  // ----- replacing a run of blocks ---------------------------------------------------------------

  /** Blocks `first..last` replaced by `mid`. */
  function Splice(bs: Blocks, first: nat, last: nat, mid: Blocks): Blocks
    requires first <= last < |bs|
  {
    bs[..first] + mid + bs[last + 1..]
  }

  predicate SpliceFits(t: Target, bs: Blocks, first: nat, last: nat, mid: Blocks)
    requires t.align > 0
    requires first <= last < |bs|
  {
    && |mid| > 0 && mid[0].off == bs[first].off && End(mid[|mid| - 1]) == End(bs[last])
    && (forall i :: 0 <= i < |mid| - 1 ==> End(mid[i]) == mid[i + 1].off)
    && (forall i :: 0 <= i < |mid| ==> WellSized(t, mid[i]))
    && Coalesced(mid)
    && (first > 0 ==> bs[first - 1].Live? || mid[0].Live?)
    && (last + 1 < |bs| ==> bs[last + 1].Live? || mid[|mid| - 1].Live?)
  }

  lemma SpliceLayout(t: Target, bs: Blocks, first: nat, last: nat, mid: Blocks)
    requires ValidTarget(t) && Layout(t, bs) && first <= last < |bs|
    requires SpliceFits(t, bs, first, last, mid)
    ensures Layout(t, Splice(bs, first, last, mid))
  {
    var r, e := Splice(bs, first, last, mid), first + |mid|;
    forall j | 0 <= j < |r|
      ensures WellSized(t, r[j])
    {
      SpliceAt(bs, first, last, mid, j);
    }
    forall j | 0 <= j < |r| - 1
      ensures End(r[j]) == r[j + 1].off && (r[j].Live? || r[j + 1].Live?)
    {
      SpliceAt(bs, first, last, mid, j);
      SpliceAt(bs, first, last, mid, j + 1);
    }
    SpliceAt(bs, first, last, mid, 0);
    SpliceAt(bs, first, last, mid, |r| - 1);
  }

  lemma SpliceAt(bs: Blocks, first: nat, last: nat, mid: Blocks, j: nat)
    requires first <= last < |bs| && j < first + |mid| + (|bs| - last - 1)
    ensures |Splice(bs, first, last, mid)| == first + |mid| + (|bs| - last - 1)
    ensures Splice(bs, first, last, mid)[j] ==
              if j < first then bs[j] else if j < first + |mid| then mid[j - first] else bs[j - |mid| - first + last + 1]
  {
  }

  lemma SpliceLive(bs: Blocks, first: nat, last: nat, mid: Blocks)
    requires first <= last < |bs|
    ensures LiveSet(Splice(bs, first, last, mid)) == LiveSet(bs[..first]) + LiveSet(mid) + LiveSet(bs[last + 1..])
    ensures LiveSet(bs) == LiveSet(bs[..first]) + LiveSet(bs[first..last + 1]) + LiveSet(bs[last + 1..])
    ensures LiveBytes(Splice(bs, first, last, mid)) + LiveBytes(bs[first..last + 1]) == LiveBytes(bs) + LiveBytes(mid)
  {
    var gone := bs[first..last + 1];
    assert bs == bs[..first] + gone + bs[last + 1..];
    LiveSplit(bs[..first] + mid, bs[last + 1..]);
    LiveSplit(bs[..first], mid);
    LiveSplit(bs[..first] + gone, bs[last + 1..]);
    LiveSplit(bs[..first], gone);
  }

  lemma LiveSplit(a: Blocks, b: Blocks)
    ensures LiveSet(a + b) == LiveSet(a) + LiveSet(b)
    ensures LiveBytes(a + b) == LiveBytes(a) + LiveBytes(b)
  {
    LiveBytesSplit(a, b);
    forall x
      ensures x in LiveSet(a + b) <==> x in LiveSet(a) + LiveSet(b)
    {
      assert x in a + b <==> x in a || x in b;
    }
  }

  lemma {:induction false} LiveBytesSplit(a: Blocks, b: Blocks)
    ensures LiveBytes(a + b) == LiveBytes(a) + LiveBytes(b)
  {
    if b == [] {
      assert a + b == a;
    } else {
      assert (a + b)[..|a + b| - 1] == a + b[..|b| - 1];
      LiveBytesSplit(a, b[..|b| - 1]);
    }
  }

  // ----- allocation ----------------------------------------------------------------------------

  function PayloadOffset(t: Target, off: nat, align: nat): nat
    requires t.align > 0 && align > 0
  {
    Header(t) + PadTo(t.base + off + Header(t), align)
  }

  predicate Fits(t: Target, b: Block, size: nat, align: nat)
    requires t.align > 0 && align > 0
  {
    b.Free? && PayloadOffset(t, b.off, align) + size <= b.size
  }

  /** The index of the first block from `i` on that fits, or `|bs|`. */
  function FirstFit(t: Target, bs: Blocks, size: nat, align: nat, i: nat): (k: nat)
    requires t.align > 0 && align > 0 && i <= |bs|
    ensures i <= k <= |bs|
    ensures k < |bs| ==> Fits(t, bs[k], size, align)
    ensures forall j :: i <= j < k ==> !Fits(t, bs[j], size, align)
    decreases |bs| - i
  {
    if i == |bs| || Fits(t, bs[i], size, align) then i else FirstFit(t, bs, size, align, i + 1)
  }

  /** The bytes taken from the block: header, padding and payload, rounded up. */
  function Needed(t: Target, b: Block, size: nat, align: nat): nat
    requires t.align > 0 && align > 0
  {
    var used := PayloadOffset(t, b.off, align) + size;
    used + PadTo(used, t.align)
  }

  predicate Splits(t: Target, b: Block, size: nat, align: nat)
    requires t.align > 0 && align > 0
  {
    Needed(t, b, size, align) + Header(t) + t.align <= b.size
  }

  /** The live block made out of a free block. */
  function Taken(t: Target, b: Block, size: nat, align: nat): Block
    requires t.align > 0 && align > 0
  {
    Live(b.off,
         if Splits(t, b, size, align) then Needed(t, b, size, align) else b.size,
         PayloadOffset(t, b.off, align))
  }

  function Remainder(t: Target, b: Block, size: nat, align: nat): Blocks
    requires t.align > 0 && align > 0
  {
    var needed := Needed(t, b, size, align);
    if Splits(t, b, size, align) then [Free(b.off + needed, b.size - needed)] else []
  }

  function Place(t: Target, bs: Blocks, i: nat, size: nat, align: nat): Blocks
    requires t.align > 0 && align > 0 && i < |bs|
  {
    Splice(bs, i, i, [Taken(t, bs[i], size, align)] + Remainder(t, bs[i], size, align))
  }

  lemma TakenFacts(t: Target, b: Block, size: nat, align: nat)
    requires ValidTarget(t) && align > 0 && WellSized(t, b) && Fits(t, b, size, align)
    ensures Needed(t, b, size, align) <= b.size
    ensures WellSized(t, Taken(t, b, size, align))
    ensures forall r :: r in Remainder(t, b, size, align) ==> WellSized(t, r)
    ensures Address(t, Taken(t, b, size, align)) % align == 0
    ensures var k := Taken(t, b, size, align);
            0 <= k.size - (k.payload + size) < Header(t) + t.align
  {
    TargetFacts(t);
    var used := PayloadOffset(t, b.off, align) + size;
    PadToIsLeast(used, t.align, b.size);
    PadToIsLeast(t.base + b.off + Header(t), align, 0);
    var needed := Needed(t, b, size, align);
    MultipleSum(b.size, needed, t.align);
    MultipleSum(b.off, needed, t.align);
    if !Splits(t, b, size, align) {
      NoSplitSlack(t, b.size - needed);
    }
  }

  /** The block is taken whole, or what is left of it holds at least a header and an alignment unit. */
  lemma TakenTightly(t: Target, b: Block, size: nat, align: nat)
    requires t.align > 0 && align > 0
    ensures var k := Taken(t, b, size, align);
            k.size == b.size || (k.size < k.payload + size + t.align && k.size + Header(t) + t.align <= b.size)
  {
    PadToIsLeast(PayloadOffset(t, b.off, align) + size, t.align, 0);
  }

  lemma NoSplitSlack(t: Target, rest: nat)
    requires ValidTarget(t) && rest % t.align == 0 && rest < Header(t) + t.align
    ensures rest <= Header(t)
  {
    TargetFacts(t);
    if rest > Header(t) {
      MultipleSum(rest, Header(t), t.align);
      ModSmall(rest - Header(t), t.align);
    }
  }

  /**
   Soundness: placing a request into a fitting block keeps the layout and adds exactly one live
   block (aligned and large enough, with bounded waste, by `TakenFacts`).
   */
  lemma PlaceSound(t: Target, bs: Blocks, i: nat, size: nat, align: nat)
    requires ValidTarget(t) && Layout(t, bs) && align > 0
    requires i < |bs| && Fits(t, bs[i], size, align)
    ensures Layout(t, Place(t, bs, i, size, align))
    ensures Taken(t, bs[i], size, align) !in LiveSet(bs)
    ensures LiveSet(Place(t, bs, i, size, align)) == LiveSet(bs) + {Taken(t, bs[i], size, align)}
    ensures LiveBytes(Place(t, bs, i, size, align)) == LiveBytes(bs) + Taken(t, bs[i], size, align).size
  {
    PlaceLayout(t, bs, i, size, align);
    PlaceFresh(t, bs, i, size, align);
    PlaceLive(t, bs, i, size, align);
  }

  lemma PlaceLayout(t: Target, bs: Blocks, i: nat, size: nat, align: nat)
    requires ValidTarget(t) && Layout(t, bs) && align > 0
    requires i < |bs| && Fits(t, bs[i], size, align)
    ensures Layout(t, Place(t, bs, i, size, align))
  {
    assert WellSized(t, bs[i]);
    TakenFacts(t, bs[i], size, align);
    SpliceLayout(t, bs, i, i, [Taken(t, bs[i], size, align)] + Remainder(t, bs[i], size, align));
  }

  lemma PlaceFresh(t: Target, bs: Blocks, i: nat, size: nat, align: nat)
    requires ValidTarget(t) && Layout(t, bs) && align > 0
    requires i < |bs| && Fits(t, bs[i], size, align)
    ensures Taken(t, bs[i], size, align) !in LiveSet(bs)
  {
    var k := Taken(t, bs[i], size, align);
    if k in LiveSet(bs) {
      var j :| 0 <= j < |bs| && bs[j] == k;
      assert WellSized(t, bs[j]) && WellSized(t, bs[i]);
      SameBlock(t, bs, i, j);
    }
  }

  lemma PlaceLive(t: Target, bs: Blocks, i: nat, size: nat, align: nat)
    requires t.align > 0 && align > 0 && i < |bs| && bs[i].Free?
    ensures LiveSet(Place(t, bs, i, size, align)) == LiveSet(bs) + {Taken(t, bs[i], size, align)}
    ensures LiveBytes(Place(t, bs, i, size, align)) == LiveBytes(bs) + Taken(t, bs[i], size, align).size
  {
    var k, rest := Taken(t, bs[i], size, align), Remainder(t, bs[i], size, align);
    SpliceLive(bs, i, i, [k] + rest);
    LiveSplit([k], rest);
    assert bs[i..i + 1] == [bs[i]];
    SingleLive(bs[i]);
    SingleLive(k);
    assert rest == [] || (|rest| == 1 && rest == [rest[0]]);
    if rest != [] {
      SingleLive(rest[0]);
    }
  }

  lemma SingleLive(b: Block)
    ensures LiveSet([b]) == (if b.Live? then {b} else {})
    ensures LiveBytes([b]) == (if b.Live? then b.size else 0)
  {
    assert [b][..0] == [];
    assert b.Live? ==> b in [b];
  }

  // ----- completeness --------------------------------------------------------------------------

  /** A maximal range free of live blocks, told from the live blocks alone. */
  ghost predicate Gap(t: Target, live: set<Block>, a: nat, z: nat)
    requires t.align > 0
  {
    && a < z <= Usable(t)
    && (forall b :: b in live ==> End(b) <= a || z <= b.off)
    && (a == 0 || exists b :: b in live && End(b) == a)
    && (z == Usable(t) || exists b :: b in live && b.off == z)
  }

  lemma {:induction false} BlockAt(t: Target, bs: Blocks, x: nat, n: nat) returns (i: nat)
    requires ValidTarget(t) && Layout(t, bs) && n < |bs| && x < End(bs[n])
    ensures i <= n && bs[i].off <= x < End(bs[i])
  {
    if bs[n].off <= x {
      i := n;
    } else {
      i := BlockAt(t, bs, x, n - 1);
    }
  }

  /** In a layout the free blocks are exactly the maximal gaps between live blocks. */
  lemma GapIsFreeBlock(t: Target, bs: Blocks, a: nat, z: nat)
    requires ValidTarget(t) && Layout(t, bs) && a < z
    ensures Gap(t, LiveSet(bs), a, z) <==> Free(a, z - a) in bs
  {
    if Free(a, z - a) in bs {
      var i :| 0 <= i < |bs| && bs[i] == Free(a, z - a);
      FreeBlockIsGap(t, bs, i);
    }
    if Gap(t, LiveSet(bs), a, z) {
      var i := BlockAt(t, bs, a, |bs| - 1);
      assert WellSized(t, bs[i]);
      assert bs[i].Live? ==> bs[i] in LiveSet(bs);
      GapStart(t, bs, a, z, i);
      GapEnd(t, bs, a, z, i);
    }
  }

  lemma FreeBlockIsGap(t: Target, bs: Blocks, i: nat)
    requires ValidTarget(t) && Layout(t, bs) && i < |bs| && bs[i].Free?
    ensures Gap(t, LiveSet(bs), bs[i].off, End(bs[i]))
  {
    InArena(t, bs, i);
    assert WellSized(t, bs[i]);
    forall b | b in LiveSet(bs)
      ensures End(b) <= bs[i].off || End(bs[i]) <= b.off
    {
      var j :| 0 <= j < |bs| && bs[j] == b;
      if i < j {
        Ordered(t, bs, i, j);
      } else if j < i {
        Ordered(t, bs, j, i);
      }
    }
    assert i > 0 ==> bs[i - 1] in LiveSet(bs);
    assert i + 1 < |bs| ==> bs[i + 1] in LiveSet(bs);
  }

  lemma GapStart(t: Target, bs: Blocks, a: nat, z: nat, i: nat)
    requires ValidTarget(t) && Layout(t, bs) && Gap(t, LiveSet(bs), a, z)
    requires i < |bs| && bs[i].off <= a < End(bs[i])
    ensures bs[i].off == a
  {
    if a > 0 {
      var b :| b in LiveSet(bs) && End(b) == a;
      var j :| 0 <= j < |bs| && bs[j] == b;
      InArena(t, bs, j);
      assert WellSized(t, bs[j + 1]) && WellSized(t, bs[i]);
      SameBlock(t, bs, i, j + 1);
    }
  }

  lemma GapEnd(t: Target, bs: Blocks, a: nat, z: nat, i: nat)
    requires ValidTarget(t) && Layout(t, bs) && Gap(t, LiveSet(bs), a, z)
    requires i < |bs| && bs[i].off == a && bs[i].Free?
    ensures End(bs[i]) == z
  {
    InArena(t, bs, i);
    assert WellSized(t, bs[i]);
    assert i + 1 < |bs| ==> WellSized(t, bs[i + 1]) && bs[i + 1] in LiveSet(bs);
    if z < End(bs[i]) {
      var b :| b in LiveSet(bs) && b.off == z;
      var j :| 0 <= j < |bs| && bs[j] == b;
      assert WellSized(t, bs[j]);
      SameBlock(t, bs, i, j);
    }
  }

  /** The gap `[a, z)` holds an aligned address a header past its start with `size` bytes after it. */
  ghost predicate Holds(t: Target, a: nat, z: nat, size: nat, align: nat)
    requires t.align > 0 && align > 0
  {
    exists x: nat :: t.base + a + Header(t) <= x && x % align == 0 && x + size <= t.base + z
  }

  ghost predicate SomeGapHolds(t: Target, live: set<Block>, size: nat, align: nat)
    requires t.align > 0 && align > 0
  {
    exists a: nat, z: nat :: Gap(t, live, a, z) && Holds(t, a, z, size, align)
  }

  lemma FreeFitsIffHolds(t: Target, b: Block, size: nat, align: nat)
    requires ValidTarget(t) && align > 0 && b.Free?
    ensures Fits(t, b, size, align) <==> Holds(t, b.off, End(b), size, align)
  {
    var addr := t.base + b.off + Header(t);
    PadToIsLeast(addr, align, 0);
    if Fits(t, b, size, align) {
      var x := addr + PadTo(addr, align);
      assert x % align == 0 && x + size <= t.base + End(b);
    }
    if Holds(t, b.off, End(b), size, align) {
      var x: nat :| addr <= x && x % align == 0 && x + size <= t.base + End(b);
      PadToIsLeast(addr, align, x);
    }
  }

  /** Completeness: first fit finds a block exactly when some gap between live blocks can hold it. */
  lemma FirstFitComplete(t: Target, bs: Blocks, size: nat, align: nat)
    requires ValidTarget(t) && Layout(t, bs) && align > 0
    ensures FirstFit(t, bs, size, align, 0) < |bs| <==> SomeGapHolds(t, LiveSet(bs), size, align)
  {
    var k := FirstFit(t, bs, size, align, 0);
    if k < |bs| {
      FreeBlockIsGap(t, bs, k);
      FreeFitsIffHolds(t, bs[k], size, align);
    }
    if SomeGapHolds(t, LiveSet(bs), size, align) {
      var a: nat, z: nat :| Gap(t, LiveSet(bs), a, z) && Holds(t, a, z, size, align);
      GapIsFreeBlock(t, bs, a, z);
      FreeFitsIffHolds(t, Free(a, z - a), size, align);
      var j :| 0 <= j < |bs| && bs[j] == Free(a, z - a);
    }
  }

  /** Some gap holds the request at address `x`. */
  ghost predicate HoldsAt(t: Target, live: set<Block>, size: nat, align: nat, x: nat)
    requires t.align > 0 && align > 0
  {
    x % align == 0 && exists a: nat, z: nat :: Gap(t, live, a, z) && t.base + a + Header(t) <= x && x + size <= t.base + z
  }

  /** First fit takes the lowest address at which the request could be placed at all. */
  lemma FirstFitLowest(t: Target, bs: Blocks, size: nat, align: nat, x: nat)
    requires ValidTarget(t) && Layout(t, bs) && align > 0 && HoldsAt(t, LiveSet(bs), size, align, x)
    ensures var k := FirstFit(t, bs, size, align, 0);
            k < |bs| && Address(t, Taken(t, bs[k], size, align)) <= x
  {
    hide Layout, Gap, Fits, Holds, PadTo, Taken, LiveSet;
    var a: nat, z: nat :| Gap(t, LiveSet(bs), a, z) && t.base + a + Header(t) <= x && x + size <= t.base + z;
    assert a < z by { GapSpan(t, LiveSet(bs), a, z); }
    GapIsFreeBlock(t, bs, a, z);
    assert Holds(t, a, z, size, align) by { HoldsHere(t, a, z, size, align, x); }
    FreeFitsIffHolds(t, Free(a, z - a), size, align);
    var j: nat :| j < |bs| && bs[j] == Free(a, z - a);
    var k := FirstFit(t, bs, size, align, 0);
    TakenAddress(t, bs[k], size, align, x);
    if k < j {
      LayoutTiles(t, bs);
      Ordered(t, bs, k, j);
    }
  }

  lemma GapSpan(t: Target, live: set<Block>, a: nat, z: nat)
    requires t.align > 0 && Gap(t, live, a, z)
    ensures a < z
  {
  }

  lemma HoldsHere(t: Target, a: nat, z: nat, size: nat, align: nat, x: nat)
    requires t.align > 0 && align > 0
    requires t.base + a + Header(t) <= x && x % align == 0 && x + size <= t.base + z
    ensures Holds(t, a, z, size, align)
  {
  }

  lemma LayoutTiles(t: Target, bs: Blocks)
    requires ValidTarget(t) && Layout(t, bs)
    ensures Tiles(bs, Usable(t))
  {
  }

  /** The address taken in a block is in it, and the lowest one that is aligned and past the header. */
  lemma TakenAddress(t: Target, b: Block, size: nat, align: nat, x: nat)
    requires t.align > 0 && align > 0 && Fits(t, b, size, align)
    ensures Taken(t, b, size, align).Live? && Address(t, Taken(t, b, size, align)) + size <= t.base + End(b)
    ensures x % align == 0 && t.base + b.off + Header(t) <= x ==> Address(t, Taken(t, b, size, align)) <= x
  {
    PadToIsLeast(t.base + b.off + Header(t), align, x);
  }

  // ----- release -------------------------------------------------------------------------------

  function FreeBefore(bs: Blocks, i: nat): nat
    requires i < |bs|
  {
    if i > 0 && bs[i - 1].Free? then 1 else 0
  }

  function FreeAfter(bs: Blocks, i: nat): nat
    requires i < |bs|
  {
    if i + 1 < |bs| && bs[i + 1].Free? then 1 else 0
  }

  /** Live block `i` and its free neighbours as one free block. */
  function Merged(bs: Blocks, i: nat): Block
    requires i < |bs|
  {
    var start, end := bs[i - FreeBefore(bs, i)].off, End(bs[i + FreeAfter(bs, i)]);
    Free(start, if start <= end then end - start else 0)
  }

  /** The layout without live block `i`. */
  function Released(bs: Blocks, i: nat): Blocks
    requires i < |bs|
  {
    Splice(bs, i - FreeBefore(bs, i), i + FreeAfter(bs, i), [Merged(bs, i)])
  }

  lemma MergedFacts(t: Target, bs: Blocks, i: nat)
    requires ValidTarget(t) && Layout(t, bs) && i < |bs| && bs[i].Live?
    ensures WellSized(t, Merged(bs, i))
    ensures End(Merged(bs, i)) == End(bs[i + FreeAfter(bs, i)])
  {
    var first, last := i - FreeBefore(bs, i), i + FreeAfter(bs, i);
    assert WellSized(t, bs[first]) && WellSized(t, bs[last]) && WellSized(t, bs[i]);
    assert bs[first].off <= bs[i].off && End(bs[i]) <= End(bs[last]);
    MultipleSum(bs[last].off, bs[last].size, t.align);
    MultipleSum(End(bs[last]), bs[first].off, t.align);
  }

  lemma MiddleLive(bs: Blocks, i: nat)
    requires i < |bs| && bs[i].Live?
    ensures LiveSet(bs[i - FreeBefore(bs, i)..i + FreeAfter(bs, i) + 1]) == {bs[i]}
    ensures LiveBytes(bs[i - FreeBefore(bs, i)..i + FreeAfter(bs, i) + 1]) == bs[i].size
  {
    var l, r := FreeBefore(bs, i), FreeAfter(bs, i);
    var before, after := bs[i - l..i], bs[i + 1..i + r + 1];
    assert bs[i - l..i + r + 1] == before + [bs[i]] + after;
    LiveSplit(before + [bs[i]], after);
    LiveSplit(before, [bs[i]]);
    assert before == if l == 1 then [bs[i - 1]] else [];
    assert after == if r == 1 then [bs[i + 1]] else [];
    SingleLive(bs[i]);
    if l == 1 {
      SingleLive(bs[i - 1]);
    }
    if r == 1 {
      SingleLive(bs[i + 1]);
    }
  }

  lemma OnlyOnce(t: Target, bs: Blocks, first: nat, i: nat, last: nat)
    requires ValidTarget(t) && Layout(t, bs) && first <= i <= last < |bs|
    ensures bs[i] !in LiveSet(bs[..first]) && bs[i] !in LiveSet(bs[last + 1..])
  {
    if bs[i] in bs[..first] {
      var j :| 0 <= j < first && bs[j] == bs[i];
      DistinctBlocks(t, bs, i, j);
    }
    if bs[i] in bs[last + 1..] {
      var j :| last < j < |bs| && bs[j] == bs[i];
      DistinctBlocks(t, bs, i, j);
    }
  }

  /** Releasing removes exactly that live block; every other live block keeps place and size. */
  lemma ReleasedSound(t: Target, bs: Blocks, i: nat)
    requires ValidTarget(t) && Layout(t, bs) && i < |bs| && bs[i].Live?
    ensures Layout(t, Released(bs, i))
    ensures LiveSet(Released(bs, i)) == LiveSet(bs) - {bs[i]}
    ensures LiveBytes(Released(bs, i)) + bs[i].size == LiveBytes(bs)
  {
    ReleasedLayout(t, bs, i);
    ReleasedLive(bs, i);
    OnlyOnce(t, bs, i - FreeBefore(bs, i), i, i + FreeAfter(bs, i));
    hide Layout, Released, LiveSet, LiveBytes;
  }

  lemma ReleasedLayout(t: Target, bs: Blocks, i: nat)
    requires ValidTarget(t) && Layout(t, bs) && i < |bs| && bs[i].Live?
    ensures Layout(t, Released(bs, i))
  {
    MergedFacts(t, bs, i);
    SpliceLayout(t, bs, i - FreeBefore(bs, i), i + FreeAfter(bs, i), [Merged(bs, i)]);
  }

  lemma ReleasedLive(bs: Blocks, i: nat)
    requires i < |bs| && bs[i].Live?
    ensures var l, r := bs[..i - FreeBefore(bs, i)], bs[i + FreeAfter(bs, i) + 1..];
            && LiveSet(Released(bs, i)) == LiveSet(l) + LiveSet(r)
            && LiveSet(bs) == LiveSet(l) + {bs[i]} + LiveSet(r)
    ensures LiveBytes(Released(bs, i)) + bs[i].size == LiveBytes(bs)
  {
    SpliceLive(bs, i - FreeBefore(bs, i), i + FreeAfter(bs, i), [Merged(bs, i)]);
    MiddleLive(bs, i);
    SingleLive(Merged(bs, i));
  }

  lemma DistinctBlocks(t: Target, bs: Blocks, i: nat, j: nat)
    requires ValidTarget(t) && Layout(t, bs) && i < |bs| && j < |bs| && i != j
    ensures bs[i] != bs[j]
  {
    assert WellSized(t, bs[i]) && WellSized(t, bs[j]);
    if i < j {
      Ordered(t, bs, i, j);
    } else {
      Ordered(t, bs, j, i);
    }
  }
}
