/**
 The frame pool as it is coded: headers written into the arena, three walks over them, and word
 arithmetic that wraps. Every method is proved to make the step of `FramePoolModel`.
 */
module FramePools {
  import opened Words
  import opened FrameLayout
  import opened FrameAllocation
  import opened FramePoolModel

  /** A header as it lies in the arena: two 32-bit fields and a flag. */
  datatype BlockHeader = BlockHeader(size: nat, payloadOffset: nat, inUse: bool)

  // ----- the bit tricks of the source ------------------------------------------------------------

  /** `v != 0 && (v & (v - 1)) == 0` recognises exactly the powers of two. */
  predicate IsPowerOfTwo(v: nat)
    ensures IsPowerOfTwo(v) <==> PowerOfTwo(v)
  {
    assert v > 0 ==> (And(v, v - 1) == 0 <==> PowerOfTwo(v)) by {
      if v > 0 {
        AndPredecessor(v);
      }
    }
    v != 0 && And(v, v - 1) == 0
  }

  /** `(align - (addr & mask)) & mask` is the distance to the next multiple of a power of two. */
  function AlignPadding(addr: nat, align: nat, word: nat): (pad: nat)
    requires PowerOfTwo(align) && align < word
    ensures pad == PadTo(addr, align)
  {
    var mask := align - 1;
    AndLowMask(addr, align);
    ModSmall(align - addr % align, word);
    AndLowMask(align - addr % align, align);
    And(Sub(align, And(addr, mask), word), mask)
  }

  /** `(v + (a - 1)) & ~(a - 1)` rounds up to a multiple of a power of two when the sum does not wrap. */
  function RoundUp(v: nat, a: nat, word: nat): (r: nat)
    requires PowerOfTwo(a) && PowerOfTwo(word) && a < word && v + (a - 1) < word
    ensures r == v + PadTo(v, a)
  {
    var x := v + (a - 1);
    ModSmall(x, word);
    AndHighMask(x, a, word);
    RoundedDown(v, a);
    And(Add(v, a - 1, word), Not(a - 1, word))
  }

  lemma RoundedDown(v: nat, a: nat)
    requires a > 0
    ensures (v + (a - 1)) - (v + (a - 1)) % a == v + PadTo(v, a)
  {
    var x := v + (a - 1);
    var down := x - x % a;
    RemainderTotal(x, a);
    PadToIsLeast(v, a, down);
    var d := down - (v + PadTo(v, a));
    MultipleSum(down, v + PadTo(v, a), a);
    ModSmall(d, a);
  }

  lemma {:induction false} HalfWord(a: nat, word: nat)
    requires PowerOfTwo(a) && PowerOfTwo(word) && a < word
    ensures 2 * a <= word
  {
    if a > 1 {
      HalfWord(a / 2, word / 2);
    }
  }

  lemma WordFacts(t: Target, align: nat)
    requires ValidTarget(t) && PowerOfTwo(align) && align < t.word
    ensures Header(t) < 12 + 256 && 2 * align <= t.word && Header(t) + align < t.word
    ensures t.base + Usable(t) < t.word && Usable(t) + (t.align - 1) < t.word
  {
    HalfWord(align, t.word);
    TargetFacts(t);
    TopOfWord(t);
  }

  /** A multiple of the alignment below the word size leaves room for one alignment unit less one. */
  lemma TopOfWord(t: Target)
    requires ValidTarget(t)
    ensures Usable(t) + (t.align - 1) < t.word
  {
    TargetFacts(t);
    assert t.base >= t.align by {
      if t.base < t.align {
        ModSmall(t.base, t.align);
      }
    }
  }

  // ----- headers and layouts ---------------------------------------------------------------------

  ghost predicate HeaderOf(h: BlockHeader, b: Block) {
    && h.size == b.size && h.inUse == b.Live?
    && (b.Live? ==> h.payloadOffset == b.payload)
  }

  /** Walking the headers in the arena from offset 0 finds exactly the blocks `bs`. */
  ghost predicate Stored(headers: map<nat, BlockHeader>, bs: Blocks) {
    forall i :: 0 <= i < |bs| ==> bs[i].off in headers && HeaderOf(headers[bs[i].off], bs[i])
  }

  /** The offset `x` lies in the payload of a live block. */
  ghost predicate InPayload(bs: Blocks, x: nat) {
    exists b :: b in LiveSet(bs) && b.off + b.payload <= x < End(b)
  }

  /**
   Whatever the clients write into their payloads, the headers of the block list survive:
   memory that differs only there still stores the same blocks.
   */
  lemma ClientWritesKeepHeaders(t: Target, h: map<nat, BlockHeader>, h': map<nat, BlockHeader>, bs: Blocks)
    requires ValidTarget(t) && Layout(t, bs) && Stored(h, bs)
    requires forall o :: o in h && (forall x :: o <= x < o + HEADER_BYTES ==> !InPayload(bs, x)) ==> o in h' && h'[o] == h[o]
    ensures Stored(h', bs)
  {
    TargetFacts(t);
    forall i | 0 <= i < |bs|
      ensures bs[i].off in h' && h'[bs[i].off] == h[bs[i].off]
    {
      forall x | bs[i].off <= x < bs[i].off + HEADER_BYTES
        ensures !InPayload(bs, x)
      {
        forall b | b in LiveSet(bs)
          ensures !(b.off + b.payload <= x < End(b))
        {
          var j :| 0 <= j < |bs| && bs[j] == b;
          if b.off + b.payload <= x < End(b) {
            PayloadsDisjoint(t, bs, j, i, x);
          }
        }
      }
    }
  }

  function Truncate32(x: nat): nat { x % (UINT32_MAX + 1) }

  class FramePool {
    const t: Target
    var headers: map<nat, BlockHeader> // the arena, by the offset a header was placed at
    var bytesUsed: nat
    var peakBytesUsed: nat
    var allocationFailures: nat
    ghost var blocks: Blocks

    ghost function View(): Pool
      reads this
    {
      Pool(blocks, bytesUsed, peakBytesUsed, allocationFailures)
    }

    ghost predicate Valid()
      reads this
    {
      ValidTarget(t) && Stored(headers, blocks) && PoolInv(t, View())
    }

    constructor (t: Target)
      requires ValidTarget(t)
      ensures Valid() && this.t == t && View() == New(t)
    {
      this.t := t;
      headers := map[0 := BlockHeader(Truncate32(Usable(t)), Truncate32(Header(t)), false)];
      bytesUsed, peakBytesUsed, allocationFailures := 0, 0, 0;
      blocks := Initial(t);
      new;
      NewIsValid(t);
      ModSmall(Usable(t), UINT32_MAX + 1);
    }

    method Reset()
      requires ValidTarget(t)
      modifies this
      ensures Valid() && View() == New(t)
    {
      headers := headers[0 := BlockHeader(Truncate32(Usable(t)), Truncate32(Header(t)), false)];
      bytesUsed, peakBytesUsed, allocationFailures := 0, 0, 0;
      blocks := Initial(t);
      NewIsValid(t);
      ModSmall(Usable(t), UINT32_MAX + 1);
    }

    /** The header at the `k`-th block: what the walk relies on at every step. */
    lemma HeaderAt(k: nat)
      requires Valid() && k < |blocks|
      ensures blocks[k].off in headers && HeaderOf(headers[blocks[k].off], blocks[k])
      ensures WellSized(t, blocks[k]) && End(blocks[k]) <= Usable(t)
      ensures k + 1 < |blocks| ==> End(blocks[k]) == blocks[k + 1].off
      ensures k + 1 < |blocks| <==> End(blocks[k]) < Usable(t)
    {
      InArena(t, blocks, k);
    }

    method Allocate(size: nat, align: nat) returns (p: nat)
      requires Valid() && size < t.word && align < t.word
      modifies this
      ensures Valid()
      ensures View() == FramePoolModel.Allocate(t, old(View()), size, align).0
      ensures p == FramePoolModel.Allocate(t, old(View()), size, align).1
      ensures PowerOfTwo(align) && p != NULL ==> p % align == 0
      ensures align > t.align ==> (p == NULL <==> !PowerOfTwo(align) || !SomeGapHolds(t, LiveSet(old(blocks)), size, align))
      ensures align <= t.align ==> (p == NULL <==> !SomeGapHolds(t, LiveSet(old(blocks)), size, t.align))
    {
      assert t.align > 0 && t.word > 0;
      AllocateCorrect(t, View(), size, align);
      hide SomeGapHolds, HoldsAt, IsLive, GrewBy, FramePoolModel.Allocate;
      p := AllocateIn(size, align);
    }

    method AllocateIn(size: nat, align: nat) returns (p: nat)
      requires Valid() && size < t.word && align < t.word
      modifies this
      ensures Valid()
      ensures View() == FramePoolModel.Allocate(t, old(View()), size, align).0
      ensures p == FramePoolModel.Allocate(t, old(View()), size, align).1
    {
      assert t.align > 0 && t.word > 0;
      hide Layout, LiveBytes, LiveSet, Stored, ValidTarget, PowerOfTwo, Header, Usable, PadTo, PayloadOffset;
      var a := if align < t.align then t.align else align;
      if !IsPowerOfTwo(a) {
        allocationFailures := Add(allocationFailures, 1, t.word);
        return NULL;
      }
      ghost var k;
      var found, off, payloadOffset;
      k, found, off, payloadOffset := FindFit(size, a);
      if found {
        p := Take(k, off, payloadOffset, size, a);
      } else {
        allocationFailures := Add(allocationFailures, 1, t.word);
        p := NULL;
      }
    }

    /** The first-fit walk over the headers. */
    method FindFit(size: nat, align: nat) returns (ghost k: nat, found: bool, off: nat, payloadOffset: nat)
      requires Valid() && size < t.word && PowerOfTwo(align) && align < t.word
      ensures k == FirstFit(t, blocks, size, align, 0)
      ensures found <==> FirstFit(t, blocks, size, align, 0) < |blocks|
      ensures found ==> off == blocks[k].off && payloadOffset == PayloadOffset(t, off, align)
    {
      WordFacts(t, align);
      assert blocks != [] && blocks[0].off == 0 && t.align > 0 && t.word > 0;
      hide Layout, LiveBytes, LiveSet, Stored, ValidTarget, PowerOfTwo, Header, Usable, PadTo, PayloadOffset;
      off, k := 0, 0;
      while off < Usable(t)
        invariant k <= |blocks| && off == (if k < |blocks| then blocks[k].off else Usable(t))
        invariant FirstFit(t, blocks, size, align, 0) == FirstFit(t, blocks, size, align, k)
        decreases Usable(t) - off
      {
        HeaderAt(k);
        var blk := headers[off];
        if !blk.inUse {
          payloadOffset := PayloadAt(off, align);
          if payloadOffset <= blk.size {
            ModSmall(blk.size - payloadOffset, t.word);
            if size <= Sub(blk.size, payloadOffset, t.word) {
              return k, true, off, payloadOffset;
            }
          }
        }
        off := off + blk.size;
        k := k + 1;
      }
      if k < |blocks| {
        HeaderAt(k);
      }
      found, payloadOffset := false, 0;
    }

    /** The payload offset for a block, by word arithmetic on the address: nothing wraps. */
    method PayloadAt(off: nat, align: nat) returns (payloadOffset: nat)
      requires ValidTarget(t) && off + Header(t) <= Usable(t) && PowerOfTwo(align) && align < t.word
      ensures payloadOffset == PayloadOffset(t, off, align)
    {
      WordFacts(t, align);
      var startAddr := Add(t.base, off, t.word);
      ModSmall(t.base + off, t.word);
      var pad := AlignPadding(Add(startAddr, Header(t), t.word), align, t.word);
      ModSmall(t.base + off + Header(t), t.word);
      payloadOffset := Add(Header(t), pad, t.word);
      PadToIsLeast(t.base + off + Header(t), align, 0);
      ModSmall(Header(t) + pad, t.word);
    }

    /** The fitting branch: split if the rest can be a block, mark, account, return the address. */
    method Take(ghost k: nat, off: nat, payloadOffset: nat, size: nat, align: nat) returns (p: nat)
      requires Valid() && size < t.word && PowerOfTwo(align) && align < t.word
      requires k < |blocks| && blocks[k].off == off && Fits(t, blocks[k], size, align)
      requires payloadOffset == PayloadOffset(t, off, align)
      modifies this
      ensures Valid()
      ensures blocks == Place(t, old(blocks), k, size, align)
      ensures bytesUsed == old(bytesUsed) + Taken(t, old(blocks)[k], size, align).size
      ensures peakBytesUsed == if bytesUsed > old(peakBytesUsed) then bytesUsed else old(peakBytesUsed)
      ensures allocationFailures == old(allocationFailures)
      ensures p == Address(t, Taken(t, old(blocks)[k], size, align))
    {
      HeaderAt(k);
      TakeAccounts(t, View(), k, size, align);
      StoredAfterTake(t, headers, blocks, k, size, align);
      var taken := Mark(blocks[k], off, payloadOffset, size, align);
      bytesUsed := Add(bytesUsed, taken, t.word);
      if bytesUsed > peakBytesUsed {
        peakBytesUsed := bytesUsed;
      }
      blocks := Place(t, blocks, k, size, align);
      p := t.base + off + payloadOffset;
    }

    /** Write the header of the remainder, if it can be a block, and then that of the taken block. */
    method Mark(ghost b: Block, off: nat, payloadOffset: nat, size: nat, align: nat) returns (taken: nat)
      requires ValidTarget(t) && size < t.word && PowerOfTwo(align) && align < t.word
      requires WellSized(t, b) && End(b) <= Usable(t) && Fits(t, b, size, align)
      requires b.off == off && off in headers && HeaderOf(headers[off], b)
      requires payloadOffset == PayloadOffset(t, off, align)
      modifies this`headers
      ensures headers == Written(t, old(headers), b, size, align)
      ensures taken == Taken(t, b, size, align).size
    {
      TakeNumbers(t, b, size, align);
      assert t.align > 0 && t.word > 0;
      hide ValidTarget, PowerOfTwo, WellSized, Needed, PayloadOffset, PadTo, Header, Truncate32, Add, Sub, RoundUp, Fits, Usable;
      var blk := headers[off];
      var used := Add(payloadOffset, size, t.word);
      var needed := RoundUp(used, t.align, t.word);
      var remainder := Sub(blk.size, needed, t.word);
      if remainder >= Header(t) + t.align {
        headers := headers[off + needed := BlockHeader(Truncate32(remainder), Truncate32(Header(t)), false)];
        blk := blk.(size := Truncate32(needed));
      }
      blk := blk.(inUse := true, payloadOffset := Truncate32(payloadOffset));
      headers := headers[off := blk];
      taken := blk.size;
    }

    method Deallocate(p: nat) returns (error: bool)
      requires Valid()
      modifies this
      ensures Valid()
      ensures View() == FramePoolModel.Deallocate(t, old(View()), p).0
      ensures error == FramePoolModel.Deallocate(t, old(View()), p).1
    {
      hide Layout, LiveBytes, LiveSet, Stored, ValidTarget, Header, Usable, Released;
      if p == NULL {
        return false;
      }
      ghost var k;
      var found, off;
      k, found, off := FindAddress(p);
      if found {
        Release(k, off);
      }
      error := !found;
    }

    /** The walk that looks for the live block of an address. */
    method FindAddress(p: nat) returns (ghost k: nat, found: bool, off: nat)
      requires Valid()
      ensures k == FindLive(t, blocks, p, 0)
      ensures found <==> k < |blocks|
      ensures found ==> off == blocks[k].off
    {
      assert blocks != [] && blocks[0].off == 0 && t.align > 0;
      hide Layout, LiveBytes, LiveSet, Stored, ValidTarget, Header, Usable;
      off, k := 0, 0;
      while off < Usable(t)
        invariant k <= |blocks| && off == (if k < |blocks| then blocks[k].off else Usable(t))
        invariant FindLive(t, blocks, p, 0) == FindLive(t, blocks, p, k)
        decreases Usable(t) - off
      {
        HeaderAt(k);
        var blk := headers[off];
        if blk.inUse && t.base + off + blk.payloadOffset == p {
          return k, true, off;
        }
        off := off + blk.size;
        k := k + 1;
      }
      if k < |blocks| {
        HeaderAt(k);
      }
      found := false;
    }

    /** The matching branch: clear the mark, account, coalesce. */
    method Release(ghost k: nat, off: nat)
      requires Valid() && k < |blocks| && blocks[k].off == off && blocks[k].Live?
      modifies this
      ensures Valid()
      ensures blocks == Released(old(blocks), k)
      ensures old(blocks)[k].size <= old(bytesUsed) && bytesUsed == old(bytesUsed) - old(blocks)[k].size
      ensures peakBytesUsed == old(peakBytesUsed) && allocationFailures == old(allocationFailures)
    {
      HeaderAt(k);
      assert t.align > 0 && t.word > 0;
      hide Layout, LiveBytes, LiveSet, Stored, Tiled, Released, Unmarked, ValidTarget, PowerOfTwo, Usable;
      ghost var was, before := blocks, headers;
      ReleaseFacts(t, View(), k);
      StoredAfterUnmark(t, headers, blocks, k);
      var size := headers[off].size;
      headers := headers[off := headers[off].(inUse := false)];
      blocks := Unmarked(blocks, k);
      bytesUsed := Sub(bytesUsed, size, t.word);
      Coalesce();
      LayoutCanonical(t, blocks, Released(was, k));
    }

    /** Merge every run of adjacent free blocks: the layout becomes coalesced, no live block changes. */
    method Coalesce()
      requires ValidTarget(t) && Tiled(t, blocks) && Stored(headers, blocks)
      modifies this`headers, this`blocks
      ensures Layout(t, blocks) && Stored(headers, blocks)
      ensures LiveSet(blocks) == LiveSet(old(blocks))
    {
      var off := 0;
      ghost var k := 0;
      while off < Usable(t)
        invariant Tiled(t, blocks) && Stored(headers, blocks) && LiveSet(blocks) == LiveSet(old(blocks))
        invariant k <= |blocks| && off == (if k < |blocks| then blocks[k].off else Usable(t))
        invariant forall i :: 0 <= i < k && i + 1 < |blocks| ==> blocks[i].Live? || blocks[i + 1].Live?
        decreases |blocks|, |blocks| - k
      {
        TiledAt(t, blocks, k);
        var blk := headers[off];
        var nextOff := off + blk.size;
        if !blk.inUse && nextOff < Usable(t) {
          TiledAt(t, blocks, k + 1);
          var nxt := headers[nextOff];
          if !nxt.inUse {
            ModSmall(blk.size + nxt.size, UINT32_MAX + 1);
            ghost var was, before := blocks, headers;
            headers := headers[off := blk.(size := Truncate32(blk.size + nxt.size))];
            blocks := Joined(blocks, k);
            JoinedSound(t, was, k, before, headers);
            continue;
          }
        }
        off := nextOff;
        k := k + 1;
      }
      if k < |blocks| {
        TiledAt(t, blocks, k);
      }
    }
  }

  /** The word arithmetic of the fitting branch: no sum, difference or 32-bit field wraps. */
  lemma TakeNumbers(t: Target, b: Block, size: nat, align: nat)
    requires ValidTarget(t) && size < t.word && PowerOfTwo(align) && align < t.word
    requires WellSized(t, b) && End(b) <= Usable(t) && Fits(t, b, size, align)
    ensures var payload, needed := PayloadOffset(t, b.off, align), Needed(t, b, size, align);
            && Add(payload, size, t.word) == payload + size && payload + size + (t.align - 1) < t.word
            && needed <= b.size && Sub(b.size, needed, t.word) == b.size - needed
            && Truncate32(b.size - needed) == b.size - needed && Truncate32(needed) == needed
            && Truncate32(payload) == payload && Header(t) <= needed && Truncate32(Header(t)) == Header(t)
  {
    WordFacts(t, align);
    TakenFacts(t, b, size, align);
    assert t.align > 0 && t.word > 0;
    hide ValidTarget, PowerOfTwo, WellSized, PadTo, Header, Usable, Taken, Remainder;
    var payload, needed := PayloadOffset(t, b.off, align), Needed(t, b, size, align);
    SmallNumber(t, payload + size);
    SmallNumber(t, b.size - needed);
    SmallNumber(t, needed);
    SmallNumber(t, payload);
    SmallNumber(t, Header(t));
  }

  lemma SmallNumber(t: Target, x: nat)
    requires ValidTarget(t) && x <= Usable(t)
    ensures x % t.word == x && Truncate32(x) == x
  {
    ModSmall(x, t.word);
    ModSmall(x, UINT32_MAX + 1);
  }

  lemma TakeAccounts(t: Target, p: Pool, k: nat, size: nat, align: nat)
    requires ValidTarget(t) && PoolInv(t, p) && align > 0
    requires k < |p.blocks| && Fits(t, p.blocks[k], size, align)
    ensures Layout(t, Place(t, p.blocks, k, size, align))
    ensures p.used + Taken(t, p.blocks[k], size, align).size == LiveBytes(Place(t, p.blocks, k, size, align))
    ensures Add(p.used, Taken(t, p.blocks[k], size, align).size, t.word) == p.used + Taken(t, p.blocks[k], size, align).size
  {
    PlaceSound(t, p.blocks, k, size, align);
    UsedFits(t, Place(t, p.blocks, k, size, align));
    SmallNumber(t, p.used + Taken(t, p.blocks[k], size, align).size);
  }

  // ----- one header write each ---------------------------------------------------------------------

  lemma UsedFits(t: Target, bs: Blocks)
    requires ValidTarget(t) && Layout(t, bs)
    ensures LiveBytes(bs) <= Usable(t) < t.word
  {
    LiveBytesBelow(t, bs, |bs|);
    assert bs[..|bs|] == bs;
  }

  lemma {:induction false} LiveBytesBelow(t: Target, bs: Blocks, n: nat)
    requires ValidTarget(t) && Layout(t, bs) && n <= |bs|
    ensures LiveBytes(bs[..n]) <= if n == 0 then 0 else End(bs[n - 1])
  {
    if n > 0 {
      assert bs[..n][..n - 1] == bs[..n - 1];
      LiveBytesBelow(t, bs, n - 1);
    }
  }

  /** The arena after the header writes of a successful allocation. */
  function Written(t: Target, h: map<nat, BlockHeader>, b: Block, size: nat, align: nat): map<nat, BlockHeader>
    requires t.align > 0 && align > 0
  {
    var needed, payloadOffset := Needed(t, b, size, align), PayloadOffset(t, b.off, align);
    if Splits(t, b, size, align) then
      h[b.off + needed := BlockHeader(b.size - needed, Header(t), false)][b.off := BlockHeader(needed, payloadOffset, true)]
    else
      h[b.off := BlockHeader(b.size, payloadOffset, true)]
  }

  lemma StoredAfterTake(t: Target, h: map<nat, BlockHeader>, bs: Blocks, k: nat, size: nat, align: nat)
    requires ValidTarget(t) && Layout(t, bs) && Stored(h, bs) && align > 0
    requires k < |bs| && Fits(t, bs[k], size, align)
    ensures Stored(Written(t, h, bs[k], size, align), Place(t, bs, k, size, align))
  {
    var h' := Written(t, h, bs[k], size, align);
    var placed := Place(t, bs, k, size, align);
    var d := if Splits(t, bs[k], size, align) then 1 else 0;
    assert WellSized(t, bs[k]);
    TakenFacts(t, bs[k], size, align);
    TargetFacts(t);
    forall j | 0 <= j < |placed|
      ensures placed[j].off in h' && HeaderOf(h'[placed[j].off], placed[j])
    {
      if j < k {
        assert placed[j] == bs[j];
        Ordered(t, bs, j, k);
        assert WellSized(t, bs[j]);
      } else if j == k {
        assert placed[j] == Taken(t, bs[k], size, align);
      } else if j == k + d {
        assert placed[j] == Remainder(t, bs[k], size, align)[0];
      } else {
        assert placed[j] == bs[j - d];
        Ordered(t, bs, k, j - d);
      }
    }
  }

  function Unmarked(bs: Blocks, k: nat): Blocks
    requires k < |bs|
  {
    bs[k := Free(bs[k].off, bs[k].size)]
  }

  /** A layout that may have adjacent free blocks. */
  ghost predicate Tiled(t: Target, bs: Blocks)
    requires t.align > 0
  {
    Tiles(bs, Usable(t)) && forall i :: 0 <= i < |bs| ==> WellSized(t, bs[i])
  }

  lemma TiledAt(t: Target, bs: Blocks, k: nat)
    requires ValidTarget(t) && Tiled(t, bs) && k < |bs|
    ensures WellSized(t, bs[k]) && End(bs[k]) <= Usable(t) && bs[k].size > 0
    ensures k + 1 < |bs| <==> End(bs[k]) < Usable(t)
  {
    assert WellSized(t, bs[|bs| - 1]);
    if k + 1 < |bs| {
      Ordered(t, bs, k, |bs| - 1);
    }
  }

  lemma UnmarkedSound(t: Target, bs: Blocks, k: nat)
    requires ValidTarget(t) && Layout(t, bs) && k < |bs| && bs[k].Live?
    ensures Tiled(t, Unmarked(bs, k)) && LiveSet(Unmarked(bs, k)) == LiveSet(bs) - {bs[k]}
  {
    var u := Unmarked(bs, k);
    forall b
      ensures b in LiveSet(u) <==> b in LiveSet(bs) - {bs[k]}
    {
      if b in LiveSet(u) {
        var j :| 0 <= j < |u| && u[j] == b;
        assert bs[j] == b && j != k;
        DistinctBlocks(t, bs, j, k);
      }
      if b in LiveSet(bs) - {bs[k]} {
        var j :| 0 <= j < |bs| && bs[j] == b;
        assert u[j] == b;
      }
    }
  }

  /** What releasing block `k` must do to the blocks and to the byte count. */
  lemma ReleaseFacts(t: Target, p: Pool, k: nat)
    requires ValidTarget(t) && PoolInv(t, p) && k < |p.blocks| && p.blocks[k].Live?
    ensures Layout(t, Released(p.blocks, k)) && Tiled(t, Unmarked(p.blocks, k))
    ensures LiveSet(Released(p.blocks, k)) == LiveSet(Unmarked(p.blocks, k))
    ensures p.blocks[k].size <= p.used && Sub(p.used, p.blocks[k].size, t.word) == p.used - p.blocks[k].size
    ensures p.used - p.blocks[k].size == LiveBytes(Released(p.blocks, k))
  {
    ReleasedSound(t, p.blocks, k);
    UnmarkedSound(t, p.blocks, k);
    UsedFits(t, p.blocks);
    hide Layout, LiveSet, Released, Unmarked, LiveBytes, Tiled, PowerOfTwo;
    ModSmall(p.used - p.blocks[k].size, t.word);
  }

  lemma StoredAfterUnmark(t: Target, h: map<nat, BlockHeader>, bs: Blocks, k: nat)
    requires ValidTarget(t) && Layout(t, bs) && Stored(h, bs) && k < |bs| && bs[k].Live?
    ensures bs[k].off in h
    ensures Stored(h[bs[k].off := h[bs[k].off].(inUse := false)], Unmarked(bs, k))
  {
    forall j | 0 <= j < |bs| && j != k
      ensures bs[j].off != bs[k].off
    {
      assert WellSized(t, bs[j]) && WellSized(t, bs[k]);
      if j < k {
        Ordered(t, bs, j, k);
      } else {
        Ordered(t, bs, k, j);
      }
    }
  }

  /** Free blocks `k` and `k + 1` as one. */
  function Joined(bs: Blocks, k: nat): Blocks
    requires k + 1 < |bs|
  {
    bs[..k] + [Free(bs[k].off, bs[k].size + bs[k + 1].size)] + bs[k + 2..]
  }

  lemma JoinedSound(t: Target, bs: Blocks, k: nat, h: map<nat, BlockHeader>, h': map<nat, BlockHeader>)
    requires ValidTarget(t) && Tiled(t, bs) && Stored(h, bs)
    requires k + 1 < |bs| && bs[k].Free? && bs[k + 1].Free?
    requires h' == h[bs[k].off := h[bs[k].off].(size := bs[k].size + bs[k + 1].size)]
    ensures Tiled(t, Joined(bs, k)) && Stored(h', Joined(bs, k)) && LiveSet(Joined(bs, k)) == LiveSet(bs)
  {
    var r := Joined(bs, k);
    MultipleSum(bs[k].size, bs[k + 1].size, t.align);
    assert forall j :: 0 <= j < k ==> r[j] == bs[j];
    assert forall j :: k < j < |r| ==> r[j] == bs[j + 1];
    JoinedStored(t, bs, k, h, h');
    JoinedLive(bs, k);
  }

  lemma JoinedLive(bs: Blocks, k: nat)
    requires k + 1 < |bs| && bs[k].Free? && bs[k + 1].Free?
    ensures LiveSet(Joined(bs, k)) == LiveSet(bs)
  {
    var l, r, pair := bs[..k], bs[k + 2..], [bs[k], bs[k + 1]];
    assert bs == l + pair + r;
    LiveSplit(l + pair, r);
    LiveSplit(l, pair);
    LiveSplit(l + [Joined(bs, k)[k]], r);
    LiveSplit(l, [Joined(bs, k)[k]]);
  }

  lemma JoinedStored(t: Target, bs: Blocks, k: nat, h: map<nat, BlockHeader>, h': map<nat, BlockHeader>)
    requires ValidTarget(t) && Tiled(t, bs) && Stored(h, bs)
    requires k + 1 < |bs| && bs[k].Free? && bs[k + 1].Free?
    requires h' == h[bs[k].off := h[bs[k].off].(size := bs[k].size + bs[k + 1].size)]
    ensures Stored(h', Joined(bs, k))
  {
    var r := Joined(bs, k);
    forall j | 0 <= j < |r|
      ensures r[j].off in h' && HeaderOf(h'[r[j].off], r[j])
    {
      if j < k {
        assert r[j] == bs[j] && WellSized(t, bs[j]);
        Ordered(t, bs, j, k);
      } else if j > k {
        assert r[j] == bs[j + 1] && WellSized(t, bs[k]);
        Ordered(t, bs, k, j + 1);
      }
    }
  }
}
