/** Carving a boot-time memory region into naturally aligned power-of-two untyped blocks
    (create_untypeds_for_region, kernel/src/kernel/boot.c). */
module UntypedCarve {
  import opened Words
  import BootRegions

  datatype Block = Block(start: nat, bits: nat) {
    function Size(): nat {
      Pow2(bits)
    }

    ghost predicate Contains(a: int) {
      start <= a < start + Size()
    }
  }

  /** `ctzl(x)`: the largest power of two that divides `x`. */
  function TrailingZeros(x: nat): (r: nat)
    requires x > 0
    ensures Aligned(x, r) && !Aligned(x, r + 1)
  {
    if x % 2 == 1 then
      assert Pow2(0) == 1 && Pow2(1) == 2;
      DivModUnique(x, 1, x, 0);
      0
    else
      var r := TrailingZeros(x / 2);
      DoubleAligned(x / 2, r);
      DoubleAligned(x / 2, r + 1);
      r + 1
  }

  lemma DoubleAligned(h: nat, r: nat)
    ensures Aligned(2 * h, r + 1) <==> Aligned(h, r)
  {
    var p := Pow2(r);
    DivModSplit(h, p);
    var q, m := h / p, h % p;
    assert 2 * h == q * (2 * p) + 2 * m by { Doubling(q, p); }
    DivModUnique(2 * h, 2 * p, q, 2 * m);
  }

  /** The size of the next block: as large as alignment, the rest of the region and the limit allow. */
  ghost predicate Chosen(b: Block, end: nat, maxBits: nat) {
    && b.bits <= maxBits && b.start + b.Size() <= end && Aligned(b.start, b.bits)
    && (b.bits == maxBits || b.start + 2 * b.Size() > end || !Aligned(b.start, b.bits + 1))
  }

  method NextBits(start: nat, end: nat, maxBits: nat) returns (bits: nat)
    requires start < end
    ensures Chosen(Block(start, bits), end, maxBits)
  {
    var sizeBits := HighBit(end - start);
    var alignBits;
    if start != 0 {
      alignBits := TrailingZeros(start);
    } else {
      alignBits := sizeBits;
      DivModUnique(0, Pow2(sizeBits), 0, 0);
    }
    bits := sizeBits;
    if alignBits < sizeBits {
      bits := alignBits;
    }
    if bits > maxBits {
      bits := maxBits;
    }
    Pow2Mono(bits, sizeBits);
    AlignedDown(start, bits, alignBits);
  }

  /** The blocks the loop walks over from `start` to `stop` in a region that ends at `end`. */
  ghost predicate Carving(blocks: seq<Block>, start: nat, stop: nat, end: nat, maxBits: nat) {
    if blocks == [] then start == stop
    else
      && blocks[0].start == start && Chosen(blocks[0], end, maxBits)
      && Carving(blocks[1..], start + blocks[0].Size(), stop, end, maxBits)
  }

  lemma {:induction false} CarvingAppend(blocks: seq<Block>, start: nat, b: Block, end: nat, maxBits: nat)
    requires Carving(blocks, start, b.start, end, maxBits) && Chosen(b, end, maxBits)
    ensures Carving(blocks + [b], start, b.start + b.Size(), end, maxBits)
  {
    if blocks == [] {
      assert (blocks + [b])[1..] == [];
    } else {
      assert (blocks + [b])[1..] == blocks[1..] + [b];
      CarvingAppend(blocks[1..], start + blocks[0].Size(), b, end, maxBits);
    }
  }

  lemma {:induction false} CarvingRange(blocks: seq<Block>, start: nat, stop: nat, end: nat, maxBits: nat)
    requires Carving(blocks, start, stop, end, maxBits)
    ensures start <= stop && (blocks != [] ==> stop <= end)
  {
    if blocks != [] { CarvingRange(blocks[1..], start + blocks[0].Size(), stop, end, maxBits); }
  }

  /** The blocks large enough to become untyped capabilities. */
  function Usable(blocks: seq<Block>, minBits: nat): seq<Block> {
    if blocks == [] then []
    else (if blocks[0].bits >= minBits then [blocks[0]] else []) + Usable(blocks[1..], minBits)
  }

  lemma {:induction false} UsableAppend(blocks: seq<Block>, b: Block, minBits: nat)
    ensures Usable(blocks + [b], minBits) == Usable(blocks, minBits) + (if b.bits >= minBits then [b] else [])
  {
    if blocks == [] {
      assert (blocks + [b])[1..] == [];
    } else {
      assert (blocks + [b])[1..] == blocks[1..] + [b];
      UsableAppend(blocks[1..], b, minBits);
      var first := if blocks[0].bits >= minBits then [blocks[0]] else [];
      var last := if b.bits >= minBits then [b] else [];
      assert first + (Usable(blocks[1..], minBits) + last) == first + Usable(blocks[1..], minBits) + last;
    }
  }

  /** The bytes lost in blocks too small to hand out. */
  function Waste(blocks: seq<Block>, minBits: nat): nat {
    if blocks == [] then 0
    else (if blocks[0].bits < minBits then blocks[0].Size() else 0) + Waste(blocks[1..], minBits)
  }

  /** The blocks partition the region: each address of it lies in some block, and only those do. */
  lemma {:induction false} CarvingCovers(blocks: seq<Block>, start: nat, stop: nat, end: nat, maxBits: nat, a: int)
    requires Carving(blocks, start, stop, end, maxBits)
    ensures start <= a < stop <==> exists i :: 0 <= i < |blocks| && blocks[i].Contains(a)
  {
    CarvingRange(blocks, start, stop, end, maxBits);
    if blocks != [] {
      var rest := blocks[1..];
      CarvingCovers(rest, start + blocks[0].Size(), stop, end, maxBits, a);
      CarvingRange(rest, start + blocks[0].Size(), stop, end, maxBits);
      assert forall i :: 0 <= i < |rest| ==> blocks[i + 1] == rest[i];
      if start <= a < start + blocks[0].Size() { assert blocks[0].Contains(a); }
    }
  }

  /** Blocks are aligned to their size, come in address order and do not overlap. */
  lemma {:induction false} CarvingBlocks(blocks: seq<Block>, start: nat, stop: nat, end: nat, maxBits: nat, i: nat,
                                         j: nat)
    requires Carving(blocks, start, stop, end, maxBits) && i <= j < |blocks|
    ensures Aligned(blocks[j].start, blocks[j].bits) && blocks[j].bits <= maxBits
    ensures start <= blocks[j].start && blocks[j].start + blocks[j].Size() <= stop
    ensures i < j ==> blocks[i].start + blocks[i].Size() <= blocks[j].start
  {
    CarvingRange(blocks[1..], start + blocks[0].Size(), stop, end, maxBits);
    if j > 0 {
      CarvingBlocks(blocks[1..], start + blocks[0].Size(), stop, end, maxBits, if i > 0 then i - 1 else 0, j - 1);
    }
  }

  lemma {:induction false} WasteWithinRegion(blocks: seq<Block>, start: nat, stop: nat, end: nat, minBits: nat,
                                             maxBits: nat)
    requires Carving(blocks, start, stop, end, maxBits)
    ensures Waste(blocks, minBits) <= stop - start
  {
    if blocks != [] {
      WasteWithinRegion(blocks[1..], start + blocks[0].Size(), stop, end, minBits, maxBits);
    }
  }

  /** An aligned start with enough left gives a block that can be handed out. */
  lemma AlignedBlockUsable(b: Block, end: nat, minBits: nat, maxBits: nat)
    requires Chosen(b, end, maxBits) && minBits <= maxBits
    requires Aligned(b.start, minBits) && end - b.start >= Pow2(minBits)
    ensures b.bits >= minBits && Aligned(b.start + b.Size(), minBits)
  {
    if b.bits < minBits {
      AlignedDown(b.start, b.bits + 1, minBits);
      Pow2Mono(b.bits + 1, minBits);
    }
    AlignedAdd(b.start, b.bits, minBits);
  }

  /** From an aligned start only the last, too short stretch is lost. */
  lemma {:induction false} WasteAligned(blocks: seq<Block>, start: nat, end: nat, minBits: nat, maxBits: nat)
    requires Carving(blocks, start, end, end, maxBits) && minBits <= maxBits && Aligned(start, minBits)
    ensures Waste(blocks, minBits) < Pow2(minBits)
  {
    if end - start < Pow2(minBits) {
      WasteWithinRegion(blocks, start, end, end, minBits, maxBits);
    } else {
      AlignedBlockUsable(blocks[0], end, minBits, maxBits);
      WasteAligned(blocks[1..], start + blocks[0].Size(), end, minBits, maxBits);
    }
  }

  /** Before the first aligned address `top` the blocks do not step over it. */
  lemma UnalignedStep(b: Block, end: nat, minBits: nat, maxBits: nat, top: nat)
    requires Chosen(b, end, maxBits) && b.start < top && Aligned(top, minBits)
    ensures b.bits < minBits ==> b.start + b.Size() <= top
    ensures b.bits >= minBits ==> Aligned(b.start + b.Size(), minBits)
  {
    if b.bits < minBits {
      AlignedDown(top, b.bits, minBits);
      AlignedGap(b.start, top, b.bits);
    } else {
      AlignedDown(b.start, minBits, b.bits);
      AlignedAdd(b.start, b.bits, minBits);
    }
  }

  lemma {:induction false} WasteUnaligned(blocks: seq<Block>, start: nat, end: nat, minBits: nat, maxBits: nat,
                                          top: nat)
    requires Carving(blocks, start, end, end, maxBits) && minBits <= maxBits && start <= top && Aligned(top, minBits)
    ensures Waste(blocks, minBits) < top - start + Pow2(minBits)
  {
    if start == top {
      WasteAligned(blocks, start, end, minBits, maxBits);
    } else if blocks != [] {
      UnalignedStep(blocks[0], end, minBits, maxBits, top);
      if blocks[0].bits < minBits {
        WasteUnaligned(blocks[1..], start + blocks[0].Size(), end, minBits, maxBits, top);
      } else {
        WasteAligned(blocks[1..], start + blocks[0].Size(), end, minBits, maxBits);
      }
    }
  }

  /** Less than two minimum-size blocks are lost, one at each end of the region. */
  lemma WasteBound(blocks: seq<Block>, start: nat, end: nat, minBits: nat, maxBits: nat)
    requires Carving(blocks, start, end, end, maxBits) && minBits <= maxBits
    ensures Waste(blocks, minBits) < 2 * Pow2(minBits)
  {
    var top := AlignUp(start, minBits);
    AlignUpLeast(start, minBits);
    WasteUnaligned(blocks, start, end, minBits, maxBits, top);
  }

  /** The root CNode's free slots and the untyped list of the boot information. */
  class BootSlots {
    const slotMax: nat
    const firstUntyped: nat
    const maxUntyped: nat      // CONFIG_MAX_NUM_BOOTINFO_UNTYPED_CAPS
    var slotCur: nat
    var untypeds: seq<Block>   // the capabilities written to slots firstUntyped..slotCur

    constructor (slotMax: nat, firstUntyped: nat, maxUntyped: nat)
      ensures this.slotMax == slotMax && this.firstUntyped == firstUntyped && this.maxUntyped == maxUntyped
      ensures Valid() && untypeds == []
    {
      this.slotMax, this.firstUntyped, this.maxUntyped := slotMax, firstUntyped, maxUntyped;
      slotCur, untypeds := firstUntyped, [];
    }

    ghost predicate Valid()
      reads this
    {
      slotCur == firstUntyped + |untypeds|
    }

    /** How many more untyped capabilities can be provided. */
    ghost function Room(): nat
      reads this
    {
      if |untypeds| < maxUntyped then maxUntyped - |untypeds| else 0
    }

    /** provide_untyped_cap: beyond the list's length a block is dropped without an error. */
    method ProvideUntyped(b: Block) returns (ok: bool)
      requires Valid()
      modifies this
      ensures Valid()
      ensures ok <==> !(old(|untypeds|) < maxUntyped && old(slotCur) >= slotMax)
      ensures untypeds == if ok && old(|untypeds|) < maxUntyped then old(untypeds) + [b] else old(untypeds)
    {
      if slotCur - firstUntyped < maxUntyped {
        if slotCur >= slotMax { return false; }
        untypeds := untypeds + [b];
        slotCur := slotCur + 1;
      }
      ok := true;
    }

    /** create_untypeds_for_region: walks a carving of the whole region, ending with the start equal
        to the end; its usable blocks have then been provided in address order, up to the length of
        the list. It fails only for lack of slots. */
    method CreateUntypedsForRegion(start: nat, end: nat, minBits: nat, maxBits: nat)
      returns (ok: bool, ghost blocks: seq<Block>)
      requires Valid() && start <= end
      modifies this
      ensures Valid()
      ensures ok ==> Carving(blocks, start, end, end, maxBits)
                     && untypeds == old(untypeds) + BootRegions.Fitting(Usable(blocks, minBits), old(Room()))
      ensures !ok ==> slotCur >= slotMax
    {
      var cur := start;
      blocks := [];
      while cur != end
        invariant Valid() && start <= cur <= end && Carving(blocks, start, cur, end, maxBits)
        invariant untypeds == old(untypeds) + BootRegions.Fitting(Usable(blocks, minBits), old(Room()))
        decreases end - cur
      {
        var bits := NextBits(cur, end, maxBits);
        if bits >= minBits {
          var provided := ProvideUntyped(Block(cur, bits));
          if !provided { return false, blocks; }
        }
        CarvingAppend(blocks, start, Block(cur, bits), end, maxBits);
        UsableAppend(blocks, Block(cur, bits), minBits);
        blocks := blocks + [Block(cur, bits)];
        cur := cur + Pow2(bits);
      }
      ok := true;
    }
  }
}
