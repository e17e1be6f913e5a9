/** An untyped memory region: retyping it into kernel objects, deleting them, copying its
    capability, and the preemptible reset that zeroes it (kernel/src/object/untyped.c,
    kernel/include/object/untyped.h, setUntypedCapAsFull in kernel/src/object/cnode.c). */
module Untyped {
  import opened Words

  datatype Object = Object(addr: nat, bits: nat) {
    function End(): nat {
      addr + Pow2(bits)
    }
  }

  datatype Status =
    | Done
    | RangeError
    | NotEnoughMemory(left: nat)
    | Preempted

  /** The object is aligned to its size and lies in the first `limit` bytes of the region. */
  ghost predicate Inside(o: Object, base: nat, limit: nat) {
    Aligned(o.addr, o.bits) && base <= o.addr && o.End() <= base + limit
  }

  predicate Apart(a: Object, b: Object) {
    a.End() <= b.addr || b.End() <= a.addr
  }

  /** Live objects are aligned, inside the first `limit` bytes, and pairwise disjoint. */
  ghost predicate Layout(objects: seq<Object>, base: nat, limit: nat) {
    && (forall i :: 0 <= i < |objects| ==> Inside(objects[i], base, limit))
    && (forall i, j :: 0 <= i < j < |objects| ==> Apart(objects[i], objects[j]))
  }

  /** The `n` objects created from `addr` on. */
  function NewObjects(addr: nat, bits: nat, n: nat): (r: seq<Object>)
    ensures |r| == n
  {
    if n == 0 then []
    else
      MulMono(0, n - 1, Pow2(bits));
      NewObjects(addr, bits, n - 1) + [Object(addr + (n - 1) * Pow2(bits), bits)]
  }

  lemma LayoutAdd(objects: seq<Object>, o: Object, base: nat, limit: nat, limit': nat)
    requires Layout(objects, base, limit) && limit <= limit'
    requires base + limit <= o.addr && Inside(o, base, limit')
    ensures Layout(objects + [o], base, limit')
  {
  }

  /** Objects created above everything live keep the layout. */
  lemma {:induction false} LayoutExtends(objects: seq<Object>, base: nat, limit: nat, addr: nat, bits: nat, n: nat)
    requires Layout(objects, base, limit) && base + limit <= addr && Aligned(addr, bits)
    ensures 0 <= n * Pow2(bits)
    ensures Layout(objects + NewObjects(addr, bits, n), base, addr + n * Pow2(bits) - base)
  {
    MulMono(0, n, Pow2(bits));
    if n == 0 {
      assert objects + [] == objects;
    } else {
      LayoutExtends(objects, base, limit, addr, bits, n - 1);
      AlignedShift(addr, bits, n - 1);
      var o := Object(addr + (n - 1) * Pow2(bits), bits);
      assert n * Pow2(bits) == (n - 1) * Pow2(bits) + Pow2(bits);
      var before := objects + NewObjects(addr, bits, n - 1);
      LayoutAdd(before, o, base, addr + (n - 1) * Pow2(bits) - base, addr + n * Pow2(bits) - base);
      assert objects + NewObjects(addr, bits, n) == before + [o];
    }
  }

  /** The capacity check of the retype compares unaligned: the number of objects that fit into the
      free bytes also fits once the start is aligned up, since the end of the region is aligned. */
  lemma UnalignedCheckSuffices(base: nat, sizeBits: nat, offset: nat, bits: nat, n: nat)
    requires Aligned(base, sizeBits) && offset <= Pow2(sizeBits)
    requires 1 <= n <= Shr(Pow2(sizeBits) - offset, bits)
    ensures 0 <= n * Pow2(bits)
    ensures bits <= sizeBits
    ensures base + offset <= AlignUp(base + offset, bits)
    ensures AlignUp(base + offset, bits) + n * Pow2(bits) <= base + Pow2(sizeBits)
  {
    var size, p := Pow2(sizeBits), Pow2(bits);
    DivModSplit(size - offset, p);
    MulMono(n, Shr(size - offset, bits), p);
    MulMono(1, n, p);
    assert bits <= sizeBits by { if bits > sizeBits { Pow2Mono(sizeBits, bits); } }
    AlignedAdd(base, sizeBits, sizeBits);
    AlignedDown(base + size, bits, sizeBits);
    AlignedBack(base + size, bits, n);
    AlignUpLeast(base + offset, bits);
  }

  lemma TooMany(room: nat, p: nat, n: nat)
    requires p > 0 && n > room / p
    ensures n * p > room
  {
    DivModSplit(room, p);
    MulMono(room / p + 1, n, p);
    assert (room / p + 1) * p == room / p * p + p;
  }

  /** And they fit aligned only if they fit unaligned. */
  lemma UnalignedCheckIff(base: nat, sizeBits: nat, offset: nat, bits: nat, n: nat)
    requires Aligned(base, sizeBits) && offset <= Pow2(sizeBits) && 1 <= n
    ensures n <= Shr(Pow2(sizeBits) - offset, bits)
            <==> AlignUp(base + offset, bits) + n * Pow2(bits) <= base + Pow2(sizeBits)
  {
    if n <= Shr(Pow2(sizeBits) - offset, bits) {
      UnalignedCheckSuffices(base, sizeBits, offset, bits, n);
    } else {
      TooMany(Pow2(sizeBits) - offset, Pow2(bits), n);
      AlignUpLeast(base + offset, bits);
    }
  }

  lemma NewObjectsEnd(addr: nat, bits: nat, n: nat)
    requires n > 0
    ensures NewObjects(addr, bits, n)[n - 1].End() == addr + n * Pow2(bits)
  {
    assert n * Pow2(bits) == (n - 1) * Pow2(bits) + Pow2(bits);
  }

  class Region {
    const base: nat
    const sizeBits: nat
    const isDevice: bool
    const minBits: nat    // seL4_MinUntypedBits
    const chunkBits: nat  // CONFIG_RESET_CHUNK_BITS
    const maxBits: nat    // seL4_MaxUntypedBits
    const fanOut: nat     // CONFIG_RETYPE_FAN_OUT_LIMIT
    const mem: array<nat> // the bytes of the region

    /** capFreeIndex of each capability to the whole region, the parent of each before it. */
    var free: seq<nat>
    var objects: seq<Object>

    function MaxFreeIndex(): nat
      requires minBits <= sizeBits
    {
      Pow2(sizeBits - minBits)
    }

    /** FREE_INDEX_TO_OFFSET. */
    function Offset(index: nat): nat {
      Shl(index, minBits)
    }

    /** Everything at or above this offset is free for the last capability. */
    function Limit(): nat
      reads this
    {
      if free == [] then Pow2(sizeBits) else Offset(free[|free| - 1])
    }

    ghost predicate Configured()
      reads this
    {
      && minBits <= sizeBits && minBits <= chunkBits && Aligned(base, sizeBits)
      && mem.Length == Pow2(sizeBits)
    }

    ghost predicate ZeroFrom(from: nat)
      reads this, mem
    {
      forall k :: from <= k < mem.Length ==> mem[k] == 0
    }

    /** Capabilities before the last are full; what lives is below the free offset; unless it is
        device memory, everything from the free offset on is zero. */
    ghost predicate Valid()
      reads this, mem
    {
      && Configured()
      && (forall i :: 0 <= i < |free| - 1 ==> free[i] == MaxFreeIndex())
      && (free != [] ==> free[|free| - 1] <= MaxFreeIndex())
      && Layout(objects, base, Limit())
      && (!isDevice ==> ZeroFrom(Limit()))
    }

    lemma FullOffset()
      requires Configured()
      ensures Offset(MaxFreeIndex()) == Pow2(sizeBits)
    {
      Pow2Add(sizeBits - minBits, minBits);
    }

    lemma OffsetMono(a: nat, b: nat)
      requires a <= b
      ensures Offset(a) <= Offset(b)
    {
      MulMono(a, b, Pow2(minBits));
    }

    /** The region as the boot code provides it: one capability, marked full. */
    constructor (base: nat, sizeBits: nat, isDevice: bool, minBits: nat, chunkBits: nat, maxBits: nat, fanOut: nat,
                 bytes: seq<nat>)
      requires minBits <= sizeBits && minBits <= chunkBits && Aligned(base, sizeBits) && |bytes| == Pow2(sizeBits)
      ensures Valid() && this.base == base && this.sizeBits == sizeBits && this.isDevice == isDevice
      ensures free == [MaxFreeIndex()] && objects == [] && fresh(mem)
    {
      this.base, this.sizeBits, this.isDevice := base, sizeBits, isDevice;
      this.minBits, this.chunkBits, this.maxBits, this.fanOut := minBits, chunkBits, maxBits, fanOut;
      mem := new nat[|bytes|](i requires 0 <= i < |bytes| => bytes[i]);
      free := [Pow2(sizeBits - minBits)];
      objects := [];
      new;
      FullOffset();
    }

    /** Deriving a copy of the last capability, which has no children: the source is marked full and
        the copy keeps the source's free index. */
    method CopyCap() returns (ok: bool)
      requires Valid()
      modifies this`free
      ensures Valid() && (ok <==> old(free) != [] && objects == [])
      ensures free == if ok then old(free)[|old(free)| - 1 := MaxFreeIndex()] + [old(free)[|old(free)| - 1]]
                      else old(free)
    {
      ok := free != [] && objects == [];
      if ok {
        var index := free[|free| - 1];
        free := free[|free| - 1 := MaxFreeIndex()];
        free := free + [index];
      }
    }

    /** Deleting a capability to the region; its children become those of the one before it. */
    method DeleteCap(i: nat)
      requires Valid() && i < |free|
      modifies this`free
      ensures Valid() && free == old(free)[..i] + old(free)[i + 1..]
    {
      FullOffset();
      OffsetMono(free[|free| - 1], MaxFreeIndex());
      free := free[..i] + free[i + 1..];
      assert old(Limit()) <= Limit() <= mem.Length;
    }

    /** Deleting an object leaves its memory as it is and its bytes unused. */
    method DeleteObject(i: nat)
      requires Valid() && i < |objects|
      modifies this`objects
      ensures Valid() && objects == old(objects)[..i] + old(objects)[i + 1..]
    {
      objects := objects[..i] + objects[i + 1..];
    }

    /** Any write to a live object, by the kernel or by user code. */
    method Write(i: nat, k: nat, v: nat)
      requires Valid() && i < |objects| && k < Pow2(objects[i].bits)
      modifies mem
      ensures Valid() && objects[i].addr >= base && objects[i].addr - base + k < mem.Length
      ensures mem[..] == old(mem[..])[objects[i].addr - base + k := v]
    {
      assert Inside(objects[i], base, Limit());
      if free != [] { FullOffset(); OffsetMono(free[|free| - 1], MaxFreeIndex()); }
      mem[objects[i].addr - base + k] := v;
    }

    /** clearMemory. */
    method ClearMemory(offset: nat, bits: nat)
      requires offset + Pow2(bits) <= mem.Length
      modifies mem
      ensures forall k :: offset <= k < offset + Pow2(bits) ==> mem[k] == 0
      ensures forall k :: 0 <= k < mem.Length && !(offset <= k < offset + Pow2(bits)) ==> mem[k] == old(mem[k])
    {
      var i := offset;
      while i < offset + Pow2(bits)
        invariant offset <= i <= offset + Pow2(bits)
        invariant forall k :: offset <= k < i ==> mem[k] == 0
        invariant forall k :: 0 <= k < mem.Length && !(offset <= k < i) ==> mem[k] == old(mem[k])
      {
        mem[i] := 0;
        i := i + 1;
      }
    }

    /** GET_FREE_INDEX loses nothing on offsets that are multiples of the smallest untyped size. */
    lemma IndexOfOffset(offset: nat)
      requires Aligned(offset, minBits)
      ensures Offset(Shr(offset, minBits)) == offset
    {
      DivModSplit(offset, Pow2(minBits));
    }

    /** Records `offset` as the free offset of the last capability. */
    method SetFree(offset: nat)
      requires Configured() && free != [] && Aligned(offset, minBits) && offset <= Pow2(sizeBits)
      modifies this`free
      ensures |free| == |old(free)| && free[..|free| - 1] == old(free)[..|free| - 1]
      ensures Limit() == offset && free[|free| - 1] <= MaxFreeIndex()
    {
      IndexOfOffset(offset);
      FullOffset();
      free := free[|free| - 1 := Shr(offset, minBits)];
      if free[|free| - 1] > MaxFreeIndex() {
        MulStrict(MaxFreeIndex(), free[|free| - 1], Pow2(minBits));
      }
    }

    /** How many chunks the memory below `x` takes. */
    ghost function Chunks(x: nat): nat {
      if x == 0 then 0 else DivModSplit(x - 1, Pow2(chunkBits)); (x - 1) / Pow2(chunkBits) + 1
    }

    /** The reset is preempted after `preemptAfter` chunks: it goes by chunks, and there are that many to clear. */
    ghost predicate Interrupts(preemptAfter: nat)
      requires free != []
      reads this
    {
      !isDevice && chunkBits <= sizeBits && 1 <= preemptAfter <= Chunks(Limit())
    }

    /** The bytes below `end` are as in `before`. */
    ghost predicate SameBelow(before: seq<nat>, end: nat)
      reads this, mem
    {
      |before| == mem.Length && forall k :: 0 <= k < end && k < mem.Length ==> mem[k] == before[k]
    }

    /** resetUntypedCap: zeroes from the top down in chunks, recording the progress in the capability
        after each chunk, so that it can be preempted there and resumed by the next attempt. */
    method ResetUntypedCap(preemptAfter: nat) returns (ok: bool)
      requires Valid() && free != [] && objects == []
      modifies this`free, mem
      ensures Valid() && |free| == |old(free)| && Limit() <= old(Limit())
      ensures free[..|free| - 1] == old(free)[..|free| - 1]
      ensures SameBelow(old(mem[..]), Limit()) && (isDevice ==> mem[..] == old(mem[..]))
      ensures ok <==> !old(Interrupts(preemptAfter))
      ensures Limit() == if ok then 0 else (old(Chunks(Limit())) - preemptAfter) * Pow2(chunkBits)
    {
      var offset: int := Offset(free[|free| - 1]);
      FullOffset();
      OffsetMono(free[|free| - 1], MaxFreeIndex());
      if offset == 0 { return true; }
      assert Aligned(0, minBits) by { DivModUnique(0, Pow2(minBits), 0, 0); }
      if isDevice || sizeBits < chunkBits {
        if !isDevice { ClearMemory(0, sizeBits); }
        SetFree(0);
        return true;
      }
      ok := ResetChunks(offset, preemptAfter);
    }

    /** The chunk loop of resetUntypedCap. */
    method ResetChunks(freeOffset: nat, preemptAfter: nat) returns (ok: bool)
      requires Valid() && free != [] && objects == [] && !isDevice && chunkBits <= sizeBits
      requires 0 < freeOffset == Limit() <= Pow2(sizeBits)
      modifies this`free, mem
      ensures Valid() && |free| == |old(free)| && Limit() <= old(Limit())
      ensures free[..|free| - 1] == old(free)[..|free| - 1] && SameBelow(old(mem[..]), Limit())
      ensures ok <==> !(1 <= preemptAfter <= Chunks(freeOffset))
      ensures if ok then Limit() == 0 else ChunkAt(Limit(), Chunks(freeOffset) - preemptAfter)
    {
      var offset: nat := ChunkBelow(freeOffset);
      var chunks := 0;
      ghost var total := Chunks(freeOffset);
      while true
        invariant Valid() && |free| == |old(free)| && objects == []
        invariant free[..|free| - 1] == old(free)[..|free| - 1] && SameBelow(old(mem[..]), offset + Pow2(chunkBits))
        invariant Aligned(offset, chunkBits) && offset < freeOffset && Limit() <= offset + Pow2(chunkBits)
        invariant 0 <= chunks < total && ChunkAt(offset, total - 1 - chunks)
        invariant preemptAfter == 0 || chunks < preemptAfter
        decreases offset
      {
        ClearChunk(offset, freeOffset);
        chunks := chunks + 1;
        if chunks == preemptAfter { return false; }
        if offset == 0 {
          ChunkFirst(total - chunks);
          return true;
        }
        ChunkNext(offset, total - chunks);
        offset := ChunkBefore(offset);
      }
    }

    /** `offset` is where chunk `k` begins. */
    ghost predicate ChunkAt(offset: int, k: int) {
      offset == k * Pow2(chunkBits)
    }

    lemma ChunkFirst(k: nat)
      requires ChunkAt(0, k)
      ensures k == 0
    {
      if k > 0 { MulMono(1, k, Pow2(chunkBits)); }
    }

    lemma ChunkNext(offset: int, k: int)
      requires ChunkAt(offset, k) && offset > 0
      ensures ChunkAt(offset - Pow2(chunkBits), k - 1) && k > 0
    {
      if k <= 0 { MulMono(k, 0, Pow2(chunkBits)); }
    }

    /** Clears one chunk and moves the free offset down to it. */
    method ClearChunk(offset: nat, freeOffset: nat)
      requires Valid() && free != [] && objects == [] && chunkBits <= sizeBits
      requires Aligned(offset, chunkBits) && offset < freeOffset <= Pow2(sizeBits)
      requires Limit() <= offset + Pow2(chunkBits)
      modifies this`free, mem
      ensures Valid() && |free| == |old(free)| && Limit() == offset
      ensures free[..|free| - 1] == old(free)[..|free| - 1] && SameBelow(old(mem[..]), offset)
    {
      ChunkFits(offset, freeOffset);
      ClearMemory(offset, chunkBits);
      SetFree(offset);
    }

    /** `ROUND_DOWN(offset - 1, chunk)`. */
    method ChunkBelow(x: nat) returns (r: nat)
      requires 0 < x
      ensures r < x <= r + Pow2(chunkBits) && Aligned(r, chunkBits) && Chunks(x) > 0 && ChunkAt(r, Chunks(x) - 1)
    {
      var p := Pow2(chunkBits);
      DivModSplit(x - 1, p);
      DivModUnique(x - 1 - (x - 1) % p, p, (x - 1) / p, 0);
      r := x - 1 - (x - 1) % p;
    }

    method ChunkBefore(offset: nat) returns (r: nat)
      requires 0 < offset && Aligned(offset, chunkBits)
      ensures r + Pow2(chunkBits) == offset && Aligned(r, chunkBits)
    {
      DivModUnique(0, Pow2(chunkBits), 0, 0);
      AlignedGap(0, offset, chunkBits);
      assert 1 * Pow2(chunkBits) == Pow2(chunkBits);
      AlignedBack(offset, chunkBits, 1);
      r := offset - Pow2(chunkBits);
    }

    /** A chunk below the free offset lies inside the region. */
    lemma ChunkFits(offset: nat, freeOffset: nat)
      requires Configured() && chunkBits <= sizeBits && Aligned(offset, chunkBits)
      requires offset < freeOffset <= Pow2(sizeBits)
      ensures offset + Pow2(chunkBits) <= mem.Length && Aligned(offset, minBits)
    {
      DivModUnique(Pow2(sizeBits), Pow2(sizeBits), 1, 0);
      AlignedDown(Pow2(sizeBits), chunkBits, sizeBits);
      AlignedGap(offset, Pow2(sizeBits), chunkBits);
      AlignedDown(offset, minBits, chunkBits);
    }

    /** Whether the `i`-th capability has children: a copy derived from it, or a live object. */
    predicate HasChildren(i: nat)
      reads this
    {
      i + 1 < |free| || objects != []
    }

    /** Where allocation starts: from the beginning when the capability has no children. */
    function StartOffset(i: nat): nat
      requires i < |free|
      reads this
    {
      if HasChildren(i) then Offset(free[i]) else 0
    }

    /** The capacity check of decodeUntypedInvocation. */
    predicate Fits(i: nat, bits: nat, n: nat)
      requires i < |free|
      reads this
    {
      StartOffset(i) <= Pow2(sizeBits) && n <= Shr(Pow2(sizeBits) - StartOffset(i), bits)
    }

    /** Only the last capability can have room: the others are full. */
    lemma FitsIsLast(i: nat, bits: nat, n: nat)
      requires Valid() && i < |free| && n >= 1
      ensures StartOffset(i) <= Pow2(sizeBits)
      ensures Fits(i, bits, n) ==> i + 1 == |free|
    {
      FullOffset();
      OffsetMono(free[i], MaxFreeIndex());
      OffsetMono(0, MaxFreeIndex());
      DivModUnique(0, Pow2(bits), 0, 0);
    }

    /** The capacity check, although it does not align, passes exactly if the objects fit once aligned. */
    lemma FitsIffAligned(i: nat, bits: nat, n: nat)
      requires Valid() && i < |free| && n >= 1
      ensures Fits(i, bits, n) <==> AlignUp(base + StartOffset(i), bits) + n * Pow2(bits) <= base + Pow2(sizeBits)
    {
      FitsIsLast(i, bits, n);
      UnalignedCheckIff(base, sizeBits, StartOffset(i), bits, n);
    }

    /** The sizing part of decodeUntypedInvocation and invokeUntyped_Retype: on success the objects
        are aligned, new and next to each other, and every byte of them is zero when they are
        created. */
    method Retype(i: nat, bits: nat, n: nat, preemptAfter: nat) returns (s: Status)
      requires Valid() && i < |free| && minBits <= bits
      modifies this`free, this`objects, mem
      ensures Valid() && |free| == |old(free)|
      ensures s.RangeError? <==> bits > maxBits || n < 1 || n > fanOut
      ensures s.NotEnoughMemory? <==> !s.RangeError? && !old(Fits(i, bits, n))
      ensures s.NotEnoughMemory? ==> s.left == Pow2(sizeBits) - old(StartOffset(i))
      ensures s.Preempted? <==> !s.RangeError? && !s.NotEnoughMemory? && !old(HasChildren(i))
                                && old(Interrupts(preemptAfter))
      ensures s.Preempted? ==> objects == old(objects)
                               && Limit() == (old(Chunks(Limit())) - preemptAfter) * Pow2(chunkBits)
      ensures s.RangeError? || s.NotEnoughMemory? ==>
              objects == old(objects) && free == old(free) && mem[..] == old(mem[..])
      ensures s.Done? ==>
                var start := AlignUp(base + old(StartOffset(i)), bits);
                objects == old(objects) + NewObjects(start, bits, n)
                && start >= base && (!isDevice ==> ZeroFrom(start - base))
      ensures s.Done? ==> i + 1 == |free| && objects != [] && base + Limit() == objects[|objects| - 1].End()
      ensures forall j :: 0 <= j < |free| && j != i ==> free[j] == old(free)[j]
      ensures isDevice || old(HasChildren(i)) ==> mem[..] == old(mem[..])
      ensures s.Preempted? ==> SameBelow(old(mem[..]), Limit())
    {
      if bits > maxBits || n < 1 || n > fanOut { return RangeError; }
      var reset := !HasChildren(i);
      var offset := StartOffset(i);
      FitsIsLast(i, bits, n);
      if Shr(Pow2(sizeBits) - offset, bits) < n { return NotEnoughMemory(Pow2(sizeBits) - offset); }
      if reset {
        var ok := ResetUntypedCap(preemptAfter);
        if !ok { return Preempted; }
      }
      InvokeRetype(offset, bits, n);
      s := Done;
    }

    /** The part of invokeUntyped_Retype after the reset. */
    method InvokeRetype(offset: nat, bits: nat, n: nat)
      requires Valid() && free != [] && minBits <= bits && Limit() == offset <= Pow2(sizeBits)
      requires 1 <= n <= Shr(Pow2(sizeBits) - offset, bits)
      modifies this`free, this`objects
      ensures Valid() && |free| == |old(free)|
      ensures objects == old(objects) + NewObjects(AlignUp(base + offset, bits), bits, n)
      ensures AlignUp(base + offset, bits) >= base && (!isDevice ==> ZeroFrom(AlignUp(base + offset, bits) - base))
      ensures objects != [] && base + Limit() == objects[|objects| - 1].End()
      ensures free[..|free| - 1] == old(free)[..|free| - 1]
    {
      UnalignedCheckSuffices(base, sizeBits, offset, bits, n);
      AlignUpLeast(base + offset, bits);
      CreateObjects(AlignUp(base + offset, bits), bits, n, n * Pow2(bits));
    }

    /** Advances the free index past the new objects and creates them. */
    method CreateObjects(start: nat, bits: nat, n: nat, total: nat)
      requires Valid() && free != [] && minBits <= bits && Aligned(start, bits) && total == n * Pow2(bits)
      requires base + Limit() <= start && start + total <= base + Pow2(sizeBits)
      modifies this`free, this`objects
      ensures Valid() && |free| == |old(free)| && objects == old(objects) + NewObjects(start, bits, n)
      ensures n > 0 ==> objects != [] && base + Limit() == objects[|objects| - 1].End()
      ensures free[..|free| - 1] == old(free)[..|free| - 1]
    {
      LayoutExtends(objects, base, Limit(), start, bits, n);
      EndAligned(start, bits, n);
      SetFree(start + total - base);
      CreateNewObjects(start, bits, n);
      if n > 0 { NewObjectsEnd(start, bits, n); }
    }

    /** createNewObjects. */
    method CreateNewObjects(start: nat, bits: nat, n: nat)
      modifies this`objects
      ensures objects == old(objects) + NewObjects(start, bits, n)
    {
      for i := 0 to n
        invariant objects == old(objects) + NewObjects(start, bits, i)
      {
        objects := objects + [Object(start + Shl(i, bits), bits)];
      }
    }

    lemma EndAligned(start: nat, bits: nat, n: nat)
      requires Configured() && minBits <= bits && Aligned(start, bits) && base <= start
      ensures 0 <= n * Pow2(bits) && Aligned(start + n * Pow2(bits) - base, minBits)
    {
      AlignedShift(start, bits, n);
      AlignedDown(start + n * Pow2(bits), minBits, bits);
      AlignedDown(base, minBits, sizeBits);
      DivModSplit(base, Pow2(minBits));
      AlignedBack(start + n * Pow2(bits), minBits, base / Pow2(minBits));
    }
  }

  /** A retype while objects live: it goes on where the free memory begins, and succeeds exactly if its objects fit
      there, aligned. */
  method RetypeNext(r: Region, i: nat, bits: nat, n: nat) returns (s: Status)
    requires r.Valid() && r.objects != [] && i + 1 == |r.free| && r.minBits <= bits
    modifies r, r.mem
    ensures r.Valid()
    ensures s.Done? <==> bits <= r.maxBits && 1 <= n <= r.fanOut
                         && AlignUp(r.base + old(r.Limit()), bits) + n * Pow2(bits) <= r.base + Pow2(r.sizeBits)
    ensures s.Done? ==> r.objects == old(r.objects) + NewObjects(AlignUp(r.base + old(r.Limit()), bits), bits, n)
  {
    if n >= 1 { r.FitsIffAligned(i, bits, n); }
    s := r.Retype(i, bits, n, 0);
  }

  /** So two retypes, one after the other, both succeed if the objects of the second fit above those of the first. */
  method RetypeTwice(r: Region, i: nat, bits: nat, n: nat, bits2: nat, n2: nat) returns (s: Status, s2: Status)
    requires r.Valid() && i < |r.free| && r.minBits <= bits && r.minBits <= bits2
    modifies r, r.mem
    ensures r.Valid()
    ensures s.Done? ==>
              var first := NewObjects(AlignUp(r.base + old(r.StartOffset(i)), bits), bits, n);
              && n > 0
              && var start := AlignUp(first[n - 1].End(), bits2);
                 && (s2.Done? <==> bits2 <= r.maxBits && 1 <= n2 <= r.fanOut
                                   && start + n2 * Pow2(bits2) <= r.base + Pow2(r.sizeBits))
                 && (s2.Done? ==> r.objects == old(r.objects) + first + NewObjects(start, bits2, n2))
  {
    s := r.Retype(i, bits, n, 0);
    if !s.Done? { return s, s; }
    s2 := RetypeNext(r, i, bits2, n2);
  }

  /** What can happen to a region. */
  datatype Event =
    | CopyEvent
    | DeleteCapEvent(i: nat)
    | DeleteObjectEvent(i: nat)
    | WriteEvent(i: nat, k: nat, v: nat)
    | RetypeEvent(i: nat, bits: nat, n: nat, preemptAfter: nat)

  /** Every run of retypes, deletions, copies, writes and preempted resets, from any valid region,
      keeps live objects aligned, disjoint, inside and below the free offset, and free memory zero. */
  method Run(region: Region, events: seq<Event>)
    requires region.Valid()
    modifies region, region.mem
    ensures region.Valid()
  {
    for e := 0 to |events|
      invariant region.Valid()
    {
      match events[e]
      case CopyEvent => var _ := region.CopyCap();
      case DeleteCapEvent(i) => if i < |region.free| { region.DeleteCap(i); }
      case DeleteObjectEvent(i) => if i < |region.objects| { region.DeleteObject(i); }
      case WriteEvent(i, k, v) =>
        if i < |region.objects| && k < Pow2(region.objects[i].bits) { region.Write(i, k, v); }
      case RetypeEvent(i, bits, n, preemptAfter) =>
        if i < |region.free| && region.minBits <= bits { var _ := region.Retype(i, bits, n, preemptAfter); }
    }
  }
}
