/** Capability lookup: the fast path's loop (lookup_fp, kernel/include/fastpath/fastpath.h) against
    the reference lookup (resolveAddressBits, lookupCap, kernel/src/kernel/cspace.c). The machine
    word has `w` bits; a slot is addressed in units of table entries. */
module CSpaceLookup {
  import opened Words

  datatype Cap =
    | NullCap
    | CNodeCap(ptr: nat, radix: nat, guardSize: nat, guard: nat)
    | OtherCap(id: nat)

  type Memory = map<nat, Cap>

  datatype Fault =
    | InvalidRoot
    | GuardMismatch(guardFound: nat, bitsLeft: nat, bitsFound: nat)
    | DepthMismatch(bitsFound: nat, bitsLeft: nat)

  datatype Resolution = Found(slot: nat, bitsRemaining: nat) | Faulted(fault: Fault)

  /** What createObject and updateCapData guarantee of a CNode capability. */
  predicate WellFormed(cap: Cap, w: nat) {
    cap.CNodeCap? ==> cap.radix >= 1 && cap.guardSize + cap.radix <= w && cap.guard < Pow2(cap.guardSize)
  }

  /** Any graph of CNodes, cyclic or not: every CNode's slots exist and hold well-formed caps. */
  ghost predicate ValidSpace(mem: Memory, w: nat) {
    forall s :: s in mem ==> ValidCap(mem, mem[s], w)
  }

  ghost predicate ValidCap(mem: Memory, cap: Cap, w: nat) {
    WellFormed(cap, w) && (cap.CNodeCap? ==> forall i: nat :: i < Pow2(cap.radix) ==> Slot(cap, i) in mem)
  }

  /** `CTE_PTR(cap_cnode_cap_get_capCNodePtr(cap)) + i`. */
  function Slot(cap: Cap, i: nat): nat
    requires cap.CNodeCap?
  {
    cap.ptr + i
  }

  /** updateCapData on a CNode capability: a guard that does not fit gives the null capability. */
  function UpdateGuard(cap: Cap, guard: nat, guardSize: nat, w: nat): (r: Cap)
    requires cap.CNodeCap? && cap.radix >= 1
    ensures WellFormed(r, w)
    ensures r.CNodeCap? <==> guardSize + cap.radix <= w
    ensures r.CNodeCap? ==> r.ptr == cap.ptr && r.radix == cap.radix
  {
    if guardSize + cap.radix > w then NullCap
    else cap.(guard := LowBits(guard, guardSize), guardSize := guardSize)
  }

  // ----- the reference lookup -----

  /** `(capptr >> ((n_bits - guardBits) & MASK(wordRadix))) & MASK(guardBits)`; the word width is
      `2^wordRadix`, so masking the shift amount is taking it modulo the width. */
  function SlowGuard(capptr: nat, nBits: nat, guardBits: nat, w: nat): nat
    requires w > 0
  {
    LowBits(Shr(capptr, (nBits - guardBits) % w), guardBits)
  }

  function SlowOffset(capptr: nat, nBits: nat, levelBits: nat, radix: nat): nat
    requires levelBits <= nBits
  {
    LowBits(Shr(capptr, nBits - levelBits), radix)
  }

  /** resolveAddressBits, as a recursion over the bits that are left. */
  function Resolve(mem: Memory, node: Cap, capptr: nat, nBits: nat, w: nat): (r: Resolution)
    requires w > 0 && ValidSpace(mem, w) && ValidCap(mem, node, w)
    ensures r.Found? ==> r.slot in mem
    decreases nBits
  {
    if !node.CNodeCap? then Faulted(InvalidRoot)
    else
      var level := node.radix + node.guardSize;
      if node.guardSize > nBits || SlowGuard(capptr, nBits, node.guardSize, w) != node.guard then
        Faulted(GuardMismatch(node.guard, nBits, node.guardSize))
      else if level > nBits then
        Faulted(DepthMismatch(level, nBits))
      else
        var slot := Slot(node, SlowOffset(capptr, nBits, level, node.radix));
        if nBits <= level then Found(slot, 0)
        else if !mem[slot].CNodeCap? then Found(slot, nBits - level)
        else Resolve(mem, mem[slot], capptr, nBits - level, w)
  }

  /** resolveAddressBits: the loop over levels. */
  method ResolveAddressBits(mem: Memory, root: Cap, capptr: nat, nBits: nat, w: nat) returns (r: Resolution)
    requires w > 0 && ValidSpace(mem, w) && ValidCap(mem, root, w)
    ensures r == Resolve(mem, root, capptr, nBits, w)
  {
    var nodeCap := root;
    var left: nat := nBits;
    if !nodeCap.CNodeCap? { return Faulted(InvalidRoot); }
    while true
      invariant nodeCap.CNodeCap? && ValidCap(mem, nodeCap, w)
      invariant Resolve(mem, nodeCap, capptr, left, w) == Resolve(mem, root, capptr, nBits, w)
      decreases left
    {
      var levelBits := nodeCap.radix + nodeCap.guardSize;
      var guard := LowBits(Shr(capptr, (left - nodeCap.guardSize) % w), nodeCap.guardSize);
      if nodeCap.guardSize > left || guard != nodeCap.guard {
        return Faulted(GuardMismatch(nodeCap.guard, left, nodeCap.guardSize));
      }
      if levelBits > left {
        return Faulted(DepthMismatch(levelBits, left));
      }
      var slot := Slot(nodeCap, LowBits(Shr(capptr, left - levelBits), nodeCap.radix));
      if left <= levelBits {
        return Found(slot, 0);
      }
      left := left - levelBits;
      nodeCap := mem[slot];
      if !nodeCap.CNodeCap? {
        return Found(slot, left);
      }
    }
  }

  /** lookupCap over the whole word: the capability, or none when the lookup faults. */
  function LookupCap(mem: Memory, root: Cap, capptr: nat, w: nat): Cap
    requires w > 0 && ValidSpace(mem, w) && ValidCap(mem, root, w)
  {
    var r := Resolve(mem, root, capptr, w, w);
    if r.Found? then mem[r.slot] else NullCap
  }

  // ----- the fast path -----

  /** `cptr << bits` in a word of `w` bits. */
  function ShlWord(x: nat, k: nat, w: nat): nat {
    LowBits(Shl(x, k), w)
  }

  function FastGuard(cptr: nat, bits: nat, guardBits: nat, w: nat): nat
    requires guardBits <= w
  {
    Shr(ShlWord(cptr, bits, w), w - guardBits)
  }

  /** `cptr2 << guardBits >> (wordBits - radixBits)`. */
  function FastRadix(cptr: nat, bits: nat, guardBits: nat, radixBits: nat, w: nat): nat
    requires radixBits <= w
  {
    Shr(ShlWord(ShlWord(cptr, bits, w), guardBits, w), w - radixBits)
  }

  /** The index computed by the fast path always lies inside the table, even after overshooting. */
  lemma FastRadixInTable(cptr: nat, bits: nat, guardBits: nat, radixBits: nat, w: nat)
    requires radixBits <= w
    ensures FastRadix(cptr, bits, guardBits, radixBits, w) < Pow2(radixBits)
  {
    var x := ShlWord(ShlWord(cptr, bits, w), guardBits, w);
    Pow2Add(w - radixBits, radixBits);
    QuotientBound(x, Pow2(w - radixBits), Pow2(radixBits));
  }

  lemma QuotientBound(x: nat, d: nat, k: nat)
    requires d > 0 && x < d * k
    ensures x / d < k
  {
    DivModSplit(x, d);
    if x / d >= k { MulMono(k, x / d, d); }
  }

  /** lookup_fp from a CNode on, `bits` of the word being resolved. */
  function Fast(mem: Memory, cap: Cap, cptr: nat, bits: nat, w: nat): Cap
    requires ValidSpace(mem, w) && ValidCap(mem, cap, w) && cap.CNodeCap?
    decreases if bits < w then w - bits else 0
  {
    FastRadixInTable(cptr, bits, cap.guardSize, cap.radix, w);
    if cap.guardSize != 0 && FastGuard(cptr, bits, cap.guardSize, w) != cap.guard then NullCap
    else
      var next := mem[Slot(cap, FastRadix(cptr, bits, cap.guardSize, cap.radix, w))];
      var bits' := bits + cap.guardSize + cap.radix;
      if bits' < w && next.CNodeCap? then
        Fast(mem, next, cptr, bits', w)
      else if bits' > w then NullCap
      else next
  }

  /** lookup_fp: the do-while loop, which reads only slots that exist. */
  method LookupFp(mem: Memory, root: Cap, cptr: nat, w: nat) returns (cap: Cap)
    requires ValidSpace(mem, w) && ValidCap(mem, root, w)
    ensures cap == if root.CNodeCap? then Fast(mem, root, cptr, 0, w) else NullCap
  {
    cap := root;
    var bits := 0;
    if !cap.CNodeCap? { return NullCap; }
    var again := true;
    while again
      invariant again ==> cap.CNodeCap? && ValidCap(mem, cap, w)
      invariant again ==> Fast(mem, cap, cptr, bits, w) == Fast(mem, root, cptr, 0, w)
      invariant !again ==> (if bits > w then NullCap else cap) == Fast(mem, root, cptr, 0, w)
      decreases again, if bits < w then w - bits else 0
    {
      var cptr2 := ShlWord(cptr, bits, w);
      if cap.guardSize != 0 && Shr(cptr2, w - cap.guardSize) != cap.guard {
        return NullCap;
      }
      var radix := Shr(ShlWord(cptr2, cap.guardSize, w), w - cap.radix);
      FastRadixInTable(cptr, bits, cap.guardSize, cap.radix, w);
      var slot := Slot(cap, radix);
      bits := bits + cap.guardSize + cap.radix;
      cap := mem[slot];
      again := bits < w && cap.CNodeCap?;
    }
    if bits > w {
      return NullCap;
    }
  }

  // ----- agreement -----

  /** The shifted word holds the unresolved low bits of the pointer at its top. */
  lemma ShlWordLow(c: nat, b: nat, w: nat)
    requires b <= w
    ensures ShlWord(c, b, w) == Shl(LowBits(c, w - b), b)
  {
    Pow2Add(b, w - b);
    ShiftedRemainder(c, Pow2(b), Pow2(w - b));
  }

  /** Taking `k` bits below position `n` from the shifted word is masking them out of the pointer. */
  lemma TopBits(c: nat, n: nat, k: nat, b: nat, w: nat)
    requires n + b == w && k <= n
    ensures Shr(Shl(LowBits(c, n), b), w - k) == LowBits(Shr(c, n - k), k)
  {
    Pow2Add(n - k, b);
    ShiftCancel(LowBits(c, n), Pow2(n - k), Pow2(b));
    Pow2Add(n - k, k);
    RemainderQuotient(c, Pow2(n - k), Pow2(k));
  }

  lemma GuardsAgree(c: nat, bits: nat, g: nat, w: nat)
    requires bits < w && 0 < g <= w - bits
    ensures FastGuard(c, bits, g, w) == SlowGuard(c, w - bits, g, w)
  {
    ShlWordLow(c, bits, w);
    TopBits(c, w - bits, g, bits, w);
    DivModUnique(w - bits - g, w, 0, w - bits - g);
  }

  lemma ShlWordTwice(c: nat, a: nat, b: nat, w: nat)
    ensures ShlWord(ShlWord(c, a, w), b, w) == ShlWord(c, a + b, w)
  {
    Pow2Add(a, b);
    MulAssoc(c, Pow2(a), Pow2(b));
    ScaledRemainder(Shl(c, a), Pow2(w), Pow2(b));
  }

  lemma ScaledRemainder(x: nat, m: nat, p: nat)
    requires m > 0
    ensures ((x % m) * p) % m == (x * p) % m
  {
    DivModSplit(x, m);
    var q, r := x / m, x % m;
    MulMono(0, r, p);
    MulMono(0, q, p);
    ScaledIdentity(q, m, r, p);
    AddMultiple(r * p, q * p, m);
  }

  lemma ScaledIdentity(q: int, m: int, r: int, p: int)
    ensures (q * m + r) * p == (q * p) * m + r * p
  {
    assert (q * m + r) * p == q * m * p + r * p;
    assert q * m * p == (q * p) * m;
  }

  lemma OffsetsAgree(c: nat, bits: nat, g: nat, r: nat, w: nat)
    requires bits + g + r <= w
    ensures FastRadix(c, bits, g, r, w) == SlowOffset(c, w - bits, r + g, r)
  {
    ShlWordTwice(c, bits, g, w);
    ShlWordLow(c, bits + g, w);
    TopBits(c, w - bits - g, r, bits + g, w);
  }

  /** An empty guard is matched by the reference lookup whatever the shift amount. */
  lemma EmptyGuard(c: nat, n: nat, w: nat)
    requires w > 0
    ensures SlowGuard(c, n, 0, w) == 0
  {
  }

  /** From any node and any number of resolved bits, the two lookups agree. */
  lemma {:induction false} FastIsSlow(mem: Memory, cap: Cap, cptr: nat, bits: nat, w: nat)
    requires ValidSpace(mem, w) && ValidCap(mem, cap, w) && cap.CNodeCap? && bits < w
    ensures Fast(mem, cap, cptr, bits, w)
            == var r := Resolve(mem, cap, cptr, w - bits, w); if r.Found? then mem[r.slot] else NullCap
    decreases w - bits
  {
    var g, r, n := cap.guardSize, cap.radix, w - bits;
    EmptyGuard(cptr, n, w);
    if g <= n {
      if g > 0 { GuardsAgree(cptr, bits, g, w); }
      if g + r <= n {
        OffsetsAgree(cptr, bits, g, r, w);
        var next := mem[Slot(cap, SlowOffset(cptr, n, r + g, r))];
        if bits + g + r < w && next.CNodeCap? {
          FastIsSlow(mem, next, cptr, bits + g + r, w);
        }
      }
    }
  }

  /** lookup_fp and lookupCap find the same capability from every root: the fast path's null
      capability stands for a fault of the reference lookup or a null capability in the slot. */
  lemma LookupsAgree(mem: Memory, root: Cap, cptr: nat, w: nat)
    requires w > 0 && ValidSpace(mem, w) && ValidCap(mem, root, w)
    ensures (if root.CNodeCap? then Fast(mem, root, cptr, 0, w) else NullCap) == LookupCap(mem, root, cptr, w)
  {
    if root.CNodeCap? { FastIsSlow(mem, root, cptr, 0, w); }
  }

  // ----- addresses -----

  /** One level of a lookup: a CNode and the index of the slot taken in it. */
  datatype Step = Step(node: Cap, index: nat)

  /** How many bits a level resolves. */
  function LevelBits(cap: Cap): nat {
    if cap.CNodeCap? then cap.radix + cap.guardSize else 0
  }

  function Width(steps: seq<Step>): nat {
    if steps == [] then 0 else LevelBits(steps[0].node) + Width(steps[1..])
  }

  /** The steps lead from `root` to `end`, from slot to slot. */
  ghost predicate Walk(mem: Memory, root: Cap, steps: seq<Step>, end: Cap)
    decreases |steps|
  {
    if steps == [] then end == root
    else
      && steps[0].node == root && root.CNodeCap? && steps[0].index < Pow2(root.radix)
      && Slot(root, steps[0].index) in mem
      && Walk(mem, mem[Slot(root, steps[0].index)], steps[1..], end)
  }

  function Last(steps: seq<Step>): Step
    requires steps != []
  {
    steps[|steps| - 1]
  }

  /** Guard and index of a level, side by side. */
  function Part(s: Step): nat {
    if s.node.CNodeCap? then Shl(s.node.guard, s.node.radix) + s.index else 0
  }

  /** The address that the steps spell: guard and index of each level, side by side. */
  function Address(steps: seq<Step>): nat {
    if steps == [] then 0 else Shl(Part(steps[0]), Width(steps[1..])) + Address(steps[1..])
  }

  /** The low `n` bits of `c` begin with this address. */
  ghost predicate Spells(c: nat, n: nat, steps: seq<Step>) {
    && Width(steps) <= n
    && LowBits(c, n) == Shl(Address(steps), n - Width(steps)) + LowBits(c, n - Width(steps))
  }

  /** The bits of a word from position `m` up, and those below. */
  lemma SplitBits(c: nat, n: nat, m: nat)
    requires m <= n
    ensures LowBits(c, n) == Shl(LowBits(Shr(c, m), n - m), m) + LowBits(c, m)
  {
    var hi := Pow2(n - m);
    Pow2Add(m, n - m);
    RemainderQuotient(c, Pow2(m), hi);
    DivModSplit(LowBits(c, n), Pow2(m));
    DivModSplit(c, Pow2(n));
    Pow2Add(n - m, m);
    MulAssoc(c / Pow2(n), hi, Pow2(m));
    MulMono(0, c / Pow2(n), hi);
    AddMultiple(LowBits(c, n), c / Pow2(n) * hi, Pow2(m));
  }

  lemma ShlAdd(x: nat, a: nat, b: nat)
    ensures Shl(x, a + b) == Shl(Shl(x, a), b)
  {
    Pow2Add(a, b);
    MulAssoc(x, Pow2(a), Pow2(b));
  }

  lemma ShlSum(x: nat, y: nat, k: nat)
    ensures Shl(x + y, k) == Shl(x, k) + Shl(y, k)
  {
  }

  /** The two fields that a level takes from the top of the bits that are left. */
  lemma LevelSplits(c: nat, n: nat, g: nat, r: nat)
    requires g + r <= n
    ensures LowBits(c, n) == Shl(Shl(LowBits(Shr(c, n - g), g), r) + LowBits(Shr(c, n - g - r), r), n - g - r)
                             + LowBits(c, n - g - r)
  {
    var m := n - g - r;
    var guard, index := LowBits(Shr(c, n - g), g), LowBits(Shr(c, m), r);
    SplitBits(c, n, n - g);
    SplitBits(c, n - g, m);
    ShlAdd(guard, r, m);
    ShlSum(Shl(guard, r), index, m);
  }

  lemma ShlUnique(x: nat, lo: nat, y: nat, lo': nat, k: nat)
    requires Shl(x, k) + lo == Shl(y, k) + lo' && lo < Pow2(k) && lo' < Pow2(k)
    ensures x == y && lo == lo'
  {
    DivModUnique(Shl(x, k) + lo, Pow2(k), x, lo);
    DivModUnique(Shl(y, k) + lo', Pow2(k), y, lo');
  }

  /** What a level reads of the `n` bits that are left is its guard and this index. */
  ghost predicate Reads(c: nat, n: nat, s: Step) {
    && s.node.CNodeCap? && LevelBits(s.node) <= n
    && LowBits(Shr(c, n - s.node.guardSize), s.node.guardSize) == s.node.guard
    && LowBits(Shr(c, n - LevelBits(s.node)), s.node.radix) == s.index
  }

  /** The first part of an address is at the top of what the whole spells. */
  lemma FirstOnTop(steps: seq<Step>, k: nat, lo: nat)
    requires steps != []
    ensures Shl(Address(steps), k) + lo
            == Shl(Part(steps[0]), Width(steps[1..]) + k) + (Shl(Address(steps[1..]), k) + lo)
  {
    ShlAdd(Part(steps[0]), Width(steps[1..]), k);
    ShlSum(Shl(Part(steps[0]), Width(steps[1..])), Address(steps[1..]), k);
  }

  lemma SpellsMore(c: nat, n: nat, s: Step, rest: seq<Step>)
    requires Reads(c, n, s) && Spells(c, n - LevelBits(s.node), rest)
    ensures Spells(c, n, [s] + rest)
  {
    var m := n - LevelBits(s.node);
    assert ([s] + rest)[1..] == rest;
    LevelSplits(c, n, s.node.guardSize, s.node.radix);
    FirstOnTop([s] + rest, m - Width(rest), LowBits(c, m - Width(rest)));
  }

  /** Guards and indices fit into their fields. */
  ghost predicate Sized(steps: seq<Step>) {
    forall i :: 0 <= i < |steps| ==>
      steps[i].node.CNodeCap? && steps[i].node.guard < Pow2(steps[i].node.guardSize)
      && steps[i].index < Pow2(steps[i].node.radix)
  }

  lemma ShlBound(x: nat, y: nat, a: nat, b: nat)
    requires x < Pow2(a) && y < Pow2(b)
    ensures Shl(x, b) + y < Pow2(a + b)
  {
    MulMono(x + 1, Pow2(a), Pow2(b));
    Pow2Add(a, b);
    assert (x + 1) * Pow2(b) == x * Pow2(b) + Pow2(b);
  }

  lemma {:induction false} AddressBound(steps: seq<Step>)
    requires Sized(steps)
    ensures Address(steps) < Pow2(Width(steps))
    decreases |steps|
  {
    if steps != [] {
      AddressBound(steps[1..]);
      var s := steps[0];
      ShlBound(s.node.guard, s.index, s.node.guardSize, s.node.radix);
      ShlBound(Part(s), Address(steps[1..]), LevelBits(s.node), Width(steps[1..]));
    }
  }

  lemma SpellsLess(c: nat, n: nat, steps: seq<Step>)
    requires steps != [] && Sized(steps) && Spells(c, n, steps)
    ensures Reads(c, n, steps[0]) && Spells(c, n - LevelBits(steps[0].node), steps[1..])
  {
    var s, rest := steps[0], steps[1..];
    var m := n - LevelBits(s.node);
    var low := LowBits(c, m - Width(rest));
    FirstOnTop(steps, m - Width(rest), low);
    AddressBound(rest);
    ShlBound(Address(rest), low, Width(rest), m - Width(rest));
    ReadsIff(c, n, s, Shl(Address(rest), m - Width(rest)) + low);
  }

  lemma ReadsIff(c: nat, n: nat, s: Step, low: nat)
    requires Sized([s]) && LevelBits(s.node) <= n && low < Pow2(n - LevelBits(s.node))
    requires LowBits(c, n) == Shl(Part(s), n - LevelBits(s.node)) + low
    ensures Reads(c, n, s) && low == LowBits(c, n - LevelBits(s.node))
  {
    var m := n - LevelBits(s.node);
    assert [s][0] == s;
    LevelSplits(c, n, s.node.guardSize, s.node.radix);
    var guard, index := LowBits(Shr(c, n - s.node.guardSize), s.node.guardSize), LowBits(Shr(c, m), s.node.radix);
    ShlUnique(Part(s), low, Shl(guard, s.node.radix) + index, LowBits(c, m), m);
    ShlUnique(s.node.guard, s.index, guard, index, s.node.radix);
  }

  lemma GuardRead(c: nat, n: nat, g: nat, w: nat)
    requires w > 0 && g <= n <= w
    ensures SlowGuard(c, n, g, w) == LowBits(Shr(c, n - g), g)
  {
    if n - g < w { DivModUnique(n - g, w, 0, n - g); }
  }

  /** What a lookup of `n` bits finds at the end of the steps. */
  ghost predicate Ends(mem: Memory, root: Cap, steps: seq<Step>, end: Cap, c: nat, n: nat, r: Resolution)
    requires Width(steps) <= n
  {
    var left := n - Width(steps);
    match r
    case Found(slot, bitsRemaining) =>
      && steps != [] && Last(steps).node.CNodeCap? && slot == Slot(Last(steps).node, Last(steps).index)
      && bitsRemaining == left && (left == 0 || !end.CNodeCap?)
    case Faulted(InvalidRoot) => steps == [] && !root.CNodeCap?
    case Faulted(GuardMismatch(guardFound, bitsLeft, bitsFound)) =>
      && end.CNodeCap? && guardFound == end.guard && bitsLeft == left && bitsFound == end.guardSize
      && (end.guardSize > left || LowBits(Shr(c, left - end.guardSize), end.guardSize) != end.guard)
    case Faulted(DepthMismatch(bitsFound, bitsLeft)) =>
      && end.CNodeCap? && bitsFound == LevelBits(end) > left == bitsLeft && end.guardSize <= left
      && LowBits(Shr(c, left - end.guardSize), end.guardSize) == end.guard
  }

  lemma EndsMore(mem: Memory, s: Step, next: Cap, rest: seq<Step>, end: Cap, c: nat, n: nat, r: Resolution)
    requires s.node.CNodeCap? && next.CNodeCap? && LevelBits(s.node) + Width(rest) <= n
    requires Ends(mem, next, rest, end, c, n - LevelBits(s.node), r)
    ensures ([s] + rest)[1..] == rest && Ends(mem, s.node, [s] + rest, end, c, n, r)
  {
    assert ([s] + rest)[1..] == rest;
    if rest != [] { assert Last([s] + rest) == Last(rest); }
  }

  /** The first level matches the address. */
  ghost predicate Matches(cap: Cap, c: nat, n: nat) {
    && cap.CNodeCap? && LevelBits(cap) <= n && LowBits(Shr(c, n - cap.guardSize), cap.guardSize) == cap.guard
  }

  lemma NoMatchEnds(mem: Memory, root: Cap, c: nat, n: nat, w: nat)
    requires w > 0 && n <= w && ValidSpace(mem, w) && ValidCap(mem, root, w) && !Matches(root, c, n)
    ensures Ends(mem, root, [], root, c, n, Resolve(mem, root, c, n, w))
  {
    if root.CNodeCap? && root.guardSize <= n { GuardRead(c, n, root.guardSize, w); }
  }

  /** The first step of a lookup that matches. */
  lemma MatchSteps(mem: Memory, root: Cap, c: nat, n: nat, w: nat) returns (s: Step, next: Cap)
    requires w > 0 && n <= w && ValidSpace(mem, w) && ValidCap(mem, root, w) && Matches(root, c, n)
    ensures Reads(c, n, s) && s.node == root && s.index < Pow2(root.radix) && Slot(root, s.index) in mem
    ensures next == mem[Slot(root, s.index)] && ValidCap(mem, next, w)
    ensures var left := n - LevelBits(root);
            Resolve(mem, root, c, n, w) == if left > 0 && next.CNodeCap? then Resolve(mem, next, c, left, w)
                                           else Found(Slot(root, s.index), left)
  {
    GuardRead(c, n, root.guardSize, w);
    s := Step(root, SlowOffset(c, n, LevelBits(root), root.radix));
    next := mem[Slot(root, s.index)];
  }

  /** Every lookup follows a path whose address begins the bits looked up, and ends where the bits are used up, where
      there is no CNode to go on in, or where the next CNode does not match; the bits that are left are reported. */
  lemma {:induction false} ResolveFollows(mem: Memory, root: Cap, c: nat, n: nat, w: nat)
    returns (steps: seq<Step>, end: Cap)
    requires w > 0 && n <= w && ValidSpace(mem, w) && ValidCap(mem, root, w)
    ensures Walk(mem, root, steps, end) && Spells(c, n, steps)
    ensures Ends(mem, root, steps, end, c, n, Resolve(mem, root, c, n, w))
    decreases n
  {
    if Matches(root, c, n) {
      var s, next := MatchSteps(mem, root, c, n, w);
      var left := n - LevelBits(root);
      steps, end := [], next;
      if left > 0 && next.CNodeCap? {
        steps, end := ResolveFollows(mem, next, c, left, w);
        EndsMore(mem, s, next, steps, end, c, n, Resolve(mem, next, c, left, w));
      }
      SpellsMore(c, n, s, steps);
      assert ([s] + steps)[1..] == steps;
      steps := [s] + steps;
    } else {
      steps, end := [], root;
      NoMatchEnds(mem, root, c, n, w);
    }
  }

  lemma WalkSized(mem: Memory, root: Cap, steps: seq<Step>, end: Cap, w: nat)
    requires ValidSpace(mem, w) && ValidCap(mem, root, w) && Walk(mem, root, steps, end)
    ensures Sized(steps) && |steps| <= Width(steps)
    decreases |steps|
  {
    if steps != [] {
      WalkSized(mem, mem[Slot(root, steps[0].index)], steps[1..], end, w);
      assert forall i :: 0 < i < |steps| ==> steps[i] == steps[1..][i - 1];
    }
  }

  /** And a path whose address begins the bits looked up is found: at its end the lookup stops, with the bits that are
      left, if there are none or no CNode is there to go on in. */
  lemma {:induction false} AddressResolves(mem: Memory, root: Cap, steps: seq<Step>, end: Cap, c: nat, n: nat, w: nat)
    requires w > 0 && n <= w && ValidSpace(mem, w) && ValidCap(mem, root, w) && steps != []
    requires Walk(mem, root, steps, end) && Spells(c, n, steps) && (n == Width(steps) || !end.CNodeCap?)
    ensures Last(steps).node.CNodeCap?
    ensures Resolve(mem, root, c, n, w) == Found(Slot(Last(steps).node, Last(steps).index), n - Width(steps))
    decreases |steps|
  {
    WalkSized(mem, root, steps, end, w);
    SpellsLess(c, n, steps);
    var s, next := MatchSteps(mem, root, c, n, w);
    assert s == steps[0];
    if steps[1..] != [] {
      WalkSized(mem, next, steps[1..], end, w);
      AddressResolves(mem, next, steps[1..], end, c, n - LevelBits(root), w);
      assert Last(steps) == Last(steps[1..]);
    }
  }
}
