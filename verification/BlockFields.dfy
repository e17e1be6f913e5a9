/** The blocks of the bitfield generator: how fields are laid out, and the constructor, readers and
    writers that are generated for them (kernel/tools/bitfield_gen.py). A field is described by the
    bits it takes in its word and the bits of the value that go there. */
module BlockFields {
  import opened Words

  /** The word size, and for high fields the size and the sign extension of a value. */
  datatype Base = Base(width: nat, bits: nat, signExtend: bool)

  /** A declared field, or padding, which has no name. */
  datatype Decl = Decl(named: bool, size: nat, high: bool)

  datatype Field = Field(offset: nat, size: nat, high: bool)

  // ----- layout -----

  function Total(decls: seq<Decl>): nat {
    if decls == [] then 0 else decls[0].size + Total(decls[1..])
  }

  /** Each field lies just above all that is declared after it. */
  function Laid(decls: seq<Decl>): seq<Field> {
    if decls == [] then []
    else (if decls[0].named then [Field(Total(decls[1..]), decls[0].size, decls[0].high)] else []) + Laid(decls[1..])
  }

  /** The constructor of a block: sums the sizes, then places the fields from the top down. */
  method LayOut(decls: seq<Decl>) returns (size: nat, fields: seq<Field>)
    ensures size == Total(decls) && fields == Laid(decls)
  {
    size := 0;
    for i := |decls| downto 0
      invariant size == Total(decls[i..])
    {
      assert decls[i..][1..] == decls[i + 1..];
      size := decls[i].size + size;
    }
    assert decls[0..] == decls;
    var offset := size;
    fields := [];
    for i := 0 to |decls|
      invariant offset == Total(decls[i..])
      invariant fields + Laid(decls[i..]) == Laid(decls)
    {
      assert decls[i..][1..] == decls[i + 1..];
      offset := offset - decls[i].size;
      if decls[i].named {
        fields := fields + [Field(offset, decls[i].size, decls[i].high)];
      }
    }
    assert decls[|decls|..] == [];
  }

  /** The two fields have no bit of the block in common. */
  predicate Apart(f: Field, g: Field) {
    f.offset + f.size <= g.offset || g.offset + g.size <= f.offset
  }

  ghost predicate AllApart(fields: seq<Field>) {
    forall i, j :: 0 <= i < |fields| && 0 <= j < |fields| && i != j ==> Apart(fields[i], fields[j])
  }

  lemma {:induction false} LaidWithin(decls: seq<Decl>, k: nat)
    requires k < |Laid(decls)|
    ensures Laid(decls)[k].offset + Laid(decls)[k].size <= Total(decls)
  {
    var n := if decls[0].named then 1 else 0;
    if k >= n { LaidWithin(decls[1..], k - n); }
  }

  /** No two fields of a block overlap. */
  lemma {:induction false} LaidApart(decls: seq<Decl>)
    ensures AllApart(Laid(decls))
  {
    if decls != [] {
      LaidApart(decls[1..]);
      var fields, rest := Laid(decls), Laid(decls[1..]);
      var n := if decls[0].named then 1 else 0;
      forall i, j | 0 <= i < j < |fields| ensures Apart(fields[i], fields[j]) && Apart(fields[j], fields[i]) {
        if i < n { LaidWithin(decls[1..], j - n); } else { assert Apart(rest[i - n], rest[j - n]); }
      }
    }
  }

  // ----- where a field lies -----

  /** What `set_base` checks of a field, and that its mask can be generated. */
  predicate FieldOk(f: Field, b: Base)
    requires b.width > 0
  {
    && f.offset / b.width == (f.offset + f.size - 1) / b.width
    && (f.high && f.size < b.width ==> f.size <= b.bits)
  }

  ghost predicate BlockOk(fields: seq<Field>, b: Base) {
    0 < b.bits <= b.width && AllApart(fields) && forall i :: 0 <= i < |fields| ==> FieldOk(fields[i], b)
  }

  function Index(f: Field, b: Base): nat
    requires b.width > 0
  {
    DivModSplit(f.offset, b.width);
    f.offset / b.width
  }

  /** The lowest bit of the field in its word, and the bit of the value that goes there. */
  function Low(f: Field, b: Base): nat
    requires b.width > 0
  {
    f.offset % b.width
  }

  function From(f: Field, b: Base): int {
    if f.high then b.bits - f.size else 0
  }

  /** How far a value is shifted right on its way into the word. */
  function Delta(f: Field, b: Base): int
    requires b.width > 0
  {
    From(f, b) - Low(f, b)
  }

  predicate InWord(f: Field, b: Base, k: int)
    requires b.width > 0
  {
    Low(f, b) <= k < Low(f, b) + f.size
  }

  predicate InValue(f: Field, b: Base, j: int) {
    From(f, b) <= j < From(f, b) + f.size
  }

  lemma {:induction false} FieldFits(f: Field, b: Base)
    requires b.width > 0 && FieldOk(f, b)
    ensures Low(f, b) + f.size <= b.width
  {
    if f.size > 0 {
      DivModSplit(f.offset, b.width);
      DivModSplit(f.offset + f.size - 1, b.width);
    }
  }

  /** Fields that are apart in the block are apart in a word they share. */
  lemma {:induction false} ApartInWord(f: Field, g: Field, b: Base, k: nat)
    requires b.width > 0 && Apart(f, g) && Index(f, b) == Index(g, b) && InWord(f, b, k)
    ensures !InWord(g, b, k)
  {
    DivModSplit(f.offset, b.width);
    DivModSplit(g.offset, b.width);
  }

  /** `set_base` accepts the block. */
  ghost predicate BlockAccepted(decls: seq<Decl>, b: Base) {
    && 0 < b.bits <= b.width && Total(decls) % b.width == 0
    && forall i :: 0 <= i < |Laid(decls)| ==> FieldOk(Laid(decls)[i], b)
  }

  /** The fields in the order in which the constructor takes them. */
  function Visible(fields: seq<Field>, order: seq<nat>): (r: seq<Field>)
    requires forall i :: 0 <= i < |order| ==> order[i] < |fields|
  {
    seq(|order|, i requires 0 <= i < |order| => fields[order[i]])
  }

  ghost predicate Distinct(order: seq<nat>, n: nat) {
    && (forall i :: 0 <= i < |order| ==> order[i] < n)
    && (forall i, j :: 0 <= i < |order| && 0 <= j < |order| && i != j ==> order[i] != order[j])
  }

  /** `fields` are the fields of an accepted block in some order, and `count` is the number of its words. */
  ghost predicate IsBlock(decls: seq<Decl>, b: Base, order: seq<nat>, fields: seq<Field>, count: nat) {
    && BlockAccepted(decls, b) && Distinct(order, |Laid(decls)|)
    && fields == Visible(Laid(decls), order) && count == Total(decls) / b.width
  }

  /** The fields of an accepted block, in any order, are apart and within its words. */
  lemma {:induction false} AcceptedOk(decls: seq<Decl>, b: Base, order: seq<nat>, fields: seq<Field>, count: nat)
    requires IsBlock(decls, b, order, fields, count)
    ensures BlockOk(fields, b) && forall i :: 0 <= i < |fields| ==> Index(fields[i], b) < count
  {
    var laid := Laid(decls);
    LaidApart(decls);
    forall i | 0 <= i < |order| ensures Index(laid[order[i]], b) < count {
      LaidWithin(decls, order[i]);
      WithinWords(laid[order[i]], Total(decls), b);
    }
  }

  lemma {:induction false} WithinWords(f: Field, total: nat, b: Base)
    requires b.width > 0 && FieldOk(f, b) && f.offset + f.size <= total && total % b.width == 0
    ensures Index(f, b) < total / b.width
  {
    DivModSplit(f.offset, b.width);
    DivModSplit(total, b.width);
    if f.size == 0 { BelowMultiple(f.offset, b.width); }
    if Index(f, b) >= total / b.width { MulMono(total / b.width, f.offset / b.width, b.width); }
  }

  /** A field of size zero is accepted only above the bottom of its word. */
  lemma {:induction false} BelowMultiple(x: nat, d: nat)
    requires d > 0 && x / d == (x - 1) / d
    ensures x % d > 0
  {
    DivModSplit(x, d);
    if x % d == 0 { DivModUnique(x - 1, d, x / d - 1, d - 1); }
  }

  // ----- shifts and masks -----

  /** `v >> d`, or `v << -d` in a word. */
  function Move(v: nat, d: int, width: nat): nat {
    if d >= 0 then Shr(v, d) else And(Shl(v, -d), Pow2(width) - 1)
  }

  lemma {:induction false} NoBitBeyond(v: nat, width: nat, i: nat)
    requires v < Pow2(width) && width <= i
    ensures !Bit(v, i)
  {
    Pow2Mono(width, i);
    SmallHasNoBit(v, i);
  }

  lemma {:induction false} BitMove(v: nat, d: int, width: nat, i: nat)
    requires v < Pow2(width)
    ensures Bit(Move(v, d, width), i) <==> i < width && i + d >= 0 && Bit(v, i + d)
  {
    if d >= 0 {
      BitShr(v, d, i);
      if i >= width { NoBitBeyond(v, width, i + d); }
    } else {
      BitAnd(Shl(v, -d), Pow2(width) - 1, i);
      BitShl(v, -d, i);
      BitOnes(width, i);
    }
  }

  /** `((1 << size) - 1) << at` */
  function Mask(size: nat, at: nat): nat {
    Shl(Pow2(size) - 1, at)
  }

  lemma {:induction false} BitMask(size: nat, at: nat, i: nat)
    ensures Bit(Mask(size, at), i) <==> at <= i < at + size
  {
    BitShl(Pow2(size) - 1, at, i);
    if i >= at { BitOnes(size, i - at); }
  }

  /** A word has no bit at or above its width. */
  lemma {:induction false} WordFromBits(x: nat, width: nat)
    requires forall i: nat :: Bit(x, i) ==> i < width
    ensures x < Pow2(width)
  {
    forall i: nat ensures Bit(And(x, Pow2(width) - 1), i) == Bit(x, i) {
      BitAnd(x, Pow2(width) - 1, i);
      BitOnes(width, i);
    }
    BitsExtensional(And(x, Pow2(width) - 1), x);
    AndMask(x, width);
  }

  // ----- the constructor -----

  /** The bits of `v` from `from` on, `size` of them, moved to `low`; a field that fills the word is not masked. */
  function Placed(v: nat, size: nat, from: int, low: nat, width: nat): nat
    requires size < width ==> from >= 0
  {
    if size < width then Move(And(v, Mask(size, from)), from - low, width) else Move(v, from - low, width)
  }

  lemma {:induction false} BitPlaced(v: nat, size: nat, from: int, low: nat, width: nat, k: nat)
    requires v < Pow2(width) && low + size <= width && (size < width ==> from >= 0)
    ensures Bit(Placed(v, size, from, low, width), k)
       <==> low <= k < low + size && k + from - low >= 0 && Bit(v, k + from - low)
  {
    if size < width {
      AndSmall(v, Mask(size, from), width);
      BitMove(And(v, Mask(size, from)), from - low, width, k);
      if k + from - low >= 0 {
        BitAnd(v, Mask(size, from), k + from - low);
        BitMask(size, from, k + from - low);
      }
    } else {
      BitMove(v, from - low, width, k);
    }
  }

  /** What the constructor puts in for one field. */
  function Part(f: Field, v: nat, b: Base): nat
    requires b.width > 0 && FieldOk(f, b)
  {
    Placed(v, f.size, From(f, b), Low(f, b), b.width)
  }

  /** Its bits are the value's, moved into the field. */
  lemma {:induction false} BitPart(f: Field, v: nat, b: Base, k: nat)
    requires b.width > 0 && FieldOk(f, b) && v < Pow2(b.width)
    ensures Bit(Part(f, v, b), k) <==> InWord(f, b, k) && k + Delta(f, b) >= 0 && Bit(v, k + Delta(f, b))
  {
    FieldFits(f, b);
    BitPlaced(v, f.size, From(f, b), Low(f, b), b.width, k);
  }

  lemma {:induction false} AndSmall(v: nat, m: nat, width: nat)
    requires v < Pow2(width)
    ensures And(v, m) < Pow2(width)
  {
    forall i: nat | Bit(And(v, m), i) ensures i < width {
      BitAnd(v, m, i);
      if i >= width { NoBitBeyond(v, width, i); }
    }
    WordFromBits(And(v, m), width);
  }

  /** Word `index` of a new block: the parts of its fields, or-ed. */
  function NewWord(fields: seq<Field>, values: seq<nat>, index: nat, b: Base): nat
    requires b.width > 0 && |values| == |fields| && forall i :: 0 <= i < |fields| ==> FieldOk(fields[i], b)
  {
    if fields == [] then 0
    else
      var n := |fields| - 1;
      var rest := NewWord(fields[..n], values[..n], index, b);
      if Index(fields[n], b) == index then Or(rest, Part(fields[n], values[n], b)) else rest
  }

  function New(fields: seq<Field>, values: seq<nat>, count: nat, b: Base): seq<nat>
    requires b.width > 0 && |values| == |fields| && forall i :: 0 <= i < |fields| ==> FieldOk(fields[i], b)
  {
    seq(count, index requires 0 <= index => NewWord(fields, values, index, b))
  }

  ghost predicate WordValues(values: seq<nat>, b: Base) {
    forall i :: 0 <= i < |values| ==> values[i] < Pow2(b.width)
  }

  lemma {:induction false} NoBitNewWord(fields: seq<Field>, values: seq<nat>, b: Base, f: Field, k: nat)
    requires b.width > 0 && |values| == |fields| && WordValues(values, b) && InWord(f, b, k)
    requires forall i :: 0 <= i < |fields| ==> FieldOk(fields[i], b) && Apart(fields[i], f)
    ensures !Bit(NewWord(fields, values, Index(f, b), b), k)
  {
    if fields == [] {
      SmallHasNoBit(0, k);
    } else {
      var n := |fields| - 1;
      NoBitNewWord(fields[..n], values[..n], b, f, k);
      OneMore(fields, values, b, f, k);
    }
  }

  /** The last field adds its own bits, in its word and only there. */
  lemma {:induction false} OneMore(fields: seq<Field>, values: seq<nat>, b: Base, f: Field, k: nat)
    requires b.width > 0 && fields != [] && |values| == |fields| && WordValues(values, b) && InWord(f, b, k)
    requires forall i :: 0 <= i < |fields| ==> FieldOk(fields[i], b)
    ensures var n := |fields| - 1;
            var rest := NewWord(fields[..n], values[..n], Index(f, b), b);
            var all := NewWord(fields, values, Index(f, b), b);
            && (Apart(fields[n], f) ==> Bit(all, k) == Bit(rest, k))
            && (fields[n] == f ==> Bit(all, k) == (Bit(rest, k) || Bit(Part(f, values[n], b), k)))
  {
    var n := |fields| - 1;
    if Index(fields[n], b) == Index(f, b) {
      BitOr(NewWord(fields[..n], values[..n], Index(f, b), b), Part(fields[n], values[n], b), k);
      BitPart(fields[n], values[n], b, k);
      if Apart(fields[n], f) { ApartInWord(f, fields[n], b, k); }
    }
  }

  /** In a field, the new word has the field's part: the fields or-ed in before and after do not reach there. */
  lemma {:induction false} BitNewWord(fields: seq<Field>, values: seq<nat>, b: Base, i: nat, k: nat)
    requires BlockOk(fields, b) && |values| == |fields| && WordValues(values, b)
    requires i < |fields| && InWord(fields[i], b, k)
    ensures Bit(NewWord(fields, values, Index(fields[i], b), b), k) <==> Bit(Part(fields[i], values[i], b), k)
  {
    var n := |fields| - 1;
    if i == n {
      NoBitNewWord(fields[..n], values[..n], b, fields[n], k);
    } else {
      assert BlockOk(fields[..n], b) && Apart(fields[n], fields[i]);
      BitNewWord(fields[..n], values[..n], b, i, k);
    }
    OneMore(fields, values, b, fields[i], k);
  }

  // ----- the readers -----

  predicate Extends(f: Field, b: Base) {
    b.signExtend && f.high
  }

  function HighBits(b: Base): nat
    requires b.bits <= b.width
  {
    Mask(b.width - b.bits, b.bits)
  }

  /** The field's bits, moved back, before any sign extension. */
  function Raw(word: nat, f: Field, b: Base): nat
    requires b.width > 0
  {
    Move(And(word, Mask(f.size, Low(f, b))), -Delta(f, b), b.width)
  }

  function GetWord(word: nat, f: Field, b: Base): nat
    requires 0 < b.bits <= b.width
  {
    var ret := Raw(word, f, b);
    if Extends(f, b) && Bit(ret, b.bits - 1) then Or(ret, HighBits(b)) else ret
  }

  function Get(words: seq<nat>, f: Field, b: Base): nat
    requires 0 < b.bits <= b.width && Index(f, b) < |words|
  {
    GetWord(words[Index(f, b)], f, b)
  }

  lemma {:induction false} BitRaw(word: nat, f: Field, b: Base, j: nat)
    requires b.width > 0 && FieldOk(f, b) && word < Pow2(b.width)
    ensures Bit(Raw(word, f, b), j)
       <==> j < b.width && InValue(f, b, j) && j - Delta(f, b) >= 0 && Bit(word, j - Delta(f, b))
  {
    var low, d := Low(f, b), Delta(f, b);
    AndSmall(word, Mask(f.size, low), b.width);
    BitMove(And(word, Mask(f.size, low)), -d, b.width, j);
    if j - d >= 0 {
      BitAnd(word, Mask(f.size, low), j - d);
      BitMask(f.size, low, j - d);
    }
  }

  /** What bit `j` of a value is outside the field's own bits, if the reader is to return the value. */
  ghost predicate Fill(f: Field, b: Base, v: nat, j: nat)
    requires 0 < b.bits
  {
    Extends(f, b) && b.bits <= j < b.width && Bit(v, b.bits - 1)
  }

  /** The field can hold the value: all its other bits are zero, or copies of the sign. */
  ghost predicate Representable(f: Field, b: Base, v: nat)
    requires 0 < b.bits
  {
    forall j: nat :: !InValue(f, b, j) ==> Bit(v, j) == Fill(f, b, v, j)
  }

  /** The field's bits in the word are the value's. */
  ghost predicate Holds(word: nat, f: Field, b: Base, v: nat)
    requires b.width > 0
  {
    forall k: nat :: InWord(f, b, k) ==> Bit(word, k) == (k + Delta(f, b) >= 0 && Bit(v, k + Delta(f, b)))
  }

  lemma {:induction false} BitRawHeld(word: nat, f: Field, b: Base, v: nat, j: nat)
    requires b.width > 0 && FieldOk(f, b) && word < Pow2(b.width) && v < Pow2(b.width) && Holds(word, f, b, v)
    ensures Bit(Raw(word, f, b), j) <==> InValue(f, b, j) && Bit(v, j)
  {
    BitRaw(word, f, b, j);
    if InValue(f, b, j) {
      var k: nat := j - Delta(f, b);
      assert InWord(f, b, k);
      if j >= b.width { NoBitBeyond(v, b.width, j); }
    }
  }

  lemma {:induction false} BitGet(word: nat, f: Field, b: Base, v: nat, j: nat)
    requires 0 < b.bits <= b.width && FieldOk(f, b) && Holds(word, f, b, v)
    requires word < Pow2(b.width) && v < Pow2(b.width)
    ensures Bit(GetWord(word, f, b), j)
       <==> (InValue(f, b, j) && Bit(v, j))
            || (InValue(f, b, b.bits - 1) && Fill(f, b, v, j))
  {
    var ret := Raw(word, f, b);
    BitRawHeld(word, f, b, v, j);
    BitRawHeld(word, f, b, v, b.bits - 1);
    BitOr(ret, HighBits(b), j);
    BitMask(b.width - b.bits, b.bits, j);
  }

  /** A reader returns the value its field holds exactly if the field can represent the value. */
  lemma {:induction false} ReadsIff(word: nat, f: Field, b: Base, v: nat)
    requires 0 < b.bits <= b.width && FieldOk(f, b) && Holds(word, f, b, v)
    requires word < Pow2(b.width) && v < Pow2(b.width)
    ensures GetWord(word, f, b) == v <==> Representable(f, b, v)
  {
    if Representable(f, b, v) {
      forall j: nat ensures Bit(GetWord(word, f, b), j) == Bit(v, j) {
        BitGet(word, f, b, v, j);
        assert !InValue(f, b, b.bits - 1) ==> Bit(v, b.bits - 1) == Fill(f, b, v, b.bits - 1);
      }
      BitsExtensional(GetWord(word, f, b), v);
    }
    if GetWord(word, f, b) == v {
      BitGet(word, f, b, v, b.bits - 1);
      forall j: nat | !InValue(f, b, j) ensures Bit(v, j) == Fill(f, b, v, j) {
        BitGet(word, f, b, v, j);
      }
    }
  }

  // ----- the constructor and the readers -----

  lemma {:induction false} NewWordSmall(fields: seq<Field>, values: seq<nat>, index: nat, b: Base)
    requires b.width > 0 && |values| == |fields| && WordValues(values, b)
    requires forall i :: 0 <= i < |fields| ==> FieldOk(fields[i], b)
    ensures NewWord(fields, values, index, b) < Pow2(b.width)
  {
    if fields != [] {
      var n := |fields| - 1;
      var rest := NewWord(fields[..n], values[..n], index, b);
      NewWordSmall(fields[..n], values[..n], index, b);
      FieldFits(fields[n], b);
      forall k: nat | Bit(Or(rest, Part(fields[n], values[n], b)), k) ensures k < b.width {
        BitOr(rest, Part(fields[n], values[n], b), k);
        BitPart(fields[n], values[n], b, k);
        if k >= b.width { NoBitBeyond(rest, b.width, k); }
      }
      WordFromBits(Or(rest, Part(fields[n], values[n], b)), b.width);
    }
  }

  /** In a new block every field holds its value. */
  lemma {:induction false} NewHolds(fields: seq<Field>, values: seq<nat>, count: nat, b: Base, i: nat)
    requires BlockOk(fields, b) && |values| == |fields| && WordValues(values, b)
    requires i < |fields| && Index(fields[i], b) < count
    ensures var word := New(fields, values, count, b)[Index(fields[i], b)];
            word < Pow2(b.width) && Holds(word, fields[i], b, values[i])
  {
    var f := fields[i];
    NewWordSmall(fields, values, Index(f, b), b);
    forall k: nat | InWord(f, b, k)
      ensures Bit(NewWord(fields, values, Index(f, b), b), k)
           == (k + Delta(f, b) >= 0 && Bit(values[i], k + Delta(f, b)))
    {
      BitNewWord(fields, values, b, i, k);
      BitPart(f, values[i], b, k);
    }
  }

  /** A new block gives back the value of each field exactly if the field can represent it, whatever the
      values of the others. */
  lemma {:induction false} NewReadsIff(fields: seq<Field>, values: seq<nat>, count: nat, b: Base, i: nat)
    requires BlockOk(fields, b) && |values| == |fields| && WordValues(values, b)
    requires i < |fields| && Index(fields[i], b) < count
    ensures Get(New(fields, values, count, b), fields[i], b) == values[i]
       <==> Representable(fields[i], b, values[i])
  {
    NewHolds(fields, values, count, b, i);
    ReadsIff(New(fields, values, count, b)[Index(fields[i], b)], fields[i], b, values[i]);
  }

  /** The constructor's assertion on a field that does not fill its word. */
  predicate NewAsserts(f: Field, v: nat, b: Base)
    requires 0 < b.bits <= b.width && FieldOk(f, b) && f.size < b.width
  {
    AndNot(v, Mask(f.size, From(f, b)))
    == if b.signExtend && Bit(v, b.bits - 1) then (if f.high then HighBits(b) else 0) else 0
  }

  /** It lets through exactly the values the field can represent. */
  lemma {:induction false} NewAssertsIff(f: Field, v: nat, b: Base)
    requires 0 < b.bits <= b.width && FieldOk(f, b) && f.size < b.width
    ensures NewAsserts(f, v, b) <==> Representable(f, b, v)
  {
    var mask := Mask(f.size, From(f, b));
    var fill := if b.signExtend && Bit(v, b.bits - 1) then (if f.high then HighBits(b) else 0) else 0;
    forall j: nat
      ensures Bit(AndNot(v, mask), j) == (Bit(v, j) && !InValue(f, b, j)) && Bit(fill, j) == Fill(f, b, v, j)
    {
      BitAndNot(v, mask, j);
      BitMask(f.size, From(f, b), j);
      BitMask(b.width - b.bits, b.bits, j);
      SmallHasNoBit(0, j);
    }
    if NewAsserts(f, v, b) {
      forall j: nat | !InValue(f, b, j) ensures Bit(v, j) == Fill(f, b, v, j) {
        assert Bit(AndNot(v, mask), j) == Bit(fill, j);
      }
    }
    if Representable(f, b, v) {
      forall j: nat ensures Bit(AndNot(v, mask), j) == Bit(fill, j) {
        assert InValue(f, b, j) ==> !Fill(f, b, v, j);
      }
      BitsExtensional(AndNot(v, mask), fill);
    }
  }

  // ----- the writers -----

  function SetWord(word: nat, f: Field, v: nat, b: Base): nat
    requires b.width > 0
  {
    var mask := Mask(f.size, Low(f, b));
    Or(AndNot(word, mask), And(Move(v, Delta(f, b), b.width), mask))
  }

  function Set(words: seq<nat>, f: Field, v: nat, b: Base): seq<nat>
    requires b.width > 0 && Index(f, b) < |words|
  {
    words[Index(f, b) := SetWord(words[Index(f, b)], f, v, b)]
  }

  lemma {:induction false} BitSet(word: nat, f: Field, v: nat, b: Base, k: nat)
    requires b.width > 0 && FieldOk(f, b) && v < Pow2(b.width)
    ensures Bit(SetWord(word, f, v, b), k)
       <==> if InWord(f, b, k) then k + Delta(f, b) >= 0 && Bit(v, k + Delta(f, b)) else Bit(word, k)
  {
    FieldFits(f, b);
    var low, d := Low(f, b), Delta(f, b);
    var mask := Mask(f.size, low);
    BitOr(AndNot(word, mask), And(Move(v, d, b.width), mask), k);
    BitAndNot(word, mask, k);
    BitAnd(Move(v, d, b.width), mask, k);
    BitMove(v, d, b.width, k);
    BitMask(f.size, low, k);
  }

  lemma {:induction false} SetSmall(word: nat, f: Field, v: nat, b: Base)
    requires b.width > 0 && FieldOk(f, b) && v < Pow2(b.width) && word < Pow2(b.width)
    ensures SetWord(word, f, v, b) < Pow2(b.width)
  {
    FieldFits(f, b);
    forall k: nat | Bit(SetWord(word, f, v, b), k) ensures k < b.width {
      BitSet(word, f, v, b, k);
      if k >= b.width { NoBitBeyond(word, b.width, k); }
    }
    WordFromBits(SetWord(word, f, v, b), b.width);
  }

  lemma {:induction false} SetHolds(word: nat, f: Field, v: nat, b: Base)
    requires b.width > 0 && FieldOk(f, b) && v < Pow2(b.width)
    ensures Holds(SetWord(word, f, v, b), f, b, v)
  {
    forall k: nat | InWord(f, b, k)
      ensures Bit(SetWord(word, f, v, b), k) == (k + Delta(f, b) >= 0 && Bit(v, k + Delta(f, b)))
    {
      BitSet(word, f, v, b, k);
    }
  }

  /** A writer leaves the bits of every other field as they are. */
  lemma {:induction false} SetKeeps(words: seq<nat>, f: Field, v: nat, g: Field, b: Base, k: nat)
    requires b.width > 0 && FieldOk(f, b) && v < Pow2(b.width) && Apart(f, g) && InWord(g, b, k)
    requires Index(f, b) < |words| && Index(g, b) < |words|
    ensures Bit(Set(words, f, v, b)[Index(g, b)], k) == Bit(words[Index(g, b)], k)
  {
    if Index(f, b) == Index(g, b) {
      BitSet(words[Index(f, b)], f, v, b, k);
      ApartInWord(g, f, b, k);
    }
  }

  /** Every bit of the word that is not in the field. */
  function Outside(f: Field, b: Base): nat
    requires b.width > 0
  {
    AndNot(Pow2(b.width) - 1, Mask(f.size, Low(f, b)))
  }

  function Extension(f: Field, b: Base): nat
    requires b.bits <= b.width
  {
    if Extends(f, b) then HighBits(b) else 0
  }

  /** The writer's assertion. */
  predicate SetAsserts(f: Field, v: nat, b: Base)
    requires 0 < b.bits <= b.width
  {
    And(Or(Move(Outside(f, b), -Delta(f, b), b.width), Extension(f, b)), v)
    == if Extends(f, b) && Bit(v, b.bits - 1) then HighBits(b) else 0
  }

  /** The value's bits that the assertion looks at. */
  predicate Seen(f: Field, b: Base, j: int)
    requires b.width > 0
  {
    Delta(f, b) <= j < Delta(f, b) + b.width || (Extends(f, b) && b.bits <= j)
  }

  lemma {:induction false} BitOutside(f: Field, b: Base, j: nat)
    requires b.width > 0
    ensures Bit(Move(Outside(f, b), -Delta(f, b), b.width), j)
       <==> j < b.width && 0 <= j - Delta(f, b) < b.width && !InValue(f, b, j)
  {
    var mask, d := Mask(f.size, Low(f, b)), Delta(f, b);
    forall k: nat ensures Bit(Outside(f, b), k) == (k < b.width && !InWord(f, b, k)) {
      BitAndNot(Pow2(b.width) - 1, mask, k);
      BitOnes(b.width, k);
      BitMask(f.size, Low(f, b), k);
    }
    WordFromBits(Outside(f, b), b.width);
    BitMove(Outside(f, b), -d, b.width, j);
  }

  /** The assertion decides what it should of the bits it looks at. */
  lemma {:induction false} SetAssertsIff(f: Field, v: nat, b: Base)
    requires 0 < b.bits <= b.width && FieldOk(f, b) && v < Pow2(b.width)
    ensures SetAsserts(f, v, b)
       <==> forall j: nat :: Seen(f, b, j) && !InValue(f, b, j) ==> Bit(v, j) == Fill(f, b, v, j)
  {
    var test := Or(Move(Outside(f, b), -Delta(f, b), b.width), Extension(f, b));
    var fill := if Extends(f, b) && Bit(v, b.bits - 1) then HighBits(b) else 0;
    forall j: nat
      ensures Bit(And(test, v), j) == (Seen(f, b, j) && !InValue(f, b, j) && Bit(v, j))
      ensures Bit(fill, j) == Fill(f, b, v, j)
    {
      BitAnd(test, v, j);
      BitOr(Move(Outside(f, b), -Delta(f, b), b.width), Extension(f, b), j);
      BitOutside(f, b, j);
      BitMask(b.width - b.bits, b.bits, j);
      SmallHasNoBit(0, j);
      if j >= b.width { NoBitBeyond(v, b.width, j); }
    }
    if SetAsserts(f, v, b) {
      forall j: nat | Seen(f, b, j) && !InValue(f, b, j) ensures Bit(v, j) == Fill(f, b, v, j) {
        assert Bit(And(test, v), j) == Bit(fill, j);
      }
    } else if forall j: nat :: Seen(f, b, j) && !InValue(f, b, j) ==> Bit(v, j) == Fill(f, b, v, j) {
      forall j: nat ensures Bit(And(test, v), j) == Bit(fill, j) {
        assert Fill(f, b, v, j) ==> Seen(f, b, j) && !InValue(f, b, j);
      }
      BitsExtensional(And(test, v), fill);
    }
  }

  /** No bit of the value is shifted out of the word unseen. */
  ghost predicate NothingLost(f: Field, b: Base, v: nat)
    requires b.width > 0
  {
    forall j: nat :: Bit(v, j) ==> Seen(f, b, j)
  }

  lemma {:induction false} RepresentableIff(f: Field, v: nat, b: Base)
    requires 0 < b.bits <= b.width && FieldOk(f, b) && v < Pow2(b.width)
    ensures Representable(f, b, v) <==> SetAsserts(f, v, b) && NothingLost(f, b, v)
  {
    SetAssertsIff(f, v, b);
    FieldFits(f, b);
    assert forall j: nat :: InValue(f, b, j) || Fill(f, b, v, j) ==> Seen(f, b, j);
    if Representable(f, b, v) {
      forall j: nat | Bit(v, j) ensures Seen(f, b, j) {
        assert InValue(f, b, j) || Fill(f, b, v, j);
      }
    }
    if SetAsserts(f, v, b) && NothingLost(f, b, v) {
      forall j: nat | !InValue(f, b, j) ensures Bit(v, j) == Fill(f, b, v, j) {}
    }
  }

  /** What a writer that passed its assertion wrote is read back exactly if no bit was shifted out unseen. */
  lemma {:induction false} SetReadsIff(words: seq<nat>, f: Field, v: nat, b: Base)
    requires 0 < b.bits <= b.width && FieldOk(f, b) && v < Pow2(b.width)
    requires Index(f, b) < |words| && WordValues(words, b)
    ensures Get(Set(words, f, v, b), f, b) == v <==> Representable(f, b, v)
    ensures SetAsserts(f, v, b) ==> (Get(Set(words, f, v, b), f, b) == v <==> NothingLost(f, b, v))
  {
    var word := words[Index(f, b)];
    SetSmall(word, f, v, b);
    SetHolds(word, f, v, b);
    ReadsIff(SetWord(word, f, v, b), f, b, v);
    RepresentableIff(f, v, b);
  }

  /** For a field that is not high: exactly the values below `2^(width - low)` pass unharmed if they pass. */
  lemma {:induction false} NothingLostLow(f: Field, v: nat, b: Base)
    requires b.width > 0 && !f.high
    ensures Low(f, b) <= b.width && (NothingLost(f, b, v) <==> v < Pow2(b.width - Low(f, b)))
  {
    DivModSplit(f.offset, b.width);
    var top := b.width - Low(f, b);
    if NothingLost(f, b, v) { WordFromBits(v, top); }
    if v < Pow2(top) {
      forall j: nat | Bit(v, j) ensures Seen(f, b, j) {
        if j >= top { NoBitBeyond(v, top, j); }
      }
    }
  }

  /** For every field that is neither high nor at the bottom of its word, there is a value that passes the
      assertion and is not read back. */
  lemma {:induction false} SetLoses(words: seq<nat>, f: Field, b: Base)
    requires 0 < b.bits <= b.width && FieldOk(f, b) && !f.high && Low(f, b) > 0
    requires Index(f, b) < |words| && WordValues(words, b)
    ensures Low(f, b) <= b.width
    ensures var v := Pow2(b.width - Low(f, b));
            v < Pow2(b.width) && SetAsserts(f, v, b) && Get(Set(words, f, v, b), f, b) != v
  {
    NothingLostLow(f, 0, b);
    var t := b.width - Low(f, b);
    Pow2Mono(t, b.width);
    forall j: nat ensures Bit(Pow2(t), j) == (j == t) { BitPow2(t, j); }
    SetAssertsIff(f, Pow2(t), b);
    NothingLostLow(f, Pow2(t), b);
    SetReadsIff(words, f, Pow2(t), b);
  }

  /** The top four bits of a 64-bit word: writing 16 passes the assertion, and zero is read back. */
  lemma {:induction false} SetLosesTop()
    ensures var f, b := Field(60, 4, false), Base(64, 64, false);
            FieldOk(f, b) && SetAsserts(f, 16, b) && Get(Set([0], f, 16, b), f, b) != 16
  {
    assert Pow2(4) == 16;
    SetLoses([0], Field(60, 4, false), Base(64, 64, false));
  }

  // ----- runs of writers -----

  /** A call of the writer of field `field`. */
  datatype Update = Update(field: nat, value: nat)

  ghost predicate UpdateOk(up: Update, fields: seq<Field>, b: Base) {
    up.field < |fields| && up.value < Pow2(b.width)
  }

  ghost predicate UpdatesOk(ups: seq<Update>, fields: seq<Field>, b: Base) {
    forall i :: 0 <= i < |ups| ==> UpdateOk(ups[i], fields, b)
  }

  ghost predicate WordsOk(words: seq<nat>, fields: seq<Field>, b: Base)
    requires b.width > 0
  {
    WordValues(words, b) && forall i :: 0 <= i < |fields| ==> Index(fields[i], b) < |words|
  }

  function After(words: seq<nat>, fields: seq<Field>, ups: seq<Update>, b: Base): (r: seq<nat>)
    requires BlockOk(fields, b) && WordsOk(words, fields, b) && UpdatesOk(ups, fields, b)
    ensures |r| == |words| && WordsOk(r, fields, b)
  {
    if ups == [] then words
    else
      var n := |ups| - 1;
      var before := After(words, fields, ups[..n], b);
      var f := fields[ups[n].field];
      SetWordsOk(before, fields, ups[n], b);
      Set(before, f, ups[n].value, b)
  }

  lemma {:induction false} SetWordsOk(words: seq<nat>, fields: seq<Field>, up: Update, b: Base)
    requires BlockOk(fields, b) && WordsOk(words, fields, b) && UpdateOk(up, fields, b)
    ensures WordsOk(Set(words, fields[up.field], up.value, b), fields, b)
  {
    var f := fields[up.field];
    SetSmall(words[Index(f, b)], f, up.value, b);
  }

  /** The value last written to a field, or `was` if none was. */
  function LastValue(ups: seq<Update>, field: nat, was: nat): nat {
    if ups == [] then was
    else if ups[|ups| - 1].field == field then ups[|ups| - 1].value
    else LastValue(ups[..|ups| - 1], field, was)
  }

  /** After any run of writers each field still holds what was last written to it. */
  lemma {:induction false} RunHolds(words: seq<nat>, fields: seq<Field>, ups: seq<Update>, b: Base, i: nat, v: nat)
    requires BlockOk(fields, b) && WordsOk(words, fields, b) && UpdatesOk(ups, fields, b)
    requires i < |fields| && Holds(words[Index(fields[i], b)], fields[i], b, v)
    ensures Holds(After(words, fields, ups, b)[Index(fields[i], b)], fields[i], b, LastValue(ups, i, v))
  {
    if ups != [] {
      var n := |ups| - 1;
      var before := After(words, fields, ups[..n], b);
      var f, g, value := fields[i], fields[ups[n].field], ups[n].value;
      RunHolds(words, fields, ups[..n], b, i, v);
      if ups[n].field == i {
        SetHolds(before[Index(f, b)], f, value, b);
      } else {
        forall k: nat | InWord(f, b, k)
          ensures Bit(Set(before, g, value, b)[Index(f, b)], k) == Bit(before[Index(f, b)], k)
        {
          SetKeeps(before, g, value, f, b, k);
        }
      }
    }
  }

  /** A block made by the constructor and changed by any run of writers: every reader returns the value last
      given to its field exactly if the field can represent that value. */
  lemma {:induction false} RunReadsIff(decls: seq<Decl>, order: seq<nat>, fields: seq<Field>, count: nat,
                                       values: seq<nat>, ups: seq<Update>, b: Base, i: nat)
    requires IsBlock(decls, b, order, fields, count) && i < |fields|
    requires |values| == |fields| && WordValues(values, b) && UpdatesOk(ups, fields, b)
    ensures BlockOk(fields, b) && WordsOk(New(fields, values, count, b), fields, b)
    ensures var v := LastValue(ups, i, values[i]);
            Get(After(New(fields, values, count, b), fields, ups, b), fields[i], b) == v
            <==> Representable(fields[i], b, v)
  {
    AcceptedOk(decls, b, order, fields, count);
    NewWordsOk(fields, values, count, b);
    var words := New(fields, values, count, b);
    NewHolds(fields, values, count, b, i);
    RunHolds(words, fields, ups, b, i, values[i]);
    LastSmall(ups, fields, b, i, values[i]);
    ReadsIff(After(words, fields, ups, b)[Index(fields[i], b)], fields[i], b, LastValue(ups, i, values[i]));
  }

  lemma {:induction false} LastSmall(ups: seq<Update>, fields: seq<Field>, b: Base, i: nat, v: nat)
    requires UpdatesOk(ups, fields, b) && v < Pow2(b.width)
    ensures LastValue(ups, i, v) < Pow2(b.width)
  {
    if ups != [] {
      assert UpdateOk(ups[|ups| - 1], fields, b);
      LastSmall(ups[..|ups| - 1], fields, b, i, v);
    }
  }

  /** New words are words. */
  lemma {:induction false} NewWordsOk(fields: seq<Field>, values: seq<nat>, count: nat, b: Base)
    requires BlockOk(fields, b) && |values| == |fields| && WordValues(values, b)
    requires forall i :: 0 <= i < |fields| ==> Index(fields[i], b) < count
    ensures WordsOk(New(fields, values, count, b), fields, b)
  {
    forall i | 0 <= i < count ensures New(fields, values, count, b)[i] < Pow2(b.width) {
      NewWordSmall(fields, values, i, b);
    }
  }
}
