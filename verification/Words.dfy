/** Powers of two, word arithmetic and single-bit reasoning on natural numbers.
    A C word operation is written out arithmetically: `x >> k` is `x / Pow2(k)`,
    `x & MASK(k)` is `x % Pow2(k)`, and `x << k` on a w-bit word is reduced modulo `Pow2(w)`. */
module Words {

  function Pow2(n: nat): (r: nat)
    ensures r >= 1
  {
    if n == 0 then 1 else 2 * Pow2(n - 1)
  }

  lemma {:induction false} Pow2Add(a: nat, b: nat)
    ensures Pow2(a + b) == Pow2(a) * Pow2(b)
  {
    if a == 0 {
    } else {
      Pow2Add(a - 1, b);
      MulAssoc(2, Pow2(a - 1), Pow2(b));
    }
  }

  lemma {:induction false} Pow2Mono(a: nat, b: nat)
    requires a <= b
    ensures Pow2(a) <= Pow2(b)
    ensures a < b ==> 2 * Pow2(a) <= Pow2(b)
    decreases b
  {
    if a < b { Pow2Mono(a, b - 1); }
  }

  lemma MulAssoc(a: int, b: int, c: int)
    ensures a * b * c == a * (b * c)
  {
  }

  lemma MulMono(a: int, b: int, c: int)
    requires a <= b && 0 <= c
    ensures a * c <= b * c
  {
  }

  lemma MulStrict(a: int, b: int, c: int)
    requires a < b && 0 < c
    ensures a * c < b * c
  {
  }

  /** Uniqueness of quotient and remainder: the way every shift and mask fact below is proved. */
  lemma DivModUnique(x: int, d: int, q: int, r: int)
    requires d > 0 && 0 <= r < d && x == q * d + r
    ensures x / d == q && x % d == r
  {
    var q', r' := x / d, x % d;
    assert x == q' * d + r';
    if q' < q {
      MulMono(q' + 1, q, d);
    } else if q < q' {
      MulMono(q + 1, q', d);
    }
  }

  lemma DivModSplit(x: nat, d: nat)
    requires d > 0
    ensures x == (x / d) * d + x % d && 0 <= x % d < d && 0 <= x / d
  {
  }

  /** `(x >> a) >> b == x >> (a + b)`. */
  lemma DivDiv(x: nat, a: nat, b: nat)
    requires a > 0 && b > 0
    ensures a * b > 0 && (x / a) / b == x / (a * b)
  {
    MulStrict(0, a, b);
    var q := x / a;
    var p := q / b;
    DivModSplit(x, a);
    DivModSplit(q, b);
    var r := (q % b) * a + x % a;
    assert x == p * (a * b) + r by {
      assert q == p * b + q % b;
      assert q * a == p * b * a + (q % b) * a;
      assert p * b * a == p * (a * b);
    }
    assert 0 <= r < a * b by {
      MulMono(q % b, b - 1, a);
      MulMono(0, q % b, a);
      assert (b - 1) * a == a * b - a;
    }
    DivModUnique(x, a * b, p, r);
  }

  lemma AddMultiple(lo: nat, q: nat, d: nat)
    requires d > 0
    ensures 0 <= q * d && (q * d + lo) / d == q + lo / d && (q * d + lo) % d == lo % d
  {
    MulMono(0, q, d);
    DivModSplit(lo, d);
    assert q * d + lo == (q + lo / d) * d + lo % d;
    DivModUnique(q * d + lo, d, q + lo / d, lo % d);
  }

  /** `x << k` on an unbounded word, and `x >> k`. */
  function Shl(x: nat, k: nat): nat {
    MulMono(0, x, Pow2(k));
    x * Pow2(k)
  }

  function Shr(x: nat, k: nat): nat {
    DivModSplit(x, Pow2(k));
    x / Pow2(k)
  }

  /** `x & MASK(k)`. */
  function LowBits(x: nat, k: nat): (r: nat)
    ensures r < Pow2(k)
  {
    DivModSplit(x, Pow2(k));
    x % Pow2(k)
  }

  /** Bit `i` of `x`. */
  predicate Bit(x: nat, i: nat) {
    if i == 0 then x % 2 == 1 else Bit(x / 2, i - 1)
  }

  lemma {:induction false} BitIsShiftAndMask(x: nat, i: nat)
    ensures Bit(x, i) == ((x / Pow2(i)) % 2 == 1)
  {
    if i == 0 {
      DivModUnique(x, 1, x, 0);
    } else {
      BitIsShiftAndMask(x / 2, i - 1);
      DivDiv(x, 2, Pow2(i - 1));
    }
  }

  lemma {:induction false} SmallHasNoBit(x: nat, i: nat)
    requires x < Pow2(i)
    ensures !Bit(x, i)
  {
    if i > 0 { SmallHasNoBit(x / 2, i - 1); }
  }

  /** A word is determined by its bits. */
  lemma {:induction false} BitsExtensional(x: nat, y: nat)
    requires forall i: nat :: Bit(x, i) == Bit(y, i)
    ensures x == y
    decreases x + y
  {
    if x != 0 || y != 0 {
      assert Bit(x, 0) == Bit(y, 0);
      forall i: nat ensures Bit(x / 2, i) == Bit(y / 2, i) {
        assert Bit(x, i + 1) == Bit(y, i + 1);
      }
      BitsExtensional(x / 2, y / 2);
    }
  }

  /** Bitwise conjunction and disjunction. */
  function And(a: nat, b: nat): nat {
    if a == 0 || b == 0 then 0
    else 2 * And(a / 2, b / 2) + (if a % 2 == 1 && b % 2 == 1 then 1 else 0)
  }

  function Or(a: nat, b: nat): nat {
    if a == 0 && b == 0 then 0
    else 2 * Or(a / 2, b / 2) + (if a % 2 == 1 || b % 2 == 1 then 1 else 0)
  }

  lemma {:induction false} BitAnd(a: nat, b: nat, i: nat)
    ensures Bit(And(a, b), i) == (Bit(a, i) && Bit(b, i))
  {
    if a == 0 { SmallHasNoBit(0, i); assert Pow2(i) >= 1; }
    else if b == 0 { SmallHasNoBit(0, i); }
    else if i > 0 { BitAnd(a / 2, b / 2, i - 1); }
  }

  lemma {:induction false} BitOr(a: nat, b: nat, i: nat)
    ensures Bit(Or(a, b), i) == (Bit(a, i) || Bit(b, i))
  {
    if a == 0 && b == 0 { SmallHasNoBit(0, i); }
    else if i > 0 { BitOr(a / 2, b / 2, i - 1); }
  }

  /** `x << k` moves every bit up by `k`. */
  lemma {:induction false} BitShl(x: nat, k: nat, i: nat)
    ensures Bit(Shl(x, k), i) == (i >= k && Bit(x, i - k))
  {
    if k > 0 {
      Doubling(x, Pow2(k - 1));
      assert Shl(x, k) == 2 * Shl(x, k - 1);
      if i > 0 { BitShl(x, k - 1, i - 1); }
    }
  }

  /** `x >> k` moves every bit down by `k`. */
  lemma {:induction false} BitShr(x: nat, k: nat, i: nat)
    ensures Bit(Shr(x, k), i) == Bit(x, i + k)
  {
    if k == 0 {
      DivModUnique(x, 1, x, 0);
    } else {
      DivDiv(x, 2, Pow2(k - 1));
      BitShr(x / 2, k - 1, i);
    }
  }

  /** `MASK(k)` is the word whose bits below `k` are set. */
  lemma {:induction false} BitOnes(k: nat, i: nat)
    ensures Bit(Pow2(k) - 1, i) == (i < k)
  {
    if k == 0 { SmallHasNoBit(0, i); }
    else if i > 0 { BitOnes(k - 1, i - 1); }
  }

  /** `x & MASK(k)` keeps the bits below `k`, which is the remainder modulo `2^k`. */
  lemma {:induction false} AndMask(x: nat, k: nat)
    ensures And(x, Pow2(k) - 1) == x % Pow2(k)
  {
    if k == 0 || x == 0 {
      DivModUnique(x, Pow2(k), if k == 0 then x else 0, 0);
    } else {
      AndMask(x / 2, k - 1);
      assert (Pow2(k) - 1) / 2 == Pow2(k - 1) - 1;
      var h := x / 2;
      DivModSplit(h, Pow2(k - 1));
      var q := h / Pow2(k - 1);
      assert x == q * Pow2(k) + (2 * (h % Pow2(k - 1)) + x % 2) by { Doubling(q, Pow2(k - 1)); }
      DivModUnique(x, Pow2(k), q, 2 * (h % Pow2(k - 1)) + x % 2);
    }
  }

  lemma Doubling(q: nat, p: nat)
    ensures q * (2 * p) == 2 * (q * p)
  {
  }

  /** Every bit of `m` is set in `a`: what the test `(a & m) == m` decides. */
  ghost predicate Covers(a: nat, m: nat) {
    forall i: nat :: Bit(m, i) ==> Bit(a, i)
  }

  lemma CoversIff(a: nat, m: nat)
    ensures And(a, m) == m <==> Covers(a, m)
  {
    if Covers(a, m) {
      forall i: nat ensures Bit(And(a, m), i) == Bit(m, i) { BitAnd(a, m, i); }
      BitsExtensional(And(a, m), m);
    } else {
      var i: nat :| Bit(m, i) && !Bit(a, i);
      BitAnd(a, m, i);
    }
  }

  /** The test `(a | f) == f` decides the same with the roles exchanged. */
  lemma WithinIff(a: nat, f: nat)
    ensures Or(a, f) == f <==> Covers(f, a)
  {
    if Covers(f, a) {
      forall i: nat ensures Bit(Or(a, f), i) == Bit(f, i) { BitOr(a, f, i); }
      BitsExtensional(Or(a, f), f);
    } else {
      var i: nat :| Bit(a, i) && !Bit(f, i);
      BitOr(a, f, i);
    }
  }

  /** `(c << k) mod 2^w` keeps the low bits only. */
  lemma ShiftedRemainder(c: nat, p: nat, m: nat)
    requires p > 0 && m > 0
    ensures p * m > 0 && (c * p) % (p * m) == (c % m) * p
  {
    MulStrict(0, p, m);
    DivModSplit(c, m);
    var q, r := c / m, c % m;
    assert c * p == q * (p * m) + r * p by { ShiftedIdentity(q, m, r, p); }
    MulMono(0, r, p);
    MulMono(r, m - 1, p);
    assert (m - 1) * p == p * m - p;
    DivModUnique(c * p, p * m, q, r * p);
  }

  lemma ShiftedIdentity(q: int, m: int, r: int, p: int)
    ensures (q * m + r) * p == q * (p * m) + r * p
  {
    assert (q * m + r) * p == q * m * p + r * p;
    assert q * m * p == q * (p * m);
  }

  /** The top bits of a remainder: `(c & MASK(a + b)) >> a == (c >> a) & MASK(b)`. */
  lemma RemainderQuotient(c: nat, a: nat, b: nat)
    requires a > 0 && b > 0
    ensures a * b > 0 && (c % (a * b)) / a == (c / a) % b
  {
    MulStrict(0, a, b);
    DivDiv(c, a, b);
    DivModSplit(c, a);
    DivModSplit(c / a, b);
    DivModSplit(c, a * b);
    var q, x, r := c / (a * b), (c / a) % b, c % a;
    assert c == q * (a * b) + (x * a + r) by { NestedIdentity(c / a, q, x, a, b, r); }
    MulMono(x, b - 1, a);
    MulMono(0, x, a);
    assert (b - 1) * a == a * b - a;
    DivModUnique(c, a * b, q, x * a + r);
    DivModUnique(x * a + r, a, x, r);
  }

  lemma NestedIdentity(h: int, q: int, x: int, a: int, b: int, r: int)
    requires h == q * b + x
    ensures h * a + r == q * (a * b) + (x * a + r)
  {
    assert h * a == q * b * a + x * a;
    assert q * b * a == q * (a * b);
  }

  /** `(x << k) >> (j + k) == x >> j`. */
  lemma ShiftCancel(x: nat, j: nat, p: nat)
    requires j > 0 && p > 0
    ensures j * p > 0 && 0 <= x * p && (x * p) / (j * p) == x / j
  {
    MulStrict(0, j, p);
    MulMono(0, x, p);
    DivModSplit(x, j);
    var q, r := x / j, x % j;
    assert x * p == q * (j * p) + r * p by {
      assert (q * j + r) * p == q * j * p + r * p;
      assert q * j * p == q * (j * p);
    }
    MulMono(0, r, p);
    MulMono(r, j - 1, p);
    assert (j - 1) * p == j * p - p;
    DivModUnique(x * p, j * p, q, r * p);
  }

  /** `a` is a multiple of `2^bits`. */
  ghost predicate Aligned(a: nat, bits: nat) {
    a % Pow2(bits) == 0
  }

  /** Alignment to a power of two implies alignment to a smaller one. */
  lemma AlignedDown(a: nat, k: nat, bits: nat)
    requires Aligned(a, bits) && k <= bits
    ensures Aligned(a, k)
  {
    Pow2Add(bits - k, k);
    DivModSplit(a, Pow2(bits));
    var q := a / Pow2(bits);
    MulAssoc(q, Pow2(bits - k), Pow2(k));
    DivModUnique(a, Pow2(k), q * Pow2(bits - k), 0);
  }

  lemma AlignedAdd(a: nat, bits: nat, k: nat)
    requires Aligned(a, k) && k <= bits
    ensures Aligned(a + Pow2(bits), k)
  {
    Pow2Add(bits - k, k);
    DivModSplit(a, Pow2(k));
    var q, c := a / Pow2(k), Pow2(bits - k);
    assert (q + c) * Pow2(k) == q * Pow2(k) + c * Pow2(k);
    DivModUnique(a + Pow2(bits), Pow2(k), q + c, 0);
  }

  /** Two multiples of a power of two, one below the other, are at least that far apart. */
  lemma AlignedGap(a: nat, b: nat, k: nat)
    requires Aligned(a, k) && Aligned(b, k) && a < b
    ensures a + Pow2(k) <= b
  {
    var p := Pow2(k);
    DivModSplit(a, p);
    DivModSplit(b, p);
    if b / p <= a / p { MulMono(b / p, a / p, p); }
    MulMono(a / p + 1, b / p, p);
  }

  lemma AlignedShift(a: nat, k: nat, n: nat)
    requires Aligned(a, k)
    ensures 0 <= n * Pow2(k) && Aligned(a + n * Pow2(k), k)
  {
    MulMono(0, n, Pow2(k));
    DivModSplit(a, Pow2(k));
    var q := a / Pow2(k);
    assert (q + n) * Pow2(k) == q * Pow2(k) + n * Pow2(k);
    DivModUnique(a + n * Pow2(k), Pow2(k), q + n, 0);
  }

  lemma AlignedBack(a: nat, k: nat, n: nat)
    requires Aligned(a, k) && n * Pow2(k) <= a
    ensures Aligned(a - n * Pow2(k), k)
  {
    DivModSplit(a, Pow2(k));
    var q := a / Pow2(k);
    assert (q - n) * Pow2(k) == q * Pow2(k) - n * Pow2(k);
    DivModUnique(a - n * Pow2(k), Pow2(k), q - n, 0);
  }

  /** `(a + (BIT(k) - 1)) & ~MASK(k)`. */
  function AlignUp(a: nat, k: nat): nat {
    DivModSplit(a + Pow2(k) - 1, Pow2(k));
    a + Pow2(k) - 1 - (a + Pow2(k) - 1) % Pow2(k)
  }

  /** It is the least multiple of `2^k` that is not below `a`. */
  lemma AlignUpLeast(a: nat, k: nat)
    ensures a <= AlignUp(a, k) < a + Pow2(k) && Aligned(AlignUp(a, k), k)
    ensures forall b: nat :: a <= b && Aligned(b, k) ==> AlignUp(a, k) <= b
  {
    var m := Pow2(k);
    var x := a + m - 1;
    DivModSplit(x, m);
    DivModUnique(x - x % m, m, x / m, 0);
    forall b: nat | a <= b && Aligned(b, k) ensures AlignUp(a, k) <= b {
      if b < AlignUp(a, k) { AlignedGap(b, AlignUp(a, k), k); }
    }
  }

  /** `wordBits - 1 - clzl(x)`: the position of the highest set bit. */
  function HighBit(x: nat): (r: nat)
    requires x > 0
    ensures Pow2(r) <= x < 2 * Pow2(r)
  {
    if x == 1 then assert Pow2(0) == 1; 0 else 1 + HighBit(x / 2)
  }

  lemma {:induction false} HighBitSet(x: nat)
    requires x > 0
    ensures Bit(x, HighBit(x))
  {
    if x > 1 { HighBitSet(x / 2); }
  }

  lemma HighBitHighest(x: nat, i: nat)
    requires x > 0 && i > HighBit(x)
    ensures !Bit(x, i)
  {
    Pow2Mono(HighBit(x), i);
    SmallHasNoBit(x, i);
  }

  lemma {:induction false} BitPow2(k: nat, i: nat)
    ensures Bit(Pow2(k), i) == (i == k)
  {
    if k > 0 && i > 0 {
      BitPow2(k - 1, i - 1);
    } else if k == 0 && i > 0 {
      SmallHasNoBit(0, i - 1);
    }
  }

  /** `a & ~b` */
  function AndNot(a: nat, b: nat): nat {
    if a == 0 then 0 else 2 * AndNot(a / 2, b / 2) + (if a % 2 == 1 && b % 2 == 0 then 1 else 0)
  }

  lemma {:induction false} BitAndNot(a: nat, b: nat, i: nat)
    ensures Bit(AndNot(a, b), i) == (Bit(a, i) && !Bit(b, i))
  {
    if a == 0 {
      SmallHasNoBit(0, i);
    } else if i > 0 {
      BitAndNot(a / 2, b / 2, i - 1);
    }
  }

  /** `x | BIT(k)` and `x & ~BIT(k)` change one bit. */
  lemma BitSetClear(x: nat, k: nat, i: nat)
    ensures Bit(Or(x, Pow2(k)), i) == (i == k || Bit(x, i))
    ensures Bit(AndNot(x, Pow2(k)), i) == (i != k && Bit(x, i))
  {
    BitPow2(k, i);
    BitOr(x, Pow2(k), i);
    BitAndNot(x, Pow2(k), i);
  }

  /** A shifted word and a word below the shift are combined by `|` as by `+`. */
  lemma {:induction false} OrDisjoint(x: nat, k: nat, y: nat)
    requires y < Pow2(k)
    ensures 0 <= x * Pow2(k) && Or(x * Pow2(k), y) == x * Pow2(k) + y
    decreases k
  {
    MulMono(0, x, Pow2(k));
    if k == 0 {
      OrZero(x);
    } else {
      Doubling(x, Pow2(k - 1));
      OrDisjoint(x, k - 1, y / 2);
      OrStep(x * Pow2(k - 1), y);
    }
  }

  lemma {:induction false} OrZero(x: nat)
    ensures Or(x, 0) == x
  {
    if x > 0 { OrZero(x / 2); }
  }

  lemma OrStep(h: nat, y: nat)
    ensures Or(2 * h, y) == 2 * Or(h, y / 2) + y % 2
  {
  }
}
