/** Division by multiplication: the search for a magic multiplier and shift amount
    (kernel/tools/reciprocal.py, after Hacker's Delight, chapter 10). */
module Reciprocal {
  import opened Words

  datatype Option<+T> = None | Some(value: T)

  /** Number of binary digits of `n`, as `len(bin(n)) - 2` counts them (one digit for zero). */
  function BitLength(n: nat): (b: nat)
    ensures b >= 1
    ensures n < Pow2(b)
    ensures n > 0 ==> Pow2(b - 1) <= n
  {
    if n < 2 then assert Pow2(0) == 1; 1 else 1 + BitLength(n / 2)
  }

  /** The largest value not above `nmax` that leaves remainder `d - 1`; -1 when there is none. */
  function CriticalValue(nmax: nat, d: nat): (nc: int)
    requires d >= 1
    ensures nc <= nmax
    ensures nc >= 0 ==> nc % d == d - 1
    ensures nc < 0 <==> d > nmax + 1
    ensures forall n: nat :: nc < n <= nmax ==> n % d != d - 1
  {
    var k := (nmax + 1) / d;
    DivModSplit(nmax + 1, d);
    assert k * d <= nmax + 1 < k * d + d;
    assert k == 0 || k * d >= d by { if k >= 1 { MulMono(1, k, d); } }
    assert k >= 1 ==> (k * d - 1) % d == d - 1 by {
      if k >= 1 { DivModUnique(k * d - 1, d, k - 1, d - 1); }
    }
    assert forall n: nat :: k * d - 1 < n <= nmax ==> n % d != d - 1 by {
      forall n: nat | k * d - 1 < n <= nmax ensures n % d != d - 1 {
        DivModUnique(n, d, k, n - k * d);
      }
    }
    k * d - 1
  }

  /** How far `2^p` lies below the next multiple of `d`. */
  function Excess(p: nat, d: nat): (e: nat)
    requires d >= 1
    ensures e < d
    ensures (Pow2(p) + e) % d == 0
  {
    var m := (Pow2(p) - 1) % d;
    DivModSplit(Pow2(p) - 1, d);
    var q := (Pow2(p) - 1) / d;
    assert Pow2(p) + (d - 1 - m) == (q + 1) * d;
    DivModUnique(Pow2(p) + (d - 1 - m), d, q + 1, 0);
    d - 1 - m
  }

  /** The test of the search loop. */
  predicate Accepts(nmax: nat, d: nat, p: nat)
    requires d >= 1
  {
    Pow2(p) > CriticalValue(nmax, d) * Excess(p, d)
  }

  /** The multiplier the loop returns for `p`. */
  function Multiplier(p: nat, d: nat): (m: nat)
    requires d >= 1
    ensures m * d == Pow2(p) + Excess(p, d)
  {
    DivModSplit(Pow2(p) + Excess(p, d), d);
    (Pow2(p) + Excess(p, d)) / d
  }

  /** `do_div`: multiply and shift right. */
  function DoDiv(n: nat, m: nat, p: nat): int {
    (n * m) / Pow2(p)
  }

  /** `magicgu`: the first `p` up to twice the bit length that passes the test. For every divisor
      it returns a pair; the pair divides every `n <= nmax` exactly when `d <= nmax + 1` or
      `nmax == 0`, and no smaller `p` passes the test. */
  method Magicgu(nmax: nat, d: nat) returns (r: Option<(nat, nat)>)
    requires d >= 1
    ensures r.Some?
    ensures r.value.1 <= 2 * BitLength(nmax)
    ensures forall p: nat :: p < r.value.1 ==> !Accepts(nmax, d, p)
    ensures (forall n: nat :: n <= nmax ==> DoDiv(n, r.value.0, r.value.1) == n / d)
            <==> (d <= nmax + 1 || nmax == 0)
  {
    var nc := ((nmax + 1) / d) * d - 1;
    var nbits := BitLength(nmax);
    var p := 0;
    while p < 2 * nbits + 1
      invariant p <= 2 * nbits + 1
      invariant forall i: nat :: i < p ==> !Accepts(nmax, d, i)
    {
      if Pow2(p) > nc * (d - 1 - (Pow2(p) - 1) % d) {
        var m := (Pow2(p) + d - 1 - (Pow2(p) - 1) % d) / d;
        assert Accepts(nmax, d, p) && m == Multiplier(p, d);
        MagicExact(nmax, d, p);
        return Some((m, p));
      }
      p := p + 1;
    }
    SearchSucceeds(nmax, d);
    assert false;
    r := None;
  }

  /** The last exponent tried always passes the test. */
  lemma SearchSucceeds(nmax: nat, d: nat)
    requires d >= 1
    ensures Accepts(nmax, d, 2 * BitLength(nmax))
  {
    var nc, b := CriticalValue(nmax, d), BitLength(nmax);
    var e := Excess(2 * b, d);
    Pow2Add(b, b);
    assert nc >= 0 ==> e < Pow2(b);
    ProductBelowSquare(nc, e, Pow2(b));
  }

  lemma ProductBelowSquare(nc: int, e: nat, B: nat)
    requires B > nc && B >= 1 && (nc >= 0 ==> e < B)
    ensures nc * e < B * B
  {
    if nc < 0 {
      MulMono(nc, 0, e);
      MulStrict(0, B, B);
    } else {
      MulMono(nc, B, e);
      MulStrict(e, B, B);
    }
  }

  /** An accepted exponent makes multiply-and-shift agree with division on the whole range. */
  lemma MagicDivides(nmax: nat, d: nat, p: nat, n: nat)
    requires 1 <= d <= nmax + 1 && n <= nmax
    requires Accepts(nmax, d, p)
    ensures DoDiv(n, Multiplier(p, d), p) == n / d
  {
    DivModSplit(n, d);
    ExcessBound(nmax, d, p, n);
    Rescale(n, d, n / d, n % d, Pow2(p), Excess(p, d), Multiplier(p, d));
    DivModUnique(n * Multiplier(p, d), Pow2(p), n / d, n * Multiplier(p, d) - (n / d) * Pow2(p));
  }

  /** `d * (n*m - q*P) == r*P + n*e`, which lies between zero and `d*P`. */
  lemma Rescale(n: nat, d: nat, q: nat, r: nat, P: nat, e: nat, m: nat)
    requires d >= 1 && r < d && n == q * d + r && m * d == P + e
    requires n * e < (d - r) * P
    ensures 0 <= n * m - q * P < P
  {
    var s := n * m - q * P;
    RescaleIdentity(n, d, q, r, P, e, m);
    ProductNonNegative(r, P);
    ProductNonNegative(n, e);
    assert (d - r) * P == d * P - r * P;
    if s < 0 { MulMono(s, -1, d); }
    if s >= P { MulMono(P, s, d); }
  }

  lemma ProductNonNegative(a: nat, b: nat)
    ensures 0 <= a * b
  {
    MulMono(0, a, b);
  }

  lemma RescaleIdentity(n: nat, d: nat, q: nat, r: nat, P: nat, e: nat, m: nat)
    requires n == q * d + r && m * d == P + e
    ensures (n * m - q * P) * d == r * P + n * e
  {
    calc {
      (n * m - q * P) * d;
      n * (m * d) - (q * d) * P;
      n * (P + e) - (n - r) * P;
      r * P + n * e;
    }
  }

  /** The bound the critical value stands for: it settles every other value in the range. */
  lemma ExcessBound(nmax: nat, d: nat, p: nat, n: nat)
    requires 1 <= d <= nmax + 1 && n <= nmax
    requires Accepts(nmax, d, p)
    ensures n * Excess(p, d) < (d - n % d) * Pow2(p)
  {
    var nc, e, P := CriticalValue(nmax, d), Excess(p, d), Pow2(p);
    if n <= nc {
      BelowCritical(n, nc, e, d - n % d, P);
    } else {
      CriticalAtLeast(nmax, d);
      JustAboveCritical(nmax, d, n);
      AboveCritical(n, nc, n % d, e, d, P);
    }
  }

  lemma BelowCritical(n: nat, nc: nat, e: nat, k: int, P: nat)
    requires n <= nc && nc * e < P && k >= 1
    ensures n * e < k * P
  {
    MulMono(n, nc, e);
    MulMono(1, k, P);
  }

  lemma AboveCritical(n: nat, nc: nat, r: nat, e: nat, d: nat, P: nat)
    requires n == nc + 1 + r && r + 2 <= d && d - 1 <= nc && nc * e < P
    ensures n * e < (d - r) * P
  {
    MulMono(r + 1, nc, e);
    assert n * e == nc * e + (r + 1) * e;
    MulMono(2, d - r, P);
  }

  lemma CriticalAtLeast(nmax: nat, d: nat)
    requires 1 <= d <= nmax + 1
    ensures CriticalValue(nmax, d) >= d - 1
  {
    DivModSplit(nmax + 1, d);
    MulMono(1, (nmax + 1) / d, d);
  }

  lemma JustAboveCritical(nmax: nat, d: nat, n: nat)
    requires 1 <= d <= nmax + 1
    requires CriticalValue(nmax, d) < n <= nmax
    ensures n == CriticalValue(nmax, d) + 1 + n % d
  {
    var k := (nmax + 1) / d;
    DivModSplit(nmax + 1, d);
    DivModUnique(n, d, k, n - k * d);
  }

  /** With a divisor beyond the range the very first exponent is accepted, and the pair it gives
      is the identity: right for zero only. */
  lemma BeyondRange(nmax: nat, d: nat)
    requires d > nmax + 1
    ensures Accepts(nmax, d, 0)
    ensures forall n: nat :: n <= nmax ==> (DoDiv(n, Multiplier(0, d), 0) == n / d <==> n == 0)
  {
    assert Pow2(0) == 1;
    DivModUnique(0, d, 0, 0);
    assert Excess(0, d) == d - 1;
    DivModUnique(d, d, 1, 0);
    assert Multiplier(0, d) == 1;
    assert CriticalValue(nmax, d) * (d - 1) <= 0;
    forall n: nat | n <= nmax ensures DoDiv(n, 1, 0) == n / d <==> n == 0 {
      DivModUnique(n, d, 0, n);
      assert n * 1 == n;
    }
  }

  /** The first accepted exponent gives a correct divider exactly when the divisor is in range. */
  lemma MagicExact(nmax: nat, d: nat, p: nat)
    requires d >= 1
    requires Accepts(nmax, d, p)
    requires forall i: nat :: i < p ==> !Accepts(nmax, d, i)
    ensures (forall n: nat :: n <= nmax ==> DoDiv(n, Multiplier(p, d), p) == n / d)
            <==> (d <= nmax + 1 || nmax == 0)
  {
    if d <= nmax + 1 {
      forall n: nat | n <= nmax ensures DoDiv(n, Multiplier(p, d), p) == n / d {
        MagicDivides(nmax, d, p, n);
      }
    } else {
      BeyondRange(nmax, d);
      assert p == 0;
      if nmax > 0 {
        assert DoDiv(1, Multiplier(0, d), 0) != 1 / d;
      }
    }
  }
}
