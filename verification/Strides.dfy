/**
 * Multiplication, division and doubling by repetition. The store's indices are
 * products of variables; written this way every step of a proof stays linear, and
 * the lemmas at the end of each group tie the forms to `*`, `/` and `%`.
 */
module Strides {

  /** `p * width`: where group `p` starts when groups of `width` entries are laid end to end. */
  function Stride(p: nat, width: nat): nat {
    if p == 0 then 0 else Stride(p - 1, width) + width
  }

  lemma {:induction false} StrideIsProduct(p: nat, width: nat)
    ensures Stride(p, width) == p * width
  {
    if p > 0 {
      StrideIsProduct(p - 1, width);
      assert p * width == (p - 1) * width + width;
    }
  }

  lemma {:induction false} StrideMonotone(p: nat, q: nat, width: nat)
    requires p <= q
    ensures Stride(p, width) <= Stride(q, width)
    decreases q - p
  {
    if p < q { StrideMonotone(p, q - 1, width); }
  }

  lemma {:induction false} StridePlus(p: nat, q: nat, width: nat)
    ensures Stride(p + q, width) == Stride(p, width) + Stride(q, width)
  {
    if q > 0 { StridePlus(p, q - 1, width); }
  }

  lemma {:induction false} StrideByOne(p: nat)
    ensures Stride(p, 1) == p
  {
    if p > 0 { StrideByOne(p - 1); }
  }

  lemma {:induction false} StrideDoubled(p: nat, width: nat)
    ensures Stride(p, 2 * width) == Stride(2 * p, width)
  {
    if p > 0 {
      StrideDoubled(p - 1, width);
      assert 2 * p - 2 == 2 * (p - 1);
      assert Stride(2 * p, width) == Stride(2 * p - 1, width) + width;
    }
  }

  /** `a / d`. */
  function Quotient(a: nat, d: nat): nat
    requires d > 0
  {
    if a < d then 0 else 1 + Quotient(a - d, d)
  }

  /** `a % d`. */
  function Residue(a: nat, d: nat): (r: nat)
    requires d > 0
    ensures r < d
  {
    if a < d then a else Residue(a - d, d)
  }

  lemma {:induction false} QuotientMonotone(a: nat, b: nat, d: nat)
    requires a <= b && d > 0
    ensures Quotient(a, d) <= Quotient(b, d)
  {
    if a >= d { QuotientMonotone(a - d, b - d, d); }
  }

  lemma {:induction false} DivisionOfStride(p: nat, r: nat, d: nat)
    requires r < d
    ensures Quotient(Stride(p, d) + r, d) == p && Residue(Stride(p, d) + r, d) == r
  {
    if p > 0 { DivisionOfStride(p - 1, r, d); }
  }

  lemma {:induction false} DivisionSplits(a: nat, d: nat)
    requires d > 0
    ensures a == Stride(Quotient(a, d), d) + Residue(a, d)
  {
    if a >= d { DivisionSplits(a - d, d); }
  }

  /** Whole groups in front add to the quotient and leave the residue. */
  lemma {:induction false} QuotientOfShift(p: nat, n: nat, d: nat)
    requires d > 0
    ensures Quotient(Stride(p, d) + n, d) == p + Quotient(n, d)
  {
    if p > 0 { QuotientOfShift(p - 1, n, d); }
  }

  lemma {:induction false} ResidueOfShift(p: nat, n: nat, d: nat)
    requires d > 0
    ensures Residue(Stride(p, d) + n, d) == Residue(n, d)
  {
    if p > 0 { ResidueOfShift(p - 1, n, d); }
  }

  /** An interleaved index stays inside the groups it belongs to. */
  lemma {:induction false} DivisionBound(a: nat, p: nat, d: nat)
    requires d > 0
    ensures a < Stride(p, d) <==> Quotient(a, d) < p
  {
    if a >= d && p > 0 { DivisionBound(a - d, p - 1, d); }
  }

  lemma {:induction false} QuotientIsDivision(a: nat, d: nat)
    requires d > 0
    ensures Quotient(a, d) == a / d && Residue(a, d) == a % d
  {
    if a >= d {
      QuotientIsDivision(a - d, d);
      DivisionStep(a - d, d);
    }
  }

  lemma DivisionStep(a: nat, d: nat)
    requires d > 0
    ensures (a + d) / d == a / d + 1 && (a + d) % d == a % d
  {
    var x, y := (a + d) / d, a / d;
    assert (a + d) % d == a + d - x * d && a % d == a - y * d;
    assert (x - y - 1) * d == a % d - (a + d) % d;
    SmallMultiple(x - y - 1, d);
  }

  lemma SmallMultiple(k: int, d: nat)
    ensures -(d as int) < k * d < d ==> k == 0
  {
    if k >= 1 { assert k * d >= d; }
    if k <= -1 {
      var n := -k;
      assert n * d >= d;
      assert k * d == -(n * d);
    }
  }

  /** `n * x` for a real `x`. */
  function Scale(n: nat, x: real): (r: real)
    ensures x >= 0.0 ==> r >= 0.0
  {
    if n == 0 then 0.0 else Scale(n - 1, x) + x
  }

  lemma {:induction false} ScaleIsProduct(n: nat, x: real)
    ensures Scale(n, x) == n as real * x
  {
    if n > 0 {
      ScaleIsProduct(n - 1, x);
      assert n as real * x == (n - 1) as real * x + x;
    }
  }

  lemma {:induction false} ScalePlus(m: nat, n: nat, x: real)
    ensures Scale(m + n, x) == Scale(m, x) + Scale(n, x)
  {
    if n > 0 { ScalePlus(m, n - 1, x); }
  }

  lemma {:induction false} ScaleMonotone(n: nat, x: real, y: real)
    requires x <= y
    ensures Scale(n, x) <= Scale(n, y)
  {
    if n > 0 { ScaleMonotone(n - 1, x, y); }
  }

  lemma {:induction false} ScaleDistributes(n: nat, x: real, y: real)
    ensures Scale(n, x + y) == Scale(n, x) + Scale(n, y)
  {
    if n > 0 { ScaleDistributes(n - 1, x, y); }
  }

  lemma {:induction false} ScaleZero(n: nat)
    ensures Scale(n, 0.0) == 0.0
  {
    if n > 0 { ScaleZero(n - 1); }
  }

  lemma {:induction false} ScaleCommutes(m: nat, n: nat, x: real)
    ensures Scale(m, Scale(n, x)) == Scale(n, Scale(m, x))
  {
    if m == 0 {
      ScaleZero(n);
    } else {
      ScaleCommutes(m - 1, n, x);
      ScaleDistributes(n, Scale(m - 1, x), x);
    }
  }

  lemma {:induction false} ScaleOfNat(n: nat, p: nat)
    ensures Scale(n, p as real) == Stride(n, p) as real
  {
    if n > 0 { ScaleOfNat(n - 1, p); }
  }

  lemma {:induction false} StrideCommutes(p: nat, width: nat)
    ensures Stride(p, width) == Stride(width, p)
  {
    StrideIsProduct(p, width);
    StrideIsProduct(width, p);
  }

  lemma {:induction false} ScaleOfStride(q: nat, width: nat, x: real)
    ensures Scale(Stride(q, width), x) == Scale(q, Scale(width, x))
  {
    if q > 0 {
      ScaleOfStride(q - 1, width, x);
      ScalePlus(Stride(q - 1, width), width, x);
    }
  }
}
