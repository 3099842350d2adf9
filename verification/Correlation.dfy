/**
 * Sums behind the normalized cross-correlation of crates/oak-audio/src/waveformsync.rs,
 * and the inequality that bounds it.
 */
module Correlation {
  import opened Wrappers

  // ----- products -----

  /** `a * b`, named so that products of sums stay single terms. */
  function Times(a: real, b: real): real {
    a * b
  }

  lemma TimesAscends(a: real, b: real, c: real)
    ensures a < b && c > 0.0 ==> Times(a, c) < Times(b, c)
  {
    var d := (b - a) * c;
    assert d == b * c - a * c;
    assert a < b && c > 0.0 ==> d > 0.0;
  }

  lemma TimesZero(c: real)
    ensures Times(0.0, c) == 0.0 == Times(c, 0.0)
  {
  }

  lemma TimesOne(c: real)
    ensures Times(1.0, c) == c && Times(-1.0, c) == -c
  {
  }

  lemma TimesCommutes(a: real, b: real)
    ensures Times(a, b) == Times(b, a)
  {
  }

  lemma TimesNegated(a: real, b: real)
    ensures Times(-a, -b) == Times(a, b)
  {
  }

  lemma TimesAdds(a: real, b: real, c: real)
    ensures Times(a, b + c) == Times(a, b) + Times(a, c)
    ensures Times(b + c, a) == Times(b, a) + Times(c, a)
  {
  }

  lemma TimesSubtracts(a: real, b: real, c: real)
    ensures Times(a, b - c) == Times(a, b) - Times(a, c)
    ensures Times(b - c, a) == Times(b, a) - Times(c, a)
  {
  }

  lemma TimesReorders(t: real, c: real, e: real)
    ensures Times(Times(t, c), e) == Times(c, Times(t, e)) == Times(t, Times(c, e))
  {
  }

  lemma SquareSign(d: real)
    ensures Times(d, d) >= 0.0
    ensures Times(d, d) == 0.0 <==> d == 0.0
  {
    TimesAscends(0.0, d, d);
    TimesAscends(0.0, -d, -d);
    TimesZero(d);
    TimesZero(-d);
    TimesNegated(d, d);
  }

  lemma SquaresAscend(a: real, b: real)
    ensures 0.0 <= a < b ==> Times(a, a) < Times(b, b)
  {
    TimesAscends(a, b, a);
    TimesAscends(a, b, b);
    TimesCommutes(a, b);
    TimesZero(a);
    TimesZero(b);
  }

  lemma ProductSign(a: real, b: real)
    requires b > 0.0
    ensures a > 0.0 <==> Times(a, b) > 0.0
    ensures a == 0.0 <==> Times(a, b) == 0.0
  {
    TimesAscends(0.0, a, b);
    TimesAscends(a, 0.0, b);
    TimesZero(b);
  }

  // ----- sums over pairs -----

  /** A reference value and the candidate value it is compared with. */
  datatype Pair = Pair(x: real, y: real)

  function SumX(p: seq<Pair>, n: nat): real
    requires n <= |p|
  {
    if n == 0 then 0.0 else SumX(p, n - 1) + p[n - 1].x
  }

  function SumY(p: seq<Pair>, n: nat): real
    requires n <= |p|
  {
    if n == 0 then 0.0 else SumY(p, n - 1) + p[n - 1].y
  }

  /** Sum of the products of the deviations from `mx` and `my`. */
  function Cross(p: seq<Pair>, mx: real, my: real, n: nat): real
    requires n <= |p|
  {
    if n == 0 then 0.0 else Cross(p, mx, my, n - 1) + Times(p[n - 1].x - mx, p[n - 1].y - my)
  }

  function EnergyX(p: seq<Pair>, mx: real, n: nat): real
    requires n <= |p|
  {
    if n == 0 then 0.0 else EnergyX(p, mx, n - 1) + Times(p[n - 1].x - mx, p[n - 1].x - mx)
  }

  function EnergyY(p: seq<Pair>, my: real, n: nat): real
    requires n <= |p|
  {
    if n == 0 then 0.0 else EnergyY(p, my, n - 1) + Times(p[n - 1].y - my, p[n - 1].y - my)
  }

  function Mean(sum: real, n: nat): real
    requires n > 0
  {
    sum / n as real
  }

  /** Cross product and energies of the deviations from the means. */
  datatype Sums = Sums(cross: real, energyX: real, energyY: real)

  function SumsOf(p: seq<Pair>): Sums
    requires p != []
  {
    var mx, my := Mean(SumX(p, |p|), |p|), Mean(SumY(p, |p|), |p|);
    Sums(Cross(p, mx, my, |p|), EnergyX(p, mx, |p|), EnergyY(p, my, |p|))
  }

  // ----- the score -----

  function Root(sqrt: real -> real, x: real): real {
    sqrt(x)
  }

  /** A square root, given by what it has to be. */
  ghost predicate IsSqrt(sqrt: real -> real) {
    forall x :: x >= 0.0 ==> Root(sqrt, x) >= 0.0 && Times(Root(sqrt, x), Root(sqrt, x)) == x
  }

  /** Below this an energy counts as zero. */
  const FUZZY_NULL: real := 0.000000000001

  function Abs(x: real): real {
    if x < 0.0 then -x else x
  }

  /** `c / s`; the denominator is never zero where it is used (see `ScoreBounds`). */
  function Ratio(c: real, s: real): real {
    if s == 0.0 then 0.0 else c / s
  }

  /** The normalized correlation, unless one side is flat. */
  function Normalized(s: Sums, sqrt: real -> real): Option<real> {
    if Abs(s.energyX) < FUZZY_NULL || Abs(s.energyY) < FUZZY_NULL then None
    else Some(Ratio(s.cross, Root(sqrt, Times(s.energyX, s.energyY))))
  }

  /** The normalized correlation of the pairs, when there are two of them and neither side is flat. */
  function Score(p: seq<Pair>, sqrt: real -> real): Option<real> {
    if |p| < 2 then None else Normalized(SumsOf(p), sqrt)
  }

  // ----- the Cauchy-Schwarz inequality -----

  /** Sum of the squared differences between `x` and `t` times `y`, as deviations. */
  function Residual(p: seq<Pair>, mx: real, my: real, t: real, n: nat): real
    requires n <= |p|
  {
    if n == 0 then 0.0
    else
      var d := (p[n - 1].x - mx) - Times(t, p[n - 1].y - my);
      Residual(p, mx, my, t, n - 1) + Times(d, d)
  }

  lemma {:induction false} ResidualIsNonNegative(p: seq<Pair>, mx: real, my: real, t: real, n: nat)
    requires n <= |p|
    ensures Residual(p, mx, my, t, n) >= 0.0
  {
    if n > 0 {
      ResidualIsNonNegative(p, mx, my, t, n - 1);
      SquareSign((p[n - 1].x - mx) - Times(t, p[n - 1].y - my));
    }
  }

  lemma SquareOfDifference(a: real, b: real, t: real)
    ensures Times(a - Times(t, b), a - Times(t, b))
         == Times(a, a) - 2.0 * Times(t, Times(a, b)) + Times(t, Times(t, Times(b, b)))
  {
    var u := Times(t, b);
    TimesSubtracts(a - u, a, u);
    TimesSubtracts(a, a, u);
    TimesSubtracts(u, a, u);
    TimesCommutes(a, u);
    TimesReorders(t, b, a);
    TimesCommutes(a, b);
    TimesReorders(t, b, u);
    TimesReorders(t, b, b);
    TimesCommutes(b, u);
  }

  lemma {:induction false} ResidualExpands(p: seq<Pair>, mx: real, my: real, t: real, n: nat)
    requires n <= |p|
    ensures Residual(p, mx, my, t, n)
         == EnergyX(p, mx, n) - 2.0 * Times(t, Cross(p, mx, my, n)) + Times(t, Times(t, EnergyY(p, my, n)))
  {
    if n == 0 {
      TimesZero(t);
    } else {
      ResidualExpands(p, mx, my, t, n - 1);
      var a, b := p[n - 1].x - mx, p[n - 1].y - my;
      SquareOfDifference(a, b, t);
      TimesAdds(t, Cross(p, mx, my, n - 1), Times(a, b));
      TimesAdds(t, EnergyY(p, my, n - 1), Times(b, b));
      TimesAdds(t, Times(t, EnergyY(p, my, n - 1)), Times(t, Times(b, b)));
    }
  }

  lemma {:induction false} EnergiesAreNonNegative(p: seq<Pair>, mx: real, my: real, n: nat)
    requires n <= |p|
    ensures EnergyX(p, mx, n) >= 0.0 && EnergyY(p, my, n) >= 0.0
  {
    if n > 0 {
      EnergiesAreNonNegative(p, mx, my, n - 1);
      SquareSign(p[n - 1].x - mx);
      SquareSign(p[n - 1].y - my);
    }
  }

  lemma LeftOver(c: real, ex: real, ey: real, t: real, r: real)
    requires ey > 0.0 && Times(t, ey) == c && r >= 0.0
    requires r == ex - 2.0 * Times(t, c) + Times(t, Times(t, ey))
    ensures Times(c, c) <= Times(ex, ey) && (Times(c, c) == Times(ex, ey) <==> r == 0.0)
  {
    assert r == ex - Times(t, c);
    TimesSubtracts(ey, ex, Times(t, c));
    TimesReorders(t, c, ey);
    assert Times(r, ey) == Times(ex, ey) - Times(c, c);
    ProductSign(r, ey);
  }

  /** `c * c <= ex * ey`, with equality exactly when nothing is left over at `t = c / ey`. */
  lemma CauchySchwarz(p: seq<Pair>, mx: real, my: real, n: nat, c: real, ex: real, ey: real, t: real)
    requires n <= |p|
    requires c == Cross(p, mx, my, n) && ex == EnergyX(p, mx, n) && ey == EnergyY(p, my, n) > 0.0
    requires Times(t, ey) == c
    ensures Times(c, c) <= Times(ex, ey)
    ensures Times(c, c) == Times(ex, ey) <==> Residual(p, mx, my, t, n) == 0.0
  {
    ResidualIsNonNegative(p, mx, my, t, n);
    ResidualExpands(p, mx, my, t, n);
    LeftOver(c, ex, ey, t, Residual(p, mx, my, t, n));
  }

  lemma QuotientTimes(c: real, e: real)
    requires e > 0.0
    ensures Times(c / e, e) == c
  {
  }

  // ----- bounds of the score -----

  lemma RootBounds(c: real, s: real)
    requires s > 0.0 && Times(c, c) <= Times(s, s)
    ensures -s <= c <= s
    ensures c == s <==> c > 0.0 && Times(c, c) == Times(s, s)
  {
    SquaresAscend(s, c);
    SquaresAscend(s, -c);
    TimesNegated(c, c);
    SquaresAscend(c, s);
  }

  lemma QuotientBounds(c: real, s: real, q: real)
    requires s > 0.0 && -s <= c <= s && Times(q, s) == c
    ensures -1.0 <= q <= 1.0 && (q == 1.0 <==> c == s)
  {
    TimesAscends(1.0, q, s);
    TimesAscends(q, -1.0, s);
    TimesAscends(q, 1.0, s);
    TimesOne(s);
  }

  lemma RatioBounds(sqrt: real -> real, x: real, c: real)
    requires IsSqrt(sqrt) && x > 0.0 && Times(c, c) <= x
    ensures Root(sqrt, x) > 0.0
    ensures -1.0 <= Ratio(c, Root(sqrt, x)) <= 1.0
    ensures Ratio(c, Root(sqrt, x)) == 1.0 <==> c > 0.0 && Times(c, c) == x
  {
    var s := Root(sqrt, x);
    assert s >= 0.0 && Times(s, s) == x;
    SquareSign(s);
    RootBounds(c, s);
    QuotientTimes(c, s);
    QuotientBounds(c, s, c / s);
  }

  /** What the inequality says about sums: non-negative energies, and a cross product within them. */
  ghost predicate Bounded(s: Sums) {
    && s.energyX >= 0.0 && s.energyY >= 0.0
    && (s.energyY > 0.0 ==> Times(s.cross, s.cross) <= Times(s.energyX, s.energyY))
  }

  ghost predicate Perfect(s: Sums) {
    s.cross > 0.0 && Times(s.cross, s.cross) == Times(s.energyX, s.energyY)
  }

  lemma NormalizedBounds(s: Sums, sqrt: real -> real)
    requires IsSqrt(sqrt) && Bounded(s)
    ensures Normalized(s, sqrt).Some? <==> s.energyX >= FUZZY_NULL && s.energyY >= FUZZY_NULL
    ensures Normalized(s, sqrt).Some? ==>
      && Root(sqrt, Times(s.energyX, s.energyY)) > 0.0
      && -1.0 <= Normalized(s, sqrt).value <= 1.0
      && (Normalized(s, sqrt).value == 1.0 <==> Perfect(s))
  {
    if s.energyX >= FUZZY_NULL && s.energyY >= FUZZY_NULL {
      ProductSign(s.energyX, s.energyY);
      RatioBounds(sqrt, Times(s.energyX, s.energyY), s.cross);
    }
  }

  lemma SumsAreBounded(p: seq<Pair>)
    requires p != []
    ensures Bounded(SumsOf(p))
  {
    var mx, my := Mean(SumX(p, |p|), |p|), Mean(SumY(p, |p|), |p|);
    var s := SumsOf(p);
    EnergiesAreNonNegative(p, mx, my, |p|);
    if s.energyY > 0.0 {
      QuotientTimes(s.cross, s.energyY);
      CauchySchwarz(p, mx, my, |p|, s.cross, s.energyX, s.energyY, s.cross / s.energyY);
    }
  }

  /** With energies that count the root is never zero, and every score lies in [-1, 1]. */
  lemma ScoreBounds(p: seq<Pair>, sqrt: real -> real)
    requires IsSqrt(sqrt)
    ensures Score(p, sqrt).Some? <==> |p| >= 2 && SumsOf(p).energyX >= FUZZY_NULL && SumsOf(p).energyY >= FUZZY_NULL
    ensures Score(p, sqrt).Some? ==>
      && Root(sqrt, Times(SumsOf(p).energyX, SumsOf(p).energyY)) > 0.0
      && -1.0 <= Score(p, sqrt).value <= 1.0
      && (Score(p, sqrt).value == 1.0 <==> Perfect(SumsOf(p)))
  {
    if |p| >= 2 {
      SumsAreBounded(p);
      NormalizedBounds(SumsOf(p), sqrt);
    }
  }

  // ----- when a score is exactly 1 -----

  /** Every reference value is the same positive multiple of the candidate value, up to a constant. */
  ghost predicate SameShape(p: seq<Pair>, gain: real, offset: real) {
    gain > 0.0 && forall i :: 0 <= i < |p| ==> p[i].x == offset + Times(gain, p[i].y)
  }

  lemma {:induction false} NothingLeftOver(p: seq<Pair>, mx: real, my: real, t: real, n: nat, i: nat)
    requires i < n <= |p| && Residual(p, mx, my, t, n) == 0.0
    ensures p[i].x - mx == Times(t, p[i].y - my)
  {
    ResidualIsNonNegative(p, mx, my, t, n - 1);
    SquareSign((p[n - 1].x - mx) - Times(t, p[n - 1].y - my));
    if i < n - 1 {
      NothingLeftOver(p, mx, my, t, n - 1, i);
    }
  }

  lemma {:induction false} ShapedSums(p: seq<Pair>, gain: real, offset: real, n: nat)
    requires n <= |p| && SameShape(p, gain, offset)
    ensures SumX(p, n) == Times(n as real, offset) + Times(gain, SumY(p, n))
  {
    if n == 0 {
      TimesZero(offset);
      TimesZero(gain);
    } else {
      ShapedSums(p, gain, offset, n - 1);
      TimesAdds(offset, (n - 1) as real, 1.0);
      TimesOne(offset);
      TimesAdds(gain, SumY(p, n - 1), p[n - 1].y);
    }
  }

  lemma MeanOfShaped(sx: real, sy: real, n: nat, gain: real, offset: real)
    requires n > 0 && sx == Times(n as real, offset) + Times(gain, sy)
    ensures Mean(sx, n) == offset + Times(gain, Mean(sy, n))
  {
    var m, r := sy / n as real, n as real;
    assert m * r == sy;
    assert gain * sy == (gain * m) * r;
    assert sx == (offset + gain * m) * r;
  }

  lemma {:induction false} ShapedEnergies(p: seq<Pair>, gain: real, offset: real, mx: real, my: real, n: nat)
    requires n <= |p| && SameShape(p, gain, offset) && mx == offset + Times(gain, my)
    ensures Cross(p, mx, my, n) == Times(gain, EnergyY(p, my, n))
    ensures Residual(p, mx, my, gain, n) == 0.0
  {
    if n == 0 {
      TimesZero(gain);
    } else {
      ShapedEnergies(p, gain, offset, mx, my, n - 1);
      var a, b := p[n - 1].x - mx, p[n - 1].y - my;
      TimesSubtracts(gain, p[n - 1].y, my);
      assert a == Times(gain, b);
      TimesReorders(gain, b, b);
      TimesAdds(gain, EnergyY(p, my, n - 1), Times(b, b));
      TimesZero(a - Times(gain, b));
    }
  }

  lemma ShapeOfPerfect(p: seq<Pair>, mx: real, my: real, ex: real, ey: real, c: real, t: real)
    requires ex == EnergyX(p, mx, |p|) && ey == EnergyY(p, my, |p|) > 0.0 && c == Cross(p, mx, my, |p|)
    requires c > 0.0 && Times(c, c) == Times(ex, ey) && Times(t, ey) == c
    ensures SameShape(p, t, mx - Times(t, my))
  {
    CauchySchwarz(p, mx, my, |p|, c, ex, ey, t);
    ProductSign(t, ey);
    forall i | 0 <= i < |p| ensures p[i].x == (mx - Times(t, my)) + Times(t, p[i].y) {
      NothingLeftOver(p, mx, my, t, |p|, i);
      TimesSubtracts(t, p[i].y, my);
    }
  }

  lemma PerfectOfShape(p: seq<Pair>, mx: real, my: real, ex: real, ey: real, c: real, gain: real, offset: real)
    requires |p| > 0 && SameShape(p, gain, offset) && mx == offset + Times(gain, my)
    requires ex == EnergyX(p, mx, |p|) && ey == EnergyY(p, my, |p|) > 0.0 && c == Cross(p, mx, my, |p|)
    ensures c > 0.0 && Times(c, c) == Times(ex, ey)
  {
    ShapedEnergies(p, gain, offset, mx, my, |p|);
    CauchySchwarz(p, mx, my, |p|, c, ex, ey, gain);
    ProductSign(gain, ey);
  }

  lemma PerfectExactlyForSameShape(p: seq<Pair>)
    requires p != [] && SumsOf(p).energyY > 0.0
    ensures Perfect(SumsOf(p)) <==> exists gain: real, offset: real :: SameShape(p, gain, offset)
  {
    var mx, my := Mean(SumX(p, |p|), |p|), Mean(SumY(p, |p|), |p|);
    var s := SumsOf(p);
    if Perfect(s) {
      QuotientTimes(s.cross, s.energyY);
      ShapeOfPerfect(p, mx, my, s.energyX, s.energyY, s.cross, s.cross / s.energyY);
    }
    if exists gain: real, offset: real :: SameShape(p, gain, offset) {
      var gain: real, offset: real :| SameShape(p, gain, offset);
      ShapedSums(p, gain, offset, |p|);
      MeanOfShaped(SumX(p, |p|), SumY(p, |p|), |p|, gain, offset);
      PerfectOfShape(p, mx, my, s.energyX, s.energyY, s.cross, gain, offset);
    }
  }

  /**
   * A score is exactly 1 if and only if the two sides have the same shape: one can be
   * scaled by a positive gain and shifted onto the other.
   */
  lemma ScoreIsOneExactlyForSameShape(p: seq<Pair>, sqrt: real -> real)
    requires IsSqrt(sqrt) && Score(p, sqrt).Some?
    ensures Score(p, sqrt).value == 1.0 <==> exists gain: real, offset: real :: SameShape(p, gain, offset)
  {
    ScoreBounds(p, sqrt);
    PerfectExactlyForSameShape(p);
  }

  /**
   * A score is the cross sum of the deviations from the two means, divided by the root of the
   * product of the energies.
   */
  lemma ScoreIsNormalizedCross(p: seq<Pair>, sqrt: real -> real, mx: real, my: real)
    requires IsSqrt(sqrt) && Score(p, sqrt).Some?
    requires Times(mx, |p| as real) == SumX(p, |p|) && Times(my, |p| as real) == SumY(p, |p|)
    ensures Times(Score(p, sqrt).value, Root(sqrt, Times(EnergyX(p, mx, |p|), EnergyY(p, my, |p|))))
      == Cross(p, mx, my, |p|)
  {
    ScoreBounds(p, sqrt);
    MeanIs(SumX(p, |p|), |p|, mx);
    MeanIs(SumY(p, |p|), |p|, my);
    QuotientTimes(SumsOf(p).cross, Root(sqrt, Times(SumsOf(p).energyX, SumsOf(p).energyY)));
  }

  lemma MeanIs(sum: real, n: nat, m: real)
    requires n > 0 && Times(m, n as real) == sum
    ensures Mean(sum, n) == m
  {
    var q := sum / n as real;
    QuotientTimes(sum, n as real);
    TimesAscends(q, m, n as real);
    TimesAscends(m, q, n as real);
  }
}
