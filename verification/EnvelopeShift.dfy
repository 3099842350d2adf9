/**
 * Which windows a lag compares, and that a shifted copy is found: the offset search of
 * crates/oak-audio/src/waveformsync.rs in terms of its inputs alone.
 */
module EnvelopeShift {
  import opened Wrappers
  import opened Correlation
  import opened Strides
  import opened WaveformSync

  /** Windows `i` of the reference and `i + lag` of the candidate exist, and no fitting mask excludes them. */
  predicate Comparable(ref: seq<real>, cand: seq<real>, refValid: seq<bool>, candValid: seq<bool>, lag: int, i: int) {
    && 0 <= i < |ref| && 0 <= i + lag < |cand|
    && (|refValid| == |ref| ==> refValid[i]) && (|candValid| == |cand| ==> candValid[i + lag])
  }

  /** `pairs` are the comparable windows from `from` up to `to`, at the places `at`, in ascending order. */
  ghost predicate PairsOf(pairs: seq<Pair>, at: seq<int>, ref: seq<real>, cand: seq<real>, refValid: seq<bool>,
                          candValid: seq<bool>, lag: int, to: int)
  {
    && |at| == |pairs|
    && (forall k :: 0 <= k < |at| ==>
          && at[k] < to && Comparable(ref, cand, refValid, candValid, lag, at[k])
          && pairs[k] == Pair(ref[at[k]], cand[at[k] + lag]))
    && (forall j, k :: 0 <= j < k < |at| ==> at[j] < at[k])
    && forall i :: i < to && Comparable(ref, cand, refValid, candValid, lag, i) ==> i in at
  }

  lemma NextPair(pairs: seq<Pair>, at: seq<int>, ref: seq<real>, cand: seq<real>, refValid: seq<bool>,
                 candValid: seq<bool>, lag: int, i: int, morePairs: seq<Pair>, moreAt: seq<int>)
    requires PairsOf(pairs, at, ref, cand, refValid, candValid, lag, i)
    requires Comparable(ref, cand, refValid, candValid, lag, i)
    requires morePairs == pairs + [Pair(ref[i], cand[i + lag])] && moreAt == at + [i]
    ensures PairsOf(morePairs, moreAt, ref, cand, refValid, candValid, lag, i + 1)
  {
    forall w | w < i + 1 && Comparable(ref, cand, refValid, candValid, lag, w) ensures w in moreAt {
      if w < i { assert w in at; } else { assert moreAt[|at|] == i; }
    }
  }

  lemma SkippedPair(pairs: seq<Pair>, at: seq<int>, ref: seq<real>, cand: seq<real>, refValid: seq<bool>,
                    candValid: seq<bool>, lag: int, i: int)
    requires PairsOf(pairs, at, ref, cand, refValid, candValid, lag, i)
    requires !Comparable(ref, cand, refValid, candValid, lag, i)
    ensures PairsOf(pairs, at, ref, cand, refValid, candValid, lag, i + 1)
  {
  }

  lemma PairsAtStep(ref: seq<real>, cand: seq<real>, refValid: seq<bool>, candValid: seq<bool>, refStart: nat,
                    candStart: nat, n: nat, lag: int, i: int)
    requires refStart + n + 1 <= |ref| && candStart + n + 1 <= |cand|
    requires candStart == refStart + lag && i == refStart + n
    ensures var before := PairsAt(ref, cand, refValid, candValid, refStart, candStart, n);
      PairsAt(ref, cand, refValid, candValid, refStart, candStart, n + 1) ==
        if Comparable(ref, cand, refValid, candValid, lag, i) then before + [Pair(ref[i], cand[i + lag])] else before
  {
  }

  lemma {:induction false} PairsAtAre(ref: seq<real>, cand: seq<real>, refValid: seq<bool>, candValid: seq<bool>,
                                      refStart: nat, candStart: nat, n: nat, lag: int)
    returns (at: seq<int>)
    requires refStart + n <= |ref| && candStart + n <= |cand| && candStart == refStart + lag
    requires refStart == 0 || candStart == 0
    ensures PairsOf(PairsAt(ref, cand, refValid, candValid, refStart, candStart, n), at, ref, cand, refValid, candValid,
                    lag, refStart + n)
  {
    if n == 0 {
      at := NoPairsBefore(ref, cand, refValid, candValid, refStart, candStart, lag);
    } else {
      at := PairsAtAre(ref, cand, refValid, candValid, refStart, candStart, n - 1, lag);
      at := PairsAtMore(ref, cand, refValid, candValid, refStart, candStart, n - 1, lag, at);
    }
  }

  lemma NoPairsBefore(ref: seq<real>, cand: seq<real>, refValid: seq<bool>, candValid: seq<bool>, refStart: nat,
                      candStart: nat, lag: int)
    returns (at: seq<int>)
    requires refStart <= |ref| && candStart <= |cand|
    requires candStart == refStart + lag && (refStart == 0 || candStart == 0)
    ensures PairsOf(PairsAt(ref, cand, refValid, candValid, refStart, candStart, 0), at, ref, cand, refValid, candValid,
                    lag, refStart + 0)
  {
    at := [];
  }

  lemma PairsAtMore(ref: seq<real>, cand: seq<real>, refValid: seq<bool>, candValid: seq<bool>, refStart: nat,
                    candStart: nat, n: nat, lag: int, before: seq<int>)
    returns (at: seq<int>)
    requires refStart + n + 1 <= |ref| && candStart + n + 1 <= |cand| && candStart == refStart + lag
    requires PairsOf(PairsAt(ref, cand, refValid, candValid, refStart, candStart, n), before, ref, cand, refValid,
                     candValid, lag, refStart + n)
    ensures PairsOf(PairsAt(ref, cand, refValid, candValid, refStart, candStart, n + 1), at, ref, cand, refValid,
                    candValid, lag, refStart + (n + 1))
  {
    var pairs, i := PairsAt(ref, cand, refValid, candValid, refStart, candStart, n), refStart + n;
    PairsAtStep(ref, cand, refValid, candValid, refStart, candStart, n, lag, i);
    if Comparable(ref, cand, refValid, candValid, lag, i) {
      at := before + [i];
      NextPair(pairs, before, ref, cand, refValid, candValid, lag, i, pairs + [Pair(ref[i], cand[i + lag])], at);
    } else {
      at := before;
      SkippedPair(pairs, before, ref, cand, refValid, candValid, lag, i);
    }
  }

  /** How many windows overlap at `lag`. */
  function Overlapping(refSize: nat, candSize: nat, lag: int): int {
    (if refSize < candSize - lag then refSize else candSize - lag) - (if lag < 0 then -lag else 0)
  }

  /**
   * A lag compares window `i` of the reference with window `i + lag` of the candidate, for
   * exactly the comparable `i`, in order; nothing when fewer than two windows overlap.
   */
  lemma LagPairsCompare(ref: seq<real>, cand: seq<real>, refValid: seq<bool>, candValid: seq<bool>, lag: int)
    returns (at: seq<int>)
    ensures Overlapping(|ref|, |cand|, lag) < 2 ==> LagPairs(ref, cand, refValid, candValid, lag) == []
    ensures Overlapping(|ref|, |cand|, lag) >= 2 ==>
      PairsOf(LagPairs(ref, cand, refValid, candValid, lag), at, ref, cand, refValid, candValid, lag, |ref|)
  {
    at := [];
    if Overlapping(|ref|, |cand|, lag) >= 2 {
      var n := Overlap(|ref|, |cand|, lag);
      at := PairsAtAre(ref, cand, refValid, candValid, Positive(-lag), Positive(lag), n, lag);
      assert forall i :: Positive(-lag) + n <= i ==> !Comparable(ref, cand, refValid, candValid, lag, i);
    }
  }

  // ----- a shifted copy -----

  /** The comparable windows agree when the candidate starts `s` windows late. */
  ghost predicate ShiftedCopy(ref: seq<real>, cand: seq<real>, refValid: seq<bool>, candValid: seq<bool>, s: int) {
    && Overlapping(|ref|, |cand|, s) >= 2
    && forall i :: Comparable(ref, cand, refValid, candValid, s, i) ==> cand[i + s] == ref[i]
  }

  lemma CopyMatches(ref: seq<real>, cand: seq<real>, refValid: seq<bool>, candValid: seq<bool>, s: int)
    requires ShiftedCopy(ref, cand, refValid, candValid, s)
    ensures SameShape(LagPairs(ref, cand, refValid, candValid, s), 1.0, 0.0)
    ensures MatchesAt(ref, cand, refValid, candValid, s)
  {
    var p := LagPairs(ref, cand, refValid, candValid, s);
    var at := LagPairsCompare(ref, cand, refValid, candValid, s);
    forall i | 0 <= i < |p| ensures p[i].x == 0.0 + Times(1.0, p[i].y) {
      TimesOne(p[i].y);
      TimesCommutes(1.0, p[i].y);
      assert Comparable(ref, cand, refValid, candValid, s, at[i]);
    }
  }

  /** The energies of the windows compared at a lag count: two windows at least, neither side flat. */
  predicate Counts(p: seq<Pair>) {
    |p| >= 2 && SumsOf(p).energyX >= 0.000000000001 && SumsOf(p).energyY >= 0.000000000001
  }

  /** A lag is scored exactly when its energies count. */
  lemma ScoredExactlyWhenItCounts(ref: seq<real>, cand: seq<real>, refValid: seq<bool>, candValid: seq<bool>, lag: int,
                                  sqrt: real -> real)
    requires IsSqrt(sqrt)
    ensures ScoreAt(LagScores(ref, cand, refValid, candValid, sqrt), lag).Some? <==>
      Counts(LagPairs(ref, cand, refValid, candValid, lag))
  {
    ScoreBounds(LagPairs(ref, cand, refValid, candValid, lag), sqrt);
  }

  /**
   * A candidate that is the reference `s` windows late, by what the masks let through, is
   * found: the estimate is valid with confidence 1, and its offset is `s` windows unless an
   * earlier lag matches in shape as well.
   */
  lemma ShiftIsFound(ref: seq<real>, cand: seq<real>, refValid: seq<bool>, candValid: seq<bool>, window: nat,
                     maxOffset: int, s: int, sqrt: real -> real)
    requires IsSqrt(sqrt) && window > 0 && -maxOffset <= s <= maxOffset
    requires ShiftedCopy(ref, cand, refValid, candValid, s) && Counts(LagPairs(ref, cand, refValid, candValid, s))
    ensures var r := Estimate(ref, cand, refValid, candValid, window, maxOffset, sqrt);
      && r.valid && r.confidence == 1.0
      && ((forall lag :: -maxOffset <= lag < s ==> !MatchesAt(ref, cand, refValid, candValid, lag)) ==>
            r.offsetSamples == s * window)
  {
    var scores := LagScores(ref, cand, refValid, candValid, sqrt);
    CopyMatches(ref, cand, refValid, candValid, s);
    ScoredExactlyWhenItCounts(ref, cand, refValid, candValid, s, sqrt);
    assert Searched(scores, maxOffset, s);
    ConfidenceIsOneExactlyOnMatch(ref, cand, refValid, candValid, window, maxOffset, sqrt);
    EstimateIsFirstMaximum(ref, cand, refValid, candValid, window, maxOffset, sqrt);
    if forall lag :: -maxOffset <= lag < s ==> !MatchesAt(ref, cand, refValid, candValid, lag) {
      FirstMatchIsTheOffset(ref, cand, refValid, candValid, window, maxOffset, s, sqrt);
    }
  }

  /** The first lag with score 1 is the one the search keeps. */
  lemma FirstOneIsBest(scores: int -> Option<real>, maxOffset: int, s: int)
    requires forall lag :: InRange(scores, lag)
    requires Searched(scores, maxOffset, s) && ScoreAt(scores, s).value == 1.0
    requires forall lag :: -maxOffset <= lag < s ==>
      !Searched(scores, maxOffset, lag) || ScoreAt(scores, lag).value != 1.0
    ensures BestOf(scores, -maxOffset, LagCount(maxOffset)) == Best(1.0, s)
  {
    SearchFindsFirstMaximum(scores, maxOffset);
    var b := BestOf(scores, -maxOffset, LagCount(maxOffset));
    assert InRange(scores, b.lag);
  }

  lemma MatchScoresOne(ref: seq<real>, cand: seq<real>, refValid: seq<bool>, candValid: seq<bool>, lag: int,
                       sqrt: real -> real)
    requires IsSqrt(sqrt) && ScoreAt(LagScores(ref, cand, refValid, candValid, sqrt), lag).Some?
    ensures ScoreAt(LagScores(ref, cand, refValid, candValid, sqrt), lag).value == 1.0 <==>
      MatchesAt(ref, cand, refValid, candValid, lag)
  {
    ScoreIsOneExactlyForSameShape(LagPairs(ref, cand, refValid, candValid, lag), sqrt);
  }

  /** Scores of 1 are matches in shape, so the first match is the first maximum. */
  lemma FirstMatchIsTheOffset(ref: seq<real>, cand: seq<real>, refValid: seq<bool>, candValid: seq<bool>, window: nat,
                              maxOffset: int, s: int, sqrt: real -> real)
    requires IsSqrt(sqrt) && ref != [] && cand != [] && window > 0
    requires Searched(LagScores(ref, cand, refValid, candValid, sqrt), maxOffset, s)
    requires MatchesAt(ref, cand, refValid, candValid, s)
    requires forall lag :: -maxOffset <= lag < s ==> !MatchesAt(ref, cand, refValid, candValid, lag)
    ensures Estimate(ref, cand, refValid, candValid, window, maxOffset, sqrt).offsetSamples == s * window
  {
    var scores := LagScores(ref, cand, refValid, candValid, sqrt);
    ScoresInRange(ref, cand, refValid, candValid, sqrt);
    MatchScoresOne(ref, cand, refValid, candValid, s, sqrt);
    forall lag | -maxOffset <= lag < s && Searched(scores, maxOffset, lag) ensures ScoreAt(scores, lag).value != 1.0 {
      MatchScoresOne(ref, cand, refValid, candValid, lag, sqrt);
    }
    FirstOneIsBest(scores, maxOffset, s);
  }

  // ----- energies from the windows -----

  lemma {:induction false} EnergyOfTwo(p: seq<Pair>, mx: real, my: real, n: nat, i: nat, j: nat)
    requires i < j < n <= |p|
    ensures EnergyX(p, mx, n) >= Times(p[i].x - mx, p[i].x - mx) + Times(p[j].x - mx, p[j].x - mx)
    ensures EnergyY(p, my, n) >= Times(p[i].y - my, p[i].y - my) + Times(p[j].y - my, p[j].y - my)
  {
    SquareSign(p[n - 1].x - mx);
    SquareSign(p[n - 1].y - my);
    if j < n - 1 {
      EnergyOfTwo(p, mx, my, n - 1, i, j);
    } else {
      EnergyOfOne(p, mx, my, n - 1, i);
    }
  }

  lemma {:induction false} EnergyOfOne(p: seq<Pair>, mx: real, my: real, n: nat, i: nat)
    requires i < n <= |p|
    ensures EnergyX(p, mx, n) >= Times(p[i].x - mx, p[i].x - mx)
    ensures EnergyY(p, my, n) >= Times(p[i].y - my, p[i].y - my)
  {
    SquareSign(p[n - 1].x - mx);
    SquareSign(p[n - 1].y - my);
    EnergiesAreNonNegative(p, mx, my, n - 1);
    if i < n - 1 { EnergyOfOne(p, mx, my, n - 1, i); }
  }

  /** Two values that differ by `2 * d` or more are not both within `d` of any mean. */
  lemma SpreadSquares(a: real, b: real, m: real, d: real)
    requires d > 0.0 && (a - b >= 2.0 * d || b - a >= 2.0 * d)
    ensures Times(a - m, a - m) + Times(b - m, b - m) >= Times(d, d)
  {
    SquareSign(a - m);
    SquareSign(b - m);
    SquareAtLeast(a - m, d);
    SquareAtLeast(b - m, d);
  }

  lemma SquareAtLeast(x: real, d: real)
    requires d > 0.0
    ensures x >= d || -x >= d ==> Times(x, x) >= Times(d, d)
  {
    SquaresAscend(d, x);
    SquaresAscend(d, -x);
    TimesNegated(x, x);
  }

  /** Two compared windows of each side that differ by 0.000002 are enough for the energies to count. */
  lemma SpreadWindowsCount(p: seq<Pair>, i: nat, j: nat)
    requires i < j < |p|
    requires p[i].x - p[j].x >= 0.000002 || p[j].x - p[i].x >= 0.000002
    requires p[i].y - p[j].y >= 0.000002 || p[j].y - p[i].y >= 0.000002
    ensures Counts(p)
  {
    var mx, my := Mean(SumX(p, |p|), |p|), Mean(SumY(p, |p|), |p|);
    EnergyOfTwo(p, mx, my, |p|, i, j);
    SpreadSquares(p[i].x, p[j].x, mx, 0.000001);
    SpreadSquares(p[i].y, p[j].y, my, 0.000001);
    assert Times(0.000001, 0.000001) == 0.000000000001;
  }

  /** The same from the inputs alone: two comparable windows that differ by 0.000002 keep both sides from being flat. */
  lemma SpreadShiftIsFound(ref: seq<real>, cand: seq<real>, refValid: seq<bool>, candValid: seq<bool>, window: nat,
                           maxOffset: int, s: int, sqrt: real -> real, i: int, j: int)
    requires IsSqrt(sqrt) && window > 0 && -maxOffset <= s <= maxOffset && i < j
    requires ShiftedCopy(ref, cand, refValid, candValid, s)
    requires Comparable(ref, cand, refValid, candValid, s, i) && Comparable(ref, cand, refValid, candValid, s, j)
    requires ref[i] - ref[j] >= 0.000002 || ref[j] - ref[i] >= 0.000002
    ensures var r := Estimate(ref, cand, refValid, candValid, window, maxOffset, sqrt);
      && r.valid && r.confidence == 1.0
      && ((forall lag :: -maxOffset <= lag < s ==> !MatchesAt(ref, cand, refValid, candValid, lag)) ==>
            r.offsetSamples == s * window)
  {
    CopyCounts(ref, cand, refValid, candValid, s, i, j);
    ShiftIsFound(ref, cand, refValid, candValid, window, maxOffset, s, sqrt);
  }

  lemma CopyCounts(ref: seq<real>, cand: seq<real>, refValid: seq<bool>, candValid: seq<bool>, s: int, i: int, j: int)
    requires ShiftedCopy(ref, cand, refValid, candValid, s) && i < j
    requires Comparable(ref, cand, refValid, candValid, s, i) && Comparable(ref, cand, refValid, candValid, s, j)
    requires ref[i] - ref[j] >= 0.000002 || ref[j] - ref[i] >= 0.000002
    ensures Counts(LagPairs(ref, cand, refValid, candValid, s))
  {
    var p := LagPairs(ref, cand, refValid, candValid, s);
    var at := LagPairsCompare(ref, cand, refValid, candValid, s);
    assert i in at && j in at;
    var k: nat :| k < |at| && at[k] == i;
    var l: nat :| l < |at| && at[l] == j;
    assert p[k] == Pair(ref[i], cand[i + s]) && p[l] == Pair(ref[j], cand[j + s]);
    SpreadWindowsCount(p, k, l);
  }

  // ----- the resampled candidate -----

  /**
   * `played` is the candidate played at `rate`: window `i` is read at position `i * rate`,
   * between the windows on both sides of it, and is valid when both are.
   */
  ghost predicate IsPlayed(played: seq<real>, playedValid: seq<bool>, cand: seq<real>, candValid: seq<bool>, rate: real)
  {
    && rate > 0.0 && |played| == |playedValid| && |played| as real <= |cand| as real / rate < |played| as real + 1.0
    && forall i :: 0 <= i < |played| ==>
         IsPlayedAt(played[i], playedValid[i], cand, candValid, Times(i as real, rate))
  }

  /** Value and validity at position `x` of the candidate. */
  predicate IsPlayedAt(value: real, valid: bool, cand: seq<real>, candValid: seq<bool>, x: real) {
    && 0 <= x.Floor < |cand|
    && var lower, fraction := x.Floor, x - x.Floor as real;
       var upper := if lower + 1 < |cand| then lower + 1 else lower;
       && value == Times(cand[lower], 1.0 - fraction) + Times(cand[upper], fraction)
       && (valid <==> |candValid| == |cand| ==> candValid[lower] && candValid[upper])
  }

  lemma {:induction false} ResampledAtIndex(cand: seq<real>, candValid: seq<bool>, rate: real, n: nat, i: nat)
    requires rate > 0.0 && i < n <= Positive(ResampledSize(|cand|, rate))
    ensures Resampled(cand, rate, n)[i] == ResampledAt(cand, rate, i)
    ensures ResampledValid(candValid, |cand|, rate, n)[i] == ResampledValidAt(candValid, |cand|, rate, i)
  {
    if i < n - 1 { ResampledAtIndex(cand, candValid, rate, n - 1, i); }
  }

  lemma PlayedAtPosition(cand: seq<real>, candValid: seq<bool>, rate: real, i: nat)
    requires rate > 0.0 && i < ResampledSize(|cand|, rate)
    ensures IsPlayedAt(ResampledAt(cand, rate, i), ResampledValidAt(candValid, |cand|, rate, i), cand, candValid,
                       Position(i, rate))
  {
    PositionInBounds(i, |cand|, rate);
  }

  lemma PlayedAtIndex(cand: seq<real>, candValid: seq<bool>, rate: real, n: nat, i: nat)
    requires rate > 0.0 && i < n && n == ResampledSize(|cand|, rate)
    ensures IsPlayedAt(Resampled(cand, rate, n)[i], ResampledValid(candValid, |cand|, rate, n)[i], cand, candValid,
                       Times(i as real, rate))
  {
    ResampledAtIndex(cand, candValid, rate, n, i);
    PlayedAtPosition(cand, candValid, rate, i);
  }

  /** What the resampling loop computes is the candidate played at the rate. */
  lemma ResampledIsPlayed(cand: seq<real>, candValid: seq<bool>, rate: real, n: nat)
    requires rate > 0.0 && n == ResampledSize(|cand|, rate)
    ensures IsPlayed(Resampled(cand, rate, n), ResampledValid(candValid, |cand|, rate, n), cand, candValid, rate)
  {
    forall i | 0 <= i < n
      ensures IsPlayedAt(Resampled(cand, rate, n)[i], ResampledValid(candValid, |cand|, rate, n)[i], cand, candValid,
                         Times(i as real, rate))
    {
      PlayedAtIndex(cand, candValid, rate, n, i);
    }
  }

  /** There is only one such sequence, and the loop computes it. */
  lemma PlayedIsResampled(played: seq<real>, playedValid: seq<bool>, cand: seq<real>, candValid: seq<bool>, rate: real,
                          n: nat)
    requires IsPlayed(played, playedValid, cand, candValid, rate) && n == |played|
    ensures n == ResampledSize(|cand|, rate)
    ensures played == Resampled(cand, rate, n) && playedValid == ResampledValid(candValid, |cand|, rate, n)
  {
    assert Rounded(|cand| as real / rate) == n;
    forall i | 0 <= i < n
      ensures played[i] == Resampled(cand, rate, n)[i]
      ensures playedValid[i] == ResampledValid(candValid, |cand|, rate, n)[i]
    {
      PlayedAtIndex(cand, candValid, rate, n, i);
    }
  }

  /** A straight envelope played at any rate is as straight: window `i` shows what stood at `i * rate`. */
  lemma StraightStaysStraight(cand: seq<real>, rate: real, n: nat, i: nat, a: real, b: real, x: real)
    requires rate > 0.0 && i < n && n == ResampledSize(|cand|, rate)
    requires x == Times(i as real, rate) <= (|cand| - 1) as real
    requires forall k :: 0 <= k < |cand| ==> cand[k] == a + Times(b, k as real)
    ensures Resampled(cand, rate, n)[i] == a + Times(b, x)
  {
    PlayedAtIndex(cand, [], rate, n, i);
    var lower := x.Floor;
    if lower + 1 < |cand| {
      StraightBetween(a, b, lower as real, x - lower as real, cand[lower], cand[lower + 1]);
    } else {
      StraightBetween(a, b, lower as real, 0.0, cand[lower], a + Times(b, lower as real + 1.0));
      TimesZero(cand[lower]);
      TimesZero(a + Times(b, lower as real + 1.0));
    }
  }

  lemma StraightBetween(a: real, b: real, l: real, f: real, u: real, v: real)
    requires u == a + Times(b, l) && v == a + Times(b, l + 1.0)
    ensures Times(u, 1.0 - f) + Times(v, f) == a + Times(b, l + f)
  {
    TimesAdds(b, l, 1.0);
    TimesAdds(b, l, f);
    TimesCommutes(b, 1.0);
    TimesOne(b);
    assert v == u + b;
    TimesSubtracts(u, 1.0, f);
    TimesCommutes(u, 1.0);
    TimesOne(u);
    TimesAdds(f, u, b);
  }

  // ----- a stretched and shifted copy -----

  lemma EstimateOfPlayed(ref: seq<real>, cand: seq<real>, refValid: seq<bool>, candValid: seq<bool>, window: nat,
                         maxOffset: int, minRate: real, step: real, sqrt: real -> real, k: nat, played: seq<real>,
                         playedValid: seq<bool>)
    requires |played| >= 2 && IsPlayed(played, playedValid, cand, candValid, minRate + Times(k as real, step))
    ensures GridRate(minRate, step, k) == minRate + Times(k as real, step)
    ensures EstimateAt(GridEstimates(ref, cand, refValid, candValid, window, maxOffset, minRate, step, sqrt), k)
      == Estimate(ref, played, refValid, playedValid, window, maxOffset, sqrt)
  {
    var rate := minRate + Times(k as real, step);
    RateOfGrid(minRate, step, k);
    EstimateAtPlayed(ref, cand, refValid, candValid, window, maxOffset, rate, sqrt, played, playedValid);
    EstimateOfGrid(ref, cand, refValid, candValid, window, maxOffset, minRate, step, sqrt, k, rate);
  }

  lemma RateOfGrid(minRate: real, step: real, k: nat)
    ensures GridRate(minRate, step, k) == minRate + Times(k as real, step)
  {
    ScaleIsProduct(k, step);
  }

  lemma EstimateOfGrid(ref: seq<real>, cand: seq<real>, refValid: seq<bool>, candValid: seq<bool>, window: nat,
                       maxOffset: int, minRate: real, step: real, sqrt: real -> real, k: nat, rate: real)
    requires rate == GridRate(minRate, step, k)
    ensures EstimateAt(GridEstimates(ref, cand, refValid, candValid, window, maxOffset, minRate, step, sqrt), k)
      == EstimateAtRate(ref, cand, refValid, candValid, window, maxOffset, rate, sqrt)
  {
  }

  lemma EstimateAtPlayed(ref: seq<real>, cand: seq<real>, refValid: seq<bool>, candValid: seq<bool>, window: nat,
                         maxOffset: int, rate: real, sqrt: real -> real, played: seq<real>, playedValid: seq<bool>)
    requires |played| >= 2 && IsPlayed(played, playedValid, cand, candValid, rate)
    ensures EstimateAtRate(ref, cand, refValid, candValid, window, maxOffset, rate, sqrt)
      == Estimate(ref, played, refValid, playedValid, window, maxOffset, sqrt)
  {
    PlayedIsResampled(played, playedValid, cand, candValid, rate, |played|);
  }

  lemma ConfidenceAtMostOne(ref: seq<real>, cand: seq<real>, refValid: seq<bool>, candValid: seq<bool>, window: nat,
                            maxOffset: int, rate: real, sqrt: real -> real)
    requires IsSqrt(sqrt)
    ensures EstimateAtRate(ref, cand, refValid, candValid, window, maxOffset, rate, sqrt).confidence <= 1.0
  {
    if rate > 0.0 && ResampledSize(|cand|, rate) >= 2 && ref != [] && window > 0 {
      var n := ResampledSize(|cand|, rate);
      EstimateIsFirstMaximum(ref, Resampled(cand, rate, n), refValid, ResampledValid(candValid, |cand|, rate, n),
          window, maxOffset, sqrt);
    }
  }

  lemma BestOfPerfect(result: StretchOffsetResult, estimates: nat -> OffsetResult, minRate: real, step: real, n: nat,
                      k: nat)
    requires IsBestOfGrid(result, estimates, minRate, step, n) && k < n
    requires EstimateAt(estimates, k).valid && EstimateAt(estimates, k).confidence == 1.0
    requires forall l: nat :: l < n ==> EstimateAt(estimates, l).confidence <= 1.0
    ensures result.valid && result.confidence == 1.0
    ensures (forall l: nat :: l < k ==> EstimateAt(estimates, l).confidence < 1.0) ==>
      result.rate == GridRate(minRate, step, k) && result.offsetSamples == EstimateAt(estimates, k).offsetSamples
  {
    var best: nat :| best < n && Chosen(result, estimates, minRate, step, n, best);
    assert EstimateAt(estimates, best).confidence <= 1.0;
  }

  /**
   * A rate of the grid at which the played candidate is the reference some windows late is
   * found: the stretch search is valid with confidence 1, and returns this rate when no
   * earlier one has confidence 1.
   */
  lemma StretchIsFound(ref: seq<real>, cand: seq<real>, refValid: seq<bool>, candValid: seq<bool>, window: nat,
                       maxOffset: int, minRate: real, step: real, sqrt: real -> real, result: StretchOffsetResult,
                       rates: nat, k: nat, played: seq<real>, playedValid: seq<bool>, s: int, i: int, j: int)
    requires IsSqrt(sqrt) && window > 0 && -maxOffset <= s <= maxOffset && k < rates
    requires IsBestOfGrid(result, GridEstimates(ref, cand, refValid, candValid, window, maxOffset, minRate, step, sqrt),
                          minRate, step, rates)
    requires |played| >= 2 && IsPlayed(played, playedValid, cand, candValid, minRate + Times(k as real, step))
    requires ShiftedCopy(ref, played, refValid, playedValid, s) && i < j
    requires Comparable(ref, played, refValid, playedValid, s, i)
    requires Comparable(ref, played, refValid, playedValid, s, j)
    requires ref[i] - ref[j] >= 0.000002 || ref[j] - ref[i] >= 0.000002
    ensures result.valid && result.confidence == 1.0
    ensures var estimates := GridEstimates(ref, cand, refValid, candValid, window, maxOffset, minRate, step, sqrt);
      (forall l: nat :: l < k ==> EstimateAt(estimates, l).confidence < 1.0) ==>
        result.rate == minRate + Times(k as real, step)
        && result.offsetSamples == Estimate(ref, played, refValid, playedValid, window, maxOffset, sqrt).offsetSamples
  {
    var estimates := GridEstimates(ref, cand, refValid, candValid, window, maxOffset, minRate, step, sqrt);
    EstimateOfPlayed(ref, cand, refValid, candValid, window, maxOffset, minRate, step, sqrt, k, played, playedValid);
    SpreadShiftIsFound(ref, played, refValid, playedValid, window, maxOffset, s, sqrt, i, j);
    forall l: nat | l < rates ensures EstimateAt(estimates, l).confidence <= 1.0 {
      ConfidenceAtMostOne(ref, cand, refValid, candValid, window, maxOffset, GridRate(minRate, step, l), sqrt);
    }
    BestOfPerfect(result, estimates, minRate, step, rates, k);
  }

  /**
   * How many rates are tried between the bounds: one for every whole step, and one more when at
   * least half a step is left over. A range of whole steps is tried up to its upper bound.
   */
  lemma GridCounts(minRate: real, maxRate: real, step: real, n: nat, left: real, rates: nat)
    requires step > 0.0 && maxRate == minRate + Times(n as real, step) + left && 0.0 <= left < step
    requires forall k: nat :: OnGrid(minRate, maxRate, step, k) <==> k < rates
    ensures rates == if left + left < step then n + 1 else n + 2
  {
    ScaleIsProduct(n, step);
    assert Scale(n + 1, step) == Scale(n, step) + step;
    assert Scale(n + 2, step) == Scale(n + 1, step) + step;
    assert OnGrid(minRate, maxRate, step, n);
    assert OnGrid(minRate, maxRate, step, n + 1) <==> left + left >= step;
    assert !OnGrid(minRate, maxRate, step, n + 2);
  }

  // ----- the envelope itself -----

  /** The samples of a window, the first `count` channels one after the other. */
  function WindowSamples(planar: seq<seq<real>>, count: nat, from: nat, to: nat): seq<real>
    requires count <= |planar| && from <= to && forall ch :: 0 <= ch < |planar| ==> to <= |planar[ch]|
  {
    if count == 0 then [] else WindowSamples(planar, count - 1, from, to) + planar[count - 1][from..to]
  }

  function SquareSum(s: seq<real>): real {
    if s == [] then 0.0 else SquareSum(s[..|s| - 1]) + Times(s[|s| - 1], s[|s| - 1])
  }

  lemma {:induction false} SquareSumJoins(a: seq<real>, b: seq<real>)
    ensures SquareSum(a + b) == SquareSum(a) + SquareSum(b)
  {
    if b == [] {
      assert a + b == a;
    } else {
      SquareSumJoins(a, b[..|b| - 1]);
      assert (a + b)[..|a + b| - 1] == a + b[..|b| - 1];
    }
  }

  lemma {:induction false} PlaneSquaresAreSum(plane: seq<real>, from: nat, to: nat)
    requires from <= to <= |plane|
    ensures PlaneSquares(plane, from, to) == SquareSum(plane[from..to])
  {
    if from < to {
      PlaneSquaresAreSum(plane, from, to - 1);
      assert plane[from..to][..to - from - 1] == plane[from..to - 1];
    }
  }

  lemma {:induction false} SquaresAreSum(planar: seq<seq<real>>, count: nat, from: nat, to: nat)
    requires count <= |planar| && from <= to && forall ch :: 0 <= ch < |planar| ==> to <= |planar[ch]|
    ensures Squares(planar, count, from, to) == SquareSum(WindowSamples(planar, count, from, to))
    ensures |WindowSamples(planar, count, from, to)| == Stride(count, to - from)
  {
    if count > 0 {
      SquaresAreSum(planar, count - 1, from, to);
      PlaneSquaresAreSum(planar[count - 1], from, to);
      SquareSumJoins(WindowSamples(planar, count - 1, from, to), planar[count - 1][from..to]);
    }
  }

  /**
   * A window value is the root mean square of the window's samples over all channels: squared
   * and times their number it is the sum of their squares. Window `w` starts at `w * window`
   * and ends a window later or with the samples.
   */
  lemma WindowRmsIsRootMeanSquare(planar: seq<seq<real>>, w: nat, window: nat, sqrt: real -> real, from: nat, to: nat,
                                  samples: seq<real>)
    requires IsSqrt(sqrt) && planar != [] && forall ch :: 0 <= ch < |planar| ==> |planar[ch]| >= |planar[0]|
    requires from == w * window < |planar[0]| && window > 0
    requires to == if from + window < |planar[0]| then from + window else |planar[0]|
    requires samples == WindowSamples(planar, |planar|, from, to)
    ensures |samples| == |planar| * (to - from) > 0 && WindowRms(planar, w, window, sqrt) >= 0.0
    ensures var rms := WindowRms(planar, w, window, sqrt);
      Times(Times(rms, rms), |samples| as real) == SquareSum(samples)
  {
    StrideIsProduct(w, window);
    StrideIsProduct(|planar|, to - from);
    SquaresAreSum(planar, |planar|, from, to);
    SquareSumSign(samples);
    RootOfMean(sqrt, SquareSum(samples), |samples|);
  }

  lemma {:induction false} SquareSumSign(s: seq<real>)
    ensures SquareSum(s) >= 0.0
  {
    if s != [] {
      SquareSumSign(s[..|s| - 1]);
      SquareSign(s[|s| - 1]);
    }
  }

  lemma RootOfMean(sqrt: real -> real, sum: real, n: nat)
    requires IsSqrt(sqrt) && sum >= 0.0 && n > 0
    ensures var r := Root(sqrt, sum / n as real); r >= 0.0 && Times(Times(r, r), n as real) == sum
  {
    QuotientTimes(sum, n as real);
    assert sum / n as real >= 0.0;
  }
}
