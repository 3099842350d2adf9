/**
 * Waveform-based synchronization (crates/oak-audio/src/waveformsync.rs): RMS envelopes, the
 * masked offset search and the stretch search. The square root is a parameter, given
 * by what a root has to be.
 */
module WaveformSync {
  import opened Wrappers
  import opened Correlation
  import opened Strides

  datatype OffsetResult = OffsetResult(offsetSamples: int, confidence: real, valid: bool)

  datatype StretchOffsetResult = StretchOffsetResult(rate: real, offsetSamples: int, confidence: real, valid: bool)

  /** A mask of the wrong length is no mask. */
  predicate IsValid(mask: seq<bool>, size: nat, index: nat) {
    |mask| != size || (index < |mask| && mask[index])
  }

  // ----- what one lag compares -----

  /** The jointly valid windows among the first `n` of an overlap. */
  function PairsAt(ref: seq<real>, cand: seq<real>, refValid: seq<bool>, candValid: seq<bool>,
                   refStart: nat, candStart: nat, n: nat): seq<Pair>
    requires refStart + n <= |ref| && candStart + n <= |cand|
  {
    if n == 0 then []
    else
      var before := PairsAt(ref, cand, refValid, candValid, refStart, candStart, n - 1);
      var i, j := refStart + n - 1, candStart + n - 1;
      if IsValid(refValid, |ref|, i) && IsValid(candValid, |cand|, j) then before + [Pair(ref[i], cand[j])] else before
  }

  function Positive(x: int): nat {
    if x > 0 then x else 0
  }

  /** Windows in which the reference and the candidate shifted by `lag` overlap. */
  function Overlap(refSize: nat, candSize: nat, lag: int): int {
    var a, b := refSize - Positive(-lag), candSize - Positive(lag);
    if a < b then a else b
  }

  function LagPairs(ref: seq<real>, cand: seq<real>, refValid: seq<bool>, candValid: seq<bool>, lag: int): seq<Pair> {
    var n := Overlap(|ref|, |cand|, lag);
    if n < 2 then [] else PairsAt(ref, cand, refValid, candValid, Positive(-lag), Positive(lag), n)
  }

  function LagScore(ref: seq<real>, cand: seq<real>, refValid: seq<bool>, candValid: seq<bool>, lag: int,
                    sqrt: real -> real): Option<real> {
    Score(LagPairs(ref, cand, refValid, candValid, lag), sqrt)
  }

  /** The score of every lag; `None` for a lag that is skipped. */
  function LagScores(ref: seq<real>, cand: seq<real>, refValid: seq<bool>, candValid: seq<bool>,
                     sqrt: real -> real): int -> Option<real> {
    (lag: int) => LagScore(ref, cand, refValid, candValid, lag, sqrt)
  }

  function ScoreAt(scores: int -> Option<real>, lag: int): Option<real> {
    scores(lag)
  }

  // ----- the best of a run of lags -----

  datatype Best = Best(score: real, lag: int)

  /** The search over `n` lags from `from` on. */
  function BestOf(scores: int -> Option<real>, from: int, n: nat): Best {
    if n == 0 then Best(-2.0, 0)
    else
      var before := BestOf(scores, from, n - 1);
      var s := ScoreAt(scores, from + n - 1);
      if s.Some? && s.value > before.score then Best(s.value, from + n - 1) else before
  }

  ghost predicate InRange(scores: int -> Option<real>, lag: int) {
    ScoreAt(scores, lag).Some? ==> -1.0 <= ScoreAt(scores, lag).value <= 1.0
  }

  ghost predicate Eligible(scores: int -> Option<real>, from: int, n: nat, lag: int) {
    from <= lag < from + n && ScoreAt(scores, lag).Some?
  }

  /** The search finds the first lag whose score no eligible lag exceeds. */
  lemma {:induction false} BestIsFirstMaximum(scores: int -> Option<real>, from: int, n: nat)
    requires forall lag :: InRange(scores, lag)
    ensures var b := BestOf(scores, from, n);
      && (b.score > -2.0 <==> exists lag :: Eligible(scores, from, n, lag))
      && (b.score > -2.0 ==>
            && Eligible(scores, from, n, b.lag) && ScoreAt(scores, b.lag).value == b.score && -1.0 <= b.score <= 1.0
            && forall lag :: Eligible(scores, from, n, lag) ==>
                 ScoreAt(scores, lag).value <= b.score && (lag < b.lag ==> ScoreAt(scores, lag).value < b.score))
      && (b.score <= -2.0 ==> b == Best(-2.0, 0))
  {
    if n > 0 {
      BestIsFirstMaximum(scores, from, n - 1);
      var before, b := BestOf(scores, from, n - 1), BestOf(scores, from, n);
      var last := from + n - 1;
      assert InRange(scores, last);
      forall lag
        ensures Eligible(scores, from, n, lag) <==>
          Eligible(scores, from, n - 1, lag) || (lag == last && ScoreAt(scores, last).Some?)
      {
      }
      if ScoreAt(scores, last).Some? { assert Eligible(scores, from, n, last); }
      if before.score > -2.0 { assert Eligible(scores, from, n - 1, before.lag); assert Eligible(scores, from, n,
          before.lag); }
    }
  }

  // ----- estimate_envelope_offset_valid -----

  /** Lags searched: `-maxOffset..=maxOffset`, none for a negative bound. */
  function LagCount(maxOffset: int): nat {
    if maxOffset < 0 then 0 else 2 * maxOffset + 1
  }

  function Estimate(ref: seq<real>, cand: seq<real>, refValid: seq<bool>, candValid: seq<bool>,
                    window: nat, maxOffset: int, sqrt: real -> real): OffsetResult {
    if ref == [] || cand == [] || window == 0 then OffsetResult(0, 0.0, false)
    else
      var best := BestOf(LagScores(ref, cand, refValid, candValid, sqrt), -maxOffset, LagCount(maxOffset));
      if best.score > -2.0 then OffsetResult(best.lag * window, if best.score < 0.0 then 0.0 else best.score, true)
      else OffsetResult(0, 0.0, false)
  }

  lemma {:induction false} SumsOfPrefix(p: seq<Pair>, q: seq<Pair>, mx: real, my: real, n: nat)
    requires n <= |p| && p <= q
    ensures SumX(p, n) == SumX(q, n) && SumY(p, n) == SumY(q, n) && Cross(p, mx, my, n) == Cross(q, mx, my, n)
    ensures EnergyX(p, mx, n) == EnergyX(q, mx, n) && EnergyY(p, my, n) == EnergyY(q, my, n)
  {
    if n > 0 { SumsOfPrefix(p, q, mx, my, n - 1); }
  }

  /** First loop of a lag: the sums and the number of the jointly valid windows. */
  method SumLag(ref: seq<real>, cand: seq<real>, refValid: seq<bool>, candValid: seq<bool>, refStart: nat,
                candStart: nat, overlap: nat)
    returns (refSum: real, candSum: real, validCount: nat)
    requires refStart + overlap <= |ref| && candStart + overlap <= |cand|
    ensures var p := PairsAt(ref, cand, refValid, candValid, refStart, candStart, overlap);
      refSum == SumX(p, |p|) && candSum == SumY(p, |p|) && validCount == |p|
  {
    refSum, candSum, validCount := 0.0, 0.0, 0;
    ghost var p: seq<Pair> := [];
    for i := 0 to overlap
      invariant p == PairsAt(ref, cand, refValid, candValid, refStart, candStart, i)
      invariant refSum == SumX(p, |p|) && candSum == SumY(p, |p|) && validCount == |p|
    {
      if IsValid(refValid, |ref|, refStart + i) && IsValid(candValid, |cand|, candStart + i) {
        refSum := refSum + ref[refStart + i];
        candSum := candSum + cand[candStart + i];
        validCount := validCount + 1;
        ghost var q := p + [Pair(ref[refStart + i], cand[candStart + i])];
        SumsOfPrefix(p, q, 0.0, 0.0, |p|);
        p := q;
      }
    }
  }

  lemma AddedPair(p: seq<Pair>, q: seq<Pair>, mx: real, my: real)
    requires |q| == |p| + 1 && p == q[..|p|]
    ensures Cross(q, mx, my, |q|) == Cross(p, mx, my, |p|) + Times(q[|p|].x - mx, q[|p|].y - my)
    ensures EnergyX(q, mx, |q|) == EnergyX(p, mx, |p|) + Times(q[|p|].x - mx, q[|p|].x - mx)
    ensures EnergyY(q, my, |q|) == EnergyY(p, my, |p|) + Times(q[|p|].y - my, q[|p|].y - my)
  {
    SumsOfPrefix(p, q, mx, my, |p|);
  }

  /** Second loop of a lag: cross product and energies of the deviations. */
  method CorrelateLag(ref: seq<real>, cand: seq<real>, refValid: seq<bool>, candValid: seq<bool>, refStart: nat,
                      candStart: nat,
                      overlap: nat, refMean: real, candMean: real)
    returns (s: Sums)
    requires refStart + overlap <= |ref| && candStart + overlap <= |cand|
    ensures var p := PairsAt(ref, cand, refValid, candValid, refStart, candStart, overlap);
      s == Sums(Cross(p, refMean, candMean, |p|), EnergyX(p, refMean, |p|), EnergyY(p, candMean, |p|))
  {
    var numerator, refEnergy, candEnergy := 0.0, 0.0, 0.0;
    ghost var p: seq<Pair> := [];
    for i := 0 to overlap
      invariant p == PairsAt(ref, cand, refValid, candValid, refStart, candStart, i)
      invariant numerator == Cross(p, refMean, candMean, |p|)
      invariant refEnergy == EnergyX(p, refMean, |p|) && candEnergy == EnergyY(p, candMean, |p|)
    {
      if IsValid(refValid, |ref|, refStart + i) && IsValid(candValid, |cand|, candStart + i) {
        var refValue, candValue := ref[refStart + i] - refMean, cand[candStart + i] - candMean;
        numerator := numerator + Times(refValue, candValue);
        refEnergy := refEnergy + Times(refValue, refValue);
        candEnergy := candEnergy + Times(candValue, candValue);
        ghost var q := p + [Pair(ref[refStart + i], cand[candStart + i])];
        AddedPair(p, q, refMean, candMean);
        p := q;
      }
    }
    s := Sums(numerator, refEnergy, candEnergy);
  }

  /** The body of the lag loop: the score of one lag, or nothing when it is skipped. */
  method ScoreLag(ref: seq<real>, cand: seq<real>, refValid: seq<bool>, candValid: seq<bool>, lag: int,
                  sqrt: real -> real)
    returns (score: Option<real>)
    ensures score == LagScore(ref, cand, refValid, candValid, lag, sqrt)
  {
    var refStart, candStart := Positive(-lag), Positive(lag);
    var overlap := Overlap(|ref|, |cand|, lag);
    if overlap < 2 {
      return None;
    }
    var refSum, candSum, validCount := SumLag(ref, cand, refValid, candValid, refStart, candStart, overlap);
    if validCount < 2 {
      return None;
    }
    var s := CorrelateLag(ref, cand, refValid, candValid, refStart, candStart, overlap,
                          refSum / validCount as real, candSum / validCount as real);
    if Abs(s.energyX) < FUZZY_NULL || Abs(s.energyY) < FUZZY_NULL {
      return None;
    }
    score := Some(Ratio(s.cross, Root(sqrt, Times(s.energyX, s.energyY))));
  }

  /** `estimate_envelope_offset_valid`. */
  method EstimateEnvelopeOffsetValid(ref: seq<real>, cand: seq<real>, refValid: seq<bool>, candValid: seq<bool>,
                                     window: nat, maxOffset: int, sqrt: real -> real)
    returns (result: OffsetResult)
    ensures result == Estimate(ref, cand, refValid, candValid, window, maxOffset, sqrt)
  {
    result := OffsetResult(0, 0.0, false);
    if ref == [] || cand == [] || window == 0 {
      return;
    }
    var bestScore, bestLag := -2.0, 0;
    ghost var scores := LagScores(ref, cand, refValid, candValid, sqrt);
    ghost var n: nat := 0;
    var lag := -maxOffset;
    while lag <= maxOffset
      invariant n <= LagCount(maxOffset) && lag == -maxOffset + n
      invariant Best(bestScore, bestLag) == BestOf(scores, -maxOffset, n)
      decreases maxOffset - lag
    {
      var score := ScoreLag(ref, cand, refValid, candValid, lag, sqrt);
      assert score == ScoreAt(scores, lag);
      if score.Some? && score.value > bestScore {
        bestScore, bestLag := score.value, lag;
      }
      lag := lag + 1;
      n := n + 1;
    }
    assert n == LagCount(maxOffset);
    if bestScore > -2.0 {
      result := OffsetResult(bestLag * window, if bestScore < 0.0 then 0.0 else bestScore, true);
    }
  }

  // ----- what the estimate means -----

  /** A lag that is searched and can be scored. */
  ghost predicate Searched(scores: int -> Option<real>, maxOffset: int, lag: int) {
    -maxOffset <= lag <= maxOffset && ScoreAt(scores, lag).Some?
  }

  lemma SearchFindsFirstMaximum(scores: int -> Option<real>, maxOffset: int)
    requires forall lag :: InRange(scores, lag)
    ensures var b := BestOf(scores, -maxOffset, LagCount(maxOffset));
      && (b.score > -2.0 <==> exists lag :: Searched(scores, maxOffset, lag))
      && (b.score > -2.0 ==>
            && Searched(scores, maxOffset, b.lag) && ScoreAt(scores, b.lag).value == b.score && -1.0 <= b.score <= 1.0
            && forall lag :: Searched(scores, maxOffset, lag) ==>
                 ScoreAt(scores, lag).value <= b.score && (lag < b.lag ==> ScoreAt(scores, lag).value < b.score))
      && (b.score <= -2.0 ==> b == Best(-2.0, 0))
  {
    BestIsFirstMaximum(scores, -maxOffset, LagCount(maxOffset));
    forall lag ensures Searched(scores, maxOffset, lag) <==> Eligible(scores, -maxOffset, LagCount(maxOffset), lag) {
    }
    var b := BestOf(scores, -maxOffset, LagCount(maxOffset));
    if b.score > -2.0 { assert Searched(scores, maxOffset, b.lag); }
    forall lag | Searched(scores, maxOffset, lag) ensures b.score > -2.0 {
      assert Eligible(scores, -maxOffset, LagCount(maxOffset), lag);
    }
  }

  lemma ScoresInRange(ref: seq<real>, cand: seq<real>, refValid: seq<bool>, candValid: seq<bool>, sqrt: real -> real)
    requires IsSqrt(sqrt)
    ensures forall lag :: InRange(LagScores(ref, cand, refValid, candValid, sqrt), lag)
  {
    forall lag ensures InRange(LagScores(ref, cand, refValid, candValid, sqrt), lag) {
      ScoreBounds(LagPairs(ref, cand, refValid, candValid, lag), sqrt);
    }
  }

  /**
   * The estimate is valid exactly when some lag in range can be scored; its offset is
   * then the first lag with the highest score, and its confidence that score, or 0
   * when it is negative. The confidence lies in [0, 1].
   */
  lemma EstimateIsFirstMaximum(ref: seq<real>, cand: seq<real>, refValid: seq<bool>, candValid: seq<bool>,
                               window: nat, maxOffset: int, sqrt: real -> real)
    requires IsSqrt(sqrt) && ref != [] && cand != [] && window > 0
    ensures var r := Estimate(ref, cand, refValid, candValid, window, maxOffset, sqrt);
      var scores := LagScores(ref, cand, refValid, candValid, sqrt);
      && 0.0 <= r.confidence <= 1.0
      && (r.valid <==> exists lag :: Searched(scores, maxOffset, lag))
      && (r.valid ==> exists best ::
            && Searched(scores, maxOffset, best)
            && r.offsetSamples == best * window
            && r.confidence == Positively(ScoreAt(scores, best).value)
            && forall lag :: Searched(scores, maxOffset, lag) ==>
                 ScoreAt(scores, lag).value <= ScoreAt(scores, best).value
                     && (lag < best ==> ScoreAt(scores, lag).value < ScoreAt(scores, best).value))
  {
    var scores := LagScores(ref, cand, refValid, candValid, sqrt);
    ScoresInRange(ref, cand, refValid, candValid, sqrt);
    SearchFindsFirstMaximum(scores, maxOffset);
    var b := BestOf(scores, -maxOffset, LagCount(maxOffset));
    if b.score > -2.0 {
      assert Searched(scores, maxOffset, b.lag);
    }
  }

  function Positively(x: real): real {
    if x < 0.0 then 0.0 else x
  }

  /** At `lag`, the windows that count agree up to a positive gain and a constant. */
  ghost predicate MatchesAt(ref: seq<real>, cand: seq<real>, refValid: seq<bool>, candValid: seq<bool>, lag: int) {
    exists gain: real, offset: real :: SameShape(LagPairs(ref, cand, refValid, candValid, lag), gain, offset)
  }

  /**
   * The confidence is exactly 1 if and only if at some scored lag in range the
   * candidate has the shape of the reference.
   */
  lemma ConfidenceIsOneExactlyOnMatch(ref: seq<real>, cand: seq<real>, refValid: seq<bool>, candValid: seq<bool>,
                                      window: nat, maxOffset: int, sqrt: real -> real)
    requires IsSqrt(sqrt) && ref != [] && cand != [] && window > 0
    ensures Estimate(ref, cand, refValid, candValid, window, maxOffset, sqrt).confidence == 1.0 <==>
      exists lag :: Searched(LagScores(ref, cand, refValid, candValid, sqrt), maxOffset, lag)
                 && MatchesAt(ref, cand, refValid, candValid, lag)
  {
    var scores := LagScores(ref, cand, refValid, candValid, sqrt);
    var n := LagCount(maxOffset);
    ScoresInRange(ref, cand, refValid, candValid, sqrt);
    SearchFindsFirstMaximum(scores, maxOffset);
    var b := BestOf(scores, -maxOffset, n);
    if b.score == 1.0 {
      ScoreIsOneExactlyForSameShape(LagPairs(ref, cand, refValid, candValid, b.lag), sqrt);
      assert Searched(scores, maxOffset, b.lag) && MatchesAt(ref, cand, refValid, candValid, b.lag);
    }
    forall lag | Searched(scores, maxOffset, lag) && MatchesAt(ref, cand, refValid, candValid, lag)
      ensures b.score == 1.0
    {
      ScoreIsOneExactlyForSameShape(LagPairs(ref, cand, refValid, candValid, lag), sqrt);
      assert ScoreAt(scores, lag).value == 1.0;
    }
  }

  // ----- the RMS envelope -----

  /** Sum of the squares of the samples `from..to` of one plane. */
  function PlaneSquares(plane: seq<real>, from: nat, to: nat): (r: real)
    requires to <= |plane|
  {
    if to <= from then 0.0 else PlaneSquares(plane, from, to - 1) + Times(plane[to - 1], plane[to - 1])
  }

  /** Sum of the squares of the samples `from..to` of the first `count` planes. */
  function Squares(planar: seq<seq<real>>, count: nat, from: nat, to: nat): real
    requires count <= |planar| && forall ch :: 0 <= ch < |planar| ==> to <= |planar[ch]|
  {
    if count == 0 then 0.0 else Squares(planar, count - 1, from, to) + PlaneSquares(planar[count - 1], from, to)
  }

  lemma {:induction false} PlaneSquaresBounded(plane: seq<real>, from: nat, to: nat, peak: real)
    requires from <= to <= |plane| && peak >= 0.0
    requires forall i :: 0 <= i < |plane| ==> -peak <= plane[i] <= peak
    ensures 0.0 <= PlaneSquares(plane, from, to) <= Scale(to - from, Times(peak, peak))
  {
    if from < to {
      PlaneSquaresBounded(plane, from, to - 1, peak);
      SquareWithin(plane[to - 1], peak);
    }
  }

  lemma SquareWithin(x: real, peak: real)
    requires -peak <= x <= peak
    ensures 0.0 <= Times(x, x) <= Times(peak, peak)
  {
    SquareSign(x);
    SquaresAscend(peak, x);
    SquaresAscend(peak, -x);
    TimesNegated(x, x);
  }

  lemma {:induction false} SquaresBounded(planar: seq<seq<real>>, count: nat, from: nat, to: nat, peak: real)
    requires count <= |planar| && from <= to && peak >= 0.0
    requires forall ch :: 0 <= ch < |planar| ==> to <= |planar[ch]|
    requires forall ch, i :: 0 <= ch < |planar| && 0 <= i < |planar[ch]| ==> -peak <= planar[ch][i] <= peak
    ensures 0.0 <= Squares(planar, count, from, to) <= Scale(Stride(count, to - from), Times(peak, peak))
  {
    if count > 0 {
      SquaresBounded(planar, count - 1, from, to, peak);
      PlaneSquaresBounded(planar[count - 1], from, to, peak);
      ScalePlus(Stride(count - 1, to - from), to - from, Times(peak, peak));
    }
  }

  /** Samples a window holds, over all channels. */
  function WindowTotal(channels: nat, from: nat, to: nat): nat {
    if to <= from then 0 else Stride(channels, to - from)
  }

  function WindowEnd(w: nat, window: nat, sampleCount: nat): nat {
    if Stride(w + 1, window) < sampleCount then Stride(w + 1, window) else sampleCount
  }

  /** One window of `extract_rms_envelope`: the squares and how many there are. */
  method SumWindow(planar: seq<seq<real>>, start: nat, end: nat) returns (squareSum: real, total: nat)
    requires start <= end && forall ch :: 0 <= ch < |planar| ==> end <= |planar[ch]|
    ensures squareSum == Squares(planar, |planar|, start, end) && total == Stride(|planar|, end - start)
  {
    squareSum, total := 0.0, 0;
    for ch := 0 to |planar|
      invariant squareSum == Squares(planar, ch, start, end) && total == Stride(ch, end - start)
    {
      for i := start to end
        invariant squareSum == Squares(planar, ch, start, end) + PlaneSquares(planar[ch], start, i)
        invariant total == Stride(ch, end - start) + (i - start)
      {
        var value := planar[ch][i];
        squareSum := squareSum + Times(value, value);
        total := total + 1;
      }
    }
  }

  /** The root of the mean square of window `w` over all channels. */
  function WindowRms(planar: seq<seq<real>>, w: nat, window: nat, sqrt: real -> real): real
    requires planar != [] && forall ch :: 0 <= ch < |planar| ==> |planar[ch]| >= |planar[0]|
  {
    var from, to := Stride(w, window), WindowEnd(w, window, |planar[0]|);
    var total := WindowTotal(|planar|, from, to);
    if total == 0 then 0.0 else Root(sqrt, Squares(planar, |planar|, from, to) / total as real)
  }

  /** The body of the window loop. */
  method MeasureWindow(planar: seq<seq<real>>, w: nat, window: nat, sqrt: real -> real) returns (rms: real)
    requires planar != [] && forall ch :: 0 <= ch < |planar| ==> |planar[ch]| >= |planar[0]|
    requires window > 0 && Stride(w, window) < |planar[0]|
    ensures rms == WindowRms(planar, w, window, sqrt)
  {
    StrideIsProduct(w, window);
    var start := w * window;
    var end := if start + window < |planar[0]| then start + window else |planar[0]|;
    assert end == WindowEnd(w, window, |planar[0]|) by { assert Stride(w + 1, window) == Stride(w, window) + window; }
    var squareSum, total := SumWindow(planar, start, end);
    assert total == WindowTotal(|planar|, start, end);
    rms := if total > 0 then Root(sqrt, squareSum / total as real) else 0.0;
  }

  /**
   * `extract_rms_envelope`: one value per window, the trailing partial window kept, each
   * the root of the mean square over all channels.
   */
  method ExtractRmsEnvelope(planar: seq<seq<real>>, window: nat, sqrt: real -> real) returns (envelope: seq<real>)
    requires forall ch :: 0 <= ch < |planar| ==> |planar[ch]| >= |planar[0]|
    ensures planar == [] || |planar[0]| == 0 || window == 0 ==> envelope == []
    ensures planar != [] && |planar[0]| > 0 && window > 0 ==>
      && |envelope| == (|planar[0]| + window - 1) / window
      && forall w :: 0 <= w < |envelope| ==> envelope[w] == WindowRms(planar, w, window, sqrt)
  {
    envelope := [];
    if planar == [] || |planar[0]| == 0 || window == 0 {
      return;
    }
    var windowCount := (|planar[0]| + window - 1) / window;
    for w := 0 to windowCount
      invariant |envelope| == w
      invariant forall v :: 0 <= v < w ==> envelope[v] == WindowRms(planar, v, window, sqrt)
    {
      WindowBegins(w, window, |planar[0]|, windowCount);
      var rms := MeasureWindow(planar, w, window, sqrt);
      envelope := envelope + [rms];
    }
  }

  lemma WindowBegins(w: nat, window: nat, n: nat, windowCount: nat)
    requires window > 0 && windowCount == (n + window - 1) / window && w < windowCount
    ensures Stride(w, window) < n
  {
    QuotientIsDivision(n + window - 1, window);
    DivisionSplits(n + window - 1, window);
    StrideMonotone(w + 1, windowCount, window);
  }

  /** A value of the envelope is between zero and the largest amplitude. */
  lemma EnvelopeIsWithinPeak(planar: seq<seq<real>>, w: nat, window: nat, peak: real, sqrt: real -> real)
    requires IsSqrt(sqrt) && planar != [] && forall ch :: 0 <= ch < |planar| ==> |planar[ch]| >= |planar[0]|
    requires Stride(w, window) < |planar[0]| && window > 0 && peak >= 0.0
    requires forall ch, i :: 0 <= ch < |planar| && 0 <= i < |planar[ch]| ==> -peak <= planar[ch][i] <= peak
    ensures 0.0 <= WindowRms(planar, w, window, sqrt) <= peak
  {
    var from, to := Stride(w, window), WindowEnd(w, window, |planar[0]|);
    var total := WindowTotal(|planar|, from, to);
    SquaresBounded(planar, |planar|, from, to, peak);
    RootOfMeanWithin(sqrt, Squares(planar, |planar|, from, to), total, peak);
  }

  lemma RootOfMeanWithin(sqrt: real -> real, sum: real, total: nat, peak: real)
    requires IsSqrt(sqrt) && peak >= 0.0 && 0.0 <= sum <= Scale(total, Times(peak, peak))
    ensures 0.0 <= (if total == 0 then 0.0 else Root(sqrt, sum / total as real)) <= peak
  {
    if total > 0 {
      var bound := Times(peak, peak);
      ScaleIsProduct(total, bound);
      MeanWithin(sum, total as real, bound);
      RootWithin(sqrt, sum / total as real, peak);
    }
  }

  lemma MeanWithin(sum: real, total: real, bound: real)
    requires total > 0.0 && 0.0 <= sum <= total * bound
    ensures 0.0 <= sum / total <= bound
  {
    var m := sum / total;
    assert Times(m, total) == sum;
    TimesAscends(bound, m, total);
    TimesAscends(m, 0.0, total);
    TimesZero(total);
    assert Times(bound, total) == total * bound;
  }

  lemma RootWithin(sqrt: real -> real, x: real, peak: real)
    requires IsSqrt(sqrt) && peak >= 0.0 && 0.0 <= x <= Times(peak, peak)
    ensures 0.0 <= Root(sqrt, x) <= peak
  {
    SquaresAscend(peak, Root(sqrt, x));
    assert Times(Root(sqrt, x), Root(sqrt, x)) == x;
  }

  // ----- resampling -----

  function Rounded(x: real): int {
    x.Floor
  }

  /** Windows of the candidate played at `rate`. */
  function ResampledSize(size: nat, rate: real): int
    requires rate > 0.0
  {
    Rounded(size as real / rate)
  }

  /** The position in the candidate that resampled window `i` falls on. */
  function Position(i: nat, rate: real): real {
    Times(i as real, rate)
  }

  lemma PositionInBounds(i: nat, size: nat, rate: real)
    requires rate > 0.0 && i < ResampledSize(size, rate)
    ensures 0 <= Rounded(Position(i, rate)) < size
    ensures 0.0 <= Position(i, rate) - Rounded(Position(i, rate)) as real < 1.0
  {
    var q := size as real / rate;
    assert Times(q, rate) == size as real;
    TimesAscends(i as real, q, rate);
    TimesAscends(-1.0, i as real, rate);
    ProductSign(i as real, rate);
    NatProduct(i, rate);
  }

  lemma NatProduct(i: nat, rate: real)
    requires rate > 0.0
    ensures Times(i as real, rate) >= 0.0
  {
    ScaleIsProduct(i, rate);
  }

  function Interpolated(a: real, b: real, fraction: real): real {
    Times(a, 1.0 - fraction) + Times(b, fraction)
  }

  lemma InterpolatedBetween(a: real, b: real, fraction: real)
    requires 0.0 <= fraction <= 1.0
    ensures a <= b ==> a <= Interpolated(a, b, fraction) <= b
    ensures b <= a ==> b <= Interpolated(a, b, fraction) <= a
  {
    TimesAscends(a, b, fraction);
    TimesAscends(b, a, fraction);
    TimesAscends(a, b, 1.0 - fraction);
    TimesAscends(b, a, 1.0 - fraction);
    TimesSubtracts(a, 1.0, fraction);
    TimesSubtracts(b, 1.0, fraction);
    TimesOne(a);
    TimesOne(b);
    TimesCommutes(a, 1.0);
    TimesCommutes(b, 1.0);
    TimesZero(a);
    TimesZero(b);
  }

  function Upper(lower: nat, size: nat): nat
    requires size > 0
  {
    if lower + 1 < size - 1 then lower + 1 else size - 1
  }

  function ResampledAt(cand: seq<real>, rate: real, i: nat): real
    requires rate > 0.0 && i < ResampledSize(|cand|, rate)
  {
    PositionInBounds(i, |cand|, rate);
    var lower := Rounded(Position(i, rate));
    Interpolated(cand[lower], cand[Upper(lower, |cand|)], Position(i, rate) - lower as real)
  }

  predicate Within(x: real, a: real, b: real) {
    (a <= x <= b) || (b <= x <= a)
  }

  lemma ResampledAtBetween(cand: seq<real>, rate: real, i: nat)
    requires rate > 0.0 && i < ResampledSize(|cand|, rate)
    ensures var lower := Rounded(Position(i, rate));
      0 <= lower < |cand| && Within(ResampledAt(cand, rate, i), cand[lower], cand[Upper(lower, |cand|)])
  {
    PositionInBounds(i, |cand|, rate);
    var lower := Rounded(Position(i, rate));
    InterpolatedBetween(cand[lower], cand[Upper(lower, |cand|)], Position(i, rate) - lower as real);
  }

  /** A resampled window is valid when both source windows are. */
  function ResampledValidAt(candValid: seq<bool>, size: nat, rate: real, i: nat): bool
    requires rate > 0.0 && i < ResampledSize(size, rate)
  {
    PositionInBounds(i, size, rate);
    var lower := Rounded(Position(i, rate));
    |candValid| != size || (candValid[lower] && candValid[Upper(lower, size)])
  }

  function Resampled(cand: seq<real>, rate: real, n: nat): (r: seq<real>)
    requires rate > 0.0 && n <= Positive(ResampledSize(|cand|, rate))
    ensures |r| == n
  {
    if n == 0 then [] else Resampled(cand, rate, n - 1) + [ResampledAt(cand, rate, n - 1)]
  }

  /** Every value of a resampled candidate lies between the two windows it falls between. */
  lemma {:induction false} ResampledBetween(cand: seq<real>, rate: real, n: nat, i: nat)
    requires rate > 0.0 && i < n <= Positive(ResampledSize(|cand|, rate))
    ensures var lower := Rounded(Position(i, rate));
      0 <= lower < |cand| && Within(Resampled(cand, rate, n)[i], cand[lower], cand[Upper(lower, |cand|)])
  {
    if i == n - 1 { ResampledAtBetween(cand, rate, i); } else { ResampledBetween(cand, rate, n - 1, i); }
  }

  function ResampledValid(candValid: seq<bool>, size: nat, rate: real, n: nat): (r: seq<bool>)
    requires rate > 0.0 && n <= Positive(ResampledSize(size, rate))
    ensures |r| == n
  {
    if n == 0 then []
    else ResampledValid(candValid, size, rate, n - 1) + [ResampledValidAt(candValid, size, rate, n - 1)]
  }

  /** The resampling loop: every index it uses is in bounds. */
  method Resample(cand: seq<real>, candValid: seq<bool>, rate: real) returns (r: seq<real>, valid: seq<bool>)
    requires rate > 0.0 && ResampledSize(|cand|, rate) >= 2
    ensures r == Resampled(cand, rate, ResampledSize(|cand|, rate))
    ensures valid == ResampledValid(candValid, |cand|, rate, ResampledSize(|cand|, rate))
  {
    var size := Rounded(|cand| as real / rate);
    r, valid := [], [];
    for i := 0 to size
      invariant r == Resampled(cand, rate, i) && valid == ResampledValid(candValid, |cand|, rate, i)
    {
      PositionInBounds(i, |cand|, rate);
      var position := Position(i, rate);
      var lower := Rounded(position);
      var upper := Upper(lower, |cand|);
      var fraction := position - lower as real;
      r := r + [Interpolated(cand[lower], cand[upper], fraction)];
      valid := valid + [|candValid| != |cand| || (candValid[lower] && candValid[upper])];
    }
  }

  // ----- estimate_stretch_and_offset -----

  /** The offset estimate for the candidate played at one rate; invalid when fewer than two windows are left. */
  function EstimateAtRate(ref: seq<real>, cand: seq<real>, refValid: seq<bool>, candValid: seq<bool>,
                          window: nat, maxOffset: int, rate: real, sqrt: real -> real): OffsetResult {
    if rate <= 0.0 || ResampledSize(|cand|, rate) < 2 then OffsetResult(0, 0.0, false)
    else
      var n := ResampledSize(|cand|, rate);
      Estimate(ref, Resampled(cand, rate, n), refValid, ResampledValid(candValid, |cand|, rate, n), window,
               maxOffset, sqrt)
  }

  function GridRate(minRate: real, step: real, k: nat): real {
    minRate + Scale(k, step)
  }

  predicate OnGrid(minRate: real, maxRate: real, step: real, k: nat) {
    GridRate(minRate, step, k) <= maxRate + step * 0.5
  }

  /** The estimates along the grid of rates. */
  function GridEstimates(ref: seq<real>, cand: seq<real>, refValid: seq<bool>, candValid: seq<bool>,
                         window: nat, maxOffset: int, minRate: real, step: real,
                             sqrt: real -> real): nat -> OffsetResult {
    (k: nat) => EstimateAtRate(ref, cand, refValid, candValid, window, maxOffset, GridRate(minRate, step, k), sqrt)
  }

  function EstimateAt(estimates: nat -> OffsetResult, k: nat): OffsetResult {
    estimates(k)
  }

  /** `r` is the first most confident valid estimate among the first `n` rates. */
  ghost predicate IsBestOfGrid(r: StretchOffsetResult, estimates: nat -> OffsetResult, minRate: real, step: real,
                               n: nat) {
    && (r.valid <==> exists k: nat :: k < n && EstimateAt(estimates, k).valid)
    && (!r.valid ==> r == StretchOffsetResult(1.0, 0, 0.0, false))
    && (r.valid ==> exists k: nat :: k < n && Chosen(r, estimates, minRate, step, n, k))
  }

  ghost predicate Chosen(r: StretchOffsetResult, estimates: nat -> OffsetResult, minRate: real, step: real, n: nat,
                         k: nat) {
    var e := EstimateAt(estimates, k);
    && e.valid && r == StretchOffsetResult(GridRate(minRate, step, k), e.offsetSamples, e.confidence, true)
    && forall j: nat :: j < n && EstimateAt(estimates, j).valid ==>
         EstimateAt(estimates, j).confidence <= r.confidence
             && (j < k ==> EstimateAt(estimates, j).confidence < r.confidence)
  }

  lemma BestOfGridStep(r: StretchOffsetResult, estimates: nat -> OffsetResult, minRate: real, step: real, n: nat,
                       r2: StretchOffsetResult)
    requires IsBestOfGrid(r, estimates, minRate, step, n)
    requires var e := EstimateAt(estimates, n);
      r2 == if e.valid && (!r.valid || e.confidence > r.confidence)
            then StretchOffsetResult(GridRate(minRate, step, n), e.offsetSamples, e.confidence, true) else r
    ensures IsBestOfGrid(r2, estimates, minRate, step, n + 1)
  {
    var e := EstimateAt(estimates, n);
    if r.valid {
      var k: nat :| k < n && Chosen(r, estimates, minRate, step, n, k);
      if r2 == r {
        assert Chosen(r2, estimates, minRate, step, n + 1, k);
      } else {
        assert Chosen(r2, estimates, minRate, step, n + 1, n);
      }
      assert EstimateAt(estimates, k).valid;
    } else if e.valid {
      assert Chosen(r2, estimates, minRate, step, n + 1, n);
    }
  }

  lemma GridIsFinite(minRate: real, maxRate: real, step: real, k: nat)
    requires step > 0.0 && OnGrid(minRate, maxRate, step, k)
    ensures k <= Positive(Rounded((maxRate + step * 0.5 - minRate) / step))
  {
    var d := maxRate + step * 0.5 - minRate;
    var q := d / step;
    ScaleIsProduct(k, step);
    assert Times(q, step) == d;
    TimesAscends(q, k as real, step);
    assert Times(k as real, step) == k as real * step;
  }

  lemma {:induction false} GridAscends(minRate: real, step: real, j: nat, k: nat)
    requires step > 0.0 && j <= k
    ensures GridRate(minRate, step, j) <= GridRate(minRate, step, k)
    decreases k - j
  {
    if j < k { GridAscends(minRate, step, j, k - 1); }
  }

  /** The body of the rate loop. */
  method TryRate(ref: seq<real>, cand: seq<real>, refValid: seq<bool>, candValid: seq<bool>, window: nat,
                 maxOffset: int, rate: real, sqrt: real -> real, before: StretchOffsetResult, bestBefore: real)
    returns (result: StretchOffsetResult, best: real)
    requires rate > 0.0 && bestBefore == if before.valid then before.confidence else -2.0
    ensures var e := EstimateAtRate(ref, cand, refValid, candValid, window, maxOffset, rate, sqrt);
      result == if e.valid && (!before.valid || e.confidence > before.confidence)
                then StretchOffsetResult(rate, e.offsetSamples, e.confidence, true) else before
    ensures best == if result.valid then result.confidence else -2.0
  {
    result, best := before, bestBefore;
    var size := Rounded(|cand| as real / rate);
    if size < 2 {
      return;
    }
    var resampled, resampledValid := Resample(cand, candValid, rate);
    var offset := EstimateEnvelopeOffsetValid(ref, resampled, refValid, resampledValid, window, maxOffset, sqrt);
    if offset.valid && offset.confidence > best {
      best := offset.confidence;
      result := StretchOffsetResult(rate, offset.offsetSamples, offset.confidence, true);
    }
  }

  method TryNextRate(ref: seq<real>, cand: seq<real>, refValid: seq<bool>, candValid: seq<bool>, window: nat,
                     maxOffset: int, ghost minRate: real, ghost step: real, rate: real, sqrt: real -> real,
                     before: StretchOffsetResult, bestBefore: real, ghost estimates: nat -> OffsetResult,
                     ghost rates: nat)
    returns (result: StretchOffsetResult, best: real)
    requires rate == GridRate(minRate, step, rates) > 0.0 && IsBestOfGrid(before, estimates, minRate, step, rates)
    requires estimates == GridEstimates(ref, cand, refValid, candValid, window, maxOffset, minRate, step, sqrt)
    requires bestBefore == if before.valid then before.confidence else -2.0
    ensures IsBestOfGrid(result, estimates, minRate, step, rates + 1)
    ensures best == if result.valid then result.confidence else -2.0
  {
    result, best := TryRate(ref, cand, refValid, candValid, window, maxOffset, rate, sqrt, before, bestBefore);
    assert EstimateAt(estimates, rates) ==
      EstimateAtRate(ref, cand, refValid, candValid, window, maxOffset, rate, sqrt);
    BestOfGridStep(before, estimates, minRate, step, rates, result);
  }

  /** The rates from `minRate` on in steps, as long as they are not past `maxRate` and half a step. */
  method SearchGrid(ref: seq<real>, cand: seq<real>, refValid: seq<bool>, candValid: seq<bool>, window: nat,
                    maxOffset: int, minRate: real, maxRate: real, step: real, sqrt: real -> real,
                    ghost estimates: nat -> OffsetResult)
    returns (result: StretchOffsetResult, ghost rates: nat)
    requires minRate > 0.0 && step > 0.0
    requires estimates == GridEstimates(ref, cand, refValid, candValid, window, maxOffset, minRate, step, sqrt)
    ensures forall k: nat :: k < rates ==> OnGrid(minRate, maxRate, step, k)
    ensures !OnGrid(minRate, maxRate, step, rates)
    ensures IsBestOfGrid(result, estimates, minRate, step, rates)
  {
    result := StretchOffsetResult(1.0, 0, 0.0, false);
    rates := 0;
    var bestConfidence := -2.0;
    ghost var limit := Positive(Rounded((maxRate + step * 0.5 - minRate) / step));
    var rate := minRate;
    while rate <= maxRate + step * 0.5
      invariant rate == GridRate(minRate, step, rates) > 0.0
      invariant rates <= limit + 1
      invariant forall k: nat :: k < rates ==> OnGrid(minRate, maxRate, step, k)
      invariant IsBestOfGrid(result, estimates, minRate, step, rates)
      invariant bestConfidence == if result.valid then result.confidence else -2.0
      decreases limit + 1 - rates
    {
      GridIsFinite(minRate, maxRate, step, rates);
      result, bestConfidence := TryNextRate(ref, cand, refValid, candValid, window, maxOffset, minRate, step, rate,
          sqrt, result, bestConfidence, estimates, rates);
      assert OnGrid(minRate, maxRate, step, rates);
      rate := rate + step;
      rates := rates + 1;
    }
  }

  lemma GridIsUpTo(minRate: real, maxRate: real, step: real, rates: nat)
    requires step > 0.0 && !OnGrid(minRate, maxRate, step, rates)
    requires forall k: nat :: k < rates ==> OnGrid(minRate, maxRate, step, k)
    ensures forall k: nat :: OnGrid(minRate, maxRate, step, k) <==> k < rates
  {
    forall k: nat ensures OnGrid(minRate, maxRate, step, k) <==> k < rates {
      if rates <= k { GridAscends(minRate, step, rates, k); }
    }
  }

  /**
   * `estimate_stretch_and_offset`: terminates, and returns the first most confident
   * valid estimate among the rates of the grid.
   */
  method EstimateStretchAndOffset(ref: seq<real>, cand: seq<real>, refValid: seq<bool>, candValid: seq<bool>,
                                  window: nat, maxOffset: int, minRate: real, maxRate: real, step: real,
                                  sqrt: real -> real)
    returns (result: StretchOffsetResult, ghost rates: nat)
    ensures ref == [] || cand == [] || window == 0 || minRate <= 0.0 || maxRate < minRate || step <= 0.0 ==>
      result == StretchOffsetResult(1.0, 0, 0.0, false)
    ensures ref != [] && cand != [] && window > 0 && 0.0 < minRate <= maxRate && step > 0.0 ==>
      && (forall k: nat :: OnGrid(minRate, maxRate, step, k) <==> k < rates)
      && IsBestOfGrid(result, GridEstimates(ref, cand, refValid, candValid, window, maxOffset, minRate, step, sqrt),
                      minRate, step, rates)
  {
    result := StretchOffsetResult(1.0, 0, 0.0, false);
    rates := 0;
    if ref == [] || cand == [] || window == 0 || minRate <= 0.0 || maxRate < minRate || step <= 0.0 {
      return;
    }
    ghost var estimates := GridEstimates(ref, cand, refValid, candValid, window, maxOffset, minRate, step, sqrt);
    result, rates := SearchGrid(ref, cand, refValid, candValid, window, maxOffset, minRate, maxRate, step, sqrt,
        estimates);
    GridIsUpTo(minRate, maxRate, step, rates);
  }

  // ----- the stretch search against the plain estimate -----

  lemma {:induction false} UnitRate(cand: seq<real>, candValid: seq<bool>, n: nat)
    requires n <= |cand| && |candValid| != |cand|
    ensures ResampledSize(|cand|, 1.0) == |cand|
    ensures Resampled(cand, 1.0, n) == cand[..n]
    ensures forall i :: 0 <= i < n ==> ResampledValid(candValid, |cand|, 1.0, n)[i]
  {
    if n > 0 {
      UnitRate(cand, candValid, n - 1);
      TimesCommutes((n - 1) as real, 1.0);
      TimesOne((n - 1) as real);
      PositionInBounds(n - 1, |cand|, 1.0);
      var lower := n - 1;
      assert Rounded(Position(n - 1, 1.0)) == lower;
      TimesZero(cand[Upper(lower, |cand|)]);
      TimesCommutes(cand[lower], 1.0);
      TimesOne(cand[lower]);
    }
  }

  lemma {:induction false} AllValidIsNoMask(ref: seq<real>, cand: seq<real>, refValid: seq<bool>, a: seq<bool>,
                                            b: seq<bool>,
                                            refStart: nat, candStart: nat, n: nat)
    requires refStart + n <= |ref| && candStart + n <= |cand|
    requires forall i: nat :: i < |cand| ==> IsValid(a, |cand|, i) && IsValid(b, |cand|, i)
    ensures PairsAt(ref, cand, refValid, a, refStart, candStart, n) == PairsAt(ref, cand, refValid, b, refStart,
        candStart, n)
  {
    if n > 0 { AllValidIsNoMask(ref, cand, refValid, a, b, refStart, candStart, n - 1); }
  }

  lemma {:induction false} SameScoresSameBest(f: int -> Option<real>, g: int -> Option<real>, from: int, n: nat)
    requires forall lag :: ScoreAt(f, lag) == ScoreAt(g, lag)
    ensures BestOf(f, from, n) == BestOf(g, from, n)
  {
    if n > 0 {
      SameScoresSameBest(f, g, from, n - 1);
      assert ScoreAt(f, from + n - 1) == ScoreAt(g, from + n - 1);
    }
  }

  lemma SameMaskSameEstimate(ref: seq<real>, cand: seq<real>, refValid: seq<bool>, a: seq<bool>, b: seq<bool>,
                             window: nat, maxOffset: int, sqrt: real -> real)
    requires forall i: nat :: i < |cand| ==> IsValid(a, |cand|, i) && IsValid(b, |cand|, i)
    ensures Estimate(ref, cand, refValid, a, window, maxOffset, sqrt) == Estimate(ref, cand, refValid, b, window,
        maxOffset, sqrt)
  {
    var f, g := LagScores(ref, cand, refValid, a, sqrt), LagScores(ref, cand, refValid, b, sqrt);
    forall lag ensures ScoreAt(f, lag) == ScoreAt(g, lag) {
      var n := Overlap(|ref|, |cand|, lag);
      if n >= 2 {
        AllValidIsNoMask(ref, cand, refValid, a, b, Positive(-lag), Positive(lag), n);
      }
    }
    SameScoresSameBest(f, g, -maxOffset, LagCount(maxOffset));
  }

  /** Without a candidate mask, the estimate at rate 1 is the plain estimate, when there are two windows to compare. */
  lemma UnitRateIsPlain(ref: seq<real>, cand: seq<real>, refValid: seq<bool>, candValid: seq<bool>,
                        window: nat, maxOffset: int, sqrt: real -> real)
    requires |cand| >= 2 && |candValid| != |cand|
    ensures EstimateAtRate(ref, cand, refValid, candValid, window, maxOffset, 1.0, sqrt)
         == Estimate(ref, cand, refValid, candValid, window, maxOffset, sqrt)
  {
    UnitRate(cand, candValid, |cand|);
    assert cand[..|cand|] == cand;
    SameMaskSameEstimate(ref, cand, refValid, ResampledValid(candValid, |cand|, 1.0, |cand|), candValid, window,
        maxOffset, sqrt);
  }

  /** A plain estimate can only be valid when there are two windows to compare. */
  lemma {:induction false} NoPairsNoBest(scores: int -> Option<real>, from: int, n: nat)
    requires forall lag :: ScoreAt(scores, lag).None?
    ensures BestOf(scores, from, n) == Best(-2.0, 0)
  {
    if n > 0 {
      NoPairsNoBest(scores, from, n - 1);
      assert ScoreAt(scores, from + n - 1).None?;
    }
  }

  lemma ValidNeedsTwoWindows(ref: seq<real>, cand: seq<real>, refValid: seq<bool>, candValid: seq<bool>,
                             window: nat, maxOffset: int, sqrt: real -> real)
    requires Estimate(ref, cand, refValid, candValid, window, maxOffset, sqrt).valid
    ensures |cand| >= 2
  {
    if |cand| < 2 {
      forall lag ensures ScoreAt(LagScores(ref, cand, refValid, candValid, sqrt), lag).None? {
        assert LagPairs(ref, cand, refValid, candValid, lag) == [];
      }
      NoPairsNoBest(LagScores(ref, cand, refValid, candValid, sqrt), -maxOffset, LagCount(maxOffset));
    }
  }

  /**
   * With rate 1 on the grid and no candidate mask, the stretch search never does worse
   * than a valid plain estimate.
   */
  lemma StretchIsAtLeastPlain(ref: seq<real>, cand: seq<real>, refValid: seq<bool>, candValid: seq<bool>, window: nat,
                              maxOffset: int, minRate: real, step: real, sqrt: real -> real,
                              result: StretchOffsetResult, rates: nat, unit: nat)
    requires var estimates := GridEstimates(ref, cand, refValid, candValid, window, maxOffset, minRate, step, sqrt);
      IsBestOfGrid(result, estimates, minRate, step, rates)
    requires unit < rates && GridRate(minRate, step, unit) == 1.0 && |candValid| != |cand|
    requires Estimate(ref, cand, refValid, candValid, window, maxOffset, sqrt).valid
    ensures result.valid
    ensures result.confidence >= Estimate(ref, cand, refValid, candValid, window, maxOffset, sqrt).confidence
  {
    var estimates := GridEstimates(ref, cand, refValid, candValid, window, maxOffset, minRate, step, sqrt);
    ValidNeedsTwoWindows(ref, cand, refValid, candValid, window, maxOffset, sqrt);
    UnitRateIsPlain(ref, cand, refValid, candValid, window, maxOffset, sqrt);
    assert EstimateAt(estimates, unit) == Estimate(ref, cand, refValid, candValid, window, maxOffset, sqrt);
    var k: nat :| k < rates && Chosen(result, estimates, minRate, step, rates, k);
  }
}
