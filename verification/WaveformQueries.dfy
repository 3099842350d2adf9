/**
 * Summary queries: agreement with a raw scan, and what edits do to absolute-time lookups.
 */
module WaveformQueries {
  import opened Rationals
  import opened Peaks
  import opened Strides
  import opened WaveformTiles
  import opened WaveformSpec
  import opened WaveformTheorems

  // ----- merging points -----

  lemma {:induction false} GroupsOfStride(points: nat, channels: nat)
    requires channels > 0
    ensures Groups(Stride(points, channels), channels) == points
  {
    if points > 0 { GroupsOfStride(points - 1, channels); }
  }

  /** The raw sample at which point `p` of a level starts. */
  function SampleOfPoint(planar: Planar, sampleRate: nat, level: nat, p: nat): nat
    requires sampleRate > 0 && |planar| > 0 && level <= TOP
  {
    TileBound(Stride(p, TilesPerPoint(level)), Chunk(sampleRate), |planar|)
  }

  /** Point `p` of a write, as the range of raw samples it shows. */
  lemma PointRange(planar: Planar, sampleRate: nat, level: nat, p: nat, ch: nat, from: nat, to: nat, at: nat,
                   data: Sample)
    requires sampleRate >= 1024 && ch < |planar| && Rectangular(planar)
    requires level <= TOP && p < BlockPoints(planar, sampleRate, level)
    requires from == SampleOfPoint(planar, sampleRate, level, p)
    requires to == SampleOfPoint(planar, sampleRate, level, p + 1)
    requires data == Block(planar, sampleRate, level) && at == Stride(p, |planar|) + ch
    ensures from < to <= |planar[ch]| && at < |data| && data[at] == PeakOf(planar[ch], from, to)
  {
    BlockPointIsExact(planar, sampleRate, level, p, ch);
  }

  lemma PointAtSum(planar: Planar, sampleRate: nat, level: nat, p: nat, ch: nat, data: Sample, from: nat, to: nat,
                   x: nat, y: nat)
    requires sampleRate >= 1024 && ch < |planar| && Rectangular(planar) && level <= TOP
    requires p < BlockPoints(planar, sampleRate, level) && data == Block(planar, sampleRate, level)
    requires from == SampleOfPoint(planar, sampleRate, level, p)
    requires to == SampleOfPoint(planar, sampleRate, level, p + 1) && x + y == Stride(p, |planar|)
    ensures from < to <= |planar[ch]| && x + y + ch < |data| && data[x + y + ch] == PeakOf(planar[ch], from, to)
  {
    PointRange(planar, sampleRate, level, p, ch, from, to, x + y + ch, data);
  }

  /** Point `g` of a run of points shows the samples between two successive positions. */
  ghost predicate RunAt(data: Sample, start: nat, channels: nat, ch: nat, plane: seq<real>, b: seq<nat>, g: nat) {
    && g + 1 < |b| && b[g] < b[g + 1] <= |plane|
    && start + Stride(g, channels) + ch < |data|
    && data[start + Stride(g, channels) + ch] == PeakOf(plane, b[g], b[g + 1])
  }

  lemma {:induction false} JoinedRun(data: Sample, start: nat, channels: nat, ch: nat, groups: nat, plane: seq<real>,
                                     b: seq<nat>)
    requires 0 < groups < |b| && start + ch < |data|
    requires forall g: nat :: g < groups ==> RunAt(data, start, channels, ch, plane, b, g)
    ensures b[0] < b[groups] <= |plane|
    ensures JoinPoints(data, start, channels, ch, groups, data[start + ch]) == PeakOf(plane, b[0], b[groups])
  {
    assert RunAt(data, start, channels, ch, plane, b, groups - 1);
    if groups == 1 {
      JoinOnePoint(data, start, channels, ch);
    } else {
      JoinedRun(data, start, channels, ch, groups - 1, plane, b);
      JoinMore(data, start, channels, ch, groups, data[start + ch], plane, b[0], b[groups - 1], b[groups]);
    }
  }

  /** The sample positions of the points `first..first + count`. */
  function Positions(planar: Planar, sampleRate: nat, level: nat, first: nat, count: nat): (b: seq<nat>)
    requires sampleRate > 0 && |planar| > 0 && level <= TOP
    ensures |b| == count + 1
  {
    if count == 0 then [SampleOfPoint(planar, sampleRate, level, first)]
    else
      Positions(planar, sampleRate, level, first, count - 1) + [SampleOfPoint(planar, sampleRate, level, first + count)]
  }

  lemma {:induction false} PositionAt(planar: Planar, sampleRate: nat, level: nat, first: nat, count: nat, g: nat)
    requires sampleRate > 0 && |planar| > 0 && level <= TOP && g <= count
    ensures Positions(planar, sampleRate, level, first, count)[g] == SampleOfPoint(planar, sampleRate, level, first + g)
  {
    if g < count { PositionAt(planar, sampleRate, level, first, count - 1, g); }
  }

  lemma RunOfWrite(planar: Planar, sampleRate: nat, level: nat, first: nat, count: nat, ch: nat, data: Sample,
                   start: nat, b: seq<nat>, g: nat)
    requires sampleRate >= 1024 && ch < |planar| && Rectangular(planar) && level <= TOP && g < count
    requires first + count <= BlockPoints(planar, sampleRate, level)
    requires data == Block(planar, sampleRate, level) && start == Stride(first, |planar|)
    requires b == Positions(planar, sampleRate, level, first, count)
    ensures RunAt(data, start, |planar|, ch, planar[ch], b, g)
  {
    PositionAt(planar, sampleRate, level, first, count, g);
    PositionAt(planar, sampleRate, level, first, count, g + 1);
    StridePlus(first, g, |planar|);
    PointAtSum(planar, sampleRate, level, first + g, ch, data, b[g], b[g + 1], start, Stride(g, |planar|));
  }

  lemma AllRunsOfWrite(planar: Planar, sampleRate: nat, level: nat, first: nat, count: nat, ch: nat, data: Sample,
                       start: nat, b: seq<nat>)
    requires sampleRate >= 1024 && ch < |planar| && Rectangular(planar) && level <= TOP
    requires first + count <= BlockPoints(planar, sampleRate, level)
    requires data == Block(planar, sampleRate, level) && start == Stride(first, |planar|)
    requires b == Positions(planar, sampleRate, level, first, count)
    ensures forall g: nat :: g < count ==> RunAt(data, start, |planar|, ch, planar[ch], b, g)
  {
    forall g: nat | g < count ensures RunAt(data, start, |planar|, ch, planar[ch], b, g) {
      RunOfWrite(planar, sampleRate, level, first, count, ch, data, start, b, g);
    }
  }

  lemma JoinMore(data: Sample, from: nat, channels: nat, ch: nat, groups: nat, pair: SamplePerChannel,
                 plane: seq<real>, x: nat, y: nat, z: nat)
    requires groups > 0 && x < y < z <= |plane|
    requires from + Stride(groups - 1, channels) + ch < |data|
    requires data[from + Stride(groups - 1, channels) + ch] == PeakOf(plane, y, z)
    requires JoinPoints(data, from, channels, ch, groups - 1, pair) == PeakOf(plane, x, y)
    ensures JoinPoints(data, from, channels, ch, groups, pair) == PeakOf(plane, x, z)
  {
    PeakOfAdjacent(plane, x, y, z);
  }

  lemma JoinOnePoint(data: Sample, from: nat, channels: nat, ch: nat)
    requires from + ch < |data|
    ensures JoinPoints(data, from, channels, ch, 1, data[from + ch]) == data[from + ch]
  {
    assert JoinPoints(data, from, channels, ch, 0, data[from + ch]) == data[from + ch];
  }

  /** Points of a write, merged: the minimum and maximum of the raw samples under all of them. */
  lemma MergedPointIsExact(planar: Planar, sampleRate: nat, level: nat, first: nat, count: nat, ch: nat)
    requires sampleRate >= 1024 && ch < |planar| && Rectangular(planar) && level <= TOP && count > 0
    requires first + count <= BlockPoints(planar, sampleRate, level)
    ensures var from, to := SampleOfPoint(planar, sampleRate, level, first),
      SampleOfPoint(planar, sampleRate, level, first + count);
      && from < to <= |planar[ch]|
      && MergedPoint(Block(planar, sampleRate, level), Stride(first, |planar|), Stride(count, |planar|), |planar|, ch)
         == PeakOf(planar[ch], from, to)
  {
    var data, start := Block(planar, sampleRate, level), Stride(first, |planar|);
    var b := Positions(planar, sampleRate, level, first, count);
    AllRunsOfWrite(planar, sampleRate, level, first, count, ch, data, start, b);
    SpanWithin(first, count, BlockPoints(planar, sampleRate, level), |planar|);
    JoinedRun(data, start, |planar|, ch, count, planar[ch], b);
    PositionAt(planar, sampleRate, level, first, count, 0);
    PositionAt(planar, sampleRate, level, first, count, count);
    MergedIsJoined(data, start, count, |planar|, ch);
  }

  lemma MergedIsJoined(data: Sample, start: nat, count: nat, channels: nat, ch: nat)
    requires ch < channels && count > 0 && start + Stride(count, channels) <= |data|
    ensures start + ch < |data|
    ensures MergedPoint(data, start, Stride(count, channels), channels, ch)
      == JoinPoints(data, start, channels, ch, count, data[start + ch])
  {
    GroupsOfStride(count, channels);
    assert Stride(count, channels) == Stride(count - 1, channels) + channels;
  }

  lemma SpanWithin(first: nat, count: nat, points: nat, channels: nat)
    requires first + count <= points && count > 0
    ensures Stride(first, channels) + Stride(count, channels) <= Stride(points, channels)
    ensures Stride(count, channels) == Stride(count - 1, channels) + channels
  {
    StridePlus(first, count, channels);
    StrideMonotone(first + count, points, channels);
  }

  // ----- choosing the level -----

  lemma CoversMeansAPoint(level: nat, length: Rational)
    requires length.Of? && length.value > 0.0
    ensures Covers(level, length) <==> AtRate(length.value, level) >= 1.0
  {
    AtRateIsProduct(length.value, level);
    RatioAtLeast(Rate(level), length.value);
  }

  lemma RatioAtLeast(rate: real, x: real)
    requires x > 0.0
    ensures rate >= 1.0 / x <==> x * rate >= 1.0
  {
    var y := 1.0 / x;
    assert y * x == 1.0;
    if rate >= y { assert rate * x >= y * x; } else { assert rate * x < y * x; }
  }

  /**
   * The level chosen for a range is the coarsest one that has a point in it, the finest one if
   * none has. A negative length, which has none either, gets the coarsest.
   */
  lemma LevelForIsCoarsest(length: Rational)
    ensures length.Of? && length.value >= 1.0 / 1024.0 ==> PointIndex(length, LevelFor(length, 0)) >= 1
    ensures forall k: nat :: k < LevelFor(length, 0) ==> PointIndex(length, k) == 0
    ensures length.Null? || 0.0 <= length.value < 1.0 / 1024.0 ==> LevelFor(length, 0) == TOP
    ensures length.Of? && length.value < 0.0 ==> LevelFor(length, 0) == 0
  {
    if length.Of? {
      if length.value > 0.0 {
        PositiveLevelFor(length);
      } else if length.value < 0.0 {
        assert Rate(0) >= 0.0 >= 1.0 / length.value;
      }
    }
    if length.Null? || length.value == 0.0 { LevelForStops(length, 0); }
    NoPointsBelow(length, LevelFor(length, 0));
  }

  lemma NoPointsBelow(length: Rational, level: nat)
    requires level == LevelFor(length, 0)
    ensures forall k: nat :: k < level ==> PointIndex(length, k) == 0
  {
    forall k: nat | k < level ensures PointIndex(length, k) == 0 {
      NoPointBelow(length, level, k);
    }
  }

  lemma NoPointBelow(length: Rational, level: nat, k: nat)
    requires level == LevelFor(length, 0) && k < level
    ensures PointIndex(length, k) == 0
  {
    if length.Of? && length.value > 0.0 {
      CoversMeansAPoint(k, length);
      LevelForSkips(length, 0, k);
    } else if length.Of? {
      AtRateIsProduct(length.value, k);
    }
  }

  lemma PositiveLevelFor(length: Rational)
    requires length.Of? && length.value > 0.0
    ensures length.value >= 1.0 / 1024.0 ==> PointIndex(length, LevelFor(length, 0)) >= 1
    ensures length.value < 1.0 / 1024.0 ==> LevelFor(length, 0) == TOP
  {
    TopRate(length.value);
    LevelForStops(length, 0);
    CoversMeansAPoint(LevelFor(length, 0), length);
    AtRateAscends(length.value, LevelFor(length, 0), TOP);
  }

  lemma {:induction false} AtRateAscends(x: real, k: nat, level: nat)
    requires x >= 0.0 && k <= level
    ensures AtRate(x, k) <= AtRate(x, level)
    decreases level - k
  {
    if k < level { AtRateAscends(x, k, level - 1); }
  }

  lemma {:induction false} LevelForStops(length: Rational, level: nat)
    requires level <= TOP
    ensures LevelFor(length, level) == TOP || Covers(LevelFor(length, level), length)
    decreases TOP - level
  {
    if level < TOP && !Covers(level, length) { LevelForStops(length, level + 1); }
  }

  lemma {:induction false} LevelForSkips(length: Rational, level: nat, k: nat)
    requires level <= TOP && level <= k < LevelFor(length, level)
    ensures !Covers(k, length)
    decreases TOP - level
  {
    if level < k { LevelForSkips(length, level + 1, k); }
  }

  // ----- a query after one write -----

  lemma QuerySpanOfWrite(w: Wave, start: Rational, length: Rational, level: nat, points: nat)
    requires level < |w.levels| && |w.levels[level]| == Stride(points, w.channels)
    ensures var first, count := PointIndex(start.Minus(w.virtualStart), level), PointIndex(length, level);
      QuerySpan(w, start, length, level) ==
        (Stride(first, w.channels), Stride(Clipped(first, count, points), w.channels))
  {
    var first, count, c := PointIndex(start.Minus(w.virtualStart), level), PointIndex(length, level), w.channels;
    if points <= first {
      StrideMonotone(points, first, c);
    } else {
      StridePlus(first, points - first, c);
      assert first + (points - first) == points;
      if first + count <= points {
        StrideMonotone(count, points - first, c);
      } else {
        StrideMonotone(points - first, count, c);
      }
    }
  }

  /** The points a query covers, clipped to the points there are. */
  function Clipped(first: nat, count: nat, points: nat): nat {
    if points <= first then 0 else if first + count <= points then count else points - first
  }

  /** A query on a store whose level is known. */
  lemma QueryOfLevel(w: Wave, start: Rational, length: Rational, level: nat, data: Sample, points: nat, first: nat,
                     count: nat)
    requires w.Full() && level == LevelFor(length, 0) && data == w.levels[level] && |data| == Stride(points, w.channels)
    requires first == PointIndex(start.Minus(w.virtualStart), level) && count == PointIndex(length, level)
    ensures w.channels > 0 && Clipped(first, count, points) > 0 ==>
      Query(w, start, length) == Merged(data, Stride(first, w.channels),
          Stride(Clipped(first, count, points), w.channels), w.channels)
    ensures Clipped(first, count, points) == 0 ==> Query(w, start, length) == Silence(w.channels)
  {
    QuerySpanOfWrite(w, start, length, level, points);
    if w.channels > 0 { StrideMonotone(1, Clipped(first, count, points) + 1, w.channels); }
  }

  /**
   * After one write into a blank store, a query of at least 1/1024 s that starts
   * within the data returns, per channel, the minimum and maximum of exactly the raw
   * samples under the points it covers (clipped to the points that exist).
   */
  lemma QueryMatchesRawScan(w: Wave, planar: Planar, sampleRate: nat, written: Rational, start: Rational,
                            length: Rational,
                            ch: nat, level: nat, first: nat, count: nat)
    requires Blank(w) && |planar| == w.channels && Rectangular(planar) && sampleRate >= 1024 && ch < |planar|
    requires length.Of? && length.value >= 1.0 / 1024.0 && level == LevelFor(length, 0)
    requires first == PointIndex(start.Minus(written), level) < BlockPoints(planar, sampleRate, level)
    requires count == Clipped(first, PointIndex(length, level), BlockPoints(planar, sampleRate, level))
    ensures count > 0
    ensures var from, to := SampleOfPoint(planar, sampleRate, level, first),
      SampleOfPoint(planar, sampleRate, level, first + count);
      && from < to <= |planar[ch]|
      && IsPeakOf(Query(Written(w, planar, sampleRate, written), start, length)[ch], planar[ch], from, to)
  {
    LevelForIsCoarsest(length);
    var r := Written(w, planar, sampleRate, written);
    var block := Block(planar, sampleRate, level);
    BlankWrite(w, planar, sampleRate, written, level);
    QueryOfLevel(r, start, length, level, block, BlockPoints(planar, sampleRate, level), first,
        PointIndex(length, level));
    MergedEntry(planar, sampleRate, level, first, count, ch, Query(r, start, length));
  }

  lemma MergedEntry(planar: Planar, sampleRate: nat, level: nat, first: nat, count: nat, ch: nat, answer: Sample)
    requires sampleRate >= 1024 && ch < |planar| && Rectangular(planar) && level <= TOP && count > 0
    requires first + count <= BlockPoints(planar, sampleRate, level)
    requires answer == Merged(Block(planar, sampleRate, level), Stride(first, |planar|), Stride(count, |planar|),
        |planar|)
    ensures var from, to := SampleOfPoint(planar, sampleRate, level, first),
      SampleOfPoint(planar, sampleRate, level, first + count);
      from < to <= |planar[ch]| && IsPeakOf(answer[ch], planar[ch], from, to)
  {
    MergedPointIsExact(planar, sampleRate, level, first, count, ch);
    PeakOfIsExact(planar[ch], SampleOfPoint(planar, sampleRate, level, first),
        SampleOfPoint(planar, sampleRate, level, first + count));
  }

  /**
   * At or past the end of the data, and for ranges too short for a point, the answer is one silent pair per channel.
   */
  lemma QueryPastTheEnd(w: Wave, planar: Planar, sampleRate: nat, written: Rational, start: Rational, length: Rational)
    requires Blank(w) && |planar| == w.channels > 0 && sampleRate > 0
    requires var level := LevelFor(length, 0);
      || BlockPoints(planar, sampleRate, level) <= PointIndex(start.Minus(written), level)
      || PointIndex(length, level) == 0
    ensures Query(Written(w, planar, sampleRate, written), start, length) == Silence(w.channels)
  {
    var level := LevelFor(length, 0);
    BlankWrite(w, planar, sampleRate, written, level);
    QuerySpanOfWrite(Written(w, planar, sampleRate, written), start, length, level,
        BlockPoints(planar, sampleRate, level));
  }

  // ----- edits -----

  /** A time that is a whole, positive number of points of a level. */
  ghost predicate WholePoints(time: real, level: nat, points: nat) {
    points > 0 && AtRate(time, level) == points as real
  }

  lemma {:induction false} AtRateAdds(x: real, y: real, level: nat)
    ensures AtRate(x + y, level) == AtRate(x, level) + AtRate(y, level)
  {
    if level > 0 { AtRateAdds(x, y, level - 1); }
  }

  lemma ShiftedIndex(time: real, shift: real, level: nat, points: nat)
    requires time >= 0.0 && WholePoints(shift, level, points)
    ensures PointIndex(Of(time + shift), level) == PointIndex(Of(time), level) + points
  {
    AtRateAdds(time, shift, level);
  }

  lemma {:induction false} JoinPointsOfSuffix(data: Sample, drop: nat, from: nat, channels: nat, ch: nat, groups: nat,
                                              first: SamplePerChannel)
    requires drop <= |data|
    ensures JoinPoints(data[drop..], from, channels, ch, groups, first) == JoinPoints(data, from + drop, channels, ch,
        groups, first)
  {
    if groups > 0 {
      JoinPointsOfSuffix(data, drop, from, channels, ch, groups - 1, first);
    }
  }

  lemma MergedOfSuffix(data: Sample, drop: nat, from: nat, count: nat, channels: nat)
    requires drop <= |data|
    ensures Merged(data[drop..], from, count, channels) == Merged(data, from + drop, count, channels)
  {
    forall ch | 0 <= ch < channels
      ensures MergedPoint(data[drop..], from, count, channels, ch) == MergedPoint(data, from + drop, count, channels,
          ch)
    {
      var n := if from + count <= |data| - drop then count else if from <= |data| - drop then |data| - drop - from
          else 0;
      JoinPointsOfSuffix(data, drop, from, channels, ch, Groups(n, channels),
                         if channels <= n && from + ch < |data| - drop then data[from + drop + ch] else SILENT);
    }
  }

  /** A query, once its level and span are known. */
  function Answer(data: Sample, from: nat, count: nat, channels: nat): Sample {
    var available := |data| - from;
    var n := if available <= 0 then 0 else if count < available then count else available;
    if n > 0 then Merged(data, from, n, channels) else Silence(channels)
  }

  lemma QueryIsAnswer(w: Wave, at: Rational, length: Rational, level: nat, from: nat)
    requires w.Full() && level == LevelFor(length, 0)
    requires from == TimeToSamples(at.Minus(w.virtualStart), level, w.channels)
    ensures Query(w, at, length) == Answer(w.levels[level], from, TimeToSamples(length, level, w.channels), w.channels)
  {
  }

  lemma AnswerOfTail(data: Sample, tail: Sample, drop: nat, from: nat, count: nat, channels: nat)
    requires drop <= |data| && tail == data[drop..]
    ensures Answer(tail, from, count, channels) == Answer(data, from + drop, count, channels)
  {
    var available := |tail| - from;
    if available > 0 {
      MergedOfSuffix(data, drop, from, if count < available then count else available, channels);
    }
  }

  lemma AnswerOfSuffix(data: Sample, drop: nat, from: nat, count: nat, channels: nat)
    ensures Answer(data[if drop < |data| then drop else |data|..], from, count, channels)
      == Answer(data, from + drop, count, channels)
  {
    if drop < |data| { AnswerOfTail(data, data[drop..], drop, from, count, channels); }
  }

  /**
   * Trimming whole points off the start of a store leaves every lookup at or after the
   * new start as it was.
   */
  lemma TrimKeepsLookups(w: Wave, start: real, cut: real, points: nat, at: real, length: Rational)
    requires w.Full() && w.virtualStart == Of(start) && cut > 0.0 && at >= start + cut
    requires WholePoints(cut, LevelFor(length, 0), points)
    ensures Query(Trimmed(w, Of(cut)), Of(at), length) == Query(w, Of(at), length)
  {
    var level, t := LevelFor(length, 0), Trimmed(w, Of(cut));
    TrimmedParts(w, start, cut, level);
    TrimmedAnswers(w, t, start, cut, points, at, length, level);
  }

  lemma TrimmedParts(w: Wave, start: real, cut: real, level: nat)
    requires w.Full() && w.virtualStart == Of(start) && cut > 0.0 && level <= TOP
    ensures var t := Trimmed(w, Of(cut));
      && t.Full() && t.virtualStart == Of(start + cut) && t.channels == w.channels
      && t.levels[level] == TrimmedLevel(w.levels[level], level, w.channels, Of(cut))
  {
  }

  lemma TrimmedAnswers(w: Wave, t: Wave, start: real, cut: real, points: nat, at: real, length: Rational, level: nat)
    requires w.Full() && t.Full() && w.virtualStart == Of(start) && t.virtualStart == Of(start + cut)
    requires cut > 0.0 && at >= start + cut && t.channels == w.channels && level == LevelFor(length, 0)
    requires WholePoints(cut, level, points)
    requires t.levels[level] == TrimmedLevel(w.levels[level], level, w.channels, Of(cut))
    ensures Query(t, Of(at), length) == Query(w, Of(at), length)
  {
    var chop, from := Stride(points, w.channels), TimeToSamples(Of(at - (start + cut)), level, w.channels);
    TrimShift(start, cut, points, at, level, w.channels);
    QueryIsAnswer(w, Of(at), length, level, from + chop);
    QueryIsAnswer(t, Of(at), length, level, from);
    TrimmedData(w.levels[level], level, w.channels, cut, points);
    AnswerOfSuffix(w.levels[level], chop, from, TimeToSamples(length, level, w.channels), w.channels);
  }

  lemma TrimShift(start: real, cut: real, points: nat, at: real, level: nat, channels: nat)
    requires cut > 0.0 && at >= start + cut && WholePoints(cut, level, points)
    ensures TimeToSamples(Of(at - start), level, channels)
         == TimeToSamples(Of(at - (start + cut)), level, channels) + Stride(points, channels)
  {
    var offset := at - (start + cut);
    ShiftedIndex(offset, cut, level, points);
    assert offset + cut == at - start;
    StridePlus(PointIndex(Of(offset), level), points, channels);
  }

  lemma TrimmedData(data: Sample, level: nat, channels: nat, cut: real, points: nat)
    requires cut > 0.0 && WholePoints(cut, level, points)
    ensures var chop := Stride(points, channels);
      TrimmedLevel(data, level, channels, Of(cut)) == data[if chop < |data| then chop else |data|..]
  {
    assert PointIndex(Of(cut), level) == points;
  }

  /**
   * A negative trim moves the start back without prepending anything: the amount to
   * prepend is computed as 0/0 minus the length, which is 0/0, and 0/0 is no points.
   */
  lemma NegativeTrimPrependsNothing(w: Wave, back: real)
    requires w.Full() && back > 0.0
    ensures Trimmed(w, Of(-back)) == w.(virtualStart := w.virtualStart.Plus(Of(-back)))
  {
    assert Trimmed(w, Of(-back)).levels == w.levels;
  }

  /** The length of one point of a level. */
  function PointTime(level: nat): (t: real)
    ensures t > 0.0
  {
    1.0 / Rate(level)
  }

  lemma PointTimeSelects(level: nat)
    requires level <= TOP
    ensures LevelFor(Of(PointTime(level)), 0) == level
    ensures PointIndex(Of(PointTime(level)), level) == 1
  {
    var t := PointTime(level);
    PointTimeIsOnePoint(level);
    SelectFrom(level, 0, t);
  }

  lemma PointTimeIsOnePoint(level: nat)
    requires level <= TOP
    ensures AtRate(PointTime(level), level) == 1.0
  {
    InverseTimes(Rate(level), PointTime(level), PointTime(level) * Rate(level));
    InverseIsOnePoint(level, PointTime(level), Rate(level));
  }

  lemma InverseIsOnePoint(level: nat, t: real, r: real)
    requires r == Rate(level) && t * r == 1.0
    ensures AtRate(t, level) == 1.0
  {
    AtRateIsProduct(t, level);
  }

  lemma InverseTimes(r: real, t: real, x: real)
    requires r > 0.0 && t == 1.0 / r && x == t * r
    ensures x == 1.0
  {
  }

  lemma {:induction false} SelectFrom(level: nat, k: nat, t: real)
    requires k <= level <= TOP && t > 0.0 && AtRate(t, level) == 1.0
    ensures LevelFor(Of(t), k) == level
    decreases level - k
  {
    CoversMeansAPoint(k, Of(t));
    if k < level {
      AtRateGrows(t, k, level);
      SelectFrom(level, k + 1, t);
    }
  }

  lemma {:induction false} AtRateGrows(t: real, k: nat, level: nat)
    requires t > 0.0 && k < level
    ensures AtRate(t, k) < AtRate(t, level)
    decreases level - k
  {
    AtRateIsPositive(t, k);
    AtRateIsPositive(t, level - 1);
    if k < level - 1 { AtRateGrows(t, k, level - 1); }
  }

  lemma {:induction false} AtRateIsPositive(t: real, k: nat)
    requires t > 0.0
    ensures AtRate(t, k) > 0.0
  {
    if k > 0 { AtRateIsPositive(t, k - 1); }
  }

  /** Point `p` of a level, silent past its end. */
  function PointRow(data: Sample, channels: nat, p: nat): (r: Sample)
    ensures |r| == channels
    ensures forall ch :: 0 <= ch < channels ==> r[ch] == EntryOf(data, Stride(p, channels) + ch)
  {
    seq(channels, ch requires 0 <= ch < channels => EntryOf(data, Stride(p, channels) + ch))
  }

  /** A lookup of one point's length returns the point. */
  lemma OnePointMerged(data: Sample, c: nat, points: nat, p: nat)
    requires c > 0 && p < points && |data| == Stride(points, c)
    ensures Merged(data, Stride(p, c), c, c) == PointRow(data, c, p)
  {
    StrideMonotone(p + 1, points, c);
    forall ch | 0 <= ch < c ensures MergedPoint(data, Stride(p, c), c, c, ch) == data[Stride(p, c) + ch] {
      assert Groups(c, c) == 1;
      JoinOnePoint(data, Stride(p, c), c, ch);
    }
  }

  lemma NoPointIsSilent(data: Sample, c: nat, points: nat, p: nat)
    requires p >= points && |data| == Stride(points, c)
    ensures Silence(c) == PointRow(data, c, p)
  {
    StrideMonotone(points, p, c);
    forall ch | 0 <= ch < c ensures Silence(c)[ch] == SILENT { SilenceAt(c, ch); }
  }

  lemma PointLookup(w: Wave, level: nat, points: nat, at: Rational, p: nat)
    requires w.Full() && level <= TOP && |w.levels[level]| == Stride(points, w.channels)
    requires p == PointIndex(at.Minus(w.virtualStart), level)
    ensures Query(w, at, Of(PointTime(level))) == PointRow(w.levels[level], w.channels, p)
  {
    var data, c := w.levels[level], w.channels;
    PointTimeSelects(level);
    QueryOfLevel(w, at, Of(PointTime(level)), level, data, points, p, 1);
    if p >= points {
      NoPointIsSilent(data, c, points, p);
    } else if c > 0 {
      assert Clipped(p, 1, points) == 1 && Stride(1, c) == c;
      OnePointMerged(data, c, points, p);
    }
  }

  /** Every entry of a level is silent. */
  ghost predicate SilentLevel(data: Sample) {
    forall i :: 0 <= i < |data| ==> data[i] == SILENT
  }

  /** Looking up any single point at or after `start` gives the same before and after. */
  ghost predicate SameLookups(before: Wave, after: Wave, start: real, level: nat)
    requires before.Full() && after.Full()
  {
    forall at: real :: at >= start ==> SameLookup(before, after, at, level)
  }

  ghost predicate SameLookup(before: Wave, after: Wave, at: real, level: nat)
    requires before.Full() && after.Full()
  {
    Query(before, Of(at), Of(PointTime(level))) == Query(after, Of(at), Of(PointTime(level)))
  }

  /**
   * The source documents a negative trim as prepending silence, which would keep every
   * absolute-time lookup. It keeps them exactly when the level holds only silence.
   */
  lemma NegativeTrimKeepsLookupsOnlyInSilence(w: Wave, start: real, back: real, level: nat, shift: nat, points: nat)
    requires w.Full() && w.virtualStart == Of(start) && w.channels > 0 && back > 0.0 && level <= TOP
    requires |w.levels[level]| == Stride(points, w.channels)
    requires WholePoints(back, level, shift)
    ensures SameLookups(w, Trimmed(w, Of(-back)), start, level) <==> SilentLevel(w.levels[level])
  {
    var t := Trimmed(w, Of(-back));
    var data := w.levels[level];
    NegativeTrimPrependsNothing(w, back);
    assert t.levels[level] == data;
    if SilentLevel(data) {
      forall at: real | at >= start ensures SameLookup(w, t, at, level) {
        PointLookup(w, level, points, Of(at), PointIndex(Of(at - start), level));
        PointLookup(t, level, points, Of(at), PointIndex(Of(at - (start - back)), level));
        assert Query(w, Of(at), Of(PointTime(level))) == Query(t, Of(at), Of(PointTime(level)));
      }
    }
    if SameLookups(w, t, start, level) {
      forall i | 0 <= i < |data| ensures data[i] == SILENT {
        DivisionSplits(i, w.channels);
        DivisionBound(i, points, w.channels);
        SilentBackwards(w, start, back, level, shift, points, Quotient(i, w.channels), Residue(i, w.channels));
      }
    }
  }

  /** A failing input: one channel with one loud point at the coarsest level, trimmed back by that level's 8 s. */
  lemma LoudPointIsLost(w: Wave, loud: SamplePerChannel)
    requires w.Full() && w.virtualStart == Of(0.0) && w.channels == 1 && w.levels[0] == [loud] && loud != SILENT
    ensures !SameLookups(w, Trimmed(w, Of(-8.0)), 0.0, 0)
  {
    AtRateIsProduct(8.0, 0);
    assert WholePoints(8.0, 0, 1);
    assert Stride(1, 1) == 1;
    assert w.levels[0][0] != SILENT;
    NegativeTrimKeepsLookupsOnlyInSilence(w, 0.0, 8.0, 0, 1, 1);
  }

  /** Each point equals the one `shift` later, and past the end there is only silence. */
  lemma {:induction false} SilentBackwards(w: Wave, start: real, back: real, level: nat, shift: nat, points: nat,
                                           p: nat, ch: nat)
    requires w.Full() && w.virtualStart == Of(start) && back > 0.0 && level <= TOP && ch < w.channels
    requires |w.levels[level]| == Stride(points, w.channels)
    requires WholePoints(back, level, shift)
    requires SameLookups(w, Trimmed(w, Of(-back)), start, level)
    ensures EntryOf(w.levels[level], Stride(p, w.channels) + ch) == SILENT
    decreases points + shift - p
  {
    if p >= points {
      StrideMonotone(points, p, w.channels);
    } else {
      SilentBackwards(w, start, back, level, shift, points, p + shift, ch);
      PointEqualsLater(w, start, back, level, shift, points, p, ch);
    }
  }

  lemma PointEqualsLater(w: Wave, start: real, back: real, level: nat, shift: nat, points: nat, p: nat, ch: nat)
    requires w.Full() && w.virtualStart == Of(start) && back > 0.0 && level <= TOP && ch < w.channels
    requires |w.levels[level]| == Stride(points, w.channels)
    requires WholePoints(back, level, shift)
    requires SameLookups(w, Trimmed(w, Of(-back)), start, level)
    ensures EntryOf(w.levels[level], Stride(p, w.channels) + ch)
      == EntryOf(w.levels[level], Stride(p + shift, w.channels) + ch)
  {
    var t := Trimmed(w, Of(-back));
    var data := w.levels[level];
    NegativeTrimPrependsNothing(w, back);
    var offset := p as real * PointTime(level);
    PointOffset(p, level);
    var at := start + offset;
    assert at - start == offset && at - (start - back) == offset + back;
    ShiftedIndex(offset, back, level, shift);
    PointLookup(w, level, points, Of(at), p);
    PointLookup(t, level, points, Of(at), p + shift);
    assert SameLookup(w, t, at, level);
    assert PointRow(data, w.channels, p)[ch] == PointRow(data, w.channels, p + shift)[ch];
  }

  lemma PointOffset(p: nat, level: nat)
    ensures p as real * PointTime(level) >= 0.0
    ensures PointIndex(Of(p as real * PointTime(level)), level) == p
  {
    var r := Rate(level);
    AtRateIsProduct(p as real * PointTime(level), level);
    TimesInverse(p as real, r);
  }

  lemma TimesInverse(x: real, r: real)
    requires r > 0.0 && x >= 0.0
    ensures x * (1.0 / r) >= 0.0 && x * (1.0 / r) * r == x
  {
    InverseTimes(r, 1.0 / r, (1.0 / r) * r);
    var y := 1.0 / r;
    assert (x * y) * r == x * (y * r);
    assert x * y >= 0.0;
  }

  // ----- mid and overwrite_silence -----

  lemma {:induction false} JoinPointsOfPrefix(data: Sample, longer: Sample, from: nat, channels: nat, ch: nat,
                                              groups: nat, first: SamplePerChannel)
    requires groups > 0 ==> from + Stride(groups - 1, channels) + ch < |data|
    requires groups > 0 ==> from + Stride(groups - 1, channels) + ch < |longer|
    requires forall i :: 0 <= i < |data| && i < |longer| ==> data[i] == longer[i]
    ensures JoinPoints(data, from, channels, ch, groups, first) == JoinPoints(longer, from, channels, ch, groups, first)
  {
    if groups > 1 {
      JoinPointsOfPrefix(data, longer, from, channels, ch, groups - 1, first);
    } else if groups == 1 {
      assert JoinPoints(data, from, channels, ch, 0, first) == JoinPoints(longer, from, channels, ch, 0, first);
    }
  }

  lemma MergedOfPrefix(data: Sample, longer: Sample, from: nat, count: nat, channels: nat)
    requires channels > 0 && from + Stride(count, channels) <= |data| && from + Stride(count, channels) <= |longer|
    requires forall i :: 0 <= i < |data| && i < |longer| ==> data[i] == longer[i]
    ensures Merged(data, from, Stride(count, channels), channels) == Merged(longer, from, Stride(count, channels),
        channels)
  {
    GroupsOfStride(count, channels);
    forall ch | 0 <= ch < channels
      ensures MergedPoint(data, from, Stride(count, channels), channels, ch)
           == MergedPoint(longer, from, Stride(count, channels), channels, ch)
    {
      if count > 0 {
        JoinPointsOfPrefix(data, longer, from, channels, ch, count, data[from + ch]);
      }
    }
  }

  lemma ResizedLevelKeeps(data: Sample, size: nat, first: nat, count: nat, channels: nat, points: nat)
    requires channels > 0 && size == Stride(points, channels) && first + count <= points
    requires Stride(first + count, channels) <= |data|
    ensures Merged(ResizedLevel(data, size), Stride(first, channels), Stride(count, channels), channels)
         == Merged(data, Stride(first, channels), Stride(count, channels), channels)
  {
    var resized := ResizedLevel(data, size);
    StridePlus(first, count, channels);
    StrideMonotone(first + count, points, channels);
    forall i | 0 <= i < |resized| && i < |data| ensures resized[i] == data[i] {
      if |data| < |resized| { PadToAt(data, |resized|, i); }
    }
    MergedOfPrefix(resized, data, Stride(first, channels), count, channels);
  }

  /** Resizing leaves a lookup as it was when its points lie in the data before and after. */
  lemma SameMergeSameQuery(w: Wave, r: Wave, at: Rational, length: Rational, level: nat, first: nat, count: nat)
    requires w.Full() && r.Full() && r.virtualStart == w.virtualStart && r.channels == w.channels > 0
    requires level == LevelFor(length, 0) && first == PointIndex(at.Minus(w.virtualStart), level)
    requires count == PointIndex(length, level)
    requires Stride(first, w.channels) + Stride(count, w.channels) <= |w.levels[level]|
    requires Stride(first, w.channels) + Stride(count, w.channels) <= |r.levels[level]|
    requires Merged(r.levels[level], Stride(first, w.channels), Stride(count, w.channels), w.channels)
          == Merged(w.levels[level], Stride(first, w.channels), Stride(count, w.channels), w.channels)
    ensures Query(r, at, length) == Query(w, at, length)
  {
    QueryInside(w, at, length, level, Stride(first, w.channels), Stride(count, w.channels));
    QueryInside(r, at, length, level, Stride(first, w.channels), Stride(count, w.channels));
  }

  lemma QueryInside(w: Wave, at: Rational, length: Rational, level: nat, from: nat, n: nat)
    requires w.Full() && level == LevelFor(length, 0)
    requires from == TimeToSamples(at.Minus(w.virtualStart), level, w.channels)
    requires n == TimeToSamples(length, level, w.channels) && from + n <= |w.levels[level]|
    ensures Query(w, at, length) == if n > 0 then Merged(w.levels[level], from, n, w.channels) else Silence(w.channels)
  {
  }

  lemma ResizeKeepsLookups(w: Wave, size: Rational, at: Rational, length: Rational, first: nat, count: nat)
    requires w.Full() && w.channels > 0
    requires first == PointIndex(at.Minus(w.virtualStart), LevelFor(length, 0))
    requires count == PointIndex(length, LevelFor(length, 0))
    requires first + count <= PointIndex(size, LevelFor(length, 0))
    requires Stride(first + count, w.channels) <= |w.levels[LevelFor(length, 0)]|
    ensures Query(Resized(w, size), at, length) == Query(w, at, length)
  {
    var level, c := LevelFor(length, 0), w.channels;
    if w.length != size {
      StridePlus(first, count, c);
      StrideMonotone(first + count, PointIndex(size, level), c);
      ResizedLevelKeeps(w.levels[level], TimeToSamples(size, level, c), first, count, c, PointIndex(size, level));
      SameMergeSameQuery(w, Resized(w, size), at, length, level, first, count);
    }
  }

  lemma PointIndexSubadditive(x: real, y: real, level: nat)
    requires x >= 0.0 && y >= 0.0
    ensures PointIndex(Of(x), level) + PointIndex(Of(y), level) <= PointIndex(Of(x + y), level)
  {
    AtRateAdds(x, y, level);
  }

  lemma {:induction false} AtRateMonotone(x: real, y: real, level: nat)
    requires x <= y
    ensures AtRate(x, level) <= AtRate(y, level)
  {
    if level > 0 { AtRateMonotone(x, y, level - 1); }
  }

  /**
   * `mid` keeps every lookup inside the range it cuts out, when it starts a whole
   * number of points after the store and the store has the points looked up.
   */
  lemma MidKeepsLookups(w: Wave, start: real, offset: real, size: real, points: nat, at: real, length: real, level: nat)
    requires w.Full() && w.virtualStart == Of(start) && w.channels > 0 && level == LevelFor(Of(length), 0)
    requires offset == start || (offset > start && WholePoints(offset - start, level, points))
    requires length >= 0.0 && offset <= at && at + length <= offset + size
    requires Stride(PointIndex(Of(at - start), level) + PointIndex(Of(length), level), w.channels) <= |w.levels[level]|
    ensures Query(MidOf(w, Of(offset), Of(size)), Of(at), Of(length)) == Query(w, Of(at), Of(length))
  {
    var t := Trimmed(w, Of(offset - start));
    var first, count := PointIndex(Of(at - offset), level), PointIndex(Of(length), level);
    RangeFits(at - offset, length, size, level);
    TrimForMid(w, start, offset, points, at, length, level);
    ResizeKeepsLookups(t, Of(size), Of(at), Of(length), first, count);
    MidIsResizedTrim(w, start, offset, size, t);
  }

  lemma MidIsResizedTrim(w: Wave, start: real, offset: real, size: real, t: Wave)
    requires w.virtualStart == Of(start) && t == Trimmed(w, Of(offset - start))
    ensures MidOf(w, Of(offset), Of(size)) == Resized(t, Of(size))
  {
  }

  lemma RangeFits(from: real, length: real, size: real, level: nat)
    requires from >= 0.0 && length >= 0.0 && from + length <= size
    ensures PointIndex(Of(from), level) + PointIndex(Of(length), level) <= PointIndex(Of(size), level)
  {
    PointIndexSubadditive(from, length, level);
    AtRateMonotone(from + length, size, level);
  }

  lemma TrimForMid(w: Wave, start: real, offset: real, points: nat, at: real, length: real, level: nat)
    requires w.Full() && w.virtualStart == Of(start) && level == LevelFor(Of(length), 0)
    requires offset == start || (offset > start && WholePoints(offset - start, level, points))
    requires offset <= at
    requires Stride(PointIndex(Of(at - start), level) + PointIndex(Of(length), level), w.channels) <= |w.levels[level]|
    ensures var t := Trimmed(w, Of(offset - start));
      && t.virtualStart == Of(offset) && t.channels == w.channels
      && Query(t, Of(at), Of(length)) == Query(w, Of(at), Of(length))
      && Stride(PointIndex(Of(at - offset), level) + PointIndex(Of(length), level), w.channels) <= |t.levels[level]|
  {
    if offset > start {
      TrimKeepsLookups(w, start, offset - start, points, at, Of(length));
      TrimLeavesEnough(w.levels[level], start, offset, points, at, level, w.channels, PointIndex(Of(length), level));
    }
  }

  lemma TrimLeavesEnough(data: Sample, start: real, offset: real, points: nat, at: real, level: nat, channels: nat,
                         count: nat)
    requires start < offset <= at && WholePoints(offset - start, level, points)
    requires Stride(PointIndex(Of(at - start), level) + count, channels) <= |data|
    ensures Stride(PointIndex(Of(at - offset), level) + count, channels)
         <= |TrimmedLevel(data, level, channels, Of(offset - start))|
  {
    var first := PointIndex(Of(at - offset), level);
    ShiftedIndex(at - offset, offset - start, level, points);
    assert at - offset + (offset - start) == at - start;
    StridePlus(first + count, points, channels);
    assert first + count + points == PointIndex(Of(at - start), level) + count;
    TrimmedData(data, level, channels, offset - start, points);
  }

  /** Silencing a range at or after the start silences its own points and no others. */
  lemma SilenceIsLocal(w: Wave, start: Rational, length: Rational, level: nat, i: nat)
    requires w.Full() && level <= TOP && !w.length.IsNull() && !start.Less(w.virtualStart)
    ensures var first := TimeToSamples(start.Minus(w.virtualStart), level, w.channels);
      EntryOf(Silenced(w, start, length).levels[level], i) ==
        if first <= i < first + TimeToSamples(length, level, w.channels) then SILENT else EntryOf(w.levels[level], i)
  {
    var first, count := TimeToSamples(start.Minus(w.virtualStart), level, w.channels),
        TimeToSamples(length, level, w.channels);
    OverlayAt(w.levels[level], first, Silence(count), i);
    if first <= i < first + count { SilenceAt(count, i - first); }
  }

  // ----- writing before the start -----

  lemma StartMovesBack(w: Wave, start: real, earlier: real)
    requires w.Full() && !w.length.IsNull() && w.virtualStart == Of(start) && earlier < start
    ensures StartValidated(w, Of(earlier)) == w.(virtualStart := Of(earlier))
  {
    NegativeTrimPrependsNothing(w, start - earlier);
    assert Of(earlier).Minus(w.virtualStart) == Of(-(start - earlier));
  }

  /**
   * A write before the start moves the start but not the points: the new points go over the
   * oldest ones, and what is left of those keeps its place, now at earlier times.
   */
  lemma EarlyWriteCoversOldPoints(w: Wave, planar: Planar, sampleRate: nat, start: real, earlier: real, level: nat,
                                  i: nat)
    requires w.Full() && sampleRate > 0 && |planar| == w.channels > 0 && level <= TOP
    requires !w.length.IsNull() && w.virtualStart == Of(start) && earlier < start
    ensures var r, block := Written(w, planar, sampleRate, Of(earlier)), Block(planar, sampleRate, level);
      && r.virtualStart == Of(earlier)
      && EntryOf(r.levels[level], i) == if i < |block| then block[i] else EntryOf(w.levels[level], i)
  {
    StartMovesBack(w, start, earlier);
    AtRateZero(level);
    OverlayAt(w.levels[level], 0, Block(planar, sampleRate, level), i);
  }

  /** The same for silence before the start. */
  lemma EarlySilenceCoversOldPoints(w: Wave, start: real, earlier: real, length: Rational, level: nat, i: nat)
    requires w.Full() && level <= TOP && !w.length.IsNull() && w.virtualStart == Of(start) && earlier < start
    ensures var r, count := Silenced(w, Of(earlier), length), TimeToSamples(length, level, w.channels);
      && r.virtualStart == Of(earlier)
      && EntryOf(r.levels[level], i) == if i < count then SILENT else EntryOf(w.levels[level], i)
  {
    var count := TimeToSamples(length, level, w.channels);
    StartMovesBack(w, start, earlier);
    AtRateZero(level);
    OverlayAt(w.levels[level], 0, Silence(count), i);
    if i < count { SilenceAt(count, i); }
  }
}
