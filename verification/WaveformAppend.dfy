/**
 * Writing a signal in successive blocks against writing it at once.
 */
module WaveformAppend {
  import opened Rationals
  import opened Peaks
  import opened Strides
  import opened WaveformTiles
  import opened WaveformSpec
  import opened WaveformTheorems

  /** One signal played after the other. */
  function Glue(a: Planar, b: Planar): (r: Planar)
    requires |a| == |b|
    ensures |r| == |a|
    ensures forall ch :: 0 <= ch < |a| ==> r[ch] == a[ch] + b[ch]
  {
    seq(|a|, ch requires 0 <= ch < |a| => a[ch] + b[ch])
  }

  /** A buffer of `channels` planes that lasts `8 * m` seconds, the period of the coarsest level. */
  ghost predicate Whole(a: Planar, sampleRate: nat, m: nat) {
    Rectangular(a) && SampleCount(a) == Stride(m, 8 * sampleRate)
  }

  // ----- periods in points, tiles and samples -----

  /** Points of a level in 8 s. */
  function PeriodPoints(level: nat): (p: nat)
    ensures p > 0
  {
    if level == 0 then 1 else 2 * PeriodPoints(level - 1)
  }

  lemma {:induction false} PeriodsAtRate(m: nat, x: real, level: nat)
    ensures AtRate(8.0 * m as real + x, level) == Stride(m, PeriodPoints(level)) as real + AtRate(x, level)
  {
    if level == 0 {
      StrideByOne(m);
    } else {
      PeriodsAtRate(m, x, level - 1);
      StrideDoubled(m, PeriodPoints(level - 1));
      StridePlus(m, m, PeriodPoints(level - 1));
      assert 2 * m == m + m;
    }
  }

  lemma PeriodsShiftPoints(m: nat, x: real, level: nat)
    requires x >= 0.0
    ensures PointIndex(Of(8.0 * m as real + x), level) == Stride(m, PeriodPoints(level)) + PointIndex(Of(x), level)
  {
    PeriodsAtRate(m, x, level);
  }

  lemma WholeDuration(a: Planar, sampleRate: nat, m: nat)
    requires sampleRate > 0 && Whole(a, sampleRate, m)
    ensures Duration(a, sampleRate) == Of(8.0 * m as real)
  {
    StrideIsProduct(m, 8 * sampleRate);
    WholeQuotient(m as real, sampleRate as real, SampleCount(a) as real);
  }

  lemma WholeQuotient(m: real, r: real, n: real)
    requires r > 0.0 && n == m * (8.0 * r)
    ensures n / r == 8.0 * m
  {
    assert n == (8.0 * m) * r;
  }

  lemma PeriodBlockPoints(a: Planar, sampleRate: nat, m: nat, level: nat)
    requires sampleRate > 0 && Whole(a, sampleRate, m)
    ensures BlockPoints(a, sampleRate, level) == Stride(m, PeriodPoints(level))
  {
    WholeDuration(a, sampleRate, m);
    PeriodsShiftPoints(m, 0.0, level);
    AtRateZero(level);
  }

  lemma GluedDuration(a: Planar, b: Planar, sampleRate: nat, m: nat)
    requires sampleRate > 0 && |a| == |b| > 0 && Whole(a, sampleRate, m)
    ensures Duration(Glue(a, b), sampleRate) == Of(8.0 * m as real + SampleCount(b) as real / sampleRate as real)
  {
    WholeDuration(a, sampleRate, m);
    SumOfQuotients(SampleCount(a) as real, SampleCount(b) as real, sampleRate as real);
  }

  lemma SumOfQuotients(x: real, y: real, r: real)
    requires r > 0.0
    ensures (x + y) / r == x / r + y / r
  {
  }

  lemma GluedPoints(a: Planar, b: Planar, sampleRate: nat, m: nat, level: nat)
    requires sampleRate > 0 && |a| == |b| > 0 && Whole(a, sampleRate, m)
    ensures BlockPoints(Glue(a, b), sampleRate, level) == BlockPoints(a, sampleRate, level)
      + BlockPoints(b, sampleRate, level)
  {
    GluedDuration(a, b, sampleRate, m);
    PeriodBlockPoints(a, sampleRate, m, level);
    var x := SampleCount(b) as real / sampleRate as real;
    PeriodsShiftPoints(m, x, level);
  }

  /** A period further on, the tiles start a period of samples further on. */
  lemma TileBoundShifted(q: nat, m: nat, sampleRate: nat, channels: nat)
    requires sampleRate > 0 && channels > 0
    ensures TileBound(Stride(m, 8192) + q, Chunk(sampleRate), channels)
         == Stride(m, 8 * sampleRate) + TileBound(q, Chunk(sampleRate), channels)
  {
    var step := Scale(channels, Chunk(sampleRate));
    var shift := Stride(m, 8 * sampleRate);
    ScalePlus(Stride(m, 8192), q, step);
    PeriodOfTiles(m, sampleRate, channels);
    QuotientOfShift(shift, (Scale(q, step) + 0.5).Floor, channels);
    FloorPlusNat(Scale(q, step) + 0.5, Stride(shift, channels));
  }

  lemma FloorPlusNat(x: real, n: nat)
    ensures (n as real + x).Floor == n + x.Floor
  {
  }

  lemma PeriodOfTiles(m: nat, sampleRate: nat, channels: nat)
    requires sampleRate > 0
    ensures Scale(Stride(m, 8192), Scale(channels, Chunk(sampleRate)))
      == Stride(Stride(m, 8 * sampleRate), channels) as real
  {
    PeriodInSamples(m, sampleRate, 8192);
    TilesOfChannels(Stride(m, 8192), channels, Chunk(sampleRate), Stride(m, 8 * sampleRate));
  }

  lemma PeriodInSamples(m: nat, sampleRate: nat, tiles: nat)
    requires sampleRate > 0 && tiles == 8192
    ensures Scale(Stride(m, tiles), Chunk(sampleRate)) == Stride(m, 8 * sampleRate) as real
  {
    var chunk := Chunk(sampleRate);
    ScaleOfStride(m, tiles, chunk);
    ScaleIsProduct(tiles, chunk);
    assert Scale(tiles, chunk) == (8 * sampleRate) as real;
    ScaleOfNat(m, 8 * sampleRate);
  }

  lemma TilesOfChannels(tiles: nat, channels: nat, chunk: real, samples: nat)
    requires Scale(tiles, chunk) == samples as real
    ensures Scale(tiles, Scale(channels, chunk)) == Stride(samples, channels) as real
  {
    ScaleCommutes(tiles, channels, chunk);
    ScaleOfNat(channels, samples);
    StrideCommutes(channels, samples);
  }

  // ----- one channel -----

  /** Tile pairs of a later run of samples, seen from the start of the signal. */
  lemma ShiftedWindow(x: seq<real>, y: seq<real>, from: nat, to: nat)
    ensures WindowPeak(x + y, |x| + from, |x| + to) == WindowPeak(y, from, to)
  {
    var end := if to < |y| then to else |y|;
    PeakOfShifted(y, x + y, from, end, |x|);
    assert |x| + end == end + |x| && |x| + from == from + |x|;
  }

  lemma EarlierWindow(x: seq<real>, y: seq<real>, from: nat, to: nat)
    requires to <= |x|
    ensures WindowPeak(x + y, from, to) == WindowPeak(x, from, to)
  {
    PeakOfShifted(x, x + y, from, to, 0);
  }

  lemma {:induction false} HalveConcat(x: Channel, y: Channel)
    requires |x| % 2 == 0
    ensures Halve(x + y) == Halve(x) + Halve(y)
  {
    if |x| == 0 {
      assert x + y == y;
    } else {
      assert (x + y)[2..] == x[2..] + y;
      HalveConcat(x[2..], y);
    }
  }

  lemma {:induction false} CoarsenedConcat(x: Channel, y: Channel, level: nat, m: nat)
    requires level <= TOP && |x| == Stride(m, 8192)
    ensures Coarsened(x + y, level) == Coarsened(x, level) + Coarsened(y, level)
    ensures |Coarsened(x, level)| == Stride(m, PeriodPoints(level))
    decreases TOP - level
  {
    if level == TOP {
      PeriodPointsAtTop();
    } else {
      CoarsenedConcat(x, y, level + 1, m);
      HalveConcatOfPeriods(Coarsened(x, level + 1), Coarsened(y, level + 1), m, level);
    }
  }

  lemma HalveConcatOfPeriods(x: Channel, y: Channel, m: nat, level: nat)
    requires level < TOP && |x| == Stride(m, PeriodPoints(level + 1))
    ensures Halve(x + y) == Halve(x) + Halve(y) && |Halve(x)| == Stride(m, PeriodPoints(level))
  {
    StrideDoubled(m, PeriodPoints(level));
    StridePlus(m, m, PeriodPoints(level));
    assert 2 * m == m + m;
    HalveConcat(x, y);
  }

  lemma PeriodPointsAtTop()
    ensures PeriodPoints(TOP) == 8192
  {
    assert PeriodPoints(4) == 16;
    assert PeriodPoints(8) == 256;
    assert PeriodPoints(12) == 4096;
  }

  /** The tile bounds of a glued signal: those of the first part, then those of the second moved on. */
  lemma GluedBounds(a: Planar, b: Planar, sampleRate: nat, m: nat, q: nat)
    requires sampleRate > 0 && |a| == |b| > 0 && Whole(a, sampleRate, m)
    ensures |WriteBounds(Glue(a, b), sampleRate)|
      == BlockPoints(a, sampleRate, TOP) + BlockPoints(b, sampleRate, TOP) + 1
    ensures q <= BlockPoints(a, sampleRate, TOP) ==>
      WriteBounds(Glue(a, b), sampleRate)[q] == WriteBounds(a, sampleRate)[q] <= SampleCount(a)
    ensures q <= BlockPoints(b, sampleRate, TOP) ==>
      WriteBounds(Glue(a, b), sampleRate)[BlockPoints(a, sampleRate, TOP) + q] == SampleCount(a)
          + WriteBounds(b, sampleRate)[q]
  {
    GluedPoints(a, b, sampleRate, m, TOP);
    PeriodBlockPoints(a, sampleRate, m, TOP);
    PeriodPointsAtTop();
    TileBoundShifted(q, m, sampleRate, |a|);
    if q <= BlockPoints(a, sampleRate, TOP) { BlockSamplesWithin(a, sampleRate, q); }
  }

  lemma EarlyTile(a: Planar, b: Planar, sampleRate: nat, m: nat, ch: nat, q: nat)
    requires sampleRate > 0 && |a| == |b| && ch < |a| && Whole(a, sampleRate, m)
    requires q < BlockPoints(a, sampleRate, TOP) <= BlockPoints(Glue(a, b), sampleRate, TOP)
    ensures TilePeaks(Glue(a, b)[ch], WriteBounds(Glue(a, b), sampleRate))[q]
      == TilePeaks(a[ch], WriteBounds(a, sampleRate))[q]
  {
    TilePeakAt(Glue(a, b)[ch], WriteBounds(Glue(a, b), sampleRate), q);
    GluedBounds(a, b, sampleRate, m, q);
    GluedBounds(a, b, sampleRate, m, q + 1);
    TilePeakAt(a[ch], WriteBounds(a, sampleRate), q);
    EarlierWindow(a[ch], b[ch], WriteBounds(a, sampleRate)[q], WriteBounds(a, sampleRate)[q + 1]);
  }

  /** Tiles over windows with the same peak. */
  lemma ShiftedTile(whole: seq<real>, g: seq<nat>, at: nat, y: seq<real>, b: seq<nat>, q: nat)
    requires q + 1 < |b| && at + 1 < |g|
    requires WindowPeak(whole, g[at], g[at + 1]) == WindowPeak(y, b[q], b[q + 1])
    ensures TilePeaks(whole, g)[at] == TilePeaks(y, b)[q]
  {
    TilePeakAt(whole, g, at);
    TilePeakAt(y, b, q);
  }

  lemma LateTile(a: Planar, b: Planar, sampleRate: nat, m: nat, ch: nat, q: nat, at: nat)
    requires sampleRate > 0 && |a| == |b| && ch < |a| && Whole(a, sampleRate, m)
    requires q < BlockPoints(b, sampleRate, TOP) && at == BlockPoints(a, sampleRate, TOP) + q
    requires at < BlockPoints(Glue(a, b), sampleRate, TOP)
    ensures TilePeaks(Glue(a, b)[ch], WriteBounds(Glue(a, b), sampleRate))[at]
      == TilePeaks(b[ch], WriteBounds(b, sampleRate))[q]
  {
    GluedBounds(a, b, sampleRate, m, q);
    GluedBounds(a, b, sampleRate, m, q + 1);
    assert at + 1 == BlockPoints(a, sampleRate, TOP) + (q + 1);
    ShiftedWindow(a[ch], b[ch], WriteBounds(b, sampleRate)[q], WriteBounds(b, sampleRate)[q + 1]);
    ShiftedTile(Glue(a, b)[ch], WriteBounds(Glue(a, b), sampleRate), at, b[ch], WriteBounds(b, sampleRate), q);
  }

  lemma GluedLevel(a: Planar, b: Planar, sampleRate: nat, m: nat, ch: nat, level: nat)
    requires sampleRate > 0 && |a| == |b| && ch < |a| && Whole(a, sampleRate, m) && level <= TOP
    ensures LevelOf(Glue(a, b), sampleRate, ch, level) == LevelOf(a, sampleRate, ch, level)
      + LevelOf(b, sampleRate, ch, level)
  {
    var x, y := TilePeaks(a[ch], WriteBounds(a, sampleRate)), TilePeaks(b[ch], WriteBounds(b, sampleRate));
    var z := TilePeaks(Glue(a, b)[ch], WriteBounds(Glue(a, b), sampleRate));
    GluedPoints(a, b, sampleRate, m, TOP);
    PeriodBlockPoints(a, sampleRate, m, TOP);
    PeriodPointsAtTop();
    forall q | 0 <= q < |z| ensures z[q] == (x + y)[q] {
      if q < |x| {
        EarlyTile(a, b, sampleRate, m, ch, q);
      } else {
        LateTile(a, b, sampleRate, m, ch, q - |x|, q);
      }
    }
    assert z == x + y;
    CoarsenedConcat(x, y, level, m);
  }

  // ----- all channels -----

  /** On every level the block of a glued signal is the blocks of its parts, one after the other. */
  lemma GluedLevels(a: Planar, b: Planar, sampleRate: nat, m: nat, level: nat, ch: nat)
    requires sampleRate > 0 && |a| == |b| > 0 && Whole(a, sampleRate, m) && level <= TOP && ch < |a|
    ensures LevelsOf(Glue(a, b), sampleRate, level)[ch] == LevelsOf(a, sampleRate, level)[ch]
      + LevelsOf(b, sampleRate, level)[ch]
  {
    FirstLevelsAt(a, sampleRate, level, |a|, ch);
    FirstLevelsAt(b, sampleRate, level, |b|, ch);
    FirstLevelsAt(Glue(a, b), sampleRate, level, |a|, ch);
    GluedLevel(a, b, sampleRate, m, ch, level);
  }

  /** Channels of `n` and `k` points, glued. */
  ghost predicate Glued(x: seq<Channel>, y: seq<Channel>, z: seq<Channel>, n: nat, k: nat) {
    && |x| == |y| == |z|
    && (forall ch :: 0 <= ch < |x| ==> |x[ch]| == n) && (forall ch :: 0 <= ch < |y| ==> |y[ch]| == k)
    && forall ch :: 0 <= ch < |z| ==> |z[ch]| == n + k && z[ch] == x[ch] + y[ch]
  }

  /** Gluing every channel glues the interleaved blocks. */
  lemma InterleaveGlued(x: seq<Channel>, y: seq<Channel>, z: seq<Channel>, n: nat, k: nat)
    requires Glued(x, y, z, n, k)
    ensures Interleave(z, n + k) == Interleave(x, n) + Interleave(y, k)
  {
    InterleaveConcat(x, y, z, n, k);
  }

  lemma LevelsAreGlued(a: Planar, b: Planar, sampleRate: nat, m: nat, level: nat, n: nat, k: nat)
    requires sampleRate > 0 && |a| == |b| > 0 && Whole(a, sampleRate, m) && level <= TOP
    requires n == BlockPoints(a, sampleRate, level) && k == BlockPoints(b, sampleRate, level)
    ensures n + k == BlockPoints(Glue(a, b), sampleRate, level)
    ensures Glued(LevelsOf(a, sampleRate, level), LevelsOf(b, sampleRate, level),
                  LevelsOf(Glue(a, b), sampleRate, level), n, k)
  {
    GluedPoints(a, b, sampleRate, m, level);
    forall ch | 0 <= ch < |a|
      ensures LevelsOf(Glue(a, b), sampleRate, level)[ch] == LevelsOf(a, sampleRate, level)[ch]
        + LevelsOf(b, sampleRate, level)[ch]
    {
      GluedLevels(a, b, sampleRate, m, level, ch);
    }
  }

  lemma BlockIs(planar: Planar, sampleRate: nat, level: nat, levels: seq<Channel>, points: nat)
    requires sampleRate > 0 && |planar| > 0 && level <= TOP
    requires levels == LevelsOf(planar, sampleRate, level) && points == BlockPoints(planar, sampleRate, level)
    ensures (forall ch :: 0 <= ch < |levels| ==> |levels[ch]| == points)
      && Block(planar, sampleRate, level) == Interleave(levels, points)
  {
  }

  lemma GluedBlocks(a: Planar, b: Planar, ab: Planar, sampleRate: nat, level: nat, x: seq<Channel>, y: seq<Channel>,
                    z: seq<Channel>, n: nat, k: nat)
    requires sampleRate > 0 && |a| > 0 && |b| > 0 && |ab| > 0 && level <= TOP && Glued(x, y, z, n, k)
    requires x == LevelsOf(a, sampleRate, level) && n == BlockPoints(a, sampleRate, level)
    requires y == LevelsOf(b, sampleRate, level) && k == BlockPoints(b, sampleRate, level)
    requires z == LevelsOf(ab, sampleRate, level) && n + k == BlockPoints(ab, sampleRate, level)
    ensures Block(ab, sampleRate, level) == Block(a, sampleRate, level) + Block(b, sampleRate, level)
  {
    BlockIs(a, sampleRate, level, x, n);
    BlockIs(b, sampleRate, level, y, k);
    BlockIs(ab, sampleRate, level, z, n + k);
    InterleaveGlued(x, y, z, n, k);
  }

  lemma GluedBlock(a: Planar, b: Planar, sampleRate: nat, m: nat, level: nat)
    requires sampleRate > 0 && |a| == |b| > 0 && Whole(a, sampleRate, m) && level <= TOP
    ensures Block(Glue(a, b), sampleRate, level) == Block(a, sampleRate, level) + Block(b, sampleRate, level)
  {
    var n, k := BlockPoints(a, sampleRate, level), BlockPoints(b, sampleRate, level);
    LevelsAreGlued(a, b, sampleRate, m, level, n, k);
    GluedBlocks(a, b, Glue(a, b), sampleRate, level, LevelsOf(a, sampleRate, level), LevelsOf(b, sampleRate, level),
        LevelsOf(Glue(a, b), sampleRate, level), n, k);
  }

  // ----- whole runs of writes -----

  /** Where the write after `a` starts. */
  function After(start: real, a: Planar, sampleRate: nat): real
    requires sampleRate > 0
  {
    start + Duration(a, sampleRate).value
  }

  /** Two adjacent writes into a store that already has its start: every level gets both blocks. */
  lemma SecondWriteContinues(w: Wave, a: Planar, b: Planar, sampleRate: nat, m: nat, start: real, level: nat)
    requires w.Full() && sampleRate > 0 && |a| == |b| == w.channels > 0 && Whole(a, sampleRate, m) && level <= TOP
    requires w.virtualStart == Of(start)
    ensures WrittenLevel(w.(levels := w.levels[level := WrittenLevel(w, a, sampleRate, Of(0.0), level)]), b, sampleRate,
                         Duration(a, sampleRate), level)
         == WrittenLevel(w, Glue(a, b), sampleRate, Of(0.0), level)
  {
    AtRateZero(level);
    GluedBlock(a, b, sampleRate, m, level);
    OverlayAdjacent(w.levels[level], 0, TimeToSamples(Duration(a, sampleRate), level, w.channels),
        Block(a, sampleRate, level), Block(b, sampleRate, level), Block(Glue(a, b), sampleRate, level));
  }

  lemma DurationSign(a: Planar, sampleRate: nat)
    requires sampleRate > 0
    ensures Duration(a, sampleRate).value >= 0.0
    ensures Duration(a, sampleRate).value == 0.0 <==> SampleCount(a) == 0
  {
    var n, r := SampleCount(a) as real, sampleRate as real;
    assert (n / r) * r == n;
  }

  lemma LevelContinues(v: Wave, w1: Wave, a: Planar, b: Planar, sampleRate: nat, m: nat, start: real, k: nat,
                       second: Sample, whole: Sample)
    requires v.Full() && w1.Full() && sampleRate > 0 && |a| == |b| == v.channels == w1.channels > 0
    requires Whole(a, sampleRate, m) && k <= TOP && v.virtualStart == Of(start)
    requires w1.levels[k] == WrittenLevel(v, a, sampleRate, Of(0.0), k)
    requires second == WrittenLevel(w1, b, sampleRate, Duration(a, sampleRate), k)
    requires whole == WrittenLevel(v, Glue(a, b), sampleRate, Of(0.0), k)
    ensures second == whole
  {
    SecondWriteContinues(v, a, b, sampleRate, m, start, k);
  }

  lemma LevelsContinue(v: Wave, w1: Wave, w2: Wave, batch: Wave, a: Planar, b: Planar, sampleRate: nat, m: nat,
                       start: real,
                       offset: real)
    requires v.Full() && w1.Full() && w2.Full() && batch.Full() && sampleRate > 0
    requires |a| == |b| == v.channels == w1.channels > 0
    requires Whole(a, sampleRate, m) && v.virtualStart == Of(start) && Of(offset) == Duration(a, sampleRate)
    requires forall k :: 0 <= k <= TOP ==> w1.levels[k] == WrittenLevel(v, a, sampleRate, Of(0.0), k)
    requires forall k :: 0 <= k <= TOP ==> w2.levels[k] == WrittenLevel(w1, b, sampleRate, Of(offset), k)
    requires forall k :: 0 <= k <= TOP ==> batch.levels[k] == WrittenLevel(v, Glue(a, b), sampleRate, Of(0.0), k)
    ensures w2.levels == batch.levels
  {
    forall k | 0 <= k <= TOP ensures w2.levels[k] == batch.levels[k] {
      LevelContinues(v, w1, a, b, sampleRate, m, start, k, w2.levels[k], batch.levels[k]);
    }
  }

  /** `r` is `w`, which holds nothing yet, after a write of `a` at `start`. */
  ghost predicate IsFirstWrite(r: Wave, w: Wave, a: Planar, sampleRate: nat, start: real)
    requires w.Full() && r.Full() && sampleRate > 0 && |a| == w.channels > 0
  {
    && r.virtualStart == Of(start) && r.channels == w.channels && r.length == Of(After(start, a, sampleRate))
    && forall k :: 0 <= k <= TOP ==>
      r.levels[k] == WrittenLevel(w.(virtualStart := Of(start)), a, sampleRate, Of(0.0), k)
  }

  lemma FirstWrite(w: Wave, a: Planar, sampleRate: nat, start: real)
    requires w.Full() && w.length == Null && sampleRate > 0 && |a| == w.channels > 0
    ensures IsFirstWrite(Written(w, a, sampleRate, Of(start)), w, a, sampleRate, start)
  {
  }

  /** `r` is `w` after a write of `b` at `offset` behind its start, which stays. */
  ghost predicate IsLaterWrite(r: Wave, w: Wave, b: Planar, sampleRate: nat, start: real, offset: real)
    requires w.Full() && r.Full() && sampleRate > 0 && |b| == w.channels > 0
  {
    && r.virtualStart == Of(start) && r.channels == w.channels
    && r.length == w.length.MaxWith(Of(After(start + offset, b, sampleRate)))
    && forall k :: 0 <= k <= TOP ==> r.levels[k] == WrittenLevel(w, b, sampleRate, Of(offset), k)
  }

  /** A later write leaves the start where it is, unless the stored length is zero and it starts elsewhere. */
  lemma LaterWrite(w: Wave, b: Planar, sampleRate: nat, start: real, offset: real)
    requires w.Full() && sampleRate > 0 && |b| == w.channels > 0 && offset >= 0.0
    requires w.virtualStart == Of(start) && w.length.Of?
    requires w.length.value != 0.0 || offset == 0.0
    ensures IsLaterWrite(Written(w, b, sampleRate, Of(start + offset)), w, b, sampleRate, start, offset)
  {
    LaterStartStays(w, start, offset);
    assert Of(start + offset).Minus(Of(start)) == Of(offset);
    assert Of(start + offset).Plus(Duration(b, sampleRate)) == Of(After(start + offset, b, sampleRate));
  }

  lemma LaterStartStays(w: Wave, start: real, offset: real)
    requires w.virtualStart == Of(start) && w.length.Of? && offset >= 0.0 && (w.length.value != 0.0 || offset == 0.0)
    ensures StartValidated(w, Of(start + offset)) == w
  {
  }

  /** With a stored length of zero the write begins a new waveform at its own start. */
  lemma RestartingWrite(w: Wave, b: Planar, sampleRate: nat, start: real)
    requires w.Full() && sampleRate > 0 && |b| == w.channels > 0 && w.length == Of(0.0)
    requires w.virtualStart == Of(start) && start < 0.0
    ensures Written(w, b, sampleRate, Of(0.0)).virtualStart == Of(0.0)
  {
  }

  lemma WritesJoin(w: Wave, w1: Wave, w2: Wave, batch: Wave, a: Planar, b: Planar, sampleRate: nat, m: nat, start: real,
                   offset: real)
    requires w.Full() && w1.Full() && w2.Full() && batch.Full() && sampleRate > 0
    requires |a| == |b| == w.channels == w1.channels > 0
    requires Whole(a, sampleRate, m) && Of(offset) == Duration(a, sampleRate)
    requires IsFirstWrite(w1, w, a, sampleRate, start) && IsLaterWrite(w2, w1, b, sampleRate, start, offset)
    requires IsFirstWrite(batch, w, Glue(a, b), sampleRate, start)
    ensures w2 == batch
  {
    LevelsContinue(w.(virtualStart := Of(start)), w1, w2, batch, a, b, sampleRate, m, start, offset);
    GluedDuration(a, b, sampleRate, m);
    WholeDuration(a, sampleRate, m);
    DurationSign(b, sampleRate);
  }

  /**
   * Writing `a` and then `b` right behind it into a store without a length leaves the
   * state of writing them as one signal, for an `a` that lasts whole 8 s periods,
   * exactly when the end of `a` is not time zero (or `a` is empty): a stored length of
   * zero counts as "nothing written", and the second write then moves the start.
   */
  lemma AppendIsOneWrite(w: Wave, a: Planar, b: Planar, sampleRate: nat, m: nat, start: real)
    requires w.Full() && w.length == Null && sampleRate > 0 && |a| == |b| == w.channels > 0
    requires Whole(a, sampleRate, m)
    ensures Written(Written(w, a, sampleRate, Of(start)), b, sampleRate, Of(After(start, a, sampleRate)))
            == Written(w, Glue(a, b), sampleRate, Of(start))
       <==> (After(start, a, sampleRate) != 0.0 || SampleCount(a) == 0)
  {
    FirstWrite(w, a, sampleRate, start);
    FirstWrite(w, Glue(a, b), sampleRate, start);
    DurationSign(a, sampleRate);
    SecondWrite(w, Written(w, a, sampleRate, Of(start)), Written(w, Glue(a, b), sampleRate, Of(start)),
                a, b, sampleRate, m, start,
                Duration(a, sampleRate).value);
  }

  lemma SecondWrite(w: Wave, w1: Wave, batch: Wave, a: Planar, b: Planar, sampleRate: nat, m: nat, start: real,
                    offset: real)
    requires w.Full() && w1.Full() && batch.Full() && sampleRate > 0 && |a| == |b| == w.channels == w1.channels > 0
    requires Whole(a, sampleRate, m) && Of(offset) == Duration(a, sampleRate) && offset >= 0.0
    requires IsFirstWrite(w1, w, a, sampleRate, start) && IsFirstWrite(batch, w, Glue(a, b), sampleRate, start)
    ensures Written(w1, b, sampleRate, Of(start + offset)) == batch <==> start + offset != 0.0 || offset == 0.0
  {
    assert w1.length == Of(start + offset);
    if start + offset != 0.0 || offset == 0.0 {
      LaterWrite(w1, b, sampleRate, start, offset);
      WritesJoin(w, w1, Written(w1, b, sampleRate, Of(start + offset)), batch, a, b, sampleRate, m, start, offset);
    } else {
      RestartingWrite(w1, b, sampleRate, start);
    }
  }

  ghost predicate IsWhole(a: Planar, sampleRate: nat) {
    exists m: nat :: Whole(a, sampleRate, m)
  }

  /** Blocks of `channels` planes, each but the last lasting whole 8 s periods. */
  ghost predicate Blocks(blocks: seq<Planar>, channels: nat, sampleRate: nat) {
    && blocks != []
    && (forall i :: 0 <= i < |blocks| ==> |blocks[i]| == channels)
    && forall i :: 0 <= i < |blocks| - 1 ==> IsWhole(blocks[i], sampleRate)
  }

  /** The blocks as one signal. */
  ghost function GlueAll(blocks: seq<Planar>, channels: nat): (r: Planar)
    requires blocks != [] && forall i :: 0 <= i < |blocks| ==> |blocks[i]| == channels
    ensures |r| == channels
  {
    if |blocks| == 1 then blocks[0]
    else Glue(GlueAll(blocks[..|blocks| - 1], channels), blocks[|blocks| - 1])
  }

  /** The blocks written one after the other, each where the one before it ends. */
  ghost function WriteAll(w: Wave, blocks: seq<Planar>, sampleRate: nat, start: real): (r: Wave)
    requires w.Full() && sampleRate > 0 && w.channels > 0
    requires blocks != [] && forall i :: 0 <= i < |blocks| ==> |blocks[i]| == w.channels
    ensures r.Full() && r.channels == w.channels
  {
    var last := |blocks| - 1;
    if last == 0 then
      WrittenKeepsChannels(w, blocks[0], sampleRate, Of(start));
      Written(w, blocks[0], sampleRate, Of(start))
    else
      var before := WriteAll(w, blocks[..last], sampleRate, start);
      var at := Of(After(start, GlueAll(blocks[..last], w.channels), sampleRate));
      WrittenKeepsChannels(before, blocks[last], sampleRate, at);
      Written(before, blocks[last], sampleRate, at)
  }

  lemma WrittenKeepsChannels(w: Wave, planar: Planar, sampleRate: nat, start: Rational)
    requires w.Full() && sampleRate > 0 && |planar| == w.channels
    ensures Written(w, planar, sampleRate, start).channels == w.channels
  {
  }

  /** No block but the last ends at time zero, unless nothing has been written by then. */
  ghost predicate NoEndAtZero(blocks: seq<Planar>, channels: nat, sampleRate: nat, start: real)
    requires sampleRate > 0 && forall i :: 0 <= i < |blocks| ==> |blocks[i]| == channels
  {
    forall n :: 0 < n < |blocks| ==> GoodPrefix(blocks[..n], channels, sampleRate, start)
  }

  ghost predicate GoodPrefix(blocks: seq<Planar>, channels: nat, sampleRate: nat, start: real)
    requires sampleRate > 0
    requires blocks != [] && forall i :: 0 <= i < |blocks| ==> |blocks[i]| == channels
  {
    var soFar := GlueAll(blocks, channels);
    After(start, soFar, sampleRate) != 0.0 || SampleCount(soFar) == 0
  }

  lemma NoEndAtZeroStep(blocks: seq<Planar>, channels: nat, sampleRate: nat, start: real)
    requires sampleRate > 0 && |blocks| > 1 && forall i :: 0 <= i < |blocks| ==> |blocks[i]| == channels
    ensures NoEndAtZero(blocks, channels, sampleRate, start) <==>
      NoEndAtZero(blocks[..|blocks| - 1], channels, sampleRate, start)
          && GoodPrefix(blocks[..|blocks| - 1], channels, sampleRate, start)
  {
    var front := blocks[..|blocks| - 1];
    assert forall n :: 0 < n < |front| ==> front[..n] == blocks[..n];
    assert front == blocks[..|front|];
  }

  /** Glued whole blocks are a whole block. */
  lemma {:induction false} GlueAllWhole(blocks: seq<Planar>, channels: nat, sampleRate: nat) returns (m: nat)
    requires blocks != [] && channels > 0 && sampleRate > 0
    requires forall i :: 0 <= i < |blocks| ==> |blocks[i]| == channels
    requires forall i :: 0 <= i < |blocks| ==> IsWhole(blocks[i], sampleRate)
    ensures Whole(GlueAll(blocks, channels), sampleRate, m)
  {
    var last := |blocks| - 1;
    var k: nat :| Whole(blocks[last], sampleRate, k);
    if last == 0 {
      m := k;
    } else {
      var j := GlueAllWhole(blocks[..last], channels, sampleRate);
      m := j + k;
      StridePlus(j, k, 8 * sampleRate);
    }
  }

  /** Once a write has moved the start to time zero, it stays there. */
  lemma {:induction false} MovedStartStays(w: Wave, blocks: seq<Planar>, sampleRate: nat, start: real)
    requires w.Full() && w.length == Null && sampleRate > 0 && w.channels > 0
    requires Blocks(blocks, w.channels, sampleRate)
    requires !NoEndAtZero(blocks, w.channels, sampleRate, start)
    ensures var r := WriteAll(w, blocks, sampleRate, start);
      && start < 0.0 && r.virtualStart == Of(0.0)
      && r.length == Of(After(start, GlueAll(blocks, w.channels), sampleRate)) && r.length.value >= 0.0
    decreases |blocks|, 0
  {
    var front := blocks[..|blocks| - 1];
    var b := blocks[|blocks| - 1];
    NoEndAtZeroStep(blocks, w.channels, sampleRate, start);
    var m := GlueAllWhole(front, w.channels, sampleRate);
    var a := GlueAll(front, w.channels);
    DurationSign(a, sampleRate);
    DurationSign(b, sampleRate);
    GluedDuration(a, b, sampleRate, m);
    WholeDuration(a, sampleRate, m);
    if NoEndAtZero(front, w.channels, sampleRate, start) {
      RunIsOneWrite(w, front, sampleRate, start);
      FirstWrite(w, a, sampleRate, start);
    } else {
      MovedStartStays(w, front, sampleRate, start);
    }
  }

  /**
   * Incremental equals batch: writing a signal block by block, every block but the
   * last a whole number of 8 s periods, leaves the state of one write of the whole
   * signal, all 14 levels included, exactly when no block ends at time zero.
   */
  lemma {:induction false} RunIsOneWrite(w: Wave, blocks: seq<Planar>, sampleRate: nat, start: real)
    requires w.Full() && w.length == Null && sampleRate > 0 && w.channels > 0
    requires Blocks(blocks, w.channels, sampleRate)
    ensures WriteAll(w, blocks, sampleRate, start) == Written(w, GlueAll(blocks, w.channels), sampleRate, Of(start))
       <==> NoEndAtZero(blocks, w.channels, sampleRate, start)
    decreases |blocks|, 1
  {
    if |blocks| > 1 {
      var front := blocks[..|blocks| - 1];
      var m := GlueAllWhole(front, w.channels, sampleRate);
      NoEndAtZeroStep(blocks, w.channels, sampleRate, start);
      if NoEndAtZero(front, w.channels, sampleRate, start) {
        RunIsOneWrite(w, front, sampleRate, start);
        AppendIsOneWrite(w, GlueAll(front, w.channels), blocks[|blocks| - 1], sampleRate, m, start);
      } else {
        MovedStartStays(w, blocks, sampleRate, start);
        FirstWrite(w, GlueAll(blocks, w.channels), sampleRate, start);
      }
    }
  }

  /** A failing input: one channel at rate 1, 8 s of silence written at -8 s, and any block behind it. */
  lemma BlockEndingAtZeroMovesTheStart(w: Wave, b: Planar, silence: seq<real>)
    requires w.Full() && w.length == Null && w.channels == |b| == 1 && |silence| == 8
    ensures Written(Written(w, [silence], 1, Of(-8.0)), b, 1, Of(0.0)) != Written(w, Glue([silence], b), 1, Of(-8.0))
  {
    var a := [silence];
    assert SampleCount(a) == 8 && Stride(1, 8) == 8;
    assert Whole(a, 1, 1);
    assert After(-8.0, a, 1) == 0.0;
    AppendIsOneWrite(w, a, b, 1, 1, -8.0);
  }
}
