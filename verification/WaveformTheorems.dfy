/**
 * What a write leaves on every level, and when a query sees exactly the raw samples.
 */
module WaveformTheorems {
  import opened Rationals
  import opened Peaks
  import opened Strides
  import opened WaveformTiles
  import opened WaveformSpec

  /** Planar samples as an audio buffer holds them: every plane equally long. */
  ghost predicate Rectangular(planar: Planar) {
    forall ch :: 0 <= ch < |planar| ==> |planar[ch]| == SampleCount(planar)
  }

  /** Nothing has been written yet. */
  ghost predicate Blank(w: Wave) {
    && w.Full()
    && w.length.IsNull()
    && forall k :: 0 <= k <= TOP ==> w.levels[k] == []
  }

  // ----- tiles -----

  /** The tiles of a write start in strictly ascending order and end within the samples. */
  lemma WriteBoundsAscend(planar: Planar, sampleRate: nat)
    requires sampleRate >= 1024 && |planar| > 0
    ensures Ascending(WriteBounds(planar, sampleRate))
    ensures WriteBounds(planar, sampleRate)[0] == 0
    ensures WriteBounds(planar, sampleRate)[BlockPoints(planar, sampleRate, TOP)] <= SampleCount(planar)
  {
    var b := WriteBounds(planar, sampleRate);
    assert Chunk(sampleRate) >= 1.0;
    forall q, r | 0 <= q < r < |b| ensures b[q] < b[r] {
      TileBoundsSpread(q, r, Chunk(sampleRate), |planar|);
    }
    TileBoundZero(Chunk(sampleRate), |planar|);
    BlockSamplesWithin(planar, sampleRate, BlockPoints(planar, sampleRate, TOP));
  }

  lemma {:induction false} TileBoundsSpread(q: nat, r: nat, chunk: real, channels: nat)
    requires chunk >= 1.0 && channels > 0 && q < r
    ensures TileBound(q, chunk, channels) < TileBound(r, chunk, channels)
  {
    TileNotEmpty(r - 1, chunk, channels);
    if q < r - 1 {
      TileBoundsSpread(q, r - 1, chunk, channels);
    }
  }

  /**
   * The tiles of the finest level are all non-empty exactly when the sample rate is
   * at least the level's own 1024 points per second.
   */
  lemma TilesNonEmptyExactlyFrom1024(sampleRate: nat, channels: nat)
    requires sampleRate > 0 && channels > 0
    ensures (forall q: nat :: TileBound(q, Chunk(sampleRate), channels) < TileBound(q + 1, Chunk(sampleRate), channels))
       <==> sampleRate >= 1024
  {
    var chunk := Chunk(sampleRate);
    if sampleRate >= 1024 {
      forall q: nat ensures TileBound(q, chunk, channels) < TileBound(q + 1, chunk, channels) {
        TileNotEmpty(q, chunk, channels);
      }
    } else if forall q: nat :: TileBound(q, chunk, channels) < TileBound(q + 1, chunk, channels) {
      TileBoundAtLeast(1024, chunk, channels);
      ScaleIsProduct(1024, chunk);
      TileBoundWithin(1024, chunk, channels, sampleRate);
      assert false;
    }
  }

  lemma {:induction false} TileBoundAtLeast(n: nat, chunk: real, channels: nat)
    requires chunk > 0.0 && channels > 0
    requires forall q: nat :: TileBound(q, chunk, channels) < TileBound(q + 1, chunk, channels)
    ensures TileBound(n, chunk, channels) >= n
  {
    if n > 0 {
      TileBoundAtLeast(n - 1, chunk, channels);
      assert TileBound(n - 1, chunk, channels) < TileBound(n - 1 + 1, chunk, channels);
    }
  }

  // ----- what a write leaves on every level -----

  /** A point of a write is the exact minimum and maximum of the raw samples under it. */
  lemma BlockPointIsExact(planar: Planar, sampleRate: nat, level: nat, p: nat, ch: nat)
    requires sampleRate >= 1024 && ch < |planar| && Rectangular(planar)
    requires level <= TOP && p < BlockPoints(planar, sampleRate, level)
    ensures Stride(p, |planar|) + ch < |Block(planar, sampleRate, level)|
    ensures Stride(p, TilesPerPoint(level)) < Stride(p + 1, TilesPerPoint(level)) <= BlockPoints(planar, sampleRate,
        TOP)
    ensures var b := WriteBounds(planar, sampleRate);
      var from, to := b[Stride(p, TilesPerPoint(level))], b[Stride(p + 1, TilesPerPoint(level))];
      from < to <= |planar[ch]| && Block(planar, sampleRate, level)[Stride(p, |planar|) + ch]
          == PeakOf(planar[ch], from, to)
  {
    var b := WriteBounds(planar, sampleRate);
    WriteBoundsAscend(planar, sampleRate);
    BlockEntry(planar, sampleRate, level, p, ch);
    var tiles := TilePeaks(planar[ch], b);
    var from, to := Stride(p, TilesPerPoint(level)), Stride(p + 1, TilesPerPoint(level));
    CoarsenedIsPeak(planar[ch], b, tiles, level, p, from, to, Coarsened(tiles, level)[p]);
  }

  lemma BlockEntry(planar: Planar, sampleRate: nat, level: nat, p: nat, ch: nat)
    requires sampleRate > 0 && ch < |planar|
    requires level <= TOP && p < BlockPoints(planar, sampleRate, level)
    ensures Stride(p, |planar|) + ch < |Block(planar, sampleRate, level)|
    ensures p < |LevelOf(planar, sampleRate, ch, level)|
    ensures Block(planar, sampleRate, level)[Stride(p, |planar|) + ch] == LevelOf(planar, sampleRate, ch, level)[p]
  {
    LevelLength(planar, sampleRate, ch, level);
    FirstLevelsAt(planar, sampleRate, level, |planar|, ch);
    EntryOfLevels(LevelsOf(planar, sampleRate, level), BlockPoints(planar, sampleRate, level), p, ch,
        LevelOf(planar, sampleRate, ch, level));
  }

  lemma EntryOfLevels(levels: seq<Channel>, points: nat, p: nat, ch: nat, c: Channel)
    requires p < points && ch < |levels| && levels[ch] == c
    requires forall k :: 0 <= k < |levels| ==> |levels[k]| == points
    ensures Stride(p, |levels|) + ch < Stride(points, |levels|)
    ensures Interleave(levels, points)[Stride(p, |levels|) + ch] == c[p]
  {
    InterleaveAt(levels, points, p, ch);
  }

  /** A write into a blank store fills every level with its block, from point 0. */
  lemma BlankWrite(w: Wave, planar: Planar, sampleRate: nat, start: Rational, level: nat)
    requires Blank(w) && sampleRate > 0 && |planar| == w.channels > 0 && level <= TOP
    ensures Written(w, planar, sampleRate, start).virtualStart == start
    ensures Written(w, planar, sampleRate, start).levels[level] == Block(planar, sampleRate, level)
  {
    var v := StartValidated(w, start);
    var block := Block(planar, sampleRate, level);
    assert v.levels[level] == [];
    AtRateZero(level);
    assert TimeToSamples(start.Minus(start), level, w.channels) == 0;
    OverlayOnNothing(block);
  }

  lemma {:induction false} AtRateZero(level: nat)
    ensures AtRate(0.0, level) == 0.0
  {
    if level > 0 { AtRateZero(level - 1); }
  }

  lemma OverlayOnNothing(block: Sample)
    ensures Overlay([], 0, block) == block
  {
  }

  /**
   * Pyramid exactness: after one write into a blank store, point `p` of channel `ch`
   * on any level is the minimum and the maximum of exactly the raw samples between the
   * first tile under it and the first tile under point `p + 1`. The tiles are
   * non-empty, adjacent, start at sample 0 and end within the samples.
   */
  lemma PyramidIsExact(w: Wave, planar: Planar, sampleRate: nat, start: Rational, level: nat, p: nat, ch: nat)
    requires Blank(w) && |planar| == w.channels && Rectangular(planar) && sampleRate >= 1024
    requires level <= TOP && ch < |planar| && p < BlockPoints(planar, sampleRate, level)
    ensures var data := Written(w, planar, sampleRate, start).levels[level];
      var b := WriteBounds(planar, sampleRate);
      var i, j := Stride(p, TilesPerPoint(level)), Stride(p + 1, TilesPerPoint(level));
      && |data| == Stride(BlockPoints(planar, sampleRate, level), |planar|)
      && Ascending(b) && b[0] == 0 && i < j < |b| && b[j] <= SampleCount(planar)
      && Stride(p, |planar|) + ch < |data|
      && IsPeakOf(data[Stride(p, |planar|) + ch], planar[ch], b[i], b[j])
  {
    BlankWrite(w, planar, sampleRate, start, level);
    ExactPoint(planar, sampleRate, level, p, ch, Written(w, planar, sampleRate, start).levels[level],
               WriteBounds(planar, sampleRate), Stride(p, TilesPerPoint(level)), Stride(p + 1, TilesPerPoint(level)));
  }

  lemma ExactPoint(planar: Planar, sampleRate: nat, level: nat, p: nat, ch: nat, data: Sample, b: seq<nat>, i: nat,
                   j: nat)
    requires Rectangular(planar) && sampleRate >= 1024 && level <= TOP && ch < |planar|
    requires p < BlockPoints(planar, sampleRate, level) && data == Block(planar, sampleRate, level)
    requires b == WriteBounds(planar, sampleRate) && i == Stride(p, TilesPerPoint(level))
    requires j == Stride(p + 1, TilesPerPoint(level))
    ensures Ascending(b) && b[0] == 0 && i < j < |b| && b[j] <= SampleCount(planar) && Stride(p, |planar|) + ch < |data|
    ensures IsPeakOf(data[Stride(p, |planar|) + ch], planar[ch], b[i], b[j])
  {
    WriteBoundsAscend(planar, sampleRate);
    PointPeak(planar, sampleRate, level, p, ch, data, Stride(p, |planar|) + ch, b, i, j);
  }

  lemma PointPeak(planar: Planar, sampleRate: nat, level: nat, p: nat, ch: nat, data: Sample, at: nat, b: seq<nat>,
                  i: nat, j: nat)
    requires Rectangular(planar) && sampleRate >= 1024 && level <= TOP && ch < |planar|
    requires p < BlockPoints(planar, sampleRate, level) && data == Block(planar, sampleRate, level)
    requires b == WriteBounds(planar, sampleRate) && i == Stride(p, TilesPerPoint(level))
    requires j == Stride(p + 1, TilesPerPoint(level))
    requires at == Stride(p, |planar|) + ch
    ensures i < j < |b| && b[i] < b[j] <= |planar[ch]| && at < |data| && IsPeakOf(data[at], planar[ch], b[i], b[j])
  {
    BlockPointIsExact(planar, sampleRate, level, p, ch);
    PeakIsExact(data[at], planar[ch], b[i], b[j]);
  }

  lemma PeakIsExact(x: SamplePerChannel, plane: seq<real>, from: nat, to: nat)
    requires from < to <= |plane| && x == PeakOf(plane, from, to)
    ensures IsPeakOf(x, plane, from, to)
  {
    PeakOfIsExact(plane, from, to);
  }

  /** A write into any store changes the points it covers and no others. */
  lemma WriteIsLocal(w: Wave, planar: Planar, sampleRate: nat, start: Rational, level: nat, i: nat)
    requires w.Full() && sampleRate > 0 && |planar| == w.channels > 0 && level <= TOP
    requires !w.length.IsNull() && !start.Less(w.virtualStart)
    ensures var first := TimeToSamples(start.Minus(w.virtualStart), level, w.channels);
      var block := Block(planar, sampleRate, level);
      EntryOf(Written(w, planar, sampleRate, start).levels[level], i) ==
        if first <= i < first + |block| then block[i - first] else EntryOf(w.levels[level], i)
  {
    LateWriteLevel(w, planar, sampleRate, start, level);
    OverlayAt(w.levels[level], TimeToSamples(start.Minus(w.virtualStart), level, w.channels),
        Block(planar, sampleRate, level), i);
  }

  lemma LateWriteLevel(w: Wave, planar: Planar, sampleRate: nat, start: Rational, level: nat)
    requires w.Full() && sampleRate > 0 && |planar| == w.channels > 0 && level <= TOP
    requires !w.length.IsNull() && !start.Less(w.virtualStart)
    ensures Written(w, planar, sampleRate, start).levels[level] ==
      Overlay(w.levels[level], TimeToSamples(start.Minus(w.virtualStart), level, w.channels),
          Block(planar, sampleRate, level))
  {
  }
}
