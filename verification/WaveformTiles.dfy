/**
 * What the mipmap store of crates/oak-audio/src/waveform.rs has to hold, said
 * directly in terms of the samples: the tiles of the finest level, and for every
 * coarser level the joined tiles under each point.
 */
module WaveformTiles {
  import opened Rationals
  import opened Peaks
  import opened Strides

  /** Planar samples: one plane per channel. */
  type Planar = seq<seq<real>>

  /** Channel-interleaved points. */
  type Sample = seq<SamplePerChannel>

  /** The points of one channel. */
  type Channel = seq<SamplePerChannel>

  /** Levels are numbered from the coarsest (0, one point per 8 s) to the finest (13, 1024 points per second). */
  const TOP: nat := 13

  // ----- times and points -----

  /** `x` seconds, in points of a level. */
  function AtRate(x: real, level: nat): (r: real)
    ensures x >= 0.0 ==> r >= 0.0
  {
    if level == 0 then x / 8.0 else 2.0 * AtRate(x, level - 1)
  }

  /** Points per second of a level. */
  function Rate(level: nat): (r: real)
    ensures r > 0.0
  {
    if level == 0 then 0.125 else 2.0 * Rate(level - 1)
  }

  lemma {:induction false} AtRateIsProduct(x: real, level: nat)
    ensures AtRate(x, level) == x * Rate(level)
  {
    if level > 0 { AtRateIsProduct(x, level - 1); }
  }

  lemma TopRate(x: real)
    ensures Rate(TOP) == 1024.0
    ensures AtRate(x, TOP) == 1024.0 * x
  {
    assert Rate(3) == 1.0;
    assert Rate(6) == 8.0;
    assert Rate(9) == 64.0;
    assert Rate(12) == 512.0;
    AtRateIsProduct(x, TOP);
  }

  /** The point a time falls on; 0/0 and negative times fall on point 0. */
  function PointIndex(time: Rational, level: nat): nat {
    if time.Null? || AtRate(time.value, level).Floor <= 0 then 0 else AtRate(time.value, level).Floor
  }

  /** Indices are channel-interleaved, so a time is scaled by the channel count. */
  function TimeToSamples(time: Rational, level: nat, channels: nat): nat {
    Stride(PointIndex(time, level), channels)
  }

  /** Halving the rate halves the point index, rounded down. */
  lemma PointIndexHalves(time: Rational, level: nat)
    ensures PointIndex(time, level) == PointIndex(time, level + 1) / 2
  {
  }

  // ----- tiles of the finest level -----

  /** Samples under a point of the finest level. */
  function Chunk(sampleRate: nat): (c: real)
    requires sampleRate > 0
    ensures c > 0.0
  {
    sampleRate as real / 1024.0
  }

  /** First raw sample of tile `q`, with `chunk` samples to a tile: the interleaved position rounded half up. */
  function TileBound(q: nat, chunk: real, channels: nat): nat
    requires chunk > 0.0 && channels > 0
  {
    Quotient((Scale(q, Scale(channels, chunk)) + 0.5).Floor, channels)
  }

  /** The pair of the samples between two positions, as far as the plane reaches. */
  function WindowPeak(plane: seq<real>, from: nat, to: nat): SamplePerChannel {
    PeakOf(plane, from, if to < |plane| then to else |plane|)
  }

  function SampleCount(planar: Planar): nat {
    if planar == [] then 0 else |planar[0]|
  }

  function Duration(planar: Planar, sampleRate: nat): Rational
    requires sampleRate > 0
  {
    Of(SampleCount(planar) as real / sampleRate as real)
  }

  lemma ScaleAtLeast(channels: nat, chunk: real)
    requires chunk >= 1.0
    ensures Scale(channels, chunk) >= channels as real
  {
  }

  lemma TileBoundsAscend(q: nat, chunk: real, channels: nat)
    requires chunk > 0.0 && channels > 0
    ensures TileBound(q, chunk, channels) <= TileBound(q + 1, chunk, channels)
  {
    QuotientMonotone((Scale(q, Scale(channels, chunk)) + 0.5).Floor,
                     (Scale(q + 1, Scale(channels, chunk)) + 0.5).Floor, channels);
  }

  /** With at least one sample to a tile, no tile is empty. */
  lemma TileNotEmpty(q: nat, chunk: real, channels: nat)
    requires chunk >= 1.0 && channels > 0
    ensures TileBound(q, chunk, channels) < TileBound(q + 1, chunk, channels)
  {
    ScaleAtLeast(channels, chunk);
    QuotientMonotone((Scale(q, Scale(channels, chunk)) + 0.5).Floor + channels,
                     (Scale(q + 1, Scale(channels, chunk)) + 0.5).Floor, channels);
  }

  /** The first `q` tiles lie within `n` samples whenever `q` chunks do. */
  lemma TileBoundWithin(q: nat, chunk: real, channels: nat, n: nat)
    requires chunk > 0.0 && channels > 0
    requires Scale(q, chunk) <= n as real
    ensures TileBound(q, chunk, channels) <= n
  {
    TilePositionWithin(q, chunk, channels, n);
    QuotientMonotone((Scale(q, Scale(channels, chunk)) + 0.5).Floor, Stride(n, channels), channels);
    DivisionOfStride(n, 0, channels);
  }

  lemma TilePositionWithin(q: nat, chunk: real, channels: nat, n: nat)
    requires chunk > 0.0
    requires Scale(q, chunk) <= n as real
    ensures Scale(q, Scale(channels, chunk)) <= Stride(n, channels) as real
  {
    ScaleCommutes(q, channels, chunk);
    ScaleMonotone(channels, Scale(q, chunk), n as real);
    ScaleOfNat(channels, n);
    StrideCommutes(channels, n);
  }

  lemma TileBoundZero(chunk: real, channels: nat)
    requires chunk > 0.0 && channels > 0
    ensures TileBound(0, chunk, channels) == 0
  {
  }

  // ----- the pyramid of one channel -----

  /** The starts of `count` tiles, and the end of the last one. */
  function Bounds(count: nat, chunk: real, channels: nat): (b: seq<nat>)
    requires chunk > 0.0 && channels > 0
    ensures |b| == count + 1
    ensures forall q :: 0 <= q <= count ==> b[q] == TileBound(q, chunk, channels)
  {
    seq(count + 1, q requires 0 <= q => TileBound(q, chunk, channels))
  }

  ghost predicate Ascending(bounds: seq<nat>) {
    forall q, r :: 0 <= q < r < |bounds| ==> bounds[q] < bounds[r]
  }

  /** The pairs of the tiles of a plane. */
  function TilePeaks(plane: seq<real>, bounds: seq<nat>): (t: Channel)
    requires bounds != []
    ensures |t| == |bounds| - 1
  {
    if |bounds| == 1 then []
    else TilePeaks(plane, bounds[..|bounds| - 1]) + [WindowPeak(plane, bounds[|bounds| - 2], bounds[|bounds| - 1])]
  }

  lemma {:induction false} TilePeakAt(plane: seq<real>, bounds: seq<nat>, q: nat)
    requires q + 1 < |bounds|
    ensures TilePeaks(plane, bounds)[q] == WindowPeak(plane, bounds[q], bounds[q + 1])
  {
    if q + 2 < |bounds| {
      TilePeakAt(plane, bounds[..|bounds| - 1], q);
    }
  }

  /** Every two neighbouring pairs joined; an odd last one is dropped. */
  function Halve(c: Channel): (h: Channel)
    ensures |h| == |c| / 2
  {
    if |c| < 2 then [] else [Join(c[0], c[1])] + Halve(c[2..])
  }

  lemma {:induction false} HalveAt(c: Channel, p: nat)
    requires p < |c| / 2
    ensures Halve(c)[p] == Join(c[2 * p], c[2 * p + 1])
  {
    if p > 0 {
      HalveAt(c[2..], p - 1);
      assert c[2..][2 * (p - 1)] == c[2 * p];
      assert c[2..][2 * (p - 1) + 1] == c[2 * p + 1];
    }
  }

  /** The tiles as a level shows them. */
  function Coarsened(tiles: Channel, level: nat): Channel
    requires level <= TOP
    decreases TOP - level
  {
    if level == TOP then tiles else Halve(Coarsened(tiles, level + 1))
  }

  /** Finest tiles under one point of a level. */
  function TilesPerPoint(level: nat): (w: nat)
    requires level <= TOP
    ensures w > 0
    decreases TOP - level
  {
    if level == TOP then 1 else 2 * TilesPerPoint(level + 1)
  }

  /** The tiles under a point are those under two points of the next finer level. */
  lemma SpanHalves(p: nat, w: nat, from: nat)
    requires from == Stride(p, 2 * w)
    ensures from == Stride(2 * p, w) && from + w == Stride(2 * p + 1, w)
  {
    StrideDoubled(p, w);
  }

  /** Tiles `from..to` lie in the samples, and `peak` is theirs. */
  predicate IsSpanPeak(plane: seq<real>, bounds: seq<nat>, from: nat, to: nat, peak: SamplePerChannel) {
    from < to < |bounds| && bounds[from] < bounds[to] <= |plane| && peak == PeakOf(plane, bounds[from], bounds[to])
  }

  lemma TileIsSpanPeak(plane: seq<real>, bounds: seq<nat>, p: nat)
    requires Ascending(bounds) && p + 1 < |bounds| && bounds[|bounds| - 1] <= |plane|
    ensures IsSpanPeak(plane, bounds, p, p + 1, TilePeaks(plane, bounds)[p])
  {
    TilePeakAt(plane, bounds, p);
  }

  lemma HalvedPeak(finer: Channel, p: nat, plane: seq<real>, from: nat, mid: nat, to: nat)
    requires p < |finer| / 2 && from < mid < to <= |plane|
    requires finer[2 * p] == PeakOf(plane, from, mid) && finer[2 * p + 1] == PeakOf(plane, mid, to)
    ensures Halve(finer)[p] == PeakOf(plane, from, to)
  {
    HalveAt(finer, p);
    PeakOfAdjacent(plane, from, mid, to);
  }

  lemma HalvedSpanPeak(plane: seq<real>, bounds: seq<nat>, finer: Channel, p: nat, from: nat, mid: nat, to: nat,
                       left: SamplePerChannel, right: SamplePerChannel, both: SamplePerChannel)
    requires p < |Halve(finer)| && 2 * p + 1 < |finer|
    requires left == finer[2 * p] && right == finer[2 * p + 1] && both == Halve(finer)[p]
    requires IsSpanPeak(plane, bounds, from, mid, left) && IsSpanPeak(plane, bounds, mid, to, right)
    ensures IsSpanPeak(plane, bounds, from, to, both)
  {
    HalvedPeak(finer, p, plane, bounds[from], bounds[mid], bounds[to]);
  }

  /** Every tile is the peak of its own span. */
  predicate TilesAreSpanPeaks(plane: seq<real>, bounds: seq<nat>, tiles: Channel) {
    forall q :: 0 <= q < |tiles| ==> IsSpanPeak(plane, bounds, q, q + 1, tiles[q])
  }

  lemma {:induction false} CoarsenedSpan(plane: seq<real>, bounds: seq<nat>, tiles: Channel, level: nat, p: nat,
                                         from: nat, to: nat,
                                         peak: SamplePerChannel)
    requires level <= TOP && TilesAreSpanPeaks(plane, bounds, tiles)
    requires p < |Coarsened(tiles, level)| && peak == Coarsened(tiles, level)[p]
    requires from == Stride(p, TilesPerPoint(level)) && to == from + TilesPerPoint(level)
    ensures IsSpanPeak(plane, bounds, from, to, peak)
    decreases TOP - level
  {
    if level == TOP {
      StrideByOne(p);
    } else {
      var finer, q := Coarsened(tiles, level + 1), 2 * p;
      var mid := from + TilesPerPoint(level + 1);
      SpanHalves(p, TilesPerPoint(level + 1), from);
      CoarsenedSpan(plane, bounds, tiles, level + 1, q, from, mid, finer[q]);
      CoarsenedSpan(plane, bounds, tiles, level + 1, q + 1, mid, to, finer[q + 1]);
      HalvedSpanPeak(plane, bounds, finer, p, from, mid, to, finer[q], finer[q + 1], peak);
    }
  }

  /**
   * Every point of every level is the exact minimum and maximum of the raw samples
   * between the first tile under it and the first tile under the next point.
   */
  lemma CoarsenedIsPeak(plane: seq<real>, bounds: seq<nat>, tiles: Channel, level: nat, p: nat, from: nat, to: nat,
                        peak: SamplePerChannel)
    requires level <= TOP && bounds != [] && Ascending(bounds) && bounds[|bounds| - 1] <= |plane|
    requires tiles == TilePeaks(plane, bounds) && p < |Coarsened(tiles, level)| && peak == Coarsened(tiles, level)[p]
    requires from == Stride(p, TilesPerPoint(level)) && to == from + TilesPerPoint(level)
    ensures IsSpanPeak(plane, bounds, from, to, peak)
  {
    forall q | 0 <= q < |tiles| ensures IsSpanPeak(plane, bounds, q, q + 1, tiles[q]) {
      TileIsSpanPeak(plane, bounds, q);
    }
    CoarsenedSpan(plane, bounds, tiles, level, p, from, to, peak);
  }

  // ----- what a write puts on each level -----

  /** Points a write produces at a level. */
  function BlockPoints(planar: Planar, sampleRate: nat, level: nat): nat
    requires sampleRate > 0
  {
    PointIndex(Duration(planar, sampleRate), level)
  }

  function WriteBounds(planar: Planar, sampleRate: nat): (b: seq<nat>)
    requires sampleRate > 0 && |planar| > 0
    ensures |b| == BlockPoints(planar, sampleRate, TOP) + 1
  {
    Bounds(BlockPoints(planar, sampleRate, TOP), Chunk(sampleRate), |planar|)
  }

  /** What channel `ch` of a level has to show. */
  function LevelOf(planar: Planar, sampleRate: nat, ch: nat, level: nat): Channel
    requires sampleRate > 0 && ch < |planar| && level <= TOP
  {
    Coarsened(TilePeaks(planar[ch], WriteBounds(planar, sampleRate)), level)
  }

  lemma {:induction false} LevelLength(planar: Planar, sampleRate: nat, ch: nat, level: nat)
    requires sampleRate > 0 && ch < |planar| && level <= TOP
    ensures |LevelOf(planar, sampleRate, ch, level)| == BlockPoints(planar, sampleRate, level)
    decreases TOP - level
  {
    if level < TOP {
      LevelLength(planar, sampleRate, ch, level + 1);
      PointIndexHalves(Duration(planar, sampleRate), level);
    }
  }

  /** Point `p` of every channel. */
  function Row(channels: seq<Channel>, p: nat): (r: Sample)
    requires forall ch :: 0 <= ch < |channels| ==> p < |channels[ch]|
    ensures |r| == |channels|
  {
    if channels == [] then []
    else Row(channels[..|channels| - 1], p) + [channels[|channels| - 1][p]]
  }

  lemma {:induction false} RowAt(channels: seq<Channel>, p: nat, ch: nat)
    requires forall c :: 0 <= c < |channels| ==> p < |channels[c]|
    requires ch < |channels|
    ensures Row(channels, p)[ch] == channels[ch][p]
  {
    if ch < |channels| - 1 {
      RowAt(channels[..|channels| - 1], p, ch);
    }
  }

  /** The first `points` points, channel-interleaved. */
  function Interleave(channels: seq<Channel>, points: nat): (r: Sample)
    requires forall ch :: 0 <= ch < |channels| ==> points <= |channels[ch]|
    ensures |r| == Stride(points, |channels|)
  {
    if points == 0 then [] else Interleave(channels, points - 1) + Row(channels, points - 1)
  }

  lemma {:induction false} InterleaveAt(channels: seq<Channel>, points: nat, p: nat, ch: nat)
    requires forall c :: 0 <= c < |channels| ==> points <= |channels[c]|
    requires p < points && ch < |channels|
    ensures Stride(p, |channels|) + ch < Stride(points, |channels|)
    ensures Interleave(channels, points)[Stride(p, |channels|) + ch] == channels[ch][p]
  {
    StrideMonotone(p, points - 1, |channels|);
    if p < points - 1 {
      InterleaveAt(channels, points - 1, p, ch);
    } else {
      RowAt(channels, p, ch);
    }
  }

  lemma {:induction false} RowOf(c: seq<Channel>, d: seq<Channel>, p: nat, q: nat)
    requires |c| == |d|
    requires forall ch :: 0 <= ch < |c| ==> p < |c[ch]| && q < |d[ch]| && c[ch][p] == d[ch][q]
    ensures Row(c, p) == Row(d, q)
  {
    if c != [] {
      RowOf(c[..|c| - 1], d[..|d| - 1], p, q);
    }
  }

  lemma NextRowConcat(x: seq<Channel>, y: seq<Channel>, z: seq<Channel>, p: nat, q: nat, n: nat)
    requires |x| == |y| == |z| && n == p + q
    requires forall ch :: 0 <= ch < |x| ==> |x[ch]| == p && q < |y[ch]| && z[ch] == x[ch] + y[ch]
    requires Interleave(z, n) == Interleave(x, p) + Interleave(y, q)
    ensures Interleave(z, n + 1) == Interleave(x, p) + Interleave(y, q + 1)
  {
    RowOf(y, z, q, n);
    Joined(Interleave(x, p), Interleave(y, q), Row(y, q));
  }

  lemma Joined(a: Sample, b: Sample, c: Sample)
    ensures (a + b) + c == a + (b + c)
  {
  }

  /** Channels that continue other channels interleave to a continuation. */
  lemma {:induction false} InterleaveConcat(x: seq<Channel>, y: seq<Channel>, z: seq<Channel>, p: nat, q: nat)
    requires |x| == |y| == |z|
    requires forall ch :: 0 <= ch < |x| ==> |x[ch]| == p && q <= |y[ch]| && z[ch] == x[ch] + y[ch]
    ensures Interleave(z, p + q) == Interleave(x, p) + Interleave(y, q)
  {
    if q > 0 {
      var n := p + (q - 1);
      InterleaveConcat(x, y, z, p, q - 1);
      NextRowConcat(x, y, z, p, q - 1, n);
      assert n + 1 == p + q;
    } else {
      InterleavePrefix(x, z, p);
    }
  }

  lemma {:induction false} InterleavePrefix(x: seq<Channel>, z: seq<Channel>, p: nat)
    requires |x| == |z|
    requires forall ch :: 0 <= ch < |x| ==> p <= |x[ch]| && x[ch] <= z[ch]
    ensures Interleave(x, p) == Interleave(z, p)
  {
    if p > 0 {
      InterleavePrefix(x, z, p - 1);
      RowOf(x, z, p - 1, p - 1);
    }
  }

  /** What the first `count` channels of a level have to show. */
  function FirstLevels(planar: Planar, sampleRate: nat, level: nat, count: nat): (c: seq<Channel>)
    requires sampleRate > 0 && count <= |planar| && level <= TOP
    ensures |c| == count
    ensures forall ch :: 0 <= ch < count ==> |c[ch]| == BlockPoints(planar, sampleRate, level)
  {
    if count == 0 then []
    else
      LevelLength(planar, sampleRate, count - 1, level);
      FirstLevels(planar, sampleRate, level, count - 1) + [LevelOf(planar, sampleRate, count - 1, level)]
  }

  lemma {:induction false} FirstLevelsAt(planar: Planar, sampleRate: nat, level: nat, count: nat, ch: nat)
    requires sampleRate > 0 && ch < count <= |planar| && level <= TOP
    ensures FirstLevels(planar, sampleRate, level, count)[ch] == LevelOf(planar, sampleRate, ch, level)
  {
    if ch < count - 1 { FirstLevelsAt(planar, sampleRate, level, count - 1, ch); }
  }

  /** What every channel of a level has to show. */
  function LevelsOf(planar: Planar, sampleRate: nat, level: nat): (c: seq<Channel>)
    requires sampleRate > 0 && |planar| > 0 && level <= TOP
    ensures |c| == |planar|
    ensures forall ch :: 0 <= ch < |planar| ==> |c[ch]| == BlockPoints(planar, sampleRate, level)
  {
    FirstLevels(planar, sampleRate, level, |planar|)
  }

  /** Every channel one level coarser. */
  function Coarser(channels: seq<Channel>): (c: seq<Channel>)
    ensures |c| == |channels|
  {
    if channels == [] then [] else Coarser(channels[..|channels| - 1]) + [Halve(channels[|channels| - 1])]
  }

  lemma {:induction false} CoarserAt(channels: seq<Channel>, ch: nat)
    requires ch < |channels|
    ensures Coarser(channels)[ch] == Halve(channels[ch])
  {
    if ch < |channels| - 1 { CoarserAt(channels[..|channels| - 1], ch); }
  }

  lemma {:induction false} FirstLevelsFromFiner(planar: Planar, sampleRate: nat, level: nat, count: nat)
    requires sampleRate > 0 && count <= |planar| && level < TOP
    ensures FirstLevels(planar, sampleRate, level, count) == Coarser(FirstLevels(planar, sampleRate, level + 1, count))
  {
    if count > 0 {
      FirstLevelsFromFiner(planar, sampleRate, level, count - 1);
      var finer := FirstLevels(planar, sampleRate, level + 1, count);
      assert finer[..count - 1] == FirstLevels(planar, sampleRate, level + 1, count - 1);
    }
  }

  /** The interleaved points a write of `planar` has to produce at a level. */
  function Block(planar: Planar, sampleRate: nat, level: nat): (b: Sample)
    requires sampleRate > 0 && |planar| > 0 && level <= TOP
    ensures |b| == Stride(BlockPoints(planar, sampleRate, level), |planar|)
  {
    Interleave(LevelsOf(planar, sampleRate, level), BlockPoints(planar, sampleRate, level))
  }

  /** The tiles that are written lie within the samples that are there. */
  lemma BlockSamplesWithin(planar: Planar, sampleRate: nat, q: nat)
    requires sampleRate > 0 && |planar| > 0
    requires q <= BlockPoints(planar, sampleRate, TOP)
    ensures TileBound(q, Chunk(sampleRate), |planar|) <= SampleCount(planar)
  {
    var n, r := SampleCount(planar), sampleRate as real;
    TopRate(n as real / r);
    ChunksFit(q, n, r);
    TileBoundWithin(q, Chunk(sampleRate), |planar|, n);
  }

  lemma ChunksFit(q: nat, n: nat, r: real)
    requires r > 0.0
    requires q as real <= 1024.0 * (n as real / r)
    ensures Scale(q, r / 1024.0) <= n as real
  {
    ScaleIsProduct(q, r / 1024.0);
    ProductWithin(q as real, r / 1024.0, n as real / r, n as real);
  }

  lemma ProductWithin(q: real, s: real, d: real, n: real)
    requires s > 0.0 && q <= 1024.0 * d
    requires d * (1024.0 * s) == n
    ensures q * s <= n
  {
    assert q * s <= (1024.0 * d) * s;
    assert (1024.0 * d) * s == d * (1024.0 * s);
  }

  // ----- overlays -----

  function Silence(count: nat): (r: Sample)
    ensures |r| == count
  {
    if count == 0 then [] else Silence(count - 1) + [SILENT]
  }

  lemma {:induction false} SilenceAt(count: nat, i: nat)
    requires i < count
    ensures Silence(count)[i] == SILENT
  {
    if i < count - 1 { SilenceAt(count - 1, i); }
  }

  /** `Vec::resize` when it can only grow. */
  function PadTo(data: Sample, size: nat): (r: Sample)
    ensures |r| == if |data| < size then size else |data|
  {
    if |data| < size then data + Silence(size - |data|) else data
  }

  /** `data` silence-padded far enough to receive `block` at `start`, and overwritten there. */
  function Overlay(data: Sample, start: nat, block: Sample): (r: Sample)
    ensures |r| == if |data| < start + |block| then start + |block| else |data|
  {
    var padded := PadTo(data, start + |block|);
    padded[..start] + block + padded[start + |block|..]
  }

  /** Entry `i` of a store, silent past its end. */
  function EntryOf(data: Sample, i: nat): SamplePerChannel {
    if i < |data| then data[i] else SILENT
  }

  lemma PadToAt(data: Sample, size: nat, i: nat)
    requires i < |PadTo(data, size)|
    ensures PadTo(data, size)[i] == EntryOf(data, i)
  {
    if |data| <= i { SilenceAt(size - |data|, i - |data|); }
  }

  lemma OverlayAt(data: Sample, start: nat, block: Sample, i: nat)
    ensures EntryOf(Overlay(data, start, block), i) ==
      if start <= i < start + |block| then block[i - start] else EntryOf(data, i)
  {
    if i < |Overlay(data, start, block)| && !(start <= i < start + |block|) {
      PadToAt(data, start + |block|, i);
    }
  }

  /** Two stores are equal when they are as long and have the same entries. */
  lemma SameEntries(a: Sample, b: Sample)
    requires |a| == |b|
    requires forall i: nat :: EntryOf(a, i) == EntryOf(b, i)
    ensures a == b
  {
    forall i: nat | i < |a| ensures a[i] == b[i] {
      assert EntryOf(a, i) == EntryOf(b, i);
    }
  }

  /** `r` holds `block` from `start` on and is `data` elsewhere, silence where there was nothing. */
  ghost predicate IsOverlay(r: Sample, data: Sample, start: nat, block: Sample) {
    && |r| == (if |data| < start + |block| then start + |block| else |data|)
    && forall i: nat :: EntryOf(r, i) == if start <= i < start + |block| then block[i - start] else EntryOf(data, i)
  }

  lemma OverlayIs(data: Sample, start: nat, block: Sample)
    ensures IsOverlay(Overlay(data, start, block), data, start, block)
  {
    forall i: nat ensures EntryOf(Overlay(data, start, block), i) ==
      if start <= i < start + |block| then block[i - start] else EntryOf(data, i)
    {
      OverlayAt(data, start, block, i);
    }
  }

  lemma OverlaysCompose(l: Sample, once: Sample, data: Sample, start: nat, a: Sample, b: Sample, both: Sample)
    requires IsOverlay(once, data, start, a) && IsOverlay(l, once, start + |a|, b) && both == a + b
    ensures IsOverlay(l, data, start, both)
  {
    forall i: nat ensures EntryOf(l, i) == if start <= i < start + |both| then both[i - start] else EntryOf(data, i) {
      assert EntryOf(once, i) == if start <= i < start + |a| then a[i - start] else EntryOf(data, i);
    }
  }

  lemma OverlaysSame(l: Sample, r: Sample, data: Sample, start: nat, block: Sample)
    requires IsOverlay(l, data, start, block) && IsOverlay(r, data, start, block)
    ensures l == r
  {
    forall i: nat ensures EntryOf(l, i) == EntryOf(r, i) {
    }
    SameEntries(l, r);
  }

  lemma OverlaysEqual(data: Sample, start: nat, a: Sample, b: Sample, once: Sample, twice: Sample, whole: Sample,
                      both: Sample)
    requires IsOverlay(once, data, start, a) && IsOverlay(twice, once, start + |a|, b)
    requires both == a + b && IsOverlay(whole, data, start, both)
    ensures twice == whole
  {
    OverlaysCompose(twice, once, data, start, a, b, both);
    OverlaysSame(twice, whole, data, start, both);
  }

  lemma SecondOverlay(data: Sample, start: nat, a: Sample, b: Sample, once: Sample, both: Sample)
    requires IsOverlay(once, data, start, a) && both == a + b
    ensures Overlay(once, start + |a|, b) == Overlay(data, start, both)
  {
    OverlayIs(once, start + |a|, b);
    OverlayIs(data, start, both);
    OverlaysEqual(data, start, a, b, once, Overlay(once, start + |a|, b), Overlay(data, start, both), both);
  }

  lemma OverlayAdjacent(data: Sample, start: nat, at: nat, a: Sample, b: Sample, both: Sample)
    requires at == start + |a| && both == a + b
    ensures Overlay(Overlay(data, start, a), at, b) == Overlay(data, start, both)
  {
    OverlayIs(data, start, a);
    SecondOverlay(data, start, a, b, Overlay(data, start, a), both);
  }
}
