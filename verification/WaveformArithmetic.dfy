/**
 * The numbers of the mipmap store spelled out: the rates of its levels, the entries and samples
 * its times fall on, and the lengths its edits leave.
 */
module WaveformArithmetic {
  import opened Rationals
  import opened Peaks
  import opened Strides
  import opened WaveformTiles
  import opened WaveformSpec
  import opened WaveformTheorems
  import opened WaveformQueries

  // ----- rates -----

  /** Points per second of the levels, from the coarsest. */
  const RATES := [0.125, 0.25, 0.5, 1.0, 2.0, 4.0, 8.0, 16.0, 32.0, 64.0, 128.0, 256.0, 512.0, 1024.0]

  /** Finest points under a point of each level. */
  const TILES := [8192, 4096, 2048, 1024, 512, 256, 128, 64, 32, 16, 8, 4, 2, 1]

  lemma {:induction false} RateIs(level: nat)
    requires level <= 13
    ensures Rate(level) == RATES[level]
  {
    if level > 0 { RateIs(level - 1); }
  }

  lemma {:induction false} TilesPerPointIs(level: nat)
    requires level <= 13
    ensures TilesPerPoint(level) == TILES[level]
    decreases 13 - level
  {
    if level < 13 { TilesPerPointIs(level + 1); }
  }

  /** `floor(time * rate)`. */
  function PointOf(time: real, level: nat): int
    requires level <= 13
  {
    (time * RATES[level]).Floor
  }

  /** A time of zero or more falls on point `floor(time * rate)`; an earlier one and 0/0 on point 0. */
  lemma PointIndexIs(time: Rational, level: nat)
    requires level <= 13
    ensures time.Of? && time.value >= 0.0 ==> PointIndex(time, level) == PointOf(time.value, level)
    ensures time.Null? || time.value < 0.0 ==> PointIndex(time, level) == 0
  {
    if time.Of? {
      RateIs(level);
      AtRateIsProduct(time.value, level);
      ProductBelowZero(time.value, Rate(level));
    }
  }

  lemma ProductBelowZero(x: real, r: real)
    requires r > 0.0
    ensures x < 0.0 ==> x * r < 0.0
    ensures x >= 0.0 ==> x * r >= 0.0
  {
  }

  // ----- samples under a point -----

  /** The interleaved position of tile `q`: `q * channels * sampleRate / 1024` rounded half up, over the channels. */
  function RoundedStart(q: nat, channels: nat, sampleRate: nat): nat
    requires channels > 0
  {
    Quotient((Scale(Stride(q, channels), sampleRate as real / 1024.0) + 0.5).Floor, channels)
  }

  lemma RoundedStartIs(q: nat, channels: nat, sampleRate: nat, n: nat, position: real)
    requires channels > 0 && n == q * channels && position == n as real * (sampleRate as real / 1024.0)
    ensures RoundedStart(q, channels, sampleRate) == (position + 0.5).Floor / channels
  {
    var chunk := sampleRate as real / 1024.0;
    StrideIsProduct(q, channels);
    ScaleIsProduct(n, chunk);
    RoundedPosition(Scale(n, chunk), position, channels);
  }

  lemma RoundedPosition(x: real, position: real, channels: nat)
    requires x == position >= 0.0 && channels > 0
    ensures Quotient((x + 0.5).Floor, channels) == (position + 0.5).Floor / channels
  {
    QuotientIsDivision((x + 0.5).Floor, channels);
  }

  lemma TileBoundIs(q: nat, sampleRate: nat, channels: nat)
    requires sampleRate > 0 && channels > 0
    ensures TileBound(q, Chunk(sampleRate), channels) == RoundedStart(q, channels, sampleRate)
  {
    ScaleOfStride(q, channels, Chunk(sampleRate));
  }

  /** Point `p` of a level starts where its first finest point starts. */
  lemma SampleOfPointIs(planar: Planar, sampleRate: nat, level: nat, p: nat)
    requires sampleRate > 0 && |planar| > 0 && level <= 13
    ensures SampleOfPoint(planar, sampleRate, level, p) == RoundedStart(Stride(p, TILES[level]), |planar|, sampleRate)
  {
    TilesPerPointIs(level);
    TileBoundIs(Stride(p, TILES[level]), sampleRate, |planar|);
  }

  /** At a rate of `k * 1024` samples per second every finest point has exactly `k` samples. */
  lemma SampleOfPointAtWholeRate(planar: Planar, sampleRate: nat, level: nat, p: nat, k: nat)
    requires sampleRate == 1024 * k > 0 && |planar| > 0 && level <= 13
    ensures SampleOfPoint(planar, sampleRate, level, p) == p * TILES[level] * k
  {
    var q, c, chunk := p * TILES[level], |planar|, Chunk(sampleRate);
    TilesPerPointIs(level);
    StrideIsProduct(p, TILES[level]);
    assert chunk == k as real;
    ScaleOfNat(c, k);
    ScaleOfNat(q, Stride(c, k));
    StrideCommutes(c, k);
    StrideCommutes(q, Stride(k, c));
    StrideOfStride(k, c, q);
    StrideIsProduct(q, k);
    StrideCommutes(k, q);
    WholeQuotient(Stride(q, k), c, Scale(q, Scale(c, chunk)));
  }

  lemma StrideOfStride(k: nat, c: nat, q: nat)
    ensures Stride(Stride(k, c), q) == Stride(Stride(q, k), c)
  {
    StrideIsProduct(k, c);
    StrideIsProduct(q, k);
    StrideIsProduct(k * c, q);
    StrideIsProduct(q * k, c);
    ProductsAgree(k, c, q);
  }

  lemma ProductsAgree(k: nat, c: nat, q: nat)
    ensures (k * c) * q == (q * k) * c
  {
  }

  lemma WholeQuotient(n: nat, c: nat, x: real)
    requires c > 0 && x == Stride(n, c) as real
    ensures Quotient((x + 0.5).Floor, c) == n
  {
    DivisionOfStride(n, 0, c);
  }

  // ----- one write, in samples -----

  /** `level` is the coarsest that puts a point on `length`. */
  predicate IsCoarsestFor(length: real, level: nat) {
    level <= 13 && PointOf(length, level) >= 1 && (level > 0 ==> PointOf(length, level - 1) < 1)
  }

  lemma LevelForIs(length: real, level: nat)
    requires length >= 1.0 / 1024.0 && level == LevelFor(Of(length), 0)
    ensures IsCoarsestFor(length, level)
  {
    LevelForIsCoarsest(Of(length));
    PointIndexIs(Of(length), level);
    if level > 0 { PointIndexIs(Of(length), level - 1); }
  }

  /** There is one coarsest level. */
  lemma CoarsestIsUnique(length: real, level: nat)
    requires length >= 1.0 / 1024.0 && IsCoarsestFor(length, level)
    ensures level == LevelFor(Of(length), 0)
  {
    var k := LevelFor(Of(length), 0);
    LevelForIsCoarsest(Of(length));
    PointIndexIs(Of(length), level);
    PointIndexIs(Of(length), k);
    if level > 0 && k < level {
      AtRateAscends(length, k, level - 1);
      PointIndexIs(Of(length), level - 1);
    }
  }

  /** The points a query after one write reads: the write's own, where it starts, and how many it asks for. */
  lemma QueryIndices(planar: Planar, sampleRate: nat, written: real, at: real, length: real, level: nat)
    requires sampleRate > 0 && at >= written && length >= 0.0 && level <= 13
    ensures BlockPoints(planar, sampleRate, level) == PointOf(SampleCount(planar) as real / sampleRate as real, level)
    ensures PointIndex(Of(at).Minus(Of(written)), level) == PointOf(at - written, level)
    ensures PointIndex(Of(length), level) == PointOf(length, level)
  {
    PointIndexIs(Of(SampleCount(planar) as real / sampleRate as real), level);
    PointIndexIs(Of(at - written), level);
    PointIndexIs(Of(length), level);
  }

  // ----- a query on any store -----

  /** Entry of channel `ch` in point `p` of a level. */
  function PointEntry(data: Sample, channels: nat, p: nat, ch: nat): SamplePerChannel {
    EntryOf(data, Stride(p, channels) + ch)
  }

  /** `pair` covers channel `ch` of the points `first..first + count`, and no more than they do. */
  ghost predicate Covering(pair: SamplePerChannel, data: Sample, channels: nat, ch: nat, first: nat, count: nat) {
    && (forall p: nat :: first <= p < first + count ==>
          pair.min <= PointEntry(data, channels, p, ch).min && PointEntry(data, channels, p, ch).max <= pair.max)
    && (exists p: nat :: first <= p < first + count && PointEntry(data, channels, p, ch).min == pair.min)
    && exists p: nat :: first <= p < first + count && PointEntry(data, channels, p, ch).max == pair.max
  }

  lemma CoversOneMore(pair: SamplePerChannel, data: Sample, channels: nat, ch: nat, first: nat, count: nat)
    requires count > 0 && Covering(pair, data, channels, ch, first, count)
    ensures Covering(Join(pair, PointEntry(data, channels, first + count, ch)), data, channels, ch, first, count + 1)
  {
    var e := PointEntry(data, channels, first + count, ch);
    var low: nat :| first <= low < first + count && PointEntry(data, channels, low, ch).min == pair.min;
    var high: nat :| first <= high < first + count && PointEntry(data, channels, high, ch).max == pair.max;
    assert PointEntry(data, channels, if e.min < pair.min then first + count else low, ch).min == Join(pair, e).min;
    assert PointEntry(data, channels, if e.max > pair.max then first + count else high, ch).max == Join(pair, e).max;
  }

  lemma {:induction false} JoinedPointsCover(data: Sample, channels: nat, ch: nat, first: nat, count: nat)
    requires count > 0 && ch < channels && Stride(first + count, channels) <= |data|
    ensures Stride(first, channels) + ch < |data|
    ensures Covering(JoinPoints(data, Stride(first, channels), channels, ch, count,
        data[Stride(first, channels) + ch]), data, channels, ch, first, count)
  {
    StridePlus(first, count, channels);
    StridePlus(first, count - 1, channels);
    StrideMonotone(1, count, channels);
    if count == 1 {
      JoinOnePoint(data, Stride(first, channels), channels, ch);
      OnlyPointCovers(data[Stride(first, channels) + ch], data, channels, ch, first);
    } else {
      StrideMonotone(first + (count - 1), first + count, channels);
      JoinedPointsCover(data, channels, ch, first, count - 1);
      JoinedOneMore(data, channels, ch, first, count - 1, data[Stride(first, channels) + ch]);
    }
  }

  lemma OnlyPointCovers(pair: SamplePerChannel, data: Sample, channels: nat, ch: nat, first: nat)
    requires pair == PointEntry(data, channels, first, ch)
    ensures Covering(pair, data, channels, ch, first, 1)
  {
    forall p: nat | first <= p < first + 1 ensures PointEntry(data, channels, p, ch) == pair {
      assert p == first;
    }
  }

  lemma JoinedOneMore(data: Sample, channels: nat, ch: nat, first: nat, count: nat, start: SamplePerChannel)
    requires count > 0 && ch < channels && Stride(first + count + 1, channels) <= |data|
    requires Covering(JoinPoints(data, Stride(first, channels), channels, ch, count, start), data, channels, ch, first,
                      count)
    ensures Covering(JoinPoints(data, Stride(first, channels), channels, ch, count + 1, start), data, channels, ch,
                     first, count + 1)
  {
    StridePlus(first, count, channels);
    CoversOneMore(JoinPoints(data, Stride(first, channels), channels, ch, count, start), data, channels, ch, first,
        count);
  }

  lemma MergedPointsCover(data: Sample, c: nat, ch: nat, first: nat, count: nat, points: nat)
    returns (pair: SamplePerChannel)
    requires count > 0 && ch < c && first + count <= points && |data| == Stride(points, c)
    ensures pair == MergedPoint(data, Stride(first, c), Stride(count, c), c, ch)
    ensures Covering(pair, data, c, ch, first, count)
  {
    SpanWithin(first, count, points, c);
    StridePlus(first, count, c);
    pair := JoinedPair(data, c, ch, first, count);
    MergedIsJoined(data, Stride(first, c), count, c, ch);
  }

  lemma JoinedPair(data: Sample, c: nat, ch: nat, first: nat, count: nat) returns (pair: SamplePerChannel)
    requires count > 0 && ch < c && Stride(first + count, c) <= |data|
    ensures Stride(first, c) + ch < |data|
    ensures pair == JoinPoints(data, Stride(first, c), c, ch, count, data[Stride(first, c) + ch])
    ensures Covering(pair, data, c, ch, first, count)
  {
    JoinedPointsCover(data, c, ch, first, count);
    pair := JoinPoints(data, Stride(first, c), c, ch, count, data[Stride(first, c) + ch]);
  }

  /**
   * On any store, a query that reads whole points returns per channel the least minimum and the
   * greatest maximum of the points from where it starts, as many as it asks for and there are.
   */
  lemma QueryCoversItsPoints(w: Wave, start: Rational, length: Rational, level: nat, points: nat, first: nat,
                             count: nat, ch: nat, data: Sample, c: nat)
    requires w.Full() && c == w.channels && ch < c && level == LevelFor(length, 0) && data == w.levels[level]
    requires |data| == Stride(points, c) && first == PointIndex(start.Minus(w.virtualStart), level)
    requires first < points && PointIndex(length, level) > 0
    requires count == if first + PointIndex(length, level) <= points then PointIndex(length, level) else points - first
    ensures Covering(Query(w, start, length)[ch], data, c, ch, first, count)
  {
    QueryOfLevel(w, start, length, level, data, points, first, PointIndex(length, level));
    var pair := MergedPointsCover(data, c, ch, first, count, points);
    assert Query(w, start, length)[ch] == pair;
  }

  /** A range shorter than 1/1024 s reads no point of any level: the answer is one zero pair per channel. */
  lemma ShortQueryIsSilent(w: Wave, start: Rational, length: real, ch: nat)
    requires w.Full() && ch < w.channels && length < 1.0 / 1024.0
    ensures Query(w, start, Of(length))[ch] == SamplePerChannel(0.0, 0.0)
  {
    var level := LevelFor(Of(length), 0);
    RateIs(level);
    PointIndexIs(Of(length), level);
    if length >= 0.0 { ShortProduct(length, RATES[level]); }
    SilenceAt(w.channels, ch);
    assert TimeToSamples(Of(length), level, w.channels) == 0;
  }

  lemma ShortProduct(x: real, r: real)
    requires 0.0 <= x < 1.0 / 1024.0 && 0.0 < r <= 1024.0
    ensures (x * r).Floor == 0
  {
    assert x * r <= x * 1024.0;
    assert x * r >= 0.0;
  }

  // ----- lengths and entries an edit leaves -----

  /** A positive trim moves the start, shortens the length down to zero, and drops the points before the new start. */
  lemma PositiveTrim(w: Wave, start: real, had: real, cut: real, level: nat, i: nat)
    requires w.Full() && w.virtualStart == Of(start) && w.length == Of(had) && cut > 0.0 && level <= 13
    ensures var t := Trimmed(w, Of(cut));
      && t.virtualStart == Of(start + cut) && t.length == Of(if had > cut then had - cut else 0.0)
      && t.channels == w.channels
      && EntryOf(t.levels[level], i) == EntryOf(w.levels[level], i + PointOf(cut, level) * w.channels)
  {
    TrimmedParts(w, start, cut, level);
    PointIndexIs(Of(cut), level);
    StrideIsProduct(PointOf(cut, level), w.channels);
  }

  /** Silencing at or after the start makes the store at least as long as where the silence ends. */
  lemma SilencedLength(w: Wave, start: real, had: real, at: real, length: real)
    requires w.Full() && w.virtualStart == Of(start) && w.length == Of(had) && had != 0.0 && at >= start
    ensures Silenced(w, Of(at), Of(length)).length == Of(if had > at + length then had else at + length)
    ensures Silenced(w, Of(at), Of(length)).virtualStart == Of(start)
  {
  }

  /** A write at or after the start makes the store at least as long as where the write ends. */
  lemma WrittenLength(w: Wave, planar: Planar, sampleRate: nat, start: real, had: real, at: real, end: real)
    requires w.Full() && sampleRate > 0 && |planar| == w.channels > 0
    requires w.virtualStart == Of(start) && w.length == Of(had) && had != 0.0 && at >= start
    requires end == at + SampleCount(planar) as real / sampleRate as real
    ensures Written(w, planar, sampleRate, Of(at)).length == Of(if had > end then had else end)
    ensures Written(w, planar, sampleRate, Of(at)).virtualStart == Of(start)
  {
  }

  /** Resizing cuts every level to the points of the new length, or pads it there with silence. */
  lemma ResizedEntries(w: Wave, length: real, level: nat, i: nat)
    requires w.Full() && level <= 13 && length >= 0.0 && w.length != Of(length)
    ensures var r := Resized(w, Of(length));
      && r.length == Of(length) && r.virtualStart == w.virtualStart && r.channels == w.channels
      && |r.levels[level]| == PointOf(length, level) * w.channels
      && EntryOf(r.levels[level], i) ==
        if i < PointOf(length, level) * w.channels && i < |w.levels[level]| then w.levels[level][i]
        else SamplePerChannel(0.0, 0.0)
  {
    PointIndexIs(Of(length), level);
    StrideIsProduct(PointOf(length, level), w.channels);
    var data, size := w.levels[level], Stride(PointOf(length, level), w.channels);
    assert Resized(w, Of(length)).levels[level] == ResizedLevel(data, size);
    if i < size && |data| < size { PadToAt(data, size, i); }
  }

  /** `mid` starts at the offset, has the length asked for, and holds the points from there on, cut or padded. */
  lemma MidSpan(w: Wave, start: real, had: real, offset: real, length: real, level: nat, i: nat, m: Wave,
                at: nat)
    requires w.Full() && w.virtualStart == Of(start) && w.length == Of(had) && offset > start && level <= 13
    requires length >= 0.0 && length != if had > offset - start then had - (offset - start) else 0.0
    requires m == MidOf(w, Of(offset), Of(length)) && at == i + PointOf(offset - start, level) * w.channels
    ensures m.virtualStart == Of(offset) && m.length == Of(length) && m.channels == w.channels && m.Full()
    ensures |m.levels[level]| == PointOf(length, level) * w.channels
    ensures i < PointOf(length, level) * w.channels ==>
      EntryOf(m.levels[level], i) == EntryOf(w.levels[level], at)
  {
    var t := Trimmed(w, Of(offset - start));
    PositiveTrim(w, start, had, offset - start, level, i);
    ResizedEntries(t, length, level, i);
    if i >= |t.levels[level]| { PastTheEndIsZero(t.levels[level], i); }
  }

  /** Nothing is stored past the end, and what is shown there is silence. */
  lemma PastTheEndIsZero(data: Sample, i: nat)
    requires i >= |data|
    ensures EntryOf(data, i) == SamplePerChannel(0.0, 0.0)
  {
  }

  /** A window of a plane shows its samples as far as the plane reaches, and zeros when it shows none. */
  lemma WindowShows(plane: seq<real>, from: nat, to: nat)
    ensures from < to && from < |plane| ==>
      IsPeakOf(WindowPeak(plane, from, to), plane, from, if to < |plane| then to else |plane|)
    ensures from >= to || from >= |plane| ==> WindowPeak(plane, from, to) == SamplePerChannel(0.0, 0.0)
  {
    if from < to && from < |plane| { PeakOfIsExact(plane, from, if to < |plane| then to else |plane|); }
  }
}
