/**
 * The visual waveform store of crates/oak-audio/src/waveform.rs: a class whose methods
 * follow the source's loops, each proved against its meaning in `WaveformSpec`.
 */
module Waveform {
  import opened Rationals
  import opened Peaks
  import opened Strides
  import opened WaveformTiles
  import opened WaveformSpec

  // ----- free functions of the source -----

  /** `floor(time * sample_rate) * channels`, 0 for negative times and for NaN. */
  function TimeToSamplesAtRate(time: Rational, sampleRate: real, channels: nat): nat {
    if time.Null? || (time.value * sampleRate).Floor <= 0 then 0
    else (time.value * sampleRate).Floor * channels
  }

  lemma TimeToSamplesAgrees(time: Rational, level: nat, channels: nat)
    ensures TimeToSamplesAtRate(time, Rate(level), channels) == TimeToSamples(time, level, channels)
  {
    StrideIsProduct(PointIndex(time, level), channels);
    if time.Of? {
      AtRateIsProduct(time.value, level);
    }
    ScaledIndex(time, level, Rate(level), channels);
  }

  lemma ScaledIndex(time: Rational, level: nat, rate: real, channels: nat)
    requires time.Of? ==> AtRate(time.value, level) == time.value * rate
    ensures TimeToSamplesAtRate(time, rate, channels) == PointIndex(time, level) * channels
  {
  }

  /** `time_to_samples`. */
  method SampleIndex(time: Rational, level: nat, channels: nat) returns (index: nat)
    ensures index == TimeToSamples(time, level, channels)
  {
    TimeToSamplesAgrees(time, level, channels);
    index := TimeToSamplesAtRate(time, Rate(level), channels);
  }

  /** Rust's `f64::round` on a non-negative number. */
  function Round(x: real): int {
    (x + 0.5).Floor
  }

  /** The float arithmetic of the finest level's tile boundaries. */
  lemma TileBoundAgrees(position: nat, q: nat, chunk: real, channels: nat)
    requires chunk > 0.0 && channels > 0 && position == Stride(q, channels)
    ensures Round(position as real * chunk) >= 0
    ensures Round(position as real * chunk) / channels == TileBound(q, chunk, channels)
  {
    ScaleOfStride(q, channels, chunk);
    ScaleIsProduct(position, chunk);
    RoundedQuotient(position as real * chunk, Scale(q, Scale(channels, chunk)), channels);
  }

  lemma RoundedQuotient(y: real, x: real, channels: nat)
    requires y == x >= 0.0 && channels > 0
    ensures Round(y) >= 0 && Round(y) / channels == Quotient((x + 0.5).Floor, channels)
  {
    QuotientIsDivision((x + 0.5).Floor, channels);
  }

  /** `sum_samples`: one pair per plane over `length` samples from `start`. */
  method SumSamples(planar: Planar, start: nat, length: nat) returns (summed: Sample)
    ensures |summed| == |planar|
    ensures forall ch :: 0 <= ch < |planar| ==> summed[ch] == WindowPeak(planar[ch], start, start + length)
  {
    summed := [];
    for ch := 0 to |planar|
      invariant |summed| == ch
      invariant forall c :: 0 <= c < ch ==> summed[c] == WindowPeak(planar[c], start, start + length)
    {
      var data := planar[ch];
      var end := if start + length < |data| then start + length else |data|;
      var minVal, maxVal := 0.0, 0.0;
      if start < end {
        minVal, maxVal := data[start], data[start];
        for i := start + 1 to end
          invariant SamplePerChannel(minVal, maxVal) == PeakOf(data, start, i)
        {
          if data[i] < minVal { minVal := data[i]; }
          if data[i] > maxVal { maxVal := data[i]; }
        }
      }
      summed := summed + [SamplePerChannel(minVal, maxVal)];
    }
  }

  /** The inner loop of `re_sum_samples`: one group of entries, widened into `summed`. */
  method WidenByGroup(summed: Sample, data: Sample, at: nat) returns (r: Sample)
    ensures |r| == |summed|
    ensures forall ch :: 0 <= ch < |r| ==>
      r[ch] == if at + ch < |data| then Join(summed[ch], data[at + ch]) else summed[ch]
  {
    r := summed;
    var j := 0;
    while j < |summed| && at + j < |data|
      invariant j <= |summed| == |r|
      invariant forall ch :: 0 <= ch < j ==> at + ch < |data| && r[ch] == Join(summed[ch], data[at + ch])
      invariant forall ch :: j <= ch < |r| ==> r[ch] == summed[ch]
    {
      var sample := data[at + j];
      if sample.min < r[j].min { r := r[j := r[j].(min := sample.min)]; }
      if sample.max > r[j].max { r := r[j := r[j].(max := sample.max)]; }
      j := j + 1;
    }
  }

  /** What `re_sum_samples` starts from: the first point when there is one, else silence. */
  method FirstPoint(data: Sample, from: nat, n: nat, channels: nat) returns (first: Sample)
    requires from + n <= |data|
    ensures |first| == channels
    ensures forall ch :: 0 <= ch < channels ==>
      first[ch] == if channels <= n && from + ch < |data| then data[from + ch] else SILENT
  {
    first := Silence(channels);
    if n >= channels {
      first := data[from..from + channels];
    } else {
      forall ch | 0 <= ch < channels ensures first[ch] == SILENT {
        SilenceAt(channels, ch);
      }
    }
  }

  /** `re_sum_samples` on the entries of `data` from `from` on. */
  method ReSumSamples(data: Sample, from: nat, count: nat, channels: nat) returns (summed: Sample)
    requires from <= |data|
    ensures summed == Merged(data, from, count, channels)
  {
    var n := if from + count <= |data| then count else |data| - from;
    summed := FirstPoint(data, from, n, channels);
    if channels == 0 {
      return;
    }
    ghost var first := summed;
    var i := 0;
    ghost var g: nat := 0;
    while i < n
      invariant |summed| == channels
      invariant i == Stride(g, channels)
      invariant Groups(n, channels) == g + Groups(if i < n then n - i else 0, channels)
      invariant forall ch :: 0 <= ch < channels ==> summed[ch] == JoinPoints(data, from, channels, ch, g, first[ch])
      decreases n - i
    {
      summed := WidenByGroup(summed, data, from + i);
      i := i + channels;
      g := g + 1;
    }
    assert summed == Merged(data, from, count, channels);
  }

  /** Where entry `i` starts in the source samples. */
  method SourcePosition(i: nat, chunkSize: real, channels: nat, ghost q: nat) returns (position: nat)
    requires chunkSize > 0.0 && channels > 0 && i == Stride(q, channels)
    ensures position == TileBound(q, chunkSize, channels)
  {
    TileBoundAgrees(i, q, chunkSize, channels);
    position := Round(i as real * chunkSize) / channels;
  }

  /** The source samples of the tile at entry `i`, one pair per plane. */
  method TileSummary(planar: Planar, sampleRate: nat, i: nat, ghost q: nat) returns (summary: Sample)
    requires sampleRate > 0 && |planar| > 0
    requires q < BlockPoints(planar, sampleRate, TOP) && i == Stride(q, |planar|)
    ensures summary == Row(LevelsOf(planar, sampleRate, TOP), q)
  {
    ChunkIsRatio(sampleRate);
    var channels := |planar|;
    var chunkSize := sampleRate as real / Rate(TOP);
    var srcStart := SourcePosition(i, chunkSize, channels, q);
    var srcEnd := SourcePosition(i + channels, chunkSize, channels, q + 1);
    var sampleCount := SampleCount(planar);
    TileWithin(planar, sampleRate, q, srcStart, srcEnd);
    summary := SumSamples(planar, srcStart, (if srcEnd < sampleCount then srcEnd else sampleCount) - srcStart);
    TopRow(planar, sampleRate, q, summary);
  }

  lemma ChunkIsRatio(sampleRate: nat)
    requires sampleRate > 0
    ensures sampleRate as real / Rate(TOP) == Chunk(sampleRate) > 0.0
  {
    TopRate(1.0);
  }

  lemma TileWithin(planar: Planar, sampleRate: nat, q: nat, from: nat, to: nat)
    requires sampleRate > 0 && |planar| > 0 && q < BlockPoints(planar, sampleRate, TOP)
    requires from == TileBound(q, Chunk(sampleRate), |planar|) && to == TileBound(q + 1, Chunk(sampleRate), |planar|)
    ensures from <= to <= SampleCount(planar)
  {
    TileBoundsAscend(q, Chunk(sampleRate), |planar|);
    BlockSamplesWithin(planar, sampleRate, q + 1);
  }

  /** `rows` has been written over `base` from `start` on. */
  predicate IsWritten(r: Sample, base: Sample, start: nat, rows: Sample) {
    start + |rows| <= |base| && r == base[..start] + rows + base[start + |rows|..]
  }

  lemma NothingWritten(base: Sample, start: nat)
    requires start <= |base|
    ensures IsWritten(base, base, start, [])
  {
  }

  /** Writing one more row behind the rows already written. */
  method WriteRow(data: Sample, at: nat, row: Sample, ghost base: Sample, ghost start: nat, ghost rows: Sample)
    returns (r: Sample)
    requires at == start + |rows| && at + |row| <= |base| && IsWritten(data, base, start, rows)
    ensures IsWritten(r, base, start, rows + row)
  {
    r := data[..at] + row + data[at + |row|..];
    assert data[..at] == base[..start] + rows;
    assert data[at + |row|..] == base[at + |row|..];
  }

  /** The next row of the finest level, and the rows so far with it. */
  lemma NextRow(levels: seq<Channel>, points: nat, q: nat, rows: Sample, row: Sample)
    requires forall ch :: 0 <= ch < |levels| ==> points <= |levels[ch]|
    requires q < points && rows == Interleave(levels, q) && row == Row(levels, q)
    ensures rows + row == Interleave(levels, q + 1)
    ensures |rows| == Stride(q, |levels|) && |rows + row| <= Stride(points, |levels|)
  {
    StrideMonotone(q + 1, points, |levels|);
  }

  /** As many entries as all rows have are all rows. */
  lemma AllRows(levels: seq<Channel>, points: nat, q: nat)
    requires forall ch :: 0 <= ch < |levels| ==> points <= |levels[ch]|
    requires levels != [] && q <= points
    requires Stride(points, |levels|) <= Stride(q, |levels|)
    ensures q == points
  {
    if q < points {
      StrideMonotone(q + 1, points, |levels|);
      assert false;
    }
  }

  /** The tile loop of `overwrite_samples_from_buffer`. */
  method WriteTiles(planar: Planar, sampleRate: nat, padded: Sample, startIndex: nat, samplesLength: nat)
    returns (r: Sample, ghost rows: Sample)
    requires sampleRate > 0 && |planar| > 0
    requires samplesLength == Stride(BlockPoints(planar, sampleRate, TOP), |planar|)
    requires startIndex + samplesLength <= |padded|
    ensures rows == Block(planar, sampleRate, TOP)
    ensures IsWritten(r, padded, startIndex, rows)
  {
    ghost var points := BlockPoints(planar, sampleRate, TOP);
    ghost var levels := LevelsOf(planar, sampleRate, TOP);
    ghost var q: nat := 0;
    rows := [];
    r := padded;
    var i := 0;
    while i < samplesLength
      invariant q <= points && rows == Interleave(levels, q)
      invariant i == |rows| <= samplesLength
      invariant IsWritten(r, padded, startIndex, rows)
      decreases samplesLength - i
    {
      var summary := TileSummary(planar, sampleRate, i, q);
      NextRow(levels, points, q, rows, summary);
      r := WriteRow(r, startIndex + i, summary, padded, startIndex, rows);
      i := i + |planar|;
      q := q + 1;
      rows := rows + summary;
    }
    AllRows(levels, points, q);
    assert rows == Block(planar, sampleRate, TOP);
  }

  /** `overwrite_samples_from_buffer`: the finest level. */
  method OverwriteSamplesFromBuffer(planar: Planar, sampleRate: nat, start: Rational, channels: nat, data: Sample)
    returns (r: Sample, startIndex: nat, samplesLength: nat)
    requires sampleRate > 0 && |planar| == channels > 0
    ensures startIndex == TimeToSamples(start, TOP, channels)
    ensures samplesLength == |Block(planar, sampleRate, TOP)|
    ensures r == Overlay(data, startIndex, Block(planar, sampleRate, TOP))
  {
    startIndex := SampleIndex(start, TOP, channels);
    samplesLength := SampleIndex(Duration(planar, sampleRate), TOP, channels);
    r := PadTo(data, startIndex + samplesLength);
    ghost var rows;
    r, rows := WriteTiles(planar, sampleRate, r, startIndex, samplesLength);
  }

  /** One point per plane over tile `q` is row `q` of the finest level. */
  lemma TopRow(planar: Planar, sampleRate: nat, q: nat, summary: Sample)
    requires sampleRate > 0 && |planar| > 0 && q < BlockPoints(planar, sampleRate, TOP)
    requires |summary| == |planar|
    requires forall ch :: 0 <= ch < |planar| ==> summary[ch] == WindowPeak(planar[ch],
      TileBound(q, Chunk(sampleRate), |planar|), TileBound(q + 1, Chunk(sampleRate), |planar|))
    ensures summary == Row(LevelsOf(planar, sampleRate, TOP), q)
  {
    var levels := LevelsOf(planar, sampleRate, TOP);
    forall ch | 0 <= ch < |planar| ensures summary[ch] == Row(levels, q)[ch] {
      RowAt(levels, q, ch);
      FirstLevelsAt(planar, sampleRate, TOP, |planar|, ch);
      TilePeakAt(planar[ch], WriteBounds(planar, sampleRate), q);
    }
  }

  // ----- coarser levels -----

  /** A store holds `block` from entry `start` on. */
  ghost predicate Holds(data: Sample, start: nat, block: Sample) {
    && start + |block| <= |data|
    && forall i :: 0 <= i < |block| ==> EntryOf(data, start + i) == block[i]
  }

  /** A store holds what was just written over it. */
  lemma OverlayHolds(data: Sample, start: nat, block: Sample)
    ensures Holds(Overlay(data, start, block), start, block)
  {
    forall i | 0 <= i < |block| ensures EntryOf(Overlay(data, start, block), start + i) == block[i] {
      OverlayAt(data, start, block, start + i);
    }
  }

  lemma HoldsPoint(data: Sample, start: nat, block: Sample, channels: seq<Channel>, points: nat, p: nat, ch: nat,
                   at: nat)
    requires forall c :: 0 <= c < |channels| ==> points <= |channels[c]|
    requires block == Interleave(channels, points) && Holds(data, start, block)
    requires p < points && ch < |channels| && at == start + Stride(p, |channels|)
    ensures at + |channels| <= |data|
    ensures data[at + ch] == channels[ch][p]
  {
    InterleaveAt(channels, points, p, |channels| - 1);
    InterleaveAt(channels, points, p, ch);
    var i := Stride(p, |channels|) + ch;
    assert EntryOf(data, start + i) == block[i];
  }

  /** Two neighbouring points merged are one point of the next coarser level. */
  lemma MergedPair(data: Sample, start: nat, block: Sample, finer: seq<Channel>, points: nat, q: nat, ch: nat,
                   from: nat)
    requires forall c :: 0 <= c < |finer| ==> points <= |finer[c]|
    requires block == Interleave(finer, points) && Holds(data, start, block)
    requires 2 * q + 1 < points && ch < |finer| && from == start + Stride(2 * q, |finer|)
    ensures MergedPoint(data, from, 2 * |finer|, |finer|, ch) == Join(finer[ch][2 * q], finer[ch][2 * q + 1])
  {
    assert Stride(2 * q + 1, |finer|) == Stride(2 * q, |finer|) + |finer|;
    HoldsPoint(data, start, block, finer, points, 2 * q, ch, from);
    HoldsPoint(data, start, block, finer, points, 2 * q + 1, ch, from + |finer|);
    TwoGroups(data, from, |finer|, ch);
  }

  lemma TwoGroups(data: Sample, from: nat, c: nat, ch: nat)
    requires ch < c && from + 2 * c <= |data|
    ensures MergedPoint(data, from, 2 * c, c, ch) == Join(data[from + ch], data[from + c + ch])
  {
    assert Groups(c, c) == 1;
    assert Groups(2 * c, c) == 2;
    assert Stride(1, c) == c;
    assert JoinPoints(data, from, c, ch, 1, data[from + ch]) == data[from + ch];
  }

  /** `levels` are the channels `finer`, one level coarser. */
  ghost predicate OneCoarser(levels: seq<Channel>, finer: seq<Channel>, points: nat) {
    && |levels| == |finer|
    && (forall ch :: 0 <= ch < |levels| ==> points / 2 <= |levels[ch]|)
    && forall ch {:trigger Halve(finer[ch])} :: 0 <= ch < |finer| ==> levels[ch] == Halve(finer[ch])
  }

  lemma CoarserIsOneCoarser(finer: seq<Channel>, points: nat)
    requires forall ch :: 0 <= ch < |finer| ==> points <= |finer[ch]|
    ensures OneCoarser(Coarser(finer), finer, points)
  {
    forall ch | 0 <= ch < |finer| ensures Coarser(finer)[ch] == Halve(finer[ch]) {
      CoarserAt(finer, ch);
    }
  }

  lemma MergedRow(data: Sample, start: nat, block: Sample, levels: seq<Channel>, finer: seq<Channel>, points: nat,
                  q: nat, from: nat)
    requires forall c :: 0 <= c < |finer| ==> points <= |finer[c]|
    requires block == Interleave(finer, points) && Holds(data, start, block)
    requires q < points / 2 && OneCoarser(levels, finer, points)
    requires from == start + Stride(2 * q, |finer|)
    ensures Merged(data, from, 2 * |finer|, |finer|) == Row(levels, q)
  {
    forall ch | 0 <= ch < |finer|
      ensures MergedPoint(data, from, 2 * |finer|, |finer|, ch) == Row(levels, q)[ch]
    {
      MergedPair(data, start, block, finer, points, q, ch, from);
      CoarserPoint(levels, finer, points, q, ch);
      RowAt(levels, q, ch);
    }
  }

  lemma CoarserPoint(levels: seq<Channel>, finer: seq<Channel>, points: nat, q: nat, ch: nat)
    requires OneCoarser(levels, finer, points) && ch < |finer|
    requires q < points / 2 && points <= |finer[ch]|
    ensures levels[ch][q] == Join(finer[ch][2 * q], finer[ch][2 * q + 1])
  {
    HalveAt(finer[ch], q);
  }

  /** The input points under the output point at entry `i`, merged. */
  method MergedSummary(input: Sample, inputStart: nat, i: nat, chunkSize: nat, channels: nat, ghost block: Sample,
                       ghost levels: seq<Channel>, ghost finer: seq<Channel>, ghost points: nat, ghost q: nat)
    returns (summary: Sample)
    requires chunkSize == 2 && |finer| == channels > 0
    requires forall c :: 0 <= c < |finer| ==> points <= |finer[c]|
    requires block == Interleave(finer, points) && Holds(input, inputStart, block)
    requires OneCoarser(levels, finer, points)
    requires i == Stride(q, channels) && q < points / 2
    ensures summary == Row(levels, q)
  {
    InputPosition(i, q, channels, points);
    summary := ReSumSamples(input, inputStart + i * chunkSize, chunkSize * channels, channels);
    MergedRow(input, inputStart, block, levels, finer, points, q, inputStart + i * 2);
  }

  lemma InputPosition(i: nat, q: nat, channels: nat, points: nat)
    requires i == Stride(q, channels) && q < points / 2
    ensures i * 2 == Stride(2 * q, channels) <= Stride(points, channels)
  {
    StridePlus(q, q, channels);
    assert q + q == 2 * q;
    StrideMonotone(2 * q, points, channels);
  }

  /** Input points to an output point: the rates double from level to level. */
  method RateRatio(level: nat) returns (ratio: nat)
    ensures ratio == 2
  {
    DoubleRatio(Rate(level));
    ratio := (Rate(level + 1) / Rate(level)).Floor;
  }

  lemma DoubleRatio(x: real)
    requires x > 0.0
    ensures 2.0 * x / x == 2.0
  {
  }

  /** The point loop of `overwrite_samples_from_mipmap`. */
  method WriteMerged(input: Sample, inputStart: nat, level: nat, padded: Sample, startIndex: nat, samplesLength: nat,
                     channels: nat, ghost block: Sample, ghost levels: seq<Channel>, ghost finer: seq<Channel>,
                     ghost points: nat, ghost half: nat)
    returns (r: Sample, ghost rows: Sample)
    requires |finer| == channels > 0 && half == points / 2
    requires forall c :: 0 <= c < |finer| ==> points <= |finer[c]|
    requires block == Interleave(finer, points) && Holds(input, inputStart, block)
    requires OneCoarser(levels, finer, points)
    requires samplesLength == Stride(half, channels)
    requires startIndex + samplesLength <= |padded|
    ensures rows == Interleave(levels, half)
    ensures IsWritten(r, padded, startIndex, rows)
  {
    var chunkSize := RateRatio(level);
    ghost var q: nat := 0;
    rows := [];
    r := padded;
    NothingWritten(padded, startIndex);
    var i := 0;
    while i < samplesLength
      invariant q <= half && rows == Interleave(levels, q)
      invariant i == |rows| <= samplesLength
      invariant IsWritten(r, padded, startIndex, rows)
      decreases samplesLength - i
    {
      r, rows := WriteMergedRow(input, inputStart, i, chunkSize, channels, block, levels, finer, points, half, q,
                                r, padded, startIndex, rows);
      i := i + channels;
      q := q + 1;
    }
    AllRows(levels, half, q);
  }

  /** One turn of the merging loop. */
  method WriteMergedRow(input: Sample, inputStart: nat, i: nat, chunkSize: nat, channels: nat, ghost block: Sample,
                        ghost levels: seq<Channel>, ghost finer: seq<Channel>, ghost points: nat, ghost half: nat,
                        ghost q: nat,
                        data: Sample, ghost padded: Sample, startIndex: nat, ghost rows: Sample)
    returns (r: Sample, ghost more: Sample)
    requires chunkSize == 2 && |finer| == channels > 0 && half == points / 2
    requires forall c :: 0 <= c < |finer| ==> points <= |finer[c]|
    requires block == Interleave(finer, points) && Holds(input, inputStart, block) && OneCoarser(levels, finer, points)
    requires i == |rows| < Stride(half, channels) && startIndex + Stride(half, channels) <= |padded|
    requires q <= half && rows == Interleave(levels, q) && IsWritten(data, padded, startIndex, rows)
    ensures q < half && more == Interleave(levels, q + 1) && |more| == i + channels <= Stride(half, channels)
    ensures IsWritten(r, padded, startIndex, more)
  {
    if q == half { assert false; }
    var summary := MergedSummary(input, inputStart, i, chunkSize, channels, block, levels, finer, points, q);
    NextRow(levels, half, q, rows, summary);
    r := WriteRow(data, startIndex + i, summary, padded, startIndex, rows);
    more := rows + summary;
  }

  /** Points of the next coarser level: the duration of the input, at half its rate. */
  method OutputLength(inputLength: nat, level: nat, channels: nat, ghost points: nat) returns (length: nat)
    requires channels > 0 && inputLength == Stride(points, channels)
    ensures length == Stride(points / 2, channels)
  {
    QuotientIsDivision(inputLength, channels);
    DivisionOfStride(points, 0, channels);
    var inputPoints := inputLength / channels;
    assert inputPoints == points;
    var rate := Rate(level + 1);
    DurationOfPoints(points, level, rate);
    length := SampleIndex(Of(inputPoints as real / rate), level, channels);
  }

  lemma DurationOfPoints(points: nat, level: nat, rate: real)
    requires rate == Rate(level + 1)
    ensures PointIndex(Of(points as real / rate), level) == points / 2
  {
    var seconds := points as real / rate;
    AtRateIsProduct(seconds, level + 1);
    assert seconds * rate == points as real;
    PointIndexHalves(Of(seconds), level);
  }

  /** A level has half the points of the next finer one, and each of its channels is that one's, halved. */
  lemma FinerLevels(planar: Planar, sampleRate: nat, level: nat, finerLevel: nat)
    requires level < TOP && finerLevel == level + 1 && sampleRate > 0 && |planar| > 0
    ensures BlockPoints(planar, sampleRate, level) == BlockPoints(planar, sampleRate, finerLevel) / 2
    ensures |LevelsOf(planar, sampleRate, finerLevel)| == |planar|
    ensures OneCoarser(LevelsOf(planar, sampleRate, level), LevelsOf(planar, sampleRate, finerLevel),
                       BlockPoints(planar, sampleRate, finerLevel))
  {
    PointIndexHalves(Duration(planar, sampleRate), level);
    FirstLevelsFromFiner(planar, sampleRate, level, |planar|);
    CoarserIsOneCoarser(LevelsOf(planar, sampleRate, finerLevel), BlockPoints(planar, sampleRate, finerLevel));
  }

  /** `overwrite_samples_from_mipmap`: one level from the level below it. */
  method OverwriteSamplesFromMipmap(input: Sample, level: nat, start: Rational, channels: nat, data: Sample,
                                    inputStart: nat, inputLength: nat, ghost planar: Planar, ghost sampleRate: nat,
                                    ghost finerLevel: nat)
    returns (r: Sample, startIndex: nat, samplesLength: nat)
    requires level < TOP && finerLevel == level + 1 && sampleRate > 0 && |planar| == channels > 0
    requires Holds(input, inputStart, Block(planar, sampleRate, finerLevel))
    requires inputLength == |Block(planar, sampleRate, finerLevel)|
    ensures startIndex == TimeToSamples(start, level, channels)
    ensures samplesLength == |Block(planar, sampleRate, level)|
    ensures r == Overlay(data, startIndex, Block(planar, sampleRate, level))
  {
    ghost var block, levels := Block(planar, sampleRate, finerLevel), LevelsOf(planar, sampleRate, level);
    ghost var finer, points := LevelsOf(planar, sampleRate, finerLevel), BlockPoints(planar, sampleRate, finerLevel);
    FinerLevels(planar, sampleRate, level, finerLevel);
    startIndex := SampleIndex(start, level, channels);
    samplesLength := OutputLength(inputLength, level, channels, points);
    r := PadTo(data, startIndex + samplesLength);
    ghost var rows;
    r, rows := WriteMerged(input, inputStart, level, r, startIndex, samplesLength, channels, block, levels, finer,
        points, points / 2);
    assert rows == Block(planar, sampleRate, level);
    WrittenIsOverlay(r, data, startIndex, rows);
  }

  lemma WrittenIsOverlay(r: Sample, data: Sample, start: nat, rows: Sample)
    requires IsWritten(r, PadTo(data, start + |rows|), start, rows)
    ensures r == Overlay(data, start, rows)
  {
  }

  // ----- the store -----

  /** One level of `trim_in`. */
  method ChopOrPrepend(data: Sample, chop: nat, negative: bool) returns (r: Sample)
    ensures r == if chop == 0 then data else if !negative then data[if chop < |data| then chop else |data|..]
      else Silence(chop) + data
  {
    r := data;
    if chop != 0 {
      if !negative {
        r := data[if chop < |data| then chop else |data|..];
      } else {
        r := Silence(chop) + data;
      }
    }
  }

  /** The levels from `k` on have been written, the coarser ones not yet. */
  ghost predicate WrittenDownTo(r: seq<Sample>, levels: seq<Sample>, planar: Planar, sampleRate: nat,
                                relStart: Rational, k: nat)
    requires sampleRate > 0 && |planar| > 0 && |levels| == TOP + 1 && k <= TOP
  {
    && |r| == TOP + 1 && (forall j :: 0 <= j < k ==> r[j] == levels[j])
    && forall j :: k <= j <= TOP ==>
      r[j] == Overlay(levels[j], TimeToSamples(relStart, j, |planar|), Block(planar, sampleRate, j))
  }

  lemma WrittenFurther(r: seq<Sample>, levels: seq<Sample>, planar: Planar, sampleRate: nat, relStart: Rational,
                       k: nat, data: Sample)
    requires sampleRate > 0 && |planar| > 0 && |levels| == TOP + 1 && k < TOP
    requires WrittenDownTo(r, levels, planar, sampleRate, relStart, k + 1)
    requires data == Overlay(levels[k], TimeToSamples(relStart, k, |planar|), Block(planar, sampleRate, k))
    ensures WrittenDownTo(r[k := data], levels, planar, sampleRate, relStart, k)
  {
  }

  /**
   * The level loop of `overwrite_samples`: the finest level from the samples, every other level from the one below it.
   */
  /** One coarser level, from the next finer one. */
  method WriteNextLevel(before: seq<Sample>, levels: seq<Sample>, planar: Planar, sampleRate: nat,
                        relStart: Rational, k: nat, finerStart: nat, finerLength: nat, ghost finerLevel: nat)
    returns (r: seq<Sample>, inputStart: nat, inputLength: nat)
    requires sampleRate > 0 && |planar| > 0 && |levels| == TOP + 1 && k < TOP && finerLevel == k + 1
    requires WrittenDownTo(before, levels, planar, sampleRate, relStart, k + 1)
    requires finerLength == |Block(planar, sampleRate, finerLevel)|
    requires Holds(before[finerLevel], finerStart, Block(planar, sampleRate, finerLevel))
    ensures WrittenDownTo(r, levels, planar, sampleRate, relStart, k)
    ensures inputLength == |Block(planar, sampleRate, k)| && Holds(r[k], inputStart, Block(planar, sampleRate, k))
  {
    var data;
    data, inputStart, inputLength := OverwriteSamplesFromMipmap(
      before[k + 1], k, relStart, |planar|, before[k], finerStart, finerLength, planar, sampleRate, finerLevel);
    OverlayHolds(before[k], inputStart, Block(planar, sampleRate, k));
    WrittenFurther(before, levels, planar, sampleRate, relStart, k, data);
    r := before[k := data];
  }

  method WriteLevels(levels: seq<Sample>, planar: Planar, sampleRate: nat, relStart: Rational) returns (r: seq<Sample>)
    requires |levels| == TOP + 1 && sampleRate > 0 && |planar| > 0
    ensures |r| == TOP + 1
    ensures forall j :: 0 <= j <= TOP ==>
      r[j] == Overlay(levels[j], TimeToSamples(relStart, j, |planar|), Block(planar, sampleRate, j))
  {
    var data, inputStart, inputLength := OverwriteSamplesFromBuffer(planar, sampleRate, relStart, |planar|,
        levels[TOP]);
    r := levels[TOP := data];
    OverlayHolds(levels[TOP], inputStart, Block(planar, sampleRate, TOP));
    var k: nat := TOP;
    while k > 0
      invariant k <= TOP && WrittenDownTo(r, levels, planar, sampleRate, relStart, k)
      invariant inputLength == |Block(planar, sampleRate, k)|
      invariant Holds(r[k], inputStart, Block(planar, sampleRate, k))
    {
      k := k - 1;
      r, inputStart, inputLength := WriteNextLevel(r, levels, planar, sampleRate, relStart, k, inputStart,
          inputLength, k + 1);
    }
  }

  /** One level of `overwrite_silence`. */
  method SilenceLevel(data: Sample, level: nat, relStart: Rational, duration: Rational, channels: nat)
    returns (r: Sample)
    ensures r == SilencedLevel(data, level, channels, relStart, duration)
  {
    var from := SampleIndex(relStart, level, channels);
    var count := SampleIndex(duration, level, channels);
    var padded := PadTo(data, from + count);
    r := padded[..from] + Silence(count) + padded[from + count..];
  }

  /** A write seen from the state it validated: start, length and levels. */
  lemma WrittenIs(w: Wave, planar: Planar, sampleRate: nat, start: Rational, v: Wave, r: Wave)
    requires w.Full() && sampleRate > 0 && |planar| == w.channels > 0 && v == StartValidated(w, start)
    requires r.Full() && r.virtualStart == v.virtualStart && r.channels == v.channels
    requires r.length == v.length.MaxWith(start.Plus(Duration(planar, sampleRate)))
    requires forall k :: 0 <= k <= TOP ==>
      r.levels[k] == WrittenLevel(v, planar, sampleRate, start.Minus(v.virtualStart), k)
    ensures r == Written(w, planar, sampleRate, start)
  {
  }

  class AudioVisualWaveform {
    var virtualStart: Rational
    var channels: nat
    var length: Rational
    /** The source's map from rate to points; level `k` has rate `Rate(k)`. */
    var mipmappedData: seq<Sample>

    ghost predicate Valid()
      reads this
    {
      |mipmappedData| == TOP + 1
    }

    ghost function State(): Wave
      reads this
    {
      Wave(virtualStart, channels, length, mipmappedData)
    }

    /** An empty store with all levels allocated, the rates doubling from 1/8 to 1024. */
    constructor ()
      ensures Valid()
      ensures State() == Wave(Null, 0, Null, seq(TOP + 1, _ => []))
    {
      virtualStart, channels, length := Null, 0, Null;
      mipmappedData := [];
      new;
      var rate := 0.125;
      TopRate(1.0);
      while rate <= 1024.0
        invariant virtualStart == Null && channels == 0 && length == Null
        invariant |mipmappedData| <= TOP + 1 && rate == Rate(|mipmappedData|)
        invariant forall k :: 0 <= k < |mipmappedData| ==> mipmappedData[k] == []
        decreases TOP + 1 - |mipmappedData|
      {
        if |mipmappedData| == TOP + 1 { assert false; }
        mipmappedData := mipmappedData + [[]];
        rate := rate * 2.0;
      }
      if |mipmappedData| <= TOP { RateMonotone(|mipmappedData|, TOP); assert false; }
    }

    method SetChannelCount(count: nat)
      modifies this`channels
      ensures channels == count
    {
      channels := count;
    }

    /** `trim_in`. */
    method TrimIn(amount: Rational)
      requires Valid()
      modifies this
      ensures Valid() && State() == Trimmed(old(State()), amount)
    {
      if amount.IsNull() {
        return;
      }
      virtualStart := virtualStart.Plus(amount);
      var negative := amount.Less(Null) || (amount.Of? && amount.value < 0.0);
      var absLength := if negative then Null.Minus(amount) else amount;
      for k := 0 to |mipmappedData|
        invariant |mipmappedData| == TOP + 1
        invariant virtualStart == old(virtualStart).Plus(amount) && channels == old(channels) && length == old(length)
        invariant forall j :: 0 <= j < k ==>
          mipmappedData[j] == TrimmedLevel(old(mipmappedData)[j], j, channels, amount)
        invariant forall j :: k <= j < TOP + 1 ==> mipmappedData[j] == old(mipmappedData)[j]
      {
        var chop := SampleIndex(absLength, k, channels);
        var data := ChopOrPrepend(mipmappedData[k], chop, negative);
        mipmappedData := mipmappedData[k := data];
      }
      if !negative {
        length := Of(0.0).MaxWith(length.Minus(absLength));
      }
    }

    /** `validate_virtual_start`. */
    method ValidateVirtualStart(newStart: Rational)
      requires Valid()
      modifies this
      ensures Valid() && State() == StartValidated(old(State()), newStart)
    {
      if length.IsNull() {
        virtualStart := newStart;
      } else if newStart.Less(virtualStart) {
        TrimIn(newStart.Minus(virtualStart));
      }
    }

    /** `overwrite_samples`: the finest level from the samples, every other level from the one below it. */
    method OverwriteSamples(planar: Planar, sampleRate: nat, start: Rational)
      requires Valid() && sampleRate > 0 && |planar| == channels
      modifies this
      ensures Valid() && State() == Written(old(State()), planar, sampleRate, start)
    {
      if channels == 0 {
        return;
      }
      ghost var w := State();
      ValidateVirtualStart(start);
      mipmappedData := WriteLevels(mipmappedData, planar, sampleRate, start.Minus(virtualStart));
      length := length.MaxWith(start.Plus(Of(SampleCount(planar) as real / sampleRate as real)));
      WrittenIs(w, planar, sampleRate, start, StartValidated(w, start), State());
    }

    /** `overwrite_silence`. */
    method OverwriteSilence(start: Rational, duration: Rational)
      requires Valid()
      modifies this
      ensures Valid() && State() == Silenced(old(State()), start, duration)
    {
      ValidateVirtualStart(start);
      ghost var v := State();
      for k := 0 to |mipmappedData|
        invariant Valid()
        invariant virtualStart == v.virtualStart && channels == v.channels && length == v.length
        invariant forall j :: 0 <= j < k ==>
          mipmappedData[j] == SilencedLevel(v.levels[j], j, channels, start.Minus(virtualStart), duration)
        invariant forall j :: k <= j < TOP + 1 ==> mipmappedData[j] == v.levels[j]
      {
        var data := SilenceLevel(mipmappedData[k], k, start.Minus(virtualStart), duration, channels);
        mipmappedData := mipmappedData[k := data];
      }
      length := length.MaxWith(start.Plus(duration));
    }

    /** `resize`. */
    method Resize(newLength: Rational)
      requires Valid()
      modifies this
      ensures Valid() && State() == Resized(old(State()), newLength)
    {
      if length == newLength {
        return;
      }
      for k := 0 to |mipmappedData|
        invariant Valid()
        invariant virtualStart == old(virtualStart) && channels == old(channels) && length == old(length)
        invariant forall j :: 0 <= j < k ==>
          mipmappedData[j] == ResizedLevel(old(mipmappedData)[j], TimeToSamples(newLength, j, channels))
        invariant forall j :: k <= j < TOP + 1 ==> mipmappedData[j] == old(mipmappedData)[j]
      {
        var size := SampleIndex(newLength, k, channels);
        mipmappedData := mipmappedData[k := ResizedLevel(mipmappedData[k], size)];
      }
      length := newLength;
    }

    /** `trim_range`. */
    method TrimRange(from: Rational, newLength: Rational)
      requires Valid()
      modifies this
      ensures Valid() && State() == TrimmedRange(old(State()), from, newLength)
    {
      TrimIn(from);
      Resize(newLength);
    }

    /** `mid`: a trimmed copy; the store itself is left alone. */
    method Mid(offset: Rational, newLength: Rational) returns (mid: AudioVisualWaveform)
      requires Valid()
      ensures fresh(mid) && mid.Valid()
      ensures mid.State() == MidOf(State(), offset, newLength)
      ensures State() == old(State())
    {
      mid := new AudioVisualWaveform();
      mid.virtualStart, mid.channels, mid.length, mid.mipmappedData := virtualStart, channels, length, mipmappedData;
      mid.TrimRange(offset.Minus(virtualStart), newLength);
    }

    /** `get_mipmap_for_scale` for the reciprocal of a length. */
    method GetMipmapForScale(range: Rational) returns (level: nat)
      requires Valid()
      ensures level == LevelFor(range, 0)
    {
      level := 0;
      while level < TOP && !Covers(level, range)
        invariant level <= TOP
        invariant LevelFor(range, 0) == LevelFor(range, level)
      {
        level := level + 1;
      }
    }

    /** `get_summary_from_time`. */
    method GetSummaryFromTime(start: Rational, range: Rational) returns (summary: Sample)
      requires Valid()
      ensures summary == Query(State(), start, range)
    {
      var level := GetMipmapForScale(range);
      var data := mipmappedData[level];
      var startSample := SampleIndex(start.Minus(virtualStart), level, channels);
      var sampleLength := SampleIndex(range, level, channels);
      var available := |data| - startSample;
      if available > 0 {
        sampleLength := if sampleLength < available then sampleLength else available;
        if sampleLength > 0 {
          summary := ReSumSamples(data, startSample, sampleLength, channels);
          return;
        }
      }
      summary := Silence(channels);
    }
  }

  lemma {:induction false} RateMonotone(a: nat, b: nat)
    requires a <= b
    ensures Rate(a) <= Rate(b)
    decreases b - a
  {
    if a < b { RateMonotone(a, b - 1); }
  }
}
