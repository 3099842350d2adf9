/**
 * The streaming extractor of crates/oak-audio/src/waveform.rs: `append_pending`,
 * `emit_points` and the chunk loop of `extract`.
 */
module WaveformExtract {
  import opened Wrappers
  import opened Peaks
  import opened Strides
  import opened WaveformTiles

  /** Entries of channel `ch` among the first `n` interleaved samples. */
  function Column(s: seq<real>, channels: nat, ch: nat, n: nat): seq<real>
    requires channels > 0 && n <= |s|
  {
    if n == 0 then []
    else if Residue(n - 1, channels) == ch then Column(s, channels, ch, n - 1) + [s[n - 1]]
    else Column(s, channels, ch, n - 1)
  }

  lemma {:induction false} DivisionSuccessor(n: nat, d: nat)
    requires d > 0
    ensures if Residue(n, d) + 1 == d then Quotient(n + 1, d) == Quotient(n, d) + 1 && Residue(n + 1, d) == 0
            else Quotient(n + 1, d) == Quotient(n, d) && Residue(n + 1, d) == Residue(n, d) + 1
  {
    if n >= d { DivisionSuccessor(n - d, d); }
  }

  lemma {:induction false} ColumnLength(s: seq<real>, channels: nat, ch: nat, n: nat)
    requires ch < channels && n <= |s|
    ensures |Column(s, channels, ch, n)| == Quotient(n, channels) + if ch < Residue(n, channels) then 1 else 0
  {
    if n > 0 {
      ColumnLength(s, channels, ch, n - 1);
      DivisionSuccessor(n - 1, channels);
    }
  }

  /** A stream of whole frames has one sample per frame on every channel. */
  lemma ColumnOfFrames(s: seq<real>, channels: nat, ch: nat, frames: nat)
    requires ch < channels && |s| == Stride(frames, channels)
    ensures |Column(s, channels, ch, |s|)| == frames
  {
    ColumnLength(s, channels, ch, |s|);
    DivisionOfStride(frames, 0, channels);
  }

  /** Entry `f` of a channel is the channel's sample of frame `f`. */
  lemma {:induction false} ColumnAt(s: seq<real>, channels: nat, ch: nat, n: nat, f: nat)
    requires ch < channels && n <= |s| && Stride(f, channels) + ch < n
    ensures f < |Column(s, channels, ch, n)| && Column(s, channels, ch, n)[f] == s[Stride(f, channels) + ch]
  {
    if Stride(f, channels) + ch < n - 1 {
      ColumnAt(s, channels, ch, n - 1, f);
    } else {
      DivisionOfStride(f, ch, channels);
      ColumnLength(s, channels, ch, n - 1);
    }
  }

  /** A stream of whole frames, taken apart: channel `ch` holds entry `f * channels + ch` of every frame `f`. */
  lemma ChannelHoldsItsSamples(s: seq<real>, channels: nat, ch: nat, frames: nat, f: nat)
    requires ch < channels && |s| == frames * channels && f < frames
    ensures f * channels + ch < |s| && |Column(s, channels, ch, |s|)| == frames
    ensures Column(s, channels, ch, |s|)[f] == s[f * channels + ch]
  {
    StrideIsProduct(frames, channels);
    StrideIsProduct(f, channels);
    StrideMonotone(f + 1, frames, channels);
    ColumnAt(s, channels, ch, |s|, f);
    ColumnOfFrames(s, channels, ch, frames);
  }

  lemma {:induction false} ColumnOfPrefix(a: seq<real>, b: seq<real>, channels: nat, ch: nat, n: nat)
    requires channels > 0 && n <= |a|
    ensures Column(a + b, channels, ch, n) == Column(a, channels, ch, n)
  {
    if n > 0 { ColumnOfPrefix(a, b, channels, ch, n - 1); }
  }

  /** A chunk that starts on a frame boundary continues every channel. */
  lemma {:induction false} ColumnOfConcat(a: seq<real>, b: seq<real>, channels: nat, ch: nat, frames: nat, n: nat)
    requires channels > 0 && |a| == Stride(frames, channels) && n <= |b|
    ensures Column(a + b, channels, ch, |a| + n) == Column(a, channels, ch, |a|) + Column(b, channels, ch, n)
  {
    if n == 0 {
      ColumnOfPrefix(a, b, channels, ch, |a|);
    } else {
      ColumnOfConcat(a, b, channels, ch, frames, n - 1);
      ResidueOfShift(frames, n - 1, channels);
      assert |a| + n - 1 == |a| + (n - 1);
      assert (a + b)[|a| + n - 1] == b[n - 1];
    }
  }

  /** The first `count` channels of a stream. */
  function Planes(s: seq<real>, channels: nat, count: nat): (r: Planar)
    requires channels > 0
    ensures |r| == count
  {
    if count == 0 then [] else Planes(s, channels, count - 1) + [Column(s, channels, count - 1, |s|)]
  }

  lemma {:induction false} PlaneAt(s: seq<real>, channels: nat, count: nat, ch: nat)
    requires channels > 0 && ch < count
    ensures Planes(s, channels, count)[ch] == Column(s, channels, ch, |s|)
  {
    if ch < count - 1 { PlaneAt(s, channels, count - 1, ch); }
  }

  // ----- windows -----

  /** The pairs of the first `count` windows of `width` samples, the last one as far as the plane reaches. */
  function Windows(plane: seq<real>, width: nat, count: nat): (r: Channel)
    ensures |r| == count
  {
    if count == 0 then []
    else Windows(plane, width, count - 1) + [WindowPeak(plane, Stride(count - 1, width), Stride(count, width))]
  }

  lemma {:induction false} WindowAt(plane: seq<real>, width: nat, count: nat, p: nat)
    requires p < count
    ensures Windows(plane, width, count)[p] == WindowPeak(plane, Stride(p, width), Stride(p + 1, width))
  {
    if p < count - 1 { WindowAt(plane, width, count - 1, p); }
  }

  function AllWindows(planes: Planar, width: nat, count: nat): (r: seq<Channel>)
    ensures |r| == |planes|
    ensures forall ch :: 0 <= ch < |r| ==> |r[ch]| == count
  {
    if planes == [] then []
    else AllWindows(planes[..|planes| - 1], width, count) + [Windows(planes[|planes| - 1], width, count)]
  }

  lemma {:induction false} AllWindowsAt(planes: Planar, width: nat, count: nat, ch: nat)
    requires ch < |planes|
    ensures AllWindows(planes, width, count)[ch] == Windows(planes[ch], width, count)
  {
    if ch < |planes| - 1 { AllWindowsAt(planes[..|planes| - 1], width, count, ch); }
  }

  /** Windows of `n` samples: full ones only, or with a trailing partial one. */
  function WindowCount(n: nat, width: nat, flush: bool): nat
    requires width > 0
  {
    Quotient(n, width) + if flush && Residue(n, width) > 0 then 1 else 0
  }

  /** What a stream of planes extracts to: one point per window, channel-interleaved. */
  function PointsOf(planes: Planar, width: nat, count: nat): Sample {
    Interleave(AllWindows(planes, width, count), count)
  }

  /**
   * Every emitted point is the exact minimum and maximum of its window of the stream,
   * and the number of points after the flush is `n / width` rounded up.
   */
  lemma PointsAreExact(planes: Planar, width: nat, n: nat, p: nat, ch: nat)
    requires width > 0 && ch < |planes| && |planes[ch]| == n
    requires p < WindowCount(n, width, true)
    ensures WindowCount(n, width, true) == (n + width - 1) / width
    ensures Stride(p, |planes|) + ch < |PointsOf(planes, width, WindowCount(n, width, true))|
    ensures var end := if Stride(p + 1, width) < n then Stride(p + 1, width) else n;
      Stride(p, width) < end
      && IsPeakOf(PointsOf(planes, width, WindowCount(n, width, true))[Stride(p, |planes|) + ch],
                  planes[ch], Stride(p, width), end)
  {
    var count := WindowCount(n, width, true);
    CeilingDivision(n, width);
    WindowStartsInside(n, width, p);
    InterleaveAt(AllWindows(planes, width, count), count, p, ch);
    AllWindowsAt(planes, width, count, ch);
    WindowAt(planes[ch], width, count, p);
    PeakOfIsExact(planes[ch], Stride(p, width), if Stride(p + 1, width) < n then Stride(p + 1, width) else n);
  }

  lemma CeilingDivision(n: nat, width: nat)
    requires width > 0
    ensures WindowCount(n, width, true) == (n + width - 1) / width
  {
    QuotientIsDivision(n + width - 1, width);
    DivisionSplits(n, width);
    var q, r := Quotient(n, width), Residue(n, width);
    if r == 0 {
      DivisionOfStride(q, width - 1, width);
    } else {
      assert Stride(q + 1, width) == Stride(q, width) + width;
      DivisionOfStride(q + 1, r - 1, width);
    }
  }

  lemma WindowStartsInside(n: nat, width: nat, p: nat)
    requires width > 0 && p < WindowCount(n, width, true)
    ensures Stride(p, width) < n
  {
    DivisionSplits(n, width);
    if p < Quotient(n, width) {
      StrideMonotone(p + 1, Quotient(n, width), width);
    }
  }

  // ----- the source's loops -----

  /** `append_pending`: the interleaved samples of a chunk, distributed over the planes. */
  method AppendPending(pending: Planar, interleaved: seq<real>, channels: nat) returns (r: Planar)
    requires channels > 0 && (pending == [] || |pending| == channels)
    ensures |r| == channels
    ensures forall ch :: 0 <= ch < channels ==>
      r[ch] == (if pending == [] then [] else pending[ch]) + Column(interleaved, channels, ch, |interleaved|)
  {
    ghost var before := seq(channels, ch requires 0 <= ch < channels => if pending == [] then [] else pending[ch]);
    r := pending;
    if |r| == 0 {
      r := seq(channels, _ => []);
    }
    var i := 0;
    while i < |interleaved|
      invariant i <= |interleaved| && |r| == channels
      invariant forall ch :: 0 <= ch < channels ==> r[ch] == before[ch] + Column(interleaved, channels, ch, i)
    {
      QuotientIsDivision(i, channels);
      var ch := i % channels;
      r := r[ch := r[ch] + [interleaved[i]]];
      i := i + 1;
    }
  }

  /** One pass of the loop in `emit_points`: the first `n` samples of every plane become one point. */
  method EmitPoint(pending: Planar, n: nat, points: Sample, ghost p: nat)
    returns (r: Planar, out: Sample, ghost row: Sample)
    requires n > 0 && forall ch :: 0 <= ch < |pending| ==> n <= |pending[ch]|
    requires |pending| > 0 && |points| == Stride(p, |pending|)
    ensures |r| == |pending| && forall ch :: 0 <= ch < |r| ==> Suffix(pending[ch], r[ch], n)
    ensures out == points + row && |row| == |pending|
    ensures forall ch :: 0 <= ch < |pending| ==> row[ch] == PeakOf(pending[ch], 0, n)
  {
    var channels := |pending|;
    var point := |points| / channels;
    QuotientIsDivision(|points|, channels);
    DivisionOfStride(p, 0, channels);
    StrideIsProduct(p, channels);
    r, out := pending, points + Silence(channels);
    for ch := 0 to channels
      invariant |r| == channels && |out| == |points| + channels && out[..|points|] == points
      invariant forall c :: 0 <= c < ch ==> r[c] == pending[c][n..] && out[|points| + c] == PeakOf(pending[c], 0, n)
      invariant forall c :: ch <= c < channels ==> r[c] == pending[c]
    {
      var peak := PlanePeak(r[ch], n);
      out := WriteEntry(out, point * channels + ch, peak, points);
      r := r[ch := r[ch][n..]];
    }
    row := out[|points|..];
  }

  method PlanePeak(plane: seq<real>, n: nat) returns (peak: SamplePerChannel)
    requires 0 < n <= |plane|
    ensures peak == PeakOf(plane, 0, n)
  {
    var mn, mx := plane[0], plane[0];
    for i := 1 to n
      invariant SamplePerChannel(mn, mx) == PeakOf(plane, 0, i)
    {
      mn := if plane[i] < mn then plane[i] else mn;
      mx := if plane[i] > mx then plane[i] else mx;
    }
    peak := SamplePerChannel(mn, mx);
  }

  method WriteEntry(data: Sample, at: nat, entry: SamplePerChannel, ghost before: Sample) returns (r: Sample)
    requires |before| <= at < |data| && data[..|before|] == before
    ensures r == data[at := entry] && r[..|before|] == before
  {
    r := data[at := entry];
    assert r[..|before|] == data[..|before|];
  }

  /** What is left of a plane when its first `n` samples are gone. */
  ghost predicate Suffix(plane: seq<real>, pending: seq<real>, n: nat) {
    |plane| == n + |pending| && forall i :: 0 <= i < |pending| ==> pending[i] == plane[i + n]
  }

  /** The planes with their first `n` samples gone. */
  ghost predicate Drained(planes: Planar, pending: Planar, n: nat) {
    |planes| == |pending| && forall ch :: 0 <= ch < |planes| ==> Suffix(planes[ch], pending[ch], n)
  }

  ghost predicate AllOf(planes: Planar, n: nat) {
    forall ch :: 0 <= ch < |planes| ==> |planes[ch]| == n
  }

  /** The row that a pass emits is the next window of every plane. */
  lemma NextWindow(planes: Planar, pending: Planar, width: nat, k: nat, total: nat, n: nat, row: Sample)
    requires width > 0 && planes != [] && AllOf(planes, total) && Stride(k, width) < total
    requires Drained(planes, pending, Stride(k, width))
    requires n == if total - Stride(k, width) < width then total - Stride(k, width) else width
    requires |row| == |planes| && forall ch :: 0 <= ch < |planes| ==> row[ch] == PeakOf(pending[ch], 0, n)
    ensures PointsOf(planes, width, k + 1) == PointsOf(planes, width, k) + row
  {
    var next := Row(AllWindows(planes, width, k + 1), k);
    forall ch | 0 <= ch < |planes| ensures row[ch] == next[ch] {
      assert Suffix(planes[ch], pending[ch], Stride(k, width));
      SuffixPeak(planes[ch], pending[ch], Stride(k, width), n, Stride(k, width) + n);
      NextEntry(planes, width, k, Stride(k, width), Stride(k, width) + n, ch);
    }
    assert row == next;
    EarlierWindows(planes, width, k);
  }

  lemma NextEntry(planes: Planar, width: nat, k: nat, from: nat, to: nat, ch: nat)
    requires width > 0 && ch < |planes| && from == Stride(k, width) < |planes[ch]|
    requires to == if |planes[ch]| - from < width then |planes[ch]| else from + width
    ensures Row(AllWindows(planes, width, k + 1), k)[ch] == PeakOf(planes[ch], from, to)
  {
    RowOfWindows(planes, width, k + 1, k, ch);
    NextPeak(planes[ch], width, k, from, to);
  }

  lemma RowOfWindows(planes: Planar, width: nat, count: nat, k: nat, ch: nat)
    requires ch < |planes| && k < count
    ensures Row(AllWindows(planes, width, count), k)[ch] == Windows(planes[ch], width, count)[k]
  {
    RowAt(AllWindows(planes, width, count), k, ch);
    AllWindowsAt(planes, width, count, ch);
  }

  lemma NextPeak(plane: seq<real>, width: nat, k: nat, from: nat, to: nat)
    requires width > 0 && from == Stride(k, width) < |plane|
    requires to == if |plane| - from < width then |plane| else from + width
    ensures Windows(plane, width, k + 1)[k] == PeakOf(plane, from, to)
  {
    WindowAt(plane, width, k + 1, k);
  }

  lemma SuffixPeak(plane: seq<real>, pending: seq<real>, from: nat, n: nat, to: nat)
    requires Suffix(plane, pending, from) && n <= |pending| && to == from + n
    ensures PeakOf(pending, 0, n) == PeakOf(plane, from, to)
  {
    PeakOfShifted(pending, plane, 0, n, from);
  }

  lemma DrainMore(planes: Planar, pending: Planar, r: Planar, from: nat, n: nat)
    requires Drained(planes, pending, from) && |r| == |pending|
    requires forall ch :: 0 <= ch < |r| ==> Suffix(pending[ch], r[ch], n)
    ensures Drained(planes, r, from + n)
  {
    forall ch | 0 <= ch < |r| ensures Suffix(planes[ch], r[ch], from + n) {
      assert Suffix(planes[ch], pending[ch], from) && Suffix(pending[ch], r[ch], n);
      forall i | 0 <= i < |r[ch]| ensures r[ch][i] == planes[ch][i + (from + n)] {
        assert r[ch][i] == pending[ch][i + n];
      }
    }
  }

  lemma EarlierWindows(planes: Planar, width: nat, k: nat)
    ensures Interleave(AllWindows(planes, width, k + 1), k) == Interleave(AllWindows(planes, width, k), k)
  {
    forall ch | 0 <= ch < |planes| ensures AllWindows(planes, width, k)[ch] <= AllWindows(planes, width, k + 1)[ch] {
      AllWindowsAt(planes, width, k, ch);
      AllWindowsAt(planes, width, k + 1, ch);
    }
    InterleavePrefix(AllWindows(planes, width, k), AllWindows(planes, width, k + 1), k);
  }

  /** A pass of `emit_points` over planes of which the first `gone` samples were emitted as `k` points. */
  method EmitNext(pending: Planar, width: nat, points: Sample, ghost planes: Planar, ghost before: Sample,
                  ghost total: nat, ghost p: nat, ghost k: nat)
    returns (r: Planar, out: Sample)
    requires width > 0 && planes != [] && AllOf(planes, total) && Stride(k, width) < total
    requires Drained(planes, pending, Stride(k, width)) && |before| == Stride(p, |planes|)
    requires points == before + PointsOf(planes, width, k)
    ensures var gone := if Stride(k + 1, width) < total then Stride(k + 1, width) else total;
      Drained(planes, r, gone)
    ensures out == before + PointsOf(planes, width, k + 1)
  {
    var available := |pending[0]|;
    var n := if available < width then available else width;
    assert |points| == Stride(p + k, |pending|) by { StridePlus(p, k, |pending|); }
    ghost var row;
    r, out, row := EmitPoint(pending, n, points, p + k);
    DrainMore(planes, pending, r, Stride(k, width), n);
    NextWindow(planes, pending, width, k, total, n, row);
    RowJoins(before, PointsOf(planes, width, k), row);
  }

  lemma RowJoins(before: Sample, points: Sample, row: Sample)
    ensures (before + points) + row == before + (points + row)
  {
  }

  /** `emit_points`: every window the pending samples fill, and with `flush` the partial one left over. */
  method EmitPoints(pending: Planar, width: nat, points: Sample, flush: bool, ghost total: nat, ghost p: nat)
    returns (r: Planar, out: Sample)
    requires width > 0 && AllOf(pending, total) && |points| == Stride(p, |pending|)
    ensures pending == [] ==> r == [] && out == points
    ensures pending != [] ==>
      var count := WindowCount(total, width, flush);
      && out == points + PointsOf(pending, width, count)
      && Drained(pending, r, if Stride(count, width) < total then Stride(count, width) else total)
  {
    r, out := pending, points;
    if |pending| == 0 {
      return;
    }
    ghost var k: nat := 0;
    while |r[0]| != 0 && (flush || |r[0]| >= width)
      invariant k <= WindowCount(total, width, flush)
      invariant Drained(pending, r, if Stride(k, width) < total then Stride(k, width) else total)
      invariant out == points + PointsOf(pending, width, k)
      decreases |r[0]|
    {
      MoreWindows(total, width, flush, k);
      r, out := EmitNext(r, width, out, pending, points, total, p, k);
      k := k + 1;
    }
    NoMoreWindows(total, width, flush, k);
  }

  lemma MoreWindows(total: nat, width: nat, flush: bool, k: nat)
    requires width > 0 && Stride(k, width) < total && (flush || total - Stride(k, width) >= width)
    ensures k + 1 <= WindowCount(total, width, flush)
  {
    DivisionSplits(total, width);
    if Quotient(total, width) < k {
      StrideMonotone(Quotient(total, width) + 1, k, width);
    }
  }

  lemma NoMoreWindows(total: nat, width: nat, flush: bool, k: nat)
    requires width > 0 && k <= WindowCount(total, width, flush)
    requires total <= Stride(k, width) || (!flush && total - Stride(k, width) < width)
    ensures k == WindowCount(total, width, flush)
  {
    DivisionSplits(total, width);
    if k < Quotient(total, width) {
      StrideMonotone(k + 1, Quotient(total, width), width);
    }
  }

  // ----- chunk after chunk -----

  lemma SuffixWindow(plane: seq<real>, pending: seq<real>, start: nat, from: nat, to: nat)
    requires Suffix(plane, pending, start)
    ensures WindowPeak(plane, start + from, start + to) == WindowPeak(pending, from, to)
  {
    var end := if to < |pending| then to else |pending|;
    PeakOfShifted(pending, plane, from, end, start);
    assert from + start == start + from && end + start == start + end;
  }

  /** The windows of a plane are those already emitted and those of what is left. */
  lemma {:induction false} WindowsSplit(plane: seq<real>, pending: seq<real>, width: nat, e: nat, count: nat)
    requires Suffix(plane, pending, Stride(e, width))
    ensures Windows(plane, width, e + count) == Windows(plane, width, e) + Windows(pending, width, count)
  {
    if count > 0 {
      WindowsSplit(plane, pending, width, e, count - 1);
      SuffixWindow(plane, pending, Stride(e, width), Stride(count - 1, width), Stride(count, width));
      StridePlus(e, count - 1, width);
      StridePlus(e, count, width);
    }
  }

  lemma PointsSplit(planes: Planar, pending: Planar, width: nat, e: nat, count: nat)
    requires Drained(planes, pending, Stride(e, width))
    ensures PointsOf(planes, width, e + count) == PointsOf(planes, width, e) + PointsOf(pending, width, count)
  {
    var x, y, z := AllWindows(planes, width, e), AllWindows(pending, width, count),
        AllWindows(planes, width, e + count);
    forall ch | 0 <= ch < |planes| ensures z[ch] == x[ch] + y[ch] {
      AllWindowsAt(planes, width, e, ch);
      AllWindowsAt(pending, width, count, ch);
      AllWindowsAt(planes, width, e + count, ch);
      WindowsSplit(planes[ch], pending[ch], width, e, count);
    }
    InterleaveConcat(x, y, z, e, count);
  }

  lemma WindowOfPrefix(a: seq<real>, b: seq<real>, from: nat, to: nat)
    requires a <= b && to <= |a|
    ensures WindowPeak(a, from, to) == WindowPeak(b, from, to)
  {
    PeakOfShifted(a, b, from, to, 0);
  }

  lemma {:induction false} WindowsOfPrefix(a: seq<real>, b: seq<real>, width: nat, count: nat)
    requires a <= b && Stride(count, width) <= |a|
    ensures Windows(a, width, count) == Windows(b, width, count)
  {
    if count > 0 {
      WindowsOfPrefix(a, b, width, count - 1);
      WindowOfPrefix(a, b, Stride(count - 1, width), Stride(count, width));
    }
  }

  lemma {:induction false} AllWindowsOfPrefix(a: Planar, b: Planar, width: nat, count: nat)
    requires |a| == |b| && forall ch :: 0 <= ch < |a| ==> a[ch] <= b[ch] && Stride(count, width) <= |a[ch]|
    ensures AllWindows(a, width, count) == AllWindows(b, width, count)
  {
    if a != [] {
      var last := |a| - 1;
      AllWindowsOfPrefix(a[..last], b[..last], width, count);
      WindowsOfPrefix(a[last], b[last], width, count);
    }
  }

  /** What the extractor has when `frames` frames of `s` have come in: full windows emitted, the rest pending. */
  ghost predicate Streamed(s: seq<real>, frames: nat, channels: nat, width: nat, pending: Planar, points: Sample)
    requires channels > 0 && width > 0
  {
    && |s| == Stride(frames, channels)
    && points == PointsOf(Planes(s, channels, channels), width, Quotient(frames, width))
    && if pending == [] then frames == 0
       else Drained(Planes(s, channels, channels), pending, Stride(Quotient(frames, width), width))
  }

  lemma PlanesOfFrames(s: seq<real>, channels: nat, frames: nat)
    requires channels > 0 && |s| == Stride(frames, channels)
    ensures AllOf(Planes(s, channels, channels), frames)
  {
    forall ch | 0 <= ch < channels ensures |Planes(s, channels, channels)[ch]| == frames {
      PlaneAt(s, channels, channels, ch);
      ColumnOfFrames(s, channels, ch, frames);
    }
  }

  /** Between chunks every plane keeps fewer than `width` pending samples. */
  lemma PendingStaysShort(s: seq<real>, frames: nat, channels: nat, width: nat, pending: Planar, points: Sample,
                          ch: nat)
    requires channels > 0 && width > 0 && Streamed(s, frames, channels, width, pending, points) && ch < |pending|
    ensures |pending[ch]| == frames % width
  {
    PlanesOfFrames(s, channels, frames);
    DivisionSplits(frames, width);
    QuotientIsDivision(frames, width);
    assert Suffix(Planes(s, channels, channels)[ch], pending[ch], Stride(Quotient(frames, width), width));
  }

  lemma PlaneIs(s: seq<real>, channels: nat, ch: nat, x: seq<real>)
    requires ch < channels && x == Column(s, channels, ch, |s|)
    ensures Planes(s, channels, channels)[ch] == x
  {
    PlaneAt(s, channels, channels, ch);
  }

  lemma ColumnOfBoth(s: seq<real>, frames: nat, channels: nat, chunk: seq<real>, whole: seq<real>, ch: nat)
    requires ch < channels && |s| == Stride(frames, channels) && whole == s + chunk
    ensures Column(whole, channels, ch, |whole|) == Column(s, channels, ch, |s|) + Column(chunk, channels, ch, |chunk|)
  {
    ColumnOfConcat(s, chunk, channels, ch, frames, |chunk|);
  }

  lemma AppendedPlane(s: seq<real>, frames: nat, channels: nat, chunk: seq<real>, ch: nat, x: seq<real>, y: seq<real>)
    requires ch < channels && |s| == Stride(frames, channels)
    requires x == Column(s, channels, ch, |s|) && y == Column(chunk, channels, ch, |chunk|)
    ensures Planes(s, channels, channels)[ch] == x
    ensures Planes(s + chunk, channels, channels)[ch] == x + y
  {
    PlaneIs(s, channels, ch, x);
    ColumnOfBoth(s, frames, channels, chunk, s + chunk, ch);
    PlaneIs(s + chunk, channels, ch, x + y);
  }

  lemma SuffixGrows(plane: seq<real>, pending: seq<real>, more: seq<real>, n: nat)
    requires Suffix(plane, pending, n)
    ensures Suffix(plane + more, pending + more, n)
  {
  }

  /** Before the first chunk nothing is pending, and a plane of no samples is all that is left of itself. */
  lemma PendingPlane(s: seq<real>, frames: nat, channels: nat, width: nat, pending: Planar, points: Sample, ch: nat)
    requires channels > 0 && width > 0 && Streamed(s, frames, channels, width, pending, points) && ch < channels
    requires pending == [] || |pending| == channels
    ensures Suffix(Column(s, channels, ch, |s|), if pending == [] then [] else pending[ch],
        Stride(Quotient(frames, width), width))
  {
    PlaneAt(s, channels, channels, ch);
    ColumnOfFrames(s, channels, ch, frames);
  }

  /** Appending a chunk of whole frames leaves the planes of the longer stream, drained as before. */
  lemma AppendedChunk(s: seq<real>, frames: nat, channels: nat, width: nat, pending: Planar, points: Sample,
                      chunk: seq<real>, added: nat, r: Planar)
    requires channels > 0 && width > 0 && Streamed(s, frames, channels, width, pending, points)
    requires |chunk| == Stride(added, channels) && |r| == channels
    requires pending == [] || |pending| == channels
    requires forall ch :: 0 <= ch < channels ==>
      r[ch] == (if pending == [] then [] else pending[ch]) + Column(chunk, channels, ch, |chunk|)
    ensures Drained(Planes(s + chunk, channels, channels), r, Stride(Quotient(frames, width), width))
    ensures points == PointsOf(Planes(s + chunk, channels, channels), width, Quotient(frames, width))
  {
    var before, after := Planes(s, channels, channels), Planes(s + chunk, channels, channels);
    var gone := Stride(Quotient(frames, width), width);
    PlanesOfFrames(s, channels, frames);
    DivisionSplits(frames, width);
    forall ch | 0 <= ch < channels ensures before[ch] <= after[ch] && Suffix(after[ch], r[ch], gone) {
      PendingPlane(s, frames, channels, width, pending, points, ch);
      var x, y := Column(s, channels, ch, |s|), Column(chunk, channels, ch, |chunk|);
      AppendedPlane(s, frames, channels, chunk, ch, x, y);
      SuffixGrows(x, if pending == [] then [] else pending[ch], y, gone);
    }
    AllWindowsOfPrefix(before, after, width, Quotient(frames, width));
  }

  /** Emitting the full windows of what was drained `e` windows ago continues the points of the stream. */
  lemma EmittedMore(s: seq<real>, frames: nat, channels: nat, width: nat, pending: Planar, r: Planar, e: nat,
                    count: nat, points: Sample, out: Sample)
    requires channels > 0 && width > 0 && |s| == Stride(frames, channels)
    requires Quotient(frames, width) == e + count && |r| == channels
    requires Drained(Planes(s, channels, channels), pending, Stride(e, width))
    requires points == PointsOf(Planes(s, channels, channels), width, e)
    requires out == points + PointsOf(pending, width, count)
    requires Drained(pending, r, Stride(count, width))
    ensures Streamed(s, frames, channels, width, r, out)
  {
    EmittedPlanes(Planes(s, channels, channels), pending, r, width, e, count, points, out);
    StreamedOf(s, frames, channels, width, r, out, Planes(s, channels, channels), e + count);
  }

  lemma StreamedOf(s: seq<real>, frames: nat, channels: nat, width: nat, r: Planar, out: Sample, planes: Planar,
                   windows: nat)
    requires channels > 0 && width > 0 && |s| == Stride(frames, channels) && planes == Planes(s, channels, channels)
    requires windows == Quotient(frames, width) && |r| == channels
    requires out == PointsOf(planes, width, windows) && Drained(planes, r, Stride(windows, width))
    ensures Streamed(s, frames, channels, width, r, out)
  {
  }

  lemma EmittedPlanes(planes: Planar, pending: Planar, r: Planar, width: nat, e: nat, count: nat,
                      points: Sample, out: Sample)
    requires Drained(planes, pending, Stride(e, width)) && points == PointsOf(planes, width, e)
    requires out == points + PointsOf(pending, width, count) && Drained(pending, r, Stride(count, width))
    ensures out == PointsOf(planes, width, e + count) && Drained(planes, r, Stride(e + count, width))
  {
    PointsSplit(planes, pending, width, e, count);
    StridePlus(e, count, width);
    DrainTwice(planes, pending, r, Stride(e, width), Stride(count, width));
  }

  /** `emit_points` without the flush. */
  method EmitFull(pending: Planar, width: nat, points: Sample, ghost total: nat, ghost p: nat)
    returns (r: Planar, out: Sample)
    requires width > 0 && pending != [] && AllOf(pending, total) && |points| == Stride(p, |pending|)
    ensures out == points + PointsOf(pending, width, Quotient(total, width))
    ensures |r| == |pending| && Drained(pending, r, Stride(Quotient(total, width), width))
  {
    DivisionSplits(total, width);
    r, out := EmitPoints(pending, width, points, false, total, p);
  }

  /** The emitting half of a chunk: every window the stream `s` completes after the first `e`. */
  method EmitChunk(pending: Planar, points: Sample, channels: nat, width: nat, ghost s: seq<real>, ghost frames: nat,
                   ghost e: nat)
    returns (r: Planar, out: Sample)
    requires channels > 0 && width > 0 && |s| == Stride(frames, channels) && |pending| == channels
    requires Drained(Planes(s, channels, channels), pending, Stride(e, width))
    requires points == PointsOf(Planes(s, channels, channels), width, e)
    ensures |r| == channels && Streamed(s, frames, channels, width, r, out)
  {
    ghost var total := LeftOver(s, frames, channels, pending, e, width);
    r, out := EmitFull(pending, width, points, total, e);
    QuotientOfShift(e, total, width);
    EmittedMore(s, frames, channels, width, pending, r, e, Quotient(total, width), points, out);
  }

  /** One chunk: append it, emit every window it completes. `s2` is the stream `s` with the chunk. */
  method ProcessChunk(pending: Planar, points: Sample, chunk: seq<real>, channels: nat, width: nat,
                      ghost s: seq<real>, ghost frames: nat, ghost added: nat, ghost s2: seq<real>)
    returns (r: Planar, out: Sample)
    requires channels > 0 && width > 0 && Streamed(s, frames, channels, width, pending, points)
    requires |chunk| == Stride(added, channels) && (pending == [] || |pending| == channels)
    requires s2 == s + chunk
    ensures |r| == channels && Streamed(s2, frames + added, channels, width, r, out)
  {
    r := AppendPending(pending, chunk, channels);
    AppendedChunk(s, frames, channels, width, pending, points, chunk, added, r);
    StridePlus(frames, added, channels);
    r, out := EmitChunk(r, points, channels, width, s2, frames + added, Quotient(frames, width));
  }

  lemma LeftOver(s: seq<real>, frames: nat, channels: nat, pending: Planar, e: nat, width: nat) returns (total: nat)
    requires channels > 0 && |s| == Stride(frames, channels)
    requires Drained(Planes(s, channels, channels), pending, Stride(e, width))
    ensures frames == Stride(e, width) + total
    ensures AllOf(pending, total)
  {
    PlanesOfFrames(s, channels, frames);
    assert Suffix(Planes(s, channels, channels)[0], pending[0], Stride(e, width));
    total := |pending[0]|;
    forall ch | 0 <= ch < |pending| ensures |pending[ch]| == total {
      assert Suffix(Planes(s, channels, channels)[ch], pending[ch], Stride(e, width));
    }
  }

  lemma DrainTwice(planes: Planar, pending: Planar, r: Planar, from: nat, n: nat)
    requires Drained(planes, pending, from) && Drained(pending, r, n)
    ensures Drained(planes, r, from + n)
  {
    forall ch | 0 <= ch < |r| ensures Suffix(pending[ch], r[ch], n) {
    }
    DrainMore(planes, pending, r, from, n);
  }

  // ----- the whole extraction -----

  function ChunkFrames(left: nat, chunkFrames: nat): (f: nat)
    requires left > 0 && chunkFrames > 0
    ensures 0 < f <= left
  {
    if left < chunkFrames then left else chunkFrames
  }

  /** What the decoder delivers from frame `offset` on, chunk by chunk; `None` when any chunk fails. */
  function Decoded(retrieve: (nat, nat) -> Option<seq<real>>, offset: nat, totalFrames: nat,
                   chunkFrames: nat): Option<seq<real>>
    requires offset <= totalFrames && chunkFrames > 0
    decreases totalFrames - offset
  {
    if offset == totalFrames then Some([])
    else
      var frames := ChunkFrames(totalFrames - offset, chunkFrames);
      match retrieve(offset, frames)
      case None => None
      case Some(chunk) =>
        match Decoded(retrieve, offset + frames, totalFrames, chunkFrames)
        case None => None
        case Some(rest) => Some(chunk + rest)
  }

  /** A decoder that fills the buffer it is given, or fails. */
  ghost predicate FillsBuffers(retrieve: (nat, nat) -> Option<seq<real>>, channels: nat) {
    forall offset: nat, frames: nat :: retrieve(offset, frames).Some? ==>
      |retrieve(offset, frames).value| == Stride(frames, channels)
  }

  /** `whole` is what came in so far, then the rest. */
  ghost predicate Continues(whole: Option<seq<real>>, s: seq<real>, rest: Option<seq<real>>) {
    if rest.None? then whole.None? else whole == Some(s + rest.value)
  }

  lemma DecodedStep(retrieve: (nat, nat) -> Option<seq<real>>, whole: Option<seq<real>>, s: seq<real>, offset: nat,
                    totalFrames: nat,
                    chunkFrames: nat, frames: nat)
    requires offset < totalFrames && chunkFrames > 0 && frames == ChunkFrames(totalFrames - offset, chunkFrames)
    requires Continues(whole, s, Decoded(retrieve, offset, totalFrames, chunkFrames))
    ensures retrieve(offset, frames).None? ==> whole.None?
    ensures retrieve(offset, frames).Some? ==>
      Continues(whole, s + retrieve(offset, frames).value, Decoded(retrieve, offset + frames, totalFrames, chunkFrames))
  {
    if retrieve(offset, frames).Some? && Decoded(retrieve, offset + frames, totalFrames, chunkFrames).Some? {
      var chunk := retrieve(offset, frames).value;
      var rest := Decoded(retrieve, offset + frames, totalFrames, chunkFrames).value;
      assert s + (chunk + rest) == (s + chunk) + rest;
    }
  }

  /** One turn of the chunk loop: the next `frames` frames from the decoder, or its failure. */
  method PullChunk(retrieve: (nat, nat) -> Option<seq<real>>, pending: Planar, points: Sample, channels: nat,
                   width: nat, offset: nat, frames: nat, ghost whole: Option<seq<real>>, ghost s: seq<real>,
                   ghost totalFrames: nat, ghost chunkFrames: nat)
    returns (ok: bool, r: Planar, out: Sample, ghost s2: seq<real>)
    requires channels > 0 && width > 0 && chunkFrames > 0 && offset < totalFrames && FillsBuffers(retrieve, channels)
    requires frames == ChunkFrames(totalFrames - offset, chunkFrames) && (pending == [] || |pending| == channels)
    requires Streamed(s, offset, channels, width, pending, points)
    requires Continues(whole, s, Decoded(retrieve, offset, totalFrames, chunkFrames))
    ensures !ok ==> whole.None?
    ensures ok ==> |r| == channels && Streamed(s2, offset + frames, channels, width, r, out)
    ensures ok ==> Continues(whole, s2, Decoded(retrieve, offset + frames, totalFrames, chunkFrames))
  {
    DecodedStep(retrieve, whole, s, offset, totalFrames, chunkFrames, frames);
    var chunk := retrieve(offset, frames);
    ok, r, out, s2 := chunk.Some?, pending, points, s;
    if ok {
      s2 := s + chunk.value;
      r, out := ProcessChunk(pending, points, chunk.value, channels, width, s, offset, frames, s2);
    }
  }

  /**
   * The chunk loop of `extract` (`chunkFrames` is 16384 there). Its result
   * depends on the decoded stream only: one point per window of the whole stream, the
   * last one partial.
   */
  method Extract(retrieve: (nat, nat) -> Option<seq<real>>, totalFrames: nat, channels: nat, samplesPerPoint: nat,
                 chunkFrames: nat)
    returns (r: Result<Sample, string>)
    requires channels > 0 && samplesPerPoint > 0 && chunkFrames > 0 && FillsBuffers(retrieve, channels)
    ensures r.Ok? <==> Decoded(retrieve, 0, totalFrames, chunkFrames).Some?
    ensures r.Ok? ==>
      r.value == PointsOf(Planes(Decoded(retrieve, 0, totalFrames, chunkFrames).value, channels, channels),
                          samplesPerPoint, WindowCount(totalFrames, samplesPerPoint, true))
  {
    ghost var whole := Decoded(retrieve, 0, totalFrames, chunkFrames);
    var pending: Planar, points: Sample := [], [];
    ghost var s: seq<real> := [];
    assert whole.Some? ==> s + whole.value == whole.value;
    var offset := 0;
    while offset < totalFrames
      invariant offset <= totalFrames && (pending == [] || |pending| == channels)
      invariant Streamed(s, offset, channels, samplesPerPoint, pending, points)
      invariant Continues(whole, s, Decoded(retrieve, offset, totalFrames, chunkFrames))
    {
      var frames := ChunkFrames(totalFrames - offset, chunkFrames);
      var ok;
      ok, pending, points, s := PullChunk(retrieve, pending, points, channels, samplesPerPoint, offset, frames, whole,
          s, totalFrames, chunkFrames);
      if !ok {
        return Err("audio retrieve failed");
      }
      offset := offset + frames;
    }
    assert s + [] == s;
    points := Flush(pending, points, channels, samplesPerPoint, s, totalFrames);
    r := Ok(points);
  }

  lemma WindowsOfShift(e: nat, total: nat, width: nat)
    requires width > 0
    ensures WindowCount(Stride(e, width) + total, width, true) == e + WindowCount(total, width, true)
  {
    QuotientOfShift(e, total, width);
    ResidueOfShift(e, total, width);
  }

  lemma FlushedRest(planes: Planar, pending: Planar, width: nat, e: nat, total: nat, points: Sample, out: Sample)
    requires width > 0 && Drained(planes, pending, Stride(e, width)) && points == PointsOf(planes, width, e)
    requires out == points + PointsOf(pending, width, WindowCount(total, width, true))
    ensures out == PointsOf(planes, width, WindowCount(Stride(e, width) + total, width, true))
  {
    WindowsOfShift(e, total, width);
    PointsSplit(planes, pending, width, e, WindowCount(total, width, true));
  }

  /** The final `emit_points` of `extract`. */
  method Flush(pending: Planar, points: Sample, channels: nat, width: nat, ghost s: seq<real>, ghost frames: nat)
    returns (out: Sample)
    requires channels > 0 && width > 0 && Streamed(s, frames, channels, width, pending, points)
    requires pending == [] || |pending| == channels
    ensures out == PointsOf(Planes(s, channels, channels), width, WindowCount(frames, width, true))
  {
    if pending == [] {
      out := points;
      assert Quotient(frames, width) == WindowCount(frames, width, true);
    } else {
      ghost var e := Quotient(frames, width);
      ghost var total := LeftOver(s, frames, channels, pending, e, width);
      var rest;
      rest, out := EmitPoints(pending, width, points, true, total, e);
      FlushedRest(Planes(s, channels, channels), pending, width, e, total, points, out);
    }
  }

  /** The first `n` chunks, one after the other. */
  function ChunksJoined(chunks: seq<seq<real>>, n: nat): seq<real>
    requires n <= |chunks|
  {
    if n == 0 then [] else ChunksJoined(chunks, n - 1) + chunks[n - 1]
  }

  function FramesTotal(frames: seq<nat>, n: nat): nat
    requires n <= |frames|
  {
    if n == 0 then 0 else FramesTotal(frames, n - 1) + frames[n - 1]
  }

  method FeedChunk(pending: Planar, points: Sample, chunks: seq<seq<real>>, channels: nat, width: nat,
                   ghost frames: seq<nat>, i: nat)
    returns (r: Planar, out: Sample)
    requires channels > 0 && width > 0 && i < |frames| == |chunks| && |chunks[i]| == Stride(frames[i], channels)
    requires pending == [] || |pending| == channels
    requires Streamed(ChunksJoined(chunks, i), FramesTotal(frames, i), channels, width, pending, points)
    ensures |r| == channels
    ensures Streamed(ChunksJoined(chunks, i + 1), FramesTotal(frames, i + 1), channels, width, r, out)
  {
    r, out := ProcessChunk(pending, points, chunks[i], channels, width, ChunksJoined(chunks, i),
        FramesTotal(frames, i), frames[i], ChunksJoined(chunks, i + 1));
  }

  /** The chunks in turn, without the flush. */
  method StreamChunks(chunks: seq<seq<real>>, channels: nat, width: nat, ghost frames: seq<nat>)
    returns (pending: Planar, points: Sample)
    requires channels > 0 && width > 0 && |frames| == |chunks|
    requires forall i :: 0 <= i < |chunks| ==> |chunks[i]| == Stride(frames[i], channels)
    ensures pending == [] || |pending| == channels
    ensures Streamed(ChunksJoined(chunks, |chunks|), FramesTotal(frames, |chunks|), channels, width, pending, points)
  {
    pending, points := [], [];
    for i := 0 to |chunks|
      invariant pending == [] || |pending| == channels
      invariant Streamed(ChunksJoined(chunks, i), FramesTotal(frames, i), channels, width, pending, points)
    {
      pending, points := FeedChunk(pending, points, chunks, channels, width, frames, i);
    }
  }

  /** Any sequence of whole-frame chunks, also empty ones, gives the points of the stream they make up. */
  method ExtractChunks(chunks: seq<seq<real>>, channels: nat, width: nat, ghost frames: seq<nat>)
    returns (points: Sample)
    requires channels > 0 && width > 0 && |frames| == |chunks|
    requires forall i :: 0 <= i < |chunks| ==> |chunks[i]| == Stride(frames[i], channels)
    ensures points == PointsOf(Planes(ChunksJoined(chunks, |chunks|), channels, channels), width,
                               WindowCount(FramesTotal(frames, |chunks|), width, true))
  {
    var pending;
    pending, points := StreamChunks(chunks, channels, width, frames);
    points := Flush(pending, points, channels, width, ChunksJoined(chunks, |chunks|), FramesTotal(frames, |chunks|));
  }

  /** The frames `offset..offset + frames` of an interleaved stream. */
  function FramesOf(stream: seq<real>, channels: nat, offset: nat, frames: nat): seq<real> {
    if Stride(offset, channels) <= Stride(offset + frames, channels) <= |stream|
    then stream[Stride(offset, channels)..Stride(offset + frames, channels)] else []
  }

  /**
   * A decoder that delivers the frames of a stream delivers the whole stream, in
   * whatever chunks it is asked; so the extracted points do not depend on the chunking.
   */
  lemma {:induction false} ChunkingDoesNotMatter(retrieve: (nat, nat) -> Option<seq<real>>, channels: nat, n: nat,
                                                 stream: seq<real>,
                                                 offset: nat, chunkFrames: nat)
    requires chunkFrames > 0 && |stream| == Stride(n, channels) && offset <= n
    requires forall o: nat, f: nat :: o + f <= n ==> retrieve(o, f) == Some(FramesOf(stream, channels, o, f))
    ensures Stride(offset, channels) <= |stream|
    ensures Decoded(retrieve, offset, n, chunkFrames) == Some(stream[Stride(offset, channels)..])
    decreases n - offset
  {
    StrideMonotone(offset, n, channels);
    if offset < n {
      var f := ChunkFrames(n - offset, chunkFrames);
      ChunkingDoesNotMatter(retrieve, channels, n, stream, offset + f, chunkFrames);
      StrideMonotone(offset, offset + f, channels);
      var i, j := Stride(offset, channels), Stride(offset + f, channels);
      assert retrieve(offset, f) == Some(stream[i..j]);
      assert stream[i..j] + stream[j..] == stream[i..];
    } else {
      assert stream[|stream|..] == [];
    }
  }

  // ----- the points against the interleaved stream -----

  /** Sample of channel `ch` in frame `i` of an interleaved stream. */
  function SampleAt(s: seq<real>, channels: nat, ch: nat, i: nat): real {
    if i * channels + ch < |s| then s[i * channels + ch] else 0.0
  }

  /** `pair` is the minimum and maximum of channel `ch` over the frames `from..to`. */
  ghost predicate IsStreamPeak(pair: SamplePerChannel, s: seq<real>, channels: nat, ch: nat, from: nat, to: nat) {
    && (forall i: nat :: from <= i < to ==> pair.min <= SampleAt(s, channels, ch, i) <= pair.max)
    && (exists i: nat :: from <= i < to && SampleAt(s, channels, ch, i) == pair.min)
    && exists i: nat :: from <= i < to && SampleAt(s, channels, ch, i) == pair.max
  }

  lemma PlanePeakIsStreamPeak(s: seq<real>, channels: nat, ch: nat, frames: nat, pair: SamplePerChannel,
                              plane: seq<real>, from: nat, to: nat)
    requires ch < channels && |s| == frames * channels && plane == Column(s, channels, ch, |s|) && |plane| == frames
    requires from <= to <= frames && IsPeakOf(pair, plane, from, to)
    ensures IsStreamPeak(pair, s, channels, ch, from, to)
  {
    forall i: nat | from <= i < to ensures SampleAt(s, channels, ch, i) == plane[i] {
      ChannelHoldsItsSamples(s, channels, ch, frames, i);
    }
    var low :| from <= low < to && plane[low] == pair.min;
    var high :| from <= high < to && plane[high] == pair.max;
    assert SampleAt(s, channels, ch, low) == pair.min && SampleAt(s, channels, ch, high) == pair.max;
  }

  /**
   * Extracting a stream of `frames` frames gives one point per `width` frames and channel, the
   * last one as far as the frames reach; point `p` of channel `ch` is entry `p * channels + ch`
   * and the exact minimum and maximum of that channel over its frames.
   */
  lemma ExtractedPointsAreExact(s: seq<real>, channels: nat, frames: nat, width: nat, points: Sample, p: nat, ch: nat)
    requires ch < channels && width > 0 && |s| == frames * channels && p < (frames + width - 1) / width
    requires points == PointsOf(Planes(s, channels, channels), width, WindowCount(frames, width, true))
    ensures p * channels + ch < |points| == (frames + width - 1) / width * channels
    ensures p * width < frames
    ensures IsStreamPeak(points[p * channels + ch], s, channels, ch, p * width,
                         if p * width + width < frames then p * width + width else frames)
  {
    var planes, count := Planes(s, channels, channels), WindowCount(frames, width, true);
    StrideIsProduct(frames, channels);
    StrideIsProduct(p, channels);
    StrideIsProduct(count, channels);
    StrideIsProduct(p, width);
    PlaneAt(s, channels, channels, ch);
    ColumnOfFrames(s, channels, ch, frames);
    CeilingDivision(frames, width);
    PointsAreExact(planes, width, frames, p, ch);
    PlanePeakIsStreamPeak(s, channels, ch, frames, points[p * channels + ch], planes[ch], p * width,
        if p * width + width < frames then p * width + width else frames);
  }
}
