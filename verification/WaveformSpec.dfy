/**
 * The state of `AudioVisualWaveform` as a value, and what each of its operations
 * makes of it.
 */
module WaveformSpec {
  import opened Rationals
  import opened Peaks
  import opened Strides
  import opened WaveformTiles

  /** `levels[k]` holds the channel-interleaved points of level `k`. */
  datatype Wave = Wave(virtualStart: Rational, channels: nat, length: Rational, levels: seq<Sample>)
  {
    ghost predicate Full() {
      |levels| == TOP + 1
    }
  }

  /** A number of seconds below zero. */
  predicate Negative(time: Rational) {
    time.Less(Null) || (time.Of? && time.value < 0.0)
  }

  // ----- trim_in -----

  /** Seconds to chop or to prepend. For a negative length the source computes 0/0 minus it, which is 0/0. */
  function ChopTime(length: Rational): Rational {
    if Negative(length) then Null.Minus(length) else length
  }

  function TrimmedLevel(data: Sample, level: nat, channels: nat, length: Rational): Sample {
    var chop := TimeToSamples(ChopTime(length), level, channels);
    if chop == 0 then data
    else if !Negative(length) then data[if chop < |data| then chop else |data|..]
    else Silence(chop) + data
  }

  function Trimmed(w: Wave, length: Rational): (r: Wave)
    ensures |r.levels| == |w.levels|
  {
    if length.IsNull() then w
    else
      Wave(w.virtualStart.Plus(length), w.channels,
           if Negative(length) then w.length else Of(0.0).MaxWith(w.length.Minus(ChopTime(length))),
           seq(|w.levels|, k requires 0 <= k < |w.levels| => TrimmedLevel(w.levels[k], k, w.channels, length)))
  }

  /** A write before the start moves the start, through a negative trim. */
  function StartValidated(w: Wave, newStart: Rational): (r: Wave)
    ensures |r.levels| == |w.levels|
  {
    if w.length.IsNull() then w.(virtualStart := newStart)
    else if newStart.Less(w.virtualStart) then Trimmed(w, newStart.Minus(w.virtualStart))
    else w
  }

  // ----- overwrite_samples -----

  function WrittenLevel(w: Wave, planar: Planar, sampleRate: nat, relStart: Rational, level: nat): Sample
    requires sampleRate > 0 && |planar| == w.channels > 0
    requires level < |w.levels| && level <= TOP
  {
    Overlay(w.levels[level], TimeToSamples(relStart, level, w.channels), Block(planar, sampleRate, level))
  }

  function Written(w: Wave, planar: Planar, sampleRate: nat, start: Rational): (r: Wave)
    requires w.Full() && sampleRate > 0 && |planar| == w.channels
    ensures r.Full()
  {
    if w.channels == 0 then w
    else
      var v := StartValidated(w, start);
      var relStart := start.Minus(v.virtualStart);
      v.(length := v.length.MaxWith(start.Plus(Duration(planar, sampleRate))),
         levels := seq(TOP + 1, k requires 0 <= k < TOP + 1 => WrittenLevel(v, planar, sampleRate, relStart, k)))
  }

  // ----- overwrite_silence -----

  function SilencedLevel(data: Sample, level: nat, channels: nat, relStart: Rational, length: Rational): Sample {
    Overlay(data, TimeToSamples(relStart, level, channels), Silence(TimeToSamples(length, level, channels)))
  }

  function Silenced(w: Wave, start: Rational, length: Rational): (r: Wave)
    ensures |r.levels| == |w.levels|
  {
    var v := StartValidated(w, start);
    v.(length := v.length.MaxWith(start.Plus(length)),
       levels := seq(|v.levels|, k requires 0 <= k < |v.levels| =>
         SilencedLevel(v.levels[k], k, v.channels, start.Minus(v.virtualStart), length)))
  }

  // ----- resize, trim_range, mid -----

  function ResizedLevel(data: Sample, size: nat): (r: Sample)
    ensures |r| == size
  {
    if |data| < size then PadTo(data, size) else data[..size]
  }

  function Resized(w: Wave, length: Rational): (r: Wave)
    ensures |r.levels| == |w.levels|
  {
    if w.length == length then w
    else
      w.(length := length,
         levels := seq(|w.levels|, k requires 0 <= k < |w.levels| =>
           ResizedLevel(w.levels[k], TimeToSamples(length, k, w.channels))))
  }

  function TrimmedRange(w: Wave, from: Rational, length: Rational): (r: Wave)
    ensures |r.levels| == |w.levels|
  {
    Resized(Trimmed(w, from), length)
  }

  function MidOf(w: Wave, offset: Rational, length: Rational): (r: Wave)
    ensures |r.levels| == |w.levels|
  {
    TrimmedRange(w, offset.Minus(w.virtualStart), length)
  }

  // ----- get_summary_from_time -----

  /** A rate covers a range when it puts at least one point on it; 0/0 and zero lengths are never covered. */
  predicate Covers(level: nat, length: Rational) {
    !length.IsNull() && Rate(level) >= 1.0 / length.value
  }

  /** The first level from `level` on that covers `length`, else the finest one. */
  function LevelFor(length: Rational, level: nat): (k: nat)
    requires level <= TOP
    ensures level <= k <= TOP
    decreases TOP - level
  {
    if level == TOP || Covers(level, length) then level else LevelFor(length, level + 1)
  }

  /** `groups` points of channel `ch` from entry `from` on, joined onto `first`. */
  function JoinPoints(data: Sample, from: nat, channels: nat, ch: nat, groups: nat,
                      first: SamplePerChannel): SamplePerChannel {
    if groups == 0 then first
    else
      var before := JoinPoints(data, from, channels, ch, groups - 1, first);
      if from + Stride(groups - 1, channels) + ch < |data|
      then Join(before, data[from + Stride(groups - 1, channels) + ch]) else before
  }

  /** Groups the merging loop visits: `count / channels`, rounded up. */
  function Groups(count: nat, channels: nat): nat
    requires channels > 0
  {
    if count == 0 then 0 else if count < channels then 1 else 1 + Groups(count - channels, channels)
  }

  /** `count` entries of a store from entry `from` on, merged per channel. */
  function MergedPoint(data: Sample, from: nat, count: nat, channels: nat, ch: nat): SamplePerChannel
    requires ch < channels
  {
    var n := if from + count <= |data| then count else if from <= |data| then |data| - from else 0;
    JoinPoints(data, from, channels, ch, Groups(n, channels),
               if channels <= n && from + ch < |data| then data[from + ch] else SILENT)
  }

  function Merged(data: Sample, from: nat, count: nat, channels: nat): (r: Sample)
    ensures |r| == channels
    ensures forall ch :: 0 <= ch < channels ==> r[ch] == MergedPoint(data, from, count, channels, ch)
  {
    seq(channels, ch requires 0 <= ch < channels => MergedPoint(data, from, count, channels, ch))
  }

  /** The entries a query reads: from where, and how many, clipped to the data. */
  function QuerySpan(w: Wave, start: Rational, length: Rational, level: nat): (s: (nat, nat))
    requires level < |w.levels|
  {
    var from := TimeToSamples(start.Minus(w.virtualStart), level, w.channels);
    var count := TimeToSamples(length, level, w.channels);
    var available := |w.levels[level]| - from;
    (from, if available <= 0 then 0 else if count < available then count else available)
  }

  function Query(w: Wave, start: Rational, length: Rational): (r: Sample)
    requires w.Full()
    ensures |r| == w.channels
  {
    var level := LevelFor(length, 0);
    var (from, count) := QuerySpan(w, start, length, level);
    if count > 0 then Merged(w.levels[level], from, count, w.channels) else Silence(w.channels)
  }
}
