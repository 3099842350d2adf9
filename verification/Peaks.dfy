/**
 * Min/max pairs and their algebra (crates/oak-audio/src/waveform.rs, `SamplePerChannel`).
 */
module Peaks {

  datatype SamplePerChannel = SamplePerChannel(min: real, max: real)

  /** `SamplePerChannel::default()`, the value that pads and silences a store. */
  const SILENT := SamplePerChannel(0.0, 0.0)

  /** The pair covering two pairs. */
  function Join(p: SamplePerChannel, q: SamplePerChannel): SamplePerChannel {
    SamplePerChannel(if q.min < p.min then q.min else p.min,
                     if q.max > p.max then q.max else p.max)
  }

  /** The pair of the samples `from..to` of a plane; an empty range gives the silent pair. */
  function PeakOf(plane: seq<real>, from: nat, to: nat): SamplePerChannel
    requires to <= |plane|
  {
    if to <= from then SILENT
    else if to == from + 1 then SamplePerChannel(plane[from], plane[from])
    else Join(PeakOf(plane, from, to - 1), SamplePerChannel(plane[to - 1], plane[to - 1]))
  }

  /** What a min/max pair of a range of samples has to be, independently of any computation. */
  ghost predicate IsPeakOf(p: SamplePerChannel, plane: seq<real>, from: nat, to: nat)
    requires to <= |plane|
  {
    && (exists i :: from <= i < to && plane[i] == p.min)
    && (exists i :: from <= i < to && plane[i] == p.max)
    && forall i :: from <= i < to ==> p.min <= plane[i] <= p.max
  }

  lemma {:induction false} PeakOfIsExact(plane: seq<real>, from: nat, to: nat)
    requires from < to <= |plane|
    ensures IsPeakOf(PeakOf(plane, from, to), plane, from, to)
  {
    assert plane[to - 1] == plane[to - 1];
    if to > from + 1 {
      PeakOfIsExact(plane, from, to - 1);
    }
  }

  /** Summarising adjacent ranges and joining the pairs loses nothing. */
  lemma {:induction false} PeakOfAdjacent(plane: seq<real>, from: nat, mid: nat, to: nat)
    requires from < mid < to <= |plane|
    ensures Join(PeakOf(plane, from, mid), PeakOf(plane, mid, to)) == PeakOf(plane, from, to)
  {
    if to > mid + 1 {
      PeakOfAdjacent(plane, from, mid, to - 1);
      JoinAssociative(PeakOf(plane, from, mid), PeakOf(plane, mid, to - 1),
          SamplePerChannel(plane[to - 1], plane[to - 1]));
    }
  }

  /** The pair depends on the samples of the range only, wherever they are stored. */
  lemma {:induction false} PeakOfShifted(a: seq<real>, b: seq<real>, from: nat, to: nat, shift: nat)
    requires to <= |a| && to + shift <= |b|
    requires forall i :: from <= i < to ==> a[i] == b[i + shift]
    ensures PeakOf(a, from, to) == PeakOf(b, from + shift, to + shift)
  {
    if to > from + 1 {
      PeakOfShifted(a, b, from, to - 1, shift);
      assert a[to - 1] == b[to - 1 + shift];
      assert to + shift - 1 == to - 1 + shift;
    } else if to == from + 1 {
      assert a[from] == b[from + shift];
    }
  }

  lemma JoinAssociative(p: SamplePerChannel, q: SamplePerChannel, r: SamplePerChannel)
    ensures Join(Join(p, q), r) == Join(p, Join(q, r))
  {
  }
}
