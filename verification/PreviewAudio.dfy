/**
 * The pull-style byte queue between the render side and the audio output callback, with
 * its playback clock and underrun counter, and the body of the output callback.
 */
module PreviewAudio {
  import opened Strides

  type Byte = b: int | 0 <= b < 256

  /** What the two threads share; `queue` and `bytesRead` sit behind the lock, the counters are atomics. */
  datatype Shared = Shared(queue: seq<Byte>, bytesRead: nat, clock: int, underruns: int)

  function Shorter(a: nat, b: nat): nat {
    if a < b then a else b
  }

  function Copied(d: Shared, n: nat): (copied: nat)
    ensures copied <= n && copied <= |d.queue|
  {
    Shorter(n, |d.queue|)
  }

  function AfterRead(d: Shared, n: nat): Shared {
    d.(queue := d.queue[Copied(d, n)..], bytesRead := d.bytesRead + Copied(d, n))
  }

  /** Bytes `drop_front_frames` takes off the queue. */
  function DroppedBytes(d: Shared, frames: int, bytesPerFrame: int): (bytes: nat)
    ensures bytes <= |d.queue|
  {
    if frames <= 0 || bytesPerFrame <= 0 then 0 else Shorter(Stride(frames, bytesPerFrame), |d.queue|)
  }

  function AfterDrop(d: Shared, frames: int, bytesPerFrame: int): Shared {
    d.(queue := d.queue[DroppedBytes(d, frames, bytesPerFrame)..])
  }

  function DroppedFrames(d: Shared, frames: int, bytesPerFrame: int): nat {
    if frames <= 0 || bytesPerFrame <= 0 then 0 else Quotient(DroppedBytes(d, frames, bytesPerFrame), bytesPerFrame)
  }

  function AfterClear(d: Shared): Shared {
    d.(queue := [], bytesRead := 0, clock := 0)
  }

  /** A read from byte `before` to byte `after` of the stream passes a multiple of the interval. */
  predicate Crosses(before: nat, after: nat, interval: int) {
    interval > 0 && Quotient(before, interval) != Quotient(after, interval)
  }

  class PreviewAudioDevice {
    var buffer: seq<Byte>
    var bytesPerFrame: int
    var notifyInterval: int
    var bytesRead: nat
    var callbackInstalled: bool
    var outputFramesConsumed: int
    var underrunFrames: int
    /** How often the notify callback has been called. */
    ghost var notified: nat

    function State(): Shared
      reads this
    {
      Shared(buffer, bytesRead, outputFramesConsumed, underrunFrames)
    }

    constructor ()
      ensures State() == Shared([], 0, 0, 0) && bytesPerFrame == 0 && notifyInterval == 0
      ensures !callbackInstalled && notified == 0
    {
      buffer, bytesPerFrame, notifyInterval, bytesRead := [], 0, 0, 0;
      callbackInstalled, outputFramesConsumed, underrunFrames, notified := false, 0, 0, 0;
    }

    /** Copies the front of the queue into `data`, takes it off, and notifies at most once. */
    method Read(data: array<Byte>) returns (copied: nat)
      modifies `buffer, `bytesRead, `callbackInstalled, `notified, data
      ensures copied == (if data.Length < |old(buffer)| then data.Length else |old(buffer)|)
      ensures buffer == old(buffer)[copied..] && bytesRead == old(bytesRead) + copied
      ensures copied == Copied(old(State()), data.Length) && State() == AfterRead(old(State()), data.Length)
      ensures data[..copied] == old(buffer)[..copied] && data[copied..] == old(data[copied..])
      ensures callbackInstalled == old(callbackInstalled)
      ensures notified == old(notified) +
        (if callbackInstalled && Crosses(old(bytesRead), bytesRead, notifyInterval) then 1 else 0)
    {
      var notify := false;
      copied := if data.Length < |buffer| then data.Length else |buffer|;
      if copied > 0 {
        var newBytesRead := bytesRead + copied;
        if notifyInterval > 0 && callbackInstalled {
          QuotientIsDivision(bytesRead, notifyInterval);
          QuotientIsDivision(newBytesRead, notifyInterval);
          notify := bytesRead / notifyInterval != newBytesRead / notifyInterval;
        }
        bytesRead := newBytesRead;
        CopyFront(data, buffer[..copied]);
        buffer := buffer[copied..];
      }
      if notify {
        callbackInstalled := false;
        notified := notified + 1;
        if !callbackInstalled { callbackInstalled := true; }
      }
    }

    method Write(data: seq<Byte>) returns (written: nat)
      modifies `buffer
      ensures State() == old(State()).(queue := old(buffer) + data) && written == |data|
    {
      buffer := buffer + data;
      written := |data|;
    }

    /** Drops the queue and restarts the clock; pending underruns stay. */
    method Clear()
      modifies `buffer, `bytesRead, `outputFramesConsumed
      ensures buffer == [] && bytesRead == 0 && outputFramesConsumed == 0
      ensures State() == AfterClear(old(State()))
    {
      buffer, bytesRead, outputFramesConsumed := [], 0, 0;
    }

    method QueuedFrames() returns (frames: int)
      ensures bytesPerFrame <= 0 ==> frames == 0
      ensures bytesPerFrame > 0 ==> frames == |buffer| / bytesPerFrame
    {
      if bytesPerFrame <= 0 {
        return 0;
      }
      QuotientIsDivision(|buffer|, bytesPerFrame);
      frames := |buffer| / bytesPerFrame;
    }

    method DropFrontFrames(frames: int) returns (dropped: int)
      modifies `buffer
      ensures State() == AfterDrop(old(State()), frames, bytesPerFrame)
      ensures dropped == DroppedFrames(old(State()), frames, bytesPerFrame)
      ensures frames <= 0 || bytesPerFrame <= 0 ==> dropped == 0 && buffer == old(buffer)
      ensures frames > 0 && bytesPerFrame > 0 ==>
        var bytes := if frames * bytesPerFrame < |old(buffer)| then frames * bytesPerFrame else |old(buffer)|;
        buffer == old(buffer)[bytes..] && dropped == bytes / bytesPerFrame
    {
      if frames <= 0 || bytesPerFrame <= 0 {
        return 0;
      }
      StrideIsProduct(frames, bytesPerFrame);
      var bytes := if frames * bytesPerFrame < |buffer| then frames * bytesPerFrame else |buffer|;
      buffer := buffer[bytes..];
      QuotientIsDivision(bytes, bytesPerFrame);
      dropped := bytes / bytesPerFrame;
    }

    method AddOutputFrames(count: int)
      modifies `outputFramesConsumed
      ensures State() == old(State()).(clock := old(outputFramesConsumed) + count)
    {
      outputFramesConsumed := outputFramesConsumed + count;
    }

    method AddUnderrunFrames(count: int)
      modifies `underrunFrames
      ensures State() == old(State()).(underruns := old(underrunFrames) + if count > 0 then count else 0)
    {
      if count > 0 { underrunFrames := underrunFrames + count; }
    }

    method TakeUnderrunFrames() returns (taken: int)
      modifies `underrunFrames
      ensures State() == old(State()).(underruns := 0) && taken == old(underrunFrames)
    {
      taken, underrunFrames := underrunFrames, 0;
    }

    method ResetOutputFrames()
      modifies `outputFramesConsumed
      ensures State() == old(State()).(clock := 0)
    {
      outputFramesConsumed := 0;
    }
  }

  /** `copy_from_slice` into the front of `data`. */
  method CopyFront(data: array<Byte>, bytes: seq<Byte>)
    requires |bytes| <= data.Length
    modifies data
    ensures data[..|bytes|] == bytes && data[|bytes|..] == old(data[|bytes|..])
  {
    for i := 0 to |bytes|
      invariant forall k :: 0 <= k < i ==> data[k] == bytes[k]
      invariant forall k :: i <= k < data.Length ==> data[k] == old(data[k])
    {
      data[i] := bytes[i];
    }
  }

  // ----- the output callback -----

  /** Decoder of one little-endian `f32`. */
  type Decoder = (Byte, Byte, Byte, Byte) -> real

  function Sample(decode: Decoder, a: Byte, b: Byte, c: Byte, d: Byte): real {
    decode(a, b, c, d)
  }

  /** Sample `i` of an output block: from the queue as far as whole frames go, then silence. */
  function Played(decode: Decoder, queue: seq<Byte>, samples: nat, i: nat): real
    requires 4 * samples <= |queue|
  {
    if i < samples then Sample(decode, queue[4 * i], queue[4 * i + 1], queue[4 * i + 2], queue[4 * i + 3]) else 0.0
  }

  /** The samples of the whole frames among the first `bytes` bytes. */
  function WholeSamples(bytes: nat, channels: nat): (samples: nat)
    requires channels > 0
    ensures 4 * samples <= bytes
  {
    DivisionSplits(bytes, 4 * channels);
    StrideIsProduct(Quotient(bytes, 4 * channels), 4 * channels);
    StrideIsProduct(Quotient(bytes, 4 * channels), channels);
    Stride(Quotient(bytes, 4 * channels), channels)
  }

  /**
   * What a block of `length` samples plays: sample `i` is made of bytes `4 * i` to `4 * i + 3` of
   * the queue as far as whole frames of `4 * channels` bytes go, and 0 from there on.
   */
  lemma BlockPlaysWholeFrames(d: Shared, length: nat, channels: nat, decode: Decoder, i: nat)
    requires channels > 0
    ensures var available := if 4 * length < |d.queue| then 4 * length else |d.queue|;
      var samples := available / (4 * channels) * channels;
      && 4 * samples <= |d.queue|
      && Played(decode, d.queue, WholeSamples(Copied(d, 4 * length), channels), i) ==
        if i < samples then decode(d.queue[4 * i], d.queue[4 * i + 1], d.queue[4 * i + 2], d.queue[4 * i + 3]) else 0.0
  {
    var available := Copied(d, 4 * length);
    QuotientIsDivision(available, 4 * channels);
    StrideIsProduct(Quotient(available, 4 * channels), channels);
    assert WholeSamples(available, channels) == available / (4 * channels) * channels;
  }

  /** The callback with the scratch buffer it keeps between calls. */
  class OutputCallback {
    var scratch: array<Byte>

    constructor ()
      ensures fresh(scratch)
    {
      scratch := new Byte[0];
    }

    /** `Vec::resize`: what is kept keeps its stale bytes. */
    method ResizeScratch(size: nat)
      modifies `scratch
      ensures fresh(scratch) && scratch.Length == size
      ensures forall k :: 0 <= k < size ==> scratch[k] == if k < old(scratch.Length) then old(scratch[k]) else 0
    {
      var was := scratch;
      var resized := new Byte[size](i => 0);
      for i := 0 to Shorter(size, was.Length)
        invariant forall k :: 0 <= k < size ==> resized[k] == if k < i then was[k] else 0
      {
        resized[i] := was[i];
      }
      scratch := resized;
    }

    /**
     * One output block. The samples depend on the queue alone, never on stale scratch; the
     * clock advances by the whole block and the underruns by the frames that were missing.
     */
    method OnOutput(out: array<real>, device: PreviewAudioDevice, channels: nat, decode: Decoder)
      requires channels > 0
      modifies `scratch, out, device`buffer, device`bytesRead, device`callbackInstalled, device`notified,
        device`outputFramesConsumed, device`underrunFrames
      ensures var samples := WholeSamples(Copied(old(device.State()), 4 * out.Length), channels);
        forall i :: 0 <= i < out.Length ==> out[i] == Played(decode, old(device.buffer), samples, i)
      ensures var got := Quotient(Copied(old(device.State()), 4 * out.Length), 4 * channels);
        var total := Quotient(out.Length, channels);
        device.State() == AfterRead(old(device.State()), 4 * out.Length)
          .(clock := old(device.outputFramesConsumed) + total,
            underruns := old(device.underrunFrames) + if total > got then total - got else 0)
      ensures var available := if 4 * out.Length < |old(device.buffer)| then 4 * out.Length else |old(device.buffer)|;
        var total, got := out.Length / channels, available / (4 * channels);
        && device.buffer == old(device.buffer)[available..]
        && device.outputFramesConsumed == old(device.outputFramesConsumed) + total
        && device.underrunFrames == old(device.underrunFrames) + if total > got then total - got else 0
    {
      var total := out.Length;
      ResizeScratch(total * 4);
      var got := device.Read(scratch);
      assert scratch[..got] == old(device.buffer)[..got];
      QuotientIsDivision(got, channels * 4);
      QuotientIsDivision(total, channels);
      var framesGot := got / (channels * 4);
      Decode(out, scratch, framesGot, channels, got, decode);
      forall i | 0 <= i < out.Length
        ensures out[i] == Played(decode, old(device.buffer), WholeSamples(got, channels), i)
      {
        SamePrefix(decode, scratch[..], old(device.buffer), got, WholeSamples(got, channels), i);
      }
      device.AddOutputFrames(total / channels);
      device.AddUnderrunFrames(total / channels - framesGot);
    }

    /** The sample loop of the callback. */
    static method Decode(out: array<real>, bytes: array<Byte>, framesGot: nat, channels: nat, ghost got: nat,
                         decode: Decoder)
      requires channels > 0 && got <= bytes.Length && framesGot == Quotient(got, 4 * channels)
      modifies out
      ensures forall i :: 0 <= i < out.Length ==>
        out[i] == Played(decode, bytes[..], WholeSamples(got, channels), i)
    {
      StrideIsProduct(framesGot, channels);
      var sampleCount := framesGot * channels;
      assert sampleCount == WholeSamples(got, channels);
      for i := 0 to out.Length
        invariant forall k :: 0 <= k < i ==> out[k] == Played(decode, bytes[..], sampleCount, k)
      {
        if i < sampleCount {
          var b := bytes[i * 4..i * 4 + 4];
          out[i] := Sample(decode, b[0], b[1], b[2], b[3]);
        } else {
          out[i] := 0.0;
        }
      }
    }
  }

  lemma SamePrefix(decode: Decoder, a: seq<Byte>, b: seq<Byte>, n: nat, samples: nat, i: nat)
    requires n <= |a| && n <= |b| && a[..n] == b[..n] && 4 * samples <= n
    ensures Played(decode, a, samples, i) == Played(decode, b, samples, i)
  {
    if i < samples {
      assert forall k :: 0 <= k < n ==> a[k] == a[..n][k] && b[k] == b[..n][k];
    }
  }

  // ----- notifications -----

  /** Bytes read by the first `n` reads. */
  function BytesAfter(lengths: seq<nat>, n: nat): nat
    requires n <= |lengths|
  {
    if n == 0 then 0 else BytesAfter(lengths, n - 1) + lengths[n - 1]
  }

  /** Notifications of the first `n` reads, one reader, the callback installed from the start. */
  function Notifications(lengths: seq<nat>, n: nat, interval: int): nat
    requires n <= |lengths|
  {
    if n == 0 then 0
    else Notifications(lengths, n - 1, interval) +
         if Crosses(BytesAfter(lengths, n - 1), BytesAfter(lengths, n), interval) then 1 else 0
  }

  /** A read into a buffer of its own, seen from the byte counter and the callback. */
  method ReadOnce(device: PreviewAudioDevice, size: nat) returns (copied: nat)
    requires device.callbackInstalled
    modifies device`buffer, device`bytesRead, device`callbackInstalled, device`notified
    ensures copied <= size && device.bytesRead == old(device.bytesRead) + copied && device.callbackInstalled
    ensures device.notified == old(device.notified) +
      if Crosses(old(device.bytesRead), old(device.bytesRead) + copied, device.notifyInterval) then 1 else 0
  {
    var data := NewBuffer(size);
    copied := device.Read(data);
  }

  method NewBuffer(size: nat) returns (data: array<Byte>)
    ensures fresh(data) && data.Length == size
  {
    data := new Byte[size](_ => 0);
  }

  /**
   * One reader's reads since a clear, in buffers of these sizes: the notify callback is called as `Notifications`
   * counts.
   */
  method ReadInTurn(device: PreviewAudioDevice, sizes: seq<nat>) returns (lengths: seq<nat>)
    requires device.bytesRead == 0 && device.callbackInstalled
    modifies device`buffer, device`bytesRead, device`callbackInstalled, device`notified
    ensures |lengths| == |sizes| && forall k :: 0 <= k < |sizes| ==> lengths[k] <= sizes[k]
    ensures device.bytesRead == BytesAfter(lengths, |lengths|) && device.callbackInstalled
    ensures device.notified == old(device.notified) + Notifications(lengths, |lengths|, device.notifyInterval)
  {
    lengths := [];
    for i := 0 to |sizes|
      invariant |lengths| == i && forall k :: 0 <= k < i ==> lengths[k] <= sizes[k]
      invariant device.bytesRead == BytesAfter(lengths, i) && device.callbackInstalled
      invariant device.notified == old(device.notified) + Notifications(lengths, i, device.notifyInterval)
    {
      var copied := ReadOnce(device, sizes[i]);
      OneMoreRead(lengths, copied, device.notifyInterval);
      lengths := lengths + [copied];
    }
  }

  lemma {:induction false} SameBefore(lengths: seq<nat>, more: seq<nat>, n: nat, interval: int)
    requires n <= |lengths| && lengths <= more
    ensures BytesAfter(lengths, n) == BytesAfter(more, n)
    ensures Notifications(lengths, n, interval) == Notifications(more, n, interval)
  {
    if n > 0 { SameBefore(lengths, more, n - 1, interval); }
  }

  lemma OneMoreRead(lengths: seq<nat>, copied: nat, interval: int)
    ensures var more, n, bytes := lengths + [copied], |lengths|, BytesAfter(lengths, |lengths|);
      && BytesAfter(more, n + 1) == bytes + copied
      && Notifications(more, n + 1, interval) ==
        Notifications(lengths, n, interval) + if Crosses(bytes, bytes + copied, interval) then 1 else 0
  {
    SameBefore(lengths, lengths + [copied], |lengths|, interval);
  }

  /** No read passes two interval boundaries at once. */
  predicate OneBoundaryEach(lengths: seq<nat>, n: nat, interval: nat)
    requires n <= |lengths| && interval > 0
  {
    n == 0 || (OneBoundaryEach(lengths, n - 1, interval)
      && Quotient(BytesAfter(lengths, n), interval) <= Quotient(BytesAfter(lengths, n - 1), interval) + 1)
  }

  /**
   * The notifications count the intervals read exactly when no read passed two boundaries; otherwise they fall short.
   */
  lemma {:induction false} NotificationsCountIntervals(lengths: seq<nat>, n: nat, interval: nat)
    requires n <= |lengths| && interval > 0
    ensures Notifications(lengths, n, interval) <= Quotient(BytesAfter(lengths, n), interval)
    ensures Notifications(lengths, n, interval) == Quotient(BytesAfter(lengths, n), interval)
      <==> OneBoundaryEach(lengths, n, interval)
  {
    if n > 0 {
      NotificationsCountIntervals(lengths, n - 1, interval);
      QuotientMonotone(BytesAfter(lengths, n - 1), BytesAfter(lengths, n), interval);
    }
  }

  /** Reads no longer than the interval never pass two boundaries. */
  lemma {:induction false} ShortReadsCrossOnce(lengths: seq<nat>, n: nat, interval: nat)
    requires n <= |lengths| && interval > 0 && forall k :: 0 <= k < n ==> lengths[k] <= interval
    ensures OneBoundaryEach(lengths, n, interval)
  {
    if n > 0 {
      ShortReadsCrossOnce(lengths, n - 1, interval);
      QuotientMonotone(BytesAfter(lengths, n), BytesAfter(lengths, n - 1) + interval, interval);
    }
  }

  /** One read of two whole intervals notifies once. */
  lemma TwoIntervalsNotifyOnce(interval: nat)
    requires interval > 0
    ensures Quotient(BytesAfter([2 * interval], 1), interval) == 2 && Notifications([2 * interval], 1, interval) == 1
  {
    var lengths := [2 * interval];
    assert BytesAfter(lengths, 0) == 0 && BytesAfter(lengths, 1) == 2 * interval;
    assert Quotient(2 * interval, interval) == 1 + Quotient(interval, interval);
  }
}
