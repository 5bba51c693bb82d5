/** The standalone output test path (src/output.rs): `write_data` fills an
    interleaved output buffer frame by frame, asking a generator for one
    value per frame and writing it to every channel of that frame. */
module Output {
  import opened Audio

  /** Number of frames `chunks_mut(channels)` splits `n` slots into: whole
      frames of `channels` slots and, when `channels` does not divide `n`, one
      shorter last frame. */
  function FrameCount(n: nat, channels: nat): (frames: nat)
    requires channels > 0
    decreases n
    ensures n <= frames * channels < n + channels
  {
    if n == 0 then 0 else 1 + FrameCount(n - Min(channels, n), channels)
  }

  /** The frame that slot `i` belongs to. */
  function FrameOf(i: nat, channels: nat): nat
    requires channels > 0
  {
    i / channels
  }

  /** Slot `i` lies in frame `f` exactly when `f * channels <= i < (f + 1) *
      channels`. */
  lemma FrameOfSlot(i: nat, f: nat, channels: nat)
    requires channels > 0
    requires f * channels <= i < f * channels + channels
    ensures FrameOf(i, channels) == f
  {
    var q := i / channels;
    assert i == q * channels + i % channels;
    if q < f {
      MonotoneProduct(q + 1, f, channels);
      assert false;
    } else if q > f {
      MonotoneProduct(f + 1, q, channels);
      assert false;
    }
  }

  /** FrameCount is the only number of frames that covers `n` slots with
      less than one frame to spare. */
  lemma FrameCountUnique(n: nat, channels: nat, frames: nat)
    requires channels > 0
    requires n <= frames * channels < n + channels
    ensures frames == FrameCount(n, channels)
  {
    var f := FrameCount(n, channels);
    if frames < f {
      MonotoneProduct(frames + 1, f, channels);
      assert false;
    } else if frames > f {
      MonotoneProduct(f + 1, frames, channels);
      assert false;
    }
  }

  /** `Output::write_data`: the generator `next_sample` is modelled by
      `nextSample(k)`, the value it returns on its `k`-th call. Every slot is
      written, slot `i` gets the value of the generator's call for its frame
      `FrameOf(i, channels)`, and the generator is called exactly once per frame, in
      frame order. */
  method WriteData(output: array<Sample>, channels: nat, nextSample: nat -> Sample)
    returns (calls: nat)
    requires channels > 0
    modifies output
    ensures calls == FrameCount(output.Length, channels)
    ensures forall i :: 0 <= i < output.Length ==> output[i] == nextSample(FrameOf(i, channels))
  {
    calls := 0;
    var start := 0;
    while start < output.Length
      invariant start <= output.Length
      invariant start == output.Length || start == calls * channels
      invariant start <= calls * channels < start + channels
      invariant forall i :: 0 <= i < start ==> output[i] == nextSample(FrameOf(i, channels))
      decreases output.Length - start
    {
      var value := nextSample(calls);
      var end := Min(start + channels, output.Length);
      var j := start;
      while j < end
        invariant start <= j <= end
        invariant forall i :: 0 <= i < start ==> output[i] == nextSample(FrameOf(i, channels))
        invariant forall i :: start <= i < j ==> output[i] == value
      {
        output[j] := value;
        j := j + 1;
      }
      forall i | start <= i < end
        ensures output[i] == nextSample(FrameOf(i, channels))
      {
        FrameOfSlot(i, calls, channels);
      }
      assert (calls + 1) * channels == calls * channels + channels;
      start := end;
      calls := calls + 1;
    }
    FrameCountUnique(output.Length, channels, calls);
  }

}
