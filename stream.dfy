/** The pipeline assembled by `Stream::new` (src/stream/mod.rs): the latency
    it adds, the shared queue it allocates and prefills with silence, the
    binding of the queue's producer half to the capture callback and of its
    consumer half to the playback callback, and the order in which `play`
    starts the two devices. */
module Stream {
  import opened Audio
  import opened RingBuf
  import opened StreamInput
  import opened StreamOutput

  /** The latency the program adds between capture and playback, in
      milliseconds. */
  const DefaultLatencyMs: nat := 100

  /** The part of the input device's negotiated configuration the pipeline
      uses. */
  datatype StreamConfig = StreamConfig(sampleRate: nat, channels: nat)

  /** Frames of latency: `latency_ms / 1000 * sample_rate`, truncated. The
      result is the largest whole number of frames that fits in `ms`
      milliseconds at `rate` frames per second. */
  function LatencyFrames(ms: nat, rate: nat): (frames: nat)
    ensures frames * 1000 <= ms * rate < (frames + 1) * 1000
  {
    ms * rate / 1000
  }

  /** Samples of latency: whole frames times the channel count (samples are
      interleaved, one per channel per frame). The truncation drops less
      than one frame's worth of samples. */
  function LatencySamples(ms: nat, config: StreamConfig): (samples: nat)
    ensures samples * 1000 <= ms * config.sampleRate * config.channels
    ensures config.channels > 0 ==>
              ms * config.sampleRate * config.channels < (samples + config.channels) * 1000
  {
    LatencyFramesTimesChannels(ms, config.sampleRate, config.channels);
    LatencyFrames(ms, config.sampleRate) * config.channels
  }

  lemma LatencyFramesTimesChannels(ms: nat, rate: nat, channels: nat)
    ensures var f := LatencyFrames(ms, rate);
      && f * channels * 1000 <= ms * rate * channels
      && (channels > 0 ==> ms * rate * channels < (f * channels + channels) * 1000)
  {
    var f := LatencyFrames(ms, rate);
    MonotoneProduct(f * 1000, ms * rate, channels);
    assert f * channels * 1000 == f * 1000 * channels;
    if channels > 0 {
      StrictProduct(ms * rate, (f + 1) * 1000, channels);
      assert (f * channels + channels) * 1000 == (f + 1) * 1000 * channels;
    }
  }

  lemma StrictProduct(a: nat, b: nat, c: nat)
    requires a < b && c > 0
    ensures a * c < b * c
  {
  }

  /** At the default 100 ms: 9600 samples for 48 kHz stereo, 4410 for
      44.1 kHz mono. */
  lemma DefaultLatencyExamples()
    ensures LatencySamples(DefaultLatencyMs, StreamConfig(48000, 2)) == 9600
    ensures LatencySamples(DefaultLatencyMs, StreamConfig(44100, 1)) == 4410
  {
  }

  /** `RingBuffer::new(latency_samples * 2)` followed by `latency_samples`
      pushes of silence, each of which is unwrapped: none of them can fail,
      because the queue is allocated with twice the room. The queue then
      holds exactly `latencySamples` zeros and has as many free slots. */
  method Prefill(latencySamples: nat) returns (ring: RingBuffer)
    ensures fresh(ring) && fresh(ring.data) && ring.Valid()
    ensures ring.Capacity() == 2 * latencySamples
    ensures ring.Contents == Zeros(latencySamples)
    ensures ring.Capacity() - |ring.Contents| == latencySamples
  {
    ring := new RingBuffer(latencySamples * 2);
    for k := 0 to latencySamples
      invariant fresh(ring) && fresh(ring.data) && ring.Valid()
      invariant ring.Capacity() == 2 * latencySamples
      invariant ring.Contents == Zeros(k)
    {
      var ok := ring.Push(Silence);
      assert ok;
      assert Zeros(k) + [Silence] == Zeros(k + 1);
    }
  }

  /** A `Stream` after `Stream::new`: the queue shared by the two callbacks
      (its producer half belongs to the capture callback, its consumer half
      to the playback callback) and the telemetry handle, which only the
      playback callback is given. */
  class Stream {
    const ring: RingBuffer
    const sampleForUi: Shared<nat>
    const latencySamples: nat

    /** `Stream::new` with the input device's configuration `config`. */
    constructor New(config: StreamConfig, sampleForUi: Shared<nat>)
      ensures latencySamples == LatencySamples(DefaultLatencyMs, config)
      ensures fresh(ring) && fresh(ring.data) && ring.Valid()
      ensures ring.Capacity() == 2 * latencySamples
      ensures ring.Contents == Zeros(latencySamples)
      ensures this.sampleForUi == sampleForUi
    {
      var samples := LatencySamples(DefaultLatencyMs, config);
      var prefilled := Prefill(samples);
      latencySamples := samples;
      ring := prefilled;
      this.sampleForUi := sampleForUi;
    }

    /** The capture device delivers `data`: the capture callback runs on the
        producer half, with no telemetry, so the telemetry buffer is not
        touched. */
    method OnCapture(data: seq<Sample>) returns (outputFellBehind: bool)
      requires ring.Valid()
      modifies ring, ring.data
      ensures ring.Valid()
      ensures Capture(ring.Contents, outputFellBehind)
           == PushEach(old(ring.Contents), ring.Capacity(), data)
      ensures unchanged(sampleForUi)
    {
      outputFellBehind := StreamInput.DataCallback(ring, data);
    }

    /** The playback device asks for `data` to be filled: the playback
        callback runs on the consumer half and feeds the telemetry handle. */
    method OnPlayback(data: array<Sample>, locks: seq<bool>, rectify: Sample -> nat)
      returns (inputFellBehind: bool)
      requires ring.Valid()
      requires data != ring.data
      requires |locks| == data.Length
      modifies ring, data, sampleForUi
      ensures ring.Valid()
      ensures Playback(data[..], ring.Contents, inputFellBehind)
           == PopEach(old(ring.Contents), data.Length)
      ensures sampleForUi.items == FeedEach(old(sampleForUi.items), data[..], locks, rectify)
    {
      inputFellBehind := StreamOutput.DataCallback(ring, data, sampleForUi, locks, rectify);
    }
  }

  datatype Device = InputDevice | OutputDevice

  /** What `Stream::play` did: the devices it asked to start, in order, and
      whether it returned `Ok`. */
  datatype PlayOutcome = PlayOutcome(attempted: seq<Device>, ok: bool)

  /** `Stream::play`, given whether each device's `play` succeeds: the input
      device is started first and a failure there returns at once, so the
      output device is only started once the input device is running. */
  function Play(inputStarts: bool, outputStarts: bool): (r: PlayOutcome)
    ensures |r.attempted| > 0 && r.attempted[0] == InputDevice
    ensures OutputDevice in r.attempted <==> inputStarts
    ensures r.ok <==> inputStarts && outputStarts
  {
    if !inputStarts then PlayOutcome([InputDevice], false)
    else PlayOutcome([InputDevice, OutputDevice], outputStarts)
  }

  // ---------------------------------------------------------------------
  // The pipeline end to end

  /** Right after the prefill the queue has room for exactly `latency`
      captured samples: a chunk of at most that many is accepted whole, and
      any longer chunk overflows, keeping only its first `latency` samples. */
  lemma PrefillHeadroom(latency: nat, chunk: seq<Sample>)
    ensures var c := PushEach(Zeros(latency), 2 * latency, chunk);
      && (c.overflow <==> |chunk| > latency)
      && c.contents == Zeros(latency) + chunk[..Min(|chunk|, latency)]
  {
    PushEachAcceptsFreePrefix(Zeros(latency), 2 * latency, chunk);
  }

  /** Samples come out of the pipeline in the order they went in, delayed by
      the prefill: after a chunk of at most `latency` samples is captured
      into the freshly prefilled queue, playing `n` slots plays the
      `latency` zeros, then the chunk, then silence once the queue runs dry.
      In particular captured sample `k` is played in slot `latency + k`. */
  lemma {:induction false} PrefillDelaysPlayback(latency: nat, chunk: seq<Sample>, n: nat)
    requires |chunk| <= latency
    ensures var c := PushEach(Zeros(latency), 2 * latency, chunk);
      var played := PopEach(c.contents, n).played;
      var m := Min(n, latency + |chunk|);
      && !c.overflow
      && played == (Zeros(latency) + chunk)[..m] + Zeros(n - m)
      && (forall k :: 0 <= k < |chunk| && latency + k < n ==> played[latency + k] == chunk[k])
  {
    var c := PushEach(Zeros(latency), 2 * latency, chunk);
    PushEachAcceptsFreePrefix(Zeros(latency), 2 * latency, chunk);
    assert chunk[..Min(|chunk|, latency)] == chunk;
    PopEachPlaysPrefix(c.contents, n);
    var played := PopEach(c.contents, n).played;
    var m := Min(n, latency + |chunk|);
    forall k | 0 <= k < |chunk| && latency + k < n
      ensures played[latency + k] == chunk[k]
    {
      assert played[latency + k] == (Zeros(latency) + chunk)[latency + k];
    }
  }

  /** With a latency of zero samples (no zero check guards against it) the
      queue has no room at all: every non-empty captured chunk overflows and
      is dropped whole, and every playback slot underflows and plays
      silence. */
  lemma ZeroLatencyDeliversNothing(chunk: seq<Sample>, n: nat)
    ensures PushEach([], 0, chunk) == Capture([], chunk != [])
    ensures PopEach([], n) == Playback(Zeros(n), [], n > 0)
  {
  }
}
