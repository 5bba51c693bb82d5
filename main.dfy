/** The binary's own pipeline set-up (src/main.rs): `init_stream`, an
    earlier copy of the latency and prefill logic of `Stream::new`. */
module Launcher {
  import opened Audio
  import opened RingBuf
  import opened Stream

  /** `init_stream` with the input device's configuration `config`: the same
      latency (100 ms, truncated to whole frames, times the channel count),
      the same queue of twice that capacity, the same prefill with silence
      that never fails. */
  method InitStream(config: StreamConfig) returns (latencySamples: nat, ring: RingBuffer)
    ensures latencySamples == LatencySamples(DefaultLatencyMs, config)
    ensures fresh(ring) && fresh(ring.data) && ring.Valid()
    ensures ring.Capacity() == 2 * latencySamples
    ensures ring.Contents == Zeros(latencySamples)
  {
    latencySamples := LatencySamples(DefaultLatencyMs, config);
    ring := Prefill(latencySamples);
  }
}
