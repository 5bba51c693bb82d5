# rs_player capture-to-playback pipeline, in Dafny

rs_player records audio from the default input device and plays it straight
back on the default output device. The two devices run on their own audio
callbacks and share a fixed-capacity FIFO queue (the `ringbuf` crate).
`Stream::new` computes a latency of 100 ms worth of samples. It allocates a
queue of twice that size and prefills it with that many zeros. It then gives
the producer half to the capture callback and the consumer half to the
playback callback.

- The capture callback pushes every captured sample and reports once if any
  push failed ("output stream fell behind").
- The playback callback pops one sample per output slot. It plays silence
  when the queue is empty and reports that once ("input stream fell
  behind").
- The playback callback also feeds each value it plays into a bounded
  telemetry buffer that the terminal UI draws.
- Two older standalone paths are included: `write_data` writes one generated
  value into every channel of each output frame, and `write_input_data`
  copies a captured chunk into a shared buffer under a `try_lock`.
- `init_stream` in the binary is an earlier copy of the latency and prefill
  logic.

The model is sequential. The queue is a class over an array with a head and
a count, whose ghost `Contents` is the sequence of queued samples. Each
callback is a method with the loop the program has, proved against a
reference function that processes one sample or slot at a time:

- `PushEach` for the capture callback;
- `PopEach` for the playback callback;
- `FeedEach` for the telemetry buffer.

Closed-form lemmas then say what those functions compute: which prefix is
accepted, what is played, and which readings are kept. End-to-end lemmas in
`Stream` combine them: samples come out in capture order, delayed by the
prefill.

How the model treats the source's inputs and quirks:

- The outcome of each `try_lock` is a boolean parameter.
- The telemetry conversion `abs() * 100 as u64` is an arbitrary function
  `rectify` from samples to naturals.
- The generator passed to `write_data` is a function from call number to
  value.
- Samples are integers, with 0 for silence. Apart from the telemetry
  conversion (modelled by `rectify`) and the cpal format conversions
  (modelled as the identity), the pipeline only stores and moves samples.
- The telemetry buffer drops its oldest reading only when it holds more than
  1000 readings (src/stream/output.rs:58). It therefore settles at 1001
  readings, not 1000. The model follows the code: `UiHistory` is 1000, the
  bound proved is `UiHistory + 1`, and `StreamOutput.FeedFifteenHundred`
  shows the 1001 readings that remain after 1500 plays. That bound assumes
  the handle starts with at most 1001 readings; it starts empty in a session.
  `StreamOutput.FeedEachNeverGrows` covers a handle that starts longer: its
  length then never grows.
- Nothing in the code rejects a latency of zero samples, for example a
  sample rate below 10 Hz. The model allows it, and
  `Stream.ZeroLatencyDeliversNothing` shows what then happens.
- src/stream/mod.rs:51 hands the capture side a second argument `None`,
  while `Input::build_stream` (src/stream/input.rs:44) takes only the
  producer. Either way the capture callback never touches telemetry, and
  that is what the model states.
- The telemetry buffer is declared as `Vec<u64>` (src/ui/mod.rs:24-26), but
  the feed pushes a pair `("", value)` (src/stream/output.rs:62). The model
  records the value alone, as a natural number.

## Model

| member | source | states |
|---|---|---|
| RingBuf.RingBuffer.constructor | src/stream/mod.rs:42 | A new queue of the given capacity is empty. |
| RingBuf.RingBuffer.Push | src/stream/input.rs:51-53 | A push succeeds exactly when the queue is not full; on success the sample is appended after all earlier contents; on failure nothing changes. |
| RingBuf.RingBuffer.Pop | src/stream/output.rs:67-76 | An empty queue gives None and is unchanged; otherwise the oldest sample is returned and removed, and the rest keep their order. |
| StreamInput.PushEachAcceptsFreePrefix | src/stream/input.rs:50-54 | Offering a chunk sample by sample appends exactly its first min(chunk length, free space) samples in order. The overflow flag is raised exactly when the chunk exceeds the free space, and then the queue ends full. |
| StreamInput.DataCallback | src/stream/input.rs:48-58 | The capture callback offers every sample once, in order, and drops rejected samples without retry. Its queue and single aggregated flag equal the per-sample reference `PushEach`. |
| StreamOutput.FeedSampleUi | src/stream/output.rs:55-65 | When the lock is acquired, one feed drops the oldest reading if there are more than 1000, then appends the new reading. When the lock is contended the buffer is unchanged. |
| StreamOutput.FeedEachKeepsLatest | src/stream/output.rs:58-62 | After any run of feeds, the telemetry buffer holds the most recent 1001 of its old readings followed by the recorded ones, in their original order. |
| StreamOutput.FeedEachBounded | src/stream/output.rs:58-62 | The telemetry buffer never holds more than 1001 readings when it starts with at most that many. |
| StreamOutput.FeedEachNeverGrows | src/stream/output.rs:58-62 | From any starting buffer, feeding never makes it longer than the larger of its starting length and 1001. |
| StreamOutput.KeptAll | src/stream/output.rs:66-77 | When every lock is acquired, every played value is recorded, in play order. |
| StreamOutput.ContendedFeedsChangeNothing | src/stream/output.rs:56-57 | When every `try_lock` fails, the telemetry buffer is unchanged. |
| StreamOutput.FeedFifteenHundred | src/stream/output.rs:58-62 | Playing values 1..1500 with the lock always acquired leaves the readings of values 500..1500, which is 1001 entries. |
| StreamOutput.PopEachPlaysPrefix | src/stream/output.rs:66-78 | Filling n slots plays the first min(n, queued) samples in order, then silence. The queue loses exactly that prefix. The flag is raised exactly when n exceeds the queued count. |
| StreamOutput.DataCallback | src/stream/output.rs:53-82 | The playback callback writes every slot once, in order. Its output, remaining queue and aggregated flag equal the reference `PopEach`. The telemetry buffer receives the reading of exactly the value written to each slot, whose lock succeeded. The audio written does not depend on the telemetry. |
| Stream.LatencyFrames | src/stream/mod.rs:37 | The latency in frames is the largest whole number of frames that fits in the latency at the given rate. |
| Stream.LatencySamples | src/stream/mod.rs:37-38 | The latency in samples is whole frames times channels. It is never more than the exact product, and with at least one channel it falls short of it by less than one frame. |
| Stream.DefaultLatencyExamples | src/stream/mod.rs:28-38 | At 100 ms the latency is 9600 samples for 48 kHz stereo and 4410 for 44.1 kHz mono. |
| Stream.Prefill | src/stream/mod.rs:42-49 | The queue gets capacity exactly twice the latency. It receives exactly `latency` zeros, none of whose pushes can fail, and is left with `latency` free slots. |
| Stream.Stream.New | src/stream/mod.rs:26-57 | The stream's latency follows the 100 ms default and the input configuration. Its fresh queue is prefilled with that many zeros, and the telemetry handle is the one passed in. |
| Stream.Stream.OnCapture | src/stream/mod.rs:51 | The producer half goes to the capture callback, which never touches the telemetry buffer. |
| Stream.Stream.OnPlayback | src/stream/mod.rs:52 | The consumer half goes to the playback callback together with the telemetry handle. |
| Stream.Play | src/stream/mod.rs:59-63 | The input device is started first. The output device is started only if the input device started. The result is Ok exactly when both started. |
| Stream.PrefillHeadroom | src/stream/mod.rs:42-49 | After the prefill, a captured chunk of at most `latency` samples is accepted whole. A longer chunk overflows and keeps only its first `latency` samples. |
| Stream.PrefillDelaysPlayback | src/stream/mod.rs:42-52 | After the prefill and one captured chunk that fits, playback gives the `latency` zeros, then the chunk in capture order, then silence. Captured sample k is played in slot latency + k. |
| Stream.ZeroLatencyDeliversNothing | src/stream/mod.rs:37-42 | With zero latency the queue has no room: every non-empty chunk overflows and is dropped, and every slot underflows to silence. |
| Output.FrameCount | src/output.rs:79 | `chunks_mut(channels)` yields the least number of frames that covers every slot: n <= frames * channels < n + channels. |
| Output.FrameOfSlot | src/output.rs:79-83 | A slot i with f * channels <= i < (f + 1) * channels belongs to frame f, the frame whose value it receives. |
| Output.WriteData | src/output.rs:75-85 | Every slot is written. Slot i gets the generator's value for frame i / channels, so all slots of a frame agree. The generator is called once per frame, ceil(len / channels) times, in frame order. |
| Input.WriteInputData | src/input.rs:68-77 | When the lock is acquired, the whole chunk is appended in order after the earlier contents. When it is contended, the whole chunk is dropped and the buffer is unchanged. |
| Input.CapturedExtendsPrior | src/input.rs:72-75 | Over any run of chunks, the earlier contents stay a prefix. The buffer grows by exactly the total length of the chunks whose lock was acquired. |
| Input.CaptureSession | src/input.rs:45-58 | The input stream calls `write_input_data` once per chunk, in arrival order. The buffer then ends as the chunks whose lock was acquired, concatenated after the earlier contents (`Captured`). |
| Launcher.InitStream | src/main.rs:101-116 | The binary's copy computes the same latency and allocates the same doubled queue. It prefills the same zeros, none of whose pushes fail. |

## Left out

- Launcher.InitStream: models the latency and the prefill of
  `init_stream`. It does not model the handoff of the producer and consumer
  halves at src/main.rs:118-119. Those calls go to `build_stream` methods
  that src/input.rs and src/output.rs do not define.
- Output.WriteData: requires `channels > 0`. With zero channels
  `chunks_mut(0)` panics (src/output.rs:79), and that panic is not
  modelled.
- Device plumbing is not modelled: host and device selection, configuration
  negotiation, `build_input_stream`/`build_output_stream`, the devices' own
  `play`, and the error callbacks. The stream configuration is a parameter,
  and a device's `play` is a boolean outcome passed to `Stream.Play`.
- Stream.Play: models `play` after `Stream::new`, when both streams exist.
  The branch where a device has no stream logs an error and returns Ok. It
  cannot occur after `Stream::new` and is not modelled.
- The queue's concurrency is not modelled. The `ringbuf` crate is a
  lock-free single-producer single-consumer queue whose two halves run on
  different threads. The model is one sequential object, and each callback
  runs to completion before the next begins.
- `Arc<Mutex<..>>` and `try_lock` are not modelled as locks. Whether each
  lock attempt succeeds is a parameter, decided by the other thread.
- Stream.LatencyFrames: computes the exact floor of ms * rate / 1000. The
  program multiplies `100f32 / 1000.0` by the rate in single precision and
  then truncates. The f32 product could round across an integer for some
  rates, and that rounding is not modelled.
- StreamOutput.FeedSampleUi: the reading is `rectify(value)` for an
  arbitrary `rectify`. The `abs() * 100` in f32 and the saturating cast to
  `u64` are not modelled.
- Samples are integers, not `f32`. The `cpal::Sample` format conversions
  (`Sample::from`, `to_f32`) are the identity in the model.
- The 440 Hz sinusoid generator of `Output::running` is not modelled. Its
  values are the arbitrary `nextSample` parameter of `Output.WriteData`.
- Logging is not modelled. `Log::warn`, `Log::error` and `eprintln!`
  messages become the returned "fell behind" flags, at most one per
  callback.
- The terminal UI (src/ui), the log singleton (src/log), the tokio tasks and
  the main loop are not modelled. Neither are `Input::read` and
  `Output::run`, which build a stream and sleep, the `Display`
  implementations, and the `StreamDevice` trait declarations.
