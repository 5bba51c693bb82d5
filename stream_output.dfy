/** The playback side of the pipeline (src/stream/output.rs): the data
    callback that the output device invokes to fill each buffer, and the
    telemetry tap (`feed_sample_ui`) it feeds with every sample it plays. */
module StreamOutput {
  import opened Audio
  import opened RingBuf

  // ---------------------------------------------------------------------
  // Telemetry tap

  /** `feed_sample_ui` removes the oldest reading when the buffer holds MORE
      than this many readings, so the buffer settles at UiHistory + 1. */
  const UiHistory: nat := 1000

  /** One feed that acquired the lock: drop the oldest reading if there are
      more than UiHistory, then append the new one. */
  function FeedStep(readings: seq<nat>, reading: nat): seq<nat> {
    if |readings| > UiHistory then readings[1..] + [reading] else readings + [reading]
  }

  /** Readings after the tap is fed one reading per played sample, in
      order: `rectify(played[i])`, recorded only when `locks[i]`, the outcome
      of that feed's `try_lock`, is true. */
  function FeedEach(readings: seq<nat>, played: seq<Sample>, locks: seq<bool>, rectify: Sample -> nat): seq<nat>
    requires |played| == |locks|
    decreases |played|
  {
    if played == [] then readings
    else
      var n := |played| - 1;
      var before := FeedEach(readings, played[..n], locks[..n], rectify);
      if locks[n] then FeedStep(before, rectify(played[n])) else before
  }

  /** The readings of `played` whose lock was acquired, in order. */
  function Kept(played: seq<Sample>, locks: seq<bool>, rectify: Sample -> nat): seq<nat>
    requires |played| == |locks|
    decreases |played|
  {
    if played == [] then []
    else
      var n := |played| - 1;
      Kept(played[..n], locks[..n], rectify) + (if locks[n] then [rectify(played[n])] else [])
  }

  /** The last `n` elements of `s`, or all of `s` when it is shorter. */
  function Latest(s: seq<nat>, n: nat): seq<nat> {
    if |s| <= n then s else s[|s| - n..]
  }

  /** The telemetry buffer is a sliding window: after any run of feeds it
      holds the most recent UiHistory + 1 of the old readings followed by the
      recorded ones, in their original order. */
  lemma {:induction false} FeedEachKeepsLatest(readings: seq<nat>, played: seq<Sample>, locks: seq<bool>, rectify: Sample -> nat)
    requires |played| == |locks|
    requires |readings| <= UiHistory + 1
    decreases |played|
    ensures FeedEach(readings, played, locks, rectify)
         == Latest(readings + Kept(played, locks, rectify), UiHistory + 1)
  {
    if played != [] {
      var n := |played| - 1;
      FeedEachKeepsLatest(readings, played[..n], locks[..n], rectify);
      var all := readings + Kept(played[..n], locks[..n], rectify);
      var x := rectify(played[n]);
      if locks[n] {
        assert readings + Kept(played, locks, rectify) == all + [x];
        if |all| > UiHistory + 1 {
          assert Latest(all, UiHistory + 1)[1..] + [x] == (all + [x])[|all| + 1 - (UiHistory + 1)..];
        }
      } else {
        assert readings + Kept(played, locks, rectify) == all;
      }
    }
  }

  /** The telemetry buffer never grows beyond UiHistory + 1 readings. */
  lemma FeedEachBounded(readings: seq<nat>, played: seq<Sample>, locks: seq<bool>, rectify: Sample -> nat)
    requires |played| == |locks|
    requires |readings| <= UiHistory + 1
    ensures |FeedEach(readings, played, locks, rectify)| <= UiHistory + 1
  {
  }

  /** Whatever the handle held to begin with, feeding never makes the buffer
      longer than the larger of its starting length and UiHistory + 1: a
      buffer handed over with more readings keeps its length, because each
      recorded reading then replaces the oldest one. */
  lemma {:induction false} FeedEachNeverGrows(readings: seq<nat>, played: seq<Sample>, locks: seq<bool>, rectify: Sample -> nat)
    requires |played| == |locks|
    decreases |played|
    ensures |FeedEach(readings, played, locks, rectify)|
         <= if |readings| <= UiHistory + 1 then UiHistory + 1 else |readings|
  {
    if played != [] {
      var n := |played| - 1;
      FeedEachNeverGrows(readings, played[..n], locks[..n], rectify);
    }
  }

  /** Every reading is kept when every lock is acquired. */
  lemma {:induction false} KeptAll(played: seq<Sample>, locks: seq<bool>, rectify: Sample -> nat)
    requires |played| == |locks|
    requires forall i :: 0 <= i < |locks| ==> locks[i]
    decreases |played|
    ensures Kept(played, locks, rectify) == seq(|played|, i requires 0 <= i < |played| => rectify(played[i]))
  {
    if played != [] {
      var n := |played| - 1;
      KeptAll(played[..n], locks[..n], rectify);
    }
  }

  /** When every `try_lock` fails the telemetry buffer is left unchanged. */
  lemma {:induction false} ContendedFeedsChangeNothing(readings: seq<nat>, played: seq<Sample>, locks: seq<bool>, rectify: Sample -> nat)
    requires |played| == |locks|
    requires forall i :: 0 <= i < |locks| ==> !locks[i]
    decreases |played|
    ensures FeedEach(readings, played, locks, rectify) == readings
  {
    if played != [] {
      var n := |played| - 1;
      ContendedFeedsChangeNothing(readings, played[..n], locks[..n], rectify);
    }
  }

  /** Playing samples 1..1500 into an empty buffer with the lock always
      acquired leaves the readings of samples 500..1500: 1001 entries, not
      1000. */
  lemma FeedFifteenHundred(rectify: Sample -> nat)
    ensures FeedEach([], seq(1500, i => i + 1), seq(1500, _ => true), rectify)
         == seq(1001, i => rectify(i + 500))
  {
    var played: seq<Sample> := seq(1500, i => i + 1);
    var locks := seq(1500, _ => true);
    FeedEachKeepsLatest([], played, locks, rectify);
    KeptAll(played, locks, rectify);
  }

  /** `feed_sample_ui`: when `acquired` (the outcome of `try_lock`), drops
      the oldest reading if the buffer holds more than UiHistory and appends
      `reading`; otherwise leaves the buffer as it is. */
  method FeedSampleUi(sampleForUi: Shared<nat>, reading: nat, acquired: bool)
    modifies sampleForUi
    ensures sampleForUi.items == if acquired then FeedStep(old(sampleForUi.items), reading) else old(sampleForUi.items)
  {
    if acquired {
      var guard := sampleForUi.items;
      if |guard| > UiHistory {
        guard := guard[1..];
      }
      sampleForUi.items := guard + [reading];
    }
  }

  // ---------------------------------------------------------------------
  // Playback callback

  /** What one invocation of the playback callback produces: the samples
      written to the device, the queue's remaining contents, and whether it
      reported that the input side fell behind. */
  datatype Playback = Playback(played: seq<Sample>, contents: seq<Sample>, underflow: bool)

  /** One slot: `pop` the oldest queued sample and play it, or play silence
      and raise the underflow flag when the queue is empty. */
  function PlaySlot(p: Playback): Playback {
    if p.contents == [] then Playback(p.played + [Silence], p.contents, true)
    else Playback(p.played + [p.contents[0]], p.contents[1..], p.underflow)
  }

  /** Reference semantics of the callback: its `n` slots are filled one at a
      time, in order, starting from the queue `q` with nothing played and no
      underflow reported. */
  function PopEach(q: seq<Sample>, n: nat): Playback
    decreases n
  {
    if n == 0 then Playback([], q, false) else PlaySlot(PopEach(q, n - 1))
  }

  /** The callback plays the first min(n, |q|) queued samples in order, then
      silence for the remaining slots; the queue loses exactly what was
      played; the flag is raised exactly when the queue ran dry. */
  lemma {:induction false} PopEachPlaysPrefix(q: seq<Sample>, n: nat)
    decreases n
    ensures PopEach(q, n).played == q[..Min(n, |q|)] + Zeros(n - Min(n, |q|))
    ensures PopEach(q, n).contents == q[Min(n, |q|)..]
    ensures PopEach(q, n).underflow <==> n > |q|
  {
    if n > 0 {
      PopEachPlaysPrefix(q, n - 1);
      var k := Min(n - 1, |q|);
      if n - 1 < |q| {
        assert q[..k] + [q[k]] == q[..k + 1];
        assert q[k..][1..] == q[k + 1..];
      } else {
        assert Zeros(n - 1 - k) + [Silence] == Zeros(n - k);
      }
    }
  }

  /** Feeding the reading of one more played sample extends FeedEach by one
      step. */
  lemma FeedOneMore(ui: seq<nat>, played: seq<Sample>, v: Sample, locks: seq<bool>, rectify: Sample -> nat)
    requires |played| < |locks|
    ensures var n := |played|;
      var before := FeedEach(ui, played, locks[..n], rectify);
      FeedEach(ui, played + [v], locks[..n + 1], rectify)
        == if locks[n] then FeedStep(before, rectify(v)) else before
  {
    var n := |played|;
    assert (played + [v])[..n] == played;
    assert locks[..n + 1][..n] == locks[..n];
  }

  /** The data callback of `Output::build_stream`: fills every slot of `data`,
      in order, with a popped sample or with silence, feeds the tap the reading
      of each value actually written (`locks[i]` is the outcome of that
      slot's `try_lock`), and returns the aggregated "input stream fell
      behind" flag (at most one message per invocation). The tap never affects
      what is played. */
  method DataCallback(consumer: RingBuffer, data: array<Sample>, sampleForUi: Shared?<nat>,
                      locks: seq<bool>, rectify: Sample -> nat)
    returns (inputFellBehind: bool)
    requires consumer.Valid()
    requires data != consumer.data
    requires |locks| == data.Length
    modifies consumer, data, sampleForUi
    ensures consumer.Valid()
    ensures Playback(data[..], consumer.Contents, inputFellBehind)
         == PopEach(old(consumer.Contents), data.Length)
    ensures sampleForUi != null ==>
              sampleForUi.items == FeedEach(old(sampleForUi.items), data[..], locks, rectify)
  {
    ghost var q := consumer.Contents;
    ghost var ui := if sampleForUi != null then sampleForUi.items else [];
    ghost var played: seq<Sample> := [];
    inputFellBehind := false;
    var i := 0;
    while i < data.Length
      invariant 0 <= i <= data.Length
      invariant consumer.Valid()
      invariant data[..i] == played
      invariant Playback(played, consumer.Contents, inputFellBehind) == PopEach(q, i)
      invariant sampleForUi != null ==> sampleForUi.items == FeedEach(ui, played, locks[..i], rectify)
    {
      var popped := consumer.Pop();
      var value: Sample;
      match popped {
        case Some(s) =>
          value := s;
        case None =>
          inputFellBehind := true;
          value := Silence;
      }
      if sampleForUi != null {
        FeedSampleUi(sampleForUi, rectify(value), locks[i]);
      }
      data[i] := value;
      FeedOneMore(ui, played, value, locks, rectify);
      played := played + [value];
      i := i + 1;
    }
    assert data[..] == played;
    assert locks[..data.Length] == locks;
  }
}
