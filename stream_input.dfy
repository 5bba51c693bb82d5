/** The capture side of the pipeline (src/stream/input.rs): the data callback
    that the input device invokes with each newly captured chunk. */
module StreamInput {
  import opened Audio
  import opened RingBuf

  /** What one invocation of the capture callback leaves behind: the queue's
      contents and whether it reported that the output side fell behind. */
  datatype Capture = Capture(contents: seq<Sample>, overflow: bool)

  /** Reference semantics of the callback, one sample at a time: each sample
      of `chunk`, in order, is offered once to `push` on a queue of capacity
      `cap` holding `q`; a push on a full queue drops that sample, is not
      retried, and raises the single overflow flag. */
  function PushEach(q: seq<Sample>, cap: nat, chunk: seq<Sample>): Capture
    decreases |chunk|
  {
    if chunk == [] then Capture(q, false)
    else
      var accepted := |q| < cap;
      var rest := PushEach(if accepted then q + [chunk[0]] else q, cap, chunk[1..]);
      Capture(rest.contents, rest.overflow || !accepted)
  }

  /** The callback accepts exactly the first min(|chunk|, free space)
      samples, appended after the earlier contents in chunk order; it flags an
      overflow exactly when the chunk does not fit, and then the queue ends
      full. */
  lemma {:induction false} PushEachAcceptsFreePrefix(q: seq<Sample>, cap: nat, chunk: seq<Sample>)
    requires |q| <= cap
    decreases |chunk|
    ensures PushEach(q, cap, chunk).contents == q + chunk[..Min(|chunk|, cap - |q|)]
    ensures PushEach(q, cap, chunk).overflow <==> |chunk| > cap - |q|
    ensures PushEach(q, cap, chunk).overflow ==> |PushEach(q, cap, chunk).contents| == cap
  {
    if chunk != [] {
      var k := Min(|chunk|, cap - |q|);
      if |q| < cap {
        PushEachAcceptsFreePrefix(q + [chunk[0]], cap, chunk[1..]);
        assert (q + [chunk[0]]) + chunk[1..][..k - 1] == q + chunk[..k];
      } else {
        PushEachAcceptsFreePrefix(q, cap, chunk[1..]);
        assert chunk[..k] == [] == chunk[1..][..0];
      }
    }
  }

  /** The data callback of `Input::build_stream`: pushes every captured
      sample into the producer half and returns the aggregated "output stream
      fell behind" flag (at most one warning per invocation); it has no error
      result. */
  method DataCallback(producer: RingBuffer, data: seq<Sample>) returns (outputFellBehind: bool)
    requires producer.Valid()
    modifies producer, producer.data
    ensures producer.Valid()
    ensures Capture(producer.Contents, outputFellBehind)
         == PushEach(old(producer.Contents), producer.Capacity(), data)
  {
    ghost var q := producer.Contents;
    ghost var free := producer.Capacity() - |q|;
    outputFellBehind := false;
    var i := 0;
    while i < |data|
      invariant 0 <= i <= |data|
      invariant producer.Valid()
      invariant producer.Contents == q + data[..Min(i, free)]
      invariant outputFellBehind <==> i > free
    {
      var ok := producer.Push(data[i]);
      if !ok {
        outputFellBehind := true;
      } else {
        assert data[..i + 1] == data[..i] + [data[i]];
      }
      i := i + 1;
    }
    PushEachAcceptsFreePrefix(q, producer.Capacity(), data);
  }
}
