/** The standalone capture test path (src/input.rs): `write_input_data`
    copies each captured chunk into a shared, lock-protected buffer. */
module Input {
  import opened Audio

  /** `Input::write_input_data`: when `acquired` (the outcome of
      `try_lock`), pushes every sample of `input`, in order, after the
      buffer's earlier contents; when the lock is contended the whole chunk
      is dropped and the buffer is left as it was. */
  method WriteInputData(input: seq<Sample>, buffer: Shared<Sample>, acquired: bool)
    modifies buffer
    ensures acquired ==> buffer.items == old(buffer.items) + input
    ensures !acquired ==> buffer.items == old(buffer.items)
  {
    if acquired {
      ghost var prior := buffer.items;
      for k := 0 to |input|
        invariant buffer.items == prior + input[..k]
      {
        buffer.items := buffer.items + [input[k]];
        assert input[..k + 1] == input[..k] + [input[k]];
      }
      assert input[..|input|] == input;
    }
  }

  /** What a run of callbacks leaves in the buffer: the chunks whose lock was
      acquired, concatenated in arrival order. */
  function Captured(prior: seq<Sample>, chunks: seq<seq<Sample>>, locks: seq<bool>): seq<Sample>
    requires |chunks| == |locks|
    decreases |chunks|
  {
    if chunks == [] then prior
    else
      var n := |chunks| - 1;
      var before := Captured(prior, chunks[..n], locks[..n]);
      if locks[n] then before + chunks[n] else before
  }

  /** Each callback only appends: the earlier contents stay a prefix, and
      the buffer grows by exactly the total length of the chunks whose lock
      was acquired. */
  lemma {:induction false} CapturedExtendsPrior(prior: seq<Sample>, chunks: seq<seq<Sample>>, locks: seq<bool>)
    requires |chunks| == |locks|
    decreases |chunks|
    ensures var r := Captured(prior, chunks, locks);
      && |prior| <= |r| && r[..|prior|] == prior
      && |r| == |prior| + AcceptedLength(chunks, locks)
  {
    if chunks != [] {
      var n := |chunks| - 1;
      CapturedExtendsPrior(prior, chunks[..n], locks[..n]);
      var before := Captured(prior, chunks[..n], locks[..n]);
      if locks[n] {
        assert (before + chunks[n])[..|prior|] == before[..|prior|];
      }
    }
  }

  /** Total length of the chunks whose lock was acquired. */
  function AcceptedLength(chunks: seq<seq<Sample>>, locks: seq<bool>): nat
    requires |chunks| == |locks|
    decreases |chunks|
  {
    if chunks == [] then 0
    else
      var n := |chunks| - 1;
      AcceptedLength(chunks[..n], locks[..n]) + (if locks[n] then |chunks[n]| else 0)
  }

  /** The input stream of `Input::read` calling `write_input_data` once per
      captured chunk, in arrival order, where `locks[k]` is the outcome of
      the `try_lock` for chunk `k`: the buffer ends as `Captured` says. */
  method CaptureSession(chunks: seq<seq<Sample>>, buffer: Shared<Sample>, locks: seq<bool>)
    requires |chunks| == |locks|
    modifies buffer
    ensures buffer.items == Captured(old(buffer.items), chunks, locks)
  {
    ghost var prior := buffer.items;
    for k := 0 to |chunks|
      invariant buffer.items == Captured(prior, chunks[..k], locks[..k])
    {
      WriteInputData(chunks[k], buffer, locks[k]);
      assert chunks[..k + 1][..k] == chunks[..k];
      assert locks[..k + 1][..k] == locks[..k];
    }
    assert chunks[..|chunks|] == chunks;
    assert locks[..|locks|] == locks;
  }
}
