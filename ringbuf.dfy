/** The fixed-capacity FIFO queue of the `ringbuf` crate. The program splits it
    into a producer half (used by the capture callback) and a consumer half
    (used by the playback callback); the model is one sequential object whose
    Push is the producer half and whose Pop is the consumer half. */
module RingBuf {
  import opened Audio

  /** Index `k` of a circular array of length `n`, for `k` below `2 * n`. */
  function Wrap(k: nat, n: nat): (r: nat)
    requires k < 2 * n
    ensures r < n
  {
    if k < n then k else k - n
  }

  /** The `count` samples of circular storage `buf` that start at `head`. */
  function Held(buf: seq<Sample>, head: nat, count: nat): (r: seq<Sample>)
    requires count <= |buf| && (0 < |buf| ==> head < |buf|)
    ensures |r| == count
  {
    seq(count, i requires 0 <= i < count => buf[Wrap(head + i, |buf|)])
  }

  lemma HeldAt(buf: seq<Sample>, head: nat, count: nat, i: nat)
    requires count <= |buf| && (0 < |buf| ==> head < |buf|)
    requires i < count
    ensures Held(buf, head, count)[i] == buf[Wrap(head + i, |buf|)]
  {
  }

  class RingBuffer {
    /** Storage; its length is the capacity fixed at construction. */
    const data: array<Sample>
    /** Position in `data` of the oldest sample held. */
    var head: nat
    /** Number of samples held. */
    var count: nat
    /** The samples held, oldest first. */
    ghost var Contents: seq<Sample>

    function Capacity(): nat {
      data.Length
    }

    ghost predicate Valid()
      reads this, data
    {
      && count <= data.Length
      && (0 < data.Length ==> head < data.Length)
      && Contents == Held(data[..], head, count)
    }

    /** `RingBuffer::new(capacity)`: an empty queue that holds at most
        `capacity` samples. */
    constructor (capacity: nat)
      ensures Valid() && fresh(data)
      ensures Capacity() == capacity && Contents == []
    {
      data := new Sample[capacity];
      head, count := 0, 0;
      Contents := [];
    }

    /** `Producer::push`: appends `x` at the tail, or fails on a full queue
        and changes nothing. */
    method Push(x: Sample) returns (ok: bool)
      requires Valid()
      modifies this, data
      ensures Valid()
      ensures ok <==> |old(Contents)| < Capacity()
      ensures ok ==> Contents == old(Contents) + [x]
      ensures !ok ==> unchanged(this) && unchanged(data)
    {
      if count == data.Length {
        return false;
      }
      ghost var before := data[..];
      var tail := Wrap(head + count, data.Length);
      data[tail] := x;
      ghost var after := Held(data[..], head, count + 1);
      forall j | 0 <= j < count + 1
        ensures after[j] == (Held(before, head, count) + [x])[j]
      {
        HeldAt(data[..], head, count + 1, j);
        if j < count {
          HeldAt(before, head, count, j);
        }
      }
      assert after == Held(before, head, count) + [x];
      count := count + 1;
      Contents := Contents + [x];
      ok := true;
    }

    /** `Consumer::pop`: removes and returns the oldest sample, or returns
        None on an empty queue and changes nothing. */
    method Pop() returns (r: Option<Sample>)
      requires Valid()
      modifies this
      ensures Valid()
      ensures old(Contents) == [] ==> r == None && unchanged(this)
      ensures old(Contents) != [] ==> r == Some(old(Contents)[0]) && Contents == old(Contents)[1..]
    {
      if count == 0 {
        return None;
      }
      r := Some(data[head]);
      ghost var held := Held(data[..], head, count);
      HeldAt(data[..], head, count, 0);
      var next := Wrap(head + 1, data.Length);
      forall j | 0 <= j < count - 1
        ensures Held(data[..], next, count - 1)[j] == held[1..][j]
      {
        HeldAt(data[..], next, count - 1, j);
        HeldAt(data[..], head, count, j + 1);
      }
      assert Held(data[..], next, count - 1) == held[1..];
      head := next;
      count := count - 1;
      Contents := Contents[1..];
    }
  }
}
