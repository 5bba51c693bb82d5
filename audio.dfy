/** Types shared by every part of the capture-to-playback pipeline. */
module Audio {

  /** One audio sample. The program moves `f32` amplitudes; the pipeline only
      stores, moves and compares them, so the model uses integers, with
      silence as 0. */
  type Sample = int

  /** The value written for silence (`0.0` in the program). */
  const Silence: Sample := 0

  datatype Option<T> = None | Some(value: T)

  function Min(a: nat, b: nat): nat {
    if a <= b then a else b
  }

  /** Multiplying by the same natural number preserves order. */
  lemma MonotoneProduct(a: nat, b: nat, c: nat)
    requires a <= b
    ensures a * c <= b * c
  {
  }

  /** `n` samples of silence. */
  function Zeros(n: nat): seq<Sample> {
    seq(n, _ => Silence)
  }

  /** A `Vec` behind an `Arc<Mutex<..>>`, shared with a thread outside the
      audio callback. Whether a `try_lock` on it succeeds is decided by that
      other thread, so the operations that use it take the outcome as a
      boolean. */
  class Shared<T> {
    var items: seq<T>

    constructor (init: seq<T>)
      ensures items == init
    {
      items := init;
    }
  }
}
