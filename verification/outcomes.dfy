/** Failure-carrying wrappers shared by every component of the pixel pipeline.
    In the Swift source every failure is a `RuntimeError` carrying a message;
    here each message family becomes one constructor of `Error`. */
module Outcomes {

  /** An optional value (Swift's `T?`). */
  datatype Option<+T> = None | Some(value: T) {

    function GetOr(default: T): T {
      match this
      case Some(v) => v
      case None => default
    }
  }

  /** The kinds of failure the decoder and the processors raise. */
  datatype Error =
      /** "Data size does not match expected size: actual != expected" */
    | SizeMismatch(actual: int, expected: int)
      /** "Unsupported channel count: n" / "Unsupported number of channels: n" */
    | UnsupportedChannelCount(channels: int)
      /** "Input buffer must not be normalized" */
    | MustNotBeNormalized
      /** "Buffer needs to be normalized" */
    | MustBeNormalized
      /** An automatic white-balance gain that IEEE arithmetic would make infinite. */
    | NonFiniteGain

  /** A value or the error that prevented computing it; usable with `:-`. */
  datatype Result<+T> = Ok(value: T) | Err(error: Error) {

    predicate IsFailure() {
      Err?
    }

    function PropagateFailure<U>(): Result<U>
      requires Err?
    {
      Err(error)
    }

    function Extract(): T
      requires Ok?
    {
      value
    }
  }
}
