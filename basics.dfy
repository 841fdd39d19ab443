/** Shared vocabulary of the three handlers: optional values and results,
    Go's int64 with its two's-complement arithmetic, the errors that the AWS
    services report, and a process's standard output. */
module Basics {

  datatype Option<+T> = None | Some(value: T)

  datatype Result<+T, +E> = Ok(value: T) | Err(error: E)

  const MinInt64: int := -0x8000_0000_0000_0000
  const MaxInt64: int := 0x7fff_ffff_ffff_ffff
  const MaxUint64: int := 0xffff_ffff_ffff_ffff
  const TwoTo64: int := 0x1_0000_0000_0000_0000

  /** Go's `int64`. */
  type Int64 = x: int | MinInt64 <= x <= MaxInt64

  /** The value Go's `int64` arithmetic yields for the exact result `x`:
      signed overflow wraps around modulo 2^64. */
  function Wrap(x: int): (r: Int64)
    ensures MinInt64 <= x <= MaxInt64 ==> r == x
    ensures (x - r) % TwoTo64 == 0
  {
    (x - MinInt64) % TwoTo64 + MinInt64
  }

  /** The text of an error that an AWS service call returned (throttling,
      connectivity, a missing resource, ...). The cause is the environment's,
      so the model receives it as a parameter. */
  type ServiceError = string

  /** A process's standard output, as the append-only sequence of lines it
      printed. */
  class Stdout<L> {
    var lines: seq<L>

    constructor ()
      ensures lines == []
    {
      lines := [];
    }

    method Print(line: L)
      modifies this
      ensures lines == old(lines) + [line]
    {
      lines := lines + [line];
    }
  }
}
