// Types shared by every part of the model: bytes, Rust's integer widths, options and results.

module Basics {
  type Byte = b: int | 0 <= b < 0x100

  /** UTF-8 text, and raw output, as bytes. */
  type Bytes = seq<Byte>

  const MAX_U64: nat := 0xFFFF_FFFF_FFFF_FFFF
  const MAX_I64: nat := 0x7FFF_FFFF_FFFF_FFFF
  const MIN_I64: int := -0x8000_0000_0000_0000

  type U64 = x: int | 0 <= x <= MAX_U64
  type I64 = x: int | MIN_I64 <= x <= MAX_I64

  datatype Option<+T> = None | Some(value: T)

  /** Rust's Result, usable with `:-` as the source uses `?`. */
  datatype Result<+T, +E> = Ok(value: T) | Err(error: E) {
    predicate IsFailure() {
      Err?
    }

    function PropagateFailure<U>(): Result<U, E>
      requires Err?
    {
      Err(error)
    }

    function Extract(): T
      requires Ok?
    {
      value
    }

    function MapError<F>(rewrap: E -> F): Result<T, F> {
      match this
      case Ok(value) => Ok(value)
      case Err(error) => Err(rewrap(error))
    }
  }

  function Max(a: int, b: int): int {
    if a < b then b else a
  }

  function Min(a: int, b: int): int {
    if a < b then a else b
  }

  /** Rust's `saturating_add` on u64 and on a 64-bit usize. */
  function SaturatingAdd(a: U64, b: nat): U64 {
    Min(a + b, MAX_U64)
  }

  lemma Regroup<T>(a: seq<T>, b: seq<T>, c: seq<T>)
    ensures a + (b + c) == a + b + c
  {
  }

  lemma RegroupFour<T>(a: seq<T>, b: seq<T>, c: seq<T>, d: seq<T>)
    ensures a + (b + c + d) == a + b + c + d
  {
  }
}
