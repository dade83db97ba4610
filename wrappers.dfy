/** Small result types shared by the whole model. */
module Wrappers {

  datatype Option<+T> = None | Some(value: T)

  /** The outcome of an operation that either returns a value or panics.
      A Rust `panic!`/`expect` terminates the operation abruptly; the model
      records the panic message instead of a value. */
  datatype Checked<+T> = Value(value: T) | Panic(msg: string)

  /** Signed 32-bit integers (`c_int`, `i32`). */
  const INT32_MIN: int := -0x8000_0000
  const INT32_MAX: int := 0x7FFF_FFFF
  type Int32 = x: int | INT32_MIN <= x <= INT32_MAX

  /** Unsigned 32-bit integers (`u32`). */
  type U32 = x: int | 0 <= x < 0x1_0000_0000

  /** Unsigned 64-bit integers (`uint64_t`, `usize` on a 64-bit target). */
  type U64 = x: int | 0 <= x < 0x1_0000_0000_0000_0000

  /** `x as u32` for a `c_int` x: two's-complement reinterpretation. */
  function AsU32(x: Int32): (r: U32)
    ensures 0 <= x ==> r == x
    ensures x < 0 ==> r == x + 0x1_0000_0000
  {
    x % 0x1_0000_0000
  }

  /** `x as usize` for a `c_int` x on a 64-bit target: sign extension. */
  function AsUsize(x: Int32): (r: U64)
    ensures 0 <= x ==> r == x
    ensures x < 0 ==> r == x + 0x1_0000_0000_0000_0000
  {
    x % 0x1_0000_0000_0000_0000
  }
}
