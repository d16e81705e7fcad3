/** Fixed-width C types that the Swift code passes to and receives from the C library. */
module CTypes {

  /** Swift's `Int32`, the type of signal numbers, `errno` and the raw values of the two enumerations. */
  newtype int32 = x: int | -0x8000_0000 <= x < 0x8000_0000

  /** `pid_t`, a process identifier (a 32-bit signed integer on Linux and Darwin). */
  type pid = int32

  /** One byte of a `Data` payload. */
  newtype byte = x: int | 0 <= x < 0x100

  type Bytes = seq<byte>
}
