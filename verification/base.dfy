/** Shared vocabulary: machine integer widths, transport errors and outcomes. */
module Base {

  /** A Rust `u8`; kept as a bit-vector because the driver packs and masks bits. */
  type Byte = bv8

  /** A Rust `u16` (panel rows, SRAM addresses, byte counts). */
  type Word = bv16

  /** The opaque error of the underlying bus (`SPI::Error`); the driver only passes it on. */
  datatype BusError = BusError(code: int)

  /** `Result<(), I::Error>` */
  datatype Outcome = Ok | Err(error: BusError)

  datatype Option<+T> = None | Some(value: T)

  datatype Result<+R, +E> = Success(value: R) | Failure(error: E)
}
