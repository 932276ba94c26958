/** Machine integer ranges and the Option / Result wrappers shared by the
    other modules. Rust's fixed-width integers are modelled as subset types
    of `int`; nothing in the model does arithmetic that could overflow them. */
module Common {

  /** Rust `u8`. */
  type U8 = x: int | 0 <= x < 0x100

  /** Rust `u32`: pixel widths, heights and coordinates. */
  type U32 = x: int | 0 <= x < 0x1_0000_0000

  /** Rust `i32`: the raw integer a prost message stores for an enum field. */
  type I32 = x: int | -0x8000_0000 <= x < 0x8000_0000

  /** Rust `f32`, carried only as its IEEE 754 bit pattern; nothing numeric
      is stated about it. */
  datatype F32 = F32(bits: bv32)

  datatype Option<+T> = None | Some(value: T)

  datatype Result<+T, +E> = Ok(value: T) | Err(error: E)
}
