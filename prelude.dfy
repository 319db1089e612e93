/** Machine integer ranges and the optional value used across the model. */
module Prelude {

  /** Rust's `i32`: mouse coordinates and `sdl2::rect::Point` fields. */
  newtype Int32 = x: int | -0x8000_0000 <= x < 0x8000_0000

  /** Largest value of Rust's `u32`, the type of the canvas size. */
  const U32_MAX: int := 0xFFFF_FFFF

  datatype Option<+T> = None | Some(value: T)
}
