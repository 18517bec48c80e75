/** The number and character types that several components share. */
module Primitives {
  type Byte = x: int | 0 <= x < 256

  const TWO_63 := 0x8000_0000_0000_0000
  const TWO_64 := 0x1_0000_0000_0000_0000
  const I64_MAX := TWO_63 - 1

  type i64 = x: int | -TWO_63 <= x < TWO_63 witness 0

  /** char::is_whitespace, by which str::trim and split_whitespace go. */
  predicate IsSpace(c: char) {
    var n := c as int;
    || 9 <= n <= 13 || n == 32 || n == 0x85 || n == 0xA0 || n == 0x1680 || 0x2000 <= n <= 0x200A
    || n == 0x2028 || n == 0x2029 || n == 0x202F || n == 0x205F || n == 0x3000
  }
}
