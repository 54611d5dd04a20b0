/** Types and functions that several modules share. */
module Basics {

  datatype Option<+T> = None | Some(value: T)

  type Byte = b: int | 0 <= b < 256

  /** Python's `text or otherwise`. */
  function Or(text: string, otherwise: string): string {
    if text == "" then otherwise else text
  }

  /** The decimal digits of a number. */
  function Digits(n: nat): string {
    if n < 10 then [('0' as int + n) as char] else Digits(n / 10) + Digits(n % 10)
  }
}
