/** Bytes, for the modules that work on byte sequences. */
module Octets {

  type Byte = x: int | 0 <= x < 256

  /** The upper case hexadecimal digit of a value. */
  function HexDigit(v: nat): Byte
    requires v < 16
  {
    if v < 10 then 48 + v else 55 + v
  }
}
