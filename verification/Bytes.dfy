/** A C unsigned char. */
module Bytes {
  type Byte = x: int | 0 <= x < 256

  /** The conversion of an int to an unsigned char. */
  function ToByte(x: int): (b: Byte)
    ensures exists k: int :: x == b + 256 * k
  {
    assert x == x % 256 + 256 * (x / 256);
    x % 256
  }
}
