/** Facts of the platform that several files rely on. */
module Platform {
  /** ethers.ZeroAddress. */
  const ZERO_ADDRESS := "0x0000000000000000000000000000000000000000"

  /** What JavaScript's trim and the pattern \s take for white space. */
  predicate IsSpace(c: char) {
    var code := c as int;
    || 9 <= code <= 13 || code == 0x20 || code == 0xA0 || code == 0x1680 || 0x2000 <= code <= 0x200A
    || code == 0x2028 || code == 0x2029 || code == 0x202F || code == 0x205F || code == 0x3000 || code == 0xFEFF
  }
}
