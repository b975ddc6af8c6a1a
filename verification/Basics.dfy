/** Fixed-width integers, optional values and little-endian byte order. */
module Basics {

  datatype Option<+T> = None | Some(value: T)

  type byte = x: int | 0 <= x < 0x100
  type uint16 = x: int | 0 <= x < 0x1_0000
  type uint32 = x: int | 0 <= x < 0x1_0000_0000
  type int16 = x: int | -0x8000 <= x < 0x8000
  type int32 = x: int | -0x8000_0000 <= x < 0x8000_0000

  /** An unsigned 32-bit quantity keeps its low 32 bits. */
  function Wrap32(n: int): uint32 {
    n % 0x1_0000_0000
  }

  function Le16(n: uint16): (s: seq<byte>)
    ensures |s| == 2
  {
    [n % 0x100, n / 0x100]
  }

  function Le32(n: uint32): (s: seq<byte>)
    ensures |s| == 4
  {
    [n % 0x100, n / 0x100 % 0x100, n / 0x1_0000 % 0x100, n / 0x100_0000]
  }

  function FromLe16(s: seq<byte>): (n: uint16)
    requires |s| == 2
  {
    s[0] as int + 0x100 * s[1] as int
  }

  function FromLe32(s: seq<byte>): (n: uint32)
    requires |s| == 4
  {
    s[0] as int + 0x100 * s[1] as int + 0x1_0000 * s[2] as int + 0x100_0000 * s[3] as int
  }

  lemma Le16Inverse(n: uint16)
    ensures FromLe16(Le16(n)) == n
  {
  }

  lemma Le32Inverse(n: uint32)
    ensures FromLe32(Le32(n)) == n
  {
    assert n == n % 0x100 + 0x100 * (n / 0x100);
    assert n / 0x100 == n / 0x100 % 0x100 + 0x100 * (n / 0x1_0000);
    assert n / 0x1_0000 == n / 0x1_0000 % 0x100 + 0x100 * (n / 0x100_0000);
  }

  /** Two's complement representation of a signed 32-bit value. */
  function Unsigned(n: int32): uint32 {
    if n < 0 then n + 0x1_0000_0000 else n
  }

  function Signed(n: uint32): int32 {
    if n < 0x8000_0000 then n else n - 0x1_0000_0000
  }
}
