/** Bytes, texts and the small result types shared by every component. */
module Basics {
  type Byte = x: int | 0 <= x < 0x100
  type Bytes = seq<Byte>

  /** Strings are byte sequences: encodings and lossy conversions are not modelled. */
  type Text = Bytes

  const U8_MAX: nat := 0xFF
  const U32_MAX: nat := 0xFFFF_FFFF
  const U64_MAX: nat := 0xFFFF_FFFF_FFFF_FFFF

  type U8 = x: int | 0 <= x <= U8_MAX
  type U16 = x: int | 0 <= x <= 0xFFFF
  type U32 = x: int | 0 <= x <= U32_MAX
  type U64 = x: int | 0 <= x <= U64_MAX
  type I32 = x: int | -0x8000_0000 <= x < 0x8000_0000

  datatype Option<+T> = None | Some(value: T)

  /** The answer of a fallible call: a value, or the text of an error. */
  datatype Outcome<+T> = Ok(value: T) | Err(error: Text)

  function Ascii(s: string): (t: Text)
    ensures |t| == |s|
  {
    seq(|s|, i requires 0 <= i < |s| => s[i] as int % 0x100)
  }

  function Min(a: int, b: int): int { if a <= b then a else b }

  /** `saturating_add` of an unsigned integer type with the given maximum. */
  function SaturatingAdd(a: int, b: int, max: int): int { Min(a + b, max) }

  /** `saturating_sub` of an unsigned integer type. */
  function SaturatingSub(a: int, b: int): int { if b <= a then a - b else 0 }
}
