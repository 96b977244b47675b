/** Fixed-width integers, octets and the option type shared by every part of the model. */
module Words {

  const TWO_TO_THE_31: int := 0x8000_0000
  const TWO_TO_THE_32: int := 0x1_0000_0000

  type Byte = x: int | 0 <= x < 0x100
  type U16 = x: int | 0 <= x < 0x1_0000
  type U32 = x: int | 0 <= x < 0x1_0000_0000
  type S32 = x: int | -0x8000_0000 <= x < 0x8000_0000
  type U64 = x: int | 0 <= x < 0x1_0000_0000_0000_0000

  datatype Option<+T> = None | Some(value: T)

  /** Reduction of a sum or difference of two words to an unsigned 32-bit word, as C does
      for unsigned arithmetic. */
  function WrapU32(x: int): U32
    requires -TWO_TO_THE_32 <= x < 2 * TWO_TO_THE_32
  {
    if x < 0 then x + TWO_TO_THE_32 else if x < TWO_TO_THE_32 then x else x - TWO_TO_THE_32
  }

  /** Two's complement reading of a 32-bit word. */
  function AsS32(u: U32): S32 {
    if u < TWO_TO_THE_31 then u else u - TWO_TO_THE_32
  }
}
