/** Go's fixed-width unsigned integers and the modular operations the RTP code applies to them. */
module RtpArithmetic {

  type uint8 = x: int | 0 <= x < 0x100
  type uint16 = x: int | 0 <= x < 0x1_0000
  type uint32 = x: int | 0 <= x < 0x1_0000_0000

  datatype Option<+T> = None | Some(value: T)

  datatype Result<+T, +E> = Ok(value: T) | Err(error: E)

  // Dafny's % is Euclidean, so the differences below wrap the way Go's unsigned subtraction does.
  function Add16(a: uint16, b: uint16): uint16 { (a + b) % 0x1_0000 }
  function Sub16(a: uint16, b: uint16): uint16 { (a - b) % 0x1_0000 }
  function Add32(a: uint32, b: uint32): uint32 { (a + b) % 0x1_0000_0000 }
  function Sub32(a: uint32, b: uint32): uint32 { (a - b) % 0x1_0000_0000 }

  lemma NextNumber(first: uint16, i: nat)
    ensures Add16((first + i) % 0x1_0000, 1) == (first + i + 1) % 0x1_0000
  {
  }

  lemma Absorb16(a: int, b: int)
    ensures (a % 0x1_0000 + b) % 0x1_0000 == (a + b) % 0x1_0000
  {
  }

  lemma Absorb32(a: int, b: int)
    ensures (a % 0x1_0000_0000 + b) % 0x1_0000_0000 == (a + b) % 0x1_0000_0000
  {
  }

  lemma AbsorbMinus32(a: int, b: int)
    ensures (a - b % 0x1_0000_0000) % 0x1_0000_0000 == (a - b) % 0x1_0000_0000
  {
  }

  lemma OffsetKeepsSpacing16(offset: uint16, x: uint16, y: uint16)
    ensures Sub16(Add16(y, offset), Add16(x, offset)) == Sub16(y, x)
  {
  }

  lemma OffsetReadBack16(offset: uint16, y: uint16)
    ensures Sub16(Add16(y, offset), y) == offset
  {
  }

  lemma SpacingApplies16(x: uint16, y: uint16)
    ensures Add16(x, Sub16(y, x)) == y
  {
  }

  lemma OffsetKeepsSpacing32(offset: uint32, x: uint32, y: uint32)
    ensures Sub32(Add32(y, offset), Add32(x, offset)) == Sub32(y, x)
  {
  }

  lemma OffsetReadBack32(offset: uint32, y: uint32)
    ensures Sub32(Add32(y, offset), y) == offset
  {
  }

  lemma SpacingApplies32(x: uint32, y: uint32)
    ensures Add32(x, Sub32(y, x)) == y
  {
  }
}
