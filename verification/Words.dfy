/** Fixed-width unsigned integers: every operation on them is checked not to
    overflow. */
module Words {
  const B: int := 0x1_0000_0000

  newtype U32 = x: int | 0 <= x < 0x1_0000_0000
  newtype U64 = x: int | 0 <= x < 0x1_0000_0000_0000_0000

  function Hi(x: U64): (r: U64)
    ensures r as int == x as int / B
    ensures r as int < B
  {
    x / 0x1_0000_0000
  }

  function Lo(x: U64): (r: U64)
    ensures r as int == x as int % B
    ensures r as int < B
  {
    x % 0x1_0000_0000
  }
}

/** Signed fixed-width integers: every operation on them is checked not to
    overflow. */
module SignedWords {
  newtype I32 = x: int | -0x8000_0000 <= x < 0x8000_0000
  newtype I64 = x: int | -0x8000_0000_0000_0000 <= x < 0x8000_0000_0000_0000
}
