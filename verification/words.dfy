/** Machine words of the C sources, as subsets of the integers.  Wrap-around is always written out. */
module Words {
  type u8 = x: int | 0 <= x < 0x100
  type u16 = x: int | 0 <= x < 0x1_0000
  type u32 = x: int | 0 <= x < 0x1_0000_0000
  type u64 = x: int | 0 <= x < 0x1_0000_0000_0000_0000

  /** Assignment of a wider value to a `u32`. */
  function Wrap32(x: int): u32 {
    x % 0x1_0000_0000
  }

  /** Assignment of a wider value to a `u64`. */
  function Wrap64(x: int): u64 {
    x % 0x1_0000_0000_0000_0000
  }

  datatype Option<+T> = None | Some(value: T)
}
