/** Types shared by every part of the model: machine integers, options and
    three-dimensional coordinates. */
module Types {

  datatype Option<+T> = None | Some(value: T)

  const U64: int := 0x1_0000_0000_0000_0000
  type u64 = n: int | 0 <= n < 0x1_0000_0000_0000_0000
  type u32 = n: int | 0 <= n < 0x1_0000_0000
  type u8 = n: int | 0 <= n < 0x100

  datatype Size3 = Size3(x: u64, y: u64, z: u64)

  function Coords(s: Size3): seq<u64> { [s.x, s.y, s.z] }

  function Min(a: int, b: int): int { if a < b then a else b }
}
