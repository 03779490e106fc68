/** Machine words, wrapping arithmetic and the kernel's compile-time limits. */
module Words {

  const TWO32: int := 0x1_0000_0000
  const TWO31: int := 0x8000_0000

  type u8 = x: int | 0 <= x < 256
  type u32 = x: int | 0 <= x < 0x1_0000_0000

  // kernel/src/config.rs
  const MAX_TASKS: nat := 16
  const MAX_PERIPHERALS: nat := 32
  const MAX_CHANNELS: nat := 8

  datatype Option<+T> = None | Some(value: T)

  /** `u32::wrapping_add` */
  function WrapAdd(a: int, b: int): u32 {
    (a + b) % TWO32
  }

  /** `u32::wrapping_sub` */
  function WrapSub(a: int, b: int): u32 {
    (a - b) % TWO32
  }

  /** `x as i32` */
  function AsI32(x: u32): int {
    if x < TWO31 then x else x - TWO32
  }

  /** Two insertion numbers whose order 32-bit stamps still tell. */
  predicate WithinWindow(a: int, b: int) {
    -TWO31 < a - b < TWO31
  }

  function Max(a: int, b: int): int {
    if a >= b then a else b
  }

  function Min(a: int, b: int): int {
    if a <= b then a else b
  }

  /** A `u32` capability or endpoint mask, as the set of its one bits. */
  type Mask = m: set<nat> | forall b :: b in m ==> b < 32

  /** Euclid: a remainder is determined by any quotient that leaves it in range. */
  lemma ModIs(x: int, m: int, q: int, r: int)
    requires 0 < m && 0 <= r < m && x == q * m + r
    ensures x % m == r
  {
    var d := x / m;
    assert (d - q) * m == r - x % m;
    if d != q {
      MulGrows(if d > q then d - q else q - d, m);
    }
  }

  lemma MulGrows(a: int, m: int)
    requires a >= 1 && m > 0
    ensures a * m >= m
  {
  }

  /** Stamping two counters with the low 32 bits keeps their difference modulo 2^32. */
  lemma WrapSubOfMod(a: int, b: int)
    ensures WrapSub(a % TWO32, b % TWO32) == (a - b) % TWO32
  {
    var r := WrapSub(a % TWO32, b % TWO32);
    var q := (a % TWO32 - b % TWO32) / TWO32;
    assert a - b == (a / TWO32 - b / TWO32 + q) * TWO32 + r;
    ModIs(a - b, TWO32, a / TWO32 - b / TWO32 + q, r);
  }

  lemma WrapAddOfMod(a: int, b: int)
    ensures WrapAdd(a % TWO32, b) == (a + b) % TWO32
  {
    var r := WrapAdd(a % TWO32, b);
    var q := (a % TWO32 + b) / TWO32;
    assert a + b == (a / TWO32 + q) * TWO32 + r;
    ModIs(a + b, TWO32, a / TWO32 + q, r);
  }
}
