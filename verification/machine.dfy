/** Fixed-width machine integers of the visualizer (compiled for a 64-bit target).
    Dafny integers are unbounded, so every width, wrap-around, saturation and
    truncating division the program relies on is written out here. */
module Machine {

  const U32Modulus: int := 0x1_0000_0000
  const UsizeModulus: int := 0x1_0000_0000_0000_0000
  const UsizeMax: int := UsizeModulus - 1
  const I32Min: int := -0x8000_0000
  const I32Max: int := 0x7fff_ffff

  /** `u32` values: packed colours and the LCG state. */
  type U32 = n: int | 0 <= n < U32Modulus

  /** `usize` values: ids, pixel coordinates handed to the raster. */
  type Usize = n: int | 0 <= n < UsizeModulus

  predicate IsI32(v: int) {
    I32Min <= v <= I32Max
  }

  function Abs(v: int): nat {
    if v < 0 then -v else v
  }

  function Max(a: int, b: int): int {
    if a < b then b else a
  }

  /** The `u32` value congruent to n modulo 2^32: what a wrapping operation
      or a truncating cast keeps of an exact result. */
  function Wrap32(n: int): U32
    decreases if n < 0 then 1 else 0, Abs(n)
  {
    if n < 0 then Wrap32(n + U32Modulus)
    else if n >= U32Modulus then Wrap32(n - U32Modulus)
    else n
  }

  /** Wrapping is reduction modulo 2^32. */
  lemma {:induction false} Wrap32IsMod(n: int)
    ensures Wrap32(n) == n % U32Modulus
    decreases if n < 0 then 1 else 0, Abs(n)
  {
    if n < 0 {
      Wrap32IsMod(n + U32Modulus);
    } else if n >= U32Modulus {
      Wrap32IsMod(n - U32Modulus);
    }
  }

  /** `u32::wrapping_mul`: the exact product reduced modulo 2^32. */
  function WrappingMul(a: U32, b: U32): (r: U32)
    ensures r == (a * b) % U32Modulus
  {
    Wrap32IsMod(a * b);
    Wrap32(a * b)
  }

  /** `u32::wrapping_add`: the exact sum reduced modulo 2^32. */
  function WrappingAdd(a: U32, b: U32): (r: U32)
    ensures r == (a + b) % U32Modulus
  {
    Wrap32IsMod(a + b);
    Wrap32(a + b)
  }

  /** `u32::wrapping_sub`: the exact difference reduced modulo 2^32. */
  function WrappingSub(a: U32, b: U32): (r: U32)
    ensures r == (a - b) % U32Modulus
  {
    Wrap32IsMod(a - b);
    Wrap32(a - b)
  }

  /** `n as u32` for a `usize`: keeps n modulo 2^32 (its low 32 bits), so
      a value that fits is unchanged. */
  function TruncateToU32(n: Usize): (r: U32)
    ensures r == n % U32Modulus
    ensures n < U32Modulus ==> r == n
  {
    Wrap32IsMod(n);
    Wrap32(n)
  }

  /** `v as usize` for an `i32`: two's-complement reinterpretation, so a
      negative value becomes the representable value congruent to it
      modulo 2^64, which is at least 2^64 - 2^31. */
  function I32AsUsize(v: int): (r: Usize)
    requires IsI32(v)
    ensures (r - v) % UsizeModulus == 0
    ensures v >= 0 ==> r == v
    ensures v < 0 ==> r >= UsizeModulus + I32Min
  {
    if v >= 0 then v else UsizeModulus + v
  }

  /** `v.floor() as usize` for an `f64`: the float-to-integer cast saturates,
      so a negative floor becomes 0 and an oversized one becomes `usize::MAX`
      (NaN is not modelled: `real` has none). */
  function FloorAsUsize(v: real): (r: Usize)
    ensures 0 <= v.Floor <= UsizeMax ==> r == v.Floor
    ensures v.Floor < 0 ==> r == 0
    ensures v.Floor > UsizeMax ==> r == UsizeMax
  {
    var n := v.Floor;
    if n < 0 then 0 else if n > UsizeMax then UsizeMax else n
  }

  /** `v.floor() as i32` for an `f64`: the cast keeps every floor `i32` can
      hold and saturates the others at the nearer bound (NaN is not
      modelled: `real` has none). */
  function FloorAsI32(v: real): (r: int)
    ensures IsI32(r)
    ensures IsI32(v.Floor) ==> r == v.Floor
    ensures v.Floor < I32Min ==> r == I32Min
    ensures v.Floor > I32Max ==> r == I32Max
  {
    var n := v.Floor;
    if n < I32Min then I32Min else if n > I32Max then I32Max else n
  }

  /** `a / 2` on a Rust signed integer: the quotient rounds toward zero
      (Dafny's own `/` is Euclidean and rounds a negative dividend down), so the
      remainder is 0 or carries the sign of `a`. */
  function TruncHalf(a: int): (q: int)
    ensures Abs(a - 2 * q) < 2
    ensures a - 2 * q == 0 || (a - 2 * q < 0) == (a < 0)
  {
    if a >= 0 then a / 2 else -((-a) / 2)
  }

  /** The two divisions disagree on a negative odd dividend. */
  lemma TruncHalfIsNotEuclidean()
    ensures TruncHalf(-3) == -1 && -3 / 2 == -2
  {
  }
}
