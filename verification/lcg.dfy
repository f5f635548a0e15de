/** The colour generator of the simulation: a 32-bit linear congruential
    generator run three times from a truncated id. */
module Lcg {
  import opened Machine

  /** Multiplier and increment of the generator. */
  const A: U32 := 1664525
  const C: U32 := 1013904223

  /** The inverse of A modulo 2^32: A * AInv == 1 + 2^32 * 1657219. */
  const AInv: U32 := 0xfee0_58c5

  /** Three steps fold into one affine map: A^3 and C*(A^2 + A + 1), both
      reduced modulo 2^32. */
  const A3: U32 := 0xaf49_0a95
  const C3: U32 := 0xd1cc_f6e9

  /** `x.wrapping_mul(A).wrapping_add(C)`: the affine map x -> A * x + C
      modulo 2^32. */
  function Step(x: U32): (r: U32)
    ensures r == (A * x + C) % U32Modulus
  {
    AffineMod(1, x * A, C);
    WrappingAdd(WrappingMul(x, A), C)
  }

  /** Undoes one step: subtract the increment, multiply by the inverse. */
  function Unstep(y: U32): U32 {
    WrappingMul(WrappingSub(y, C), AInv)
  }

  /** The generator run n times from x. */
  function Iterate(x: U32, n: nat): U32
    decreases n
  {
    if n == 0 then x else Step(Iterate(x, n - 1))
  }

  /** n inverse steps from y. */
  function Rewind(y: U32, n: nat): U32
    decreases n
  {
    if n == 0 then y else Rewind(Unstep(y), n - 1)
  }

  /** `generate_semi_random_u32`: truncate the id to 32 bits, then step the
      generator three times, which is the single affine map
      x -> A3 * x + C3 of the id modulo 2^32. */
  function SemiRandomU32(id: Usize): (r: U32)
    ensures r == (A3 * (id % U32Modulus) + C3) % U32Modulus
  {
    StepsCompose(TruncateToU32(id));
    Iterate(TruncateToU32(id), 3)
  }

  /** Recovers the truncated id a colour was generated from. */
  function RecoverId(colour: U32): U32 {
    Rewind(colour, 3)
  }

  lemma ShiftMod(u: int, t: int)
    ensures (u + U32Modulus * t) % U32Modulus == u % U32Modulus
  {
  }

  /** Reducing an operand before an affine map does not change the result. */
  lemma AffineMod(a: int, y: int, c: int)
    ensures (a * (y % U32Modulus) + c) % U32Modulus == (a * y + c) % U32Modulus
  {
    var q := y / U32Modulus;
    assert a * y == a * (y % U32Modulus) + U32Modulus * (a * q) by {
      assert y == U32Modulus * q + y % U32Modulus;
    }
    ShiftMod(a * (y % U32Modulus) + c, a * q);
  }

  /** A step after the affine map x -> a * x + c is the affine map
      x -> a2 * x + c2, where a2 and c2 are A * a and A * c + C reduced by
      the given multiples of 2^32. */
  lemma ComposeAffine(x: U32, a: int, c: int, a2: int, c2: int, ka: int, kc: int)
    requires A * a == a2 + U32Modulus * ka && A * c + C == c2 + U32Modulus * kc
    ensures (A * ((a * x + c) % U32Modulus) + C) % U32Modulus == (a2 * x + c2) % U32Modulus
  {
    AffineMod(A, a * x + c, C);
    assert A * (a * x) == (A * a) * x;
    assert A * (a * x + c) + C == a2 * x + c2 + U32Modulus * (ka * x + kc);
    ShiftMod(a2 * x + c2, ka * x + kc);
  }

  /** Three steps are the affine map x -> A3 * x + C3 modulo 2^32. */
  lemma StepsCompose(x: U32)
    ensures Iterate(x, 3) == (A3 * x + C3) % U32Modulus
  {
    assert Iterate(x, 1) == Step(x);
    assert Iterate(x, 3) == Step(Step(Step(x)));
    ComposeAffine(x, A, C, 0x1738_5ca9, 0x4750_2932, 645, 392941);
    ComposeAffine(x, 0x1738_5ca9, 0x4750_2932, A3, C3, 150978, 463681);
  }

  /** Multiplying by A and then by AInv is the identity modulo 2^32. */
  lemma InverseProduct(x: int)
    ensures AInv * (x * A) == x + U32Modulus * (x * 1657219)
    ensures A * (x * AInv) == x + U32Modulus * (x * 1657219)
  {
    assert A * AInv == 1 + U32Modulus * 1657219;
  }

  /** Unstep inverts Step. */
  lemma UnstepStep(x: U32)
    ensures Unstep(Step(x)) == x
  {
    UndoAffine(x);
  }

  /** Step inverts Unstep. */
  lemma StepUnstep(y: U32)
    ensures Step(Unstep(y)) == y
  {
    RedoAffine(y);
  }

  /** The arithmetic of UnstepStep, on plain integers. */
  lemma UndoAffine(x: int)
    requires 0 <= x < U32Modulus
    ensures ((((A * x + C) % U32Modulus - C) % U32Modulus) * AInv) % U32Modulus == x
  {
    var p := x * A;
    var c: int := C;
    AffineMod(1, p + c, -c);
    var s := ((A * x + C) % U32Modulus - C) % U32Modulus;
    assert s == p % U32Modulus;
    AffineMod(AInv, p, 0);
    InverseProduct(x);
    ShiftMod(x, x * 1657219);
  }

  /** The arithmetic of StepUnstep, on plain integers. */
  lemma RedoAffine(y: int)
    requires 0 <= y < U32Modulus
    ensures (A * ((((y - C) % U32Modulus) * AInv) % U32Modulus) + C) % U32Modulus == y
  {
    var s := (y - C) % U32Modulus;
    AffineMod(A, s * AInv, C);
    InverseProduct(s);
    ShiftMod(s + C, s * 1657219);
    AffineMod(1, y - C, C);
  }

  /** Rewinding n steps undoes n steps. */
  lemma {:induction false} RewindIterate(x: U32, n: nat)
    ensures Rewind(Iterate(x, n), n) == x
    decreases n
  {
    if n > 0 {
      UnstepStep(Iterate(x, n - 1));
      RewindIterate(x, n - 1);
    }
  }

  /** Stepping n times undoes n inverse steps: every value is reached. */
  lemma {:induction false} IterateRewind(y: U32, n: nat)
    ensures Iterate(Rewind(y, n), n) == y
    decreases n
  {
    if n > 0 {
      IterateRewind(Unstep(y), n - 1);
      StepUnstep(y);
    }
  }

  /** The colour determines the id modulo 2^32. */
  lemma RecoverIdRoundTrip(id: Usize)
    ensures RecoverId(SemiRandomU32(id)) == TruncateToU32(id)
  {
    RewindIterate(TruncateToU32(id), 3);
  }

  /** Every colour is generated by some id: the generator is onto, so even
      the sentinel 0xfafafafa can come back as a generated colour. */
  lemma SemiRandomOnto(colour: U32)
    ensures SemiRandomU32(RecoverId(colour)) == colour
  {
    IterateRewind(colour, 3);
  }

  /** Two ids get the same colour exactly when they agree modulo 2^32: the
      colour is deterministic, and distinct ids below 2^32 get distinct
      colours. */
  lemma SemiRandomInjective(a: Usize, b: Usize)
    ensures SemiRandomU32(a) == SemiRandomU32(b) <==> TruncateToU32(a) == TruncateToU32(b)
  {
    RecoverIdRoundTrip(a);
    RecoverIdRoundTrip(b);
  }

  /** The colours of the first three ids. */
  lemma FirstColours(id: Usize)
    requires id < 3
    ensures SemiRandomU32(id) == FirstColourValues()[id]
  {
    assert id % U32Modulus == id;
    FirstAffineValues(id);
  }

  function FirstColourValues(): seq<U32> {
    [0xd1cc_f6e9, 0x8116_017e, 0x305f_0c13]
  }

  lemma FirstAffineValues(k: int)
    requires 0 <= k < 3
    ensures (A3 * k + C3) % U32Modulus == FirstColourValues()[k]
  {
  }


}
