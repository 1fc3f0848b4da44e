/**
 * The xorshift32 generator of src/utils/rng.ts.
 *
 * The private `state` is a 32-bit pattern; `x << k`, `x >>> k` and `^` in
 * JavaScript act on that pattern exactly as Dafny's operators on `bv32` do,
 * so the step below is the source's step bit for bit.
 */
module XorShift {

  const TWO_32: int := 0x1_0000_0000

  /** The divisor of `next`: 0xffffffff. */
  const MAX_UINT32: real := 4294967295.0

  /** JavaScript's `n >>> 0` for an integer `n`: its residue modulo 2^32. */
  function ToUint32(n: int): (r: int)
    ensures 0 <= r < TWO_32
    ensures (n - r) % TWO_32 == 0
  {
    n % TWO_32
  }

  /** One xorshift32 step: `x ^= x << 13; x ^= x >>> 17; x ^= x << 5`. */
  function Step(x: bv32): bv32
  {
    var a := x ^ (x << 13);
    var b := a ^ (a >> 17);
    b ^ (b << 5)
  }

  /** The value `next` returns for a state: `state / 0xffffffff`. */
  function Unit(x: bv32): (u: real)
    ensures 0.0 <= u <= 1.0
    ensures u == 0.0 <==> x == 0
  {
    (x as int) as real / MAX_UINT32
  }

  /** The state after `n` calls of `next`. */
  function Iterate(x: bv32, n: nat): bv32
    decreases n
  {
    if n == 0 then x else Iterate(Step(x), n - 1)
  }

  /** `m` calls of `next` followed by `n` more are `m + n` calls. */
  lemma {:induction false} IterateAdd(x: bv32, m: nat, n: nat)
    ensures Iterate(Iterate(x, m), n) == Iterate(x, m + n)
    decreases m
  {
    if m > 0 {
      IterateAdd(Step(x), m - 1, n);
    }
  }

  /** Each of the three xorshift stages is injective, so only 0 steps to 0. */
  lemma StepZeroOnlyFromZero(x: bv32)
    ensures Step(x) == 0 <==> x == 0
  {
  }

  /** A zero state stays zero for ever: the generator is stuck at 0. */
  lemma {:induction false} ZeroIsAbsorbing(n: nat)
    ensures Iterate(0, n) == 0
  {
    if n > 0 {
      StepZeroOnlyFromZero(0);
      ZeroIsAbsorbing(n - 1);
    }
  }

  /** A non-zero state never reaches zero. */
  lemma {:induction false} NonZeroStaysNonZero(x: bv32, n: nat)
    requires x != 0
    ensures Iterate(x, n) != 0
    decreases n
  {
    if n > 0 {
      StepZeroOnlyFromZero(x);
      NonZeroStaysNonZero(Step(x), n - 1);
    }
  }

  /** The affine map `range` applies to a unit value. */
  function Scale(min: real, max: real, u: real): real
  {
    min + (max - min) * u
  }

  /** The affine image of a unit value lies between the two ends. */
  lemma ScaleWithinBounds(min: real, max: real, u: real)
    requires min <= max && 0.0 <= u <= 1.0
    ensures min <= Scale(min, max, u) <= max
  {
    var span := max - min;
    assert 0.0 <= span * u;
    assert span * (1.0 - u) == span - span * u;
    assert 0.0 <= span * (1.0 - u);
  }

  class Rng {
    var state: bv32

    /** `new RNG(seed)`: the state is `seed >>> 0`. */
    constructor (seed: int)
      ensures state == ToUint32(seed) as bv32
    {
      state := ToUint32(seed) as bv32;
    }

    /** Advances the state by one xorshift32 step and returns it scaled to [0, 1]. */
    method Next() returns (r: real)
      modifies this
      ensures state == Step(old(state))
      ensures r == Unit(state)
      ensures 0.0 <= r <= 1.0
    {
      state := Step(state);
      r := Unit(state);
    }

    /** `min + (max - min) * next()`: one step, then an affine map into [min, max]. */
    method Range(min: real, max: real) returns (r: real)
      modifies this
      ensures state == Step(old(state))
      ensures r == Scale(min, max, Unit(state))
      ensures min <= max ==> min <= r <= max
    {
      var u := Next();
      r := Scale(min, max, u);
      if min <= max {
        ScaleWithinBounds(min, max, u);
      }
    }
  }
}

/**
 * The linear congruential generator of src/core/rng.ts.
 *
 * With a seed below 2^32 the product `seed * 1664525 + 1013904223` stays below
 * 2^53, so the double arithmetic of the source is exact and the integer model
 * below loses nothing.
 */
module Lcg {

  const MODULUS: int := 0x1_0000_0000
  const MULTIPLIER: int := 1664525
  const INCREMENT: int := 1013904223
  const MAX_UINT32: real := 4294967295.0

  /** The largest double that JavaScript represents exactly with every integer below it. */
  const EXACT_DOUBLE_LIMIT: int := 0x20_0000_0000_0000

  /** `(seed * 1664525 + 1013904223) >>> 0`. */
  function Step(seed: int): (r: int)
    requires 0 <= seed < MODULUS
    ensures 0 <= r < MODULUS
    ensures (seed * MULTIPLIER + INCREMENT - r) % MODULUS == 0
  {
    var p := seed * MULTIPLIER + INCREMENT;
    assert p - p % MODULUS == MODULUS * (p / MODULUS);
    p % MODULUS
  }

  /** The intermediate product of a step is an exact double. */
  lemma StepIsExactInDoubles(seed: int)
    requires 0 <= seed < MODULUS
    ensures 0 <= seed * MULTIPLIER + INCREMENT < EXACT_DOUBLE_LIMIT
  {
  }

  /** `seed / 0xffffffff` for a 32-bit seed. */
  function Unit(seed: int): (u: real)
    requires 0 <= seed < MODULUS
    ensures 0.0 <= u <= 1.0
  {
    seed as real / MAX_UINT32
  }

  class Rng {
    var seed: int

    ghost predicate Valid()
      reads this
    {
      0 <= seed < MODULUS
    }

    /** `new RNG(seed)` with an explicit seed: `seed >>> 0`. */
    constructor (initialSeed: int)
      ensures Valid()
      ensures (initialSeed - seed) % MODULUS == 0
    {
      seed := initialSeed % MODULUS;
    }

    method Next() returns (r: real)
      requires Valid()
      modifies this
      ensures Valid()
      ensures seed == Step(old(seed))
      ensures r == Unit(seed)
    {
      seed := Step(seed);
      r := Unit(seed);
    }
  }

  /**
   * Two generators built from the same explicit seed produce the same outputs,
   * call for call.
   */
  method SameSeedSameSequence(initialSeed: int, n: nat) returns (xs: seq<real>, ys: seq<real>)
    ensures |xs| == n && xs == ys
  {
    var a := new Rng(initialSeed);
    var b := new Rng(initialSeed);
    xs, ys := [], [];
    for i := 0 to n
      invariant a.Valid() && b.Valid() && a != b
      invariant a.seed == b.seed
      invariant |xs| == i && xs == ys
    {
      var x := a.Next();
      var y := b.Next();
      xs, ys := xs + [x], ys + [y];
    }
  }
}
