/**
 * `shuffleInPlace` of src/logic/systems.ts: a backward Fisher-Yates pass
 * that draws each swap partner from the world generator.
 *
 * As written, the partner of position `i` is `Math.floor(rng.range(0, i + 1))`.
 * `next()` returns `state / 0xffffffff`, which is exactly 1 when the state
 * is 0xffffffff, and then the partner is `i + 1`, one past the range the
 * algorithm needs; at the last position that reads and writes past the
 * end of the array. `DrawnIndex` below is that expression, and
 * `DrawnIndexCanEscape` and `AllOnesIsReachable` exhibit the input. The
 * shuffle modelled here, which the Dark Lord's actions use, clamps the
 * partner to `i` (`SwapIndex`); for every unit value below 1 that is the
 * drawn index unchanged.
 */
module Shuffle {
  import XorShift

  /** The partner index as written: `Math.floor(rng.range(0, i + 1))` for the unit value `u` of the draw. */
  function DrawnIndex(i: nat, u: real): int
  {
    XorShift.Scale(0.0, (i + 1) as real, u).Floor
  }

  /** The all-ones state makes the draw equal to `i + 1`. */
  lemma DrawnIndexCanEscape(i: nat)
    ensures XorShift.Unit(0xffff_ffff) == 1.0
    ensures DrawnIndex(i, XorShift.Unit(0xffff_ffff)) == i + 1
  {
    assert XorShift.Scale(0.0, (i + 1) as real, 1.0) == (i + 1) as real;
  }

  /** A non-zero state one step before the all-ones state, so a run can meet it. */
  lemma AllOnesIsReachable()
    ensures XorShift.Step(0x5e6c_fce7) == 0xffff_ffff
  {
  }

  /** A unit value below 1 gives a partner in [0, i]. */
  lemma DrawnIndexInRange(i: nat, u: real)
    requires 0.0 <= u < 1.0
    ensures 0 <= DrawnIndex(i, u) <= i
  {
    var r := XorShift.Scale(0.0, (i + 1) as real, u);
    assert r == (i + 1) as real * u;
    assert 0.0 <= r < (i + 1) as real;
  }

  /** `Math.floor(r)` for a draw `r` of at least 0, clamped to `i`. */
  function Clamp(i: nat, r: real): (j: int)
    requires 0.0 <= r
    ensures 0 <= j <= i
    ensures r < (i + 1) as real ==> j == r.Floor
  {
    if r.Floor > i then i else r.Floor
  }

  /** The corrected partner: the drawn index, clamped to the positions not yet fixed. */
  function SwapIndex(i: nat, u: real): (j: int)
    requires 0.0 <= u <= 1.0
    ensures 0 <= j <= i
    ensures u < 1.0 ==> j == DrawnIndex(i, u)
  {
    XorShift.ScaleWithinBounds(0.0, (i + 1) as real, u);
    assert u < 1.0 ==> 0 <= DrawnIndex(i, u) <= i by {
      if u < 1.0 {
        DrawnIndexInRange(i, u);
      }
    }
    Clamp(i, XorShift.Scale(0.0, (i + 1) as real, u))
  }

  /** Exchanges two entries; the contents stay the same multiset. */
  method Swap<T>(a: array<T>, i: int, j: int)
    requires 0 <= i < a.Length && 0 <= j < a.Length
    modifies a
    ensures a[..] == old(a[..])[i := old(a[j])][j := old(a[i])]
    ensures multiset(a[..]) == multiset(old(a[..]))
  {
    a[i], a[j] := a[j], a[i];
  }

  /**
   * `shuffleInPlace` with the corrected partner: the array ends up a
   * permutation of what it held, and the generator has advanced once per
   * position from the last down to the second.
   */
  method ShuffleInPlace<T>(a: array<T>, rng: XorShift.Rng)
    modifies a, rng
    ensures multiset(a[..]) == multiset(old(a[..]))
    ensures rng.state == XorShift.Iterate(old(rng.state), if a.Length == 0 then 0 else a.Length - 1)
  {
    if a.Length == 0 {
      return;
    }
    ghost var s0 := rng.state;
    var i := a.Length - 1;
    while i > 0
      invariant 0 <= i < a.Length
      invariant multiset(a[..]) == multiset(old(a[..]))
      invariant XorShift.Iterate(rng.state, i) == XorShift.Iterate(s0, a.Length - 1)
      decreases i
    {
      // `rng.range(0, i + 1)`: the draw here, the scaling inside `SwapIndex`.
      var u := rng.Next();
      var j := SwapIndex(i, u);
      Swap(a, i, j);
      i := i - 1;
    }
  }
}
