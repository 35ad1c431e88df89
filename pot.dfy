/**
 * Rounding a 32-bit unsigned value up to a power of two (game/graphics/renderer.cpp, nextPot).
 * All arithmetic is on bv32, so the wrap-around of `x--` and `x++` is the machine's.
 */
module Pot {

  /** Exactly one bit set. */
  predicate IsPow2(p: bv32) {
    p != 0 && p & (p - 1) == 0
  }

  /** r is a power of two not below x whose half is below x. */
  predicate RoundsUp(x: bv32, r: bv32) {
    IsPow2(r) && x <= r && r >> 1 < x
  }

  /** Two values that both round x up are the same. */
  lemma RoundingIsUnique(x: bv32, a: bv32, b: bv32)
    requires RoundsUp(x, a) && RoundsUp(x, b)
    ensures a == b
  {
  }

  /** Every x in 1..2^31 has a power of two that rounds it up (2^31 itself is the largest). */
  lemma RoundingExists(x: bv32)
    requires 1 <= x <= 0x8000_0000
    ensures exists r :: RoundsUp(x, r)
  {
    var p: bv32 := 1;
    while p < x
      invariant IsPow2(p) && p >> 1 < x && p <= 0x8000_0000
      decreases 0x8000_0000 - p
    {
      p := p << 1;
    }
    assert RoundsUp(x, p);
  }

  /**
   * The value nextPot must produce: the smallest power of two that is at least x when
   * 1 <= x <= 2^31; 0 for x = 0 and for x above 2^31, whose power of two does not fit.
   */
  ghost function NextPotOf(x: bv32): (r: bv32)
  {
    if x == 0 || x > 0x8000_0000 then 0
    else
      RoundingExists(x);
      var r :| RoundsUp(x, r); r
  }

  /** NextPotOf(x) is the least power of two not below x, and leaves a power of two unchanged. */
  lemma NextPotIsLeast(x: bv32, q: bv32)
    requires 1 <= x <= 0x8000_0000
    requires IsPow2(q) && x <= q
    ensures RoundsUp(x, NextPotOf(x))
    ensures NextPotOf(x) <= q
    ensures IsPow2(x) ==> NextPotOf(x) == x
  {
    var r := NextPotOf(x);
    if IsPow2(x) {
      RoundingIsUnique(x, r, x);
    }
  }

  /**
   * The value nextPot computes, as one expression: x - 1 with every bit below its highest set
   * bit set, plus one.
   */
  function Smeared(x: bv32): bv32 {
    var v0 := x - 1;
    var v1 := v0 | (v0 >> 1);
    var v2 := v1 | (v1 >> 2);
    var v3 := v2 | (v2 >> 4);
    var v4 := v3 | (v3 >> 8);
    var v5 := v4 | (v4 >> 16);
    v5 + 1
  }

  lemma SmearedRoundsUp(x: bv32)
    requires 1 <= x <= 0x8000_0000
    ensures RoundsUp(x, Smeared(x))
  {
  }

  lemma SmearedOverflows(x: bv32)
    requires x == 0 || x > 0x8000_0000
    ensures Smeared(x) == 0
  {
  }

  /** The smear meets the contract of nextPot. */
  lemma SmearedIsNextPot(x: bv32)
    ensures 1 <= x <= 0x8000_0000 ==> RoundsUp(x, Smeared(x))
    ensures x == 0 || x > 0x8000_0000 ==> Smeared(x) == 0
    ensures Smeared(x) == NextPotOf(x)
  {
    if 1 <= x <= 0x8000_0000 {
      SmearedRoundsUp(x);
      RoundingIsUnique(x, Smeared(x), NextPotOf(x));
    } else {
      SmearedOverflows(x);
    }
  }

  /** nextPot, step by step: smear the highest set bit of x - 1 downwards, then add one. */
  method NextPot(x: bv32) returns (r: bv32)
    ensures 1 <= x <= 0x8000_0000 ==> IsPow2(r) && x <= r && r >> 1 < x
    ensures x == 0 || x > 0x8000_0000 ==> r == 0
    ensures r == NextPotOf(x)
  {
    var v := x;
    v := v - 1;
    v := v | (v >> 1);
    v := v | (v >> 2);
    v := v | (v >> 4);
    v := v | (v >> 8);
    v := v | (v >> 16);
    v := v + 1;
    r := v;
    SmearedIsNextPot(x);
  }
}
