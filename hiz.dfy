/**
 * Hierarchical-depth pyramid sizing (game/graphics/renderer.cpp:83-126 and 498-504). Sizes are
 * uint32 values, kept as integers in the uint32 range with the one wrap-around of the shrink
 * step written out.
 */
module HiZ {
  import opened Gpu

  datatype Size = Size(w: U32, h: U32)

  /** std::max(1u, a). */
  function Max1(a: U32): (r: U32)
    ensures r >= 1 && r >= a && (a >= 1 ==> r == a)
  {
    if a < 1 then 1 else a
  }

  /** Either dimension is above n. */
  predicate Above(s: Size, n: int) {
    s.w > n || s.h > n
  }

  /**
   * One step of the shrink loop, std::max(1u, (a + 1) / 2u) in uint32: for a == 0xFFFF_FFFF the
   * sum wraps to 0, which the max lifts to 1.
   */
  function HalfUp(a: U32): (r: U32)
    ensures r == Max1((a + 1) % U32Mod / 2)
  {
    if a == U32Mod - 1 then 1 else Max1((a + 1) / 2)
  }

  /** One step of the mip loop: each dimension is floor-halved, but never below 1. */
  function Halve(s: Size): Size {
    Size(Max1(s.w / 2), Max1(s.h / 2))
  }

  /**
   * The shrink loop of resetSwapchain: while either dimension is above 64, halve both
   * (rounding up, never below 1).
   */
  function ShrinkToTile(s: Size): (r: Size)
    ensures r.w <= 64 && r.h <= 64
    ensures Above(s, 64) ==> 1 <= r.w && 1 <= r.h
    ensures !Above(s, 64) ==> r == s
    decreases if s.w > 64 then s.w else 0, if s.h > 64 then s.h else 0
  {
    if Above(s, 64) then ShrinkToTile(Size(HalfUp(s.w), HalfUp(s.h))) else s
  }

  /** From a base of at least 1x1 the shrunk size is at least 1x1 and at most 64x64. */
  lemma ShrinkBounds(s: Size)
    requires 1 <= s.w && 1 <= s.h
    ensures 1 <= ShrinkToTile(s).w <= 64 && 1 <= ShrinkToTile(s).h <= 64
  {
  }

  /**
   * The levels of a mip chain built from base s: level 0 is s, each further level is Halve of
   * the one before, and the chain stops at the first level that is at most 1x1.
   */
  function MipLevels(s: Size): (r: seq<Size>)
    ensures |r| >= 1 && r[0] == s
    decreases if s.w > 1 then s.w else 0, if s.h > 1 then s.h else 0
  {
    if Above(s, 1) then [s] + MipLevels(Halve(s)) else [s]
  }

  /**
   * Every level but the last is above 1x1 and is followed by its halving; the last is at most
   * 1x1, and when at least one halving happened it is exactly 1x1.
   */
  lemma {:induction false} LevelsShape(s: Size)
    ensures var r := MipLevels(s);
      (forall i :: 0 <= i < |r| - 1 ==> Above(r[i], 1) && r[i + 1] == Halve(r[i]))
      && !Above(r[|r| - 1], 1)
      && (|r| > 1 ==> r[|r| - 1] == Size(1, 1))
    decreases if s.w > 1 then s.w else 0, if s.h > 1 then s.h else 0
  {
    if Above(s, 1) {
      var r := MipLevels(s);
      var r' := MipLevels(Halve(s));
      LevelsShape(Halve(s));
      assert r == [s] + r';
      forall i | 0 <= i < |r| - 1
        ensures Above(r[i], 1) && r[i + 1] == Halve(r[i])
      {
        if i > 0 {
          assert r[i] == r'[i - 1] && r[i + 1] == r'[i];
        }
      }
    }
  }

  /** The number of halvings, which is also the number of mip descriptors. */
  function MipCount(s: Size): nat {
    |MipLevels(s)| - 1
  }

  function Pow2(k: nat): (r: nat)
    ensures r >= 1
  {
    if k == 0 then 1 else 2 * Pow2(k - 1)
  }

  /** A square base of side 2^k needs exactly k halvings, the last level being 1x1. */
  lemma {:induction false} SquareChainLength(k: nat)
    requires Pow2(k) < U32Mod
    ensures MipCount(Size(Pow2(k), Pow2(k))) == k
  {
    var p := Pow2(k);
    if k == 0 {
      LevelsBase(Size(1, 1));
    } else {
      var q := Pow2(k - 1);
      assert Halve(Size(p, p)) == Size(q, q);
      LevelsStep(Size(p, p));
      SquareChainLength(k - 1);
    }
  }

  /** The fixed 64x64 shadow pyramid has six halvings: 64, 32, 16, 8, 4, 2, 1. */
  lemma ShadowPyramidHasSixLevels()
    ensures MipCount(Size(64, 64)) == 6
    ensures MipLevels(Size(64, 64))[6] == Size(1, 1)
  {
    assert Pow2(6) == 64;
    SquareChainLength(6);
    LevelsShape(Size(64, 64));
  }

  /**
   * The sizes drawHiZ dispatches for n mip steps starting from (w, h): it halves its own copy
   * without the lower bound and clamps only the dispatched size.
   */
  function MipDispatches(w: U32, h: U32, n: nat): (r: seq<Size>)
    ensures |r| == n
  {
    if n == 0 then [] else [Size(Max1(w / 2), Max1(h / 2))] + MipDispatches(w / 2, h / 2, n - 1)
  }

  /** a halved k times without the lower bound, as drawHiZ's own copy of the size is after k steps. */
  function Halved(a: U32, k: nat): (r: U32)
    ensures r <= a
  {
    if k == 0 then a else Halved(a, k - 1) / 2
  }

  /** Halving once more before or after k halvings gives the same value. */
  lemma {:induction false} HalvedShift(a: U32, k: nat)
    ensures Halved(a / 2, k) == Halved(a, k + 1)
  {
    if k > 0 {
      HalvedShift(a, k - 1);
    }
  }

  /** Dispatch n of the mip loop comes from the size after n unclamped halvings. */
  lemma {:induction false} DispatchesSnoc(w: U32, h: U32, n: nat)
    ensures MipDispatches(w, h, n + 1)
      == MipDispatches(w, h, n) + [Size(Max1(Halved(w, n) / 2), Max1(Halved(h, n) / 2))]
  {
    if n > 0 {
      DispatchesSnoc(w / 2, h / 2, n - 1);
      HalvedShift(w, n - 1);
      HalvedShift(h, n - 1);
    }
  }

  /** Clamping a dimension to 1 first changes neither the length nor the tail of its chain. */
  lemma ChainIgnoresClamp(t: Size)
    ensures |MipLevels(Size(Max1(t.w), Max1(t.h)))| == |MipLevels(t)|
    ensures MipLevels(Size(Max1(t.w), Max1(t.h)))[1..] == MipLevels(t)[1..]
  {
    var c := Size(Max1(t.w), Max1(t.h));
    assert Above(c, 1) == Above(t, 1);
    assert Halve(c) == Halve(t);
  }

  /** One mip step: a chain above 1x1 is its base followed by the chain of the halved base. */
  lemma LevelsStep(s: Size)
    requires Above(s, 1)
    ensures MipLevels(s) == [s] + MipLevels(Halve(s))
    ensures MipLevels(s)[1..] == MipLevels(Halve(s))
    ensures MipCount(s) == MipCount(Halve(s)) + 1
  {
  }

  /** The unclamped halving of a base above 1x1 has one halving fewer and the same tail. */
  lemma TailStep(s: Size)
    requires Above(s, 1)
    ensures MipCount(Size(s.w / 2, s.h / 2)) == MipCount(s) - 1
    ensures MipLevels(Size(s.w / 2, s.h / 2))[1..] == MipLevels(Halve(s))[1..]
  {
    var t := Size(s.w / 2, s.h / 2);
    ChainIgnoresClamp(t);
    assert Halve(s) == Size(Max1(t.w), Max1(t.h));
    LevelsStep(s);
  }

  /** A base of at most 1x1 is the whole chain. */
  lemma LevelsBase(s: Size)
    requires !Above(s, 1)
    ensures MipLevels(s) == [s] && MipCount(s) == 0
  {
  }

  /** One dispatch step of drawHiZ. */
  lemma DispatchStep(s: Size, n: nat)
    requires n >= 1
    ensures MipDispatches(s.w, s.h, n) == [Halve(s)] + MipDispatches(s.w / 2, s.h / 2, n - 1)
  {
  }

  /** The sequence bookkeeping of one induction step of DispatchesMatchLevels. */
  lemma Assemble(hs: Size, d: seq<Size>, dt: seq<Size>, lt: seq<Size>, lh: seq<Size>, ls: seq<Size>)
    requires |lt| >= 1 && |lh| >= 1 && |ls| >= 1
    requires d == [hs] + dt && dt == lt[1..] && lt[1..] == lh[1..]
    requires lh[0] == hs && ls[1..] == lh
    ensures d == ls[1..]
  {
    assert lh == [hs] + lh[1..];
  }

  /** One induction step of DispatchesMatchLevels, from the halved base to s. */
  lemma InductionStep(s: Size)
    requires Above(s, 1)
    requires MipDispatches(s.w / 2, s.h / 2, MipCount(Size(s.w / 2, s.h / 2)))
      == MipLevels(Size(s.w / 2, s.h / 2))[1..]
    ensures MipDispatches(s.w, s.h, MipCount(s)) == MipLevels(s)[1..]
  {
    var t := Size(s.w / 2, s.h / 2);
    var hs := Halve(s);
    var n := MipCount(s);
    var lt, lh, ls := MipLevels(t), MipLevels(hs), MipLevels(s);
    var d, dt := MipDispatches(s.w, s.h, n), MipDispatches(t.w, t.h, n - 1);
    assert |lt| >= 1 && |lh| >= 1 && |ls| >= 1 && lh[0] == hs;
    assert MipCount(t) == n - 1 && lt[1..] == lh[1..] by {
      TailStep(s);
    }
    assert ls[1..] == lh by {
      LevelsStep(s);
    }
    assert d == [hs] + dt by {
      DispatchStep(s, n);
    }
    Assemble(hs, d, dt, lt, lh, ls);
  }

  /**
   * The dispatch sizes drawHiZ issues, one per mip descriptor, are exactly the levels 1.. of the
   * chain resetSwapchain built from the same base.
   */
  lemma {:induction false} DispatchesMatchLevels(s: Size)
    ensures MipDispatches(s.w, s.h, MipCount(s)) == MipLevels(s)[1..]
    decreases if s.w > 1 then s.w else 0, if s.h > 1 then s.h else 0
  {
    if Above(s, 1) {
      DispatchesMatchLevels(Size(s.w / 2, s.h / 2));
      InductionStep(s);
    } else {
      LevelsBase(s);
    }
  }

  /** Mip descriptor i of image t: slot 0 reads level i, slot 1 writes level i + 1. */
  function MipLink(t: Target, i: nat): Desc {
    Set(Set(Fresh(HiZMip), 0, Mip(t, i)), 1, Mip(t, i + 1))
  }

  /** The descriptors emplace_back'ed by a mip loop of n steps over image t. */
  function MipLinks(t: Target, n: nat): (r: seq<Desc>)
    ensures |r| == n
  {
    if n == 0 then [] else MipLinks(t, n - 1) + [MipLink(t, n - 1)]
  }

  /**
   * Descriptor i of a chain of n links level i to level i + 1 of the same image, and binds no
   * other slot.
   */
  lemma {:induction false} MipLinksAt(t: Target, n: nat, i: nat)
    requires i < n
    ensures MipLinks(t, n)[i].Desc? && MipLinks(t, n)[i].layout == HiZMip
    ensures MipLinks(t, n)[i].slots == map[0 := Mip(t, i), 1 := Mip(t, i + 1)]
  {
    if i < n - 1 {
      MipLinksAt(t, n - 1, i);
    }
  }

  /** Above 64 a shrink step lowers the value. */
  lemma HalfUpShrinks(a: U32)
    requires a > 64
    ensures HalfUp(a) < a
  {
  }

  /** One iteration of the shrink loop leaves the loop's final result unchanged. */
  lemma ShrinkStep(s: Size)
    requires Above(s, 64)
    ensures ShrinkToTile(Size(HalfUp(s.w), HalfUp(s.h))) == ShrinkToTile(s)
  {
  }

  /** The shrink loop of resetSwapchain (renderer.cpp:86-91), on the padded size (pw, ph). */
  method Shrink(pw: U32, ph: U32) returns (hw: U32, hh: U32)
    ensures Size(hw, hh) == ShrinkToTile(Size(pw, ph))
    ensures hw <= 64 && hh <= 64
  {
    hw, hh := pw, ph;
    while hw > 64 || hh > 64
      invariant ShrinkToTile(Size(hw, hh)) == ShrinkToTile(Size(pw, ph))
      decreases if hw > 64 then hw else 0, if hh > 64 then hh else 0
    {
      ShrinkStep(Size(hw, hh));
      if hw > 64 {
        HalfUpShrinks(hw);
      }
      if hh > 64 {
        HalfUpShrinks(hh);
      }
      hw := HalfUp(hw);
      hh := HalfUp(hh);
    }
  }

  /** One iteration of a mip loop keeps the count of the halvings still to come. */
  lemma MipLoopStep(t: Target, i: nat, s: Size, base: Size)
    requires Above(s, 1)
    requires i + MipCount(s) == MipCount(base)
    ensures i + 1 + MipCount(Halve(s)) == MipCount(base)
    ensures MipLinks(t, i) + [MipLink(t, i)] == MipLinks(t, i + 1)
  {
    LevelsStep(s);
  }

  /**
   * A mip loop of resetSwapchain (renderer.cpp:98-105 and 119-126): halve (hw, hh) until it is
   * 1x1, emplacing descriptor i for each step; returns the descriptors and the final size.
   */
  method BuildMipLinks(t: Target, hw0: U32, hh0: U32) returns (links: seq<Desc>, hw: U32, hh: U32)
    ensures links == MipLinks(t, MipCount(Size(hw0, hh0)))
    ensures !Above(Size(hw, hh), 1)
  {
    links := [];
    hw, hh := hw0, hh0;
    var i := 0;
    while hw > 1 || hh > 1
      invariant links == MipLinks(t, i)
      invariant i + MipCount(Size(hw, hh)) == MipCount(Size(hw0, hh0))
      decreases if hw > 1 then hw else 0, if hh > 1 then hh else 0
    {
      MipLoopStep(t, i, Size(hw, hh), Size(hw0, hh0));
      hw := Max1(hw / 2);
      hh := Max1(hh / 2);
      links := links + [MipLink(t, i)];
      i := i + 1;
    }
    LevelsBase(Size(hw, hh));
  }
}
