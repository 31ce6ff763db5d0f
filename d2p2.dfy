/** Day 2: wrapping paper and ribbon for box-shaped presents. The side
    lengths are Rust `i32`s parsed from digits, so they are non-negative, and
    every intermediate `i32` product or sum must stay in range (Rust panics on
    overflow in debug builds). */
module D2p2 {
  import opened Common

  const I32_LIMIT: int := 0x8000_0000
  const I64_LIMIT: int := 0x8000_0000_0000_0000

  datatype Present = Present(l: nat, w: nat, h: nat)

  predicate FitsI32(x: int) { -I32_LIMIT <= x < I32_LIMIT }

  /** The `i32` intermediates of `required_paper`, in Rust's evaluation
      order: `2 * l` is formed before it is multiplied by `w`. The other
      intermediates are non-negative and no larger than the final sum of
      the surface area and the smallest face. */
  predicate PaperInRange(p: Present) {
    FitsI32(2 * p.l) && FitsI32(2 * p.w) && FitsI32(2 * p.h)
    && FitsI32(SurfaceArea(p) + Min3(Area(p.l, p.w), Area(p.w, p.h), Area(p.h, p.l)))
  }

  /** The `i32` intermediates of `required_ribbon`. */
  predicate RibbonInRange(p: Present) {
    FitsI32(p.l + p.w) && FitsI32(p.w + p.h) && FitsI32(p.h + p.l)
    && FitsI32(Area(p.l, p.w)) && FitsI32(Volume(p))
  }

  function Min3(a: int, b: int, c: int): (m: int)
    ensures m <= a && m <= b && m <= c
    ensures m == a || m == b || m == c
  {
    if a <= b && a <= c then a else if b <= c then b else c
  }

  /** The area of a face with sides `x` and `y`. */
  function Area(x: nat, y: nat): nat {
    x * y
  }

  function SurfaceArea(p: Present): nat {
    2 * Area(p.l, p.w) + 2 * Area(p.w, p.h) + 2 * Area(p.h, p.l)
  }

  function Volume(p: Present): nat {
    Area(p.l, p.w) * p.h
  }

  /** `Present::required_paper`. */
  function RequiredPaper(p: Present): (paper: nat)
    requires PaperInRange(p)
  {
    SurfaceArea(p) + Min3(Area(p.l, p.w), Area(p.w, p.h), Area(p.h, p.l))
  }

  /** `Present::required_ribbon`. */
  function RequiredRibbon(p: Present): (ribbon: nat)
    requires RibbonInRange(p)
  {
    2 * Min3(p.l + p.w, p.w + p.h, p.h + p.l) + Volume(p)
  }

  /** No `i32` intermediate of `required_paper` overflows. */
  lemma PaperFitsI32(p: Present)
    requires PaperInRange(p)
    ensures FitsI32(2 * p.l * p.w) && FitsI32(2 * p.w * p.h) && FitsI32(2 * p.h * p.l)
    ensures FitsI32(2 * p.l * p.w + 2 * p.w * p.h) && FitsI32(SurfaceArea(p))
    ensures FitsI32(Area(p.l, p.w)) && FitsI32(Area(p.w, p.h)) && FitsI32(Area(p.h, p.l))
    ensures RequiredPaper(p) < I32_LIMIT
  {
    DoubledFace(p.l, p.w);
    DoubledFace(p.w, p.h);
    DoubledFace(p.h, p.l);
  }

  /** `2 * x * y` is twice the face `x * y`, which is non-negative. */
  lemma DoubledFace(x: nat, y: nat)
    ensures 2 * x * y == 2 * Area(x, y) && 0 <= Area(x, y)
  {
  }

  /** The paper is the surface area plus the area of one face that is no
      larger than any other face. */
  lemma PaperIsAreaPlusSmallestFace(p: Present)
    requires PaperInRange(p)
    ensures var extra := RequiredPaper(p) - SurfaceArea(p);
      (extra == p.l * p.w || extra == p.w * p.h || extra == p.h * p.l)
      && extra <= p.l * p.w && extra <= p.w * p.h && extra <= p.h * p.l
  {
  }

  /** The ribbon is the shortest perimeter of a face plus the volume. */
  lemma RibbonIsPerimeterPlusVolume(p: Present)
    requires RibbonInRange(p)
    ensures var wrap := RequiredRibbon(p) - p.l * p.w * p.h;
      (wrap == 2 * (p.l + p.w) || wrap == 2 * (p.w + p.h) || wrap == 2 * (p.h + p.l))
      && wrap <= 2 * (p.l + p.w) && wrap <= 2 * (p.w + p.h) && wrap <= 2 * (p.h + p.l)
  {
  }

  /** Swapping two sides of a present, or rotating them, changes neither the
      paper nor the ribbon it needs. */
  lemma PaperPermutationInvariant(p: Present)
    requires PaperInRange(p)
    requires PaperInRange(Present(p.w, p.l, p.h)) && PaperInRange(Present(p.w, p.h, p.l))
    ensures RequiredPaper(Present(p.w, p.l, p.h)) == RequiredPaper(p)
    ensures RequiredPaper(Present(p.w, p.h, p.l)) == RequiredPaper(p)
  {
    assert p.w * p.l == p.l * p.w && p.l * p.h == p.h * p.l && p.h * p.w == p.w * p.h;
  }

  lemma RibbonPermutationInvariant(p: Present)
    requires RibbonInRange(p)
    requires RibbonInRange(Present(p.w, p.l, p.h)) && RibbonInRange(Present(p.w, p.h, p.l))
    ensures RequiredRibbon(Present(p.w, p.l, p.h)) == RequiredRibbon(p)
    ensures RequiredRibbon(Present(p.w, p.h, p.l)) == RequiredRibbon(p)
  {
    assert p.w * p.l * p.h == p.l * p.w * p.h;
    assert p.w * p.h * p.l == p.l * p.w * p.h;
  }

  lemma KnownResults()
    ensures RequiredPaper(Present(2, 3, 4)) == 58 && RequiredPaper(Present(1, 1, 10)) == 43
    ensures RequiredRibbon(Present(2, 3, 4)) == 34 && RequiredRibbon(Present(1, 1, 10)) == 14
  {
  }

  predicate AllRibbonsInRange(presents: seq<Present>) {
    forall i :: 0 <= i < |presents| ==> RibbonInRange(presents[i])
  }

  /** The sum of the ribbons of all presents, as `Iterator::sum` folds it. */
  function TotalRibbon(presents: seq<Present>): nat
    requires AllRibbonsInRange(presents)
  {
    if presents == [] then 0 else RequiredRibbon(presents[0]) + TotalRibbon(presents[1..])
  }

  /** The total is additive over a split of the presents, and every present
      contributes its own ribbon. */
  lemma {:induction false} TotalRibbonAppend(a: seq<Present>, b: seq<Present>)
    requires AllRibbonsInRange(a) && AllRibbonsInRange(b)
    ensures AllRibbonsInRange(a + b)
    ensures TotalRibbon(a + b) == TotalRibbon(a) + TotalRibbon(b)
  {
    assert AllRibbonsInRange(a + b) by {
      forall i | 0 <= i < |a + b| ensures RibbonInRange((a + b)[i]) {
        if i < |a| { assert (a + b)[i] == a[i]; } else { assert (a + b)[i] == b[i - |a|]; }
      }
    }
    if a == [] {
      assert a + b == b;
    } else {
      assert (a + b)[1..] == a[1..] + b;
      TotalRibbonAppend(a[1..], b);
    }
  }

  class Solution {
    var presents: seq<Present>
    var answer: Option<nat>

    constructor ()
      ensures presents == [] && answer == None
    {
      presents := [];
      answer := None;
    }

    /** `Solution::add`: appends one present. */
    method Add(present: Present)
      modifies this
      ensures presents == old(presents) + [present] && answer == old(answer)
    {
      presents := presents + [present];
    }

    /** `Solution::analyse`: stores the total ribbon length. The sum is an
        `i64`, so it must stay below 2^63. */
    method Analyse()
      requires AllRibbonsInRange(presents) && TotalRibbon(presents) < I64_LIMIT
      modifies this
      ensures presents == old(presents)
      ensures answer == Some(TotalRibbon(presents))
    {
      answer := Some(TotalRibbon(presents));
    }
  }
}
