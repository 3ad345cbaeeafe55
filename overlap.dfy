/** The overlap test of the suppression pass: `overlaps` and
    `getIntersectionProportion`. */
module Overlap {
  import opened Detections

  function Max(a: real, b: real): real { if a >= b then a else b }
  function Min(a: real, b: real): real { if a <= b then a else b }
  function Abs(a: real): real { if a >= 0.0 then a else -a }

  /** The interiors of the two rectangles meet: every edge comparison is strict. */
  predicate Overlaps(primary: BoxPosition, secondary: BoxPosition) {
    && primary.left < secondary.Right()
    && primary.Right() > secondary.left
    && primary.top < secondary.Bottom()
    && primary.Bottom() > secondary.top
  }

  /** Width times height of the common part of the two rectangles, never negative. */
  function IntersectionSurface(primary: BoxPosition, secondary: BoxPosition): (area: real) {
    Max(0.0, Min(primary.Right(), secondary.Right()) - Max(primary.left, secondary.left))
      * Max(0.0, Min(primary.Bottom(), secondary.Bottom()) - Max(primary.top, secondary.top))
  }

  function Surface(b: BoxPosition): (area: real) {
    Abs(b.Right() - b.left) * Abs(b.Bottom() - b.top)
  }

  /** The share of the primary rectangle covered by the secondary one: the
      intersection divided by the area of the primary rectangle alone, not by
      the union.  Where the primary area is zero the source divides 0 by 0
      and gets NaN, which compares false with everything; 0 stands in for it,
      and `0 > OVERLAP_THRESHOLD` is false as well. */
  function IntersectionProportion(primary: BoxPosition, secondary: BoxPosition): (p: real) {
    if Overlaps(primary, secondary) && Surface(primary) != 0.0 then
      IntersectionSurface(primary, secondary) / Surface(primary)
    else
      0.0
  }

  /** `Overlaps` does not depend on the order of its arguments. */
  lemma OverlapsIsSymmetric(a: BoxPosition, b: BoxPosition)
    ensures Overlaps(a, b) <==> Overlaps(b, a)
  {
  }

  /** Rectangles that only share an edge do not overlap. */
  lemma TouchingBoxesDoNotOverlap(a: BoxPosition, b: BoxPosition)
    requires a.Right() == b.left || a.Bottom() == b.top
    ensures !Overlaps(a, b) && IntersectionProportion(a, b) == 0.0
  {
  }

  /** The proportion vanishes for rectangles that do not overlap. */
  lemma DisjointProportionIsZero(a: BoxPosition, b: BoxPosition)
    ensures !Overlaps(a, b) ==> IntersectionProportion(a, b) == 0.0
  {
  }

  /** A primary rectangle of zero area has nothing in common with anything:
      the source's 0/0 comes from an intersection that is itself 0. */
  lemma ZeroAreaPrimaryHasEmptyIntersection(a: BoxPosition, b: BoxPosition)
    requires Surface(a) == 0.0
    ensures IntersectionSurface(a, b) == 0.0
  {
    if a.width != 0.0 {
      assert a.height == 0.0;
      assert Min(a.Bottom(), b.Bottom()) - Max(a.top, b.top) <= 0.0;
    } else {
      assert Min(a.Right(), b.Right()) - Max(a.left, b.left) <= 0.0;
    }
  }

  lemma ProductBounds(x: real, y: real, w: real, h: real)
    requires 0.0 <= x <= w && 0.0 <= y <= h
    ensures 0.0 <= x * y <= w * h
  {
    assert x * y <= w * y;
    assert w * y <= w * h;
  }

  lemma QuotientBounds(a: real, b: real)
    requires 0.0 <= a <= b && b > 0.0
    ensures 0.0 <= a / b <= 1.0
  {
    assert (a / b) * b == a;
  }

  lemma QuotientBelowOne(a: real, b: real)
    requires 0.0 <= a < b
    ensures a / b < 1.0
  {
    var q := a / b;
    assert q * b == a;
  }

  /** The proportion lies between 0 and 1 whatever the rectangles. */
  lemma ProportionIsBetweenZeroAndOne(primary: BoxPosition, secondary: BoxPosition)
    ensures 0.0 <= IntersectionProportion(primary, secondary) <= 1.0
  {
    if Overlaps(primary, secondary) && Surface(primary) != 0.0 {
      var iw := Max(0.0, Min(primary.Right(), secondary.Right()) - Max(primary.left, secondary.left));
      var ih := Max(0.0, Min(primary.Bottom(), secondary.Bottom()) - Max(primary.top, secondary.top));
      assert iw <= Abs(primary.Right() - primary.left);
      assert ih <= Abs(primary.Bottom() - primary.top);
      ProductBounds(iw, ih, Abs(primary.Right() - primary.left), Abs(primary.Bottom() - primary.top));
      assert IntersectionSurface(primary, secondary) == iw * ih;
      ProductBounds(0.0, 0.0, Abs(primary.Right() - primary.left), Abs(primary.Bottom() - primary.top));
      QuotientBounds(IntersectionSurface(primary, secondary), Surface(primary));
    }
  }

  /** A rectangle of positive width and height covers itself entirely, so a
      second copy of an accepted detection is always discarded. */
  lemma SelfProportionIsOne(b: BoxPosition)
    requires b.width > 0.0 && b.height > 0.0
    ensures IntersectionProportion(b, b) == 1.0
  {
    assert Overlaps(b, b);
    assert IntersectionSurface(b, b) == b.width * b.height;
    assert Surface(b) == b.width * b.height;
  }

  lemma SurfaceOfUprightBox(b: BoxPosition)
    requires b.width >= 0.0 && b.height >= 0.0
    ensures Surface(b) == b.width * b.height
  {
    var w, h := Abs(b.Right() - b.left), Abs(b.Bottom() - b.top);
    assert w == b.width && h == b.height;
  }

  /** The proportion is not symmetric.  For a box nested inside another,
      the inner one is covered entirely, while the outer one is covered only
      by the share of its area that the inner box takes up. */
  lemma NestedBoxProportions(inner: BoxPosition, outer: BoxPosition)
    requires inner.width > 0.0 && inner.height > 0.0
    requires outer.left <= inner.left && inner.Right() <= outer.Right()
    requires outer.top <= inner.top && inner.Bottom() <= outer.Bottom()
    ensures IntersectionProportion(inner, outer) == 1.0
    ensures IntersectionProportion(outer, inner) == (inner.width * inner.height) / (outer.width * outer.height)
    ensures outer.width * outer.height > inner.width * inner.height ==>
              IntersectionProportion(outer, inner) < 1.0
  {
    assert Overlaps(inner, outer) && Overlaps(outer, inner);
    var w := Max(0.0, Min(inner.Right(), outer.Right()) - Max(inner.left, outer.left));
    var h := Max(0.0, Min(inner.Bottom(), outer.Bottom()) - Max(inner.top, outer.top));
    assert w == inner.width && h == inner.height;
    assert IntersectionSurface(inner, outer) == w * h;
    var w', h' := Max(0.0, Min(outer.Right(), inner.Right()) - Max(outer.left, inner.left)),
                  Max(0.0, Min(outer.Bottom(), inner.Bottom()) - Max(outer.top, inner.top));
    assert w' == inner.width && h' == inner.height;
    assert IntersectionSurface(outer, inner) == w' * h';
    SurfaceOfUprightBox(inner);
    assert outer.width >= inner.width && outer.height >= inner.height;
    SurfaceOfUprightBox(outer);
    ProductBounds(inner.width, inner.height, outer.width, outer.height);
    var a := inner.width * inner.height;
    assert a > 0.0;
    assert IntersectionProportion(inner, outer) == a / a;
    var big := outer.width * outer.height;
    if big > a {
      QuotientBelowOne(a, big);
    }
  }
}
