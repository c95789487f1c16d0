/**
 * Integer boxes as the tracker wrapper sees them: the corners of a dlib
 * rectangle (left, top, right, bottom), the intersection of two boxes, the
 * overlap ratio that `Tracker.iou` computes, and the in-frame test.
 */
module Geometry {

  /** An axis-aligned box; positions are truncated to integers. */
  datatype Box = Box(left: int, top: int, right: int, bottom: int)

  /** The three dimensions of a numpy image: (height, width, channels). */
  datatype Shape = Shape(height: int, width: int, channels: int)

  /** The box spans a positive area. */
  predicate Proper(b: Box)
  {
    b.left < b.right && b.top < b.bottom
  }

  /** Area of a box; a box without extent has area 0. */
  function Area(b: Box): (a: nat)
    ensures a > 0 <==> Proper(b)
  {
    if Proper(b) then (b.right - b.left) * (b.bottom - b.top) else 0
  }

  function Max(x: int, y: int): int { if x < y then y else x }

  function Min(x: int, y: int): int { if x < y then x else y }

  /** The common part of two boxes (empty, hence of area 0, when they do not meet). */
  function Intersect(a: Box, b: Box): Box
  {
    Box(Max(a.left, b.left), Max(a.top, b.top), Min(a.right, b.right), Min(a.bottom, b.bottom))
  }

  /** Area of the intersection of two boxes, `bb.intersect(pos).area()`. */
  function InterArea(a: Box, b: Box): nat
  {
    Area(Intersect(a, b))
  }

  /**
   * The overlap ratio of `Tracker.iou`: intersection divided by the sum of
   * the intersection and BOTH areas (not the union), and 0 when that sum is 0.
   */
  function Ratio(pos: Box, bb: Box): real
  {
    var inter := InterArea(bb, pos);
    var den := inter + Area(pos) + Area(bb);
    if den == 0 then 0.0 else inter as real / den as real
  }

  /** `Tracker.is_in_frame`: at least one pixel of the box lies inside a frame of this shape. */
  predicate InFrame(b: Box, shape: Shape)
  {
    b.right > 0 && b.left < shape.width && b.top < shape.height && b.bottom > 0
  }

  /** The whole frame as a box. */
  function FrameBox(shape: Shape): Box
  {
    Box(0, 0, shape.width, shape.height)
  }

  lemma MulMono(x: nat, y: nat, x': nat, y': nat)
    requires x <= x' && y <= y'
    ensures x * y <= x' * y'
  {
    assert x * y <= x' * y;
    assert x' * y <= x' * y';
  }

  /** The intersection is no larger than either box. */
  lemma InterAreaBounded(a: Box, b: Box)
    ensures InterArea(a, b) <= Area(a) && InterArea(a, b) <= Area(b)
  {
    var c := Intersect(a, b);
    if Proper(c) {
      MulMono(c.right - c.left, c.bottom - c.top, a.right - a.left, a.bottom - a.top);
      MulMono(c.right - c.left, c.bottom - c.top, b.right - b.left, b.bottom - b.top);
    }
  }

  /** Intersection does not depend on the order of its arguments. */
  lemma InterAreaSymmetric(a: Box, b: Box)
    ensures InterArea(a, b) == InterArea(b, a)
  {
    assert Intersect(a, b) == Intersect(b, a);
  }

  /**
   * Because the denominator counts the intersection three times, the ratio
   * never exceeds one third, whatever the two boxes are.
   */
  lemma RatioAtMostThird(pos: Box, bb: Box)
    ensures 0.0 <= Ratio(pos, bb) <= 1.0 / 3.0
  {
    InterAreaBounded(bb, pos);
    FractionAtMostThird(InterArea(bb, pos), Area(pos), Area(bb));
  }

  lemma FractionAtMostThird(inter: nat, x: nat, y: nat)
    requires inter <= x && inter <= y
    ensures var den := inter + x + y;
      0.0 <= (if den == 0 then 0.0 else inter as real / den as real) <= 1.0 / 3.0
  {
    var den := inter + x + y;
    if den != 0 {
      var r := inter as real / den as real;
      assert r * den as real == inter as real;
      assert 3.0 * inter as real <= den as real;
    }
  }

  /** Hence the `> 0.5` test of the matching step can never succeed. */
  lemma RatioNeverAboveHalf(pos: Box, bb: Box)
    ensures !(Ratio(pos, bb) > 0.5)
  {
    RatioAtMostThird(pos, bb);
  }

  /** The ratio is symmetric in its two boxes. */
  lemma RatioSymmetric(a: Box, b: Box)
    ensures Ratio(a, b) == Ratio(b, a)
  {
    InterAreaSymmetric(a, b);
  }

  /** Boxes that share no area have ratio 0. */
  lemma RatioDisjoint(a: Box, b: Box)
    requires a.right <= b.left || b.right <= a.left || a.bottom <= b.top || b.bottom <= a.top
    ensures Ratio(a, b) == 0.0
  {
    assert !Proper(Intersect(b, a));
  }

  /** A box of positive area has ratio exactly one third with itself (standard IoU would give 1). */
  lemma RatioSelf(b: Box)
    requires Proper(b)
    ensures Ratio(b, b) == 1.0 / 3.0
  {
    assert Intersect(b, b) == b;
    var a := Area(b) as real;
    assert a > 0.0;
    assert Ratio(b, b) == a / (3.0 * a);
    assert a / (3.0 * a) == 1.0 / 3.0 by {
      assert (1.0 / 3.0) * (3.0 * a) == a;
    }
  }

  /**
   * For a proper box and a non-empty frame, the in-frame test holds exactly
   * when the box shares a region of positive area with the frame.
   */
  lemma InFrameIffOverlap(b: Box, shape: Shape)
    ensures Proper(b) && shape.height > 0 && shape.width > 0 ==>
      (InFrame(b, shape) <==> InterArea(b, FrameBox(shape)) > 0)
  {
    if Proper(b) && shape.height > 0 && shape.width > 0 {
      var c := Intersect(b, FrameBox(shape));
      assert InFrame(b, shape) <==> Proper(c);
    }
  }
}
