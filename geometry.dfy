/**
 * Axis-aligned rectangles and the game's collision predicate.
 *
 * The predicate is a corner-containment test, not a rectangle-overlap test:
 * `a.Intersects(b)` asks whether one of `a`'s four corners lies inside `b`'s
 * closed rectangle. It is deliberately asymmetric, and the lemmas below pin
 * down both what it guarantees and what it misses.
 */
module Geometry {

  /** The fixed logical canvas of every session, in pixels. */
  const ScreenWidth: real := 640.0
  const ScreenHeight: real := 480.0

  /** A rectangle given by its top-left corner and its size; y grows downwards. */
  datatype BoundingBox = BoundingBox(x: real, y: real, width: real, height: real)
  {
    /** The point (px, py) lies in this closed rectangle (all bounds inclusive). */
    predicate ContainsPoint(px: real, py: real) {
      x <= px <= x + width && y <= py <= y + height
    }

    /** Some corner of this box lies in `other`'s closed rectangle. */
    predicate Intersects(other: BoundingBox) {
      || other.ContainsPoint(x, y)
      || other.ContainsPoint(x + width, y)
      || other.ContainsPoint(x, y + height)
      || other.ContainsPoint(x + width, y + height)
    }

    /** The closed rectangles share at least one point (the separating-axis test). */
    predicate Overlaps(other: BoundingBox) {
      && x <= other.x + other.width && other.x <= x + width
      && y <= other.y + other.height && other.y <= y + height
    }

    predicate NonNegative() {
      width >= 0.0 && height >= 0.0
    }
  }

  /** Some box of `boxes` has one of its corners hit by a corner of `b`. */
  predicate HitsAny(b: BoundingBox, boxes: seq<BoundingBox>) {
    exists k :: 0 <= k < |boxes| && b.Intersects(boxes[k])
  }

  /** Soundness: a corner hit means the closed rectangles really overlap;
      touching edges count. */
  lemma IntersectsSound(a: BoundingBox, b: BoundingBox)
    requires a.NonNegative()
    ensures a.Intersects(b) ==> a.Overlaps(b) && b.Overlaps(a)
  {
  }

  /** The blind spot the corner test has by design: when `inner` lies strictly
      inside `outer`, no corner of `outer` touches `inner`, although every
      corner of `inner` lies in `outer`. */
  lemma ContainedBoxIsMissed(outer: BoundingBox, inner: BoundingBox)
    requires inner.NonNegative()
    requires outer.x < inner.x && inner.x + inner.width < outer.x + outer.width
    requires outer.y < inner.y && inner.y + inner.height < outer.y + outer.height
    ensures !outer.Intersects(inner)
    ensures inner.Intersects(outer)
    ensures outer.Overlaps(inner)
  {
  }

  /** The concrete asymmetry: B = (10, 10, 5, 5) inside A = (0, 0, 100, 100). */
  lemma AsymmetryExample()
    ensures BoundingBox(10.0, 10.0, 5.0, 5.0).Intersects(BoundingBox(0.0, 0.0, 100.0, 100.0))
    ensures !BoundingBox(0.0, 0.0, 100.0, 100.0).Intersects(BoundingBox(10.0, 10.0, 5.0, 5.0))
  {
  }

  /** Two crossing bars overlap, yet neither test sees the other: the corner
      test is strictly weaker than overlap even taken in both directions. */
  lemma CrossingBarsAreMissed()
    ensures BoundingBox(0.0, 10.0, 30.0, 10.0).Overlaps(BoundingBox(10.0, 0.0, 10.0, 30.0))
    ensures !BoundingBox(0.0, 10.0, 30.0, 10.0).Intersects(BoundingBox(10.0, 0.0, 10.0, 30.0))
    ensures !BoundingBox(10.0, 0.0, 10.0, 30.0).Intersects(BoundingBox(0.0, 10.0, 30.0, 10.0))
  {
  }
}
