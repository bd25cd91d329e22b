/** The axis-aligned bounding-box test between two bodies. A body occupies
    the closed box `center ± size / 2`. */
module Collision {
  import opened Entities

  /** `colliding(b1, b2)`: false for the same object; otherwise false exactly
      when one box lies strictly to one side of the other on some axis. */
  function Colliding(b1: Body, b2: Body): (r: bool)
    ensures b1.id == b2.id ==> !r
  {
    !(b1.id == b2.id ||
      b1.center.x + b1.size.x / 2.0 < b2.center.x - b2.size.x / 2.0 ||
      b1.center.y + b1.size.y / 2.0 < b2.center.y - b2.size.y / 2.0 ||
      b1.center.x - b1.size.x / 2.0 > b2.center.x + b2.size.x / 2.0 ||
      b1.center.y - b1.size.y / 2.0 > b2.center.y + b2.size.y / 2.0)
  }

  /** Point `p` lies in the closed box of `b`. */
  predicate InBox(p: Vec, b: Body) {
    && b.center.x - b.size.x / 2.0 <= p.x <= b.center.x + b.size.x / 2.0
    && b.center.y - b.size.y / 2.0 <= p.y <= b.center.y + b.size.y / 2.0
  }

  /** The closed boxes of the two bodies have a point in common. */
  ghost predicate BoxesOverlap(b1: Body, b2: Body) {
    exists p: Vec :: InBox(p, b1) && InBox(p, b2)
  }

  function Max(a: real, b: real): real {
    if a < b then b else a
  }

  /** For two distinct bodies, `colliding` holds exactly when their closed
      boxes share a point, so boxes that only touch at an edge collide. This
      relies on sizes being non-negative (`AllSizesNonNegative`). */
  lemma CollidingIffBoxesOverlap(b1: Body, b2: Body)
    ensures Colliding(b1, b2) <==> b1.id != b2.id && BoxesOverlap(b1, b2)
  {
    if Colliding(b1, b2) {
      var p := Vec(Max(b1.center.x - b1.size.x / 2.0, b2.center.x - b2.size.x / 2.0),
                   Max(b1.center.y - b1.size.y / 2.0, b2.center.y - b2.size.y / 2.0));
      assert InBox(p, b1) && InBox(p, b2);
    }
    if b1.id != b2.id && BoxesOverlap(b1, b2) {
      var p :| InBox(p, b1) && InBox(p, b2);
    }
  }

  lemma CollidingIsIrreflexive(b: Body)
    ensures !Colliding(b, b)
  {
  }

  lemma CollidingIsSymmetric(b1: Body, b2: Body)
    ensures Colliding(b1, b2) == Colliding(b2, b1)
  {
  }

  /** Centres further apart than the sum of the half-sizes on either axis
      never collide. */
  lemma SeparatedNeverCollide(b1: Body, b2: Body)
    requires Abs(b1.center.x - b2.center.x) > (b1.size.x + b2.size.x) / 2.0 ||
             Abs(b1.center.y - b2.center.y) > (b1.size.y + b2.size.y) / 2.0
    ensures !Colliding(b1, b2)
  {
  }
}
