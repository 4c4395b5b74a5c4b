/**
 * Bounding rectangles and the collision test shared by both versions of the game.
 * Rectangles are what the browser's getBoundingClientRect reports; the model takes
 * them as inputs instead of computing a layout.
 */
module Geometry {

  /** A bounding client rectangle in viewport pixels (y grows downwards). */
  datatype Rect = Rect(top: real, bottom: real, left: real, right: real)

  /** A rectangle the browser can report: its edges are not crossed. */
  predicate WellFormed(r: Rect)
  {
    r.top <= r.bottom && r.left <= r.right
  }

  /** The point (x, y) lies in the closed rectangle r. */
  predicate Contains(r: Rect, x: real, y: real)
  {
    r.left <= x <= r.right && r.top <= y <= r.bottom
  }

  /**
   * onCollision: the rectangles collide unless one lies strictly above, below,
   * left of or right of the other; edges that touch count as a collision.
   */
  predicate OnCollision(a: Rect, b: Rect)
  {
    !(a.top > b.bottom || a.bottom < b.top || a.right < b.left || a.left > b.right)
  }

  /** Which rectangle is the car and which the box does not matter. */
  lemma CollisionSymmetric(a: Rect, b: Rect)
    ensures OnCollision(a, b) <==> OnCollision(b, a)
  {
  }

  /**
   * The separating-edge test agrees with the geometric meaning of a collision:
   * two well-formed closed rectangles collide exactly when they share a point.
   */
  lemma CollisionIsSharedPoint(a: Rect, b: Rect)
    requires WellFormed(a) && WellFormed(b)
    ensures OnCollision(a, b) <==> exists x: real, y: real :: Contains(a, x, y) && Contains(b, x, y)
  {
    if OnCollision(a, b) {
      var x := if a.left >= b.left then a.left else b.left;
      var y := if a.top >= b.top then a.top else b.top;
      assert Contains(a, x, y) && Contains(b, x, y);
    }
  }

  /** Touching counts: two rectangles that meet only at a corner collide. */
  lemma CornerContactCollides(a: Rect, b: Rect)
    requires WellFormed(a) && WellFormed(b)
    requires a.right == b.left && a.bottom == b.top
    ensures OnCollision(a, b)
  {
  }

  /** None of the first n box rectangles meets the car: the running test of a box loop. */
  ghost predicate NoneCollide(car: Rect, boxRect: nat -> Rect, n: nat)
  {
    n == 0 || (NoneCollide(car, boxRect, n - 1) && !OnCollision(car, boxRect(n - 1)))
  }

  lemma {:induction false} NoneCollideMeans(car: Rect, boxRect: nat -> Rect, n: nat)
    ensures NoneCollide(car, boxRect, n) <==> forall j :: 0 <= j < n ==> !OnCollision(car, boxRect(j))
  {
    if n > 0 {
      NoneCollideMeans(car, boxRect, n - 1);
    }
  }
}
