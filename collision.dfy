/**
 * Axis-aligned rectangles and the overlap test `isColliding` of the game
 * (CppGame/src/main.cpp). Coordinates are SDL floats in the source; here they
 * are exact reals.
 */
module Collision {

  /** The arena's size, `screenWidth` and `screenHeight`. */
  const ScreenWidth: real := 800.0
  const ScreenHeight: real := 600.0

  /** An SDL_FRect: top-left corner, width and height. */
  datatype Rect = Rect(x: real, y: real, w: real, h: real)

  /** A point of the plane. */
  datatype Point = Point(x: real, y: real)

  /** `isColliding`: the four strict comparisons of the source. */
  predicate IsColliding(a: Rect, b: Rect)
  {
    a.x < b.x + b.w &&
    a.x + a.w > b.x &&
    a.y < b.y + b.h &&
    a.y + a.h > b.y
  }

  /** A point strictly inside a rectangle (the open box). */
  predicate Inside(p: Point, r: Rect)
  {
    r.x < p.x < r.x + r.w && r.y < p.y < r.y + r.h
  }

  /** The overlap test does not depend on the order of its arguments. */
  lemma CollidingSymmetric(a: Rect, b: Rect)
    ensures IsColliding(a, b) == IsColliding(b, a)
  {
  }

  /** Rectangles that only share an edge do not collide: all four comparisons are strict. */
  lemma TouchingEdgesDoNotCollide(a: Rect, b: Rect)
    requires a.x + a.w == b.x || b.x + b.w == a.x || a.y + a.h == b.y || b.y + b.h == a.y
    ensures !IsColliding(a, b)
  {
  }

  /**
   * For rectangles of positive size the test means what it should: the two
   * open boxes share a point. Both directions.
   */
  lemma CollidingIffCommonInteriorPoint(a: Rect, b: Rect)
    requires a.w > 0.0 && a.h > 0.0 && b.w > 0.0 && b.h > 0.0
    ensures IsColliding(a, b) <==> exists p: Point :: Inside(p, a) && Inside(p, b)
  {
    if IsColliding(a, b) {
      var lx := if a.x < b.x then b.x else a.x;
      var hx := if a.x + a.w < b.x + b.w then a.x + a.w else b.x + b.w;
      var ly := if a.y < b.y then b.y else a.y;
      var hy := if a.y + a.h < b.y + b.h then a.y + a.h else b.y + b.h;
      var p := Point((lx + hx) / 2.0, (ly + hy) / 2.0);
      assert Inside(p, a) && Inside(p, b);
    }
  }

  /** A rectangle of positive size collides with itself (two actors on the same spot collide). */
  lemma SelfCollides(a: Rect)
    requires a.w > 0.0 && a.h > 0.0
    ensures IsColliding(a, a)
  {
  }
}
