/** The entity model: circles, tap points, random draws and the session state as a value. */
module Circles {
  import opened Tiers

  datatype Option<T> = None | Some(value: T)

  /** One blob: position, velocity per tick, and size tier. */
  datatype Circle = Circle(x: real, y: real, vx: real, vy: real, tier: Tier)

  /** A tap position in world coordinates. */
  datatype Point = Point(x: real, y: real)

  /**
   * The random numbers one child of a split is made from: the cosine and
   * sine of its angle and its two velocity components.
   */
  datatype Draw = Draw(cos: real, sin: real, vx: real, vy: real)

  /** What the random source guarantees of a draw. */
  predicate ValidDraw(d: Draw) {
    && d.cos * d.cos + d.sin * d.sin == 1.0
    && -VELOCITY_RANGE <= d.vx < VELOCITY_RANGE
    && -VELOCITY_RANGE <= d.vy < VELOCITY_RANGE
  }

  /** The mutable part of a session, as a value. */
  datatype World = World(circles: seq<Circle>, score: nat, gameOver: bool)

  function DistSq(x0: real, y0: real, x1: real, y1: real): real {
    (x1 - x0) * (x1 - x0) + (y1 - y0) * (y1 - y0)
  }

  /**
   * Two circles of one tier whose centres are at most two radii apart.
   * Circles of different tiers never collide; two of one tier at the same
   * spot always do.
   */
  predicate Collides(a: Circle, b: Circle)
    ensures Collides(a, b) ==> a.tier == b.tier
    ensures a.tier == b.tier && a.x == b.x && a.y == b.y ==> Collides(a, b)
  {
    && a.tier == b.tier
    && var d := 2.0 * Radius(a.tier);
       DistSq(a.x, a.y, b.x, b.y) <= d * d
  }

  /**
   * The point lies within the circle's radius of its centre; a tap at the
   * centre always hits.
   */
  predicate Hits(c: Circle, p: Point)
    ensures c.x == p.x && c.y == p.y ==> Hits(c, p)
  {
    var r := Radius(c.tier);
    DistSq(c.x, c.y, p.x, p.y) <= r * r
  }

  /** Collision does not depend on the order of the two circles. */
  lemma CollidesSymmetric(a: Circle, b: Circle)
    ensures Collides(a, b) <==> Collides(b, a)
  {
  }

  /** The circle lies wholly inside a width-by-height plane. */
  predicate InBounds(c: Circle, width: nat, height: nat) {
    var r := Radius(c.tier);
    && r <= c.x <= width as real - r
    && r <= c.y <= height as real - r
  }

  /** The plane is wide and tall enough for a circle of tier t. */
  predicate Fits(t: Tier, width: nat, height: nat) {
    width as real >= 2.0 * Radius(t) && height as real >= 2.0 * Radius(t)
  }

  /** Array `splice(k, 1)`: the sequence without its element at k. */
  function RemoveAt<T>(s: seq<T>, k: nat): (r: seq<T>)
    requires k < |s|
    ensures |r| == |s| - 1
    ensures forall m :: 0 <= m < |r| ==> r[m] == if m < k then s[m] else s[m + 1]
  {
    s[..k] + s[k + 1..]
  }
}
