/** Per-tick movement, wall reflection and the rescale applied on resize. */
module Physics {
  import opened Tiers
  import opened Circles

  function Abs(v: real): (a: real)
    ensures a >= 0.0 && (a == v || a == -v)
  {
    if v < 0.0 then -v else v
  }

  /**
   * One axis of the wall collision: clamp the coordinate into
   * [radius, limit - radius] and turn the velocity component inward.
   */
  function Reflect(pos: real, vel: real, radius: real, limit: real): (r: (real, real))
    ensures limit >= 2.0 * radius ==> radius <= r.0 <= limit - radius
    ensures Abs(r.1) == Abs(vel)
    ensures pos < radius ==> r.0 == radius && r.1 >= 0.0
    ensures radius <= pos && limit < pos + radius ==> r.0 == limit - radius && r.1 <= 0.0
    ensures radius <= pos <= limit - radius ==> r == (pos, vel)
  {
    if pos - radius < 0.0 then (radius, Abs(vel))
    else if pos + radius > limit then (limit - radius, -Abs(vel))
    else (pos, vel)
  }

  /** The wall collision of one circle against a width-by-height plane. */
  function WallCollision(c: Circle, width: nat, height: nat): (r: Circle)
    ensures r.tier == c.tier
    ensures Fits(c.tier, width, height) ==> InBounds(r, width, height)
    ensures Abs(r.vx) == Abs(c.vx) && Abs(r.vy) == Abs(c.vy)
    ensures InBounds(c, width, height) ==> r == c
  {
    var radius := Radius(c.tier);
    var (x, vx) := Reflect(c.x, c.vx, radius, width as real);
    var (y, vy) := Reflect(c.y, c.vy, radius, height as real);
    Circle(x, y, vx, vy, c.tier)
  }

  /**
   * Movement by the velocity, then the wall collision, as the update loop
   * does to each circle. Tier and per-axis speed are kept, a circle whose
   * tier fits the plane ends inside it, and a circle whose move keeps it
   * inside simply moves by its velocity.
   */
  function StepCircle(c: Circle, width: nat, height: nat): (r: Circle)
    ensures r.tier == c.tier
    ensures Abs(r.vx) == Abs(c.vx) && Abs(r.vy) == Abs(c.vy)
    ensures Fits(c.tier, width, height) ==> InBounds(r, width, height)
    ensures InBounds(Circle(c.x + c.vx, c.y + c.vy, c.vx, c.vy, c.tier), width, height) ==>
      r.x == c.x + c.vx && r.y == c.y + c.vy && r.vx == c.vx && r.vy == c.vy
  {
    WallCollision(c.(x := c.x + c.vx, y := c.y + c.vy), width, height)
  }

  /**
   * The whole collection after one physics step: same length, and every
   * circle keeps its tier and per-axis speed and, when its tier fits the
   * plane, lies inside it.
   */
  function Stepped(cs: seq<Circle>, width: nat, height: nat): (r: seq<Circle>)
    ensures |r| == |cs|
    ensures forall k :: 0 <= k < |cs| ==>
      && r[k].tier == cs[k].tier
      && Abs(r[k].vx) == Abs(cs[k].vx) && Abs(r[k].vy) == Abs(cs[k].vy)
      && (Fits(cs[k].tier, width, height) ==> InBounds(r[k], width, height))
  {
    seq(|cs|, k requires 0 <= k < |cs| => StepCircle(cs[k], width, height))
  }

  /** A circle already clamped is left alone by a second wall collision. */
  lemma WallCollisionIdempotent(c: Circle, width: nat, height: nat)
    requires Fits(c.tier, width, height)
    ensures WallCollision(WallCollision(c, width, height), width, height) == WallCollision(c, width, height)
  {
  }

  /** The factor a coordinate is multiplied by when a dimension changes from prev to next. */
  function ScaleFactor(prev: nat, next: nat): (s: real)
    ensures prev != 0 ==> s * prev as real == next as real
    ensures prev == 0 ==> s == 1.0
  {
    if prev == 0 then 1.0 else next as real / prev as real
  }

  /**
   * One circle after a resize from oldW by oldH to newW by newH: x times the
   * horizontal factor, y times the vertical one. It keeps its position
   * relative to the plane (x / width and y / height are unchanged when
   * neither dimension is 0); a dimension that was 0 leaves that coordinate
   * as it was; a non-zero dimension resized to 0 sends that coordinate to 0;
   * velocity and tier are untouched.
   */
  function ScaledCircle(c: Circle, oldW: nat, oldH: nat, newW: nat, newH: nat): (r: Circle)
    ensures oldW != 0 && newW != 0 ==> r.x / newW as real == c.x / oldW as real
    ensures oldH != 0 && newH != 0 ==> r.y / newH as real == c.y / oldH as real
    ensures oldW == 0 ==> r.x == c.x
    ensures oldH == 0 ==> r.y == c.y
    ensures oldW != 0 && newW == 0 ==> r.x == 0.0
    ensures oldH != 0 && newH == 0 ==> r.y == 0.0
    ensures r.vx == c.vx && r.vy == c.vy && r.tier == c.tier
  {
    ScaledBy(c, ScaleFactor(oldW, newW), ScaleFactor(oldH, newH))
  }

  function ScaledBy(c: Circle, sx: real, sy: real): Circle {
    c.(x := c.x * sx, y := c.y * sy)
  }

  /** The whole collection after a resize, circle by circle. */
  function Rescaled(cs: seq<Circle>, oldW: nat, oldH: nat, newW: nat, newH: nat): (r: seq<Circle>)
    ensures |r| == |cs|
    ensures forall k :: 0 <= k < |cs| ==>
      && (oldW != 0 && newW != 0 ==> r[k].x / newW as real == cs[k].x / oldW as real)
      && (oldH != 0 && newH != 0 ==> r[k].y / newH as real == cs[k].y / oldH as real)
      && (oldW == 0 ==> r[k].x == cs[k].x)
      && (oldH == 0 ==> r[k].y == cs[k].y)
      && (oldW != 0 && newW == 0 ==> r[k].x == 0.0)
      && (oldH != 0 && newH == 0 ==> r[k].y == 0.0)
      && r[k].vx == cs[k].vx && r[k].vy == cs[k].vy && r[k].tier == cs[k].tier
  {
    seq(|cs|, k requires 0 <= k < |cs| => ScaledCircle(cs[k], oldW, oldH, newW, newH))
  }

  /** A collection scaled circle by circle with the resize factors is the rescaled one. */
  lemma RescaledByFactors(cs: seq<Circle>, r: seq<Circle>, oldW: nat, oldH: nat, newW: nat, newH: nat)
    requires |r| == |cs|
    requires forall m :: 0 <= m < |cs| ==> r[m] == ScaledBy(cs[m], ScaleFactor(oldW, newW), ScaleFactor(oldH, newH))
    ensures r == Rescaled(cs, oldW, oldH, newW, newH)
  {
    var e := Rescaled(cs, oldW, oldH, newW, newH);
    assert forall m :: 0 <= m < |cs| ==> r[m] == e[m];
  }
}
