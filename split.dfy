/** The tap action: reverse-order hit test, then removal or split. */
module Split {
  import opened Tiers
  import opened Circles

  /** The highest index below n whose circle contains p, if any. */
  function LastHit(cs: seq<Circle>, p: Point, n: nat): (r: Option<nat>)
    requires n <= |cs|
    ensures r.Some? ==>
      && r.value < n
      && Hits(cs[r.value], p)
      && forall m :: r.value < m < n ==> !Hits(cs[m], p)
    ensures r.None? <==> forall m :: 0 <= m < n ==> !Hits(cs[m], p)
  {
    if n == 0 then None
    else if Hits(cs[n - 1], p) then Some(n - 1)
    else LastHit(cs, p, n - 1)
  }

  /**
   * The circle a tap acts on: the most recently added one containing p; none
   * exactly when no circle contains p.
   */
  function TopHit(cs: seq<Circle>, p: Point): (r: Option<nat>)
    ensures r.Some? ==>
      && r.value < |cs|
      && Hits(cs[r.value], p)
      && forall m :: r.value < m < |cs| ==> !Hits(cs[m], p)
    ensures r.None? <==> forall m :: 0 <= m < |cs| ==> !Hits(cs[m], p)
  {
    LastHit(cs, p, |cs|)
  }

  /** The reverse loop of the tap handler, stopping at the first hit. */
  method FindTopHit(cs: seq<Circle>, p: Point) returns (hit: Option<nat>)
    ensures hit == TopHit(cs, p)
  {
    var i: nat := |cs|;
    while i > 0
      invariant i <= |cs|
      invariant LastHit(cs, p, i) == TopHit(cs, p)
    {
      if Hits(cs[i - 1], p) {
        return Some(i - 1);
      }
      i := i - 1;
    }
    return None;
  }

  /**
   * One child of a split parent: one tier smaller, centred 0.8 of its own
   * radius away from the parent's centre in the drawn direction, with the
   * drawn velocity, which lies in the velocity range for a valid draw.
   */
  function ChildOf(parent: Circle, d: Draw): (r: Circle)
    requires parent.tier < MAX_TIER
    ensures r.tier == parent.tier + 1 && Radius(r.tier) < Radius(parent.tier)
    ensures r.vx == d.vx && r.vy == d.vy
    ensures ValidDraw(d) ==>
      && DistSq(parent.x, parent.y, r.x, r.y) == (0.8 * Radius(r.tier)) * (0.8 * Radius(r.tier))
      && -VELOCITY_RANGE <= r.vx < VELOCITY_RANGE && -VELOCITY_RANGE <= r.vy < VELOCITY_RANGE
  {
    var tier: Tier := parent.tier + 1;
    var offset := Radius(tier) * 0.8;
    Circle(parent.x + d.cos * offset, parent.y + d.sin * offset, d.vx, d.vy, tier)
  }

  /** The children made from the draws, in the order they are pushed. */
  function Children(parent: Circle, ds: seq<Draw>): (r: seq<Circle>)
    requires parent.tier < MAX_TIER
    ensures |r| == |ds|
    ensures forall n :: 0 <= n < |ds| ==> r[n] == ChildOf(parent, ds[n])
  {
    if ds == [] then [] else Children(parent, ds[..|ds| - 1]) + [ChildOf(parent, ds[|ds| - 1])]
  }

  /**
   * A tap on a running game: the topmost circle containing the point is
   * removed for 5 points when it has the smallest tier and is replaced by
   * its children otherwise; a tap that hits nothing changes nothing.
   */
  function TapActive(w: World, p: Point, ds: seq<Draw>): (r: World)
    ensures r.gameOver == w.gameOver
    ensures r.score == w.score || r.score == w.score + REMOVE_SCORE
    ensures r.score == w.score + REMOVE_SCORE ==> |r.circles| == |w.circles| - 1
    ensures |ds| == SPLIT_COUNT && r.score == w.score ==>
      |r.circles| == |w.circles| || |r.circles| == |w.circles| + 3
  {
    match TopHit(w.circles, p)
    case None => w
    case Some(k) =>
      var c := w.circles[k];
      if c.tier == MAX_TIER then
        w.(circles := RemoveAt(w.circles, k), score := w.score + REMOVE_SCORE)
      else
        w.(circles := RemoveAt(w.circles, k) + Children(c, ds))
  }

  /** Tapping a smallest circle removes it alone and scores 5. */
  lemma TapRemovesSmallest(w: World, p: Point, ds: seq<Draw>, k: nat)
    requires TopHit(w.circles, p) == Some(k) && w.circles[k].tier == MAX_TIER
    ensures var r := TapActive(w, p, ds);
      && |r.circles| == |w.circles| - 1
      && r.circles == w.circles[..k] + w.circles[k + 1..]
      && r.score == w.score + 5
      && r.gameOver == w.gameOver
  {
  }

  /**
   * Tapping any larger circle replaces it by exactly SPLIT_COUNT children
   * one tier smaller, appended after the remaining circles, whose order is
   * kept: three circles more and no points.
   */
  lemma TapSplits(w: World, p: Point, ds: seq<Draw>, k: nat)
    requires |ds| == SPLIT_COUNT
    requires TopHit(w.circles, p) == Some(k) && w.circles[k].tier < MAX_TIER
    ensures var r := TapActive(w, p, ds);
      var n := |w.circles| - 1;
      && |r.circles| == |w.circles| + 3
      && r.circles[..n] == w.circles[..k] + w.circles[k + 1..]
      && (forall m :: n <= m < |r.circles| ==> r.circles[m].tier == w.circles[k].tier + 1)
      && r.circles[n..] == Children(w.circles[k], ds)
      && r.score == w.score
      && r.gameOver == w.gameOver
  {
    var r := TapActive(w, p, ds);
    var n := |w.circles| - 1;
    assert r.circles[..n] == RemoveAt(w.circles, k);
    assert r.circles[n..] == Children(w.circles[k], ds);
  }

  /** A tap that misses every circle changes nothing. */
  lemma TapMisses(w: World, p: Point, ds: seq<Draw>)
    requires forall m :: 0 <= m < |w.circles| ==> !Hits(w.circles[m], p)
    ensures TapActive(w, p, ds) == w
  {
  }

  /** The circle acted on is the topmost one the point lies in. */
  lemma TapPicksTopmost(cs: seq<Circle>, p: Point, k: nat)
    requires k < |cs| && Hits(cs[k], p)
    ensures TopHit(cs, p) == Some(k) <==> forall m :: k < m < |cs| ==> !Hits(cs[m], p)
  {
    var r := TopHit(cs, p);
    if forall m :: k < m < |cs| ==> !Hits(cs[m], p) {
      assert r.Some?;
    }
  }
}
