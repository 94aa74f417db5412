/** Detection and reduction of colliding same-tier pairs. */
module Merge {
  import opened Tiers
  import opened Circles

  /** An index pair (i, j) of the circle collection. */
  datatype Pair = Pair(i: nat, j: nat)

  /** (a1, b1) comes strictly before (a2, b2) in row-major order. */
  predicate Before(a1: int, b1: int, a2: int, b2: int) {
    a1 < a2 || (a1 == a2 && b1 < b2)
  }

  /** (i, j) is the earliest colliding pair in row-major order. */
  ghost predicate IsFirstPair(cs: seq<Circle>, i: int, j: int) {
    && 0 <= i < j < |cs|
    && Collides(cs[i], cs[j])
    && forall a, b :: 0 <= a < b < |cs| && Before(a, b, i, j) ==> !Collides(cs[a], cs[b])
  }

  ghost predicate NoCollidingPair(cs: seq<Circle>) {
    forall a, b :: 0 <= a < b < |cs| ==> !Collides(cs[a], cs[b])
  }

  /**
   * The row-major scan resumed at (i, j): the first colliding pair at or
   * after (i, j), if any.
   */
  function ScanFrom(cs: seq<Circle>, i: nat, j: nat): (r: Option<Pair>)
    requires i < j
    ensures r.Some? ==>
      && r.value.i < r.value.j < |cs|
      && Collides(cs[r.value.i], cs[r.value.j])
      && !Before(r.value.i, r.value.j, i, j)
    ensures forall a, b ::
      (0 <= a < b < |cs| && !Before(a, b, i, j) && (r.Some? ==> Before(a, b, r.value.i, r.value.j)))
      ==> !Collides(cs[a], cs[b])
    decreases |cs| - i, |cs| - j
  {
    if i >= |cs| then None
    else if j >= |cs| then ScanFrom(cs, i + 1, i + 2)
    else if Collides(cs[i], cs[j]) then Some(Pair(i, j))
    else ScanFrom(cs, i, j + 1)
  }

  /** The pair the merge check acts on: the first colliding one, or none. */
  function FirstCollidingPair(cs: seq<Circle>): (r: Option<Pair>)
    ensures r.Some? ==> IsFirstPair(cs, r.value.i, r.value.j)
    ensures r.None? <==> NoCollidingPair(cs)
  {
    ScanFrom(cs, 0, 1)
  }

  /** The first colliding pair is unique, so the scan finds exactly it. */
  lemma FirstPairIsScanned(cs: seq<Circle>, i: nat, j: nat)
    ensures IsFirstPair(cs, i, j) <==> FirstCollidingPair(cs) == Some(Pair(i, j))
  {
    var r := FirstCollidingPair(cs);
    if IsFirstPair(cs, i, j) {
      assert r.Some?;
      var p := r.value;
      assert !Before(p.i, p.j, i, j) && !Before(i, j, p.i, p.j);
    }
  }

  /** The nested index loops of the merge check, returning the pair found. */
  method FindFirstCollision(cs: seq<Circle>) returns (pair: Option<Pair>)
    ensures pair == FirstCollidingPair(cs)
  {
    var i: nat := 0;
    while i < |cs|
      invariant ScanFrom(cs, i, i + 1) == FirstCollidingPair(cs)
    {
      var j: nat := i + 1;
      while j < |cs|
        invariant i < j <= |cs|
        invariant ScanFrom(cs, i, j) == FirstCollidingPair(cs)
      {
        if Collides(cs[i], cs[j]) {
          return Some(Pair(i, j));
        }
        j := j + 1;
      }
      i := i + 1;
    }
    return None;
  }

  /**
   * Two colliding circles of tier t > 0 become one larger circle of tier
   * t - 1, centred halfway between them (equally far from both, at half
   * their distance) and moving at their mean velocity.
   */
  function Merged(a: Circle, b: Circle): (r: Circle)
    requires a.tier > 0
    ensures r.tier == a.tier - 1 && Radius(r.tier) > Radius(a.tier)
    ensures DistSq(a.x, a.y, r.x, r.y) == DistSq(r.x, r.y, b.x, b.y)
    ensures 4.0 * DistSq(a.x, a.y, r.x, r.y) == DistSq(a.x, a.y, b.x, b.y)
    ensures r.vx - a.vx == b.vx - r.vx && r.vy - a.vy == b.vy - r.vy
  {
    Circle((a.x + b.x) / 2.0, (a.y + b.y) / 2.0, (a.vx + b.vx) / 2.0, (a.vy + b.vy) / 2.0, a.tier - 1)
  }

  /**
   * One run of the merge check: the new state and whether it merged. The
   * first colliding pair ends the game at tier 0 and merges otherwise; j is
   * removed before i, and the merged circle is appended.
   */
  function MergePass(w: World): (r: (World, bool))
    ensures r.0.score >= w.score
    ensures r.1 ==> |r.0.circles| == |w.circles| - 1 && r.0.gameOver == w.gameOver
    ensures !r.1 ==> r.0.circles == w.circles && r.0.score == w.score
  {
    match FirstCollidingPair(w.circles)
    case None => (w, false)
    case Some(p) =>
      var a := w.circles[p.i];
      if a.tier == 0 then (w.(gameOver := true), false)
      else
        var m := Merged(a, w.circles[p.j]);
        (World(RemoveAt(RemoveAt(w.circles, p.j), p.i) + [m], w.score + MergeScore(m.tier), w.gameOver), true)
  }

  /** Removing j then i (i < j) keeps every other circle in its relative order. */
  lemma SpliceKeepsOrder(cs: seq<Circle>, i: nat, j: nat)
    requires i < j < |cs|
    ensures RemoveAt(RemoveAt(cs, j), i) == cs[..i] + cs[i + 1..j] + cs[j + 1..]
  {
    var r := RemoveAt(RemoveAt(cs, j), i);
    var s := cs[..i] + cs[i + 1..j] + cs[j + 1..];
    assert |r| == |s|;
    forall m | 0 <= m < |r|
      ensures r[m] == s[m]
    {
      if m < i {
      } else if m < j - 1 {
        assert s[m] == cs[m + 1];
      } else {
        assert s[m] == cs[m + 2];
      }
    }
  }

  /**
   * A merge of the first colliding pair (i, j) at tier t > 0: one circle
   * fewer, the others in their old order, the merged circle last with tier
   * t - 1, centred on the midpoint and moving at the average velocity, and
   * 10 * (5 - (t - 1)) points more.
   */
  lemma MergePassMerges(w: World, i: nat, j: nat)
    requires IsFirstPair(w.circles, i, j) && w.circles[i].tier > 0
    ensures var (r, merged) := MergePass(w);
      var a, b := w.circles[i], w.circles[j];
      && merged
      && |r.circles| == |w.circles| - 1
      && r.circles[..|r.circles| - 1] == w.circles[..i] + w.circles[i + 1..j] + w.circles[j + 1..]
      && (var m := r.circles[|r.circles| - 1];
          && m.tier == a.tier - 1
          && 2.0 * m.x == a.x + b.x && 2.0 * m.y == a.y + b.y
          && 2.0 * m.vx == a.vx + b.vx && 2.0 * m.vy == a.vy + b.vy)
      && r.score == w.score + 10 * (5 - (a.tier - 1))
      && r.gameOver == w.gameOver
  {
    FirstPairIsScanned(w.circles, i, j);
    SpliceKeepsOrder(w.circles, i, j);
    var (r, merged) := MergePass(w);
    assert r.circles[..|r.circles| - 1] == RemoveAt(RemoveAt(w.circles, j), i);
  }

  /**
   * A first colliding pair at tier 0 ends the game; the merge check reports
   * no merge and leaves circles and score as they were.
   */
  lemma MergePassEndsGame(w: World, i: nat, j: nat)
    requires IsFirstPair(w.circles, i, j) && w.circles[i].tier == 0
    ensures MergePass(w) == (w.(gameOver := true), false)
  {
    FirstPairIsScanned(w.circles, i, j);
  }

  /** In a running game the merge check changes nothing exactly when no pair collides. */
  lemma MergePassIdle(w: World)
    requires !w.gameOver
    ensures MergePass(w) == (w, false) <==> NoCollidingPair(w.circles)
  {
  }

  /**
   * The do-while driver: repeat the merge check while it merges and the game
   * goes on. Every merge removes one circle, so this ends after at most
   * |circles| passes.
   */
  function Settle(w: World): (r: World)
    ensures r.score >= w.score
    ensures |r.circles| <= |w.circles|
    decreases |w.circles|
  {
    var (next, merged) := MergePass(w);
    if merged && !next.gameOver then Settle(next) else next
  }

  /**
   * Settling a running game ends at a fixpoint: either no pair collides any
   * more, or the game ended on a first colliding pair of tier 0, which is
   * left in place.
   */
  lemma {:induction false} SettleReachesFixpoint(w: World)
    requires !w.gameOver
    ensures var r := Settle(w);
      || (!r.gameOver && NoCollidingPair(r.circles))
      || (r.gameOver && exists i, j :: IsFirstPair(r.circles, i, j) && r.circles[i].tier == 0)
    decreases |w.circles|
  {
    var (next, merged) := MergePass(w);
    if merged {
      SettleReachesFixpoint(next);
    } else {
      match FirstCollidingPair(w.circles)
      case None =>
      case Some(p) =>
        assert IsFirstPair(Settle(w).circles, p.i, p.j);
    }
  }
}
