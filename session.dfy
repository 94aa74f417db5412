/** The session: state machine, tick, tap, reset and resize. */
module Game {
  import opened Tiers
  import opened Circles
  import opened Physics
  import opened Merge
  import opened Split

  /** A fresh game: one still tier-0 circle at the centre, no points, running. */
  function NewGame(width: nat, height: nat): (w: World)
    ensures |w.circles| == 1 && w.score == 0 && !w.gameOver
    ensures NoCollidingPair(w.circles)
    ensures var c := w.circles[0];
      && c.tier == 0 && c.vx == 0.0 && c.vy == 0.0
      && 2.0 * c.x == width as real && 2.0 * c.y == height as real
      && (Fits(0, width, height) ==> InBounds(c, width, height))
  {
    World([Circle(width as real / 2.0, height as real / 2.0, 0.0, 0.0, 0)], 0, false)
  }

  /** One animation frame: physics then merges to a fixpoint, unless the game is over. */
  function TickStep(w: World, width: nat, height: nat): (r: World)
    ensures w.gameOver ==> r == w
    ensures r.score >= w.score
    ensures |r.circles| <= |w.circles|
  {
    if w.gameOver then w else Settle(w.(circles := Stepped(w.circles, width, height)))
  }

  /** One tap: a new game if the game is over, the split resolver otherwise. */
  function TapStep(w: World, p: Point, ds: seq<Draw>, width: nat, height: nat): (r: World)
    ensures !r.gameOver
    ensures w.gameOver ==> r.score == 0 && |r.circles| == 1
    ensures !w.gameOver ==> r.score >= w.score
  {
    if w.gameOver then NewGame(width, height) else TapActive(w, p, ds)
  }

  /** Game over is absorbing for ticks, and a tap is the only way out of it. */
  lemma GameOverIsAbsorbing(w: World, p: Point, ds: seq<Draw>, width: nat, height: nat)
    requires w.gameOver
    ensures TickStep(w, width, height) == w
    ensures TapStep(w, p, ds, width, height) == NewGame(width, height)
  {
  }

  /**
   * Within a running game score never decreases: ticks only add merge
   * points, taps only add removal points.
   */
  lemma ScoreNeverDecreases(w: World, p: Point, ds: seq<Draw>, width: nat, height: nat)
    requires !w.gameOver
    ensures TickStep(w, width, height).score >= w.score
    ensures TapStep(w, p, ds, width, height).score >= w.score
  {
  }

  /**
   * A tick of a running game never adds circles, and it ends at a merge
   * fixpoint: no pair collides, or the game is over on a colliding tier-0
   * pair.
   */
  lemma TickSettles(w: World, width: nat, height: nat)
    requires !w.gameOver
    ensures var r := TickStep(w, width, height);
      && |r.circles| <= |w.circles|
      && (|| (!r.gameOver && NoCollidingPair(r.circles))
          || (r.gameOver && exists i, j :: IsFirstPair(r.circles, i, j) && r.circles[i].tier == 0))
  {
    SettleReachesFixpoint(w.(circles := Stepped(w.circles, width, height)));
  }

  /** A new game on an 800 by 600 canvas: one tier-0 circle at (400, 300). */
  lemma ScenarioNewGame()
    ensures NewGame(800, 600) == World([Circle(400.0, 300.0, 0.0, 0.0, 0)], 0, false)
  {
  }

  /**
   * Tapping the centre of a new game splits its circle into four tier-1
   * circles, each 40 away from the centre, for no points.
   */
  lemma ScenarioFirstSplit(ds: seq<Draw>)
    requires |ds| == SPLIT_COUNT && forall d :: d in ds ==> ValidDraw(d)
    ensures var r := TapStep(NewGame(800, 600), Point(400.0, 300.0), ds, 800, 600);
      && |r.circles| == 4
      && (forall m :: 0 <= m < 4 ==>
           && r.circles[m].tier == 1
           && DistSq(400.0, 300.0, r.circles[m].x, r.circles[m].y) == 40.0 * 40.0)
      && r.score == 0 && !r.gameOver
  {
    var w := NewGame(800, 600);
    assert Hits(w.circles[0], Point(400.0, 300.0));
    TapPicksTopmost(w.circles, Point(400.0, 300.0), 0);
    TapSplits(w, Point(400.0, 300.0), ds, 0);
    var r := TapStep(w, Point(400.0, 300.0), ds, 800, 600);
    var parent := w.circles[0];
    assert r.circles == r.circles[0..] == Children(parent, ds);
    forall m | 0 <= m < 4
      ensures DistSq(400.0, 300.0, r.circles[m].x, r.circles[m].y) == 40.0 * 40.0
    {
      assert ds[m] in ds;
      CentreChildDistance(parent, ds[m]);
    }
  }

  lemma CentreChildDistance(parent: Circle, d: Draw)
    requires parent == Circle(400.0, 300.0, 0.0, 0.0, 0) && ValidDraw(d)
    ensures DistSq(400.0, 300.0, ChildOf(parent, d).x, ChildOf(parent, d).y) == 40.0 * 40.0
  {
    var c := ChildOf(parent, d);
    assert Radius(c.tier) == 50.0;
  }

  /** Two tier-4 circles 15 apart merge into a tier-3 circle at their midpoint, at the mean velocity, for 20 points. */
  lemma ScenarioSmallMerge()
    ensures MergePass(World([Circle(100.0, 100.0, 1.0, 0.5, 4), Circle(115.0, 100.0, -0.5, 0.5, 4)], 0, false))
      == (World([Circle(107.5, 100.0, 0.25, 0.5, 3)], 20, false), true)
  {
    var w := World([Circle(100.0, 100.0, 1.0, 0.5, 4), Circle(115.0, 100.0, -0.5, 0.5, 4)], 0, false);
    assert IsFirstPair(w.circles, 0, 1);
    MergePassMerges(w, 0, 1);
  }

  /** Two tier-0 circles 100 apart end the game and are left where they are. */
  lemma ScenarioGameOver()
    ensures var w := World([Circle(300.0, 300.0, 0.0, 0.0, 0), Circle(400.0, 300.0, 0.0, 0.0, 0)], 0, false);
      MergePass(w) == (w.(gameOver := true), false)
  {
    var w := World([Circle(300.0, 300.0, 0.0, 0.0, 0), Circle(400.0, 300.0, 0.0, 0.0, 0)], 0, false);
    assert IsFirstPair(w.circles, 0, 1);
    MergePassEndsGame(w, 0, 1);
  }

  /** Tapping a lone tier-4 circle at its centre removes it for 5 points. */
  lemma ScenarioTapSmallest(c: Circle, score: nat, ds: seq<Draw>)
    requires c.tier == MAX_TIER
    ensures TapStep(World([c], score, false), Point(c.x, c.y), ds, 800, 600) == World([], score + 5, false)
  {
    assert Hits(c, Point(c.x, c.y));
  }

  /**
   * The merged circle is not clamped: two still tier-4 circles inside the
   * walls merge during a tick into a tier-3 circle that pokes out of them
   * when the tick ends.
   */
  lemma MergedCircleMayLeaveBounds()
    ensures var w := World([Circle(10.0, 10.0, 0.0, 0.0, 4), Circle(10.0, 25.0, 0.0, 0.0, 4)], 0, false);
      && InBounds(w.circles[0], 800, 600) && InBounds(w.circles[1], 800, 600)
      && var r := TickStep(w, 800, 600);
         && |r.circles| == 1 && !r.gameOver
         && !InBounds(r.circles[0], 800, 600)
  {
    var w := World([Circle(10.0, 10.0, 0.0, 0.0, 4), Circle(10.0, 25.0, 0.0, 0.0, 4)], 0, false);
    var s := Stepped(w.circles, 800, 600);
    assert s == w.circles;
    assert IsFirstPair(w.circles, 0, 1);
    MergePassMerges(w, 0, 1);
    var (next, merged) := MergePass(w);
    assert |next.circles| == 1;
    assert NoCollidingPair(next.circles);
    MergePassIdle(next);
    assert Settle(w) == next;
  }

  /** The running game: the circle collection, score, game-over flag and canvas size. */
  class Session {
    var circles: seq<Circle>
    var score: nat
    var gameOver: bool
    var width: nat
    var height: nat

    function State(): World
      reads this
    {
      World(circles, score, gameOver)
    }

    /** Start-up: size the canvas, then start a new game. */
    constructor (width: nat, height: nat)
      ensures this.width == width && this.height == height
      ensures State() == NewGame(width, height)
    {
      this.width, this.height := width, height;
      circles := [Circle(width as real / 2.0, height as real / 2.0, 0.0, 0.0, 0)];
      score, gameOver := 0, false;
    }

    method Reset()
      modifies this
      ensures State() == NewGame(width, height)
      ensures width == old(width) && height == old(height)
    {
      score := 0;
      gameOver := false;
      circles := [Circle(width as real / 2.0, height as real / 2.0, 0.0, 0.0, 0)];
    }

    /** Move every circle by its velocity, then resolve its wall collision. */
    method StepPhysics()
      modifies this
      ensures circles == Stepped(old(circles), width, height)
      ensures score == old(score) && gameOver == old(gameOver)
      ensures width == old(width) && height == old(height)
    {
      var k := 0;
      while k < |circles|
        invariant 0 <= k <= |circles| == |old(circles)|
        invariant forall m :: 0 <= m < k ==> circles[m] == StepCircle(old(circles)[m], width, height)
        invariant forall m :: k <= m < |circles| ==> circles[m] == old(circles)[m]
        invariant score == old(score) && gameOver == old(gameOver)
        invariant width == old(width) && height == old(height)
      {
        var c := circles[k];
        c := c.(x := c.x + c.vx, y := c.y + c.vy);
        c := WallCollision(c, width, height);
        circles := circles[k := c];
        k := k + 1;
      }
    }

    /** One merge check: true exactly when a pair merged. */
    method MergeCheck() returns (merged: bool)
      modifies this
      ensures (State(), merged) == MergePass(old(State()))
      ensures width == old(width) && height == old(height)
    {
      var pair := FindFirstCollision(circles);
      if pair.None? {
        return false;
      }
      var a, b := circles[pair.value.i], circles[pair.value.j];
      if a.tier == 0 {
        gameOver := true;
        return false;
      }
      var m := Merged(a, b);
      score := score + MergeScore(m.tier);
      circles := RemoveAt(circles, pair.value.j);
      circles := RemoveAt(circles, pair.value.i);
      circles := circles + [m];
      return true;
    }

    /** The physics step, then merge checks while they merge and the game goes on. */
    method Update()
      modifies this
      ensures State() == Settle(World(Stepped(old(circles), width, height), old(score), old(gameOver)))
      ensures width == old(width) && height == old(height)
    {
      StepPhysics();
      ghost var start := State();
      var merged := MergeCheck();
      while merged && !gameOver
        invariant Settle(start) == if merged && !gameOver then Settle(State()) else State()
        invariant width == old(width) && height == old(height)
        decreases |circles| + (if merged then 1 else 0)
      {
        merged := MergeCheck();
      }
    }

    /** One frame of the main loop: update only while the game is running. */
    method Tick()
      modifies this
      ensures State() == TickStep(old(State()), width, height)
      ensures old(gameOver) ==> State() == old(State())
      ensures width == old(width) && height == old(height)
    {
      if !gameOver {
        Update();
      }
    }

    /** Replace the circle at index by SPLIT_COUNT children, appended in draw order. */
    method SplitCircle(index: nat, ds: seq<Draw>)
      requires index < |circles| && circles[index].tier < MAX_TIER
      requires |ds| == SPLIT_COUNT
      modifies this
      ensures circles == RemoveAt(old(circles), index) + Children(old(circles)[index], ds)
      ensures score == old(score) && gameOver == old(gameOver)
      ensures width == old(width) && height == old(height)
    {
      var parent := circles[index];
      circles := RemoveAt(circles, index);
      var n := 0;
      while n < SPLIT_COUNT
        invariant 0 <= n <= SPLIT_COUNT
        invariant circles == RemoveAt(old(circles), index) + Children(parent, ds[..n])
        invariant score == old(score) && gameOver == old(gameOver)
        invariant width == old(width) && height == old(height)
      {
        assert ds[..n + 1][..n] == ds[..n];
        circles := circles + [ChildOf(parent, ds[n])];
        n := n + 1;
      }
      assert ds[..n] == ds;
    }

    /**
     * A tap at p, with the random draws for a possible split: a new game when
     * the game is over, otherwise removal or split of the topmost circle hit.
     */
    method Tap(p: Point, ds: seq<Draw>)
      requires |ds| == SPLIT_COUNT && forall d :: d in ds ==> ValidDraw(d)
      modifies this
      ensures State() == TapStep(old(State()), p, ds, width, height)
      ensures width == old(width) && height == old(height)
    {
      if gameOver {
        Reset();
        return;
      }
      var hit := FindTopHit(circles, p);
      if hit.Some? {
        var i := hit.value;
        if circles[i].tier == MAX_TIER {
          circles := RemoveAt(circles, i);
          score := score + REMOVE_SCORE;
        } else {
          SplitCircle(i, ds);
        }
      }
    }

    /**
     * A canvas resize: scale every x by newWidth / width and every y by
     * newHeight / height (1 for a dimension that was 0), then adopt the new
     * size. Circles are not clamped again until the next tick.
     */
    method Resize(newWidth: nat, newHeight: nat)
      modifies this
      ensures circles == Rescaled(old(circles), old(width), old(height), newWidth, newHeight)
      ensures width == newWidth && height == newHeight
      ensures score == old(score) && gameOver == old(gameOver)
    {
      var scaleX := if width != 0 then newWidth as real / width as real else 1.0;
      var scaleY := if height != 0 then newHeight as real / height as real else 1.0;
      assert scaleX == ScaleFactor(width, newWidth) && scaleY == ScaleFactor(height, newHeight);
      var cs := circles;
      var k := 0;
      while k < |cs|
        invariant 0 <= k <= |cs| == |circles|
        invariant forall m :: 0 <= m < k ==> cs[m] == ScaledBy(circles[m], scaleX, scaleY)
        invariant forall m :: k <= m < |cs| ==> cs[m] == circles[m]
      {
        cs := cs[k := cs[k].(x := cs[k].x * scaleX, y := cs[k].y * scaleY)];
        k := k + 1;
      }
      RescaledByFactors(circles, cs, width, height, newWidth, newHeight);
      circles, width, height := cs, newWidth, newHeight;
    }
  }
}
