/**
 * The particle background of the page (js/main.js, lines 4-113): a pool of
 * dots that drift and bounce inside the viewport, joined by a line whenever
 * two of them are close, with longer and brighter lines near the mouse.
 *
 * Positions and distances are reals; `Math.sqrt` is the `sqrt` parameter
 * (see module Euclid); `Math.random` is the `Draw` values the caller passes
 * in; the mouse position is an explicit argument of every frame.
 */
module Particles {
  import opened Wrappers
  import opened Euclid

  const BaseLinkDist: real := 120.0
  const BaseCursorLinkDist: real := 200.0
  const BaseCursorRadius: real := 250.0
  /** Square pixels of viewport per particle. */
  const Density: real := 36000.0
  const MaxParticles: nat := 40
  /** The reference viewport, 1080p, whose diagonal the distances are scaled by. */
  const RefWidth: real := 1920.0
  const RefHeight: real := 1080.0
  /** The size of a canvas element before anyone sets it. */
  const DefaultCanvasWidth: nat := 300
  const DefaultCanvasHeight: nat := 150

  datatype Point = Point(x: real, y: real)

  /** The mouse position before the first move and after the mouse leaves the window. */
  const Away: Point := Point(-9999.0, -9999.0)

  datatype Particle = Particle(x: real, y: real, vx: real, vy: real, r: real)

  /** The five `Math.random()` results one new particle consumes, in source order. */
  datatype Draw = Draw(x: real, y: real, vx: real, vy: real, r: real)

  predicate Unit(u: real) {
    0.0 <= u < 1.0
  }

  predicate RandomDraw(d: Draw) {
    Unit(d.x) && Unit(d.y) && Unit(d.vx) && Unit(d.vy) && Unit(d.r)
  }

  /** The three distances that `resize` scales: link distance, cursor link distance, cursor radius. */
  datatype Reach = Reach(link: real, cursorLink: real, cursorRadius: real)

  predicate NonNegative(reach: Reach) {
    reach.link >= 0.0 && reach.cursorLink >= 0.0 && reach.cursorRadius >= 0.0
  }

  /** A line the link pass draws from particle i to particle j. */
  datatype Line = Line(i: nat, j: nat, alpha: real, width: real)

  /** A dot as drawn after its particle has moved. */
  datatype Dot = Dot(x: real, y: real, radius: real, alpha: real)

  // ---------------------------------------------------------------------------
  // Responsive scaling (resize)
  // ---------------------------------------------------------------------------

  /** The ratio of the viewport's diagonal to the reference diagonal. */
  function DiagonalScale(sqrt: real -> real, width: real, height: real): (s: real)
    requires IsSqrt(sqrt)
    ensures s >= 0.0
    ensures s * s * SquaredNorm(RefWidth, RefHeight) == SquaredNorm(width, height)
  {
    var diag := Norm(sqrt, width, height);
    var ref := Norm(sqrt, RefWidth, RefHeight);
    RefDiagonalPositive(sqrt);
    ScaleSquared(diag, ref);
    diag / ref
  }

  lemma RefDiagonalPositive(sqrt: real -> real)
    requires IsSqrt(sqrt)
    ensures Norm(sqrt, RefWidth, RefHeight) > 0.0
  {
    var ref := Norm(sqrt, RefWidth, RefHeight);
    assert ref * ref > 0.0;
  }

  lemma ScaleSquared(diag: real, ref: real)
    requires ref > 0.0
    ensures (diag / ref) * (diag / ref) * (ref * ref) == diag * diag
  {
    var s := diag / ref;
    assert s * ref == diag;
    calc {
      s * s * (ref * ref);
    ==
      (s * ref) * (s * ref);
    ==
      diag * diag;
    }
  }

  /** The three distances for a viewport of the given size. */
  function ScaledReach(sqrt: real -> real, width: real, height: real): (reach: Reach)
    requires IsSqrt(sqrt)
    ensures NonNegative(reach)
    ensures var s := DiagonalScale(sqrt, width, height);
      reach.link == BaseLinkDist * s && reach.cursorLink == BaseCursorLinkDist * s
      && reach.cursorRadius == BaseCursorRadius * s
  {
    var scale := DiagonalScale(sqrt, width, height);
    Reach(BaseLinkDist * scale, BaseCursorLinkDist * scale, BaseCursorRadius * scale)
  }

  /** On the reference viewport the distances are exactly the base constants. */
  lemma ReachAtReference(sqrt: real -> real)
    requires IsSqrt(sqrt)
    ensures ScaledReach(sqrt, RefWidth, RefHeight) == Reach(BaseLinkDist, BaseCursorLinkDist, BaseCursorRadius)
  {
    var ref := Norm(sqrt, RefWidth, RefHeight);
    RefDiagonalPositive(sqrt);
    assert DiagonalScale(sqrt, RefWidth, RefHeight) == ref / ref == 1.0;
  }

  /** A larger viewport diagonal never shrinks the distances. */
  lemma ReachGrowsWithDiagonal(sqrt: real -> real, w1: real, h1: real, w2: real, h2: real)
    requires IsSqrt(sqrt)
    requires SquaredNorm(w1, h1) <= SquaredNorm(w2, h2)
    ensures ScaledReach(sqrt, w1, h1).link <= ScaledReach(sqrt, w2, h2).link
    ensures ScaledReach(sqrt, w1, h1).cursorLink <= ScaledReach(sqrt, w2, h2).cursorLink
    ensures ScaledReach(sqrt, w1, h1).cursorRadius <= ScaledReach(sqrt, w2, h2).cursorRadius
  {
    var n1 := Norm(sqrt, w1, h1);
    NormBelow(sqrt, w2, h2, n1);
    assert Norm(sqrt, w2, h2) >= n1;
    RefDiagonalPositive(sqrt);
  }

  // ---------------------------------------------------------------------------
  // Pool rebuild (init)
  // ---------------------------------------------------------------------------

  /** `Math.min(Math.floor(w * h / DENSITY), MAX_PARTICLES)`. */
  function PoolSize(width: real, height: real): (n: nat)
    requires width >= 0.0 && height >= 0.0
    ensures n <= MaxParticles
    ensures n as real * Density <= width * height
    ensures n < MaxParticles ==> width * height < (n + 1) as real * Density
  {
    var area := width * height;
    assert area >= 0.0;
    var fit := (area / Density).Floor;
    if fit < MaxParticles then fit else MaxParticles
  }

  /** The particle count never decreases as the viewport area grows. */
  lemma PoolSizeMonotone(w1: real, h1: real, w2: real, h2: real)
    requires w1 >= 0.0 && h1 >= 0.0 && w2 >= 0.0 && h2 >= 0.0
    requires w1 * h1 <= w2 * h2
    ensures PoolSize(w1, h1) <= PoolSize(w2, h2)
  {
    var n1, n2 := PoolSize(w1, h1), PoolSize(w2, h2);
    if n2 < MaxParticles {
      assert n1 as real * Density < (n2 + 1) as real * Density;
    }
  }

  /** A viewport that holds a particle has positive width and height. */
  lemma PopulatedViewport(width: real, height: real)
    requires width >= 0.0 && height >= 0.0 && PoolSize(width, height) > 0
    ensures width > 0.0 && height > 0.0
  {
    assert width * height >= Density;
  }

  lemma Fraction(u: real, extent: real)
    requires 0.0 <= u < 1.0 && extent > 0.0
    ensures 0.0 <= u * extent < extent
  {
    assert extent - u * extent == (1.0 - u) * extent;
    assert (1.0 - u) * extent > 0.0;
  }

  /** One new particle, placed and launched by its random draw. */
  function Spawn(d: Draw, width: real, height: real): (p: Particle)
    requires RandomDraw(d) && width > 0.0 && height > 0.0
    ensures 0.0 <= p.x < width && 0.0 <= p.y < height
    ensures -0.15 <= p.vx < 0.15 && -0.15 <= p.vy < 0.15
    ensures 1.0 <= p.r < 2.8
  {
    var ux, uy := d.x, d.y;
    var x, y := ux * width, uy * height;
    assert 0.0 <= x < width by { Fraction(ux, width); }
    assert 0.0 <= y < height by { Fraction(uy, height); }
    Particle(x, y, (d.vx - 0.5) * 0.3, (d.vy - 0.5) * 0.3, d.r * 1.8 + 1.0)
  }

  // ---------------------------------------------------------------------------
  // Cursor proximity and the link pass
  // ---------------------------------------------------------------------------

  /** The squared-distance form of "the point is inside the cursor radius". */
  predicate NearSq(reach: Reach, mouse: Point, p: Particle) {
    SquaredNorm(p.x - mouse.x, p.y - mouse.y) < reach.cursorRadius * reach.cursorRadius
  }

  /** `nearCursor(px, py)`. */
  function NearCursor(sqrt: real -> real, reach: Reach, mouse: Point, px: real, py: real): (near: bool)
    requires IsSqrt(sqrt) && reach.cursorRadius >= 0.0
    ensures near <==> SquaredNorm(px - mouse.x, py - mouse.y) < reach.cursorRadius * reach.cursorRadius
  {
    NormBelow(sqrt, px - mouse.x, py - mouse.y, reach.cursorRadius);
    Norm(sqrt, px - mouse.x, py - mouse.y) < reach.cursorRadius
  }

  /** With the mouse away, no particle in or next to the viewport is near it. */
  lemma AwayIsNearNothing(reach: Reach, p: Particle)
    requires NonNegative(reach)
    requires p.x - Away.x >= reach.cursorRadius
    ensures !NearSq(reach, Away, p)
  {
    var dx, dy := p.x - Away.x, p.y - Away.y;
    assert dx * dx >= reach.cursorRadius * reach.cursorRadius by {
      assert dx * dx >= dx * reach.cursorRadius;
      assert dx * reach.cursorRadius >= reach.cursorRadius * reach.cursorRadius;
    }
    assert dy * dy >= 0.0;
  }

  /**
   * The decision for the pair (i, j): a line exists iff the pair is closer
   * than its maximum distance, which is the cursor link distance when both
   * particles are near the cursor and the link distance otherwise.
   */
  function Link(sqrt: real -> real, reach: Reach, mouse: Point, ps: seq<Particle>, i: nat, j: nat): (l: Option<Line>)
    requires IsSqrt(sqrt) && NonNegative(reach) && i < j < |ps|
    ensures var both := NearSq(reach, mouse, ps[i]) && NearSq(reach, mouse, ps[j]);
      var bound := if both then reach.cursorLink else reach.link;
      && (l.Some? <==> SquaredNorm(ps[i].x - ps[j].x, ps[i].y - ps[j].y) < bound * bound)
      && (l.Some? ==> l.value.i == i && l.value.j == j)
      && (l.Some? ==> 0.0 < l.value.alpha <= (if both then 0.25 else 0.13))
      && (l.Some? ==> l.value.width == (if both then 1.2 else 0.8))
  {
    var dx, dy := ps[i].x - ps[j].x, ps[i].y - ps[j].y;
    var dist := Norm(sqrt, dx, dy);
    var bothNear := NearCursor(sqrt, reach, mouse, ps[i].x, ps[i].y) && NearCursor(sqrt, reach, mouse, ps[j].x, ps[j].y);
    var maxDist := if bothNear then reach.cursorLink else reach.link;
    NormBelow(sqrt, dx, dy, maxDist);
    if dist < maxDist then
      var fade := 1.0 - dist / maxDist;
      assert 0.0 < fade <= 1.0 by { FadeBounds(dist, maxDist); }
      var alpha := if bothNear then 0.25 * fade else 0.13 * fade;
      Some(Line(i, j, alpha, if bothNear then 1.2 else 0.8))
    else
      None
  }

  lemma FadeBounds(dist: real, maxDist: real)
    requires 0.0 <= dist < maxDist
    ensures 0.0 < 1.0 - dist / maxDist <= 1.0
  {
    var q := dist / maxDist;
    assert q * maxDist == dist;
    assert (1.0 - q) * maxDist == maxDist - dist;
  }

  function AsSeq(l: Option<Line>): seq<Line> {
    if l.Some? then [l.value] else []
  }

  /** The lines of the pairs (i, k), i < k < j, in the order the inner loop draws them. */
  function Row(sqrt: real -> real, reach: Reach, mouse: Point, ps: seq<Particle>, i: nat, j: nat): seq<Line>
    requires IsSqrt(sqrt) && NonNegative(reach) && i < j <= |ps|
    decreases j
  {
    if j == i + 1 then [] else Row(sqrt, reach, mouse, ps, i, j - 1) + AsSeq(Link(sqrt, reach, mouse, ps, i, j - 1))
  }

  /** The lines of the rows 0 .. i - 1 of the outer loop. */
  function Upto(sqrt: real -> real, reach: Reach, mouse: Point, ps: seq<Particle>, i: nat): seq<Line>
    requires IsSqrt(sqrt) && NonNegative(reach) && i <= |ps|
    decreases i
  {
    if i == 0 then [] else Upto(sqrt, reach, mouse, ps, i - 1) + Row(sqrt, reach, mouse, ps, i - 1, |ps|)
  }

  /** All lines of one frame. */
  function Links(sqrt: real -> real, reach: Reach, mouse: Point, ps: seq<Particle>): seq<Line>
    requires IsSqrt(sqrt) && NonNegative(reach)
  {
    Upto(sqrt, reach, mouse, ps, |ps|)
  }

  /** Line a comes before line b in the loops' (i, j) order. */
  predicate Before(a: Line, b: Line) {
    a.i < b.i || (a.i == b.i && a.j < b.j)
  }

  predicate StrictlyOrdered(ls: seq<Line>) {
    forall a, b :: 0 <= a < b < |ls| ==> Before(ls[a], ls[b])
  }

  lemma {:induction false} RowShape(sqrt: real -> real, reach: Reach, mouse: Point, ps: seq<Particle>, i: nat, j: nat)
    requires IsSqrt(sqrt) && NonNegative(reach) && i < j <= |ps|
    ensures forall a :: 0 <= a < |Row(sqrt, reach, mouse, ps, i, j)| ==>
      Row(sqrt, reach, mouse, ps, i, j)[a].i == i && i < Row(sqrt, reach, mouse, ps, i, j)[a].j < j
    ensures StrictlyOrdered(Row(sqrt, reach, mouse, ps, i, j))
    decreases j
  {
    if j > i + 1 {
      RowShape(sqrt, reach, mouse, ps, i, j - 1);
      var prev := Row(sqrt, reach, mouse, ps, i, j - 1);
      var last := AsSeq(Link(sqrt, reach, mouse, ps, i, j - 1));
      assert Row(sqrt, reach, mouse, ps, i, j) == prev + last;
    }
  }

  lemma {:induction false} RowMember(sqrt: real -> real, reach: Reach, mouse: Point, ps: seq<Particle>, i: nat, j: nat, l: Line)
    requires IsSqrt(sqrt) && NonNegative(reach) && i < j <= |ps|
    ensures l in Row(sqrt, reach, mouse, ps, i, j) <==>
      l.i == i && i < l.j < j && Link(sqrt, reach, mouse, ps, i, l.j) == Some(l)
    decreases j
  {
    if j > i + 1 {
      RowMember(sqrt, reach, mouse, ps, i, j - 1, l);
      assert Row(sqrt, reach, mouse, ps, i, j)
        == Row(sqrt, reach, mouse, ps, i, j - 1) + AsSeq(Link(sqrt, reach, mouse, ps, i, j - 1));
    }
  }

  lemma {:induction false} UptoShape(sqrt: real -> real, reach: Reach, mouse: Point, ps: seq<Particle>, i: nat)
    requires IsSqrt(sqrt) && NonNegative(reach) && i <= |ps|
    ensures forall a :: 0 <= a < |Upto(sqrt, reach, mouse, ps, i)| ==> Upto(sqrt, reach, mouse, ps, i)[a].i < i
    ensures StrictlyOrdered(Upto(sqrt, reach, mouse, ps, i))
    decreases i
  {
    if i > 0 {
      UptoShape(sqrt, reach, mouse, ps, i - 1);
      RowShape(sqrt, reach, mouse, ps, i - 1, |ps|);
      var prev := Upto(sqrt, reach, mouse, ps, i - 1);
      var row := Row(sqrt, reach, mouse, ps, i - 1, |ps|);
      assert Upto(sqrt, reach, mouse, ps, i) == prev + row;
      forall a, b | 0 <= a < b < |prev + row|
        ensures Before((prev + row)[a], (prev + row)[b])
      {
        if b < |prev| {
          assert (prev + row)[a] == prev[a] && (prev + row)[b] == prev[b];
        } else if a >= |prev| {
          assert (prev + row)[a] == row[a - |prev|] && (prev + row)[b] == row[b - |prev|];
        } else {
          assert (prev + row)[a] == prev[a] && (prev + row)[b] == row[b - |prev|];
        }
      }
    }
  }

  lemma {:induction false} UptoMember(sqrt: real -> real, reach: Reach, mouse: Point, ps: seq<Particle>, i: nat, l: Line)
    requires IsSqrt(sqrt) && NonNegative(reach) && i <= |ps|
    ensures l in Upto(sqrt, reach, mouse, ps, i) <==>
      l.i < i && l.i < l.j < |ps| && Link(sqrt, reach, mouse, ps, l.i, l.j) == Some(l)
    decreases i
  {
    if i > 0 {
      UptoMember(sqrt, reach, mouse, ps, i - 1, l);
      RowMember(sqrt, reach, mouse, ps, i - 1, |ps|, l);
      assert Upto(sqrt, reach, mouse, ps, i)
        == Upto(sqrt, reach, mouse, ps, i - 1) + Row(sqrt, reach, mouse, ps, i - 1, |ps|);
    }
  }

  /**
   * The link pass as a whole: a line is drawn for exactly the pairs i < j
   * whose decision says so, and each pair at most once, in loop order.
   */
  lemma LinksExactly(sqrt: real -> real, reach: Reach, mouse: Point, ps: seq<Particle>)
    requires IsSqrt(sqrt) && NonNegative(reach)
    ensures StrictlyOrdered(Links(sqrt, reach, mouse, ps))
    ensures forall l: Line :: l in Links(sqrt, reach, mouse, ps) <==>
      l.i < l.j < |ps| && Link(sqrt, reach, mouse, ps, l.i, l.j) == Some(l)
  {
    UptoShape(sqrt, reach, mouse, ps, |ps|);
    forall l: Line
      ensures l in Links(sqrt, reach, mouse, ps) <==>
        l.i < l.j < |ps| && Link(sqrt, reach, mouse, ps, l.i, l.j) == Some(l)
    {
      UptoMember(sqrt, reach, mouse, ps, |ps|, l);
    }
  }

  /** The two nested loops of `draw` over the pairs i < j. */
  method LinkPass(sqrt: real -> real, reach: Reach, mouse: Point, ps: seq<Particle>) returns (lines: seq<Line>)
    requires IsSqrt(sqrt) && NonNegative(reach)
    ensures lines == Links(sqrt, reach, mouse, ps)
  {
    lines := [];
    var i := 0;
    while i < |ps|
      invariant 0 <= i <= |ps|
      invariant lines == Upto(sqrt, reach, mouse, ps, i)
    {
      var row := RowPass(sqrt, reach, mouse, ps, i);
      lines := lines + row;
      i := i + 1;
    }
  }

  /** The inner loop of `draw`: the lines from particle i to the particles after it. */
  method RowPass(sqrt: real -> real, reach: Reach, mouse: Point, ps: seq<Particle>, i: nat) returns (row: seq<Line>)
    requires IsSqrt(sqrt) && NonNegative(reach) && i < |ps|
    ensures row == Row(sqrt, reach, mouse, ps, i, |ps|)
  {
    row := [];
    var j := i + 1;
    while j < |ps|
      invariant i + 1 <= j <= |ps|
      invariant row == Row(sqrt, reach, mouse, ps, i, j)
    {
      var line := Link(sqrt, reach, mouse, ps, i, j);
      if line.Some? {
        row := row + [line.value];
      }
      j := j + 1;
    }
  }

  /** Distinct positions in the line list belong to distinct pairs. */
  lemma EachPairOnce(ls: seq<Line>, a: nat, b: nat)
    requires StrictlyOrdered(ls) && a < |ls| && b < |ls| && a != b
    ensures (ls[a].i, ls[a].j) != (ls[b].i, ls[b].j)
  {
    if a > b {
      assert Before(ls[b], ls[a]);
    } else {
      assert Before(ls[a], ls[b]);
    }
  }

  // ---------------------------------------------------------------------------
  // Dot update
  // ---------------------------------------------------------------------------

  /** One frame of motion: move by the velocity, reverse a component past an edge. */
  function Move(p: Particle, width: real, height: real): (q: Particle)
    ensures q.x == p.x + p.vx && q.y == p.y + p.vy && q.r == p.r
    ensures q.vx == p.vx || q.vx == -p.vx
    ensures q.vy == p.vy || q.vy == -p.vy
    ensures (q.x < 0.0 || q.x > width) ==> q.vx == -p.vx
    ensures 0.0 <= q.x <= width ==> q.vx == p.vx
    ensures (q.y < 0.0 || q.y > height) ==> q.vy == -p.vy
    ensures 0.0 <= q.y <= height ==> q.vy == p.vy
  {
    var x, y := p.x + p.vx, p.y + p.vy;
    Particle(x, y,
             if x < 0.0 || x > width then -p.vx else p.vx,
             if y < 0.0 || y > height then -p.vy else p.vy,
             p.r)
  }

  /** A coordinate is on the surface, or one step of its velocity away from it. */
  predicate Within(c: real, v: real, extent: real) {
    0.0 <= c <= extent || 0.0 <= c + v <= extent
  }

  predicate Roaming(p: Particle, width: real, height: real) {
    Within(p.x, p.vx, width) && Within(p.y, p.vy, height)
  }

  /** A particle that starts on the surface never gets further than one step away from it. */
  lemma {:induction false} MoveKeepsRoaming(p: Particle, width: real, height: real)
    requires Roaming(p, width, height)
    ensures Roaming(Move(p, width, height), width, height)
  {
    var q := Move(p, width, height);
    if !(0.0 <= p.x <= width) {
      assert 0.0 <= q.x <= width;
    }
    if !(0.0 <= p.y <= height) {
      assert 0.0 <= q.y <= height;
    }
  }

  /** The dot for a moved particle: brighter and larger near the cursor. */
  function DotOf(sqrt: real -> real, reach: Reach, mouse: Point, p: Particle): (d: Dot)
    requires IsSqrt(sqrt) && reach.cursorRadius >= 0.0
    ensures d.x == p.x && d.y == p.y
    ensures NearSq(reach, mouse, p) ==> d.alpha == 0.45 && d.radius == p.r * 1.3
    ensures !NearSq(reach, mouse, p) ==> d.alpha == 0.25 && d.radius == p.r
  {
    var isNear := NearCursor(sqrt, reach, mouse, p.x, p.y);
    Dot(p.x, p.y, if isNear then p.r * 1.3 else p.r, if isNear then 0.45 else 0.25)
  }

  // ---------------------------------------------------------------------------
  // The engine's mutable state
  // ---------------------------------------------------------------------------

  class Background {
    /** The platform's square root. */
    const sqrt: real -> real
    var dpr: real
    var canvasWidth: nat
    var canvasHeight: nat
    var reach: Reach
    var particles: seq<Particle>

    ghost predicate Valid()
      reads this
    {
      IsSqrt(sqrt) && dpr > 0.0 && NonNegative(reach)
    }

    /** The drawing surface in CSS pixels, `canvas.width / dpr`. */
    function Width(): real
      reads this
      requires dpr > 0.0
    {
      canvasWidth as real / dpr
    }

    function Height(): real
      reads this
      requires dpr > 0.0
    {
      canvasHeight as real / dpr
    }

    /** Every particle is on the surface or about to return to it. */
    ghost predicate Settled()
      reads this
      requires dpr > 0.0
    {
      forall k :: 0 <= k < |particles| ==> Roaming(particles[k], Width(), Height())
    }

    /** The script's initial state, before the first `resize` (lines 7-23). */
    constructor (sqrt: real -> real)
      requires IsSqrt(sqrt)
      ensures Valid() && this.sqrt == sqrt
      ensures particles == [] && dpr == 1.0
      ensures canvasWidth == DefaultCanvasWidth && canvasHeight == DefaultCanvasHeight
      ensures reach == Reach(BaseLinkDist, BaseCursorLinkDist, BaseCursorRadius)
    {
      this.sqrt := sqrt;
      dpr := 1.0;
      canvasWidth, canvasHeight := DefaultCanvasWidth, DefaultCanvasHeight;
      reach := Reach(BaseLinkDist, BaseCursorLinkDist, BaseCursorRadius);
      particles := [];
    }

    /**
     * `resize`: size the canvas for the device pixel ratio (0 standing for
     * an absent ratio) and rescale the three distances to the viewport.
     */
    method Resize(innerWidth: nat, innerHeight: nat, devicePixelRatio: real)
      requires Valid() && devicePixelRatio >= 0.0
      modifies this
      ensures Valid()
      ensures dpr == (if devicePixelRatio == 0.0 then 1.0 else devicePixelRatio)
      ensures canvasWidth == (innerWidth as real * dpr).Floor
      ensures canvasHeight == (innerHeight as real * dpr).Floor
      ensures reach == ScaledReach(sqrt, innerWidth as real, innerHeight as real)
      ensures particles == old(particles)
    {
      dpr := if devicePixelRatio == 0.0 then 1.0 else devicePixelRatio;
      var cw := (innerWidth as real * dpr).Floor;
      var ch := (innerHeight as real * dpr).Floor;
      canvasWidth, canvasHeight := cw, ch;
      var scale := DiagonalScale(sqrt, innerWidth as real, innerHeight as real);
      reach := Reach(BaseLinkDist * scale, BaseCursorLinkDist * scale, BaseCursorRadius * scale);
    }

    /**
     * `init`: throw the old pool away and push `PoolSize` fresh particles,
     * the k-th made from the k-th random draw.
     */
    method Init(draws: seq<Draw>)
      requires Valid()
      requires |draws| >= PoolSize(Width(), Height())
      requires forall k :: 0 <= k < |draws| ==> RandomDraw(draws[k])
      modifies this
      ensures Valid() && Settled()
      ensures dpr == old(dpr) && canvasWidth == old(canvasWidth) && canvasHeight == old(canvasHeight)
      ensures reach == old(reach)
      ensures |particles| == PoolSize(Width(), Height())
      ensures PoolSize(Width(), Height()) > 0 ==> Width() > 0.0 && Height() > 0.0
      ensures forall k :: 0 <= k < |particles| ==>
        Width() > 0.0 && Height() > 0.0 && particles[k] == Spawn(draws[k], Width(), Height())
    {
      particles := [];
      var w := canvasWidth as real / dpr;
      var h := canvasHeight as real / dpr;
      var count := PoolSize(w, h);
      if count > 0 {
        PopulatedViewport(w, h);
      }
      for i := 0 to count
        invariant |particles| == i
        invariant dpr == old(dpr) && canvasWidth == old(canvasWidth) && canvasHeight == old(canvasHeight)
        invariant reach == old(reach)
        invariant forall k :: 0 <= k < i ==> w > 0.0 && h > 0.0 && particles[k] == Spawn(draws[k], w, h)
      {
        particles := particles + [Spawn(draws[i], w, h)];
      }
    }

    /**
     * `draw`, one frame: the lines of the unordered pairs in loop order,
     * computed from the positions before the move, then every particle's
     * move and the dot drawn at its new position.
     */
    method Frame(mouse: Point) returns (lines: seq<Line>, dots: seq<Dot>)
      requires Valid()
      modifies this
      ensures Valid()
      ensures dpr == old(dpr) && canvasWidth == old(canvasWidth) && canvasHeight == old(canvasHeight)
      ensures reach == old(reach)
      ensures lines == Links(sqrt, reach, mouse, old(particles))
      ensures |particles| == |old(particles)|
      ensures forall k :: 0 <= k < |particles| ==> particles[k] == Move(old(particles)[k], Width(), Height())
      ensures |dots| == |particles|
      ensures forall k :: 0 <= k < |dots| ==> dots[k] == DotOf(sqrt, reach, mouse, particles[k])
      ensures old(Settled()) ==> Settled()
    {
      var ps := particles;
      var n := |ps|;
      lines := LinkPass(sqrt, reach, mouse, ps);

      var w := canvasWidth as real / dpr;
      var h := canvasHeight as real / dpr;
      dots := [];
      var k := 0;
      while k < n
        invariant 0 <= k <= n && |particles| == n
        invariant dpr == old(dpr) && canvasWidth == old(canvasWidth) && canvasHeight == old(canvasHeight)
        invariant reach == old(reach)
        invariant forall m :: 0 <= m < k ==> particles[m] == Move(ps[m], w, h)
        invariant forall m :: k <= m < n ==> particles[m] == ps[m]
        invariant |dots| == k
        invariant forall m :: 0 <= m < k ==> dots[m] == DotOf(sqrt, reach, mouse, particles[m])
      {
        var p := Move(particles[k], w, h);
        particles := particles[k := p];
        dots := dots + [DotOf(sqrt, reach, mouse, p)];
        k := k + 1;
      }

      if old(Settled()) {
        forall m | 0 <= m < n
          ensures Roaming(particles[m], w, h)
        {
          MoveKeepsRoaming(ps[m], w, h);
        }
      }
    }
  }
}
