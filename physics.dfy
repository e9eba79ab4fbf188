/**
  The per-frame kinematics of `Plinko.update` (index.js): gravity and
  position integration, the ball-peg and ball-ball impulses, and the wall
  reflection. The square root and the division that give the distance and
  the unit normal are the parameter `geom`, the value of `Math.random()` is
  a parameter `u`; reals stand for doubles.
*/
module Physics {
  import opened Board

  const Gravity: real := 0.2
  /** `ball.velocity.x *= -0.8` at a wall. */
  const WallFactor: real := -0.8
  /** The fixed restitution constant of the ball-ball impulse. */
  const PairRestitution: real := 0.5
  /** `(Math.random() - 0.5) * 0.8`: the horizontal kick after a peg bounce. */
  const Jitter: real := 0.8

  datatype Ball = Ball(x: real, y: real, vx: real, vy: real, value: real, scored: bool)

  /**
    What the source derives from a centre offset (dx, dy) with `Math.sqrt`:
    the distance, and the normal (dx / distance, dy / distance).
  */
  datatype Contact = Contact(distance: real, nx: real, ny: real)

  /**
    `geom` is exact at the nonzero offset (dx, dy): the distance is positive
    and the normal is the unit vector with (dx, dy) == distance * normal, so
    the distance is the Euclidean length of the offset.
  */
  ghost predicate ExactAt(geom: (real, real) -> Contact, dx: real, dy: real)
  {
    var c := geom(dx, dy);
    c.distance > 0.0 && c.nx * c.distance == dx && c.ny * c.distance == dy
    && Sq(c.nx) + Sq(c.ny) == 1.0
  }

  function Sq(a: real): real { a * a }

  // ---------------------------------------------------------------------
  // Integration
  // ---------------------------------------------------------------------

  /** One frame of motion: gravity is added to vy first, then the position moves by the new velocity. */
  function Integrate(b: Ball): Ball
  {
    var vy := b.vy + Gravity;
    b.(vy := vy, x := b.x + b.vx, y := b.y + vy)
  }

  /** t frames of motion with no collision. */
  function FreeFall(b: Ball, t: nat): Ball
  {
    if t == 0 then b else Integrate(FreeFall(b, t - 1))
  }

  /**
    A ball dropped from rest and left alone for t frames has vy = 0.2 t and
    has fallen 0.1 t (t + 1): each frame moves it by the velocity it has
    after that frame's gravity. Its x, value and scored flag do not change.
  */
  lemma {:induction false} FreeFallFromRest(b: Ball, t: nat)
    requires b.vx == 0.0 && b.vy == 0.0
    ensures FreeFall(b, t).vy == Gravity * (t as real)
    ensures FreeFall(b, t).y == b.y + Gravity * ((t * (t + 1)) as real) / 2.0
    ensures FreeFall(b, t).x == b.x && FreeFall(b, t).vx == 0.0
    ensures FreeFall(b, t).value == b.value && FreeFall(b, t).scored == b.scored
  {
    if t > 0 {
      FreeFallFromRest(b, t - 1);
      assert (t * (t + 1)) as real == ((t - 1) * t) as real + 2.0 * (t as real);
    }
  }

  // ---------------------------------------------------------------------
  // Ball against peg
  // ---------------------------------------------------------------------

  /**
    The bounce off a peg along the unit normal (nx, ny) pointing from the peg
    to the ball: the impulse -(1 + e) * vn along the normal, the random
    horizontal kick, and the push of `overlap` along the normal.
  */
  function PegBounce(b: Ball, nx: real, ny: real, overlap: real, e: real, u: real): Ball
  {
    var vn := b.vx * nx + b.vy * ny;
    var impulse := -(1.0 + e) * vn;
    b.(vx := b.vx + impulse * nx + (u - 0.5) * Jitter,
       vy := b.vy + impulse * ny,
       x := b.x + overlap * nx,
       y := b.y + overlap * ny)
  }

  /**
    For a unit normal, leaving the random kick aside, the bounce reverses the
    normal velocity and scales it by the restitution e, and keeps the
    tangential velocity.
  */
  lemma PegBounceReflects(b: Ball, nx: real, ny: real, overlap: real, e: real, u: real)
    requires Sq(nx) + Sq(ny) == 1.0
    ensures var r := PegBounce(b, nx, ny, overlap, e, u);
      (r.vx - (u - 0.5) * Jitter) * nx + r.vy * ny == -e * (b.vx * nx + b.vy * ny)
    ensures var r := PegBounce(b, nx, ny, overlap, e, u);
      (r.vx - (u - 0.5) * Jitter) * ny - r.vy * nx == b.vx * ny - b.vy * nx
  {
    var vn := b.vx * nx + b.vy * ny;
    var impulse := -(1.0 + e) * vn;
    var r := PegBounce(b, nx, ny, overlap, e, u);
    assert r.vx - (u - 0.5) * Jitter == b.vx + impulse * nx;
    assert r.vy == b.vy + impulse * ny;
    NormalPart(b.vx, b.vy, nx, ny, impulse);
    TangentPart(b.vx, b.vy, nx, ny, impulse);
    RestitutionScale(vn, e);
  }

  /** For a draw u in [0, 1) the random kick is at most 0.4 either way. */
  lemma JitterBound(u: real)
    requires 0.0 <= u < 1.0
    ensures -0.4 <= (u - 0.5) * Jitter < 0.4
  {
  }

  /** One iteration of the peg loop: test the distance, take the normal, bounce when approaching. */
  function PegStep(b: Ball, peg: Peg, e: real, geom: (real, real) -> Contact, u: real): (r: Ball)
    ensures r.value == b.value && r.scored == b.scored
  {
    var c := geom(b.x - peg.x, b.y - peg.y);
    // A zero distance gives the source a NaN normal, and `NaN < 0` is false: no bounce.
    if c.distance < BallRadius + PegRadius && c.distance != 0.0 then
      var normalVelocity := b.vx * c.nx + b.vy * c.ny;
      if normalVelocity < 0.0 then
        PegBounce(b, c.nx, c.ny, (BallRadius + PegRadius) - c.distance, e, u)
      else b
    else b
  }

  /**
    When the ball overlaps the peg while approaching it (and `geom` is exact
    there), the normal velocity is reversed and scaled by e apart from the
    random kick, and the positional correction leaves the centres exactly
    BallRadius + PegRadius apart: no penetration remains.
  */
  lemma PegStepResolvesOverlap(b: Ball, peg: Peg, e: real, geom: (real, real) -> Contact, u: real)
    requires ExactAt(geom, b.x - peg.x, b.y - peg.y)
    requires var c := geom(b.x - peg.x, b.y - peg.y);
      c.distance < BallRadius + PegRadius && b.vx * c.nx + b.vy * c.ny < 0.0
    ensures var r, c := PegStep(b, peg, e, geom, u), geom(b.x - peg.x, b.y - peg.y);
      (r.vx - (u - 0.5) * Jitter) * c.nx + r.vy * c.ny == -e * (b.vx * c.nx + b.vy * c.ny)
    ensures var r := PegStep(b, peg, e, geom, u);
      Sq(r.x - peg.x) + Sq(r.y - peg.y) == Sq(BallRadius + PegRadius)
  {
    var c := geom(b.x - peg.x, b.y - peg.y);
    PegStepBounces(b, peg, e, geom, u);
    PegBounceReflects(b, c.nx, c.ny, BallRadius + PegRadius - c.distance, e, u);
    PegBounceClears(b, peg, c, BallRadius + PegRadius, e, u);
  }

  /** Overlapping and approaching, the ball takes the PegBounce branch. */
  lemma PegStepBounces(b: Ball, peg: Peg, e: real, geom: (real, real) -> Contact, u: real)
    requires var c := geom(b.x - peg.x, b.y - peg.y);
      0.0 < c.distance < BallRadius + PegRadius && b.vx * c.nx + b.vy * c.ny < 0.0
    ensures var c := geom(b.x - peg.x, b.y - peg.y);
      PegStep(b, peg, e, geom, u) == PegBounce(b, c.nx, c.ny, BallRadius + PegRadius - c.distance, e, u)
  {
    var c := geom(b.x - peg.x, b.y - peg.y);
    assert c.distance < BallRadius + PegRadius && c.distance != 0.0;
  }

  /** The push of PegBounce moves the offset from the peg along an exact unit normal to length R. */
  lemma PegBounceClears(b: Ball, peg: Peg, c: Contact, R: real, e: real, u: real)
    requires c.nx * c.distance == b.x - peg.x && c.ny * c.distance == b.y - peg.y
    requires Sq(c.nx) + Sq(c.ny) == 1.0
    ensures var r := PegBounce(b, c.nx, c.ny, R - c.distance, e, u);
      Sq(r.x - peg.x) + Sq(r.y - peg.y) == Sq(R)
  {
    var dx, dy := b.x - peg.x, b.y - peg.y;
    var r := PegBounce(b, c.nx, c.ny, R - c.distance, e, u);
    assert r.x - peg.x == dx + (R - c.distance) * c.nx;
    assert r.y - peg.y == dy + (R - c.distance) * c.ny;
    PushedToDistance(c, dx, dy, R);
  }

  /**
    The peg loop for ball k: the steps of PegStep over the pegs in order;
    draw(k, p) is the value of `Math.random()` for ball k at peg p.
  */
  function PegPass(b: Ball, k: nat, pegs: seq<Peg>, e: real, geom: (real, real) -> Contact, draw: (nat, nat) -> real): (r: Ball)
    ensures r.value == b.value && r.scored == b.scored
    decreases |pegs|
  {
    if pegs == [] then b
    else
      var n := |pegs| - 1;
      PegStep(PegPass(b, k, pegs[..n], e, geom, draw), pegs[n], e, geom, draw(k, n))
  }

  // ---------------------------------------------------------------------
  // Ball against ball
  // ---------------------------------------------------------------------

  /**
    The ball-ball response along the normal (nx, ny) from ball1 to ball2:
    the same impulse is subtracted from ball1 and added to ball2, and each is
    moved by half the overlap in opposite directions.
  */
  function PairBounce(b1: Ball, b2: Ball, nx: real, ny: real, overlap: real): (Ball, Ball)
  {
    var normalVelocity := (b2.vx - b1.vx) * nx + (b2.vy - b1.vy) * ny;
    var impulse := -(1.0 + PairRestitution) * normalVelocity;
    var moveX := (overlap * nx) / 2.0;
    var moveY := (overlap * ny) / 2.0;
    (b1.(vx := b1.vx - impulse * nx, vy := b1.vy - impulse * ny, x := b1.x - moveX, y := b1.y - moveY),
     b2.(vx := b2.vx + impulse * nx, vy := b2.vy + impulse * ny, x := b2.x + moveX, y := b2.y + moveY))
  }

  /**
    Whatever the normal, the two balls change by equal and opposite amounts,
    so the sums of their velocities and of their positions are unchanged,
    and neither ball's value or scored flag is touched.
  */
  lemma PairBounceEqualAndOpposite(b1: Ball, b2: Ball, nx: real, ny: real, overlap: real)
    ensures var r := PairBounce(b1, b2, nx, ny, overlap);
      r.0.vx - b1.vx == -(r.1.vx - b2.vx) && r.0.vy - b1.vy == -(r.1.vy - b2.vy)
    ensures var r := PairBounce(b1, b2, nx, ny, overlap);
      r.0.x - b1.x == -(r.1.x - b2.x) && r.0.y - b1.y == -(r.1.y - b2.y)
    ensures var r := PairBounce(b1, b2, nx, ny, overlap);
      r.0.vx + r.1.vx == b1.vx + b2.vx && r.0.vy + r.1.vy == b1.vy + b2.vy
    ensures var r := PairBounce(b1, b2, nx, ny, overlap);
      r.0.x + r.1.x == b1.x + b2.x && r.0.y + r.1.y == b1.y + b2.y
    ensures var r := PairBounce(b1, b2, nx, ny, overlap);
      r.0.value == b1.value && r.0.scored == b1.scored && r.1.value == b2.value && r.1.scored == b2.scored
  {
  }

  /**
    Because the full impulse -(1 + 0.5) * vn goes to each of the two balls,
    for a unit normal the relative normal velocity after the bounce is
    -2 * vn: the balls separate twice as fast as they approached (an
    effective restitution of 1 + 2 * 0.5), and the tangential relative
    velocity is kept.
  */
  lemma PairBounceSeparationSpeed(b1: Ball, b2: Ball, nx: real, ny: real, overlap: real)
    requires Sq(nx) + Sq(ny) == 1.0
    ensures var r := PairBounce(b1, b2, nx, ny, overlap);
      var vn := (b2.vx - b1.vx) * nx + (b2.vy - b1.vy) * ny;
      (r.1.vx - r.0.vx) * nx + (r.1.vy - r.0.vy) * ny == -(1.0 + 2.0 * PairRestitution) * vn
    ensures var r := PairBounce(b1, b2, nx, ny, overlap);
      (r.1.vx - r.0.vx) * ny - (r.1.vy - r.0.vy) * nx == (b2.vx - b1.vx) * ny - (b2.vy - b1.vy) * nx
  {
    var rx, ry := b2.vx - b1.vx, b2.vy - b1.vy;
    var vn := rx * nx + ry * ny;
    var impulse := -(1.0 + PairRestitution) * vn;
    var r := PairBounce(b1, b2, nx, ny, overlap);
    assert r.1.vx - r.0.vx == rx + (2.0 * impulse) * nx;
    assert r.1.vy - r.0.vy == ry + (2.0 * impulse) * ny;
    NormalPart(rx, ry, nx, ny, 2.0 * impulse);
    TangentPart(rx, ry, nx, ny, 2.0 * impulse);
  }

  /** One (i, j) iteration of the pairwise loop: test the distance, take the normal, bounce when approaching. */
  function PairStep(b1: Ball, b2: Ball, geom: (real, real) -> Contact): (Ball, Ball)
  {
    var c := geom(b2.x - b1.x, b2.y - b1.y);
    if c.distance < BallRadius * 2.0 && c.distance != 0.0 then
      var normalVelocity := (b2.vx - b1.vx) * c.nx + (b2.vy - b1.vy) * c.ny;
      if normalVelocity < 0.0 then PairBounce(b1, b2, c.nx, c.ny, (BallRadius * 2.0) - c.distance)
      else (b1, b2)
    else (b1, b2)
  }

  /**
    Whatever the contact, one (i, j) iteration keeps the summed velocities
    and positions of the pair, and their values and scored flags.
  */
  lemma PairStepEqualAndOpposite(b1: Ball, b2: Ball, geom: (real, real) -> Contact)
    ensures var r := PairStep(b1, b2, geom);
      r.0.vx + r.1.vx == b1.vx + b2.vx && r.0.vy + r.1.vy == b1.vy + b2.vy
    ensures var r := PairStep(b1, b2, geom);
      r.0.x + r.1.x == b1.x + b2.x && r.0.y + r.1.y == b1.y + b2.y
    ensures var r := PairStep(b1, b2, geom);
      r.0.value == b1.value && r.0.scored == b1.scored && r.1.value == b2.value && r.1.scored == b2.scored
  {
    var c := geom(b2.x - b1.x, b2.y - b1.y);
    PairBounceEqualAndOpposite(b1, b2, c.nx, c.ny, (BallRadius * 2.0) - c.distance);
  }

  /** Overlapping and approaching balls take the PairBounce branch. */
  lemma PairStepBounces(b1: Ball, b2: Ball, geom: (real, real) -> Contact)
    requires var c := geom(b2.x - b1.x, b2.y - b1.y);
      0.0 < c.distance < BallRadius * 2.0 && (b2.vx - b1.vx) * c.nx + (b2.vy - b1.vy) * c.ny < 0.0
    ensures var c := geom(b2.x - b1.x, b2.y - b1.y);
      PairStep(b1, b2, geom).0 == PairBounce(b1, b2, c.nx, c.ny, BallRadius * 2.0 - c.distance).0
    ensures var c := geom(b2.x - b1.x, b2.y - b1.y);
      PairStep(b1, b2, geom).1 == PairBounce(b1, b2, c.nx, c.ny, BallRadius * 2.0 - c.distance).1
  {
    var c := geom(b2.x - b1.x, b2.y - b1.y);
    assert c.distance < BallRadius * 2.0 && c.distance != 0.0;
  }

  /**
    When two balls overlap while approaching (and `geom` is exact there),
    they leave with twice their approach speed along the normal, and the
    separation puts their centres exactly two radii apart.
  */
  lemma PairStepResolvesOverlap(b1: Ball, b2: Ball, geom: (real, real) -> Contact)
    requires ExactAt(geom, b2.x - b1.x, b2.y - b1.y)
    requires var c := geom(b2.x - b1.x, b2.y - b1.y);
      c.distance < BallRadius * 2.0 && (b2.vx - b1.vx) * c.nx + (b2.vy - b1.vy) * c.ny < 0.0
    ensures var r, c := PairStep(b1, b2, geom), geom(b2.x - b1.x, b2.y - b1.y);
      (r.1.vx - r.0.vx) * c.nx + (r.1.vy - r.0.vy) * c.ny == -2.0 * ((b2.vx - b1.vx) * c.nx + (b2.vy - b1.vy) * c.ny)
    ensures var r := PairStep(b1, b2, geom);
      Sq(r.1.x - r.0.x) + Sq(r.1.y - r.0.y) == Sq(BallRadius * 2.0)
  {
    var dx, dy := b2.x - b1.x, b2.y - b1.y;
    var c := geom(dx, dy);
    PairStepBounces(b1, b2, geom);
    PairBounceSeparationSpeed(b1, b2, c.nx, c.ny, BallRadius * 2.0 - c.distance);
    PairBounceClears(b1, b2, c, BallRadius * 2.0);
  }

  /** The separation of PairBounce moves the centre offset along an exact unit normal to length R. */
  lemma PairBounceClears(b1: Ball, b2: Ball, c: Contact, R: real)
    requires c.nx * c.distance == b2.x - b1.x && c.ny * c.distance == b2.y - b1.y
    requires Sq(c.nx) + Sq(c.ny) == 1.0
    ensures var r := PairBounce(b1, b2, c.nx, c.ny, R - c.distance);
      Sq(r.1.x - r.0.x) + Sq(r.1.y - r.0.y) == Sq(R)
  {
    var dx, dy := b2.x - b1.x, b2.y - b1.y;
    var r := PairBounce(b1, b2, c.nx, c.ny, R - c.distance);
    var mx, my := (R - c.distance) * c.nx, (R - c.distance) * c.ny;
    assert r.1.x == b2.x + mx / 2.0 && r.0.x == b1.x - mx / 2.0;
    assert r.1.y == b2.y + my / 2.0 && r.0.y == b1.y - my / 2.0;
    assert r.1.x - r.0.x == dx + mx;
    assert r.1.y - r.0.y == dy + my;
    PushedToDistance(c, dx, dy, R);
  }

  /** The (i, j) iteration applied to the ball list. */
  function CollidePair(bs: seq<Ball>, i: nat, j: nat, geom: (real, real) -> Contact): (r: seq<Ball>)
    requires i < j < |bs|
    ensures |r| == |bs|
    ensures forall k :: 0 <= k < |bs| && k != i && k != j ==> r[k] == bs[k]
  {
    var p := PairStep(bs[i], bs[j], geom);
    bs[i := p.0][j := p.1]
  }

  /** The inner loop `for (j = from; j < n; j++)` for a fixed i. */
  function PairRow(bs: seq<Ball>, i: nat, from: nat, geom: (real, real) -> Contact): (r: seq<Ball>)
    requires i < from <= |bs|
    ensures |r| == |bs|
    decreases |bs| - from
  {
    if from == |bs| then bs else PairRow(CollidePair(bs, i, from, geom), i, from + 1, geom)
  }

  /** The outer loop `for (i = from; i < n; i++)`: every pair i < j, in index order. */
  function PairSweep(bs: seq<Ball>, from: nat, geom: (real, real) -> Contact): (r: seq<Ball>)
    requires from <= |bs|
    ensures |r| == |bs|
    decreases |bs| - from
  {
    if from == |bs| then bs else PairSweep(PairRow(bs, from, from + 1, geom), from + 1, geom)
  }

  // ---------------------------------------------------------------------
  // Conservation over the whole pairwise sweep
  // ---------------------------------------------------------------------

  /** A coordinate of a ball. */
  datatype Axis = X | Y | VX | VY

  function Component(b: Ball, a: Axis): real
  {
    match a
    case X => b.x
    case Y => b.y
    case VX => b.vx
    case VY => b.vy
  }

  /** The sum of one coordinate over all balls (for velocities: the total momentum of equal masses). */
  function Total(bs: seq<Ball>, a: Axis): real
  {
    if bs == [] then 0.0 else Total(bs[..|bs| - 1], a) + Component(bs[|bs| - 1], a)
  }

  /** Replacing one ball changes the total by exactly the change of that ball. */
  lemma {:induction false} TotalUpdate(bs: seq<Ball>, k: nat, b: Ball, a: Axis)
    requires k < |bs|
    ensures Total(bs[k := b], a) == Total(bs, a) - Component(bs[k], a) + Component(b, a)
    decreases |bs|
  {
    var n := |bs| - 1;
    assert bs[k := b][..n] == if k == n then bs[..n] else bs[..n][k := b];
    if k < n {
      TotalUpdate(bs[..n], k, b, a);
    }
  }

  /** Ball values and scored flags, index by index, are the same in both lists. */
  ghost predicate SameValuesAndFlags(bs: seq<Ball>, cs: seq<Ball>)
  {
    |bs| == |cs| && forall k :: 0 <= k < |bs| ==> cs[k].value == bs[k].value && cs[k].scored == bs[k].scored
  }

  lemma CollidePairConserves(bs: seq<Ball>, i: nat, j: nat, geom: (real, real) -> Contact, a: Axis)
    requires i < j < |bs|
    ensures Total(CollidePair(bs, i, j, geom), a) == Total(bs, a)
    ensures SameValuesAndFlags(bs, CollidePair(bs, i, j, geom))
  {
    var p := PairStep(bs[i], bs[j], geom);
    PairStepEqualAndOpposite(bs[i], bs[j], geom);
    TotalUpdate(bs, i, p.0, a);
    TotalUpdate(bs[i := p.0], j, p.1, a);
    assert Component(p.0, a) + Component(p.1, a) == Component(bs[i], a) + Component(bs[j], a);
  }

  lemma {:induction false} PairRowConserves(bs: seq<Ball>, i: nat, from: nat, geom: (real, real) -> Contact, a: Axis)
    requires i < from <= |bs|
    ensures Total(PairRow(bs, i, from, geom), a) == Total(bs, a)
    ensures SameValuesAndFlags(bs, PairRow(bs, i, from, geom))
    decreases |bs| - from
  {
    if from < |bs| {
      CollidePairConserves(bs, i, from, geom, a);
      PairRowConserves(CollidePair(bs, i, from, geom), i, from + 1, geom, a);
    }
  }

  /**
    The whole pairwise sweep keeps the total momentum and the centre of mass
    of the balls (the sums of velocities and of positions), and touches no
    ball's value or scored flag.
  */
  lemma {:induction false} PairSweepConserves(bs: seq<Ball>, from: nat, geom: (real, real) -> Contact, a: Axis)
    requires from <= |bs|
    ensures Total(PairSweep(bs, from, geom), a) == Total(bs, a)
    ensures SameValuesAndFlags(bs, PairSweep(bs, from, geom))
    decreases |bs| - from
  {
    if from < |bs| {
      PairRowConserves(bs, from, from + 1, geom, a);
      PairSweepConserves(PairRow(bs, from, from + 1, geom), from + 1, geom, a);
    }
  }

  // ---------------------------------------------------------------------
  // Walls
  // ---------------------------------------------------------------------

  predicate OutsideWalls(b: Ball)
  {
    b.x < BallRadius || b.x > Width - BallRadius
  }

  /** The wall test: outside the band [10, 590] the horizontal velocity is multiplied by -0.8; position is never corrected. */
  function ReflectOffWalls(b: Ball): Ball
  {
    if OutsideWalls(b) then b.(vx := b.vx * WallFactor) else b
  }

  /**
    The wall reflection damps: the horizontal speed never grows, it shrinks
    to 80% outside the band, and nothing but vx changes. It does not look at
    the direction of motion: a ball beyond the left wall already moving back
    to the right is turned outward again.
  */
  lemma WallReflection(b: Ball)
    ensures var r := ReflectOffWalls(b);
      r.x == b.x && r.y == b.y && r.vy == b.vy && r.value == b.value && r.scored == b.scored
    ensures var r := ReflectOffWalls(b);
      (if r.vx < 0.0 then -r.vx else r.vx) <= (if b.vx < 0.0 then -b.vx else b.vx)
    ensures OutsideWalls(b) ==> ReflectOffWalls(b).vx == -0.8 * b.vx
    ensures b.x < BallRadius && b.vx > 0.0 ==> ReflectOffWalls(b).vx < 0.0
    ensures !OutsideWalls(b) ==> ReflectOffWalls(b) == b
  {
  }

  // ---------------------------------------------------------------------
  // Arithmetic steps used by the proofs above
  // ---------------------------------------------------------------------

  lemma NormalPart(vx: real, vy: real, nx: real, ny: real, impulse: real)
    ensures (vx + impulse * nx) * nx + (vy + impulse * ny) * ny == (vx * nx + vy * ny) + impulse * (Sq(nx) + Sq(ny))
  {
  }

  lemma TangentPart(vx: real, vy: real, nx: real, ny: real, impulse: real)
    ensures (vx + impulse * nx) * ny - (vy + impulse * ny) * nx == vx * ny - vy * nx
  {
  }

  lemma RestitutionScale(vn: real, e: real)
    ensures vn + -(1.0 + e) * vn == -e * vn
  {
  }

  /** Pushing a point at distance d along its own unit direction by R - d puts it at distance R. */
  lemma PushedToDistance(c: Contact, dx: real, dy: real, R: real)
    requires c.nx * c.distance == dx && c.ny * c.distance == dy
    requires Sq(c.nx) + Sq(c.ny) == 1.0
    ensures Sq(dx + (R - c.distance) * c.nx) + Sq(dy + (R - c.distance) * c.ny) == Sq(R)
  {
    assert dx + (R - c.distance) * c.nx == R * c.nx;
    assert dy + (R - c.distance) * c.ny == R * c.ny;
    assert Sq(R * c.nx) + Sq(R * c.ny) == Sq(R) * (Sq(c.nx) + Sq(c.ny));
  }
}
