/**
  The `Plinko` game object of index.js: the money balance, the three upgrade
  tracks, the ball list and the static board, with the operations that
  change them. Timers, drawing and the DOM are left out; `Math.sqrt` and
  `Math.random` enter `Update` as the parameters `geom` and `draw`.
*/
module PlinkoGame {
  import opened Wrappers
  import opened Board
  import opened Physics
  import opened Scoring

  datatype UpgradeKind = AutoDrop | Bounciness | RewardMultiplier

  const StartMoney: real := 1000.0
  const BallCost: real := 10.0
  /** The height at which `createBall` places a new ball. */
  const DropY: real := 20.0
  const MaxLevel: nat := 3
  /** Auto-drop period in milliseconds, per level. */
  const DropIntervals: seq<nat> := [2000, 1500, 1000, 500]
  /** Restitution of the ball-peg bounce, per level. */
  const BouncinessValues: seq<real> := [0.5, 0.7, 0.85, 1.0]
  /** Factor applied to every payout, per level. */
  const RewardMultipliers: seq<real> := [1.0, 1.5, 2.0, 3.0]

  /** The cost of the first level of each track. */
  function BaseCost(kind: UpgradeKind): real
  {
    match kind
    case AutoDrop => 500.0
    case Bounciness => 1000.0
    case RewardMultiplier => 2000.0
  }

  function Pow2(n: nat): nat
  {
    if n == 0 then 1 else 2 * Pow2(n - 1)
  }

  /** `upgrade.cost * Math.pow(2, upgrade.level)`. */
  function UpgradeCost(kind: UpgradeKind, level: nat): real
  {
    BaseCost(kind) * (Pow2(level) as real)
  }

  /** The first level costs the base price and every further level costs twice the one before. */
  lemma UpgradeCostDoubles(kind: UpgradeKind, level: nat)
    ensures UpgradeCost(kind, 0) == BaseCost(kind) > 0.0
    ensures UpgradeCost(kind, level + 1) == 2.0 * UpgradeCost(kind, level)
  {
    var p := Pow2(level) as real;
    assert Pow2(level + 1) as real == 2.0 * p;
    assert BaseCost(kind) * (2.0 * p) == 2.0 * (BaseCost(kind) * p);
  }

  /** Taking a track from level 0 to MaxLevel costs seven times its base price in all. */
  lemma FullTrackCost(kind: UpgradeKind)
    ensures UpgradeCost(kind, 0) + UpgradeCost(kind, 1) + UpgradeCost(kind, 2) == 7.0 * BaseCost(kind)
  {
    UpgradeCostDoubles(kind, 0);
    UpgradeCostDoubles(kind, 1);
  }

  // ---------------------------------------------------------------------
  // The frame, as a function of the ball list
  // ---------------------------------------------------------------------

  /**
    One run of the `forEach` body for ball k: integrate, bounce off every
    peg, run the whole pairwise loop over the list (which may move ball k
    again), then the wall test and the scoring step on ball k as it now is.
    Returns the new list and the amount won.
  */
  function BallTurn(bs: seq<Ball>, k: nat, pegs: seq<Peg>, zones: seq<Zone>, e: real, reward: real,
                    geom: (real, real) -> Contact, draw: (nat, nat) -> real): (r: (seq<Ball>, real))
    requires k < |bs| && |zones| <= |Multipliers|
    ensures |r.0| == |bs|
  {
    var moved := PegPass(Integrate(bs[k]), k, pegs, e, geom, draw);
    var swept := PairSweep(bs[k := moved], 0, geom);
    var settled := Settle(ReflectOffWalls(swept[k]), zones, reward);
    (swept[k := settled.0], settled.1)
  }

  /** The first n turns of a frame: the list after them and the total won. */
  function Turns(bs: seq<Ball>, n: nat, pegs: seq<Peg>, zones: seq<Zone>, e: real, reward: real,
                 geom: (real, real) -> Contact, draw: (nat, nat) -> real): (r: (seq<Ball>, real))
    requires n <= |bs| && |zones| <= |Multipliers|
    ensures |r.0| == |bs|
  {
    if n == 0 then (bs, 0.0)
    else
      var p := Turns(bs, n - 1, pegs, zones, e, reward, geom, draw);
      var t := BallTurn(p.0, n - 1, pegs, zones, e, reward, geom, draw);
      (t.0, p.1 + t.1)
  }

  /** The first k + 1 turns are the first k followed by turn k. */
  lemma TurnsStep(bs: seq<Ball>, k: nat, pegs: seq<Peg>, zones: seq<Zone>, e: real, reward: real,
                  geom: (real, real) -> Contact, draw: (nat, nat) -> real)
    requires k < |bs| && |zones| <= |Multipliers|
    ensures var p := Turns(bs, k, pegs, zones, e, reward, geom, draw);
      Turns(bs, k + 1, pegs, zones, e, reward, geom, draw).0 == BallTurn(p.0, k, pegs, zones, e, reward, geom, draw).0
    ensures var p := Turns(bs, k, pegs, zones, e, reward, geom, draw);
      Turns(bs, k + 1, pegs, zones, e, reward, geom, draw).1 == p.1 + BallTurn(p.0, k, pegs, zones, e, reward, geom, draw).1
  {
  }

  /** Index by index, cs keeps the values of bs and every scored flag that bs has set. */
  ghost predicate Advanced(bs: seq<Ball>, cs: seq<Ball>)
  {
    |bs| == |cs| && forall k :: 0 <= k < |bs| ==> cs[k].value == bs[k].value && (bs[k].scored ==> cs[k].scored)
  }

  /**
    A turn keeps every ball's value and scored flag, except that ball k may
    become scored; a ball that was already scored wins nothing.
  */
  lemma BallTurnAdvances(bs: seq<Ball>, k: nat, pegs: seq<Peg>, zones: seq<Zone>, e: real, reward: real,
                         geom: (real, real) -> Contact, draw: (nat, nat) -> real)
    requires k < |bs| && |zones| <= |Multipliers|
    ensures Advanced(bs, BallTurn(bs, k, pegs, zones, e, reward, geom, draw).0)
    ensures bs[k].scored ==> BallTurn(bs, k, pegs, zones, e, reward, geom, draw).1 == 0.0
  {
    var moved := PegPass(Integrate(bs[k]), k, pegs, e, geom, draw);
    PairSweepConserves(bs[k := moved], 0, geom, X);
  }

  lemma {:induction false} TurnsAdvance(bs: seq<Ball>, n: nat, pegs: seq<Peg>, zones: seq<Zone>, e: real, reward: real,
                                        geom: (real, real) -> Contact, draw: (nat, nat) -> real)
    requires n <= |bs| && |zones| <= |Multipliers|
    ensures Advanced(bs, Turns(bs, n, pegs, zones, e, reward, geom, draw).0)
  {
    if n > 0 {
      var p := Turns(bs, n - 1, pegs, zones, e, reward, geom, draw);
      TurnsAdvance(bs, n - 1, pegs, zones, e, reward, geom, draw);
      BallTurnAdvances(p.0, n - 1, pegs, zones, e, reward, geom, draw);
    }
  }

  /** With non-negative ball values and reward factor, a frame never takes money away. */
  lemma {:induction false} TurnsPayoutNonNegative(bs: seq<Ball>, n: nat, pegs: seq<Peg>, zones: seq<Zone>, e: real, reward: real,
                                                  geom: (real, real) -> Contact, draw: (nat, nat) -> real)
    requires n <= |bs| && |zones| <= |Multipliers|
    requires reward >= 0.0 && forall k :: 0 <= k < |bs| ==> bs[k].value >= 0.0
    ensures Turns(bs, n, pegs, zones, e, reward, geom, draw).1 >= 0.0
  {
    if n > 0 {
      var p := Turns(bs, n - 1, pegs, zones, e, reward, geom, draw);
      TurnsPayoutNonNegative(bs, n - 1, pegs, zones, e, reward, geom, draw);
      TurnsAdvance(bs, n - 1, pegs, zones, e, reward, geom, draw);
      var moved := PegPass(Integrate(p.0[n - 1]), n - 1, pegs, e, geom, draw);
      var swept := PairSweep(p.0[n - 1 := moved], 0, geom);
      PairSweepConserves(p.0[n - 1 := moved], 0, geom, X);
      SettlePayoutNonNegative(ReflectOffWalls(swept[n - 1]), zones, reward);
    }
  }

  /** On the board as built no zone ever matches, so a frame wins nothing at all. */
  lemma {:induction false} TurnsPayNothingOnBoard(bs: seq<Ball>, n: nat, pegs: seq<Peg>, e: real, reward: real,
                                                  geom: (real, real) -> Contact, draw: (nat, nat) -> real)
    requires n <= |bs| && |ZoneLayout()| <= |Multipliers|
    ensures Turns(bs, n, pegs, ZoneLayout(), e, reward, geom, draw).1 == 0.0
  {
    if n > 0 {
      var p := Turns(bs, n - 1, pegs, ZoneLayout(), e, reward, geom, draw);
      TurnsPayNothingOnBoard(bs, n - 1, pegs, e, reward, geom, draw);
      var moved := PegPass(Integrate(p.0[n - 1]), n - 1, pegs, e, geom, draw);
      var swept := PairSweep(p.0[n - 1 := moved], 0, geom);
      BoardNeverPays(ReflectOffWalls(swept[n - 1]), reward);
    }
  }

  /** If every ball of bs is worth v, so is every ball the filter keeps of a list that advanced from bs. */
  lemma OnBoardKeepsValue(bs: seq<Ball>, cs: seq<Ball>, v: real)
    requires Advanced(bs, cs)
    requires forall b :: b in bs ==> b.value == v
    ensures forall b :: b in OnBoard(cs) ==> b.value == v
  {
    forall b | b in OnBoard(cs)
      ensures b.value == v
    {
      var i :| 0 <= i < |cs| && cs[i] == b;
      assert bs[i] in bs;
    }
  }

  // ---------------------------------------------------------------------
  // The game object
  // ---------------------------------------------------------------------

  class Plinko {
    var money: real
    var pegs: seq<Peg>
    var scoreZones: seq<Zone>
    var balls: seq<Ball>
    var autoDropLevel: nat
    var bouncinessLevel: nat
    var rewardLevel: nat
    /** The period of the running auto-drop timer (`upgrades.autoDrop.interval`), None when none runs. */
    var autoDropInterval: Option<nat>

    /**
      Money is never negative, no track is beyond MaxLevel (so every lookup
      by level is in range), the board is the one the constructor builds,
      every ball is worth BallCost, and a running timer has the period of
      the current auto-drop level.
    */
    ghost predicate Valid()
      reads this
    {
      money >= 0.0
      && autoDropLevel <= MaxLevel && bouncinessLevel <= MaxLevel && rewardLevel <= MaxLevel
      && pegs == PegLayout() && scoreZones == ZoneLayout()
      && (forall b :: b in balls ==> b.value == BallCost)
      && (autoDropInterval.Some? ==> 1 <= autoDropLevel && autoDropInterval.value == DropIntervals[autoDropLevel])
    }

    function Level(kind: UpgradeKind): nat
      reads this
    {
      match kind
      case AutoDrop => autoDropLevel
      case Bounciness => bouncinessLevel
      case RewardMultiplier => rewardLevel
    }

    /** `bounciness.values[bounciness.level]`: a restitution between 0.5 and 1. */
    function Restitution(): (e: real)
      reads this
      requires bouncinessLevel <= MaxLevel
      ensures 0.5 <= e <= 1.0
    {
      BouncinessValues[bouncinessLevel]
    }

    /** `rewardMultiplier.multipliers[rewardMultiplier.level]`: a factor between 1 and 3. */
    function RewardFactor(): (f: real)
      reads this
      requires rewardLevel <= MaxLevel
      ensures 1.0 <= f <= 3.0
    {
      RewardMultipliers[rewardLevel]
    }

    /** A new game: 1000 in money, no balls, every track at level 0, and the board built. */
    constructor ()
      ensures Valid()
      ensures money == StartMoney && balls == [] && autoDropInterval == None
      ensures autoDropLevel == 0 && bouncinessLevel == 0 && rewardLevel == 0
    {
      money := StartMoney;
      pegs := [];
      balls := [];
      scoreZones := [];
      autoDropLevel, bouncinessLevel, rewardLevel := 0, 0, 0;
      autoDropInterval := None;
      new;
      InitializePegs();
      PegCount();
      InitializeScoreZones();
    }

    /** Appends the rows of the triangle, top to bottom and left to right within a row. */
    method InitializePegs()
      modifies this`pegs
      ensures pegs == old(pegs) + PegLayout()
    {
      var row := 0;
      while row < Rows
        invariant row <= Rows
        invariant pegs == old(pegs) + PegRows(row)
      {
        ghost var before := pegs;
        AppendRow(row);
        assert PegRows(row + 1) == PegRows(row) + RowPegs(row);
        assert pegs == before + RowPegs(row) == old(pegs) + (PegRows(row) + RowPegs(row));
        row := row + 1;
      }
      assert PegRows(row) == PegLayout();
    }

    /** The inner loop of initializePegs: appends the pegs of one row, left to right. */
    method AppendRow(row: nat)
      modifies this`pegs
      ensures pegs == old(pegs) + RowPegs(row)
    {
      var pegsInRow := StartPegs + row;
      var rowWidth := (pegsInRow as real) * Spacing;
      var startX := (Width - rowWidth) / 2.0;
      var i := 0;
      while i < pegsInRow
        invariant i <= pegsInRow
        invariant pegs == old(pegs) + RowPegs(row)[..i]
      {
        var peg := Peg(startX + (i as real) * Spacing + Spacing / 2.0, ((row + 1) as real) * Spacing + TopOffset);
        assert peg == PegAt(row, i);
        pegs := pegs + [peg];
        assert RowPegs(row)[..i + 1] == RowPegs(row)[..i] + [PegAt(row, i)];
        i := i + 1;
      }
      assert RowPegs(row)[..i] == RowPegs(row);
    }

    /** Appends one zone per multiplier, sized and placed from the last pegs of the list. */
    method InitializeScoreZones()
      requires |pegs| >= 2
      modifies this`scoreZones
      ensures scoreZones == old(scoreZones) + ZonesOver(pegs)
    {
      var bottomRowPegs := BottomRow(pegs);
      var zoneWidth := (bottomRowPegs[1].x - bottomRowPegs[0].x) / ((|Multipliers| - 1) as real);
      var totalWidth := zoneWidth * (|Multipliers| as real);
      var startX := (Width - totalWidth) / 2.0;
      var lastPegY := bottomRowPegs[0].y;
      assert zoneWidth == ZoneWidthOver(pegs);
      ghost var zs := ZonesOver(pegs);
      var i := 0;
      while i < |Multipliers|
        invariant i <= |Multipliers|
        invariant scoreZones == old(scoreZones) + zs[..i]
      {
        var zone := Zone(startX + (i as real) * zoneWidth, zoneWidth, lastPegY + ZoneGap, ZoneHeight, Multipliers[i]);
        ZoneAtFrom(pegs, i, zoneWidth, startX, lastPegY);
        scoreZones := scoreZones + [zone];
        assert zs[..i + 1] == zs[..i] + [zs[i]];
        i := i + 1;
      }
      assert zs[..i] == zs;
    }

    /**
      Buys the next level of a track when the money covers its cost and the
      track is not at MaxLevel: the money drops by exactly the cost, that
      track rises by exactly one level, and buying auto-drop (re)starts the
      timer at the new level's period. Otherwise nothing changes.
    */
    method BuyUpgrade(kind: UpgradeKind) returns (bought: bool)
      requires Valid()
      modifies this
      ensures Valid()
      ensures bought <==> old(money) >= UpgradeCost(kind, old(Level(kind))) && old(Level(kind)) < MaxLevel
      ensures money == if bought then old(money) - UpgradeCost(kind, old(Level(kind))) else old(money)
      ensures Level(kind) == if bought then old(Level(kind)) + 1 else old(Level(kind))
      ensures forall other :: other != kind ==> Level(other) == old(Level(other))
      ensures autoDropInterval == if bought && kind == AutoDrop then Some(DropIntervals[autoDropLevel]) else old(autoDropInterval)
      ensures balls == old(balls) && pegs == old(pegs) && scoreZones == old(scoreZones)
    {
      var level := Level(kind);
      var cost := UpgradeCost(kind, level);
      bought := money >= cost && level < MaxLevel;
      if bought {
        money := money - cost;
        match kind {
          case AutoDrop =>
            autoDropLevel := autoDropLevel + 1;
            UpdateAutoDrop();
          case Bounciness =>
            bouncinessLevel := bouncinessLevel + 1;
          case RewardMultiplier =>
            rewardLevel := rewardLevel + 1;
        }
      }
    }

    /** Replaces any running auto-drop timer by one with the period of the current level. */
    method UpdateAutoDrop()
      requires autoDropLevel <= MaxLevel
      modifies this`autoDropInterval
      ensures autoDropInterval == Some(DropIntervals[autoDropLevel])
    {
      autoDropInterval := Some(DropIntervals[autoDropLevel]);
    }

    /**
      Pays BallCost for a new ball at the top centre when the money covers
      it; otherwise nothing is bought and the auto-drop timer is stopped.
    */
    method DropBall() returns (dropped: bool)
      requires Valid()
      modifies this`money, this`balls, this`autoDropInterval
      ensures Valid()
      ensures dropped == (old(money) >= BallCost)
      ensures dropped ==> money == old(money) - BallCost && autoDropInterval == old(autoDropInterval)
      ensures dropped ==> balls == old(balls) + [Ball(Width / 2.0, DropY, 0.0, 0.0, BallCost, false)]
      ensures !dropped ==> money == old(money) && balls == old(balls) && autoDropInterval == None
    {
      dropped := money >= BallCost;
      if dropped {
        money := money - BallCost;
        CreateBall(Width / 2.0);
      } else {
        autoDropInterval := None;
      }
    }

    /** Appends a ball at (x, 20), at rest, worth BallCost and not yet scored. */
    method CreateBall(x: real)
      modifies this`balls
      ensures balls == old(balls) + [Ball(x, DropY, 0.0, 0.0, BallCost, false)]
    {
      balls := balls + [Ball(x, DropY, 0.0, 0.0, BallCost, false)];
    }

    /** One firing of the auto-drop timer: drops a ball only when the money covers it. */
    method AutoDropTick()
      requires Valid() && autoDropInterval.Some?
      modifies this`money, this`balls, this`autoDropInterval
      ensures Valid() && autoDropInterval == old(autoDropInterval)
      ensures old(money) >= BallCost ==> money == old(money) - BallCost
      ensures old(money) >= BallCost ==> balls == old(balls) + [Ball(Width / 2.0, DropY, 0.0, 0.0, BallCost, false)]
      ensures old(money) < BallCost ==> money == old(money) && balls == old(balls)
    {
      if money >= BallCost {
        var _ := DropBall();
      }
    }

    /**
      The body of the peg loop of `update`: a ball overlapping the peg and
      moving towards it takes the impulse along the normal, the random
      horizontal kick (u is the draw of `Math.random()`) and the push out of
      the peg, in that order.
    */
    method BounceOffPeg(b: Ball, peg: Peg, e: real, geom: (real, real) -> Contact, u: real) returns (r: Ball)
      ensures r == PegStep(b, peg, e, geom, u)
    {
      r := b;
      var c := geom(b.x - peg.x, b.y - peg.y);
      if c.distance < BallRadius + PegRadius && c.distance != 0.0 {
        var normalVelocity := b.vx * c.nx + b.vy * c.ny;
        if normalVelocity < 0.0 {
          var impulse := -(1.0 + e) * normalVelocity;
          var vx := b.vx + impulse * c.nx;
          vx := vx + (u - 0.5) * Jitter;
          var overlap := (BallRadius + PegRadius) - c.distance;
          r := b.(vx := vx, vy := b.vy + impulse * c.ny, x := b.x + overlap * c.nx, y := b.y + overlap * c.ny);
        }
      }
    }

    /** The peg loop of `update` for ball k, with restitution e. */
    method CollideWithPegs(b: Ball, k: nat, e: real, geom: (real, real) -> Contact, draw: (nat, nat) -> real) returns (r: Ball)
      ensures r == PegPass(b, k, pegs, e, geom, draw)
    {
      r := b;
      var p := 0;
      while p < |pegs|
        invariant p <= |pegs|
        invariant r == PegPass(b, k, pegs[..p], e, geom, draw)
      {
        r := BounceOffPeg(r, pegs[p], e, geom, draw(k, p));
        assert pegs[..p + 1][..p] == pegs[..p];
        p := p + 1;
      }
      assert pegs[..p] == pegs;
    }

    /**
      The body of the pairwise loop of `update`: two overlapping balls that
      approach each other take the impulse in opposite directions and are
      each moved apart by half the overlap.
    */
    method ResolvePair(b1: Ball, b2: Ball, geom: (real, real) -> Contact) returns (ball1: Ball, ball2: Ball)
      ensures ball1 == PairStep(b1, b2, geom).0 && ball2 == PairStep(b1, b2, geom).1
    {
      ball1, ball2 := b1, b2;
      var c := geom(b2.x - b1.x, b2.y - b1.y);
      if c.distance < BallRadius * 2.0 && c.distance != 0.0 {
        var normalVelocity := (b2.vx - b1.vx) * c.nx + (b2.vy - b1.vy) * c.ny;
        if normalVelocity < 0.0 {
          var impulse := -(1.0 + PairRestitution) * normalVelocity;
          var overlap := (BallRadius * 2.0) - c.distance;
          var moveX, moveY := (overlap * c.nx) / 2.0, (overlap * c.ny) / 2.0;
          ball1 := b1.(vx := b1.vx - impulse * c.nx, vy := b1.vy - impulse * c.ny, x := b1.x - moveX, y := b1.y - moveY);
          ball2 := b2.(vx := b2.vx + impulse * c.nx, vy := b2.vy + impulse * c.ny, x := b2.x + moveX, y := b2.y + moveY);
        }
      }
    }

    /** The pairwise loop of `update`: every pair i < j of the list, in index order. */
    method CollideAllPairs(geom: (real, real) -> Contact)
      modifies this`balls
      ensures balls == PairSweep(old(balls), 0, geom)
    {
      var n := |balls|;
      var i := 0;
      while i < n
        invariant i <= n == |balls|
        invariant PairSweep(balls, i, geom) == PairSweep(old(balls), 0, geom)
      {
        ghost var atRow := balls;
        var j := i + 1;
        while j < n
          invariant i + 1 <= j <= n == |balls|
          invariant PairRow(balls, i, j, geom) == PairRow(atRow, i, i + 1, geom)
        {
          var ball1, ball2 := ResolvePair(balls[i], balls[j], geom);
          balls := balls[i := ball1][j := ball2];
          j := j + 1;
        }
        i := i + 1;
      }
    }

    /**
      The scoring step of `update` for one ball: below the score line and
      not yet scored, the first zone holding the ball's x pays
      value * Multipliers[i] * reward, and the ball is marked scored either way.
    */
    method ScoreBall(b: Ball, reward: real) returns (ball: Ball, winAmount: real)
      requires |scoreZones| <= |Multipliers|
      ensures ball == Settle(b, scoreZones, reward).0 && winAmount == Settle(b, scoreZones, reward).1
    {
      ball, winAmount := b, 0.0;
      if ball.y > ScoreLine && !ball.scored {
        var zoneIndex := FindZone(scoreZones, ball.x);
        if zoneIndex >= 0 {
          winAmount := ball.value * Multipliers[zoneIndex] * reward;
        }
        ball := ball.(scored := true);
      }
    }

    /** The `forEach` body of `update` for ball k, with restitution e and reward factor `reward`. */
    method TakeTurn(k: nat, e: real, reward: real, geom: (real, real) -> Contact, draw: (nat, nat) -> real)
      requires k < |balls| && |scoreZones| <= |Multipliers|
      modifies this`balls, this`money
      ensures balls == BallTurn(old(balls), k, pegs, scoreZones, e, reward, geom, draw).0
      ensures money == old(money) + BallTurn(old(balls), k, pegs, scoreZones, e, reward, geom, draw).1
    {
      var ball := balls[k];
      ball := ball.(vy := ball.vy + Gravity);
      ball := ball.(x := ball.x + ball.vx, y := ball.y + ball.vy);
      assert ball == Integrate(old(balls)[k]);
      ball := CollideWithPegs(ball, k, e, geom, draw);
      balls := balls[k := ball];
      CollideAllPairs(geom);
      ball := balls[k];
      if OutsideWalls(ball) {
        ball := ball.(vx := ball.vx * WallFactor);
      }
      assert ball == ReflectOffWalls(balls[k]);
      var winAmount;
      ball, winAmount := ScoreBall(ball, reward);
      money := money + winAmount;
      balls := balls[k := ball];
    }

    /**
      One frame: each ball in turn is moved, bounced off the pegs, the whole
      pairwise loop is run, and the ball is reflected at the walls and
      settled; then the balls below the removal line are dropped. The result
      is the frame function Turns followed by the filter; on the board as
      built no zone matches, so the money does not change.
    */
    method Update(geom: (real, real) -> Contact, draw: (nat, nat) -> real)
      requires Valid()
      modifies this`balls, this`money
      ensures Valid()
      ensures var f := Turns(old(balls), |old(balls)|, pegs, scoreZones, Restitution(), RewardFactor(), geom, draw);
        balls == OnBoard(f.0) && money == old(money) + f.1
      ensures money == old(money)
    {
      var e, reward := BouncinessValues[bouncinessLevel], RewardMultipliers[rewardLevel];
      ghost var start := balls;
      RunTurns(e, reward, geom, draw);
      ghost var f := Turns(start, |start|, pegs, scoreZones, e, reward, geom, draw);
      TurnsPayNothingOnBoard(start, |start|, pegs, e, reward, geom, draw);
      TurnsAdvance(start, |start|, pegs, scoreZones, e, reward, geom, draw);
      OnBoardKeepsValue(start, f.0, BallCost);
      assert e == Restitution() && reward == RewardFactor();
      assert money == old(money) + f.1 && f.1 == 0.0;
      balls := OnBoard(balls);
    }

    /** The `forEach` over the balls: takes every ball's turn in list order. */
    method RunTurns(e: real, reward: real, geom: (real, real) -> Contact, draw: (nat, nat) -> real)
      requires |scoreZones| <= |Multipliers|
      modifies this`balls, this`money
      ensures balls == Turns(old(balls), |old(balls)|, pegs, scoreZones, e, reward, geom, draw).0
      ensures money == old(money) + Turns(old(balls), |old(balls)|, pegs, scoreZones, e, reward, geom, draw).1
    {
      var n := |balls|;
      var k := 0;
      while k < n
        invariant k <= n == |balls| == |old(balls)|
        invariant balls == Turns(old(balls), k, pegs, scoreZones, e, reward, geom, draw).0
        invariant money == old(money) + Turns(old(balls), k, pegs, scoreZones, e, reward, geom, draw).1
      {
        TurnsStep(old(balls), k, pegs, scoreZones, e, reward, geom, draw);
        TakeTurn(k, e, reward, geom, draw);
        k := k + 1;
      }
    }
  }
}
