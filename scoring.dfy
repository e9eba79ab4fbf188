/**
  The end of a ball's turn in `Plinko.update` (index.js): the once-only
  scoring rule with the first-match zone lookup (`findIndex`), and the
  removal filter applied after all balls have moved.
*/
module Scoring {
  import opened Board
  import opened Physics

  /** `canvas.height - zoneHeight`: a ball below this line is settled. */
  const ScoreLine: real := Height - ZoneHeight
  /** `canvas.height + ballRadius`: a ball is kept while its y is above this line. */
  const RemovalLine: real := Height + BallRadius

  /** `findIndex`: the first zone whose interval holds x, or -1 when there is none. */
  function FindZone(zones: seq<Zone>, x: real): (i: int)
    ensures -1 <= i < |zones|
    ensures 0 <= i ==> Contains(zones[i], x)
    ensures 0 <= i ==> forall k :: 0 <= k < i ==> !Contains(zones[k], x)
    ensures i == -1 <==> forall k :: 0 <= k < |zones| ==> !Contains(zones[k], x)
  {
    if zones == [] then -1
    else if Contains(zones[0], x) then 0
    else
      var j := FindZone(zones[1..], x);
      if j == -1 then -1 else j + 1
  }

  /**
    The scoring step for one ball, returning the ball and the amount won:
    below the score line and not yet scored, the ball is marked scored
    whether or not a zone matched, and a matching zone i pays
    value * Multipliers[i] * reward. Nothing but the scored flag changes,
    and nothing is paid for a ball that was already scored or is above the line.
  */
  function Settle(b: Ball, zones: seq<Zone>, reward: real): (r: (Ball, real))
    requires |zones| <= |Multipliers|
    ensures r.0 == b.(scored := r.0.scored)
    ensures r.0.scored == (b.scored || b.y > ScoreLine)
    ensures r.1 != 0.0 ==> !b.scored && b.y > ScoreLine
  {
    if b.y > ScoreLine && !b.scored then
      var i := FindZone(zones, b.x);
      var win := if i >= 0 then b.value * Multipliers[i] * reward else 0.0;
      (b.(scored := true), win)
    else (b, 0.0)
  }

  /** A ball is credited at most once: settling a settled ball changes nothing and pays nothing. */
  lemma SettleOnce(b: Ball, zones: seq<Zone>, reward: real)
    requires |zones| <= |Multipliers|
    ensures var s := Settle(b, zones, reward).0;
      Settle(s, zones, reward) == (s, 0.0)
  {
  }

  /** The payout of a ball that crosses the line is that of the FIRST zone holding its x. */
  lemma SettlePaysFirstMatch(b: Ball, zones: seq<Zone>, reward: real, i: nat)
    requires |zones| <= |Multipliers| && i < |zones|
    requires !b.scored && b.y > ScoreLine
    requires Contains(zones[i], b.x) && forall k :: 0 <= k < i ==> !Contains(zones[k], b.x)
    ensures Settle(b, zones, reward) == (b.(scored := true), b.value * Multipliers[i] * reward)
  {
    var j := FindZone(zones, b.x);
    assert j >= 0;
    assert j == i;
    assert Settle(b, zones, reward).0 == b.(scored := true);
    assert Settle(b, zones, reward).1 == b.value * Multipliers[i] * reward;
  }

  /** A ball that crosses the line where no zone lies is marked scored and wins nothing. */
  lemma SettleMisses(b: Ball, zones: seq<Zone>, reward: real)
    requires |zones| <= |Multipliers|
    requires !b.scored && b.y > ScoreLine
    requires forall k :: 0 <= k < |zones| ==> !Contains(zones[k], b.x)
    ensures Settle(b, zones, reward) == (b.(scored := true), 0.0)
  {
  }

  /** Every base multiplier is positive. */
  lemma MultipliersPositive(i: nat)
    requires i < |Multipliers|
    ensures Multipliers[i] > 0.0
  {
    assert Multipliers[i] in Multipliers;
  }

  /** A ball of non-negative value under a non-negative reward multiplier never wins a negative amount. */
  lemma SettlePayoutNonNegative(b: Ball, zones: seq<Zone>, reward: real)
    requires |zones| <= |Multipliers|
    requires b.value >= 0.0 && reward >= 0.0
    ensures Settle(b, zones, reward).1 >= 0.0
  {
    var i := FindZone(zones, b.x);
    if b.y > ScoreLine && !b.scored && i >= 0 {
      MultipliersPositive(i);
      var m := Multipliers[i];
      assert b.value * m >= 0.0;
      assert b.value * m * reward >= 0.0;
    }
  }

  /**
    On the board as built, the zone width is negative and no zone holds any
    x: a ball crossing the score line is marked scored and wins nothing.
  */
  lemma BoardNeverPays(b: Ball, reward: real)
    ensures |ZoneLayout()| <= |Multipliers|
    ensures Settle(b, ZoneLayout(), reward).1 == 0.0
    ensures Settle(b, ZoneLayout(), reward).0.scored == (b.scored || b.y > ScoreLine)
  {
    ActualZonePlacement();
    forall k | 0 <= k < |ZoneLayout()|
      ensures !Contains(ZoneLayout()[k], b.x)
    {
      NoZoneContains(k, b.x);
    }
  }

  /** The removal filter: the balls still above the removal line, in their original order. */
  function OnBoard(bs: seq<Ball>): (r: seq<Ball>)
    ensures |r| <= |bs|
    ensures forall b :: b in r <==> b in bs && b.y < RemovalLine
  {
    if bs == [] then []
    else
      var rest := OnBoard(bs[..|bs| - 1]);
      var last := bs[|bs| - 1];
      if last.y < RemovalLine then rest + [last] else rest
  }

  /**
    The filter works ball by ball and keeps order: filtering a concatenation
    is concatenating the filtered parts, so a ball kept before another in
    the list stays before it.
  */
  lemma {:induction false} OnBoardAppend(a: seq<Ball>, c: seq<Ball>)
    ensures OnBoard(a + c) == OnBoard(a) + OnBoard(c)
    decreases |c|
  {
    if c == [] {
      assert a + c == a;
    } else {
      var n := |c| - 1;
      assert (a + c)[..|a + c| - 1] == a + c[..n];
      assert (a + c)[|a + c| - 1] == c[n];
      OnBoardAppend(a, c[..n]);
    }
  }

  /** A single ball is kept exactly when it is above the removal line. */
  lemma OnBoardSingle(b: Ball)
    ensures OnBoard([b]) == if b.y < RemovalLine then [b] else []
  {
    assert [b][..0] == [];
  }
}
