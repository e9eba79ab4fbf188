/**
  The static board: the triangular peg layout built by `initializePegs` and
  the row of score zones built by `initializeScoreZones` (index.js).
  JavaScript doubles are modelled as exact reals.
*/
module Board {

  // Canvas and body dimensions set in the Plinko constructor.
  const Width: real := 600.0
  const Height: real := 550.0
  const PegRadius: real := 5.0
  const BallRadius: real := 10.0
  const ZoneHeight: real := 60.0

  // Layout constants of initializePegs / initializeScoreZones.
  const Rows: nat := 12
  const StartPegs: nat := 3
  const Spacing: real := 35.0
  const TopOffset: real := 30.0
  const ZoneGap: real := 70.0

  /** The base multiplier of each score zone, left to right. */
  const Multipliers: seq<real> :=
    [40.0, 15.0, 10.0, 5.0, 2.0, 0.5, 0.2, 0.2, 0.2, 0.5, 2.0, 5.0, 10.0, 15.0, 40.0]

  datatype Peg = Peg(x: real, y: real)

  datatype Zone = Zone(x: real, width: real, y: real, height: real, multiplier: real)

  /** The horizontal test of the scoring `findIndex`: x lies within [zone.x, zone.x + zone.width]. */
  predicate Contains(z: Zone, x: real)
  {
    z.x <= x <= z.x + z.width
  }

  // ---------------------------------------------------------------------
  // Pegs
  // ---------------------------------------------------------------------

  /** Row r holds StartPegs + r pegs. */
  function PegsInRow(r: nat): nat
  {
    StartPegs + r
  }

  /** Index in the peg list of the first peg of row r (rows are pushed top to bottom). */
  function RowStart(r: nat): nat
  {
    if r == 0 then 0 else RowStart(r - 1) + PegsInRow(r - 1)
  }

  /** Peg i of row r: the row is `PegsInRow(r) * Spacing` wide and centred on the canvas. */
  function PegAt(r: nat, i: nat): Peg
  {
    var rowWidth := (PegsInRow(r) as real) * Spacing;
    var startX := (Width - rowWidth) / 2.0;
    Peg(startX + (i as real) * Spacing + Spacing / 2.0, ((r + 1) as real) * Spacing + TopOffset)
  }

  /** The pegs of row r, left to right. */
  function RowPegs(r: nat): (row: seq<Peg>)
    ensures |row| == PegsInRow(r)
    ensures forall i :: 0 <= i < |row| ==> row[i] == PegAt(r, i)
  {
    seq(PegsInRow(r), i requires 0 <= i < PegsInRow(r) => PegAt(r, i))
  }

  /** The pegs of the first n rows, in the order initializePegs pushes them. */
  function PegRows(n: nat): (ps: seq<Peg>)
    ensures |ps| == RowStart(n)
  {
    if n == 0 then [] else PegRows(n - 1) + RowPegs(n - 1)
  }

  /** The complete peg list of the board. */
  function PegLayout(): seq<Peg>
  {
    PegRows(RowCount())
  }

  /**
    The number of rows, behind a function call so that the verifier does not
    evaluate the whole peg layout wherever it is mentioned.
  */
  function RowCount(): nat
  {
    Rows
  }

  /** Row r sits at y = (r + 1) * 35 + 30, its pegs are 35 apart and the row is symmetric about x = 300. */
  lemma PegRowGeometry(r: nat, i: nat)
    requires i < PegsInRow(r)
    ensures PegAt(r, i).y == ((r + 1) as real) * Spacing + TopOffset
    ensures i + 1 < PegsInRow(r) ==> PegAt(r, i + 1).x - PegAt(r, i).x == Spacing
    ensures PegAt(r, i).x + PegAt(r, PegsInRow(r) - 1 - i).x == Width
  {
  }

  /** Closed form of the row offsets: 3 + 4 + ... + (r + 2). */
  lemma {:induction false} RowStartClosedForm(r: nat)
    ensures 2 * RowStart(r) == r * (r - 1) + 2 * StartPegs * r
  {
    if r > 0 {
      RowStartClosedForm(r - 1);
    }
  }

  /** Peg i of row r sits at position RowStart(r) + i of the peg list. */
  lemma {:induction false} PegRowsAt(n: nat, r: nat, i: nat)
    requires r < n && i < PegsInRow(r)
    ensures RowStart(r) + i < |PegRows(n)|
    ensures PegRows(n)[RowStart(r) + i] == PegAt(r, i)
  {
    if r < n - 1 {
      PegRowsAt(n - 1, r, i);
    }
  }

  /** The board holds 102 pegs: rows of 3, 4, ..., 14. */
  lemma PegCount()
    ensures |PegLayout()| == 102
  {
    RowStartClosedForm(Rows);
  }

  // ---------------------------------------------------------------------
  // Score zones
  // ---------------------------------------------------------------------

  /** `pegs.slice(-15)`: the last |Multipliers| pegs, or all of them when there are fewer. */
  function BottomRow(pegs: seq<Peg>): (b: seq<Peg>)
    ensures |b| == if |pegs| >= |Multipliers| then |Multipliers| else |pegs|
    ensures forall k :: 0 <= k < |b| ==> b[k] == pegs[|pegs| - |b| + k]
  {
    if |pegs| >= |Multipliers| then pegs[|pegs| - |Multipliers|..] else pegs
  }

  /** The zone width initializeScoreZones derives from the first two pegs of that slice. */
  function ZoneWidthOver(pegs: seq<Peg>): real
    requires |pegs| >= 2
  {
    var b := BottomRow(pegs);
    (b[1].x - b[0].x) / ((|Multipliers| - 1) as real)
  }

  /** Zone i: the zones start where a row of |Multipliers| such widths would be centred. */
  function ZoneAt(pegs: seq<Peg>, i: nat): Zone
    requires |pegs| >= 2 && i < |Multipliers|
  {
    var w := ZoneWidthOver(pegs);
    var totalWidth := w * (|Multipliers| as real);
    var startX := (Width - totalWidth) / 2.0;
    Zone(startX + (i as real) * w, w, BottomRow(pegs)[0].y + ZoneGap, ZoneHeight, Multipliers[i])
  }

  /** The zones built from a peg list, one per multiplier. */
  function ZonesOver(pegs: seq<Peg>): (zs: seq<Zone>)
    requires |pegs| >= 2
    ensures |zs| == |Multipliers|
  {
    seq(|Multipliers|, i requires 0 <= i < |Multipliers| => ZoneAt(pegs, i))
  }

  /**
    Whatever the peg list, the zones are all of one width, carry the
    multipliers in order, each starts where the previous one ends, and the
    whole row is centred on the canvas.
  */
  lemma ZonesOverShape(pegs: seq<Peg>)
    requires |pegs| >= 2
    ensures var zs := ZonesOver(pegs);
      forall i :: 0 <= i < |zs| ==>
        zs[i].width == ZoneWidthOver(pegs) && zs[i].multiplier == Multipliers[i] && zs[i].height == ZoneHeight
    ensures var zs := ZonesOver(pegs);
      forall i :: 0 <= i < |zs| - 1 ==> zs[i].x + zs[i].width == zs[i + 1].x
    ensures var zs := ZonesOver(pegs);
      zs[0].x + (|zs| as real) * zs[0].width / 2.0 == Width / 2.0
  {
    var zs := ZonesOver(pegs);
    forall i | 0 <= i < |zs| - 1
      ensures zs[i].x + zs[i].width == zs[i + 1].x
    {
      ZoneAtAdjacent(pegs, i);
    }
    ZoneRowCentred(pegs);
  }

  /** Zone i ends where zone i + 1 starts. */
  lemma ZoneAtAdjacent(pegs: seq<Peg>, i: nat)
    requires |pegs| >= 2 && i + 1 < |Multipliers|
    ensures ZoneAt(pegs, i).x + ZoneAt(pegs, i).width == ZoneAt(pegs, i + 1).x
  {
    var w := ZoneWidthOver(pegs);
    assert ((i + 1) as real) * w == (i as real) * w + w;
  }

  /** The row of zones is centred on the canvas. */
  lemma ZoneRowCentred(pegs: seq<Peg>)
    requires |pegs| >= 2
    ensures ZoneAt(pegs, 0).x + (|Multipliers| as real) * ZoneAt(pegs, 0).width / 2.0 == Width / 2.0
  {
    var w := ZoneWidthOver(pegs);
    assert (|Multipliers| as real) == 15.0;
    assert ZoneAt(pegs, 0).x == (Width - w * 15.0) / 2.0;
  }

  /** Zone i as initializeScoreZones computes it from the width, the start and the y of the slice's first peg. */
  lemma ZoneAtFrom(pegs: seq<Peg>, i: nat, w: real, startX: real, y: real)
    requires |pegs| >= 2 && i < |Multipliers|
    requires w == ZoneWidthOver(pegs) && startX == (Width - w * (|Multipliers| as real)) / 2.0
    requires y == BottomRow(pegs)[0].y
    ensures ZoneAt(pegs, i) == Zone(startX + (i as real) * w, w, y + ZoneGap, ZoneHeight, Multipliers[i])
  {
  }

  /** The zones of the board. */
  function ZoneLayout(): (zs: seq<Zone>)
    ensures |zs| == |Multipliers|
  {
    PegCount();
    ZonesOver(PegLayout())
  }

  /**
    The slice of the last 15 pegs starts one peg early: the bottom row has
    only 14 pegs, so the slice begins with the last peg of row 10 (x = 510)
    followed by the first peg of row 11 (x = 72.5), and the zone width is
    (72.5 - 510) / 14, a negative number.
  */
  lemma ActualZoneWidth()
    ensures |PegLayout()| == 102
    ensures BottomRow(PegLayout())[0] == PegAt(10, 12) == Peg(510.0, 415.0)
    ensures BottomRow(PegLayout())[1] == PegAt(11, 0) == Peg(72.5, 450.0)
    ensures ZoneWidthOver(PegLayout()) == -31.25
  {
    PegCount();
    PegRowsAt(Rows, 10, 12);
    PegRowsAt(Rows, 11, 0);
  }

  /** Concretely: the first zone starts at x = 534.375 at y = 485, and the row of zones is still centred on x = 300. */
  lemma ActualZonePlacement()
    ensures |ZoneLayout()| == 15
    ensures ZoneLayout()[0].x == 534.375 && ZoneLayout()[0].y == 485.0
    ensures ZoneLayout()[14].x == 96.875
  {
    ActualZoneWidth();
    assert ZoneLayout()[0] == ZoneAt(PegLayout(), 0);
    assert ZoneLayout()[14] == ZoneAt(PegLayout(), 14);
  }

  /** With a negative width the interval test cannot hold: no x lies in any zone of the board. */
  lemma NoZoneContains(i: nat, x: real)
    requires i < |ZoneLayout()|
    ensures !Contains(ZoneLayout()[i], x)
  {
    ActualZoneWidth();
  }
}
