# Plinko and inventory: a Dafny model

This project models the two state-holding components of a browser Plinko game.

- **The `Plinko` game object (index.js).** It holds the player's money, three upgrade tracks, the balls in play and the static board. The tracks are auto-drop cadence, peg bounciness and reward multiplier. The board is a triangle of 102 pegs and a row of 15 score zones.
  - The model covers building the board, buying upgrades and dropping balls.
  - It also covers one frame of `update`:
    - gravity and position integration;
    - the ball–peg impulse with its random kick;
    - the ball–ball impulse over every pair;
    - the wall reflection;
    - the once-only scoring rule;
    - the removal filter.
- **The `Inventory` object (inventory.js).** It holds a grid of 30 slots, each with an item and a quantity, and the state of a drag-and-drop between two slots.
  - The model covers creating the grid, adding an item to the first empty slot, the drag handlers, the swap on drop, and buying a random item through the purchase callback.

JavaScript numbers are modelled as exact `real`s.

`Math.sqrt` and the division that normalise a collision offset enter as a function parameter `geom: (real, real) -> Contact`. It gives the distance and the normal of an offset. Properties that need the true geometry assume `ExactAt`: a positive distance, and a unit normal with offset = distance · normal.

`Math.random()` enters as a parameter:
- `draw(k, p)`, the draw for ball k at peg p;
- `draw` in [0, 1) in `BuyItem`.

The answer of the purchase callback is the parameter `approved`.

Modules:
- `Wrappers`: `Option`.
- `Board`: peg and zone layout.
- `Physics`: `Ball`, integration, impulses, the pairwise sweep, walls.
- `Scoring`: the zone lookup, settling a ball, the removal filter.
- `PlinkoGame`: the class `Plinko` and the frame function `Turns`.
- `Inventory`: the class `Inventory` over an `array<Slot>`.

The methods of both classes change their fields in place. Each loop is proved against a specification function:
- `InitializePegs` against `PegLayout`;
- `InitializeScoreZones` against `ZonesOver`;
- `CollideWithPegs` against `PegPass`;
- `CollideAllPairs` against `PairSweep`;
- `Update` against `Turns` followed by `OnBoard`;
- `FindEmptySlot` against `FirstEmpty`.

Lemmas then prove what the game promises about those functions.

## Behaviour of the code worth knowing

The model follows the code in each of these cases. The first two contradict what index.js itself states: the comment at index.js:74 says the zone width is "based on the width of the bottom row of pegs", and the constant `restitution = 0.5` at index.js:243 names a restitution the pair impulse does not produce.

- **Zone width is negative.** `initializeScoreZones` takes the last 15 pegs, but the bottom row holds only 14.
  - The first two pegs of that slice are therefore the last peg of row 10 (510, 415) and the first peg of row 11 (72.5, 450).
  - So the zone width is (72.5 − 510) / 14 = −31.25, and the zones start at x = 534.375, at y = 485.
  - With a negative width, the interval test of the zone lookup holds for no x. No ball ever wins anything, and `Update` provably leaves the money unchanged.
  - See `Board.ActualZoneWidth`, `Board.NoZoneContains`, `Scoring.BoardNeverPays` and `PlinkoGame.Plinko.Update`.
- **Ball–ball separation is twice the approach speed.** The impulse −(1 + 0.5)·vn is applied in full to each of the two balls.
  - So for a unit normal the relative normal velocity afterwards is −2·vn. The pair separates twice as fast as it approached, not at 0.5 of the approach speed.
  - See `Physics.PairBounceSeparationSpeed` and `Physics.PairStepResolvesOverlap`.
- **The pairwise loop runs once per ball.** It sits inside the per-ball `forEach`, so every pair is examined once per ball per frame, not once per frame.
  - The pair loop also runs after ball k's own peg pass and before ball k's wall and scoring steps. A ball can therefore be moved again by the pair loop before it is scored.
  - See `PlinkoGame.BallTurn`.
- **Integration is semi-implicit.** Gravity is added to the vertical velocity first, and the position then moves by the new velocity.
  - A ball dropped from rest has fallen 0.1·t·(t + 1) after t frames, as long as it touches no peg, ball or wall.
  - See `Physics.FreeFallFromRest`.
- **A zero distance gives no bounce.** The code has no guard for a zero distance. It divides by zero, gets a NaN normal, and `NaN < 0` is false, so nothing happens.
  - The model writes this as an explicit `distance != 0` test.
- **Payouts read the board's multiplier list.** They use `multipliers[zoneIndex]`, not the zone's own `multiplier` field. The two hold the same values.
- **A purchase can be lost.** `buyItem` asks the purchase callback before it knows whether a slot is free.
  - An approved purchase with a full grid therefore adds nothing. `BuyItem` reports `purchased` and `added` separately.

## Model

| member | source | states |
|---|---|---|
| Board.Contains | index.js:273-275 | the closed interval test of the zone lookup; with a negative width it holds for no x (NoZoneContains) |
| Board.PegAt | index.js:60-68 | peg i of row r; its row lies at y = (r + 1)·35 + 30, its pegs are 35 apart and symmetric about x = 300 (PegRowGeometry) |
| Board.RowPegs | index.js:59-69 | row r holds 3 + r pegs, and its peg i is PegAt(r, i) |
| Board.PegRows | index.js:59-70 | the first n rows, pushed top to bottom, hold RowStart(n) pegs |
| Board.PegLayout | index.js:54-71 | the peg list `initializePegs` builds: 102 pegs (PegCount), peg i of row r at index RowStart(r) + i (PegRowsAt) |
| Board.PegRowGeometry | index.js:59-69 | row r lies at y = (r + 1)·35 + 30, its neighbouring pegs are 35 apart, and the row is symmetric about x = 300 |
| Board.RowStartClosedForm | index.js:55-60 | the first peg of row r sits at index r(r − 1)/2 + 3r of the peg list |
| Board.PegRowsAt | index.js:59-70 | peg i of row r is element RowStart(r) + i of the list |
| Board.PegCount | index.js:54-71 | the board holds 102 pegs |
| Board.BottomRow | index.js:75 | `slice(-15)`: the last 15 pegs, or all of them when there are fewer, in order |
| Board.ZoneWidthOver | index.js:76 | the zone width from the first two pegs of the slice; −31.25 on the board as built (ActualZoneWidth) |
| Board.ZoneAt | index.js:77-88 | zone i; consecutive zones touch (ZoneAtAdjacent) and the row is centred on x = 300 (ZoneRowCentred) |
| Board.ZonesOver | index.js:82-89 | one zone per multiplier |
| Board.ZonesOverShape | index.js:76-89 | 15 zones of one width, zone i carrying multiplier i, each starting where the previous ends, the row centred on x = 300 |
| Board.ZoneAtAdjacent | index.js:77-84 | zone i ends exactly where zone i + 1 starts |
| Board.ZoneRowCentred | index.js:77-79 | the row of 15 zones is centred on x = 300, whatever the zone width |
| Board.ZoneLayout | index.js:47-48 | the board has one zone per multiplier |
| Board.ActualZoneWidth | index.js:75-76 | the slice starts at peg (510, 415) of row 10, then (72.5, 450) of row 11, so the zone width is −31.25 |
| Board.ActualZonePlacement | index.js:77-85 | the first zone starts at x = 534.375 and y = 485, and the last at x = 96.875 |
| Board.NoZoneContains | index.js:273-275 | no x lies in any zone of the board |
| Physics.Integrate | index.js:170-174 | one frame of motion; t frames from rest give vy = 0.2t and a fall of 0.1t(t + 1) (FreeFallFromRest) |
| Physics.FreeFallFromRest | index.js:170-174 | after t free frames from rest, vy = 0.2t and the ball has fallen 0.1t(t + 1), with x, value and scored unchanged |
| Physics.PegBounce | index.js:202-214 | the impulse, the kick and the push; for a unit normal the normal velocity becomes −e·vn apart from the kick (PegBounceReflects) and the centre ends R from the peg (PegBounceClears) |
| Physics.PegBounceReflects | index.js:194-206 | for a unit normal, apart from the random kick, the bounce turns the normal velocity vn into −e·vn and keeps the tangential velocity |
| Physics.JitterBound | index.js:209 | the random horizontal kick is within [−0.4, 0.4) |
| Physics.PegStep | index.js:177-217 | a peg step never changes a ball's value or scored flag |
| Physics.PegStepResolvesOverlap | index.js:182-215 | with exact geometry, an overlapping ball that approaches the peg leaves with normal velocity −e·vn plus the normal component of the horizontal kick, exactly 15 from the peg's centre |
| Physics.PegBounceClears | index.js:212-214 | the push along an exact unit normal puts the ball's centre at distance R from the peg |
| Physics.PegPass | index.js:177-217 | the peg loop over all pegs keeps the ball's value and scored flag |
| Physics.PairBounce | index.js:243-260 | the impulse and the half-overlap moves; the two balls change by equal and opposite amounts (PairBounceEqualAndOpposite) |
| Physics.PairBounceEqualAndOpposite | index.js:243-260 | for any normal, the two balls change by equal and opposite amounts, so the summed velocities and positions are unchanged |
| Physics.PairBounceSeparationSpeed | index.js:239-250 | for a unit normal, the relative normal velocity becomes −(1 + 2·0.5)·vn, and the tangential relative velocity is kept |
| Physics.PairStep | index.js:222-262 | one (i, j) iteration; it keeps the pair's sums, values and flags (PairStepEqualAndOpposite) and resolves an approaching overlap (PairStepResolvesOverlap) |
| Physics.PairStepEqualAndOpposite | index.js:222-262 | one (i, j) iteration keeps the summed velocities and positions of the pair, and their values and scored flags |
| Physics.PairStepResolvesOverlap | index.js:229-260 | with exact geometry, overlapping, approaching balls leave at −2·vn along the normal, with centres exactly 20 apart |
| Physics.PairBounceClears | index.js:253-260 | the half-overlap moves along an exact unit normal put the two centres R apart |
| Physics.CollidePair | index.js:222-262 | one iteration keeps the list length and every ball other than i and j |
| Physics.PairRow | index.js:221-263 | the inner loop keeps the list length |
| Physics.PairSweep | index.js:220-264 | the whole pair loop keeps the list length |
| Physics.CollidePairConserves | index.js:243-260 | one iteration keeps the total of each coordinate over all balls, and every ball's value and scored flag |
| Physics.PairRowConserves | index.js:221-263 | the inner loop keeps those totals and flags |
| Physics.PairSweepConserves | index.js:220-264 | the whole pair loop keeps total momentum and the centre of mass, and touches no value or scored flag |
| Physics.OutsideWalls | index.js:267 | the wall test: x < 10 or x > 590 |
| Physics.ReflectOffWalls | index.js:267-269 | outside the walls vx becomes −0.8·vx and nothing else changes (WallReflection) |
| Physics.WallReflection | index.js:267-269 | outside [10, 590] only vx changes, to −0.8·vx; speed never grows; a ball left of the wall moving right is turned outward; inside nothing changes |
| Scoring.FindZone | index.js:273-275 | the index of the first zone containing x, or −1 exactly when none does |
| Scoring.Settle | index.js:272-285 | only the scored flag changes; it becomes true when the ball is below 490; nothing is paid unless the ball was unscored and below 490 |
| Scoring.SettleOnce | index.js:272-284 | settling a settled ball changes nothing and pays nothing, so a ball is credited at most once |
| Scoring.SettlePaysFirstMatch | index.js:273-283 | an unscored ball below the line whose first containing zone is i wins value · multipliers[i] · reward and is marked scored |
| Scoring.SettleMisses | index.js:277-284 | an unscored ball below the line that no zone contains is marked scored and wins nothing |
| Scoring.MultipliersPositive | index.js:22 | every base multiplier is positive |
| Scoring.SettlePayoutNonNegative | index.js:278-281 | with non-negative value and reward factor, the payout is non-negative |
| Scoring.BoardNeverPays | index.js:272-285 | on the board as built, settling pays nothing and still marks a ball below the line as scored |
| Scoring.OnBoard | index.js:289 | the filter keeps exactly the balls with y < 560 and never lengthens the list |
| Scoring.OnBoardAppend | index.js:289 | filtering a concatenation concatenates the filtered parts, so order is kept |
| Scoring.OnBoardSingle | index.js:289 | a single ball is kept exactly when y < 560 |
| PlinkoGame.UpgradeCost | index.js:106 | base · 2^level; level 0 costs the base and each level doubles (UpgradeCostDoubles) |
| PlinkoGame.UpgradeCostDoubles | index.js:106 | level 0 costs the base price, which is positive, and each further level costs twice the one before |
| PlinkoGame.FullTrackCost | index.js:106-110 | taking a track from level 0 to 3 costs seven times its base price |
| PlinkoGame.BallTurn | index.js:168-286 | one `forEach` turn keeps the list length |
| PlinkoGame.Turns | index.js:168-286 | the first n turns keep the list length |
| PlinkoGame.BallTurnAdvances | index.js:168-286 | a turn keeps every value and every set scored flag, and a ball already scored wins nothing |
| PlinkoGame.TurnsAdvance | index.js:168-286 | a whole frame keeps every ball's value and every set scored flag |
| PlinkoGame.TurnsPayoutNonNegative | index.js:278-281 | with non-negative values and reward factor, a frame never takes money away |
| PlinkoGame.TurnsPayNothingOnBoard | index.js:272-283 | on the board as built, a frame wins nothing |
| PlinkoGame.OnBoardKeepsValue | index.js:162 | the filter keeps only balls worth what the balls were worth before the frame |
| PlinkoGame.Plinko.Restitution | index.js:199 | the bounciness in use lies between 0.5 and 1 |
| PlinkoGame.Plinko.RewardFactor | index.js:279 | the reward factor in use lies between 1 and 3 |
| PlinkoGame.Plinko.constructor | index.js:2-52 | a new game has 1000 money, no balls, every track at level 0, no timer, and the board of `initializePegs` and `initializeScoreZones` |
| PlinkoGame.Plinko.InitializePegs | index.js:54-71 | appends exactly the peg layout to the peg list |
| PlinkoGame.Plinko.AppendRow | index.js:60-69 | the inner loop appends exactly the pegs of row r, left to right |
| PlinkoGame.Plinko.InitializeScoreZones | index.js:73-90 | appends exactly the zones built from the peg list |
| PlinkoGame.Plinko.BuyUpgrade | index.js:104-128 | succeeds iff money ≥ base · 2^level and level < 3; on success money drops by that cost, the track rises one level and buying auto-drop restarts the timer; otherwise nothing changes; other tracks never change |
| PlinkoGame.Plinko.UpdateAutoDrop | index.js:130-141 | the timer now runs at the period of the current auto-drop level |
| PlinkoGame.Plinko.DropBall | index.js:143-155 | with money ≥ 10, takes 10 and appends one ball at (300, 20), at rest, worth 10 and unscored; otherwise money and balls are unchanged and the timer is stopped |
| PlinkoGame.Plinko.CreateBall | index.js:157-165 | appends exactly one ball at (x, 20), at rest, worth 10 and unscored |
| PlinkoGame.Plinko.AutoDropTick | index.js:136-140 | a timer firing drops a ball only when money ≥ 10, and otherwise changes nothing |
| PlinkoGame.Plinko.BounceOffPeg | index.js:178-215 | the imperative peg-loop body computes PegStep |
| PlinkoGame.Plinko.CollideWithPegs | index.js:177-217 | the peg loop computes PegPass over all pegs |
| PlinkoGame.Plinko.ResolvePair | index.js:222-261 | the imperative pair-loop body computes PairStep |
| PlinkoGame.Plinko.CollideAllPairs | index.js:220-264 | the nested pair loops leave the list equal to PairSweep of the old list |
| PlinkoGame.Plinko.ScoreBall | index.js:272-285 | the scoring branch computes Settle: the ball and the amount won |
| PlinkoGame.Plinko.TakeTurn | index.js:168-285 | one `forEach` turn leaves the list and money as BallTurn says |
| PlinkoGame.Plinko.RunTurns | index.js:168-286 | the `forEach` over all balls leaves the list and money as Turns says |
| PlinkoGame.Plinko.Update | index.js:167-290 | after a frame, the balls are the filtered result of Turns and money grows by its winnings; on this board the money is unchanged; all invariants (money ≥ 0, levels ≤ 3, ball values 10) are kept |
| Inventory.EmptySlot | inventory.js:90-94 | the slot (i, no item, 0) that `initialize` pushes; Initialize leaves slot i equal to it |
| Inventory.FirstEmpty | inventory.js:190 | the index of the first slot with no item, or −1 exactly when every slot holds one |
| Inventory.Stocked | inventory.js:191-193 | the chosen slot holds one of the item under its own id, and every other slot is unchanged |
| Inventory.Swapped | inventory.js:166-174 | source and target exchange item and quantity, keep their ids, and every other slot is unchanged |
| Inventory.SwapTwice | inventory.js:166-174 | swapping the same two slots twice restores the slots |
| Inventory.SwapPermutes | inventory.js:166-174 | a swap keeps the multiset of (item, quantity) contents |
| Inventory.StockedOccupies | inventory.js:189-195 | filling an empty slot raises the number of occupied slots by exactly one |
| Inventory.FullMeansNoEmpty | inventory.js:190-197 | when every slot is occupied, the search finds no empty slot |
| Inventory.ItemIndex | inventory.js:218 | floor(draw · 5) for a draw in [0, 1) is a catalogue index within one of draw · 5 |
| Inventory.Inventory.constructor | inventory.js:2-70 | a new inventory has a newly allocated slot array, no drag and no callback; it has 30 empty slots with ids 0..29 when the grid exists, whatever maxSlots is, and no slots otherwise |
| Inventory.Inventory.SetPurchaseCallback | inventory.js:73-75 | records whether a callback is set |
| Inventory.Inventory.Initialize | inventory.js:77-118 | without the grid nothing changes; otherwise exactly 30 new slots, slot i being (i, no item, 0) |
| Inventory.Inventory.HandleDragStart | inventory.js:120-127 | a drag starts, recording the slot, only from a slot holding an item; otherwise the drag state is unchanged |
| Inventory.Inventory.HandleDragEnd | inventory.js:129-137 | the drag state is always reset to not dragging and no slot |
| Inventory.Inventory.HandleDrop | inventory.js:157-179 | while dragging onto another slot, the two slots are Swapped; otherwise no slot changes |
| Inventory.Inventory.FindEmptySlot | inventory.js:190 | the search loop returns FirstEmpty of the slots |
| Inventory.Inventory.AddItem | inventory.js:189-198 | succeeds iff some slot is empty, and then stocks the first empty slot with quantity 1 and nothing else; otherwise no slot changes |
| Inventory.Inventory.BuyItem | inventory.js:217-228 | picks item floor(draw · 5); the purchase goes through iff a callback is set and approves; the item is added iff the purchase went through and a slot is free, and otherwise no slot changes |

## Left out

- Drawing, the canvas and every DOM access are not modelled, because they are presentation only. This covers:
  - `draw` in index.js;
  - `textContent`, button labels and `alert`;
  - `updateSlot`, and the CSS classes set by the drag handlers.
- `handleDragOver`, `handleDragEnter` and `handleDragLeave` are not modelled. They only prevent the browser default and toggle CSS classes.
- Timers and the frame loop are not modelled, because scheduling belongs to the host. This covers `setInterval`/`clearInterval`, `requestAnimationFrame`, `gameLoop` and the load listener.
  - The running timer is the field `autoDropInterval`, holding its period.
  - A firing is the method `AutoDropTick`.
- The event-listener setup is not modelled: `setupEventListeners`, `setupUpgradeListeners`, and the listeners registered in `initialize`. The operations those listeners call are modelled.
- `Math.sqrt` and the normal's division are the parameter `geom`; they are not computed. Geometric facts hold under the assumption `ExactAt`.
- `Math.random` is a parameter, not modelled. The game draws only at a peg bounce, while `draw(k, p)` offers a value for every ball–peg pair.
- IEEE-754 rounding, `NaN` and `toFixed` are not modelled: numbers are exact reals. A NaN normal is modelled by its effect, which is no bounce.
- `handleClick` and the items' `use` closures are not modelled; they only log to the console. The `icon` and `description` fields of the catalogue are also left out.
- The purchase callback is not modelled beyond its answer. The code passes it the item and its cost, but what it does with them (charging money, say) is outside inventory.js.
- PlinkoGame.Plinko.Update: the money result relies on the board as built. The general relation, money grows by the frame's winnings, is stated alongside it. Positions and velocities after a frame are given only through `Turns`, which is not solved in closed form.
- Physics.PegStepResolvesOverlap and Physics.PairStepResolvesOverlap hold only where `geom` is exact. Rounding of the true square root is not modelled.
