# Laser tank: a verified model of the game engine

Laser tank is a two-player, turn-based game played on an m x n grid (4 to 10 on each side).

- Each player owns a laser source in their own corner: player 1 at (0,0), player 2 at (m-1,n-1).
- Each player has a roster of tanks.
- The board is strewn with `/` and `\` mirrors that wear out after four hits.

A turn has three parts:
1. The player moves a tank, rotates a mirror or fires a tank directly.
2. The player fires the source's laser along one axis in both senses. The rays deflect off mirrors, destroy tanks and can hit the enemy source.
3. Broken mirrors are replaced at random free cells, and the laser paths are cleared.

A player wins by destroying every enemy tank, by moving onto or shooting the enemy source, or by having more tanks when someone leaves.

The model follows the single class `LaserTankGame` of `a.cpp`, in two layers.

- **Specification layer.** The state of the class is a value, `State.GameState`. Every operation is a function of that value:
  - `State`: the actions;
  - `Laser`: the ray simulation;
  - `Upkeep`: mirror maintenance and path clearing;
  - `MapGen`, `Placement` and `Setup`: the map generation;
  - `Turn`: the turn and the game loop.

  The properties the source promises are proved about these functions as lemmas. Examples are the reflection law, mirror wear, the order of the move outcomes, the win conditions, the map invariants and alternation of turns. They are proved with the invariant `State.Consistent`: the board is shaped, the sources sit in their corners, and every tank flag on a cell and every living roster entry name each other.
- **Imperative layer.** `Game.LaserTankGame` is a class with the source's own state:
  - an `array2<Cell>` grid;
  - the two roster sequences;
  - the current player and the game flags.

  Its methods follow the source's loops and branches. Each method is proved to leave the object in exactly the state the matching specification function computes.

Randomness:
- `rand()` is a stream `rng: nat -> nat` fixed at construction, plus a counter `draws` of the values the model's own calls have consumed so far.
- `random_shuffle` is a caller-supplied function `shuffle` that is only required to rearrange its argument (`Placement.Rearranges`).

Facts about the code that shape the model:
- **Reflection.** The law is `/`: (dx,dy) to (-dy,-dx) and `\`: (dx,dy) to (dy,dx). It is an involution (`Rules.ReflectTwice`).
- **Safety zones.** Only tank placement keeps tanks out of the enemy zone. Moves do not check it, so `State.Consistent` omits `State.OutsideEnemyZones`.
- **Mirror flags.** `hasMirror` on the cell and `exists` on the mirror are separate flags, and the model keeps them apart. The field is called `present` here because `exists` is a Dafny keyword.
  - validateMap clears only `exists`.
  - Such a cell still blocks moves and deflects the laser, but rotation ignores it.
- **Laser source.** The laser passes through the shooter's own source.

## Model

| member | source | states |
|---|---|---|
| Cells.FreshMirror | a.cpp:178-181 | a newly placed mirror has full health 4, is present and has the chosen orientation |
| Rules.Offset | a.cpp:761-798 | direction codes 1..8 are exactly the valid ones, each naming the king step of that rank in row-major order |
| Rules.OffsetOnto | a.cpp:761-798 | every one of the eight king steps has a code, so the direction table is a bijection onto them |
| Rules.ReflectTwice | a.cpp:1192-1203 | reflecting twice off the same mirror restores the heading (the law is an involution) |
| Rules.ReflectTurnsAxis | a.cpp:1192-1203 | an axis-aligned ray leaves a mirror axis-aligned and perpendicular to its heading |
| Rules.ZonesOverlap | a.cpp:398-411 | the two 3x3 safety zones share a cell exactly when m <= 5 and n <= 5 |
| Rules.Glyph | a.cpp:1128-1139 | the path glyph is '+' iff both components move, '\|' iff only dx does, '-' iff dx is 0 |
| Rules.ExitWinner | a.cpp:1025-1036 | on leaving, the winner is the side with strictly more living tanks, 0 on a tie (all three iff) |
| Rules.ToUpper | a.cpp:697 | lower-case letters map 32 code points down; every other character is unchanged |
| Rules.CountAlive | a.cpp:645-667 | the living count never exceeds the roster length |
| Rules.CountAliveKill | a.cpp:885-892 | killing a living roster entry lowers the living count by exactly one |
| Rules.CountAliveSame | a.cpp:865-871 | replacing an entry by one of equal liveness keeps the count |
| Rules.CountAliveZero | a.cpp:645-667 | the count is 0 iff no roster entry is alive |
| State.WithCell | a.cpp:79 | writing one grid cell keeps the shape and stores exactly that cell |
| State.DestroyTank | a.cpp:877-900 | destroyTank keeps dimensions, player to move, game flags and roster lengths |
| State.MoveTank | a.cpp:853-875 | moveTank (with the roster slot the cell names) keeps the board's shape |
| State.MoveTankAsWritten | a.cpp:853-875 | moveTank as written: the destination gets the tank and the origin loses it, for inputs whose shifted slot is in range |
| State.AsWrittenSlotNegative | a.cpp:870-871 | for every player-2 tank of a consistent game the slot the source writes is negative |
| State.PlaceTank | a.cpp:301-306 | placing a tank changes only the board and the rosters |
| State.Aim | a.cpp:741-807 | a target exists only for an on-board tank of the player to move, and lies on the board next to it |
| State.RotateAction | a.cpp:902-928 | rotation keeps the board's shape |
| State.MoveAction | a.cpp:735-851 | moveTankAction as a function: no target from `Aim` means no change, otherwise the destination checks of `Arrive`; its outcomes and frames are StateFacts.MoveActionOutcomes, its invariant StateFacts.MoveActionKeeps |
| State.Arrive | a.cpp:810-848 | the destination checks in the source's order (mirror or own source refuses, enemy source wins, tank collides, else move); stated by StateFacts.ArriveOutcomes |
| State.ShootAction | a.cpp:930-995 | tankShootAction: the origin, ownership, direction and bounds checks, then one cell of fire; stated by StateFacts.ShootActionOutcomes and StateFacts.ShootActionKeeps |
| State.ShotAt | a.cpp:996-1015 | the target cell: a tank is destroyed, else the enemy source ends the game for the shooter, else nothing; stated by StateFacts.ShotAtFacts |
| State.Flip | a.cpp:921-922 | the toggle of rotateMirrorAction; its contract says it always changes the orientation, and StateFacts.RotateActionFacts proves two rotations restore the game |
| State.ExitAction | a.cpp:1018-1040 | exitAction: the game ends and the winner is the side with more living tanks, 0 on a tie; stated by StateFacts.ExitActionFacts |
| State.CheckWin | a.cpp:1299-1329 | checkWinConditions' two early-return branches; StateFacts.CheckWinFacts states each winner as an iff and that only the flags change |
| State.SwitchPlayer | a.cpp:1331-1334 | switchPlayer; StateFacts.SwitchPlayerFacts proves it flips 1 and 2, keeps the invariant and is an involution |
| State.Unmarked | a.cpp:1292-1293 | one cell of clearLaserPaths: not visited and blank; Upkeep.ClearPathsFacts states the effect on the whole board |
| StateFacts.DestroyTankFrame | a.cpp:877-900 | destroyTank changes only its cell, no mirror, leaves the cell without a tank and is a no-op on a cell without one |
| StateFacts.DestroyTankKills | a.cpp:882-892 | on a tank cell exactly that roster entry dies, the living count drops by one, the other roster is untouched |
| StateFacts.DestroyTankKeeps | a.cpp:877-900 | destroyTank keeps the game consistent |
| StateFacts.MoveTankFrame | a.cpp:853-875 | moveTank sets the destination to name the moving tank, clears the origin, moves its roster entry and changes nothing else |
| StateFacts.MoveTankKeeps | a.cpp:853-875 | moving onto a free cell keeps the game consistent and both living counts |
| StateFacts.AimSpec | a.cpp:741-807 | a target exists iff origin on board, own tank, direction 1..8 and destination on board; it is origin plus offset |
| StateFacts.MoveActionOutcomes | a.cpp:735-851 | in the source's order: refused moves change nothing; the enemy source wins without moving; any tank collides (`Collided`); else the tank moves (`Moved`) |
| StateFacts.ArriveOutcomes | a.cpp:820-847 | the destination checks: enemy source wins, a tank means both die (`Collided`), a free cell receives the tank (`Moved`) |
| StateFacts.MoveOntoFree | a.cpp:846-860 | `Moved`: the destination names the mover's player and index, the origin only loses its tank flag, no other cell changes, only the mover's roster entry changes (its coordinates), mirrors and alive counts are kept |
| StateFacts.CollisionKills | a.cpp:837-843 | `Collided`: both cells are emptied (player 0, index -1), no other cell changes, exactly the two named roster entries die, alive counts drop by one per side, or by two when both tanks are the mover's; flags unchanged |
| StateFacts.CollisionBoard | a.cpp:877-900 | each destroyed tank's cell loses its tank and is reset to player 0, index -1; every other cell is unchanged |
| StateFacts.CollisionRosters | a.cpp:882-892 | exactly the two named entries are marked dead; the count drops by one per side, or by two on one side |
| StateFacts.MoveActionKeeps | a.cpp:735-851 | every move request keeps the game consistent |
| StateFacts.ShootActionOutcomes | a.cpp:930-995 | direct fire changes nothing unless the player's own tank fires in a valid direction onto the board; it never touches a mirror |
| StateFacts.ShotAtFacts | a.cpp:996-1015 | a shot changes only its target cell: any tank there dies, else the enemy source ends the game for the shooter, else nothing |
| StateFacts.ShootActionKeeps | a.cpp:930-1016 | direct fire keeps the game consistent |
| StateFacts.RotateActionFacts | a.cpp:902-928 | rotating a present mirror flips its orientation, keeps health and all else; off-board or without a present mirror nothing changes; twice restores the game |
| StateFacts.RotateActionKeeps | a.cpp:902-928 | rotation keeps the game consistent |
| StateFacts.ExitActionFacts | a.cpp:1018-1040 | leaving ends the game, keeps the board, and names as winner the side with more living tanks, 0 on a tie |
| StateFacts.CheckWinFacts | a.cpp:1299-1329 | the check ends the game iff exactly one side has no living tank, naming the survivor; otherwise nothing changes |
| StateFacts.CheckWinOverridesInlineWin | a.cpp:675-682 | the check also runs after an inline win and replaces winner 1 by 2 when player 1 has no living tank |
| StateFacts.SwitchPlayerFacts | a.cpp:1331-1334 | switching the player changes the player to move, keeps consistency and is an involution |
| Laser.MarkHere | a.cpp:1125-1140 | marking the current cell only changes the board |
| Laser.TankHit | a.cpp:1155-1163 | a tank hit keeps dimensions and player to move |
| Laser.SourceHit | a.cpp:1166-1174 | a source hit keeps dimensions and player to move |
| Laser.MirrorHit | a.cpp:1177-1184 | a mirror hit only changes the board |
| Laser.Bounce | a.cpp:1186-1212 | a mirror of health at least 1 before the hit reflects by the law; a worn one lets the ray pass unchanged |
| Laser.Trace | a.cpp:1109-1218 | the ray keeps dimensions and player to move |
| Laser.ShootLaser | a.cpp:1042-1083 | the two-ray shot keeps dimensions and player to move |
| Laser.Marked | a.cpp:1125-1127 | a cell marked visited with a glyph; Laser.MarkHereFacts states that marking is a laser move |
| Laser.Enter | a.cpp:1143-1217 | what the ray does on entering the next cell; its contract keeps the shape, the size and the player to move, and Laser.EnterCases, Laser.EnterMoves and Laser.EnterAxis state the outcome per cell content |
| Laser.Step | a.cpp:1109-1217 | one step of simulateLaser: stop off the board, else mark and enter; its contract keeps the shape, the size and the player to move, and Laser.StepCases, Laser.StepMoves and Laser.StepAxis state the rest |
| Laser.MarkHereFacts | a.cpp:1125-1140 | marking is a laser move and an axis-aligned ray draws no '+' |
| Laser.TankHitFacts | a.cpp:1155-1163 | hitting a tank removes it from the cell, marks 'X', and is a laser move |
| Laser.SourceHitFacts | a.cpp:1166-1174 | hitting the enemy source ends the game for the shooter and marks '!' |
| Laser.MirrorHitFacts | a.cpp:1177-1184 | hitting a mirror lowers its health by exactly one and marks '*' |
| Laser.EnterMoves | a.cpp:1152-1217 | entering the next cell is a laser move drawing no '+' |
| Laser.EnterAxis | a.cpp:1186-1217 | a ray entering a cell keeps an axis-aligned heading |
| Laser.StepCases | a.cpp:1109-1217 | one step stops off the board and otherwise follows the tank, enemy source, mirror, anything else order |
| Laser.EnterCases | a.cpp:1152-1217 | the outcome of entering a cell is the one its contents select in the source's order |
| Laser.StepMoves | a.cpp:1109-1217 | one step is a laser move |
| Laser.StepAxis | a.cpp:1109-1217 | one step draws no '+' and hands on an axis-aligned heading |
| Laser.TraceMoves | a.cpp:1109-1218 | the whole ray only wears mirrors, removes tanks, marks cells and can only end the game for the shooter, keeping consistency |
| Laser.TraceAxis | a.cpp:1109-1218 | no ray fired from a source ever draws the diagonal glyph '+' |
| Laser.ShootLaserFacts | a.cpp:1042-1083 | the shot is a laser move drawing no '+'; an axis other than H or V only marks the source 'S' |
| Laser.Hits | a.cpp:1180 | k hits only change the board |
| Laser.HitsWear | a.cpp:1180 | k hits lower a mirror's health by exactly k and keep its cell's mirror flag |
| Laser.MirrorWear | a.cpp:1186-1212 | after k earlier hits a mirror still reflects iff k is below its health; a fresh mirror reflects the first four hits only |
| Upkeep.Respawn | a.cpp:1254-1282 | a respawn changes only the board |
| Upkeep.MaintainFrom | a.cpp:1245-1283 | replacing the listed mirrors changes only the board |
| Upkeep.UpdateMirrors | a.cpp:1228-1284 | updateMirrors changes only the board |
| Upkeep.Removed | a.cpp:1250-1252 | a broken mirror's cell after removal: no mirror, not present, health 0; Upkeep.RemoveFacts proves removal keeps the invariant, frees the cell and lowers the mirror count by one |
| Upkeep.RemoveFacts | a.cpp:1249-1252 | removing a mirror keeps consistency, frees its cell and lowers the mirror count by one |
| Upkeep.RespawnFacts | a.cpp:1254-1282 | with no free cell nothing changes; otherwise two draws are used and a fresh mirror appears on a formerly free cell |
| Upkeep.StepShape | a.cpp:1245-1283 | removing and respawning one broken mirror keeps consistency and the mirror count, using two draws |
| Upkeep.MaintainStep | a.cpp:1245-1283 | each pass of the replacement loop keeps the loop invariant and uses two draws |
| Upkeep.MaintainFromFacts | a.cpp:1245-1283 | the replacement loop ends with the invariant for every listed mirror, using two draws each |
| Upkeep.UpdateMirrorsFacts | a.cpp:1228-1284 | no broken mirror is left; intact mirrors stay put; every other mirror is fresh; the count is kept; two draws per broken mirror |
| Upkeep.UpdateMirrorsKeeps | a.cpp:1228-1284 | updateMirrors keeps consistency and leaves no broken mirror |
| Upkeep.ClearPaths | a.cpp:1286-1297 | every cell loses its laser mark and nothing else changes |
| Upkeep.ClearPathsFacts | a.cpp:1286-1297 | after clearing no cell is visited or has a glyph; consistency is kept; clearing is idempotent |
| Scan.RowMatches | a.cpp:1256-1266 | the inner collection loop over one row; Scan.RowMatchesSpec proves it lists exactly the passing cells in column order |
| Scan.Matches | a.cpp:1233-1242 | the nested collection loops; Scan.MatchesSpec proves they list exactly the passing cells in row-major order, Scan.RowMajorDistinct that there are no repeats |
| Scan.FirstInRow | a.cpp:192-202 | the first passing column of a row; its contract says a found column is in range and passes, and Scan.FirstInRowSpec adds that it is the first and that none is found iff none passes |
| Scan.FirstInColumn | a.cpp:256-263 | the first passing row of a column; its contract says a found row is in range and passes, and Scan.FirstInColumnSpec adds that it is the first and that none is found iff none passes |
| Scan.FirstOnBoard | a.cpp:318-340 | the first passing cell in row-major order; its contract says a found cell is on the board and passes, and Scan.FirstOnBoardSpec adds that it is the first and that none is found iff none passes |
| Scan.RowMatchesSpec | a.cpp:1256-1266 | the row scan lists exactly the matching cells of the row, in column order |
| Scan.MatchesSpec | a.cpp:1233-1242 | the board scan lists exactly the matching cells, in row-major order |
| Scan.RowMajorDistinct | a.cpp:274-283 | a row-major list has no duplicates |
| Scan.FirstInRowSpec | a.cpp:192-202 | the row search finds the first matching column, or reports none iff none matches |
| Scan.FirstInColumnSpec | a.cpp:256-263 | the column search finds the first matching row, or reports none iff none matches |
| Scan.FirstOnBoardSpec | a.cpp:318-340 | the row-major search finds the first matching cell, or reports none iff none matches |
| MapGen.PlaceSources | a.cpp:151-156 | step 1 of generateMap; its contract says only the board changes, and Setup.SourcesFacts that only the two corners hold sources |
| MapGen.CoinDirection | a.cpp:179 | `rand() % 2 == 0` picks '/': its contract states the orientation is '/' iff the draw is even |
| MapGen.WithMirror | a.cpp:178-181 | a cell with a newly placed mirror, health 4 and present (Cells.FreshMirror); MapGen.SeedCellFacts states where such cells arise |
| MapGen.SeedCell | a.cpp:169-183 | one cell of the seeding pass; its contract keeps the shape and size, and MapGen.SeedCellFacts states that only row i changes, only with fresh mirrors, each one counted |
| MapGen.SeedPass | a.cpp:167-185 | the inner for-j loop; its contract keeps the shape and size, and MapGen.SeedPassFacts states the frame and that a positive count means a present mirror in the row |
| MapGen.SeedTries | a.cpp:165-187 | the up-to-50 attempts loop; its contract keeps the shape and size, and MapGen.SeedTriesFacts states the frame and that a nonzero count implies a mirror |
| MapGen.ForceMirror | a.cpp:189-203 | the forced placement on the first cell without source or tank; its contract keeps the shape and size, and MapGen.ForceableRows shows such a cell exists in every row |
| MapGen.SeedRow | a.cpp:159-204 | all seeding of one row; its contract keeps the shape and size, and MapGen.SeedRowFacts states the row ends with a present mirror |
| MapGen.SeedRows | a.cpp:159-204 | the outer for-i loop; its contract keeps the shape and size, and MapGen.SeedRowsFacts states every row from i on ends with a present mirror |
| MapGen.RowPresent | a.cpp:224-231 | the exists count of a row prefix; its contract bounds it by the prefix length, and MapGen.RowPresentFull proves it equals n iff every cell is present |
| MapGen.ColumnPresent | a.cpp:247-254 | the exists count of a column prefix; its contract bounds it by the prefix length, and MapGen.ColumnPresentFull proves it equals m iff every cell is present |
| MapGen.Unpresent | a.cpp:237 | a cell whose mirror loses only its `exists` flag; MapGen.FixRowFacts and MapGen.FixColumnFacts state that repairs change nothing else |
| MapGen.FixRow | a.cpp:222-242 | the repair of one row; its contract keeps the shape and size, and MapGen.FixRowFacts states that only exists flags are cleared and the row is left open |
| MapGen.FixColumn | a.cpp:245-265 | the repair of one column; its contract keeps the shape and size, and MapGen.FixColumnFacts states that only exists flags are cleared and the column is left open |
| MapGen.FixRows | a.cpp:222-242 | the row loop of validateMap; its contract keeps the shape and size, and MapGen.FixRowsFacts states every row from i on is left open |
| MapGen.FixColumns | a.cpp:245-265 | the column loop of validateMap; its contract keeps the shape and size, and MapGen.FixColumnsFacts states every column from j on is left open |
| MapGen.ValidateMap | a.cpp:219-266 | validateMap, rows then columns; its contract keeps the shape and size, and MapGen.ValidateMapFacts states that only exists flags are cleared and no row or column is left fully present |
| MapGen.SeedCellFacts | a.cpp:169-183 | one seeding step touches only row i, only by placing fresh mirrors, and counts every mirror it places |
| MapGen.SeedPassFacts | a.cpp:167-185 | one pass over a row keeps that frame and a counted mirror is present in the row |
| MapGen.SeedTriesFacts | a.cpp:165-187 | the up-to-50 attempts keep the frame and a nonzero count means the row holds a mirror |
| MapGen.SeedRowFacts | a.cpp:159-204 | seeding a row touches that row only and leaves a present mirror in it whenever it has a cell without source or tank |
| MapGen.SeedRowsFacts | a.cpp:159-204 | the seeding loop leaves a present mirror in every row from i on |
| MapGen.ForceableRows | a.cpp:189-203 | on a tank-free board at least 3 wide with sources only in the corners, every row has a cell the forced placement can use |
| MapGen.RowPresentFull | a.cpp:224-231 | the row count equals the row length iff every mirror of the row is present |
| MapGen.ColumnPresentFull | a.cpp:247-254 | the column count equals the column length iff every mirror of the column is present |
| MapGen.FixRowFacts | a.cpp:222-242 | fixing a row only clears present flags and leaves the row not fully covered |
| MapGen.FixColumnFacts | a.cpp:245-265 | fixing a column only clears present flags and leaves the column not fully covered |
| MapGen.FixRowsFacts | a.cpp:222-242 | the row loop leaves every row from i on not fully covered |
| MapGen.FixColumnsFacts | a.cpp:245-265 | the column loop leaves every column from j on not fully covered |
| MapGen.ValidateMapFacts | a.cpp:219-266 | validateMap only clears present flags and leaves no row and no column entirely covered by mirrors |
| Placement.ScanList | a.cpp:293-313 | the scan of the shuffled list from the shared cursor; its contract says only the board and rosters change and the cursor never goes back, and Placement.ScanListFacts states it places one tank outside the enemy zone or exhausts the list with no change |
| Placement.PlaceNext | a.cpp:290-341 | one pass of a player's placement loop, list scan then emergency search; its contract states the same frame, and Placement.PlaceNextFacts that it keeps the placement invariant and adds a tank on success |
| Placement.PlaceAll | a.cpp:290-341 | a player's whole placement loop; its contract states the same frame, and Placement.PlaceAllFacts that the invariant holds and on success the roster has tanksPerPlayer tanks |
| Placement.PlaceTanks | a.cpp:269-396 | placeTanks over the shuffled free cells, player 1 then player 2; its contract says only the board and rosters change, and Placement.PlaceTanksFacts states the placed game is consistent with every tank outside the enemy zone |
| Placement.Misplaced | a.cpp:413-435 | the tanks validateSafetyZones hands on, player 2's then player 1's; Placement.MisplacedEmpty proves it is empty iff no tank rests in the enemy zone |
| Placement.ShuffledInBounds | a.cpp:271-286 | the shuffled candidate list holds distinct on-board cells with neither source nor mirror |
| Placement.PlaceTankKeeps | a.cpp:301-306 | placing a tank appends exactly one living entry to that roster, marks only its cell and keeps the links |
| Placement.ScanListFacts | a.cpp:293-313 | the list scan places one tank outside the enemy zone or uses up the list and changes nothing |
| Placement.EmergencyKeeps | a.cpp:315-341 | the emergency search places one tank on a free cell outside the enemy zone |
| Placement.PlaceNextFacts | a.cpp:290-341 | one pass of the placement loop keeps the placement invariant and adds a tank when it succeeds |
| Placement.PlaceAllFacts | a.cpp:290-341 | a successful placement loop fills the roster to tanksPerPlayer tanks |
| Placement.PlaceTanksFacts | a.cpp:269-396 | a successful placement is consistent, keeps every tank outside the enemy zone, fills both rosters and changes only tank flags |
| Placement.TanksApart | a.cpp:301-306 | two living tanks of a consistent game never share a cell |
| Placement.InZone | a.cpp:416-433 | the tanks found in a zone are at most the roster |
| Placement.InZoneEmpty | a.cpp:416-433 | no tank is found iff no roster tank lies in the zone |
| Placement.MisplacedEmpty | a.cpp:413-435 | validateSafetyZones finds nothing to relocate iff no tank rests in the enemy zone |
| Setup.NewGame | a.cpp:90-91 | a new game has empty cells, empty rosters, player 1 to move and no winner |
| Setup.GenerateMap | a.cpp:149-216 | generateMap's five steps; its contract keeps the shape and size, and Setup.GenerateMapFacts states the map invariants of a successful generation |
| Setup.SourcesFacts | a.cpp:151-156 | after source placement no cell has a tank or mirror and only the two corners hold sources |
| Setup.MapBeforeTanks | a.cpp:151-207 | before placement the map holds no tank, a mirror in every row and no full row or column |
| Setup.SeedStage | a.cpp:158-204 | seeding leaves a present mirror in every row and keeps the sources bare |
| Setup.ValidateStage | a.cpp:206-207 | validateMap keeps a mirror in every row and leaves no row or column full |
| Setup.PlacementKeepsMirrors | a.cpp:209-210 | placing tanks keeps all mirror facts of the map |
| Setup.GenerateMapFacts | a.cpp:149-216 | a successful map is consistent, no tank rests in an enemy zone, the safety scan finds nothing, both rosters are full, player 1 moves, every row has a mirror and no row or column is full |
| Turn.ParseChoice | a.cpp:697-714 | a choice is invalid iff its upper-case letter is not N, R, S or E |
| Turn.Act | a.cpp:699-707 | dispatches Move, Rotate or Shoot to its action; Turn.ActKeeps proves every action keeps the invariant and the player to move |
| Turn.LaserPhase | a.cpp:720-731 | the shot, then upkeep and clearing unless the shot ended the game; stated by Turn.LaserPhaseFacts and Turn.UpkeepFacts |
| Turn.PlayTurn | a.cpp:689-733 | playTurn: Exit ends the game, an invalid choice skips the turn, any other action is followed by the laser phase unless the game ended; stated by Turn.TurnKeeps, Turn.ExitEndsTurn, Turn.InvalidSkipsTurn and Turn.ActionReachesLaser |
| Turn.Round | a.cpp:675-683 | one pass of startGame's loop; Turn.RoundFacts states the win check, then a switch iff the game goes on, with the invariant kept |
| Turn.Play | a.cpp:675-683 | startGame's `while (!gameOver)` loop over a finite list of inputs; stated by Turn.PlayAlternates and Turn.PlayKeeps |
| Turn.StartGame | a.cpp:670-686 | startGame after getDimensions: map, then the game loop, None when a tank found no cell; stated by Turn.StartGameFacts |
| Turn.ActKeeps | a.cpp:699-707 | every action keeps consistency and the player to move |
| Turn.LaserPhaseFacts | a.cpp:720-731 | the laser phase keeps consistency; when the game goes on no cell keeps a laser mark or a broken mirror |
| Turn.UpkeepFacts | a.cpp:727-731 | mirror upkeep and clearing keep consistency and the flags and leave every cell clean |
| Turn.TurnKeeps | a.cpp:689-733 | a turn keeps consistency and the player to move |
| Turn.InvalidSkipsTurn | a.cpp:711-713 | an invalid choice skips the turn: no laser phase, no change, no draw |
| Turn.ExitEndsTurn | a.cpp:708-710 | Exit ends the game with the exit winner at once, without a laser phase |
| Turn.ActionReachesLaser | a.cpp:716-731 | after a Move, Rotate or Shoot, refused or not, the laser phase follows unless the game is over |
| Turn.RoundFacts | a.cpp:675-683 | a round keeps consistency and hands the move to the other player iff the game goes on |
| Turn.PlayAlternates | a.cpp:675-683 | the game loop stops on a finished game, and while the game goes on the player alternates with every input |
| Turn.PlayKeeps | a.cpp:675-683 | the game loop keeps consistency |
| Turn.StartGameFacts | a.cpp:670-686 | startGame plays iff map generation succeeds; the game stays consistent and player 1 moves after an even number of inputs |
| Game.LaserTankGame.constructor | a.cpp:90-95 | the object holds a new game of the validated dimensions with no draws made |
| Game.LaserTankGame.Rand | a.cpp:174 | rand() yields the next stream value and uses one draw |
| Game.LaserTankGame.DestroyTank | a.cpp:877-900 | the object is left in the state State.DestroyTank computes |
| Game.LaserTankGame.MoveTank | a.cpp:853-875 | the object is left in the state State.MoveTank computes |
| Game.LaserTankGame.MoveTankAction | a.cpp:735-851 | the object is left in the state of the move request |
| Game.LaserTankGame.Aim | a.cpp:741-807 | the method finds the target State.Aim names |
| Game.LaserTankGame.Arrive | a.cpp:810-848 | the destination checks leave the state State.Arrive computes |
| Game.LaserTankGame.Collide | a.cpp:837-843 | a collision destroys the mover and then the tank hit |
| Game.LaserTankGame.TankShootAction | a.cpp:930-1016 | the object is left in the state of the direct-fire request |
| Game.LaserTankGame.ShootAt | a.cpp:996-1015 | the shot's effect on its target |
| Game.LaserTankGame.RotateMirrorAction | a.cpp:902-928 | the object is left in the rotated state |
| Game.LaserTankGame.GetAliveTankCount | a.cpp:645-667 | the count loop returns the player's living count |
| Game.LaserTankGame.ExitAction | a.cpp:1018-1040 | the object is left in the exit state |
| Game.LaserTankGame.CheckWinConditions | a.cpp:1299-1329 | the object is left in the checked state |
| Game.LaserTankGame.SwitchPlayer | a.cpp:1331-1334 | the other player is to move |
| Game.LaserTankGame.ShootLaserAction | a.cpp:1042-1099 | the object is left in the state of the two-ray shot |
| Game.LaserTankGame.SimulateLaser | a.cpp:1109-1218 | the recursive ray leaves the state Laser.Trace computes |
| Game.LaserTankGame.MarkCell | a.cpp:1125-1140 | the current cell is marked as Laser.MarkHere says |
| Game.LaserTankGame.EnterNext | a.cpp:1143-1217 | entering the next cell leaves the state and the continuation Laser.Enter computes |
| Game.LaserTankGame.HitTank | a.cpp:1155-1163 | the tank hit of Laser.TankHit |
| Game.LaserTankGame.HitSource | a.cpp:1166-1174 | the source hit of Laser.SourceHit |
| Game.LaserTankGame.HitMirror | a.cpp:1177-1212 | the mirror hit of Laser.MirrorHit and the heading Laser.Bounce gives |
| Game.LaserTankGame.CellsWhere | a.cpp:1233-1242 | the nested loops collect exactly the matching cells in row-major order |
| Game.LaserTankGame.Respawn | a.cpp:1254-1282 | a respawn leaves the state and draws Upkeep.Respawn computes |
| Game.LaserTankGame.UpdateMirrors | a.cpp:1228-1284 | updateMirrors leaves the state and draws Upkeep.UpdateMirrors computes |
| Game.LaserTankGame.ReplaceAll | a.cpp:1245-1283 | the replacement loop leaves the state Upkeep.MaintainFrom computes |
| Game.LaserTankGame.Replace | a.cpp:1246-1282 | one pass advances the replacement by exactly one listed mirror |
| Game.LaserTankGame.ClearLaserPaths | a.cpp:1286-1297 | the object is left with the cleared board |
| Game.LaserTankGame.ClearRow | a.cpp:1290-1294 | row i is unmarked and every other row unchanged |
| Game.LaserTankGame.FindInRow | a.cpp:192-202 | the loop finds the first matching column of the row |
| Game.LaserTankGame.FindInColumn | a.cpp:256-263 | the loop finds the first matching row of the column |
| Game.LaserTankGame.FindOnBoard | a.cpp:318-340 | the nested loops find the first matching cell in row-major order |
| Game.LaserTankGame.PlaceSources | a.cpp:151-156 | the sources are placed as MapGen.PlaceSources says |
| Game.LaserTankGame.SeedMirrors | a.cpp:158-204 | the seeding loop leaves the state MapGen.SeedRows computes |
| Game.LaserTankGame.SeedRow | a.cpp:161-203 | one row's attempts and forced placement leave the state MapGen.SeedRow computes |
| Game.LaserTankGame.SeedPass | a.cpp:167-185 | one pass over a row as MapGen.SeedPass |
| Game.LaserTankGame.SeedCell | a.cpp:169-183 | one cell of a pass as MapGen.SeedCell |
| Game.LaserTankGame.ForceMirror | a.cpp:189-203 | the forced placement as MapGen.ForceMirror |
| Game.LaserTankGame.ValidateMap | a.cpp:219-266 | the object is left with the validated map |
| Game.LaserTankGame.FixRow | a.cpp:224-241 | the row's count and fix as MapGen.FixRow |
| Game.LaserTankGame.FixColumn | a.cpp:247-264 | the column's count and fix as MapGen.FixColumn |
| Game.LaserTankGame.PlaceTank | a.cpp:301-306 | the tank is placed as State.PlaceTank says |
| Game.LaserTankGame.ScanList | a.cpp:293-313 | the list scan as Placement.ScanList, and a failed scan has used up the list |
| Game.LaserTankGame.PlaceNext | a.cpp:290-341 | one tank's placement as Placement.PlaceNext; on failure no free cell outside the enemy zone is left |
| Game.LaserTankGame.PlaceSide | a.cpp:290-341 | one player's loop leaves the state Placement.PlaceAll computes |
| Game.LaserTankGame.PlaceTanks | a.cpp:269-396 | placeTanks leaves the state and success flag Placement.PlaceTanks computes |
| Game.LaserTankGame.TanksInZone | a.cpp:416-433 | the loop lists the roster's tanks inside the zone |
| Game.LaserTankGame.ValidateSafetyZones | a.cpp:413-435 | the tanks handed to relocation are Placement.Misplaced of the state |
| Game.LaserTankGame.GenerateMap | a.cpp:149-216 | generateMap leaves the state, draws and flag Setup.GenerateMap computes, and the safety scan's result |
| Game.LaserTankGame.Act | a.cpp:699-707 | the chosen action as Turn.Act |
| Game.LaserTankGame.LaserPhase | a.cpp:720-731 | the laser phase as Turn.LaserPhase |
| Game.LaserTankGame.PlayTurn | a.cpp:689-733 | playTurn leaves the state and draws Turn.PlayTurn computes and keeps the invariant |
| Game.LaserTankGame.ActAndFire | a.cpp:699-731 | an action followed by the laser phase as Turn.PlayTurn |
| Game.LaserTankGame.Round | a.cpp:677-682 | one pass of the game loop as Turn.Round, keeping the invariant |
| Game.LaserTankGame.Play | a.cpp:675-683 | the game loop as Turn.Play, keeping the invariant |
| Game.LaserTankGame.StartGame | a.cpp:670-686 | startGame succeeds iff Turn.StartGame does and then leaves its state and draws |

## Left out

- Console I/O is not modelled: the menus, `displayUI`, `displayGrid`, `displayFinalResult`, `clearScreen`, the log (`addLog`), the colours, the timer and the pause after a shot. The values the player types are the parameters of the actions, and a turn's input is a `Turn.Command` with an axis letter.
- `getDimensions` is not modelled: its re-prompting loops become the constructor's precondition (4..10 rows and columns, at least one tank).
- `srand(time(NULL))` is not modelled: the seed is the stream `rng` the constructor receives.
- `random_shuffle` is a parameter: `shuffle` is only required to rearrange its argument.
- Game.LaserTankGame.PlaceTanks: its `draws == old(draws)` does not count the shuffle's own random draws. Common `random_shuffle` implementations draw from `rand()`, and the C++ standard leaves its random source to the implementation. So after placeTanks the source's `rand()` position can be ahead of `draws`, and the later mirror respawns read the stream at a shifted position. The same holds for Setup.GenerateMap and everything after it.
- `moveTankToSafeZone` (a.cpp:436-470) is not modelled. `Placement.MisplacedEmpty` and `Setup.GenerateMapFacts` prove that after a successful placement validateSafetyZones never calls it; `Game.LaserTankGame.ValidateSafetyZones` returns the list of tanks it would be given.
- `processLaserEffects` (a.cpp:1220-1225) has an empty body and is left out.
- Placement failure is not modelled. When a tank finds no cell the model reports `ok == false` and proves nothing about that game. The source pushes no roster entry for that tank or for any later tank of that player, and the game goes on with the short roster.
- Game.LaserTankGame.StartGame: weaker than the source, which goes on to play with a short roster after a placement failure. The model plays only when every tank was placed.
- Setup.GenerateMapFacts: its properties are stated for successful generation only, for the reason above.
- Placement.PlaceAll: stops at the first tank that finds no cell. Every later pass of the source's loop finds neither a list cell nor a free cell and changes nothing, so only the state after the loop is the same, not the work done.
- Integer widths are not modelled: grid coordinates, counts and health stay far below 32-bit limits on boards of at most 10 x 10. `rand() % 100` and `rand() % k` are written out as `%` on naturals.
- The tank index: the source stores the loop counter `i` as a tank's index. The model stores the roster length, which is equal because every pass appends exactly one entry.

## Findings

| source | as written | input that shows it | evidently intended | confidence | as-written member | corrected member |
|---|---|---|---|---|---|---|
| a.cpp:870-871 | moveTank updates `player2Tanks[tankIndex - tanksPerPlayer]` for a player-2 tank, but placeTanks stores player-2 tanks with `tankIndex = i` in 0..tanksPerPlayer-1 | any move of a player-2 tank onto a free cell, e.g. tanksPerPlayer = 1 and the tank with index 0: the slot written is -1 | update `player2Tanks[tankIndex]`, the slot the cell names, as for player 1 | high, not executed | State.MoveTankAsWritten, State.AsWrittenSlotNegative | State.MoveTank, StateFacts.MoveTankKeeps |
