// The whole state of a game as a value, the board invariants, and the
// specification of every player action and turn step as a function of the
// state before it.

module State {
  import opened Cells
  import opened Rules

  /** Everything `LaserTankGame` holds that affects play: the m x n board,
      both rosters, the player to move, and the end-of-game flags. */
  datatype GameState = GameState(
    m: int, n: int, tanksPerPlayer: int,
    board: seq<seq<Cell>>,
    p1: seq<Tank>, p2: seq<Tank>,
    current: int, gameOver: bool, winner: int)

  predicate Shaped(w: GameState) {
    |w.board| == w.m && 0 <= w.n && forall i :: 0 <= i < w.m ==> |w.board[i]| == w.n
  }

  predicate InBounds(w: GameState, x: int, y: int) {
    0 <= x < w.m && 0 <= y < w.n
  }

  /** The same game with the one cell (x, y) replaced. */
  function WithCell(w: GameState, x: int, y: int, c: Cell): (r: GameState)
    requires Shaped(w) && InBounds(w, x, y)
    ensures Shaped(r) && r == w.(board := r.board)
    ensures r.board[x][y] == c
  {
    w.(board := w.board[x := w.board[x][y := c]])
  }

  function Roster(w: GameState, p: int): seq<Tank> {
    if p == 1 then w.p1 else w.p2
  }

  /** Laser sources sit at (0,0) for player 1 and (m-1,n-1) for player 2. */
  function SourcePos(w: GameState, p: int): Pos {
    if p == 1 then (0, 0) else (w.m - 1, w.n - 1)
  }

  predicate IsSourcePos(w: GameState, i: int, j: int) {
    (i, j) == (0, 0) || (i, j) == (w.m - 1, w.n - 1)
  }

  // ---------------------------------------------------------------------
  // Board invariants

  /** Per-cell layout facts that hold from map generation on: the two
      sources are where they belong and hold neither mirror nor tank, a
      present mirror is always a `hasMirror` cell, and no tank stands on a
      `hasMirror` cell. */
  predicate CellLayoutOk(w: GameState, i: int, j: int)
    requires Shaped(w) && InBounds(w, i, j)
  {
    var c := w.board[i][j];
    && (c.hasLaserSource <==> IsSourcePos(w, i, j))
    && (c.hasLaserSource ==> c.sourcePlayer == (if (i, j) == (0, 0) then 1 else 2) && !c.hasMirror && !c.hasTank)
    && (c.mirror.present ==> c.hasMirror)
    && (c.hasTank ==> !c.hasMirror)
  }

  ghost predicate LayoutOk(w: GameState) {
    && Shaped(w) && 4 <= w.m && 4 <= w.n
    && forall i, j :: InBounds(w, i, j) ==> CellLayoutOk(w, i, j)
  }

  /** A tank cell names a living roster entry that stands on it. */
  predicate CellLinked(w: GameState, i: int, j: int)
    requires Shaped(w) && InBounds(w, i, j)
  {
    var c := w.board[i][j];
    c.hasTank ==>
      && (c.tankPlayer == 1 || c.tankPlayer == 2)
      && 0 <= c.tankIndex < |Roster(w, c.tankPlayer)|
      && Roster(w, c.tankPlayer)[c.tankIndex].alive
      && Roster(w, c.tankPlayer)[c.tankIndex].x == i
      && Roster(w, c.tankPlayer)[c.tankIndex].y == j
  }

  /** Roster entry k of player p belongs to p and, while alive, stands on a
      cell that names it. */
  predicate TankLinked(w: GameState, p: int, k: int)
    requires Shaped(w) && 0 <= k < |Roster(w, p)|
  {
    var t := Roster(w, p)[k];
    && t.player == p
    && (t.alive ==>
          && InBounds(w, t.x, t.y)
          && w.board[t.x][t.y].hasTank
          && w.board[t.x][t.y].tankPlayer == p
          && w.board[t.x][t.y].tankIndex == k)
  }

  ghost predicate Linked(w: GameState) {
    && Shaped(w)
    && (forall i, j :: InBounds(w, i, j) ==> CellLinked(w, i, j))
    && (forall k :: 0 <= k < |w.p1| ==> TankLinked(w, 1, k))
    && (forall k :: 0 <= k < |w.p2| ==> TankLinked(w, 2, k))
  }

  /** The invariant of a game in progress. */
  ghost predicate Consistent(w: GameState) {
    && LayoutOk(w) && Linked(w)
    && w.tanksPerPlayer >= 1
    && |w.p1| == w.tanksPerPlayer && |w.p2| == w.tanksPerPlayer
    && (w.current == 1 || w.current == 2)
    && 0 <= w.winner <= 2
  }

  /** No tank of either roster rests in the other player's safety zone. */
  ghost predicate OutsideEnemyZones(w: GameState) {
    && (forall k :: 0 <= k < |w.p1| ==> !InSafetyZone(w.p1[k].x, w.p1[k].y, 2, w.m, w.n))
    && (forall k :: 0 <= k < |w.p2| ==> !InSafetyZone(w.p2[k].x, w.p2[k].y, 1, w.m, w.n))
  }

  // ---------------------------------------------------------------------
  // Tank state

  /** destroyTank: a cell without a tank is left alone; otherwise the
      roster entry it names dies (when the index is in range) and the cell
      forgets the tank. */
  function DestroyTank(w: GameState, x: int, y: int): (r: GameState)
    requires Shaped(w) && InBounds(w, x, y)
    ensures Shaped(r)
    ensures r.m == w.m && r.n == w.n && r.tanksPerPlayer == w.tanksPerPlayer
    ensures r.current == w.current && r.gameOver == w.gameOver && r.winner == w.winner
    ensures |r.p1| == |w.p1| && |r.p2| == |w.p2|
  {
    var c := w.board[x][y];
    if !c.hasTank then w
    else
      var p, k := c.tankPlayer, c.tankIndex;
      var w1 :=
        if p == 1 && 0 <= k < |w.p1| then w.(p1 := w.p1[k := w.p1[k].(alive := false)])
        else if p == 2 && 0 <= k < |w.p2| then w.(p2 := w.p2[k := w.p2[k].(alive := false)])
        else w;
      WithCell(w1, x, y, c.(hasTank := false, tankPlayer := 0, tankIndex := -1))
  }

  /** moveTank with the roster slot taken from the cell's tankIndex for both
      players. */
  function MoveTank(w: GameState, ox: int, oy: int, nx: int, ny: int): (r: GameState)
    requires Shaped(w) && InBounds(w, ox, oy) && InBounds(w, nx, ny) && (ox, oy) != (nx, ny)
    requires 0 <= w.board[ox][oy].tankIndex < |Roster(w, w.board[ox][oy].tankPlayer)|
    ensures Shaped(r) && r.m == w.m && r.n == w.n
  {
    var o := w.board[ox][oy];
    var w1 := WithCell(w, nx, ny, w.board[nx][ny].(hasTank := true, tankPlayer := o.tankPlayer, tankIndex := o.tankIndex));
    var w2 := WithCell(w1, ox, oy, w1.board[ox][oy].(hasTank := false));
    var k := o.tankIndex;
    if o.tankPlayer == 1 then w2.(p1 := w2.p1[k := w2.p1[k].(x := nx, y := ny)])
    else w2.(p2 := w2.p2[k := w2.p2[k].(x := nx, y := ny)])
  }

  /** The roster slot moveTank writes, as written: player 2's index is
      shifted down by tanksPerPlayer. */
  function AsWrittenSlot(player: int, tankIndex: int, tanksPerPlayer: int): int {
    if player == 1 then tankIndex else tankIndex - tanksPerPlayer
  }

  /** moveTank as written; it can only be applied where the shifted slot is
      inside the roster. */
  function MoveTankAsWritten(w: GameState, ox: int, oy: int, nx: int, ny: int): (r: GameState)
    requires Shaped(w) && InBounds(w, ox, oy) && InBounds(w, nx, ny) && (ox, oy) != (nx, ny)
    requires var o := w.board[ox][oy];
      0 <= AsWrittenSlot(o.tankPlayer, o.tankIndex, w.tanksPerPlayer) < |Roster(w, o.tankPlayer)|
    ensures Shaped(r) && r.m == w.m && r.n == w.n
    ensures r.board[nx][ny].hasTank && !r.board[ox][oy].hasTank
  {
    var o := w.board[ox][oy];
    var w1 := WithCell(w, nx, ny, w.board[nx][ny].(hasTank := true, tankPlayer := o.tankPlayer, tankIndex := o.tankIndex));
    var w2 := WithCell(w1, ox, oy, w1.board[ox][oy].(hasTank := false));
    var k := AsWrittenSlot(o.tankPlayer, o.tankIndex, w.tanksPerPlayer);
    if o.tankPlayer == 1 then w2.(p1 := w2.p1[k := w2.p1[k].(x := nx, y := ny)])
    else w2.(p2 := w2.p2[k := w2.p2[k].(x := nx, y := ny)])
  }

  /** Player-2 tanks are stored with tankIndex in 0..tanksPerPlayer-1, so
      the as-written slot is negative for every one of them: no player-2
      move onto a free cell meets MoveTankAsWritten's precondition. */
  lemma AsWrittenSlotNegative(w: GameState, x: int, y: int)
    requires Consistent(w) && InBounds(w, x, y)
    requires w.board[x][y].hasTank && w.board[x][y].tankPlayer == 2
    ensures AsWrittenSlot(2, w.board[x][y].tankIndex, w.tanksPerPlayer) < 0
  {
    assert CellLinked(w, x, y);
  }

  /** tankPlacement: the cell (x, y) receives player p's next tank. */
  function PlaceTank(w: GameState, p: int, x: int, y: int): (r: GameState)
    requires Shaped(w) && InBounds(w, x, y)
    ensures Shaped(r) && r == w.(board := r.board, p1 := r.p1, p2 := r.p2)
  {
    var c := w.board[x][y];
    var k := |Roster(w, p)|;
    var w1 := WithCell(w, x, y, c.(hasTank := true, tankPlayer := p, tankIndex := k));
    if p == 1 then w1.(p1 := w1.p1 + [Tank(1, x, y, true)])
    else w1.(p2 := w1.p2 + [Tank(2, x, y, true)])
  }

  // ---------------------------------------------------------------------
  // Actions

  /** The cell a move or shot request aims at, checked in the source's
      order (moveTankAction and tankShootAction check alike):
      none when the origin is off the board or holds no tank of the
      player to move, when the direction is not one of 1..8, or when the
      step leaves the board. */
  function Aim(w: GameState, x: int, y: int, dir: int): (r: Option<Pos>)
    requires Shaped(w)
    ensures r.Some? ==> InBounds(w, x, y) && InBounds(w, r.value.0, r.value.1) && r.value != (x, y)
    ensures r.Some? ==> w.board[x][y].hasTank && w.board[x][y].tankPlayer == w.current
  {
    if !InBounds(w, x, y) then None
    else if !w.board[x][y].hasTank || w.board[x][y].tankPlayer != w.current then None
    else match Offset(dir)
      case None => None
      case Some(d) => if InBounds(w, x + d.0, y + d.1) then Some((x + d.0, y + d.1)) else None
  }

  /** moveTankAction: a request without a target changes nothing; one with
      a target goes on to the destination checks. */
  function MoveAction(w: GameState, x: int, y: int, dir: int): (r: GameState)
    requires Consistent(w)
  {
    match Aim(w, x, y, dir)
    case None => w
    case Some(t) => Arrive(w, x, y, t.0, t.1)
  }

  /** The destination checks of moveTankAction, in the source's order: a
      `hasMirror` cell blocks, the enemy source wins, one's own source
      blocks, a tank there means a collision, and otherwise the tank
      moves. */
  function Arrive(w: GameState, x: int, y: int, nx: int, ny: int): (r: GameState)
    requires Consistent(w) && InBounds(w, x, y) && InBounds(w, nx, ny) && (x, y) != (nx, ny)
    requires w.board[x][y].hasTank
  {
    var dest := w.board[nx][ny];
    if dest.hasMirror then w
    else if dest.hasLaserSource && dest.sourcePlayer != w.current then
      w.(gameOver := true, winner := w.current)
    else if dest.hasLaserSource && dest.sourcePlayer == w.current then w
    else if dest.hasTank then DestroyTank(DestroyTank(w, x, y), nx, ny)
    else
      assert CellLinked(w, x, y);
      MoveTank(w, x, y, nx, ny)
  }

  /** tankShootAction: one cell of range, no mirror is consulted. */
  function ShootAction(w: GameState, x: int, y: int, dir: int): (r: GameState)
    requires Shaped(w)
  {
    match Aim(w, x, y, dir)
    case None => w
    case Some(t) => ShotAt(w, t.0, t.1)
  }

  /** What the shot does to its target cell: a tank there is destroyed,
      else the enemy source there ends the game, else nothing happens. */
  function ShotAt(w: GameState, tx: int, ty: int): (r: GameState)
    requires Shaped(w) && InBounds(w, tx, ty)
  {
    if w.board[tx][ty].hasTank then DestroyTank(w, tx, ty)
    else if w.board[tx][ty].hasLaserSource && w.board[tx][ty].sourcePlayer != w.current then
      w.(gameOver := true, winner := w.current)
    else w
  }

  /** The rotation of rotateMirrorAction: always the other orientation. */
  function Flip(d: MirrorDirection): (r: MirrorDirection)
    ensures r != d
  {
    if d == Slash then Backslash else Slash
  }

  /** rotateMirrorAction: toggles '/' and '\' where `present` is set. */
  function RotateAction(w: GameState, x: int, y: int): (r: GameState)
    requires Shaped(w)
    ensures Shaped(r)
  {
    if !InBounds(w, x, y) then w
    else if !w.board[x][y].mirror.present then w
    else
      var c := w.board[x][y];
      WithCell(w, x, y, c.(mirror := c.mirror.(direction := Flip(c.mirror.direction))))
  }

  /** exitAction. */
  function ExitAction(w: GameState): (r: GameState) {
    w.(gameOver := true, winner := ExitWinner(CountAlive(w.p1), CountAlive(w.p2)))
  }

  /** checkWinConditions. */
  function CheckWin(w: GameState): (r: GameState) {
    var a, b := CountAlive(w.p1), CountAlive(w.p2);
    if a == 0 && b > 0 then w.(gameOver := true, winner := 2)
    else if b == 0 && a > 0 then w.(gameOver := true, winner := 1)
    else w
  }

  /** switchPlayer. */
  function SwitchPlayer(w: GameState): (r: GameState) {
    w.(current := Other(w.current))
  }

  /** A cell with its laser annotation reset. */
  function Unmarked(c: Cell): Cell {
    c.(laserVisited := false, laserPathChar := ' ')
  }
}
