// The LaserTankGame class itself: the m x n grid is an array updated in
// place, the rosters and game flags are fields, and every method is proved
// to move the object from state Abs() to the value its specification
// function gives. rand() is the stream rng read at position draws.

module Game {
  import opened Cells
  import opened Rules
  import opened State
  import opened StateFacts
  import opened Scan
  import opened MapGen
  import opened Placement
  import opened Laser
  import opened Upkeep
  import opened Turn
  import opened Setup

  class LaserTankGame {
    const m: int
    const n: int
    const tanksPerPlayer: int
    const grid: array2<Cell>
    var player1Tanks: seq<Tank>
    var player2Tanks: seq<Tank>
    var currentPlayer: int
    var gameOver: bool
    var winner: int
    /** The values rand() returns, in order. */
    const rng: nat -> nat
    /** How many values of `rng` the modelled rand() calls have consumed so far;
      draws the shuffle may make are not counted. */
    var draws: nat
    /** The grid as rows of cells, kept equal to the array. */
    ghost var board: seq<seq<Cell>>

    /** The array has the game's dimensions and holds exactly `board`. */
    ghost predicate Sized()
      reads this, grid
    {
      && grid.Length0 == m && grid.Length1 == n && |board| == m
      && (forall i :: 0 <= i < m ==> |board[i]| == n)
      && (forall i, j :: 0 <= i < m && 0 <= j < n ==> board[i][j] == grid[i, j])
    }

    /** The game this object holds. */
    ghost function Abs(): GameState
      reads this
    {
      GameState(m, n, tanksPerPlayer, board, player1Tanks, player2Tanks, currentPlayer, gameOver, winner)
    }

    /** The invariant of a game in progress. */
    ghost predicate Valid()
      reads this, grid
    {
      Sized() && Consistent(Abs())
    }

    /** The constructor with getDimensions' validated answers: a grid of
        default cells, player 1 to move, no winner. */
    constructor(m0: int, n0: int, tanks: int, rng0: nat -> nat)
      requires 4 <= m0 <= 10 && 4 <= n0 <= 10 && tanks >= 1
      ensures Sized() && Abs() == NewGame(m0, n0, tanks) && rng == rng0 && draws == 0
    {
      m, n, tanksPerPlayer := m0, n0, tanks;
      grid := new Cell[m0, n0]((i, j) => EmptyCell);
      player1Tanks, player2Tanks := [], [];
      currentPlayer, gameOver, winner := 1, false, 0;
      rng, draws := rng0, 0;
      board := NewGame(m0, n0, tanks).board;
    }

    /** rand(): the next value of the stream. */
    method Rand() returns (v: nat)
      requires Sized()
      modifies this
      ensures Sized() && v == rng(old(draws)) && draws == old(draws) + 1 && Abs() == old(Abs())
    {
      v := rng(draws);
      draws := draws + 1;
    }

    /** Writes one cell of the grid. */
    method Store(x: int, y: int, c: Cell)
      requires Sized() && 0 <= x < m && 0 <= y < n
      modifies this, grid
      ensures Sized() && Abs() == WithCell(old(Abs()), x, y, c) && draws == old(draws)
    {
      grid[x, y] := c;
      board := board[x := board[x][y := c]];
    }

    // -------------------------------------------------------------------
    // Tank state

    /** destroyTank. The source compares a signed index with an unsigned
        size, so a negative index fails the range check. */
    method DestroyTank(x: int, y: int)
      requires Sized() && 0 <= x < m && 0 <= y < n
      modifies this, grid
      ensures Sized() && Abs() == State.DestroyTank(old(Abs()), x, y) && draws == old(draws)
    {
      var c := grid[x, y];
      if !c.hasTank {
        return;
      }
      var player, index := c.tankPlayer, c.tankIndex;
      if player == 1 && 0 <= index < |player1Tanks| {
        player1Tanks := player1Tanks[index := player1Tanks[index].(alive := false)];
      } else if player == 2 && 0 <= index < |player2Tanks| {
        player2Tanks := player2Tanks[index := player2Tanks[index].(alive := false)];
      }
      Store(x, y, c.(hasTank := false, tankPlayer := 0, tankIndex := -1));
    }

    /** moveTank, with the roster slot of both players taken from the
        cell's tankIndex. */
    method MoveTank(oldX: int, oldY: int, newX: int, newY: int)
      requires Sized() && 0 <= oldX < m && 0 <= oldY < n && 0 <= newX < m && 0 <= newY < n
      requires (oldX, oldY) != (newX, newY)
      requires 0 <= grid[oldX, oldY].tankIndex
      requires grid[oldX, oldY].tankIndex < |if grid[oldX, oldY].tankPlayer == 1 then player1Tanks else player2Tanks|
      modifies this, grid
      ensures Sized() && Abs() == State.MoveTank(old(Abs()), oldX, oldY, newX, newY) && draws == old(draws)
    {
      var o := grid[oldX, oldY];
      Store(newX, newY, grid[newX, newY].(hasTank := true, tankPlayer := o.tankPlayer, tankIndex := o.tankIndex));
      Store(oldX, oldY, grid[oldX, oldY].(hasTank := false));
      var k := o.tankIndex;
      if o.tankPlayer == 1 {
        player1Tanks := player1Tanks[k := player1Tanks[k].(x := newX, y := newY)];
      } else {
        player2Tanks := player2Tanks[k := player2Tanks[k].(x := newX, y := newY)];
      }
    }

    // -------------------------------------------------------------------
    // Actions

    /** moveTankAction with the coordinates and direction as read: a
        request the source refuses ends the action without a change. */
    method MoveTankAction(x: int, y: int, dir: int)
      requires Valid()
      modifies this, grid
      ensures Sized() && Abs() == MoveAction(old(Abs()), x, y, dir) && draws == old(draws)
    {
      var target := Aim(x, y, dir);
      if target.Some? {
        Arrive(x, y, target.value.0, target.value.1);
      }
    }

    /** The checks moveTankAction and tankShootAction make before they
        look at the cell aimed at: the origin, the owner of the tank there,
        the direction and the board edge. */
    method Aim(x: int, y: int, dir: int) returns (target: Option<Pos>)
      requires Sized()
      ensures target == State.Aim(Abs(), x, y, dir)
    {
      if x < 0 || x >= m || y < 0 || y >= n {
        return None;
      }
      if !grid[x, y].hasTank || grid[x, y].tankPlayer != currentPlayer {
        return None;
      }
      var d := Offset(dir);
      if d.None? {
        return None;
      }
      var newX, newY := x + d.value.0, y + d.value.1;
      if newX < 0 || newX >= m || newY < 0 || newY >= n {
        return None;
      }
      return Some((newX, newY));
    }

    /** The destination checks of moveTankAction. */
    method Arrive(x: int, y: int, newX: int, newY: int)
      requires Valid() && 0 <= x < m && 0 <= y < n && 0 <= newX < m && 0 <= newY < n
      requires (x, y) != (newX, newY) && grid[x, y].hasTank
      modifies this, grid
      ensures Sized() && Abs() == State.Arrive(old(Abs()), x, y, newX, newY) && draws == old(draws)
    {
      var dest := grid[newX, newY];
      if dest.hasMirror {
        return;
      } else if dest.hasLaserSource && dest.sourcePlayer != currentPlayer {
        gameOver := true;
        winner := currentPlayer;
      } else if dest.hasLaserSource && dest.sourcePlayer == currentPlayer {
        return;
      } else if dest.hasTank {
        Collide(x, y, newX, newY);
      } else {
        ghost var w0 := Abs();
        assert CellLinked(w0, x, y);
        MoveTank(x, y, newX, newY);
      }
    }

    /** The collision branch of moveTankAction: both tanks are destroyed. */
    method Collide(x: int, y: int, newX: int, newY: int)
      requires Sized() && 0 <= x < m && 0 <= y < n && 0 <= newX < m && 0 <= newY < n
      modifies this, grid
      ensures Sized() && Abs() == State.DestroyTank(State.DestroyTank(old(Abs()), x, y), newX, newY)
      ensures draws == old(draws)
    {
      DestroyTank(x, y);
      DestroyTank(newX, newY);
    }

    /** tankShootAction with the coordinates and direction as read. */
    method TankShootAction(x: int, y: int, dir: int)
      requires Sized()
      modifies this, grid
      ensures Sized() && Abs() == ShootAction(old(Abs()), x, y, dir) && draws == old(draws)
    {
      var target := Aim(x, y, dir);
      if target.Some? {
        ShootAt(target.value.0, target.value.1);
      }
    }

    /** What the direct shot does to its target cell. */
    method ShootAt(targetX: int, targetY: int)
      requires Sized() && 0 <= targetX < m && 0 <= targetY < n
      modifies this, grid
      ensures Sized() && Abs() == ShotAt(old(Abs()), targetX, targetY) && draws == old(draws)
    {
      var target := grid[targetX, targetY];
      if target.hasTank {
        DestroyTank(targetX, targetY);
      } else if target.hasLaserSource && target.sourcePlayer != currentPlayer {
        gameOver := true;
        winner := currentPlayer;
      }
    }

    /** rotateMirrorAction with the coordinates as read. */
    method RotateMirrorAction(x: int, y: int)
      requires Sized()
      modifies this, grid
      ensures Sized() && Abs() == RotateAction(old(Abs()), x, y) && draws == old(draws)
    {
      if x < 0 || x >= m || y < 0 || y >= n {
        return;
      }
      if !grid[x, y].mirror.present {
        return;
      }
      var c := grid[x, y];
      Store(x, y, c.(mirror := c.mirror.(direction := if c.mirror.direction == Slash then Backslash else Slash)));
    }

    /** getAliveTankCount. */
    method GetAliveTankCount(player: int) returns (count: int)
      ensures count == CountAlive(Roster(Abs(), player))
    {
      var tanks := if player == 1 then player1Tanks else player2Tanks;
      count := 0;
      var i := 0;
      while i < |tanks|
        invariant 0 <= i <= |tanks|
        invariant count == CountAlive(tanks[..i])
      {
        assert tanks[..i + 1][..i] == tanks[..i];
        if tanks[i].alive {
          count := count + 1;
        }
        i := i + 1;
      }
      assert tanks[..|tanks|] == tanks;
    }

    /** exitAction. */
    method ExitAction()
      requires Sized()
      modifies this
      ensures Sized() && Abs() == State.ExitAction(old(Abs())) && draws == old(draws)
    {
      gameOver := true;
      var p1Tanks := GetAliveTankCount(1);
      var p2Tanks := GetAliveTankCount(2);
      if p1Tanks > p2Tanks {
        winner := 1;
      } else if p2Tanks > p1Tanks {
        winner := 2;
      } else {
        winner := 0;
      }
    }

    /** checkWinConditions. */
    method CheckWinConditions()
      requires Sized()
      modifies this
      ensures Sized() && Abs() == CheckWin(old(Abs())) && draws == old(draws)
    {
      var p1Tanks := GetAliveTankCount(1);
      var p2Tanks := GetAliveTankCount(2);
      if p1Tanks == 0 && p2Tanks > 0 {
        gameOver := true;
        winner := 2;
        return;
      }
      if p2Tanks == 0 && p1Tanks > 0 {
        gameOver := true;
        winner := 1;
        return;
      }
    }

    /** switchPlayer. */
    method SwitchPlayer()
      requires Sized()
      modifies this
      ensures Sized() && Abs() == State.SwitchPlayer(old(Abs())) && draws == old(draws)
    {
      currentPlayer := if currentPlayer == 1 then 2 else 1;
    }

    // -------------------------------------------------------------------
    // The laser

    /** shootLaserAction with the axis letter as read: the current
        player's source is marked 'S' and the ray runs both ways along the
        axis; any other letter fires nothing. */
    method ShootLaserAction(direction: char)
      requires Sized() && 1 <= m && 1 <= n
      modifies this, grid
      ensures Sized() && Abs() == ShootLaser(old(Abs()), direction) && draws == old(draws)
    {
      var d := ToUpper(direction);
      var startX, startY := 0, 0;
      if currentPlayer != 1 {
        startX, startY := m - 1, n - 1;
      }
      Store(startX, startY, Marked(grid[startX, startY], 'S'));
      if d == 'H' {
        SimulateLaser(startX, startY, 0, 1, 0);
        SimulateLaser(startX, startY, 0, -1, 0);
      } else if d == 'V' {
        SimulateLaser(startX, startY, 1, 0, 0);
        SimulateLaser(startX, startY, -1, 0, 0);
      }
    }

    /** simulateLaser: the ray on (x, y) heading (dx, dy) at the given
        recursion depth, run to its end. */
    method SimulateLaser(x: int, y: int, dx: int, dy: int, depth: int)
      requires Sized()
      modifies this, grid
      ensures Sized() && Abs() == Trace(old(Abs()), Ray(x, y, dx, dy), depth) && draws == old(draws)
      decreases m * n * 2 + 1 - depth
    {
      if depth > m * n * 2 {
        return;
      }
      if x < 0 || x >= m || y < 0 || y >= n {
        return;
      }
      MarkCell(x, y, dx, dy);
      var go, nextX, nextY, newDx, newDy := EnterNext(x, y, dx, dy);
      if go {
        SimulateLaser(nextX, nextY, newDx, newDy, depth + 1);
      }
    }

    /** The path mark simulateLaser leaves on a cell it is the first to
        reach. */
    method MarkCell(x: int, y: int, dx: int, dy: int)
      requires Sized() && 0 <= x < m && 0 <= y < n
      modifies this, grid
      ensures Sized() && Abs() == MarkHere(old(Abs()), Ray(x, y, dx, dy)) && draws == old(draws)
    {
      if !grid[x, y].laserVisited {
        var g := if dx != 0 && dy != 0 then '+' else if dx != 0 then '|' else '-';
        Store(x, y, Marked(grid[x, y], g));
      }
    }

    /** What the ray does to the next cell: go is whether it carries on,
        and from where and in which heading. */
    method EnterNext(x: int, y: int, dx: int, dy: int) returns (go: bool, nextX: int, nextY: int, newDx: int, newDy: int)
      requires Sized()
      modifies this, grid
      ensures Sized() && draws == old(draws)
      ensures Abs() == Enter(old(Abs()), Ray(x, y, dx, dy)).w
      ensures go == Enter(old(Abs()), Ray(x, y, dx, dy)).Advance?
      ensures go ==> Ray(nextX, nextY, newDx, newDy) == Enter(old(Abs()), Ray(x, y, dx, dy)).next
    {
      nextX, nextY := x + dx, y + dy;
      newDx, newDy := dx, dy;
      go := false;
      if nextX < 0 || nextX >= m || nextY < 0 || nextY >= n {
        return;
      }
      var nextCell := grid[nextX, nextY];
      if nextCell.hasTank {
        HitTank(nextX, nextY);
      } else if nextCell.hasLaserSource && nextCell.sourcePlayer != currentPlayer {
        HitSource(nextX, nextY);
      } else if nextCell.hasMirror {
        newDx, newDy := HitMirror(nextX, nextY, dx, dy);
        go := true;
      } else {
        go := true;
      }
    }

    /** The ray strikes a tank: it is destroyed and its cell marked 'X'. */
    method HitTank(x: int, y: int)
      requires Sized() && 0 <= x < m && 0 <= y < n
      modifies this, grid
      ensures Sized() && Abs() == TankHit(old(Abs()), x, y) && draws == old(draws)
    {
      DestroyTank(x, y);
      Store(x, y, Marked(grid[x, y], 'X'));
    }

    /** The ray strikes the enemy source: the shooter wins and the cell is
        marked '!'. */
    method HitSource(x: int, y: int)
      requires Sized() && 0 <= x < m && 0 <= y < n
      modifies this, grid
      ensures Sized() && Abs() == SourceHit(old(Abs()), x, y) && draws == old(draws)
    {
      gameOver := true;
      winner := currentPlayer;
      Store(x, y, Marked(grid[x, y], '!'));
    }

    /** The ray strikes a mirror: its health drops by one, the cell is
        marked '*', and the ray turns while the health is not negative. */
    method HitMirror(x: int, y: int, dx: int, dy: int) returns (newDx: int, newDy: int)
      requires Sized() && 0 <= x < m && 0 <= y < n
      modifies this, grid
      ensures Sized() && Abs() == MirrorHit(old(Abs()), x, y) && draws == old(draws)
      ensures (newDx, newDy) == Bounce(old(grid[x, y]).mirror, dx, dy)
    {
      var c := grid[x, y];
      var worn := c.mirror.(health := c.mirror.health - 1);
      Store(x, y, Marked(c.(mirror := worn), '*'));
      if worn.health >= 0 {
        if worn.direction == Slash {
          newDx, newDy := -dy, -dx;
        } else {
          newDx, newDy := dy, dx;
        }
      } else {
        newDx, newDy := dx, dy;
      }
    }

    // -------------------------------------------------------------------
    // Mirror upkeep and the end of the laser phase

    /** The row-major collection loops of updateMirrors and placeTanks:
        every cell that passes t, in row-major order. */
    method CellsWhere(t: Test) returns (cells: seq<Pos>)
      requires Sized()
      ensures cells == Matches(Abs(), t, m)
    {
      cells := [];
      for i := 0 to m
        invariant cells == Matches(Abs(), t, i)
      {
        ghost var above := cells;
        for j := 0 to n
          invariant cells == above + RowMatches(Abs(), t, i, j)
        {
          if Passes(t, grid[i, j], i, j, m, n) {
            cells := cells + [(i, j)];
          }
        }
      }
    }

    /** The spawn that follows each removal in updateMirrors. */
    method Respawn()
      requires Sized()
      modifies this, grid
      ensures Sized() && Abs() == Upkeep.Respawn(old(Abs()), rng, old(draws)).w
      ensures draws == Upkeep.Respawn(old(Abs()), rng, old(draws)).draws
    {
      var emptyCells := CellsWhere(MirrorFree);
      if emptyCells != [] {
        MatchesSpec(Abs(), MirrorFree, m);
        var r := Rand();
        var idx := r % |emptyCells|;
        assert emptyCells[idx] in emptyCells;
        var (newX, newY) := emptyCells[idx];
        var coin := Rand();
        Store(newX, newY, WithMirror(grid[newX, newY], CoinDirection(coin)));
      }
    }

    /** updateMirrors: collect the worn-out mirrors, then remove each one
        and spawn a replacement. */
    method UpdateMirrors()
      requires Sized()
      modifies this, grid
      ensures Sized() && Abs() == Upkeep.UpdateMirrors(old(Abs()), rng, old(draws)).w
      ensures draws == Upkeep.UpdateMirrors(old(Abs()), rng, old(draws)).draws
    {
      var brokenMirrors := CellsWhere(Broken);
      ghost var w0 := Abs();
      assert forall q :: 0 <= q < |brokenMirrors| ==> 0 <= brokenMirrors[q].0 < m && 0 <= brokenMirrors[q].1 < n by {
        MatchesSpec(w0, Broken, m);
        assert forall q :: 0 <= q < |brokenMirrors| ==> brokenMirrors[q] in brokenMirrors;
      }
      ReplaceAll(brokenMirrors);
    }

    /** The `for (auto &pos : brokenMirrors)` loop of updateMirrors. */
    method ReplaceAll(brokenMirrors: seq<Pos>)
      requires Sized()
      requires forall q :: 0 <= q < |brokenMirrors| ==> 0 <= brokenMirrors[q].0 < m && 0 <= brokenMirrors[q].1 < n
      modifies this, grid
      ensures Sized() && Upkept(Abs(), draws) == MaintainFrom(old(Abs()), rng, old(draws), brokenMirrors, 0)
    {
      ghost var w0, d0 := Abs(), draws;
      var k := 0;
      while k < |brokenMirrors|
        invariant 0 <= k <= |brokenMirrors| && Sized()
        invariant MaintainFrom(Abs(), rng, draws, brokenMirrors, k) == MaintainFrom(w0, rng, d0, brokenMirrors, 0)
      {
        Replace(brokenMirrors, k);
        k := k + 1;
      }
    }

    /** One pass of the updateMirrors loop: the broken mirror at entry k
        of the list is removed and a new one spawned, which leaves the
        rest of the loop to do what was left before. */
    method Replace(broken: seq<Pos>, k: int)
      requires Sized() && 0 <= k < |broken|
      requires forall q :: 0 <= q < |broken| ==> 0 <= broken[q].0 < m && 0 <= broken[q].1 < n
      modifies this, grid
      ensures Sized()
      ensures MaintainFrom(Abs(), rng, draws, broken, k + 1) == MaintainFrom(old(Abs()), rng, old(draws), broken, k)
    {
      var (x, y) := broken[k];
      Store(x, y, Removed(grid[x, y]));
      Respawn();
    }

    /** clearLaserPaths. */
    method ClearLaserPaths()
      requires Sized()
      modifies this, grid
      ensures Sized() && Abs() == ClearPaths(old(Abs())) && draws == old(draws)
    {
      ghost var w0 := Abs();
      for i := 0 to m
        invariant Sized() && Abs() == w0.(board := board) && draws == old(draws)
        invariant forall a, b :: 0 <= a < i && 0 <= b < n ==> board[a][b] == Unmarked(w0.board[a][b])
        invariant forall a, b :: i <= a < m && 0 <= b < n ==> board[a][b] == w0.board[a][b]
      {
        ClearRow(i);
      }
      ghost var r := ClearPaths(w0);
      forall a | 0 <= a < m
        ensures board[a] == r.board[a]
      {
        assert forall b :: 0 <= b < n ==> board[a][b] == r.board[a][b];
      }
    }

    /** The inner loop of clearLaserPaths: row i is cleared, the other
        rows are left alone. */
    method ClearRow(i: int)
      requires Sized() && 0 <= i < m
      modifies this, grid
      ensures Sized() && Abs() == old(Abs()).(board := board) && draws == old(draws)
      ensures forall b :: 0 <= b < n ==> board[i][b] == Unmarked(old(board)[i][b])
      ensures forall a, b :: 0 <= a < m && a != i && 0 <= b < n ==> board[a][b] == old(board)[a][b]
    {
      for j := 0 to n
        invariant Sized() && Abs() == old(Abs()).(board := board) && draws == old(draws)
        invariant forall b :: 0 <= b < j ==> board[i][b] == Unmarked(old(board)[i][b])
        invariant forall b :: j <= b < n ==> board[i][b] == old(board)[i][b]
        invariant forall a, b :: 0 <= a < m && a != i && 0 <= b < n ==> board[a][b] == old(board)[a][b]
      {
        Store(i, j, Unmarked(grid[i, j]));
      }
    }

    // -------------------------------------------------------------------
    // Searches that stop at the first match (the loops with `break`)

    /** The first column of row i whose cell passes t. */
    method FindInRow(t: Test, i: int) returns (found: Option<int>)
      requires Sized() && 0 <= i < m
      ensures found == FirstInRow(Abs(), t, i, 0)
    {
      var j := 0;
      while j < n
        invariant 0 <= j <= n
        invariant FirstInRow(Abs(), t, i, j) == FirstInRow(Abs(), t, i, 0)
      {
        if Passes(t, grid[i, j], i, j, m, n) {
          return Some(j);
        }
        j := j + 1;
      }
      return None;
    }

    /** The first row of column j whose cell passes t. */
    method FindInColumn(t: Test, j: int) returns (found: Option<int>)
      requires Sized() && 0 <= j < n
      ensures found == FirstInColumn(Abs(), t, j, 0)
    {
      var i := 0;
      while i < m
        invariant 0 <= i <= m
        invariant FirstInColumn(Abs(), t, j, i) == FirstInColumn(Abs(), t, j, 0)
      {
        if Passes(t, grid[i, j], i, j, m, n) {
          return Some(i);
        }
        i := i + 1;
      }
      return None;
    }

    /** The first cell in row-major order that passes t. */
    method FindOnBoard(t: Test) returns (found: Option<Pos>)
      requires Sized()
      ensures found == FirstOnBoard(Abs(), t, 0, 0)
    {
      var i := 0;
      while i < m
        invariant 0 <= i <= m
        invariant FirstOnBoard(Abs(), t, i, 0) == FirstOnBoard(Abs(), t, 0, 0)
      {
        var j := 0;
        while j < n
          invariant 0 <= j <= n
          invariant FirstOnBoard(Abs(), t, i, j) == FirstOnBoard(Abs(), t, 0, 0)
        {
          if Passes(t, grid[i, j], i, j, m, n) {
            return Some((i, j));
          }
          j := j + 1;
        }
        i := i + 1;
      }
      return None;
    }

    // -------------------------------------------------------------------
    // generateMap: sources, mirror seeding and validateMap

    /** Step 1 of generateMap. */
    method PlaceSources()
      requires Sized() && 1 <= m && 1 <= n
      modifies this, grid
      ensures Sized() && Abs() == MapGen.PlaceSources(old(Abs())) && draws == old(draws)
    {
      Store(0, 0, grid[0, 0].(hasLaserSource := true, sourcePlayer := 1));
      Store(m - 1, n - 1, grid[m - 1, n - 1].(hasLaserSource := true, sourcePlayer := 2));
    }

    /** Step 2 of generateMap: the outer `for i` loop. */
    method SeedMirrors()
      requires Sized()
      modifies this, grid
      ensures var r := SeedRows(Seeding(old(Abs()), old(draws), 0), rng, 0);
        Sized() && Abs() == r.w && draws == r.draws
    {
      ghost var goal := SeedRows(Seeding(Abs(), draws, 0), rng, 0);
      ghost var placed := 0;
      for i := 0 to m
        invariant Sized() && SeedRows(Seeding(Abs(), draws, placed), rng, i) == goal
      {
        placed := SeedRow(i);
      }
    }

    /** Row i of the seeding: random passes until one places a mirror or
        50 passes are spent, then the forced placement if none did. */
    method SeedRow(i: int) returns (mirrorsInRow: int)
      requires Sized() && 0 <= i < m
      modifies this, grid
      ensures Sized() && Seeding(Abs(), draws, mirrorsInRow) == MapGen.SeedRow(Seeding(old(Abs()), old(draws), 0), rng, i)
    {
      ghost var goal := SeedTries(Seeding(Abs(), draws, 0), rng, i, 0);
      mirrorsInRow := 0;
      var attempts := 0;
      while mirrorsInRow == 0 && attempts < 50
        invariant Sized() && 0 <= attempts <= 50
        invariant SeedTries(Seeding(Abs(), draws, mirrorsInRow), rng, i, attempts) == goal
        decreases 50 - attempts
      {
        mirrorsInRow := SeedPass(i, mirrorsInRow);
        attempts := attempts + 1;
      }
      if mirrorsInRow == 0 {
        ForceMirror(i);
      }
    }

    /** One random pass over row i: the inner `for j` loop. */
    method SeedPass(i: int, placed: int) returns (mirrorsInRow: int)
      requires Sized() && 0 <= i < m
      modifies this, grid
      ensures Sized() && Seeding(Abs(), draws, mirrorsInRow) == MapGen.SeedPass(Seeding(old(Abs()), old(draws), placed), rng, i, 0)
    {
      ghost var goal := MapGen.SeedPass(Seeding(Abs(), draws, placed), rng, i, 0);
      mirrorsInRow := placed;
      for j := 0 to n
        invariant Sized() && MapGen.SeedPass(Seeding(Abs(), draws, mirrorsInRow), rng, i, j) == goal
      {
        mirrorsInRow := SeedCell(i, j, mirrorsInRow);
      }
    }

    /** The body of the inner `for j` loop on cell (i, j). */
    method SeedCell(i: int, j: int, placed: int) returns (mirrorsInRow: int)
      requires Sized() && 0 <= i < m && 0 <= j < n
      modifies this, grid
      ensures Sized() && Seeding(Abs(), draws, mirrorsInRow) == MapGen.SeedCell(Seeding(old(Abs()), old(draws), placed), rng, i, j)
    {
      mirrorsInRow := placed;
      if grid[i, j].hasLaserSource {
        return;
      }
      var roll := Rand();
      if roll % 100 < 30 && !grid[i, j].hasMirror && !grid[i, j].hasTank {
        var coin := Rand();
        Store(i, j, WithMirror(grid[i, j], CoinDirection(coin)));
        mirrorsInRow := placed + 1;
      }
    }

    /** The forced mirror of a row no random pass placed one in. */
    method ForceMirror(i: int)
      requires Sized() && 0 <= i < m
      modifies this, grid
      ensures var r := MapGen.ForceMirror(Seeding(old(Abs()), old(draws), 0), rng, i);
        Sized() && Abs() == r.w && draws == r.draws
    {
      var found := FindInRow(Forceable, i);
      if found.Some? {
        var j := found.value;
        var coin := Rand();
        Store(i, j, WithMirror(grid[i, j], CoinDirection(coin)));
      }
    }

    /** validateMap: the row repairs, then the column repairs. */
    method ValidateMap()
      requires Sized()
      modifies this, grid
      ensures Sized() && Abs() == MapGen.ValidateMap(old(Abs())) && draws == old(draws)
    {
      ghost var w0 := Abs();
      for i := 0 to m
        invariant Sized() && FixRows(Abs(), i) == FixRows(w0, 0) && draws == old(draws)
      {
        FixRow(i);
      }
      ghost var w1 := Abs();
      for j := 0 to n
        invariant Sized() && FixColumns(Abs(), j) == FixColumns(w1, 0) && draws == old(draws)
      {
        FixColumn(j);
      }
    }

    /** One row of validateMap: count the present mirrors, and when the
        whole row has one clear the first off the sources. */
    method FixRow(i: int)
      requires Sized() && 0 <= i < m
      modifies this, grid
      ensures Sized() && Abs() == MapGen.FixRow(old(Abs()), i) && draws == old(draws)
    {
      var mirrorCount := 0;
      for j := 0 to n
        invariant mirrorCount == RowPresent(Abs(), i, j)
      {
        if grid[i, j].mirror.present {
          mirrorCount := mirrorCount + 1;
        }
      }
      if mirrorCount == n {
        var found := FindInRow(Clearable, i);
        if found.Some? {
          Store(i, found.value, Unpresent(grid[i, found.value]));
        }
      }
    }

    /** One column of validateMap. */
    method FixColumn(j: int)
      requires Sized() && 0 <= j < n
      modifies this, grid
      ensures Sized() && Abs() == MapGen.FixColumn(old(Abs()), j) && draws == old(draws)
    {
      var mirrorCount := 0;
      for i := 0 to m
        invariant mirrorCount == ColumnPresent(Abs(), j, i)
      {
        if grid[i, j].mirror.present {
          mirrorCount := mirrorCount + 1;
        }
      }
      if mirrorCount == m {
        var found := FindInColumn(Clearable, j);
        if found.Some? {
          Store(found.value, j, Unpresent(grid[found.value, j]));
        }
      }
    }

    // -------------------------------------------------------------------
    // placeTanks and validateSafetyZones

    /** The placement of player p's next tank on (x, y): the cell records
        the owner and roster slot, and the roster gains a living tank. */
    method PlaceTank(p: int, x: int, y: int)
      requires Sized() && 0 <= x < m && 0 <= y < n
      modifies this, grid
      ensures Sized() && Abs() == State.PlaceTank(old(Abs()), p, x, y) && draws == old(draws)
    {
      var i := if p == 1 then |player1Tanks| else |player2Tanks|;
      Store(x, y, grid[x, y].(hasTank := true, tankPlayer := p, tankIndex := i));
      if p == 1 {
        player1Tanks := player1Tanks + [Tank(1, x, y, true)];
      } else {
        player2Tanks := player2Tanks + [Tank(2, x, y, true)];
      }
    }

    /** The `while (idx < availableCells.size() && !placed)` loop for one
        tank of player p. */
    method ScanList(order: seq<Pos>, idx: int, p: int) returns (next: int, placed: bool)
      requires Sized() && AllInBounds(Abs(), order) && 0 <= idx
      modifies this, grid
      ensures Sized() && draws == old(draws)
      ensures Placing(Abs(), next, placed) == Placement.ScanList(old(Abs()), order, idx, p)
      ensures !placed ==> next >= |order|
    {
      ghost var goal := Placement.ScanList(Abs(), order, idx, p);
      next, placed := idx, false;
      while next < |order| && !placed
        invariant Sized() && AllInBounds(Abs(), order) && next >= idx && draws == old(draws)
        invariant !placed ==> Placement.ScanList(Abs(), order, next, p) == goal
        invariant placed ==> Placing(Abs(), next, true) == goal
        decreases |order| - next
      {
        var (x, y) := order[next];
        if !InSafetyZone(x, y, Other(p), m, n) {
          PlaceTank(p, x, y);
          placed := true;
        }
        next := next + 1;
      }
    }

    /** The `for i` loop placing all tanks of player p from cursor idx on.
        The loop runs to the end as in the source; after the first tank
        that finds no cell the remaining passes change nothing. */
    method PlaceSide(order: seq<Pos>, idx: int, p: int) returns (next: int, ok: bool)
      requires Sized() && AllInBounds(Abs(), order) && 0 <= idx
      modifies this, grid
      ensures Sized() && draws == old(draws)
      ensures Placing(Abs(), next, ok) == PlaceAll(old(Abs()), order, idx, p, 0)
    {
      ghost var goal := PlaceAll(Abs(), order, idx, p, 0);
      next, ok := idx, true;
      var i := 0;
      while i < tanksPerPlayer
        invariant Sized() && AllInBounds(Abs(), order) && next >= idx && draws == old(draws)
        invariant ok ==> PlaceAll(Abs(), order, next, p, i) == goal
        invariant !ok ==> Placing(Abs(), next, false) == goal && next >= |order|
        invariant !ok ==> FirstOnBoard(Abs(), Refuge(Other(p)), 0, 0).None?
        decreases tanksPerPlayer - i
      {
        var placed;
        next, placed := PlaceNext(order, next, p);
        ok := ok && placed;
        i := i + 1;
      }
    }

    /** One pass of that loop: the list scan, then the emergency search. */
    method PlaceNext(order: seq<Pos>, idx: int, p: int) returns (next: int, placed: bool)
      requires Sized() && AllInBounds(Abs(), order) && 0 <= idx
      modifies this, grid
      ensures Sized() && draws == old(draws)
      ensures Placing(Abs(), next, placed) == Placement.PlaceNext(old(Abs()), order, idx, p)
      ensures !placed ==> next >= |order| && FirstOnBoard(Abs(), Refuge(Other(p)), 0, 0).None?
    {
      next, placed := ScanList(order, idx, p);
      if !placed {
        var cell := FindOnBoard(Refuge(Other(p)));
        if cell.Some? {
          PlaceTank(p, cell.value.0, cell.value.1);
          placed := true;
        }
      }
    }

    /** placeTanks with the shuffle as a parameter: collect the free
        cells, shuffle them, place player 1's tanks, then player 2's. */
    method PlaceTanks(shuffle: seq<Pos> -> seq<Pos>) returns (ok: bool)
      requires Sized() && Rearranges(shuffle)
      modifies this, grid
      ensures Sized() && draws == old(draws)
      ensures Abs() == Placement.PlaceTanks(old(Abs()), shuffle).w && ok == Placement.PlaceTanks(old(Abs()), shuffle).ok
    {
      var availableCells := CellsWhere(TankFree);
      availableCells := shuffle(availableCells);
      ShuffledInBounds(Abs(), shuffle);
      var idx, ok1 := PlaceSide(availableCells, 0, 1);
      var idx2, ok2 := PlaceSide(availableCells, idx, 2);
      ok := ok1 && ok2;
    }

    /** The tanks of a roster that rest in owner's safety zone, in order. */
    method TanksInZone(tanks: seq<Tank>, owner: int) returns (found: seq<Tank>)
      ensures found == InZone(tanks, owner, m, n)
    {
      found := [];
      for k := 0 to |tanks|
        invariant found == InZone(tanks[..k], owner, m, n)
      {
        assert tanks[..k + 1][..k] == tanks[..k];
        if InSafetyZone(tanks[k].x, tanks[k].y, owner, m, n) {
          found := found + [tanks[k]];
        }
      }
      assert tanks[..|tanks|] == tanks;
    }

    /** validateSafetyZones: the tanks it would hand to moveTankToSafeZone,
        player 2's in zone 1 first, then player 1's in zone 2. */
    method ValidateSafetyZones() returns (misplaced: seq<Tank>)
      ensures misplaced == Misplaced(Abs())
    {
      var intruders2 := TanksInZone(player2Tanks, 1);
      var intruders1 := TanksInZone(player1Tanks, 2);
      misplaced := intruders2 + intruders1;
    }

    /** generateMap with the shuffle as a parameter. */
    method GenerateMap(shuffle: seq<Pos> -> seq<Pos>) returns (ok: bool, misplaced: seq<Tank>)
      requires Sized() && 1 <= m && 1 <= n && Rearranges(shuffle)
      modifies this, grid
      ensures var g := Setup.GenerateMap(old(Abs()), rng, old(draws), shuffle);
        Sized() && Abs() == g.w && draws == g.draws && ok == g.ok
      ensures misplaced == Misplaced(Abs())
    {
      PlaceSources();
      SeedMirrors();
      ValidateMap();
      ok := PlaceTanks(shuffle);
      misplaced := ValidateSafetyZones();
    }

    // -------------------------------------------------------------------
    // playTurn and startGame

    /** The action a Move, Rotate or Shoot choice performs. */
    method Act(cmd: Command)
      requires Valid() && (cmd.MoveCmd? || cmd.RotateCmd? || cmd.ShootCmd?)
      modifies this, grid
      ensures Sized() && Abs() == Turn.Act(old(Abs()), cmd) && draws == old(draws)
    {
      match cmd
      case MoveCmd(x, y, dir) => MoveTankAction(x, y, dir);
      case RotateCmd(x, y) => RotateMirrorAction(x, y);
      case ShootCmd(x, y, dir) => TankShootAction(x, y, dir);
    }

    /** The laser phase of playTurn: fire, then, unless the shot ended the
        game, mirror upkeep and the clearing of the paths. */
    method LaserPhase(axis: char)
      requires Sized() && 1 <= m && 1 <= n
      modifies this, grid
      ensures var r := Turn.LaserPhase(old(Abs()), rng, old(draws), axis);
        Sized() && Abs() == r.w && draws == r.draws
    {
      ShootLaserAction(axis);
      if !gameOver {
        UpdateMirrors();
        ClearLaserPaths();
      }
    }

    /** playTurn with the menu choice, the action's input and the laser
        axis as read. */
    method PlayTurn(cmd: Command, axis: char)
      requires Valid()
      modifies this, grid
      ensures var r := Turn.PlayTurn(old(Abs()), rng, old(draws), cmd, axis);
        Valid() && Abs() == r.w && draws == r.draws
    {
      TurnKeeps(Abs(), rng, draws, cmd, axis);
      if cmd.ExitCmd? {
        ExitAction();
      } else if !cmd.InvalidCmd? {
        ActAndFire(cmd, axis);
      }
    }

    /** A Move, Rotate or Shoot turn: the action, then the laser phase
        unless the action ended the game. */
    method ActAndFire(cmd: Command, axis: char)
      requires Valid() && (cmd.MoveCmd? || cmd.RotateCmd? || cmd.ShootCmd?)
      modifies this, grid
      ensures var r := Turn.PlayTurn(old(Abs()), rng, old(draws), cmd, axis);
        Sized() && Abs() == r.w && draws == r.draws
    {
      ActKeeps(Abs(), cmd);
      Act(cmd);
      if !gameOver {
        assert 1 <= m && 1 <= n by {
          assert Consistent(Abs());
          assert CellLayoutOk(Abs(), 0, 0);
        }
        LaserPhase(axis);
      }
    }

    /** One pass of startGame's loop: a turn, the win check, and the
        change of player while the game goes on. */
    method Round(cmd: Command, axis: char)
      requires Valid()
      modifies this, grid
      ensures var r := Turn.Round(old(Abs()), rng, old(draws), cmd, axis);
        Valid() && Abs() == r.w && draws == r.draws
    {
      RoundFacts(Abs(), rng, draws, cmd, axis);
      PlayTurn(cmd, axis);
      CheckWinConditions();
      if !gameOver {
        SwitchPlayer();
      }
    }

    /** startGame's `while (!gameOver)` loop, over a finite list of inputs. */
    method Play(inputs: seq<(Command, char)>)
      requires Valid()
      modifies this, grid
      ensures var r := Turn.Play(old(Abs()), rng, old(draws), inputs);
        Valid() && Abs() == r.w && draws == r.draws
    {
      ghost var goal := Turn.Play(Abs(), rng, draws, inputs);
      var k := 0;
      while !gameOver && k < |inputs|
        invariant Valid() && 0 <= k <= |inputs|
        invariant Turn.Play(Abs(), rng, draws, inputs[k..]) == goal
        decreases |inputs| - k
      {
        assert inputs[k..][1..] == inputs[k + 1..];
        Round(inputs[k].0, inputs[k].1);
        k := k + 1;
      }
    }

    /** startGame on a game the constructor has just built from
        getDimensions' answers: generate the map and, when every tank found
        a cell, run the game loop. */
    method StartGame(shuffle: seq<Pos> -> seq<Pos>, inputs: seq<(Command, char)>) returns (ok: bool)
      requires Sized() && Abs() == NewGame(m, n, tanksPerPlayer) && 4 <= m && 4 <= n && tanksPerPlayer >= 1
      requires Rearranges(shuffle)
      modifies this, grid
      ensures var r := Turn.StartGame(m, n, tanksPerPlayer, rng, old(draws), shuffle, inputs);
        && ok == r.Some?
        && (ok ==> Valid() && Abs() == r.value.w && draws == r.value.draws)
    {
      GenerateMapFacts(m, n, tanksPerPlayer, rng, draws, shuffle);
      var misplaced;
      ok, misplaced := GenerateMap(shuffle);
      if ok {
        Play(inputs);
      }
    }
  }
}
