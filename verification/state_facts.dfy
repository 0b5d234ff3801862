// What the tank-state functions and the player actions promise: they keep
// the board invariant, and each action has exactly the outcomes the game
// rules list, in the order the source checks them.

module StateFacts {
  import opened Cells
  import opened Rules
  import opened State

  /** Only the cell (x, y) differs between the two boards. */
  ghost predicate OnlyCellChanged(w: GameState, r: GameState, x: int, y: int)
    requires Shaped(w) && Shaped(r) && w.m == r.m && w.n == r.n
  {
    forall i, j :: InBounds(w, i, j) && (i, j) != (x, y) ==> r.board[i][j] == w.board[i][j]
  }

  /** No cell's mirror flags or mirror differ between the two boards. */
  ghost predicate MirrorsUnchanged(w: GameState, r: GameState)
    requires Shaped(w) && Shaped(r) && w.m == r.m && w.n == r.n
  {
    forall i, j :: InBounds(w, i, j) ==>
      r.board[i][j].hasMirror == w.board[i][j].hasMirror && r.board[i][j].mirror == w.board[i][j].mirror
  }

  /** A change to the turn flags alone (player to move, gameOver, winner)
      keeps the invariant as long as the flags stay in range. */
  lemma FlagsOnlyKeeps(w: GameState, r: GameState)
    requires Consistent(w)
    requires r == w.(current := r.current, gameOver := r.gameOver, winner := r.winner)
    requires (r.current == 1 || r.current == 2) && 0 <= r.winner <= 2
    ensures Consistent(r)
  {
    forall i, j | InBounds(r, i, j) ensures CellLayoutOk(r, i, j) && CellLinked(r, i, j) {
      assert CellLayoutOk(w, i, j) && CellLinked(w, i, j);
    }
    forall q | 0 <= q < |r.p1| ensures TankLinked(r, 1, q) {
      assert TankLinked(w, 1, q);
    }
    forall q | 0 <= q < |r.p2| ensures TankLinked(r, 2, q) {
      assert TankLinked(w, 2, q);
    }
  }

  /** destroyTank touches only the cell it is given, never a mirror, and
      leaves that cell without a tank; on a cell without a tank it is a
      no-op. */
  lemma DestroyTankFrame(w: GameState, x: int, y: int)
    requires Shaped(w) && InBounds(w, x, y)
    ensures var r := DestroyTank(w, x, y);
      && OnlyCellChanged(w, r, x, y)
      && MirrorsUnchanged(w, r)
      && !r.board[x][y].hasTank
      && r.board[x][y].hasLaserSource == w.board[x][y].hasLaserSource
      && r.board[x][y].laserVisited == w.board[x][y].laserVisited
      && (!w.board[x][y].hasTank ==> r == w)
  {
  }

  /** When the cell holds a tank, exactly that tank dies: its owner's
      living count drops by one and the other roster is untouched. */
  lemma DestroyTankKills(w: GameState, x: int, y: int)
    requires Consistent(w) && InBounds(w, x, y) && w.board[x][y].hasTank
    ensures CellLinked(w, x, y)
    ensures var r := DestroyTank(w, x, y);
      var p, k := w.board[x][y].tankPlayer, w.board[x][y].tankIndex;
      && Roster(r, p) == Roster(w, p)[k := Roster(w, p)[k].(alive := false)]
      && Roster(r, Other(p)) == Roster(w, Other(p))
      && CountAlive(Roster(r, p)) == CountAlive(Roster(w, p)) - 1
  {
    assert CellLinked(w, x, y);
    var p, k := w.board[x][y].tankPlayer, w.board[x][y].tankIndex;
    CountAliveKill(Roster(w, p), k);
  }

  /** Emptying a tank cell and killing the roster entry it names keeps
      every link. */
  lemma KillKeepsLinked(w: GameState, r: GameState, x: int, y: int)
    requires Linked(w) && Shaped(r) && r.m == w.m && r.n == w.n
    requires InBounds(w, x, y) && w.board[x][y].hasTank && CellLinked(w, x, y)
    requires OnlyCellChanged(w, r, x, y) && !r.board[x][y].hasTank
    requires var p, k := w.board[x][y].tankPlayer, w.board[x][y].tankIndex;
      && Roster(r, p) == Roster(w, p)[k := Roster(w, p)[k].(alive := false)]
      && Roster(r, Other(p)) == Roster(w, Other(p))
    ensures Linked(r)
  {
    var p, k := w.board[x][y].tankPlayer, w.board[x][y].tankIndex;
    forall i, j | InBounds(r, i, j) ensures CellLinked(r, i, j) {
      if (i, j) != (x, y) {
        assert CellLinked(w, i, j);
        assert r.board[i][j] == w.board[i][j];
      }
    }
    forall q | 0 <= q < |r.p1| ensures TankLinked(r, 1, q) {
      assert TankLinked(w, 1, q);
    }
    forall q | 0 <= q < |r.p2| ensures TankLinked(r, 2, q) {
      assert TankLinked(w, 2, q);
    }
  }

  /** Clearing the tank of a cell keeps the layout. */
  lemma ClearTankKeepsLayout(w: GameState, r: GameState, x: int, y: int)
    requires LayoutOk(w) && Shaped(r) && r.m == w.m && r.n == w.n
    requires InBounds(w, x, y) && OnlyCellChanged(w, r, x, y)
    requires r.board[x][y] == w.board[x][y].(hasTank := false, tankPlayer := 0, tankIndex := -1)
    ensures LayoutOk(r)
  {
    forall i, j | InBounds(r, i, j) ensures CellLayoutOk(r, i, j) {
      assert CellLayoutOk(w, i, j);
      if (i, j) != (x, y) {
        assert r.board[i][j] == w.board[i][j];
      }
    }
  }

  /** destroyTank keeps the invariant. */
  lemma DestroyTankKeeps(w: GameState, x: int, y: int)
    requires Consistent(w) && InBounds(w, x, y)
    ensures Consistent(DestroyTank(w, x, y))
  {
    DestroyTankFrame(w, x, y);
    if w.board[x][y].hasTank {
      DestroyTankKills(w, x, y);
      var r := DestroyTank(w, x, y);
      KillKeepsLinked(w, r, x, y);
      ClearTankKeepsLayout(w, r, x, y);
    }
  }

  /** moveTank sets the tank flag of the destination, naming the moving
      tank, clears the flag of the origin, moves the roster entry the cell
      names and changes nothing else. */
  lemma MoveTankFrame(w: GameState, ox: int, oy: int, nx: int, ny: int)
    requires Shaped(w) && InBounds(w, ox, oy) && InBounds(w, nx, ny) && (ox, oy) != (nx, ny)
    requires 0 <= w.board[ox][oy].tankIndex < |Roster(w, w.board[ox][oy].tankPlayer)|
    ensures var r := MoveTank(w, ox, oy, nx, ny);
      var o := w.board[ox][oy];
      var p, k := o.tankPlayer, o.tankIndex;
      && r == w.(board := r.board, p1 := r.p1, p2 := r.p2)
      && r.board[nx][ny] == w.board[nx][ny].(hasTank := true, tankPlayer := p, tankIndex := k)
      && r.board[ox][oy] == o.(hasTank := false)
      && (forall i, j :: InBounds(w, i, j) && (i, j) != (ox, oy) && (i, j) != (nx, ny) ==>
            r.board[i][j] == w.board[i][j])
      && Roster(r, p) == Roster(w, p)[k := Roster(w, p)[k].(x := nx, y := ny)]
      && Roster(r, Other(p)) == Roster(w, Other(p))
  {
  }

  /** Moving a linked tank to a free cell, roster entry included, keeps
      every link. */
  lemma MoveKeepsLinked(w: GameState, r: GameState, ox: int, oy: int, nx: int, ny: int)
    requires Linked(w) && Shaped(r) && r.m == w.m && r.n == w.n
    requires InBounds(w, ox, oy) && InBounds(w, nx, ny) && (ox, oy) != (nx, ny)
    requires w.board[ox][oy].hasTank && CellLinked(w, ox, oy) && !w.board[nx][ny].hasTank
    requires var o := w.board[ox][oy];
      var p, k := o.tankPlayer, o.tankIndex;
      && r.board[nx][ny] == w.board[nx][ny].(hasTank := true, tankPlayer := p, tankIndex := k)
      && !r.board[ox][oy].hasTank
      && (forall i, j :: InBounds(w, i, j) && (i, j) != (ox, oy) && (i, j) != (nx, ny) ==>
            r.board[i][j] == w.board[i][j])
      && Roster(r, p) == Roster(w, p)[k := Roster(w, p)[k].(x := nx, y := ny)]
      && Roster(r, Other(p)) == Roster(w, Other(p))
    ensures Linked(r)
  {
    forall i, j | InBounds(r, i, j) ensures CellLinked(r, i, j) {
      if (i, j) != (ox, oy) && (i, j) != (nx, ny) {
        assert CellLinked(w, i, j);
      }
    }
    forall q | 0 <= q < |r.p1| ensures TankLinked(r, 1, q) {
      assert TankLinked(w, 1, q);
    }
    forall q | 0 <= q < |r.p2| ensures TankLinked(r, 2, q) {
      assert TankLinked(w, 2, q);
    }
  }

  /** Putting a tank on a cell with neither mirror nor source and taking
      one off another cell keeps the layout. */
  lemma MoveKeepsLayout(w: GameState, r: GameState, ox: int, oy: int, nx: int, ny: int)
    requires LayoutOk(w) && Shaped(r) && r.m == w.m && r.n == w.n
    requires InBounds(w, ox, oy) && InBounds(w, nx, ny) && (ox, oy) != (nx, ny)
    requires !w.board[nx][ny].hasMirror && !w.board[nx][ny].hasLaserSource
    requires r.board[nx][ny] == w.board[nx][ny].(hasTank := true, tankPlayer := r.board[nx][ny].tankPlayer,
                                                 tankIndex := r.board[nx][ny].tankIndex)
    requires r.board[ox][oy] == w.board[ox][oy].(hasTank := false)
    requires forall i, j :: InBounds(w, i, j) && (i, j) != (ox, oy) && (i, j) != (nx, ny) ==>
               r.board[i][j] == w.board[i][j]
    ensures LayoutOk(r)
  {
    forall i, j | InBounds(r, i, j) ensures CellLayoutOk(r, i, j) {
      assert CellLayoutOk(w, i, j);
    }
  }

  /** moveTank onto a free cell keeps the invariant and no tank dies. */
  lemma MoveTankKeeps(w: GameState, ox: int, oy: int, nx: int, ny: int)
    requires Consistent(w) && InBounds(w, ox, oy) && InBounds(w, nx, ny) && (ox, oy) != (nx, ny)
    requires w.board[ox][oy].hasTank
    requires !w.board[nx][ny].hasTank && !w.board[nx][ny].hasMirror && !w.board[nx][ny].hasLaserSource
    ensures CellLinked(w, ox, oy)
    ensures var r := MoveTank(w, ox, oy, nx, ny);
      && Consistent(r)
      && CountAlive(r.p1) == CountAlive(w.p1) && CountAlive(r.p2) == CountAlive(w.p2)
  {
    assert CellLinked(w, ox, oy);
    var r := MoveTank(w, ox, oy, nx, ny);
    var p, k := w.board[ox][oy].tankPlayer, w.board[ox][oy].tankIndex;
    MoveTankFrame(w, ox, oy, nx, ny);
    CountAliveSame(Roster(w, p), k, Roster(w, p)[k].(x := nx, y := ny));
    MoveKeepsLinked(w, r, ox, oy, nx, ny);
    MoveKeepsLayout(w, r, ox, oy, nx, ny);
  }

  /** Aim finds the neighbour in direction dir of a tank of the player to
      move, and finds nothing exactly when one of the checks fails. */
  lemma AimSpec(w: GameState, x: int, y: int, dir: int)
    requires Shaped(w)
    ensures var t := Aim(w, x, y, dir);
      && (t.Some? <==>
            && InBounds(w, x, y) && w.board[x][y].hasTank && w.board[x][y].tankPlayer == w.current
            && Offset(dir).Some? && InBounds(w, x + Offset(dir).value.0, y + Offset(dir).value.1))
      && (t.Some? ==> t.value == (x + Offset(dir).value.0, y + Offset(dir).value.1))
  {
  }

  /** Whether a move request is refused without any effect: bad origin,
      bad direction, off-board destination, a `hasMirror` destination or
      the mover's own source. */
  predicate MoveRefused(w: GameState, x: int, y: int, dir: int)
    requires Shaped(w)
  {
    match Aim(w, x, y, dir)
    case None => true
    case Some(t) =>
      || w.board[t.0][t.1].hasMirror
      || (w.board[t.0][t.1].hasLaserSource && w.board[t.0][t.1].sourcePlayer == w.current)
  }

  /** The roster s with entry k marked dead. */
  function Killed(s: seq<Tank>, k: int): seq<Tank>
    requires 0 <= k < |s|
  {
    s[k := s[k].(alive := false)]
  }

  /** A cell after destroyTank emptied it: no tank, player 0, index -1. */
  function Emptied(c: Cell): Cell {
    c.(hasTank := false, tankPlayer := 0, tankIndex := -1)
  }

  /** r is w after the tanks on (x, y) and (nx, ny) collided: both cells
      are emptied and keep everything else, no other cell changes, exactly
      the two roster entries they name die (one on each side, or two of
      the mover's own), and the game goes on as before. */
  ghost predicate Collided(w: GameState, r: GameState, x: int, y: int, nx: int, ny: int)
    requires Shaped(w) && InBounds(w, x, y) && InBounds(w, nx, ny)
  {
    CollidedBoard(w, r, x, y, nx, ny) && CollidedRosters(w, r, x, y, nx, ny)
  }

  /** The board half of a collision: both cells emptied, the rest kept. */
  ghost predicate CollidedBoard(w: GameState, r: GameState, x: int, y: int, nx: int, ny: int)
    requires Shaped(w) && InBounds(w, x, y) && InBounds(w, nx, ny)
  {
    && Shaped(r) && r == w.(board := r.board, p1 := r.p1, p2 := r.p2)
    && r.board[x][y] == Emptied(w.board[x][y]) && r.board[nx][ny] == Emptied(w.board[nx][ny])
    && (forall i, j :: InBounds(w, i, j) && (i, j) != (x, y) && (i, j) != (nx, ny) ==>
          r.board[i][j] == w.board[i][j])
  }

  /** The roster half of a collision: exactly the two named entries die. */
  ghost predicate CollidedRosters(w: GameState, r: GameState, x: int, y: int, nx: int, ny: int)
    requires Shaped(w) && InBounds(w, x, y) && InBounds(w, nx, ny)
  {
    var p, k := w.board[x][y].tankPlayer, w.board[x][y].tankIndex;
    var q, l := w.board[nx][ny].tankPlayer, w.board[nx][ny].tankIndex;
    && (p == 1 || p == 2) && (q == 1 || q == 2)
    && 0 <= k < |Roster(w, p)| && 0 <= l < |Roster(w, q)|
    && (p == q ==>
          && k != l
          && Roster(r, p) == Killed(Killed(Roster(w, p), k), l)
          && Roster(r, Other(p)) == Roster(w, Other(p))
          && CountAlive(Roster(r, p)) == CountAlive(Roster(w, p)) - 2)
    && (p != q ==>
          && Roster(r, p) == Killed(Roster(w, p), k)
          && Roster(r, q) == Killed(Roster(w, q), l)
          && CountAlive(Roster(r, p)) == CountAlive(Roster(w, p)) - 1
          && CountAlive(Roster(r, q)) == CountAlive(Roster(w, q)) - 1)
  }

  /** r is w after the tank on (x, y) moved to (nx, ny): the destination
      names it and keeps everything else, the origin only loses its tank
      flag, no other cell changes, its roster entry now stands on the
      destination, the other entries and roster are untouched, and the
      game goes on as before. */
  ghost predicate Moved(w: GameState, r: GameState, x: int, y: int, nx: int, ny: int)
    requires Shaped(w) && InBounds(w, x, y) && InBounds(w, nx, ny)
  {
    var src := w.board[x][y];
    var p, k := src.tankPlayer, src.tankIndex;
    && Shaped(r) && r == w.(board := r.board, p1 := r.p1, p2 := r.p2)
    && r.board[nx][ny] == w.board[nx][ny].(hasTank := true, tankPlayer := p, tankIndex := k)
    && r.board[x][y] == src.(hasTank := false)
    && (forall i, j :: InBounds(w, i, j) && (i, j) != (x, y) && (i, j) != (nx, ny) ==>
          r.board[i][j] == w.board[i][j])
    && 0 <= k < |Roster(w, p)|
    && Roster(r, p) == Roster(w, p)[k := Roster(w, p)[k].(x := nx, y := ny)]
    && Roster(r, Other(p)) == Roster(w, Other(p))
    && Roster(r, p)[k].alive
    && CountAlive(r.p1) == CountAlive(w.p1) && CountAlive(r.p2) == CountAlive(w.p2)
  }

  /** The outcomes of moveTankAction, in the order the source checks them:
      a refused move changes nothing; reaching the enemy source ends the
      game for the mover without moving the tank; running into any tank,
      one's own included, kills both tanks and empties both cells;
      otherwise the tank moves. */
  lemma MoveActionOutcomes(w: GameState, x: int, y: int, dir: int)
    requires Consistent(w)
    ensures MoveRefused(w, x, y, dir) ==> MoveAction(w, x, y, dir) == w
    ensures !MoveRefused(w, x, y, dir) ==>
      var t := Aim(w, x, y, dir).value;
      var dest := w.board[t.0][t.1];
      var r := MoveAction(w, x, y, dir);
      && (dest.hasLaserSource ==> r == w.(gameOver := true, winner := w.current))
      && (!dest.hasLaserSource && dest.hasTank ==> Collided(w, r, x, y, t.0, t.1))
      && (!dest.hasLaserSource && !dest.hasTank ==> Moved(w, r, x, y, t.0, t.1))
  {
    if !MoveRefused(w, x, y, dir) {
      var t := Aim(w, x, y, dir).value;
      assert MoveAction(w, x, y, dir) == Arrive(w, x, y, t.0, t.1);
      ArriveOutcomes(w, x, y, t.0, t.1);
    }
  }

  /** The destination checks on an accepted move: the enemy source wins,
      a tank means a collision, a free cell receives the tank. */
  lemma ArriveOutcomes(w: GameState, x: int, y: int, nx: int, ny: int)
    requires Consistent(w) && InBounds(w, x, y) && InBounds(w, nx, ny) && (x, y) != (nx, ny)
    requires w.board[x][y].hasTank && !w.board[nx][ny].hasMirror
    requires !(w.board[nx][ny].hasLaserSource && w.board[nx][ny].sourcePlayer == w.current)
    ensures var dest, r := w.board[nx][ny], Arrive(w, x, y, nx, ny);
      && (dest.hasLaserSource ==> r == w.(gameOver := true, winner := w.current))
      && (!dest.hasLaserSource && dest.hasTank ==> Collided(w, r, x, y, nx, ny))
      && (!dest.hasLaserSource && !dest.hasTank ==> Moved(w, r, x, y, nx, ny))
  {
    var dest := w.board[nx][ny];
    if !dest.hasLaserSource {
      if dest.hasTank {
        assert Arrive(w, x, y, nx, ny) == DestroyTank(DestroyTank(w, x, y), nx, ny);
        CollisionKills(w, x, y, nx, ny);
      } else {
        MoveOntoFree(w, x, y, nx, ny);
      }
    }
  }

  /** A move onto a free cell moves the tank. */
  lemma MoveOntoFree(w: GameState, x: int, y: int, nx: int, ny: int)
    requires Consistent(w) && InBounds(w, x, y) && InBounds(w, nx, ny) && (x, y) != (nx, ny)
    requires w.board[x][y].hasTank && !w.board[nx][ny].hasMirror
    requires !w.board[nx][ny].hasLaserSource && !w.board[nx][ny].hasTank
    ensures Moved(w, Arrive(w, x, y, nx, ny), x, y, nx, ny)
  {
    assert CellLinked(w, x, y);
    assert Arrive(w, x, y, nx, ny) == MoveTank(w, x, y, nx, ny);
    MoveTankFrame(w, x, y, nx, ny);
    var p, k := w.board[x][y].tankPlayer, w.board[x][y].tankIndex;
    CountAliveSame(Roster(w, p), k, Roster(w, p)[k].(x := nx, y := ny));
  }

  /** Two tanks that collide both die and both cells are emptied; nothing
      else changes. */
  lemma CollisionKills(w: GameState, x: int, y: int, nx: int, ny: int)
    requires Consistent(w) && InBounds(w, x, y) && InBounds(w, nx, ny) && (x, y) != (nx, ny)
    requires w.board[x][y].hasTank && w.board[nx][ny].hasTank
    ensures Collided(w, DestroyTank(DestroyTank(w, x, y), nx, ny), x, y, nx, ny)
  {
    CollisionBoard(w, x, y, nx, ny);
    CollisionRosters(w, x, y, nx, ny);
  }

  /** The board half of a collision: both cells lose their tank and every
      other cell is unchanged. */
  lemma CollisionBoard(w: GameState, x: int, y: int, nx: int, ny: int)
    requires Shaped(w) && InBounds(w, x, y) && InBounds(w, nx, ny) && (x, y) != (nx, ny)
    requires w.board[x][y].hasTank && w.board[nx][ny].hasTank
    ensures CollidedBoard(w, DestroyTank(DestroyTank(w, x, y), nx, ny), x, y, nx, ny)
  {
    var w1 := DestroyTank(w, x, y);
    DestroyTankFrame(w, x, y);
    assert w1.board[x][y] == Emptied(w.board[x][y]);
    var r := DestroyTank(w1, nx, ny);
    DestroyTankFrame(w1, nx, ny);
    assert r.board[nx][ny] == Emptied(w1.board[nx][ny]);
  }

  /** The roster half of a collision: exactly the two named entries die. */
  lemma CollisionRosters(w: GameState, x: int, y: int, nx: int, ny: int)
    requires Consistent(w) && InBounds(w, x, y) && InBounds(w, nx, ny) && (x, y) != (nx, ny)
    requires w.board[x][y].hasTank && w.board[nx][ny].hasTank
    ensures CollidedRosters(w, DestroyTank(DestroyTank(w, x, y), nx, ny), x, y, nx, ny)
  {
    var p, k := w.board[x][y].tankPlayer, w.board[x][y].tankIndex;
    var q, l := w.board[nx][ny].tankPlayer, w.board[nx][ny].tankIndex;
    assert CellLinked(w, x, y) && CellLinked(w, nx, ny);
    var w1 := DestroyTank(w, x, y);
    FirstKill(w, x, y, nx, ny);
    DestroyTankKills(w, x, y);
    DestroyTankKills(w1, nx, ny);
    if p == q {
      assert k != l;
      assert Roster(w1, p)[l] == Roster(w, p)[l];
    }
  }

  /** The first half of a collision: the mover dies, and the tank on the
      destination is still there. */
  lemma FirstKill(w: GameState, x: int, y: int, nx: int, ny: int)
    requires Consistent(w) && InBounds(w, x, y) && InBounds(w, nx, ny) && (x, y) != (nx, ny)
    requires w.board[x][y].hasTank
    ensures var src, w1 := w.board[x][y], DestroyTank(w, x, y);
      && Consistent(w1) && w1.board[nx][ny] == w.board[nx][ny] && !w1.board[x][y].hasTank
      && 0 <= src.tankIndex < |Roster(w1, src.tankPlayer)| && !Roster(w1, src.tankPlayer)[src.tankIndex].alive
      && (src.tankPlayer == 1 || src.tankPlayer == 2)
      && w1.gameOver == w.gameOver && w1.winner == w.winner
  {
    DestroyTankFrame(w, x, y);
    DestroyTankKills(w, x, y);
    DestroyTankKeeps(w, x, y);
  }

  /** Every outcome of moveTankAction keeps the invariant. */
  lemma MoveActionKeeps(w: GameState, x: int, y: int, dir: int)
    requires Consistent(w)
    ensures Consistent(MoveAction(w, x, y, dir))
  {
    match Aim(w, x, y, dir)
    case None =>
    case Some(t) => ArriveKeeps(w, x, y, t.0, t.1);
  }

  /** Every outcome of the destination checks keeps the invariant. */
  lemma ArriveKeeps(w: GameState, x: int, y: int, nx: int, ny: int)
    requires Consistent(w) && InBounds(w, x, y) && InBounds(w, nx, ny) && (x, y) != (nx, ny)
    requires w.board[x][y].hasTank
    ensures Consistent(Arrive(w, x, y, nx, ny))
  {
    var dest := w.board[nx][ny];
    assert CellLayoutOk(w, nx, ny);
    if dest.hasMirror || (dest.hasLaserSource && dest.sourcePlayer == w.current) {
    } else if dest.hasLaserSource {
      FlagsOnlyKeeps(w, Arrive(w, x, y, nx, ny));
    } else if dest.hasTank {
      FirstKill(w, x, y, nx, ny);
      DestroyTankKeeps(DestroyTank(w, x, y), nx, ny);
    } else {
      MoveTankKeeps(w, x, y, nx, ny);
    }
  }

  /** Direct fire changes nothing unless the current player's own tank
      fires in one of the eight directions at a cell on the board; it
      never changes a mirror. */
  lemma ShootActionOutcomes(w: GameState, x: int, y: int, dir: int)
    requires Consistent(w)
    ensures var r := ShootAction(w, x, y, dir);
      && Shaped(r) && r.m == w.m && r.n == w.n
      && MirrorsUnchanged(w, r)
      && ((!InBounds(w, x, y) || !w.board[x][y].hasTank || w.board[x][y].tankPlayer != w.current
           || Offset(dir).None?) ==> r == w)
      && ((InBounds(w, x, y) && Offset(dir).Some? &&
           !InBounds(w, x + Offset(dir).value.0, y + Offset(dir).value.1)) ==> r == w)
  {
    if InBounds(w, x, y) && w.board[x][y].hasTank && w.board[x][y].tankPlayer == w.current
       && Offset(dir).Some? {
      var tx, ty := x + Offset(dir).value.0, y + Offset(dir).value.1;
      if InBounds(w, tx, ty) {
        ShotAtFacts(w, tx, ty);
        assert ShootAction(w, x, y, dir) == ShotAt(w, tx, ty);
      }
    }
  }

  /** The shot's effect on its target: only that cell changes and no
      mirror does; a tank there dies whoever owns it; otherwise the enemy
      source there ends the game for the shooter; anything else is a
      miss that changes nothing. */
  lemma ShotAtFacts(w: GameState, tx: int, ty: int)
    requires Consistent(w) && InBounds(w, tx, ty)
    ensures var r := ShotAt(w, tx, ty);
      && Shaped(r) && r.m == w.m && r.n == w.n
      && MirrorsUnchanged(w, r)
      && OnlyCellChanged(w, r, tx, ty)
      && !r.board[tx][ty].hasTank
      && (w.board[tx][ty].hasTank ==>
            !Roster(r, w.board[tx][ty].tankPlayer)[w.board[tx][ty].tankIndex].alive)
      && ((!w.board[tx][ty].hasTank && w.board[tx][ty].hasLaserSource
           && w.board[tx][ty].sourcePlayer != w.current) ==>
            r == w.(gameOver := true, winner := w.current))
      && ((!w.board[tx][ty].hasTank && !(w.board[tx][ty].hasLaserSource
           && w.board[tx][ty].sourcePlayer != w.current)) ==> r == w)
  {
    DestroyTankFrame(w, tx, ty);
    if w.board[tx][ty].hasTank {
      DestroyTankKills(w, tx, ty);
    }
  }

  /** Direct fire keeps the invariant. */
  lemma ShootActionKeeps(w: GameState, x: int, y: int, dir: int)
    requires Consistent(w)
    ensures Consistent(ShootAction(w, x, y, dir))
  {
    if InBounds(w, x, y) && w.board[x][y].hasTank && w.board[x][y].tankPlayer == w.current
       && Offset(dir).Some? {
      var tx, ty := x + Offset(dir).value.0, y + Offset(dir).value.1;
      if InBounds(w, tx, ty) {
        if w.board[tx][ty].hasTank {
          DestroyTankKeeps(w, tx, ty);
        } else {
          FlagsOnlyKeeps(w, ShootAction(w, x, y, dir));
        }
      }
    }
  }

  /** Rotation toggles the orientation of a present mirror and nothing
      else: health is kept, and rotating the same cell twice restores the
      game. */
  lemma RotateActionFacts(w: GameState, x: int, y: int)
    requires Shaped(w)
    ensures var r := RotateAction(w, x, y);
      && RotateAction(r, x, y) == w
      && (InBounds(w, x, y) && w.board[x][y].mirror.present ==>
            && r.board[x][y].mirror.direction != w.board[x][y].mirror.direction
            && r.board[x][y].mirror.health == w.board[x][y].mirror.health
            && r.board[x][y] == w.board[x][y].(mirror := r.board[x][y].mirror)
            && r == w.(board := r.board)
            && OnlyCellChanged(w, r, x, y))
      && ((!InBounds(w, x, y) || !w.board[x][y].mirror.present) ==> r == w)
  {
    var r := RotateAction(w, x, y);
    if InBounds(w, x, y) && w.board[x][y].mirror.present {
      var c := w.board[x][y];
      var c1 := c.(mirror := c.mirror.(direction := Flip(c.mirror.direction)));
      assert r.board == w.board[x := w.board[x][y := c1]];
      assert c1.(mirror := c1.mirror.(direction := Flip(c1.mirror.direction))) == c;
      assert w.board[x][y := c1][y := c] == w.board[x];
      assert w.board[x := w.board[x][y := c1]][x := w.board[x]] == w.board;
    }
  }

  /** Rotation keeps the invariant. */
  lemma RotateActionKeeps(w: GameState, x: int, y: int)
    requires Consistent(w)
    ensures Consistent(RotateAction(w, x, y))
  {
    RotateActionFacts(w, x, y);
    if InBounds(w, x, y) && w.board[x][y].mirror.present {
      var r := RotateAction(w, x, y);
      TurnedKeepsCells(w, r, x, y);
      TurnedKeepsRosters(w, r, x, y);
    }
  }

  /** A change of one cell's mirror orientation keeps every cell's layout
      and link. */
  lemma TurnedKeepsCells(w: GameState, r: GameState, x: int, y: int)
    requires Consistent(w) && Shaped(r) && r == w.(board := r.board) && InBounds(w, x, y)
    requires OnlyCellChanged(w, r, x, y)
    requires r.board[x][y] == w.board[x][y].(mirror := r.board[x][y].mirror)
    requires r.board[x][y].mirror.present == w.board[x][y].mirror.present
    ensures forall i, j :: InBounds(r, i, j) ==> CellLayoutOk(r, i, j) && CellLinked(r, i, j)
  {
    forall i, j | InBounds(r, i, j) ensures CellLayoutOk(r, i, j) && CellLinked(r, i, j) {
      assert CellLayoutOk(w, i, j) && CellLinked(w, i, j);
    }
  }

  /** ... and every roster entry's link. */
  lemma TurnedKeepsRosters(w: GameState, r: GameState, x: int, y: int)
    requires Consistent(w) && Shaped(r) && r == w.(board := r.board) && InBounds(w, x, y)
    requires OnlyCellChanged(w, r, x, y)
    requires r.board[x][y] == w.board[x][y].(mirror := r.board[x][y].mirror)
    ensures forall q :: 0 <= q < |r.p1| ==> TankLinked(r, 1, q)
    ensures forall q :: 0 <= q < |r.p2| ==> TankLinked(r, 2, q)
  {
    forall q | 0 <= q < |r.p1| ensures TankLinked(r, 1, q) {
      assert TankLinked(w, 1, q);
    }
    forall q | 0 <= q < |r.p2| ensures TankLinked(r, 2, q) {
      assert TankLinked(w, 2, q);
    }
  }

  /** Leaving ends the game; the winner is the player with strictly more
      living tanks, 0 on a tie; the board is untouched. */
  lemma ExitActionFacts(w: GameState)
    requires Consistent(w)
    ensures var r := ExitAction(w);
      && Consistent(r) && r.gameOver && r.board == w.board
      && (r.winner == 1 <==> CountAlive(w.p1) > CountAlive(w.p2))
      && (r.winner == 2 <==> CountAlive(w.p2) > CountAlive(w.p1))
      && (r.winner == 0 <==> CountAlive(w.p1) == CountAlive(w.p2))
  {
    FlagsOnlyKeeps(w, ExitAction(w));
  }

  /** The win check ends the game exactly when one side has no living tank
      and the other has one, naming the survivor; when both sides are empty
      or both have tanks nothing changes. It only ever touches gameOver and
      winner. */
  lemma CheckWinFacts(w: GameState)
    requires Consistent(w)
    ensures var r := CheckWin(w);
      var a, b := CountAlive(w.p1), CountAlive(w.p2);
      && Consistent(r)
      && r == w.(gameOver := r.gameOver, winner := r.winner)
      && (a == 0 && b > 0 ==> r.gameOver && r.winner == 2)
      && (b == 0 && a > 0 ==> r.gameOver && r.winner == 1)
      && ((a == 0) == (b == 0) ==> r == w)
      && (!r.gameOver ==> (a == 0 <==> b == 0))
  {
    FlagsOnlyKeeps(w, CheckWin(w));
  }

  /** The win check runs after an inline win too and can replace it: a
      player who reached the enemy source while having no living tank left
      is recorded as the loser. */
  lemma CheckWinOverridesInlineWin(w: GameState)
    requires w.gameOver && w.winner == 1
    requires forall k :: 0 <= k < |w.p1| ==> !w.p1[k].alive
    requires exists k :: 0 <= k < |w.p2| && w.p2[k].alive
    ensures CheckWin(w).winner == 2
  {
    CountAliveZero(w.p1);
    CountAliveZero(w.p2);
  }

  /** Passing the turn flips between the two players and keeps the invariant. */
  lemma SwitchPlayerFacts(w: GameState)
    requires Consistent(w)
    ensures Consistent(SwitchPlayer(w))
    ensures SwitchPlayer(w).current != w.current
    ensures SwitchPlayer(SwitchPlayer(w)) == w
  {
    FlagsOnlyKeeps(w, SwitchPlayer(w));
  }
}
