// The laser: one call of the recursive ray simulation as a step function,
// the whole ray as the iteration of that step under the depth guard, and
// the two-ray shot fired from the current player's source.

module Laser {
  import opened Cells
  import opened Rules
  import opened State
  import opened StateFacts

  /** A ray standing on (x, y) and heading by (dx, dy). */
  datatype Ray = Ray(x: int, y: int, dx: int, dy: int)

  /** One step either stops the ray or hands it on to the next cell. */
  datatype StepResult = Halt(w: GameState) | Advance(w: GameState, next: Ray)

  /** The same cell with its laser mark set to the glyph g. */
  function Marked(c: Cell, g: char): Cell {
    c.(laserVisited := true, laserPathChar := g)
  }

  /** The current cell gets the glyph of the ray's heading unless it is
      already marked. */
  function MarkHere(w: GameState, r: Ray): (w1: GameState)
    requires Shaped(w) && InBounds(w, r.x, r.y)
    ensures Shaped(w1) && w1 == w.(board := w1.board)
  {
    var c := w.board[r.x][r.y];
    if c.laserVisited then w else WithCell(w, r.x, r.y, Marked(c, Glyph(r.dx, r.dy)))
  }

  /** A tank on (x, y) is destroyed and the cell marked 'X'. */
  function TankHit(w: GameState, x: int, y: int): (t: GameState)
    requires Shaped(w) && InBounds(w, x, y)
    ensures Shaped(t) && t.m == w.m && t.n == w.n && t.current == w.current
  {
    var w2 := DestroyTank(w, x, y);
    WithCell(w2, x, y, Marked(w2.board[x][y], 'X'))
  }

  /** The enemy source on (x, y) is hit: the shooter wins and the cell is
      marked '!'. */
  function SourceHit(w: GameState, x: int, y: int): (t: GameState)
    requires Shaped(w) && InBounds(w, x, y)
    ensures Shaped(t) && t.m == w.m && t.n == w.n && t.current == w.current
  {
    var w2 := w.(gameOver := true, winner := w.current);
    WithCell(w2, x, y, Marked(w.board[x][y], '!'))
  }

  /** The mirror on (x, y) loses one point of health and the cell is
      marked '*'. */
  function MirrorHit(w: GameState, x: int, y: int): (t: GameState)
    requires Shaped(w) && InBounds(w, x, y)
    ensures Shaped(t) && t == w.(board := t.board)
  {
    var c := w.board[x][y];
    WithCell(w, x, y, Marked(c.(mirror := c.mirror.(health := c.mirror.health - 1)), '*'))
  }

  /** The heading after a mirror of health h (before the hit) is struck:
      turned by the reflection law while the decremented health is not
      negative, unchanged otherwise. */
  function Bounce(m: Mirror, dx: int, dy: int): (d: (int, int))
    ensures m.health >= 1 ==> d == Reflect(m.direction, dx, dy)
    ensures m.health < 1 ==> d == (dx, dy)
  {
    if m.health - 1 >= 0 then Reflect(m.direction, dx, dy) else (dx, dy)
  }

  /** What the ray does on entering (nx, ny), in the source's order:
      tank, enemy source, mirror, anything else. */
  function Enter(w: GameState, r: Ray): (s: StepResult)
    requires Shaped(w)
    ensures Shaped(s.w) && s.w.m == w.m && s.w.n == w.n && s.w.current == w.current
  {
    var nx, ny := r.x + r.dx, r.y + r.dy;
    if !InBounds(w, nx, ny) then Halt(w)
    else
      var nc := w.board[nx][ny];
      if nc.hasTank then Halt(TankHit(w, nx, ny))
      else if nc.hasLaserSource && nc.sourcePlayer != w.current then Halt(SourceHit(w, nx, ny))
      else if nc.hasMirror then
        var d := Bounce(nc.mirror, r.dx, r.dy);
        Advance(MirrorHit(w, nx, ny), Ray(nx, ny, d.0, d.1))
      else Advance(w, Ray(nx, ny, r.dx, r.dy))
  }

  /** One call of simulateLaser up to its recursive call: off the board
      the ray stops; otherwise the current cell is marked if it is still
      unmarked, and the ray enters the next cell. A mirror counts when
      `hasMirror` is set, whether or not it is `present`. */
  function Step(w: GameState, r: Ray): (s: StepResult)
    requires Shaped(w)
    ensures Shaped(s.w) && s.w.m == w.m && s.w.n == w.n && s.w.current == w.current
  {
    if !InBounds(w, r.x, r.y) then Halt(w)
    else Enter(MarkHere(w, r), r)
  }

  /** The whole ray: simulateLaser from the given depth, stopped by the
      hasLoop guard once the depth exceeds twice the number of cells. */
  function Trace(w: GameState, r: Ray, depth: int): (t: GameState)
    requires Shaped(w)
    ensures Shaped(t) && t.m == w.m && t.n == w.n && t.current == w.current
    decreases w.m * w.n * 2 + 1 - depth
  {
    if HasLoop(w.m, w.n, depth) then w
    else match Step(w, r)
      case Halt(w1) => w1
      case Advance(w1, r1) => Trace(w1, r1, depth + 1)
  }

  /** shootLaserAction: mark the current player's source 'S', then fire
      along the chosen axis in both senses, the positive sense first;
      any other axis letter fires nothing. */
  function ShootLaser(w: GameState, axis: char): (t: GameState)
    requires Shaped(w) && 1 <= w.m && 1 <= w.n
    ensures Shaped(t) && t.m == w.m && t.n == w.n && t.current == w.current
  {
    var (sx, sy) := SourcePos(w, w.current);
    var w1 := WithCell(w, sx, sy, Marked(w.board[sx][sy], 'S'));
    var a := ToUpper(axis);
    if a == 'H' then Trace(Trace(w1, Ray(sx, sy, 0, 1), 0), Ray(sx, sy, 0, -1), 0)
    else if a == 'V' then Trace(Trace(w1, Ray(sx, sy, 1, 0), 0), Ray(sx, sy, -1, 0), 0)
    else w1
  }

  // ---------------------------------------------------------------------
  // What a cell may go through while the laser runs

  /** c' is c after laser traffic: sources and mirrors stay where they are
      with the same orientation and `present` flag, a mirror's health can
      only drop, and a tank can only disappear. */
  predicate Evolves(c: Cell, c': Cell) {
    && c'.hasLaserSource == c.hasLaserSource && c'.sourcePlayer == c.sourcePlayer
    && c'.hasMirror == c.hasMirror
    && c'.mirror.direction == c.mirror.direction && c'.mirror.present == c.mirror.present
    && c'.mirror.health <= c.mirror.health
    && (c'.hasTank ==> c.hasTank && c'.tankPlayer == c.tankPlayer && c'.tankIndex == c.tankIndex)
    && (c.laserVisited ==> c'.laserVisited)
  }

  ghost predicate BoardEvolves(w: GameState, t: GameState)
    requires Shaped(w) && Shaped(t)
  {
    && t.m == w.m && t.n == w.n
    && forall i, j :: InBounds(w, i, j) ==> Evolves(w.board[i][j], t.board[i][j])
  }

  /** No cell carries the diagonal glyph '+' that did not carry it before. */
  ghost predicate NoNewCross(w: GameState, t: GameState) {
    && Shaped(w) && Shaped(t) && t.m == w.m && t.n == w.n
    && forall i, j :: InBounds(w, i, j) && t.board[i][j].laserPathChar == '+' ==>
      w.board[i][j].laserPathChar == '+'
  }

  /** The game flags the laser may change: once over a game stays over, a
      newly ended game is won by the shooter, and otherwise the winner is
      untouched. */
  predicate FlagsAdvance(w: GameState, t: GameState) {
    && (w.gameOver ==> t.gameOver)
    && (!w.gameOver && t.gameOver ==> t.winner == w.current)
    && (!t.gameOver ==> t.winner == w.winner)
    && (w.gameOver ==> t.winner == w.winner || t.winner == w.current)
  }

  lemma EvolvesTrans(a: GameState, b: GameState, c: GameState)
    requires Shaped(a) && Shaped(b) && Shaped(c)
    requires BoardEvolves(a, b) && BoardEvolves(b, c)
    ensures BoardEvolves(a, c)
  {
    forall i, j | InBounds(a, i, j) ensures Evolves(a.board[i][j], c.board[i][j]) {
      assert Evolves(a.board[i][j], b.board[i][j]);
      assert Evolves(b.board[i][j], c.board[i][j]);
    }
  }

  /** Replacing one cell by a successor of it is a board evolution. */
  lemma WithCellEvolves(w: GameState, x: int, y: int, c: Cell)
    requires Shaped(w) && InBounds(w, x, y) && Evolves(w.board[x][y], c)
    ensures BoardEvolves(w, WithCell(w, x, y, c))
  {
  }

  lemma DestroyTankEvolves(w: GameState, x: int, y: int)
    requires Shaped(w) && InBounds(w, x, y)
    ensures BoardEvolves(w, DestroyTank(w, x, y))
  {
    DestroyTankFrame(w, x, y);
  }

  // ---------------------------------------------------------------------
  // One step

  /** A state change the laser may make: shape and the player to move are
      kept, the board only evolves, the flags advance, and the invariant
      is kept. */
  ghost predicate LaserMove(w: GameState, t: GameState) {
    && Shaped(w) && Shaped(t)
    && t.m == w.m && t.n == w.n && t.current == w.current && t.tanksPerPlayer == w.tanksPerPlayer
    && BoardEvolves(w, t) && FlagsAdvance(w, t)
    && (Consistent(w) ==> Consistent(t))
  }

  lemma LaserMoveTrans(a: GameState, b: GameState, c: GameState)
    requires LaserMove(a, b) && LaserMove(b, c)
    ensures LaserMove(a, c)
  {
    EvolvesTrans(a, b, c);
  }

  lemma NoNewCrossTrans(a: GameState, b: GameState, c: GameState)
    requires NoNewCross(a, b) && NoNewCross(b, c)
    ensures NoNewCross(a, c)
  {
    forall i, j | InBounds(a, i, j) && c.board[i][j].laserPathChar == '+'
      ensures a.board[i][j].laserPathChar == '+'
    {
      assert b.board[i][j].laserPathChar == '+';
    }
  }

  /** A cell whose laser fields differ and whose mirror differs at most in
      health keeps the invariant. */
  lemma RemarkKeeps(w: GameState, x: int, y: int, c: Cell)
    requires Consistent(w) && InBounds(w, x, y)
    requires c == w.board[x][y].(laserVisited := c.laserVisited, laserPathChar := c.laserPathChar,
                                 mirror := w.board[x][y].mirror.(health := c.mirror.health))
    ensures Consistent(WithCell(w, x, y, c))
  {
    var r := WithCell(w, x, y, c);
    forall i, j | InBounds(r, i, j) ensures CellLayoutOk(r, i, j) && CellLinked(r, i, j) {
      assert CellLayoutOk(w, i, j) && CellLinked(w, i, j);
    }
    forall q | 0 <= q < |r.p1| ensures TankLinked(r, 1, q) {
      assert TankLinked(w, 1, q);
    }
    forall q | 0 <= q < |r.p2| ensures TankLinked(r, 2, q) {
      assert TankLinked(w, 2, q);
    }
  }

  /** Re-marking one cell (laser fields, mirror health down) is a laser move. */
  lemma RemarkMoves(w: GameState, x: int, y: int, c: Cell)
    requires Shaped(w) && InBounds(w, x, y)
    requires c == w.board[x][y].(laserVisited := c.laserVisited, laserPathChar := c.laserPathChar,
                                 mirror := w.board[x][y].mirror.(health := c.mirror.health))
    requires c.laserVisited && c.mirror.health <= w.board[x][y].mirror.health
    ensures LaserMove(w, WithCell(w, x, y, c))
  {
    WithCellEvolves(w, x, y, c);
    if Consistent(w) {
      RemarkKeeps(w, x, y, c);
    }
  }

  lemma MarkHereFacts(w: GameState, r: Ray)
    requires Shaped(w) && InBounds(w, r.x, r.y)
    ensures LaserMove(w, MarkHere(w, r))
    ensures IsAxisUnit((r.dx, r.dy)) ==> NoNewCross(w, MarkHere(w, r))
  {
    var c := w.board[r.x][r.y];
    if !c.laserVisited {
      RemarkMoves(w, r.x, r.y, Marked(c, Glyph(r.dx, r.dy)));
    }
  }

  lemma TankHitFacts(w: GameState, x: int, y: int)
    requires Shaped(w) && InBounds(w, x, y)
    ensures LaserMove(w, TankHit(w, x, y))
    ensures var t := TankHit(w, x, y);
      NoNewCross(w, t) && !t.board[x][y].hasTank && t.board[x][y].laserPathChar == 'X'
  {
    var w2 := DestroyTank(w, x, y);
    DestroyTankFrame(w, x, y);
    DestroyTankEvolves(w, x, y);
    if Consistent(w) {
      DestroyTankKeeps(w, x, y);
    }
    RemarkMoves(w2, x, y, Marked(w2.board[x][y], 'X'));
    LaserMoveTrans(w, w2, TankHit(w, x, y));
  }

  lemma SourceHitFacts(w: GameState, x: int, y: int)
    requires Shaped(w) && InBounds(w, x, y)
    ensures LaserMove(w, SourceHit(w, x, y))
    ensures var t := SourceHit(w, x, y);
      NoNewCross(w, t) && t.gameOver && t.winner == w.current && t.board[x][y].laserPathChar == '!'
  {
    var w2 := w.(gameOver := true, winner := w.current);
    if Consistent(w) {
      FlagsOnlyKeeps(w, w2);
    }
    RemarkMoves(w2, x, y, Marked(w.board[x][y], '!'));
  }

  lemma MirrorHitFacts(w: GameState, x: int, y: int)
    requires Shaped(w) && InBounds(w, x, y)
    ensures LaserMove(w, MirrorHit(w, x, y))
    ensures var t := MirrorHit(w, x, y);
      && NoNewCross(w, t) && t.board[x][y].laserPathChar == '*'
      && t.board[x][y].mirror.health == w.board[x][y].mirror.health - 1
  {
    var c := w.board[x][y];
    RemarkMoves(w, x, y, Marked(c.(mirror := c.mirror.(health := c.mirror.health - 1)), '*'));
  }

  /** The cell's own successor relation is reflexive, so is the board's. */
  lemma EvolvesRefl(w: GameState)
    requires Shaped(w)
    ensures LaserMove(w, w) && NoNewCross(w, w)
  {
    assert BoardEvolves(w, w);
  }

  /** Entering the next cell is a laser move that writes no '+'. */
  lemma EnterMoves(w: GameState, r: Ray)
    requires Shaped(w)
    ensures LaserMove(w, Enter(w, r).w) && NoNewCross(w, Enter(w, r).w)
  {
    var nx, ny := r.x + r.dx, r.y + r.dy;
    if !InBounds(w, nx, ny) {
      EvolvesRefl(w);
    } else {
      var nc := w.board[nx][ny];
      if nc.hasTank {
        assert Enter(w, r).w == TankHit(w, nx, ny);
        TankHitFacts(w, nx, ny);
      } else if nc.hasLaserSource && nc.sourcePlayer != w.current {
        assert Enter(w, r).w == SourceHit(w, nx, ny);
        SourceHitFacts(w, nx, ny);
      } else if nc.hasMirror {
        assert Enter(w, r).w == MirrorHit(w, nx, ny);
        MirrorHitFacts(w, nx, ny);
      } else {
        assert Enter(w, r).w == w;
        EvolvesRefl(w);
      }
    }
  }

  /** A ray on an axis that goes on after entering a cell is still on an
      axis. */
  lemma EnterAxis(w: GameState, r: Ray)
    requires Shaped(w) && IsAxisUnit((r.dx, r.dy)) && Enter(w, r).Advance?
    ensures IsAxisUnit((Enter(w, r).next.dx, Enter(w, r).next.dy))
  {
    var nx, ny := r.x + r.dx, r.y + r.dy;
    var nc := w.board[nx][ny];
    ReflectTurnsAxis(nc.mirror.direction, r.dx, r.dy);
  }

  /** The cases of a step, as the source orders them, for a ray that moves. */
  lemma StepCases(w: GameState, r: Ray)
    requires Shaped(w) && InBounds(w, r.x, r.y) && (r.dx, r.dy) != (0, 0)
    ensures var nx, ny := r.x + r.dx, r.y + r.dy;
      var s := Step(w, r);
      && (!InBounds(w, nx, ny) ==> s.Halt?)
      && (InBounds(w, nx, ny) ==> EnterOutcome(w.board[nx][ny], w.current, r, s))
  {
    var w1 := MarkHere(w, r);
    var nx, ny := r.x + r.dx, r.y + r.dy;
    if InBounds(w, nx, ny) {
      assert w1.board[nx][ny] == w.board[nx][ny];
      EnterCases(w1, r);
    }
  }

  /** What entering a cell that held nc does, for the player p to move. */
  ghost predicate EnterOutcome(nc: Cell, p: int, r: Ray, s: StepResult) {
    var nx, ny := r.x + r.dx, r.y + r.dy;
    && Shaped(s.w) && InBounds(s.w, nx, ny)
    && (nc.hasTank ==>
          s.Halt? && !s.w.board[nx][ny].hasTank && s.w.board[nx][ny].laserPathChar == 'X')
    && (!nc.hasTank && nc.hasLaserSource && nc.sourcePlayer != p ==>
          s.Halt? && s.w.gameOver && s.w.winner == p && s.w.board[nx][ny].laserPathChar == '!')
    && (!nc.hasTank && !(nc.hasLaserSource && nc.sourcePlayer != p) && nc.hasMirror ==>
          s.Advance? && s.next.x == nx && s.next.y == ny
          && s.w.board[nx][ny].mirror.health == nc.mirror.health - 1
          && s.w.board[nx][ny].laserPathChar == '*'
          && (nc.mirror.health >= 1 ==> (s.next.dx, s.next.dy) == Reflect(nc.mirror.direction, r.dx, r.dy))
          && (nc.mirror.health < 1 ==> (s.next.dx, s.next.dy) == (r.dx, r.dy)))
    && (!nc.hasTank && !(nc.hasLaserSource && nc.sourcePlayer != p) && !nc.hasMirror ==>
          s == Advance(s.w, Ray(nx, ny, r.dx, r.dy)) && s.w.board[nx][ny] == nc)
  }

  /** The cases of entering the next cell, when it is on the board. */
  lemma EnterCases(w: GameState, r: Ray)
    requires Shaped(w) && InBounds(w, r.x + r.dx, r.y + r.dy)
    ensures EnterOutcome(w.board[r.x + r.dx][r.y + r.dy], w.current, r, Enter(w, r))
  {
    var nx, ny := r.x + r.dx, r.y + r.dy;
    var nc := w.board[nx][ny];
    if nc.hasTank {
      TankHitFacts(w, nx, ny);
    } else if nc.hasLaserSource && nc.sourcePlayer != w.current {
      SourceHitFacts(w, nx, ny);
    } else if nc.hasMirror {
      MirrorHitFacts(w, nx, ny);
    }
  }

  /** A step is a laser move. */
  lemma StepMoves(w: GameState, r: Ray)
    requires Shaped(w)
    ensures LaserMove(w, Step(w, r).w)
  {
    if InBounds(w, r.x, r.y) {
      var w1 := MarkHere(w, r);
      MarkHereFacts(w, r);
      EnterMoves(w1, r);
      LaserMoveTrans(w, w1, Step(w, r).w);
    } else {
      EvolvesRefl(w);
    }
  }

  /** A step of a ray on an axis writes no '+' and leaves the ray on an
      axis. */
  lemma StepAxis(w: GameState, r: Ray)
    requires Shaped(w) && IsAxisUnit((r.dx, r.dy))
    ensures NoNewCross(w, Step(w, r).w)
    ensures Step(w, r).Advance? ==> IsAxisUnit((Step(w, r).next.dx, Step(w, r).next.dy))
  {
    if InBounds(w, r.x, r.y) {
      var w1 := MarkHere(w, r);
      MarkHereFacts(w, r);
      EnterMoves(w1, r);
      if Enter(w1, r).Advance? {
        EnterAxis(w1, r);
      }
      NoNewCrossTrans(w, w1, Step(w, r).w);
    }
  }

  // ---------------------------------------------------------------------
  // The whole ray

  /** The whole ray is a laser move. */
  lemma {:induction false} TraceMoves(w: GameState, r: Ray, depth: int)
    requires Shaped(w)
    ensures LaserMove(w, Trace(w, r, depth))
    decreases w.m * w.n * 2 + 1 - depth
  {
    if HasLoop(w.m, w.n, depth) {
      EvolvesRefl(w);
    } else {
      StepMoves(w, r);
      var s := Step(w, r);
      if s.Advance? {
        TraceMoves(s.w, s.next, depth + 1);
        LaserMoveTrans(w, s.w, Trace(s.w, s.next, depth + 1));
      }
    }
  }

  /** A ray that starts along an axis never writes the diagonal glyph '+'. */
  lemma {:induction false} TraceAxis(w: GameState, r: Ray, depth: int)
    requires Shaped(w) && IsAxisUnit((r.dx, r.dy))
    ensures NoNewCross(w, Trace(w, r, depth))
    decreases w.m * w.n * 2 + 1 - depth
  {
    if HasLoop(w.m, w.n, depth) {
      EvolvesRefl(w);
    } else {
      StepAxis(w, r);
      var s := Step(w, r);
      if s.Advance? {
        TraceAxis(s.w, s.next, depth + 1);
        TraceOn(w, r, depth, s);
      } else {
        assert Trace(w, r, depth) == s.w;
      }
    }
  }

  /** The whole ray after a step that goes on is the rest of the ray from
      the next cell, and writes no '+' when the rest writes none. */
  lemma TraceOn(w: GameState, r: Ray, depth: int, s: StepResult)
    requires Shaped(w) && !HasLoop(w.m, w.n, depth) && s == Step(w, r) && s.Advance?
    requires NoNewCross(w, s.w) && NoNewCross(s.w, Trace(s.w, s.next, depth + 1))
    ensures NoNewCross(w, Trace(w, r, depth))
  {
    NoNewCrossTrans(w, s.w, Trace(s.w, s.next, depth + 1));
  }

  /** The shot is a laser move and never writes '+'; with an axis letter
      other than H or V (in either case) only the source mark is written. */
  lemma ShootLaserFacts(w: GameState, axis: char)
    requires Shaped(w) && 1 <= w.m && 1 <= w.n
    ensures var t := ShootLaser(w, axis);
      LaserMove(w, t) && NoNewCross(w, t)
    ensures ToUpper(axis) != 'H' && ToUpper(axis) != 'V' ==>
      var (sx, sy) := SourcePos(w, w.current);
      ShootLaser(w, axis) == WithCell(w, sx, sy, Marked(w.board[sx][sy], 'S'))
  {
    var (sx, sy) := SourcePos(w, w.current);
    var w1 := WithCell(w, sx, sy, Marked(w.board[sx][sy], 'S'));
    RemarkMoves(w, sx, sy, Marked(w.board[sx][sy], 'S'));
    var a := ToUpper(axis);
    if a == 'H' || a == 'V' {
      var r1 := if a == 'H' then Ray(sx, sy, 0, 1) else Ray(sx, sy, 1, 0);
      var r2 := if a == 'H' then Ray(sx, sy, 0, -1) else Ray(sx, sy, -1, 0);
      var w2 := Trace(w1, r1, 0);
      TraceMoves(w1, r1, 0);
      TraceAxis(w1, r1, 0);
      TraceMoves(w2, r2, 0);
      TraceAxis(w2, r2, 0);
      LaserMoveTrans(w, w1, w2);
      LaserMoveTrans(w, w2, Trace(w2, r2, 0));
      NoNewCrossTrans(w1, w2, Trace(w2, r2, 0));
      NoNewCrossTrans(w, w1, Trace(w2, r2, 0));
    }
  }

  // ---------------------------------------------------------------------
  // Mirror wear

  /** The game after k laser hits on the mirror cell (x, y). */
  function Hits(w: GameState, x: int, y: int, k: nat): (t: GameState)
    requires Shaped(w) && InBounds(w, x, y)
    ensures Shaped(t) && t == w.(board := t.board)
  {
    if k == 0 then w else MirrorHit(Hits(w, x, y, k - 1), x, y)
  }

  /** Each hit takes one point of health and nothing else of the mirror. */
  lemma {:induction false} HitsWear(w: GameState, x: int, y: int, k: nat)
    requires Shaped(w) && InBounds(w, x, y)
    ensures Hits(w, x, y, k).board[x][y].mirror == w.board[x][y].mirror.(health := w.board[x][y].mirror.health - k)
    ensures Hits(w, x, y, k).board[x][y].hasMirror == w.board[x][y].hasMirror
  {
    if k > 0 {
      HitsWear(w, x, y, k - 1);
    }
  }

  /** A mirror of health h reflects the ray on each of its first h hits
      and lets the ray through on every later one; a fresh mirror thus
      turns four axis rays and passes the fifth. */
  lemma MirrorWear(w: GameState, x: int, y: int, k: nat, dx: int, dy: int)
    requires Shaped(w) && InBounds(w, x, y)
    ensures var m := w.board[x][y].mirror;
      && (k < m.health ==> Bounce(Hits(w, x, y, k).board[x][y].mirror, dx, dy) == Reflect(m.direction, dx, dy))
      && (k >= m.health ==> Bounce(Hits(w, x, y, k).board[x][y].mirror, dx, dy) == (dx, dy))
    ensures w.board[x][y].mirror.health == FreshHealth && IsAxisUnit((dx, dy)) ==>
      (k < 4 <==> Bounce(Hits(w, x, y, k).board[x][y].mirror, dx, dy) == Reflect(w.board[x][y].mirror.direction, dx, dy))
  {
    HitsWear(w, x, y, k);
    if IsAxisUnit((dx, dy)) {
      ReflectTurnsAxis(w.board[x][y].mirror.direction, dx, dy);
    }
  }
}
