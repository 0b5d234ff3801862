// End-of-turn board upkeep: updateMirrors (worn-out mirrors are removed
// and each removal spawns a fresh mirror on a random free cell) and
// clearLaserPaths.

module Upkeep {
  import opened Cells
  import opened Rules
  import opened State
  import opened Scan
  import opened MapGen

  /** The game after some upkeep, with the number of rand() values drawn. */
  datatype Upkept = Upkept(w: GameState, draws: nat)

  /** A broken mirror's cell after removal: no `hasMirror`, not present,
      health 0; its direction is left as it was. */
  function Removed(c: Cell): Cell {
    c.(hasMirror := false, mirror := c.mirror.(present := false, health := 0))
  }

  /** The spawn after one removal: collect the cells without source, tank
      or `hasMirror`; when there is one, draw its index, then draw the
      direction, and place a fresh mirror there. */
  function Respawn(w: GameState, rng: nat -> nat, draws: nat): (r: Upkept)
    requires Shaped(w)
    ensures Shaped(r.w) && r.w == w.(board := r.w.board)
  {
    var empty := Matches(w, MirrorFree, w.m);
    MatchesSpec(w, MirrorFree, w.m);
    if empty == [] then Upkept(w, draws)
    else
      var c := empty[rng(draws) % |empty|];
      assert c in empty;
      Upkept(WithCell(w, c.0, c.1, WithMirror(w.board[c.0][c.1], CoinDirection(rng(draws + 1)))), draws + 2)
  }

  /** The `for (auto &pos : brokenMirrors)` loop from entry k on. */
  function MaintainFrom(w: GameState, rng: nat -> nat, draws: nat, broken: seq<Pos>, k: int): (r: Upkept)
    requires Shaped(w) && 0 <= k
    requires forall q :: 0 <= q < |broken| ==> InBounds(w, broken[q].0, broken[q].1)
    ensures Shaped(r.w) && r.w == w.(board := r.w.board)
    decreases |broken| - k
  {
    if k >= |broken| then Upkept(w, draws)
    else
      var x, y := broken[k].0, broken[k].1;
      assert InBounds(w, x, y);
      var s := Respawn(WithCell(w, x, y, Removed(w.board[x][y])), rng, draws);
      assert forall q :: 0 <= q < |broken| && InBounds(w, broken[q].0, broken[q].1) ==> InBounds(s.w, broken[q].0, broken[q].1);
      MaintainFrom(s.w, rng, s.draws, broken, k + 1)
  }

  /** updateMirrors: the broken list is collected once, in row-major
      order, before any removal. */
  function UpdateMirrors(w: GameState, rng: nat -> nat, draws: nat): (r: Upkept)
    requires Shaped(w)
    ensures Shaped(r.w) && r.w == w.(board := r.w.board)
  {
    MatchesSpec(w, Broken, w.m);
    MaintainFrom(w, rng, draws, Matches(w, Broken, w.m), 0)
  }

  // ---------------------------------------------------------------------
  // Counting `hasMirror` cells

  function Ind(c: Cell): nat {
    if c.hasMirror then 1 else 0
  }

  function RowMirrors(row: seq<Cell>): nat {
    if row == [] then 0 else RowMirrors(row[..|row| - 1]) + Ind(row[|row| - 1])
  }

  function BoardMirrors(b: seq<seq<Cell>>): nat {
    if b == [] then 0 else BoardMirrors(b[..|b| - 1]) + RowMirrors(b[|b| - 1])
  }

  lemma {:induction false} RowMirrorsUpdate(row: seq<Cell>, y: int, c: Cell)
    requires 0 <= y < |row|
    ensures RowMirrors(row[y := c]) + Ind(row[y]) == RowMirrors(row) + Ind(c)
  {
    var u := row[y := c];
    if y == |row| - 1 {
      assert u[..|u| - 1] == row[..|row| - 1];
    } else {
      assert u[..|u| - 1] == row[..|row| - 1][y := c];
      RowMirrorsUpdate(row[..|row| - 1], y, c);
    }
  }

  lemma {:induction false} BoardMirrorsUpdate(b: seq<seq<Cell>>, x: int, row: seq<Cell>)
    requires 0 <= x < |b|
    ensures BoardMirrors(b[x := row]) + RowMirrors(b[x]) == BoardMirrors(b) + RowMirrors(row)
  {
    var u := b[x := row];
    if x == |b| - 1 {
      assert u[..|u| - 1] == b[..|b| - 1];
    } else {
      assert u[..|u| - 1] == b[..|b| - 1][x := row];
      BoardMirrorsUpdate(b[..|b| - 1], x, row);
    }
  }

  /** Replacing one cell changes the `hasMirror` count by the difference
      of the two cells. */
  lemma CellCountUpdate(w: GameState, x: int, y: int, c: Cell)
    requires Shaped(w) && InBounds(w, x, y)
    ensures BoardMirrors(WithCell(w, x, y, c).board) + Ind(w.board[x][y]) == BoardMirrors(w.board) + Ind(c)
  {
    RowMirrorsUpdate(w.board[x], y, c);
    BoardMirrorsUpdate(w.board, x, w.board[x][y := c]);
  }

  // ---------------------------------------------------------------------
  // Upkeep keeps the game consistent

  /** c differs from w's cell (x, y) at most in `hasMirror` and the mirror. */
  predicate MirrorOnlyEdit(w: GameState, x: int, y: int, c: Cell)
    requires Shaped(w) && InBounds(w, x, y)
  {
    c.(hasMirror := w.board[x][y].hasMirror, mirror := w.board[x][y].mirror) == w.board[x][y]
  }

  /** An edit of the mirror fields of one cell that keeps the cell's own
      layout facts keeps the game consistent. */
  lemma MirrorEditKeeps(w: GameState, x: int, y: int, c: Cell)
    requires Consistent(w) && InBounds(w, x, y) && MirrorOnlyEdit(w, x, y, c)
    requires (c.mirror.present ==> c.hasMirror) && (c.hasTank ==> !c.hasMirror)
    requires c.hasLaserSource ==> !c.hasMirror
    ensures Consistent(WithCell(w, x, y, c))
  {
    var r := WithCell(w, x, y, c);
    forall i, j | InBounds(r, i, j) ensures CellLayoutOk(r, i, j) && CellLinked(r, i, j) {
      assert CellLayoutOk(w, i, j) && CellLinked(w, i, j);
    }
    forall q | 0 <= q < |r.p1| ensures TankLinked(r, 1, q) {
      assert TankLinked(w, 1, q);
    }
    forall q | 0 <= q < |r.p2| ensures TankLinked(r, 2, q) {
      assert TankLinked(w, 2, q);
    }
  }

  /** Removing a `hasMirror` cell's mirror keeps the game consistent,
      lowers the count by one, and leaves the cell free for a new mirror. */
  lemma RemoveFacts(w: GameState, x: int, y: int)
    requires Consistent(w) && InBounds(w, x, y) && w.board[x][y].hasMirror
    ensures var r := WithCell(w, x, y, Removed(w.board[x][y]));
      && Consistent(r) && Holds(MirrorFree, r, x, y)
      && BoardMirrors(r.board) + 1 == BoardMirrors(w.board)
  {
    assert CellLayoutOk(w, x, y);
    MirrorEditKeeps(w, x, y, Removed(w.board[x][y]));
    CellCountUpdate(w, x, y, Removed(w.board[x][y]));
  }

  /** The spawn, when some cell is free, puts a fresh mirror on a free
      cell, keeps the game consistent and raises the count by one. */
  lemma RespawnFacts(w: GameState, rng: nat -> nat, draws: nat)
    requires Consistent(w)
    ensures var s := Respawn(w, rng, draws);
      && Consistent(s.w)
      && (Matches(w, MirrorFree, w.m) == [] ==> s == Upkept(w, draws))
      && (Matches(w, MirrorFree, w.m) != [] ==>
            && s.draws == draws + 2
            && BoardMirrors(s.w.board) == BoardMirrors(w.board) + 1
            && exists a, b :: InBounds(w, a, b) && Holds(MirrorFree, w, a, b) && Spawned(w, s.w, a, b))
  {
    var empty := Matches(w, MirrorFree, w.m);
    MatchesSpec(w, MirrorFree, w.m);
    if empty != [] {
      var c := empty[rng(draws) % |empty|];
      assert c in empty;
      var cell := WithMirror(w.board[c.0][c.1], CoinDirection(rng(draws + 1)));
      MirrorEditKeeps(w, c.0, c.1, cell);
      CellCountUpdate(w, c.0, c.1, cell);
      assert Spawned(w, Respawn(w, rng, draws).w, c.0, c.1);
    }
  }

  /** r is w with a fresh mirror on (a, b) and nothing else changed. */
  ghost predicate Spawned(w: GameState, r: GameState, a: int, b: int)
    requires Shaped(w) && InBounds(w, a, b)
  {
    && Shaped(r) && r == w.(board := r.board)
    && r.board[a][b].hasMirror && r.board[a][b].mirror.present
    && r.board[a][b].mirror.health == FreshHealth
    && MirrorOnlyEdit(w, a, b, r.board[a][b])
    && forall i, j :: InBounds(w, i, j) && (i, j) != (a, b) ==> r.board[i][j] == w.board[i][j]
  }

  /** What the removal loop keeps, k entries into the broken list of w0:
      the game stays consistent; only mirror fields have changed; every
      broken cell left is a later entry; later entries are untouched;
      intact mirrors of w0 are untouched; every `hasMirror` cell is
      either as in w0 or fresh; the `hasMirror` count is w0's. */
  ghost predicate Kept(w0: GameState, w: GameState, broken: seq<Pos>, k: int) {
    && KeptBase(w0, w, broken, k)
    && KeptLater(w0, w, broken, k)
    && KeptBroken(w, broken, k)
    && KeptIntact(w0, w)
    && KeptFresh(w0, w)
    && BoardMirrors(w.board) == BoardMirrors(w0.board)
  }

  ghost predicate KeptBase(w0: GameState, w: GameState, broken: seq<Pos>, k: int) {
    && Consistent(w0) && Consistent(w) && w == w0.(board := w.board)
    && 0 <= k <= |broken| && Distinct(broken)
    && (forall q :: 0 <= q < |broken| ==>
          InBounds(w0, broken[q].0, broken[q].1) && Holds(Broken, w0, broken[q].0, broken[q].1))
    && (forall a, b :: InBounds(w, a, b) ==> MirrorOnlyEdit(w0, a, b, w.board[a][b]))
  }

  ghost predicate KeptLater(w0: GameState, w: GameState, broken: seq<Pos>, k: int)
    requires KeptBase(w0, w, broken, k)
  {
    forall q :: k <= q < |broken| ==> w.board[broken[q].0][broken[q].1] == w0.board[broken[q].0][broken[q].1]
  }

  ghost predicate KeptBroken(w: GameState, broken: seq<Pos>, k: int)
    requires Shaped(w) && 0 <= k <= |broken|
  {
    forall a, b :: InBounds(w, a, b) && Holds(Broken, w, a, b) ==> (a, b) in broken[k..]
  }

  ghost predicate KeptIntact(w0: GameState, w: GameState)
    requires Shaped(w0) && Shaped(w) && w.m == w0.m && w.n == w0.n
  {
    forall a, b :: InBounds(w, a, b) && w0.board[a][b].hasMirror && !Holds(Broken, w0, a, b) ==>
      w.board[a][b] == w0.board[a][b]
  }

  ghost predicate KeptFresh(w0: GameState, w: GameState)
    requires Shaped(w0) && Shaped(w) && w.m == w0.m && w.n == w0.n
  {
    forall a, b :: InBounds(w, a, b) && w.board[a][b].hasMirror ==>
      w.board[a][b] == w0.board[a][b]
      || (w.board[a][b].mirror.present && w.board[a][b].mirror.health == FreshHealth)
  }

  /** w2 is w with the mirror at (x, y) removed and then a fresh mirror
      spawned at (a, b), a cell that had no `hasMirror` unless it is the
      freed one. */
  ghost predicate RemovedThenSpawned(w: GameState, w2: GameState, x: int, y: int, a: int, b: int) {
    && Shaped(w) && Shaped(w2) && w2 == w.(board := w2.board)
    && InBounds(w, x, y) && InBounds(w, a, b)
    && ((a, b) == (x, y) || !w.board[a][b].hasMirror)
    && (forall i, j :: InBounds(w, i, j) && (i, j) != (x, y) && (i, j) != (a, b) ==> w2.board[i][j] == w.board[i][j])
    && ((x, y) != (a, b) ==> w2.board[x][y] == Removed(w.board[x][y]))
    && w2.board[a][b].hasMirror && w2.board[a][b].mirror.present
    && w2.board[a][b].mirror.health == FreshHealth
    && MirrorOnlyEdit(w, a, b, w2.board[a][b])
  }

  lemma StepShape(w: GameState, rng: nat -> nat, draws: nat, x: int, y: int)
    requires Consistent(w) && InBounds(w, x, y) && w.board[x][y].hasMirror
    ensures var w1 := WithCell(w, x, y, Removed(w.board[x][y]));
      var s := Respawn(w1, rng, draws);
      && Consistent(s.w) && s.draws == draws + 2
      && BoardMirrors(s.w.board) == BoardMirrors(w.board)
      && exists a, b :: RemovedThenSpawned(w, s.w, x, y, a, b)
  {
    var w1 := WithCell(w, x, y, Removed(w.board[x][y]));
    RemoveFacts(w, x, y);
    MatchesSpec(w1, MirrorFree, w1.m);
    assert (x, y) in Matches(w1, MirrorFree, w1.m);
    var s := Respawn(w1, rng, draws);
    RespawnFacts(w1, rng, draws);
    var a, b :| InBounds(w1, a, b) && Holds(MirrorFree, w1, a, b) && Spawned(w1, s.w, a, b);
    SpawnAfterRemove(w, w1, s.w, x, y, a, b);
  }

  lemma SpawnAfterRemove(w: GameState, w1: GameState, w2: GameState, x: int, y: int, a: int, b: int)
    requires Shaped(w) && InBounds(w, x, y) && w1 == WithCell(w, x, y, Removed(w.board[x][y]))
    requires InBounds(w1, a, b) && Holds(MirrorFree, w1, a, b) && Spawned(w1, w2, a, b)
    ensures RemovedThenSpawned(w, w2, x, y, a, b)
  {
    if (a, b) != (x, y) {
      assert w1.board[a][b] == w.board[a][b];
    }
  }

  lemma StepLater(w0: GameState, w: GameState, w2: GameState, broken: seq<Pos>, k: int, a: int, b: int)
    requires KeptBase(w0, w, broken, k) && KeptLater(w0, w, broken, k) && k < |broken|
    requires RemovedThenSpawned(w, w2, broken[k].0, broken[k].1, a, b)
    requires KeptBase(w0, w2, broken, k + 1)
    ensures KeptLater(w0, w2, broken, k + 1)
  {
    forall q | k + 1 <= q < |broken|
      ensures w2.board[broken[q].0][broken[q].1] == w0.board[broken[q].0][broken[q].1]
    {
      assert broken[q] != broken[k];
      assert Holds(Broken, w0, broken[q].0, broken[q].1);
    }
  }

  lemma StepBroken(w: GameState, w2: GameState, broken: seq<Pos>, k: int, a: int, b: int)
    requires Shaped(w) && 0 <= k < |broken| && KeptBroken(w, broken, k)
    requires RemovedThenSpawned(w, w2, broken[k].0, broken[k].1, a, b)
    ensures KeptBroken(w2, broken, k + 1)
  {
    forall i, j | InBounds(w2, i, j) && Holds(Broken, w2, i, j) ensures (i, j) in broken[k + 1..] {
      assert (i, j) != (a, b) && (i, j) != broken[k];
      assert w2.board[i][j] == w.board[i][j];
      assert (i, j) in broken[k..];
      var q :| k <= q < |broken| && broken[q] == (i, j);
      assert broken[q] == broken[k + 1..][q - k - 1];
    }
  }

  lemma StepIntact(w0: GameState, w: GameState, w2: GameState, broken: seq<Pos>, k: int, a: int, b: int)
    requires KeptBase(w0, w, broken, k) && KeptIntact(w0, w) && k < |broken|
    requires RemovedThenSpawned(w, w2, broken[k].0, broken[k].1, a, b)
    ensures KeptIntact(w0, w2)
  {
    forall i, j | InBounds(w2, i, j) && w0.board[i][j].hasMirror && !Holds(Broken, w0, i, j)
      ensures w2.board[i][j] == w0.board[i][j]
    {
      assert (i, j) != broken[k];
    }
  }

  lemma StepFresh(w0: GameState, w: GameState, w2: GameState, x: int, y: int, a: int, b: int)
    requires Shaped(w0) && Shaped(w) && w.m == w0.m && w.n == w0.n && KeptFresh(w0, w)
    requires RemovedThenSpawned(w, w2, x, y, a, b)
    ensures KeptFresh(w0, w2)
  {
    forall i, j | InBounds(w2, i, j) && w2.board[i][j].hasMirror
      ensures w2.board[i][j] == w0.board[i][j]
        || (w2.board[i][j].mirror.present && w2.board[i][j].mirror.health == FreshHealth)
    {
      if (i, j) != (a, b) {
        assert (i, j) != (x, y);
      }
    }
  }

  lemma StepBase(w0: GameState, w: GameState, w2: GameState, broken: seq<Pos>, k: int, a: int, b: int)
    requires KeptBase(w0, w, broken, k) && k < |broken| && Consistent(w2)
    requires RemovedThenSpawned(w, w2, broken[k].0, broken[k].1, a, b)
    ensures KeptBase(w0, w2, broken, k + 1)
  {
    forall i, j | InBounds(w2, i, j) ensures MirrorOnlyEdit(w0, i, j, w2.board[i][j]) {
      assert MirrorOnlyEdit(w0, i, j, w.board[i][j]);
    }
  }

  /** One removal and its spawn keep the loop invariant; the spawn always
      happens, because the freed cell is itself free, and draws twice. */
  lemma MaintainStep(w0: GameState, w: GameState, rng: nat -> nat, draws: nat, broken: seq<Pos>, k: int)
    requires Kept(w0, w, broken, k) && k < |broken|
    ensures var x, y := broken[k].0, broken[k].1;
      var s := Respawn(WithCell(w, x, y, Removed(w.board[x][y])), rng, draws);
      Kept(w0, s.w, broken, k + 1) && s.draws == draws + 2
  {
    var x, y := broken[k].0, broken[k].1;
    assert w.board[x][y] == w0.board[x][y];
    StepShape(w, rng, draws, x, y);
    var s := Respawn(WithCell(w, x, y, Removed(w.board[x][y])), rng, draws);
    var a, b :| RemovedThenSpawned(w, s.w, x, y, a, b);
    StepBase(w0, w, s.w, broken, k, a, b);
    StepLater(w0, w, s.w, broken, k, a, b);
    StepBroken(w, s.w, broken, k, a, b);
    StepIntact(w0, w, s.w, broken, k, a, b);
    StepFresh(w0, w, s.w, x, y, a, b);
  }

  lemma {:induction false} MaintainFromFacts(w0: GameState, w: GameState, rng: nat -> nat, draws: nat, broken: seq<Pos>, k: int)
    requires Kept(w0, w, broken, k)
    ensures var s := MaintainFrom(w, rng, draws, broken, k);
      Kept(w0, s.w, broken, |broken|) && s.draws == draws + 2 * (|broken| - k)
    decreases |broken| - k
  {
    if k < |broken| {
      var x, y := broken[k].0, broken[k].1;
      var s := Respawn(WithCell(w, x, y, Removed(w.board[x][y])), rng, draws);
      MaintainStep(w0, w, rng, draws, broken, k);
      MaintainFromFacts(w0, s.w, rng, s.draws, broken, k + 1);
    }
  }

  /** updateMirrors on a consistent game: it stays consistent; no broken
      mirror remains; intact mirrors are untouched; every `hasMirror`
      cell is as before or holds a fresh mirror; only mirror fields
      change; every removal is matched by a spawn, so the `hasMirror`
      count is unchanged; two values are drawn per broken mirror. */
  lemma UpdateMirrorsFacts(w: GameState, rng: nat -> nat, draws: nat)
    requires Consistent(w)
    ensures var s := UpdateMirrors(w, rng, draws);
      && Consistent(s.w) && s.w == w.(board := s.w.board)
      && (forall a, b :: InBounds(w, a, b) ==> !Holds(Broken, s.w, a, b))
      && (forall a, b :: InBounds(w, a, b) && w.board[a][b].hasMirror && !Holds(Broken, w, a, b) ==>
            s.w.board[a][b] == w.board[a][b])
      && (forall a, b :: InBounds(w, a, b) && s.w.board[a][b].hasMirror ==>
            s.w.board[a][b] == w.board[a][b]
            || (s.w.board[a][b].mirror.present && s.w.board[a][b].mirror.health == FreshHealth))
      && (forall a, b :: InBounds(w, a, b) ==> MirrorOnlyEdit(w, a, b, s.w.board[a][b]))
      && BoardMirrors(s.w.board) == BoardMirrors(w.board)
      && s.draws == draws + 2 * |Matches(w, Broken, w.m)|
  {
    var broken := Matches(w, Broken, w.m);
    KeptStart(w);
    MaintainFromFacts(w, w, rng, draws, broken, 0);
    var s := MaintainFrom(w, rng, draws, broken, 0);
    assert s == UpdateMirrors(w, rng, draws);
    KeptEnd(w, s.w, broken);
  }

  /** The part of updateMirrors' effect the turn relies on. */
  lemma UpdateMirrorsKeeps(w: GameState, rng: nat -> nat, draws: nat)
    requires Consistent(w)
    ensures var s := UpdateMirrors(w, rng, draws);
      && Consistent(s.w) && s.w == w.(board := s.w.board)
      && forall a, b :: InBounds(w, a, b) ==> !Holds(Broken, s.w, a, b)
  {
    UpdateMirrorsFacts(w, rng, draws);
  }

  /** What the removal loop's invariant says once the list is used up. */
  lemma KeptEnd(w0: GameState, w: GameState, broken: seq<Pos>)
    requires Kept(w0, w, broken, |broken|)
    ensures Consistent(w) && w == w0.(board := w.board)
    ensures forall a, b :: InBounds(w0, a, b) ==> !Holds(Broken, w, a, b)
    ensures forall a, b :: InBounds(w0, a, b) && w0.board[a][b].hasMirror && !Holds(Broken, w0, a, b) ==>
      w.board[a][b] == w0.board[a][b]
    ensures forall a, b :: InBounds(w0, a, b) && w.board[a][b].hasMirror ==>
      w.board[a][b] == w0.board[a][b]
      || (w.board[a][b].mirror.present && w.board[a][b].mirror.health == FreshHealth)
    ensures forall a, b :: InBounds(w0, a, b) ==> MirrorOnlyEdit(w0, a, b, w.board[a][b])
    ensures BoardMirrors(w.board) == BoardMirrors(w0.board)
  {
    NoneLeft(w, broken);
  }

  lemma NoneLeft(w: GameState, broken: seq<Pos>)
    requires Shaped(w) && KeptBroken(w, broken, |broken|)
    ensures forall a, b :: InBounds(w, a, b) ==> !Holds(Broken, w, a, b)
  {
    assert broken[|broken|..] == [];
  }

  /** The removal loop's invariant holds before its first entry. */
  lemma KeptStart(w: GameState)
    requires Consistent(w)
    ensures Kept(w, w, Matches(w, Broken, w.m), 0)
  {
    var broken := Matches(w, Broken, w.m);
    MatchesSpec(w, Broken, w.m);
    RowMajorDistinct(broken);
    assert broken[0..] == broken;
    forall q | 0 <= q < |broken|
      ensures InBounds(w, broken[q].0, broken[q].1) && Holds(Broken, w, broken[q].0, broken[q].1)
    {
      assert broken[q] in broken;
    }
  }

  // ---------------------------------------------------------------------
  // clearLaserPaths

  /** clearLaserPaths: every cell's laser annotation is reset. */
  function ClearPaths(w: GameState): (r: GameState)
    requires Shaped(w)
    ensures Shaped(r) && r == w.(board := r.board)
    ensures forall i, j :: InBounds(w, i, j) ==> r.board[i][j] == Unmarked(w.board[i][j])
  {
    w.(board := seq(w.m, i requires 0 <= i < w.m =>
                  seq(w.n, j requires 0 <= j < w.n => Unmarked(w.board[i][j]))))
  }

  /** After clearLaserPaths no cell is visited or carries a path glyph,
      the game is as consistent as before, and clearing twice is clearing
      once. */
  lemma ClearPathsFacts(w: GameState)
    requires Shaped(w)
    ensures var r := ClearPaths(w);
      && (forall i, j :: InBounds(w, i, j) ==> !r.board[i][j].laserVisited && r.board[i][j].laserPathChar == ' ')
      && (Consistent(w) ==> Consistent(r))
      && ClearPaths(r) == r
  {
    var r := ClearPaths(w);
    if Consistent(w) {
      forall i, j | InBounds(r, i, j) ensures CellLayoutOk(r, i, j) && CellLinked(r, i, j) {
        assert CellLayoutOk(w, i, j) && CellLinked(w, i, j);
      }
      forall q | 0 <= q < |r.p1| ensures TankLinked(r, 1, q) {
        assert TankLinked(w, 1, q);
      }
      forall q | 0 <= q < |r.p2| ensures TankLinked(r, 2, q) {
        assert TankLinked(w, 2, q);
      }
    }
    var r2 := ClearPaths(r);
    assert r2.board == r.board by {
      forall i | 0 <= i < w.m ensures r2.board[i] == r.board[i] {
        assert forall j :: 0 <= j < w.n ==> r2.board[i][j] == r.board[i][j];
      }
    }
  }
}
