// A new game as getDimensions and the constructor leave it, and the whole
// of generateMap: sources, mirror seeding, validateMap, tank placement and
// the safety-zone scan, with the invariants the finished map satisfies.

module Setup {
  import opened Cells
  import opened Rules
  import opened State
  import opened Scan
  import opened MapGen
  import opened Placement

  /** The constructor and getDimensions: an m x n board of default cells,
      empty rosters, player 1 to move, no winner. */
  function NewGame(m: int, n: int, tanksPerPlayer: int): (r: GameState)
    requires 0 <= m && 0 <= n
    ensures Shaped(r) && r.m == m && r.n == n && r.tanksPerPlayer == tanksPerPlayer
    ensures forall i, j :: InBounds(r, i, j) ==> r.board[i][j] == EmptyCell
    ensures r.p1 == [] && r.p2 == [] && r.current == 1 && !r.gameOver && r.winner == 0
  {
    GameState(m, n, tanksPerPlayer, seq(m, i => seq(n, j => EmptyCell)), [], [], 1, false, 0)
  }

  /** What generateMap leaves: the game, the number of rand() draws made,
      and whether every tank found a cell. */
  datatype Generated = Generated(w: GameState, draws: nat, ok: bool)

  /** generateMap: sources, seeding of every row, validateMap, then
      placeTanks over the shuffled free cells. validateSafetyZones follows;
      GenerateMapFacts shows it finds no tank to relocate. */
  function GenerateMap(w: GameState, rng: nat -> nat, draws: nat, shuffle: seq<Pos> -> seq<Pos>): (r: Generated)
    requires Shaped(w) && 1 <= w.m && 1 <= w.n && Rearranges(shuffle)
    ensures Shaped(r.w) && r.w.m == w.m && r.w.n == w.n
  {
    var w1 := PlaceSources(w);
    var s := SeedRows(Seeding(w1, draws, 0), rng, 0);
    var w2 := ValidateMap(s.w);
    var p := PlaceTanks(w2, shuffle);
    Generated(p.w, s.draws, p.ok)
  }

  /** Row i has a `hasMirror` cell. */
  ghost predicate MirrorInRow(w: GameState, i: int)
    requires Shaped(w) && 0 <= i < w.m
  {
    exists j :: 0 <= j < w.n && w.board[i][j].hasMirror
  }

  /** The mirror count of a row depends on the `present` flags alone. */
  lemma {:induction false} RowPresentSame(w: GameState, r: GameState, i: int, j: int)
    requires Shaped(w) && Shaped(r) && r.m == w.m && r.n == w.n && 0 <= i < w.m && 0 <= j <= w.n
    requires forall b :: 0 <= b < w.n ==> r.board[i][b].mirror.present == w.board[i][b].mirror.present
    ensures RowPresent(r, i, j) == RowPresent(w, i, j)
  {
    if j > 0 {
      RowPresentSame(w, r, i, j - 1);
    }
  }

  lemma {:induction false} ColumnPresentSame(w: GameState, r: GameState, j: int, i: int)
    requires Shaped(w) && Shaped(r) && r.m == w.m && r.n == w.n && 0 <= j < w.n && 0 <= i <= w.m
    requires forall a :: 0 <= a < w.m ==> r.board[a][j].mirror.present == w.board[a][j].mirror.present
    ensures ColumnPresent(r, j, i) == ColumnPresent(w, j, i)
  {
    if i > 0 {
      ColumnPresentSame(w, r, j, i - 1);
    }
  }

  /** The board right after step 1: only the two corner cells differ from
      the blank board, and they are the sources. */
  lemma SourcesFacts(m: int, n: int, T: int)
    requires 4 <= m && 4 <= n
    ensures var w1 := PlaceSources(NewGame(m, n, T));
      && (forall a, b :: InBounds(w1, a, b) ==> !w1.board[a][b].hasTank && !w1.board[a][b].hasMirror)
      && (forall a, b :: InBounds(w1, a, b) ==> !w1.board[a][b].mirror.present)
      && (forall a, b :: InBounds(w1, a, b) ==> CellLayoutOk(w1, a, b))
  {
    var w := NewGame(m, n, T);
    var w1 := PlaceSources(w);
    forall a, b | InBounds(w1, a, b)
      ensures !w1.board[a][b].hasTank && !w1.board[a][b].hasMirror && !w1.board[a][b].mirror.present
      ensures CellLayoutOk(w1, a, b)
    {
      if (a, b) == (0, 0) {
        assert w1.board[a][b] == EmptyCell.(hasLaserSource := true, sourcePlayer := 1);
      } else if (a, b) == (m - 1, n - 1) {
        assert w1.board[a][b] == EmptyCell.(hasLaserSource := true, sourcePlayer := 2);
      } else {
        assert w1.board[a][b] == EmptyCell;
      }
    }
  }

  /** Seeding keeps the cell layout: mirrors only go where there is no
      source, and a seeded mirror is a `hasMirror` cell. */
  lemma SeededLayout(w: GameState, r: GameState)
    requires SeededFrom(w, r, 0)
    requires forall a, b :: InBounds(w, a, b) ==> !w.board[a][b].hasTank
    requires forall a, b :: InBounds(w, a, b) ==> CellLayoutOk(w, a, b)
    ensures forall a, b :: InBounds(r, a, b) ==> !r.board[a][b].hasTank && CellLayoutOk(r, a, b)
    ensures SourcesBare(r)
  {
    forall a, b | InBounds(r, a, b) ensures !r.board[a][b].hasTank && CellLayoutOk(r, a, b) {
      assert CellLayoutOk(w, a, b);
      assert SeededCell(w.board[a][b], r.board[a][b]);
    }
  }

  /** Validation keeps the cell layout and the `hasMirror` flags. */
  lemma ValidatedLayout(w: GameState, r: GameState)
    requires OnlyUnpresented(w, r)
    requires forall a, b :: InBounds(w, a, b) ==> !w.board[a][b].hasTank && CellLayoutOk(w, a, b)
    ensures forall a, b :: InBounds(r, a, b) ==>
      !r.board[a][b].hasTank && CellLayoutOk(r, a, b) && r.board[a][b].hasMirror == w.board[a][b].hasMirror
  {
    forall a, b | InBounds(r, a, b)
      ensures !r.board[a][b].hasTank && CellLayoutOk(r, a, b) && r.board[a][b].hasMirror == w.board[a][b].hasMirror
    {
      assert CellLayoutOk(w, a, b);
      assert r.board[a][b] == w.board[a][b] || r.board[a][b] == Unpresent(w.board[a][b]);
    }
  }

  /** The map before placement: sources in the corners and bare, a mirror
      in every row, no row or column fully present, no tank anywhere. */
  lemma MapBeforeTanks(w1: GameState, s: Seeding, w2: GameState, rng: nat -> nat, draws: nat)
    requires Shaped(w1) && 4 <= w1.m && 4 <= w1.n && w1.p1 == [] && w1.p2 == []
    requires forall a, b :: InBounds(w1, a, b) ==> !w1.board[a][b].hasTank
    requires forall a, b :: InBounds(w1, a, b) ==> CellLayoutOk(w1, a, b)
    requires s == SeedRows(Seeding(w1, draws, 0), rng, 0) && w2 == ValidateMap(s.w)
    ensures && Unpopulated(w2) && w2 == w1.(board := w2.board)
      && (forall i :: 0 <= i < w1.m ==> MirrorInRow(w2, i))
      && (forall i :: 0 <= i < w1.m ==> RowPresent(w2, i, w1.n) < w1.n)
      && (forall j :: 0 <= j < w1.n ==> ColumnPresent(w2, j, w1.m) < w1.m)
  {
    SeedStage(w1, s, rng, draws);
    ValidateStage(s.w, w2);
  }

  /** The seeding loops on a board with bare corner sources and no tank. */
  lemma SeedStage(w1: GameState, s: Seeding, rng: nat -> nat, draws: nat)
    requires Shaped(w1) && 4 <= w1.n
    requires forall a, b :: InBounds(w1, a, b) ==> !w1.board[a][b].hasTank
    requires forall a, b :: InBounds(w1, a, b) ==> CellLayoutOk(w1, a, b)
    requires s == SeedRows(Seeding(w1, draws, 0), rng, 0)
    ensures SeededFrom(w1, s.w, 0) && SourcesBare(s.w)
    ensures forall a, b :: InBounds(s.w, a, b) ==> !s.w.board[a][b].hasTank && CellLayoutOk(s.w, a, b)
    ensures forall i :: 0 <= i < s.w.m ==> RowHasMirror(s.w, i)
  {
    assert forall a, b :: InBounds(w1, a, b) && w1.board[a][b].hasLaserSource ==> IsSourcePos(w1, a, b) by {
      forall a, b | InBounds(w1, a, b) && w1.board[a][b].hasLaserSource ensures IsSourcePos(w1, a, b) {
        assert CellLayoutOk(w1, a, b);
      }
    }
    ForceableRows(w1);
    SeedRowsFacts(Seeding(w1, draws, 0), rng, 0);
    SeededLayout(w1, s.w);
  }

  /** validateMap on the seeded board. */
  lemma ValidateStage(w: GameState, w2: GameState)
    requires Shaped(w) && 4 <= w.m && 4 <= w.n && w.p1 == [] && w.p2 == [] && SourcesBare(w)
    requires forall a, b :: InBounds(w, a, b) ==> !w.board[a][b].hasTank && CellLayoutOk(w, a, b)
    requires forall i :: 0 <= i < w.m ==> RowHasMirror(w, i)
    requires w2 == ValidateMap(w)
    ensures && Unpopulated(w2) && w2 == w.(board := w2.board)
      && (forall i :: 0 <= i < w.m ==> MirrorInRow(w2, i))
      && (forall i :: 0 <= i < w.m ==> RowPresent(w2, i, w.n) < w.n)
      && (forall j :: 0 <= j < w.n ==> ColumnPresent(w2, j, w.m) < w.m)
  {
    ValidateMapFacts(w);
    ValidatedLayout(w, w2);
    ValidatedRowsKeepMirror(w, w2);
  }

  /** Validation clears `present` flags only, so every row seeded with a
      mirror still has a `hasMirror` cell. */
  lemma ValidatedRowsKeepMirror(w: GameState, r: GameState)
    requires OnlyUnpresented(w, r)
    requires forall i :: 0 <= i < w.m ==> RowHasMirror(w, i)
    ensures forall i :: 0 <= i < w.m ==> MirrorInRow(r, i)
  {
    forall i | 0 <= i < w.m ensures MirrorInRow(r, i) {
      assert RowHasMirror(w, i);
      var j :| 0 <= j < w.n && w.board[i][j].hasMirror && w.board[i][j].mirror.present;
      assert r.board[i][j] == w.board[i][j] || r.board[i][j] == Unpresent(w.board[i][j]);
      assert r.board[i][j].hasMirror;
    }
  }

  /** Tank placement keeps every mirror flag, hence the row and column
      facts of the map it starts from. */
  lemma PlacementKeepsMirrors(w2: GameState, r: GameState)
    requires Shaped(w2) && Shaped(r) && r.m == w2.m && r.n == w2.n
    requires forall a, b :: InBounds(w2, a, b) ==>
      r.board[a][b].(hasTank := false, tankPlayer := w2.board[a][b].tankPlayer,
                     tankIndex := w2.board[a][b].tankIndex) == w2.board[a][b]
    requires forall i :: 0 <= i < w2.m ==> MirrorInRow(w2, i)
    requires forall i :: 0 <= i < w2.m ==> RowPresent(w2, i, w2.n) < w2.n
    requires forall j :: 0 <= j < w2.n ==> ColumnPresent(w2, j, w2.m) < w2.m
    ensures forall i :: 0 <= i < w2.m ==> MirrorInRow(r, i)
    ensures forall i :: 0 <= i < w2.m ==> RowPresent(r, i, w2.n) < w2.n
    ensures forall j :: 0 <= j < w2.n ==> ColumnPresent(r, j, w2.m) < w2.m
  {
    forall a, b | InBounds(w2, a, b) ensures r.board[a][b].mirror == w2.board[a][b].mirror
      && r.board[a][b].hasMirror == w2.board[a][b].hasMirror
    {
      assert r.board[a][b].(hasTank := false, tankPlayer := w2.board[a][b].tankPlayer,
                            tankIndex := w2.board[a][b].tankIndex) == w2.board[a][b];
    }
    forall i | 0 <= i < w2.m ensures MirrorInRow(r, i) {
      assert MirrorInRow(w2, i);
      var j :| 0 <= j < w2.n && w2.board[i][j].hasMirror;
      assert r.board[i][j].(hasTank := false, tankPlayer := w2.board[i][j].tankPlayer,
                            tankIndex := w2.board[i][j].tankIndex) == w2.board[i][j];
      assert r.board[i][j].hasMirror;
    }
    forall i | 0 <= i < w2.m ensures RowPresent(r, i, w2.n) < w2.n {
      RowPresentSame(w2, r, i, w2.n);
    }
    forall j | 0 <= j < w2.n ensures ColumnPresent(r, j, w2.m) < w2.m {
      ColumnPresentSame(w2, r, j, w2.m);
    }
  }

  /** The finished map of a new game, when every tank found a cell: the
      game is consistent, both rosters hold T living tanks outside the
      enemy's safety zone (so validateSafetyZones relocates nothing),
      every row still has a mirror, no row counts n present mirrors and no
      column m, and player 1 is to move in a game not yet over. */
  lemma GenerateMapFacts(m: int, n: int, T: int, rng: nat -> nat, draws: nat, shuffle: seq<Pos> -> seq<Pos>)
    requires 4 <= m && 4 <= n && T >= 1 && Rearranges(shuffle)
    ensures var r := GenerateMap(NewGame(m, n, T), rng, draws, shuffle);
      r.ok ==>
        && Consistent(r.w) && OutsideEnemyZones(r.w) && Misplaced(r.w) == []
        && SideSettled(r.w, 1) && SideSettled(r.w, 2)
        && r.w.current == 1 && !r.w.gameOver && r.w.winner == 0
        && (forall i :: 0 <= i < m ==> MirrorInRow(r.w, i))
        && (forall i :: 0 <= i < m ==> RowPresent(r.w, i, n) < n)
        && (forall j :: 0 <= j < n ==> ColumnPresent(r.w, j, m) < m)
  {
    var w1 := PlaceSources(NewGame(m, n, T));
    var s := SeedRows(Seeding(w1, draws, 0), rng, 0);
    var w2 := ValidateMap(s.w);
    var p := PlaceTanks(w2, shuffle);
    assert GenerateMap(NewGame(m, n, T), rng, draws, shuffle) == Generated(p.w, s.draws, p.ok);
    SourcesFacts(m, n, T);
    MapBeforeTanks(w1, s, w2, rng, draws);
    PlaceTanksFacts(w2, shuffle);
    if p.ok {
      MisplacedEmpty(p.w);
      PlacementKeepsMirrors(w2, p.w);
    }
  }
}
