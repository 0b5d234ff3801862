// Map generation up to tank placement: the two laser sources, the mirror
// seeding loops of generateMap, and validateMap's row and column repair.
// Each loop nest is written as a function that consumes the rest of the
// loop from a given point, which is exactly what the loop's method keeps
// as its invariant.

module MapGen {
  import opened Cells
  import opened Rules
  import opened State
  import opened Scan

  /** rand() % 2 == 0 picks '/', anything else '\'. */
  function CoinDirection(k: nat): (d: MirrorDirection)
    ensures d == Slash <==> k % 2 == 0
  {
    if k % 2 == 0 then Slash else Backslash
  }

  /** Step 1 of generateMap: (0,0) becomes player 1's source and
      (m-1,n-1) player 2's. */
  function PlaceSources(w: GameState): (r: GameState)
    requires Shaped(w) && 1 <= w.m && 1 <= w.n
    ensures Shaped(r) && r == w.(board := r.board)
  {
    var w1 := WithCell(w, 0, 0, w.board[0][0].(hasLaserSource := true, sourcePlayer := 1));
    WithCell(w1, w.m - 1, w.n - 1, w1.board[w.m - 1][w.n - 1].(hasLaserSource := true, sourcePlayer := 2))
  }

  // ---------------------------------------------------------------------
  // Mirror seeding

  /** The state the seeding loops carry: the game, the number of random
      draws made so far, and `mirrorsInRow`. */
  datatype Seeding = Seeding(w: GameState, draws: nat, placed: int)

  /** The cell with a newly placed mirror of orientation d. */
  function WithMirror(c: Cell, d: MirrorDirection): Cell {
    c.(hasMirror := true, mirror := FreshMirror(d))
  }

  /** One iteration of the inner `for j` loop, on cell (i, j): skip a
      source; draw rand() % 100 and, below 30, on a cell without mirror
      or tank, place a fresh mirror with a second draw for its
      orientation. */
  function SeedCell(s: Seeding, rng: nat -> nat, i: int, j: int): (r: Seeding)
    requires Shaped(s.w) && InBounds(s.w, i, j)
    ensures Shaped(r.w) && r.w.m == s.w.m && r.w.n == s.w.n
  {
    var c := s.w.board[i][j];
    if c.hasLaserSource then s
    else if rng(s.draws) % 100 < 30 && !c.hasMirror && !c.hasTank then
      Seeding(WithCell(s.w, i, j, WithMirror(c, CoinDirection(rng(s.draws + 1)))), s.draws + 2, s.placed + 1)
    else s.(draws := s.draws + 1)
  }

  /** One pass of the inner `for j` loop over row i, from column j on. */
  function SeedPass(s: Seeding, rng: nat -> nat, i: int, j: int): (r: Seeding)
    requires Shaped(s.w) && 0 <= i < s.w.m && 0 <= j
    ensures Shaped(r.w) && r.w.m == s.w.m && r.w.n == s.w.n
    decreases s.w.n - j
  {
    if j >= s.w.n then s else SeedPass(SeedCell(s, rng, i, j), rng, i, j + 1)
  }

  /** The `while (mirrorsInRow == 0 && attempts < 50)` loop. */
  function SeedTries(s: Seeding, rng: nat -> nat, i: int, attempts: int): (r: Seeding)
    requires Shaped(s.w) && 0 <= i < s.w.m
    ensures Shaped(r.w) && r.w.m == s.w.m && r.w.n == s.w.n
    decreases 50 - attempts
  {
    if s.placed != 0 || attempts >= 50 then s
    else SeedTries(SeedPass(s, rng, i, 0), rng, i, attempts + 1)
  }

  /** The forced placement: the first cell of row i with neither source
      nor tank gets a fresh mirror. */
  function ForceMirror(s: Seeding, rng: nat -> nat, i: int): (r: Seeding)
    requires Shaped(s.w) && 0 <= i < s.w.m
    ensures Shaped(r.w) && r.w.m == s.w.m && r.w.n == s.w.n
  {
    match FirstInRow(s.w, Forceable, i, 0)
    case None => s
    case Some(j) =>
      var c1 := WithMirror(s.w.board[i][j], CoinDirection(rng(s.draws)));
      Seeding(WithCell(s.w, i, j, c1), s.draws + 1, s.placed)
  }

  /** All of the seeding for row i. */
  function SeedRow(s: Seeding, rng: nat -> nat, i: int): (r: Seeding)
    requires Shaped(s.w) && 0 <= i < s.w.m
    ensures Shaped(r.w) && r.w.m == s.w.m && r.w.n == s.w.n
  {
    var s1 := SeedTries(s.(placed := 0), rng, i, 0);
    if s1.placed == 0 then ForceMirror(s1, rng, i) else s1
  }

  /** The outer `for i` loop, from row i on. */
  function SeedRows(s: Seeding, rng: nat -> nat, i: int): (r: Seeding)
    requires Shaped(s.w) && 0 <= i
    ensures Shaped(r.w) && r.w.m == s.w.m && r.w.n == s.w.n
    decreases s.w.m - i
  {
    if i >= s.w.m then s else SeedRows(SeedRow(s, rng, i), rng, i + 1)
  }

  /** A cell after seeding: unchanged, or a cell without source or tank
      that now holds a fresh mirror. */
  predicate SeededCell(c: Cell, c': Cell) {
    c' == c || (!c.hasLaserSource && !c.hasTank && c' == WithMirror(c, c'.mirror.direction))
  }

  /** Seeding changes only the board, only in rows lo.. and only by
      placing fresh mirrors. */
  ghost predicate SeededFrom(w: GameState, r: GameState, lo: int) {
    && Shaped(w) && Shaped(r) && r == w.(board := r.board)
    && forall a, b :: InBounds(w, a, b) ==>
         (if a < lo then r.board[a][b] == w.board[a][b] else SeededCell(w.board[a][b], r.board[a][b]))
  }

  /** Seeding touches row i only. */
  ghost predicate SeededRow(w: GameState, r: GameState, i: int) {
    && Shaped(w) && Shaped(r) && r == w.(board := r.board)
    && forall a, b :: InBounds(w, a, b) ==>
         (if a != i then r.board[a][b] == w.board[a][b] else SeededCell(w.board[a][b], r.board[a][b]))
  }

  /** Row i holds at least one `hasMirror` cell whose mirror is present. */
  ghost predicate RowHasMirror(w: GameState, i: int)
    requires Shaped(w) && 0 <= i < w.m
  {
    exists j :: 0 <= j < w.n && w.board[i][j].hasMirror && w.board[i][j].mirror.present
  }

  lemma SeededRowTrans(a: GameState, b: GameState, c: GameState, i: int)
    requires SeededRow(a, b, i) && SeededRow(b, c, i)
    ensures SeededRow(a, c, i)
  {
    forall x, y | InBounds(a, x, y) && x == i ensures SeededCell(a.board[x][y], c.board[x][y]) {
      assert SeededCell(a.board[x][y], b.board[x][y]);
      assert SeededCell(b.board[x][y], c.board[x][y]);
    }
  }

  /** A seeded row keeps every mirror of the row that was already there. */
  lemma SeededKeepsRowMirror(w: GameState, r: GameState, i: int)
    requires SeededRow(w, r, i) && 0 <= i < w.m && RowHasMirror(w, i)
    ensures RowHasMirror(r, i)
  {
    var j :| 0 <= j < w.n && w.board[i][j].hasMirror && w.board[i][j].mirror.present;
    assert SeededCell(w.board[i][j], r.board[i][j]);
  }

  /** One cell of a pass: only row i changes, and only by a fresh mirror;
      the count of placements never drops, a placement leaves a present
      mirror in the row, and a present mirror already there stays. */
  lemma SeedCellFacts(s: Seeding, rng: nat -> nat, i: int, j: int)
    requires Shaped(s.w) && InBounds(s.w, i, j)
    ensures var r := SeedCell(s, rng, i, j);
      && SeededRow(s.w, r.w, i)
      && r.placed >= s.placed
      && (r.placed > s.placed ==> RowHasMirror(r.w, i))
      && (RowHasMirror(s.w, i) ==> RowHasMirror(r.w, i))
  {
    var r := SeedCell(s, rng, i, j);
    if r.placed > s.placed {
      assert r.w.board[i][j].hasMirror && r.w.board[i][j].mirror.present;
    }
    if RowHasMirror(s.w, i) {
      SeededKeepsRowMirror(s.w, r.w, i);
    }
  }

  lemma {:induction false} SeedPassFacts(s: Seeding, rng: nat -> nat, i: int, j: int)
    requires Shaped(s.w) && 0 <= i < s.w.m && 0 <= j
    ensures var r := SeedPass(s, rng, i, j);
      && SeededRow(s.w, r.w, i)
      && r.placed >= s.placed
      && (r.placed > 0 ==> s.placed > 0 || RowHasMirror(r.w, i))
      && (s.placed > 0 && RowHasMirror(s.w, i) ==> RowHasMirror(r.w, i))
    decreases s.w.n - j
  {
    if j < s.w.n {
      var s1 := SeedCell(s, rng, i, j);
      SeedCellFacts(s, rng, i, j);
      SeedPassFacts(s1, rng, i, j + 1);
      SeedPassOn(s, s1, SeedPass(s1, rng, i, j + 1), i);
    } else {
      assert SeededRow(s.w, s.w, i);
    }
  }

  /** Chaining one cell with the rest of the pass. */
  lemma SeedPassOn(s: Seeding, s1: Seeding, r: Seeding, i: int)
    requires Shaped(s.w) && 0 <= i < s.w.m
    requires SeededRow(s.w, s1.w, i) && s1.placed >= s.placed
    requires (s1.placed > s.placed ==> RowHasMirror(s1.w, i)) && (RowHasMirror(s.w, i) ==> RowHasMirror(s1.w, i))
    requires SeededRow(s1.w, r.w, i) && r.placed >= s1.placed
    requires (r.placed > 0 ==> s1.placed > 0 || RowHasMirror(r.w, i))
    requires (s1.placed > 0 && RowHasMirror(s1.w, i) ==> RowHasMirror(r.w, i))
    ensures SeededRow(s.w, r.w, i) && r.placed >= s.placed
    ensures r.placed > 0 ==> s.placed > 0 || RowHasMirror(r.w, i)
    ensures s.placed > 0 && RowHasMirror(s.w, i) ==> RowHasMirror(r.w, i)
  {
    SeededRowTrans(s.w, s1.w, r.w, i);
  }

  lemma {:induction false} SeedTriesFacts(s: Seeding, rng: nat -> nat, i: int, attempts: int)
    requires Shaped(s.w) && 0 <= i < s.w.m
    requires s.placed > 0 ==> RowHasMirror(s.w, i)
    ensures var r := SeedTries(s, rng, i, attempts);
      SeededRow(s.w, r.w, i) && r.placed >= s.placed && (r.placed > 0 ==> RowHasMirror(r.w, i))
    decreases 50 - attempts
  {
    if !(s.placed != 0 || attempts >= 50) {
      var s1 := SeedPass(s, rng, i, 0);
      SeedPassFacts(s, rng, i, 0);
      SeedTriesFacts(s1, rng, i, attempts + 1);
      SeededRowTrans(s.w, s1.w, SeedTries(s1, rng, i, attempts + 1).w, i);
    } else {
      assert SeededRow(s.w, s.w, i);
    }
  }

  /** Every row ends the seeding with a present mirror, provided the row
      has some cell without source or tank; only row i is touched, and
      only by placing fresh mirrors on cells without source or tank. */
  lemma SeedRowFacts(s: Seeding, rng: nat -> nat, i: int)
    requires Shaped(s.w) && 0 <= i < s.w.m
    ensures var r := SeedRow(s, rng, i);
      && SeededRow(s.w, r.w, i)
      && (FirstInRow(s.w, Forceable, i, 0).Some? ==> RowHasMirror(r.w, i))
  {
    var s1 := SeedTries(s.(placed := 0), rng, i, 0);
    SeedTriesFacts(s.(placed := 0), rng, i, 0);
    if s1.placed == 0 {
      ForceFacts(s.w, s1, rng, i);
      SeededRowTrans(s.w, s1.w, ForceMirror(s1, rng, i).w, i);
    }
  }

  /** The forced placement puts a present mirror into row i when the row,
      as it was before seeding, had a cell without source or tank. */
  lemma ForceFacts(w: GameState, s1: Seeding, rng: nat -> nat, i: int)
    requires Shaped(w) && 0 <= i < w.m && SeededRow(w, s1.w, i)
    ensures var r := ForceMirror(s1, rng, i);
      && SeededRow(s1.w, r.w, i)
      && (FirstInRow(w, Forceable, i, 0).Some? ==> RowHasMirror(r.w, i))
  {
    var r := ForceMirror(s1, rng, i);
    FirstInRowSpec(s1.w, Forceable, i, 0);
    FirstInRowSpec(w, Forceable, i, 0);
    if FirstInRow(w, Forceable, i, 0).Some? {
      var j0 := FirstInRow(w, Forceable, i, 0).value;
      assert SeededCell(w.board[i][j0], s1.w.board[i][j0]);
      assert Holds(Forceable, s1.w, i, j0);
    }
    if FirstInRow(s1.w, Forceable, i, 0).Some? {
      var j := FirstInRow(s1.w, Forceable, i, 0).value;
      assert r.w.board[i][j].hasMirror && r.w.board[i][j].mirror.present;
    }
    assert SeededRow(s1.w, r.w, i);
  }

  /** Seeding from row i on fills every row from i on with a present
      mirror (when each has a cell without source or tank) and keeps the
      rows before i. */
  lemma {:induction false} SeedRowsFacts(s: Seeding, rng: nat -> nat, i: int)
    requires Shaped(s.w) && 0 <= i
    requires forall a :: i <= a < s.w.m ==> FirstInRow(s.w, Forceable, a, 0).Some?
    ensures var r := SeedRows(s, rng, i);
      && SeededFrom(s.w, r.w, i)
      && forall a :: i <= a < s.w.m ==> RowHasMirror(r.w, a)
    decreases s.w.m - i
  {
    if i < s.w.m {
      var s1 := SeedRow(s, rng, i);
      var r := SeedRows(s1, rng, i + 1);
      SeedRowFacts(s, rng, i);
      SeededKeepsOtherRows(s.w, s1.w, i);
      SeedRowsFacts(s1, rng, i + 1);
      SeededStep(s.w, s1.w, r.w, i);
    } else {
      assert SeededFrom(s.w, s.w, i);
    }
  }

  /** Seeding row i leaves every later row with a cell without source or
      tank if it had one. */
  lemma SeededKeepsOtherRows(w: GameState, w1: GameState, i: int)
    requires 0 <= i < w.m && SeededRow(w, w1, i)
    requires forall a :: i <= a < w.m ==> FirstInRow(w, Forceable, a, 0).Some?
    ensures forall a :: i + 1 <= a < w.m ==> FirstInRow(w1, Forceable, a, 0).Some?
  {
    forall a | i + 1 <= a < w.m ensures FirstInRow(w1, Forceable, a, 0).Some? {
      var j := FirstInRow(w, Forceable, a, 0).value;
      assert w1.board[a][j] == w.board[a][j];
      assert Holds(Forceable, w1, a, j);
      FirstInRowSpec(w1, Forceable, a, 0);
    }
  }

  /** Seeding row i and then the rows after it seeds the rows from i on
      and keeps the mirror row i received. */
  lemma SeededStep(w: GameState, w1: GameState, r: GameState, i: int)
    requires 0 <= i < w.m && SeededRow(w, w1, i) && SeededFrom(w1, r, i + 1) && RowHasMirror(w1, i)
    ensures SeededFrom(w, r, i) && RowHasMirror(r, i)
  {
    var j :| 0 <= j < w.n && w1.board[i][j].hasMirror && w1.board[i][j].mirror.present;
    assert r.board[i][j] == w1.board[i][j];
    forall a, b | InBounds(w, a, b) ensures
      (if a < i then r.board[a][b] == w.board[a][b] else SeededCell(w.board[a][b], r.board[a][b]))
    {
      if a == i {
        assert r.board[a][b] == w1.board[a][b];
      } else if a > i {
        assert w1.board[a][b] == w.board[a][b];
      }
    }
  }

  /** Every row of a board of width at least 3 with sources only in the
      corners has a cell that is neither source nor tank, once it holds no
      tank. */
  lemma ForceableRows(w: GameState)
    requires Shaped(w) && 3 <= w.n
    requires forall a, b :: InBounds(w, a, b) ==> !w.board[a][b].hasTank
    requires forall a, b :: InBounds(w, a, b) && w.board[a][b].hasLaserSource ==> IsSourcePos(w, a, b)
    ensures forall a :: 0 <= a < w.m ==> FirstInRow(w, Forceable, a, 0).Some?
  {
    forall a | 0 <= a < w.m ensures FirstInRow(w, Forceable, a, 0).Some? {
      FirstInRowSpec(w, Forceable, a, 0);
      assert Holds(Forceable, w, a, 1);
    }
  }

  // ---------------------------------------------------------------------
  // validateMap

  /** Number of cells (i, 0..j-1) whose mirror is present. */
  function RowPresent(w: GameState, i: int, j: int): (k: nat)
    requires Shaped(w) && 0 <= i < w.m && 0 <= j <= w.n
    ensures k <= j
  {
    if j == 0 then 0 else RowPresent(w, i, j - 1) + (if w.board[i][j - 1].mirror.present then 1 else 0)
  }

  /** Number of cells (0..i-1, j) whose mirror is present. */
  function ColumnPresent(w: GameState, j: int, i: int): (k: nat)
    requires Shaped(w) && 0 <= j < w.n && 0 <= i <= w.m
    ensures k <= i
  {
    if i == 0 then 0 else ColumnPresent(w, j, i - 1) + (if w.board[i - 1][j].mirror.present then 1 else 0)
  }

  /** The count reaches the length exactly when every counted cell is present. */
  lemma {:induction false} RowPresentFull(w: GameState, i: int, j: int)
    requires Shaped(w) && 0 <= i < w.m && 0 <= j <= w.n
    ensures RowPresent(w, i, j) == j <==> forall b :: 0 <= b < j ==> w.board[i][b].mirror.present
  {
    if j > 0 {
      RowPresentFull(w, i, j - 1);
    }
  }

  lemma {:induction false} ColumnPresentFull(w: GameState, j: int, i: int)
    requires Shaped(w) && 0 <= j < w.n && 0 <= i <= w.m
    ensures ColumnPresent(w, j, i) == i <==> forall a :: 0 <= a < i ==> w.board[a][j].mirror.present
  {
    if i > 0 {
      ColumnPresentFull(w, j, i - 1);
    }
  }

  /** The cell with its mirror's `present` flag cleared (and nothing else). */
  function Unpresent(c: Cell): Cell {
    c.(mirror := c.mirror.(present := false))
  }

  /** The repair of row i: when all n cells are present, the first present
      cell off the sources loses its `present` flag. */
  function FixRow(w: GameState, i: int): (r: GameState)
    requires Shaped(w) && 0 <= i < w.m
    ensures Shaped(r) && r.m == w.m && r.n == w.n
  {
    if RowPresent(w, i, w.n) != w.n then w
    else match FirstInRow(w, Clearable, i, 0)
      case None => w
      case Some(j) => WithCell(w, i, j, Unpresent(w.board[i][j]))
  }

  /** The repair of column j, likewise. */
  function FixColumn(w: GameState, j: int): (r: GameState)
    requires Shaped(w) && 0 <= j < w.n
    ensures Shaped(r) && r.m == w.m && r.n == w.n
  {
    if ColumnPresent(w, j, w.m) != w.m then w
    else match FirstInColumn(w, Clearable, j, 0)
      case None => w
      case Some(i) => WithCell(w, i, j, Unpresent(w.board[i][j]))
  }

  function FixRows(w: GameState, i: int): (r: GameState)
    requires Shaped(w) && 0 <= i
    ensures Shaped(r) && r.m == w.m && r.n == w.n
    decreases w.m - i
  {
    if i >= w.m then w else FixRows(FixRow(w, i), i + 1)
  }

  function FixColumns(w: GameState, j: int): (r: GameState)
    requires Shaped(w) && 0 <= j
    ensures Shaped(r) && r.m == w.m && r.n == w.n
    decreases w.n - j
  {
    if j >= w.n then w else FixColumns(FixColumn(w, j), j + 1)
  }

  /** validateMap: every row, then every column. */
  function ValidateMap(w: GameState): (r: GameState)
    requires Shaped(w)
    ensures Shaped(r) && r.m == w.m && r.n == w.n
  {
    FixColumns(FixRows(w, 0), 0)
  }

  /** Validation only clears `present` flags. */
  ghost predicate OnlyUnpresented(w: GameState, r: GameState) {
    && Shaped(w) && Shaped(r) && r == w.(board := r.board)
    && forall a, b :: InBounds(w, a, b) ==>
         r.board[a][b] == w.board[a][b] || r.board[a][b] == Unpresent(w.board[a][b])
  }

  /** No source cell has a present mirror. */
  ghost predicate SourcesBare(w: GameState)
    requires Shaped(w)
  {
    forall a, b :: InBounds(w, a, b) && w.board[a][b].hasLaserSource ==> !w.board[a][b].mirror.present
  }

  ghost predicate RowOpen(w: GameState, i: int)
    requires Shaped(w) && 0 <= i < w.m
  {
    exists b :: 0 <= b < w.n && !w.board[i][b].mirror.present
  }

  ghost predicate ColumnOpen(w: GameState, j: int)
    requires Shaped(w) && 0 <= j < w.n
  {
    exists a :: 0 <= a < w.m && !w.board[a][j].mirror.present
  }

  lemma UnpresentedTrans(a: GameState, b: GameState, c: GameState)
    requires OnlyUnpresented(a, b) && OnlyUnpresented(b, c)
    ensures OnlyUnpresented(a, c)
  {
    forall x, y | InBounds(a, x, y)
      ensures c.board[x][y] == a.board[x][y] || c.board[x][y] == Unpresent(a.board[x][y])
    {
      assert b.board[x][y] == a.board[x][y] || b.board[x][y] == Unpresent(a.board[x][y]);
    }
  }

  /** Clearing flags keeps every open row and column open. */
  lemma UnpresentedKeepsOpen(w: GameState, r: GameState)
    requires OnlyUnpresented(w, r)
    ensures forall i :: 0 <= i < w.m && RowOpen(w, i) ==> RowOpen(r, i)
    ensures forall j :: 0 <= j < w.n && ColumnOpen(w, j) ==> ColumnOpen(r, j)
    ensures SourcesBare(w) ==> SourcesBare(r)
  {
    forall i | 0 <= i < w.m && RowOpen(w, i) ensures RowOpen(r, i) {
      var b :| 0 <= b < w.n && !w.board[i][b].mirror.present;
      assert !r.board[i][b].mirror.present;
    }
    forall j | 0 <= j < w.n && ColumnOpen(w, j) ensures ColumnOpen(r, j) {
      var a :| 0 <= a < w.m && !w.board[a][j].mirror.present;
      assert !r.board[a][j].mirror.present;
    }
  }

  /** Repairing row i leaves it open and only clears flags. */
  lemma FixRowFacts(w: GameState, i: int)
    requires Shaped(w) && 0 <= i < w.m && 1 <= w.n && SourcesBare(w)
    ensures OnlyUnpresented(w, FixRow(w, i)) && RowOpen(FixRow(w, i), i)
  {
    RowPresentFull(w, i, w.n);
    FirstInRowSpec(w, Clearable, i, 0);
    if RowPresent(w, i, w.n) == w.n {
      if 1 <= w.n {
        assert Holds(Clearable, w, i, 0);
      }
      match FirstInRow(w, Clearable, i, 0)
      case None =>
      case Some(j) =>
        assert !FixRow(w, i).board[i][j].mirror.present;
    } else {
      var b :| 0 <= b < w.n && !w.board[i][b].mirror.present;
    }
  }

  lemma FixColumnFacts(w: GameState, j: int)
    requires Shaped(w) && 0 <= j < w.n && 1 <= w.m && SourcesBare(w)
    ensures OnlyUnpresented(w, FixColumn(w, j)) && ColumnOpen(FixColumn(w, j), j)
  {
    ColumnPresentFull(w, j, w.m);
    FirstInColumnSpec(w, Clearable, j, 0);
    if ColumnPresent(w, j, w.m) == w.m {
      if 1 <= w.m {
        assert Holds(Clearable, w, 0, j);
      }
      match FirstInColumn(w, Clearable, j, 0)
      case None =>
      case Some(i) =>
        assert !FixColumn(w, j).board[i][j].mirror.present;
    } else {
      var a :| 0 <= a < w.m && !w.board[a][j].mirror.present;
    }
  }

  lemma {:induction false} FixRowsFacts(w: GameState, i: int)
    requires Shaped(w) && 0 <= i && 1 <= w.n && SourcesBare(w)
    ensures var r := FixRows(w, i);
      OnlyUnpresented(w, r) && forall a :: i <= a < w.m ==> RowOpen(r, a)
    decreases w.m - i
  {
    if i < w.m {
      var w1 := FixRow(w, i);
      FixRowFacts(w, i);
      UnpresentedKeepsOpen(w, w1);
      FixRowsFacts(w1, i + 1);
      FixRowsOn(w, w1, FixRows(w1, i + 1), i);
    } else {
      assert OnlyUnpresented(w, w);
    }
  }

  lemma {:induction false} FixColumnsFacts(w: GameState, j: int)
    requires Shaped(w) && 0 <= j && 1 <= w.m && SourcesBare(w)
    ensures var r := FixColumns(w, j);
      OnlyUnpresented(w, r) && forall b :: j <= b < w.n ==> ColumnOpen(r, b)
    decreases w.n - j
  {
    if j < w.n {
      var w1 := FixColumn(w, j);
      FixColumnFacts(w, j);
      UnpresentedKeepsOpen(w, w1);
      FixColumnsFacts(w1, j + 1);
      FixColumnsOn(w, w1, FixColumns(w1, j + 1), j);
    } else {
      assert OnlyUnpresented(w, w);
    }
  }

  /** Chaining the repair of row i with the repair of the rows after it. */
  lemma FixRowsOn(w: GameState, w1: GameState, r: GameState, i: int)
    requires OnlyUnpresented(w, w1) && 0 <= i < w.m && RowOpen(w1, i)
    requires OnlyUnpresented(w1, r) && forall a :: i + 1 <= a < w.m ==> RowOpen(r, a)
    ensures OnlyUnpresented(w, r) && forall a :: i <= a < w.m ==> RowOpen(r, a)
  {
    UnpresentedKeepsOpen(w1, r);
    UnpresentedTrans(w, w1, r);
  }

  /** Chaining the repair of column j with the repair of the columns after it. */
  lemma FixColumnsOn(w: GameState, w1: GameState, r: GameState, j: int)
    requires OnlyUnpresented(w, w1) && 0 <= j < w.n && ColumnOpen(w1, j)
    requires OnlyUnpresented(w1, r) && forall b :: j + 1 <= b < w.n ==> ColumnOpen(r, b)
    ensures OnlyUnpresented(w, r) && forall b :: j <= b < w.n ==> ColumnOpen(r, b)
  {
    UnpresentedKeepsOpen(w1, r);
    UnpresentedTrans(w, w1, r);
  }

  /** After validateMap no row counts n present mirrors and no column
      counts m, and the only change is that some `present` flags are
      cleared: every `hasMirror` flag stays as it was. */
  lemma ValidateMapFacts(w: GameState)
    requires Shaped(w) && 1 <= w.m && 1 <= w.n && SourcesBare(w)
    ensures var r := ValidateMap(w);
      && OnlyUnpresented(w, r)
      && (forall i :: 0 <= i < w.m ==> RowPresent(r, i, w.n) < w.n)
      && (forall j :: 0 <= j < w.n ==> ColumnPresent(r, j, w.m) < w.m)
  {
    var w1 := FixRows(w, 0);
    var r := ValidateMap(w);
    FixRowsFacts(w, 0);
    UnpresentedKeepsOpen(w, w1);
    FixColumnsFacts(w1, 0);
    UnpresentedKeepsOpen(w1, r);
    UnpresentedTrans(w, w1, r);
    forall i | 0 <= i < w.m ensures RowPresent(r, i, w.n) < w.n {
      RowPresentFull(r, i, w.n);
      assert RowOpen(w1, i);
      assert RowOpen(r, i);
      var b :| 0 <= b < w.n && !r.board[i][b].mirror.present;
    }
    forall j | 0 <= j < w.n ensures ColumnPresent(r, j, w.m) < w.m {
      ColumnPresentFull(r, j, w.m);
      assert ColumnOpen(r, j);
      var a :| 0 <= a < w.m && !r.board[a][j].mirror.present;
    }
  }
}
