// Row-major scans of the board: the cell tests the engine applies, the
// lists its collection loops build (free cells for tanks, broken mirrors,
// free cells for a new mirror), and the first-match searches its loops
// with `break` perform.

module Scan {
  import opened Cells
  import opened Rules
  import opened State

  /** The cell tests the engine scans the board with. */
  datatype Test =
    | TankFree           // no source and no `hasMirror`: a tank may start here
    | MirrorFree         // no source, tank or `hasMirror`: a new mirror may go here
    | Broken             // a `hasMirror` cell whose mirror is `present` and worn out
    | Refuge(enemy: int) // emergency tank cell: free, outside the enemy's safety zone
    | Forceable          // no source and no tank: the forced mirror of a row may go here
    | Clearable          // a `present` mirror off the sources: validation may clear it

  /** Whether cell c, standing on (i, j) of an m x n board, passes t. */
  predicate Passes(t: Test, c: Cell, i: int, j: int, m: int, n: int) {
    match t
    case TankFree => !c.hasLaserSource && !c.hasMirror
    case MirrorFree => !c.hasLaserSource && !c.hasTank && !c.hasMirror
    case Broken => c.hasMirror && c.mirror.present && c.mirror.health <= 0
    case Refuge(enemy) =>
      !c.hasLaserSource && !c.hasMirror && !c.hasTank && !InSafetyZone(i, j, enemy, m, n)
    case Forceable => !c.hasLaserSource && !c.hasTank
    case Clearable => c.mirror.present && !c.hasLaserSource
  }

  predicate Holds(t: Test, w: GameState, i: int, j: int)
    requires Shaped(w) && InBounds(w, i, j)
  {
    Passes(t, w.board[i][j], i, j, w.m, w.n)
  }

  /** u comes before v in row-major order. */
  predicate Before(u: Pos, v: Pos) {
    u.0 < v.0 || (u.0 == v.0 && u.1 < v.1)
  }

  ghost predicate RowMajor(s: seq<Pos>) {
    forall a, b :: 0 <= a < b < |s| ==> Before(s[a], s[b])
  }

  // ---------------------------------------------------------------------
  // Collections

  /** The cells (i, 0..j-1) that pass t, left to right. */
  function RowMatches(w: GameState, t: Test, i: int, j: int): seq<Pos>
    requires Shaped(w) && 0 <= i < w.m && 0 <= j <= w.n
  {
    if j == 0 then []
    else RowMatches(w, t, i, j - 1) + (if Holds(t, w, i, j - 1) then [(i, j - 1)] else [])
  }

  /** The cells of rows 0..i-1 that pass t, in row-major order. */
  function Matches(w: GameState, t: Test, i: int): seq<Pos>
    requires Shaped(w) && 0 <= i <= w.m
  {
    if i == 0 then [] else Matches(w, t, i - 1) + RowMatches(w, t, i - 1, w.n)
  }

  lemma {:induction false} RowMatchesSpec(w: GameState, t: Test, i: int, j: int)
    requires Shaped(w) && 0 <= i < w.m && 0 <= j <= w.n
    ensures forall q :: q in RowMatches(w, t, i, j) <==>
      q.0 == i && 0 <= q.1 < j && Holds(t, w, i, q.1)
    ensures RowMajor(RowMatches(w, t, i, j))
  {
    if j > 0 {
      RowMatchesSpec(w, t, i, j - 1);
    }
  }

  /** A cell is collected exactly when it passes the test, and the list is
      in row-major order, hence free of repeats. */
  lemma {:induction false} MatchesSpec(w: GameState, t: Test, i: int)
    requires Shaped(w) && 0 <= i <= w.m
    ensures forall q :: q in Matches(w, t, i) <==>
      0 <= q.0 < i && 0 <= q.1 < w.n && Holds(t, w, q.0, q.1)
    ensures RowMajor(Matches(w, t, i))
  {
    if i > 0 {
      MatchesSpec(w, t, i - 1);
      RowMatchesSpec(w, t, i - 1, w.n);
      var s, u := Matches(w, t, i - 1), RowMatches(w, t, i - 1, w.n);
      forall a, b | 0 <= a < b < |s + u| ensures Before((s + u)[a], (s + u)[b]) {
        if b < |s| {
        } else if a >= |s| {
          assert (s + u)[a] == u[a - |s|] && (s + u)[b] == u[b - |s|];
        } else {
          assert (s + u)[a] == s[a] && s[a] in s;
          assert (s + u)[b] == u[b - |s|] && u[b - |s|] in u;
        }
      }
    }
  }

  ghost predicate Distinct(s: seq<Pos>) {
    forall a, b :: 0 <= a < b < |s| ==> s[a] != s[b]
  }

  lemma RowMajorDistinct(s: seq<Pos>)
    requires RowMajor(s)
    ensures Distinct(s)
  {
    forall a, b | 0 <= a < b < |s| ensures s[a] != s[b] {
      assert Before(s[a], s[b]);
    }
  }

  // ---------------------------------------------------------------------
  // First-match searches

  /** The first column from j on in row i whose cell passes t. */
  function FirstInRow(w: GameState, t: Test, i: int, j: int): (r: Option<int>)
    requires Shaped(w) && 0 <= i < w.m && 0 <= j
    ensures r.Some? ==> j <= r.value < w.n && Holds(t, w, i, r.value)
    decreases w.n - j
  {
    if j >= w.n then None
    else if Holds(t, w, i, j) then Some(j)
    else FirstInRow(w, t, i, j + 1)
  }

  /** The first row from i on in column j whose cell passes t. */
  function FirstInColumn(w: GameState, t: Test, j: int, i: int): (r: Option<int>)
    requires Shaped(w) && 0 <= j < w.n && 0 <= i
    ensures r.Some? ==> i <= r.value < w.m && Holds(t, w, r.value, j)
    decreases w.m - i
  {
    if i >= w.m then None
    else if Holds(t, w, i, j) then Some(i)
    else FirstInColumn(w, t, j, i + 1)
  }

  /** The first cell from (i, j) on, in row-major order, that passes t. */
  function FirstOnBoard(w: GameState, t: Test, i: int, j: int): (r: Option<Pos>)
    requires Shaped(w) && 0 <= i && 0 <= j
    ensures r.Some? ==> InBounds(w, r.value.0, r.value.1) && Holds(t, w, r.value.0, r.value.1)
    decreases w.m - i, w.n - j
  {
    if i >= w.m then None
    else if j >= w.n then FirstOnBoard(w, t, i + 1, 0)
    else if Holds(t, w, i, j) then Some((i, j))
    else FirstOnBoard(w, t, i, j + 1)
  }

  /** The row search finds the leftmost passing cell, and finds nothing
      only when no cell from j on passes. */
  lemma {:induction false} FirstInRowSpec(w: GameState, t: Test, i: int, j: int)
    requires Shaped(w) && 0 <= i < w.m && 0 <= j
    ensures var r := FirstInRow(w, t, i, j);
      && (r.Some? ==>
            j <= r.value < w.n && Holds(t, w, i, r.value)
            && forall k :: j <= k < r.value ==> !Holds(t, w, i, k))
      && (r.None? ==> forall k :: j <= k < w.n ==> !Holds(t, w, i, k))
    decreases w.n - j
  {
    if j < w.n && !Holds(t, w, i, j) {
      FirstInRowSpec(w, t, i, j + 1);
    }
  }

  lemma {:induction false} FirstInColumnSpec(w: GameState, t: Test, j: int, i: int)
    requires Shaped(w) && 0 <= j < w.n && 0 <= i
    ensures var r := FirstInColumn(w, t, j, i);
      && (r.Some? ==>
            i <= r.value < w.m && Holds(t, w, r.value, j)
            && forall k :: i <= k < r.value ==> !Holds(t, w, k, j))
      && (r.None? ==> forall k :: i <= k < w.m ==> !Holds(t, w, k, j))
    decreases w.m - i
  {
    if i < w.m && !Holds(t, w, i, j) {
      FirstInColumnSpec(w, t, j, i + 1);
    }
  }

  /** Whether (a, b) is at or after (i, j) in row-major order. */
  predicate AtOrAfter(a: int, b: int, i: int, j: int) {
    a > i || (a == i && b >= j)
  }

  /** The board search finds the first passing cell at or after (i, j),
      and finds nothing only when no such cell passes. */
  lemma {:induction false} FirstOnBoardSpec(w: GameState, t: Test, i: int, j: int)
    requires Shaped(w) && 0 <= i && 0 <= j
    ensures var r := FirstOnBoard(w, t, i, j);
      && (r.Some? ==>
            InBounds(w, r.value.0, r.value.1) && AtOrAfter(r.value.0, r.value.1, i, j)
            && Holds(t, w, r.value.0, r.value.1)
            && forall a, b :: InBounds(w, a, b) && AtOrAfter(a, b, i, j) && Before((a, b), r.value) ==>
                 !Holds(t, w, a, b))
      && (r.None? ==> forall a, b :: InBounds(w, a, b) && AtOrAfter(a, b, i, j) ==> !Holds(t, w, a, b))
    decreases w.m - i, w.n - j
  {
    if i < w.m {
      if j >= w.n {
        FirstOnBoardSpec(w, t, i + 1, 0);
      } else if !Holds(t, w, i, j) {
        FirstOnBoardSpec(w, t, i, j + 1);
      }
    }
  }
}
