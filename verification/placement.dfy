// Tank placement (placeTanks) over a shuffled list of free cells with the
// emergency row-major search, and validateSafetyZones' scan for tanks
// resting in the enemy's safety zone.

module Placement {
  import opened Cells
  import opened Rules
  import opened State
  import opened Scan

  /** The state the placement loops carry: the game, the cursor `idx`
      into the shuffled list, and whether the last tank found a cell. */
  datatype Placing = Placing(w: GameState, idx: int, ok: bool)

  ghost predicate AllInBounds(w: GameState, order: seq<Pos>) {
    forall q :: 0 <= q < |order| ==> InBounds(w, order[q].0, order[q].1)
  }

  /** The `while (idx < availableCells.size() && !placed)` loop for a tank
      of player p: skip list cells inside the enemy's safety zone, take the
      first one outside it. */
  function ScanList(w: GameState, order: seq<Pos>, idx: int, p: int): (r: Placing)
    requires Shaped(w) && AllInBounds(w, order) && 0 <= idx
    ensures Shaped(r.w) && r.w == w.(board := r.w.board, p1 := r.w.p1, p2 := r.w.p2) && r.idx >= idx
    decreases |order| - idx
  {
    if idx >= |order| then Placing(w, idx, false)
    else
      var (x, y) := order[idx];
      if !InSafetyZone(x, y, Other(p), w.m, w.n) then Placing(PlaceTank(w, p, x, y), idx + 1, true)
      else ScanList(w, order, idx + 1, p)
  }

  /** One pass of the `for i` loop: the tank takes the first list cell
      outside the enemy zone, else the first free cell outside it in
      row-major order; when there is none it is not placed. */
  function PlaceNext(w: GameState, order: seq<Pos>, idx: int, p: int): (r: Placing)
    requires Shaped(w) && AllInBounds(w, order) && 0 <= idx
    ensures Shaped(r.w) && r.w == w.(board := r.w.board, p1 := r.w.p1, p2 := r.w.p2) && r.idx >= idx
  {
    var s := ScanList(w, order, idx, p);
    if s.ok then s
    else match FirstOnBoard(s.w, Refuge(Other(p)), 0, 0)
      case Some(c) => Placing(PlaceTank(s.w, p, c.0, c.1), s.idx, true)
      case None => s
  }

  /** The `for i` loop placing tanks i..T-1 of player p. Once a tank finds
      no cell the list is used up and no free cell outside the enemy zone
      is left, so the remaining passes change nothing: the placement
      stops there and fails. */
  function PlaceAll(w: GameState, order: seq<Pos>, idx: int, p: int, i: int): (r: Placing)
    requires Shaped(w) && AllInBounds(w, order) && 0 <= idx
    ensures Shaped(r.w) && r.w == w.(board := r.w.board, p1 := r.w.p1, p2 := r.w.p2) && r.idx >= idx
    decreases w.tanksPerPlayer - i
  {
    if i >= w.tanksPerPlayer then Placing(w, idx, true)
    else
      var s := PlaceNext(w, order, idx, p);
      if s.ok then PlaceAll(s.w, order, s.idx, p, i + 1) else s
  }

  /** A shuffle rearranges the list it is given. */
  ghost predicate Rearranges(shuffle: seq<Pos> -> seq<Pos>) {
    forall s :: multiset(shuffle(s)) == multiset(s)
  }

  /** placeTanks: collect the cells with neither source nor `hasMirror`,
      shuffle them, place player 1's tanks, then player 2's from where the
      cursor stopped, whether or not player 1's all found a cell. */
  function PlaceTanks(w: GameState, shuffle: seq<Pos> -> seq<Pos>): (r: Placing)
    requires Shaped(w) && Rearranges(shuffle)
    ensures Shaped(r.w) && r.w == w.(board := r.w.board, p1 := r.w.p1, p2 := r.w.p2)
  {
    var order := shuffle(Matches(w, TankFree, w.m));
    ShuffledInBounds(w, shuffle);
    var s1 := PlaceAll(w, order, 0, 1, 0);
    var s2 := PlaceAll(s1.w, order, s1.idx, 2, 0);
    s2.(ok := s1.ok && s2.ok)
  }

  lemma ShuffledInBounds(w: GameState, shuffle: seq<Pos> -> seq<Pos>)
    requires Shaped(w) && Rearranges(shuffle)
    ensures var order := shuffle(Matches(w, TankFree, w.m));
      && AllInBounds(w, order)
      && (forall q :: 0 <= q < |order| ==> Holds(TankFree, w, order[q].0, order[q].1))
      && Distinct(order)
  {
    var cells := Matches(w, TankFree, w.m);
    var order := shuffle(cells);
    MatchesSpec(w, TankFree, w.m);
    RowMajorDistinct(cells);
    assert multiset(order) == multiset(cells);
    forall q | 0 <= q < |order|
      ensures InBounds(w, order[q].0, order[q].1) && Holds(TankFree, w, order[q].0, order[q].1)
    {
      assert order[q] in multiset(order);
      assert order[q] in cells;
    }
    forall a, b | 0 <= a < b < |order| ensures order[a] != order[b] {
      if order[a] == order[b] {
        DuplicateCount(order, a, b);
        DistinctCount(cells, order[a]);
      }
    }
  }

  /** A repeated element occurs at least twice. */
  lemma DuplicateCount(s: seq<Pos>, a: int, b: int)
    requires 0 <= a < b < |s| && s[a] == s[b]
    ensures multiset(s)[s[a]] >= 2
  {
    assert s == s[..a] + [s[a]] + s[a + 1..b] + [s[b]] + s[b + 1..];
  }

  /** In a list without repeats every element occurs at most once. */
  lemma {:induction false} DistinctCount(s: seq<Pos>, v: Pos)
    requires Distinct(s)
    ensures multiset(s)[v] <= 1
  {
    if s != [] {
      var t := s[..|s| - 1];
      assert s == t + [s[|s| - 1]];
      assert Distinct(t);
      DistinctCount(t, v);
      if v == s[|s| - 1] {
        assert v !in t;
      }
    }
  }

  // ---------------------------------------------------------------------
  // Placement keeps the board invariant

  /** No cell holds a tank and both rosters are empty: the board before
      placement. */
  ghost predicate Unpopulated(w: GameState) {
    && LayoutOk(w) && w.p1 == [] && w.p2 == []
    && (forall a, b :: InBounds(w, a, b) ==> !w.board[a][b].hasTank)
  }

  /** Every tank of player p stands outside the safety zone of the other
      player, and every tank is alive. */
  ghost predicate SideSettled(w: GameState, p: int) {
    forall k :: 0 <= k < |Roster(w, p)| ==>
      Roster(w, p)[k].alive && !InSafetyZone(Roster(w, p)[k].x, Roster(w, p)[k].y, Other(p), w.m, w.n)
  }

  /** Placing a tank of player p on a free cell keeps layout and links,
      appends the tank to p's roster and changes only the tank fields of
      that cell. */
  lemma PlaceTankKeeps(w: GameState, p: int, x: int, y: int)
    requires LayoutOk(w) && Linked(w) && (p == 1 || p == 2) && InBounds(w, x, y)
    requires Holds(TankFree, w, x, y) && !w.board[x][y].hasTank
    ensures var r := PlaceTank(w, p, x, y);
      && LayoutOk(r) && Linked(r)
      && Roster(r, p) == Roster(w, p) + [Tank(p, x, y, true)]
      && Roster(r, Other(p)) == Roster(w, Other(p))
      && r == w.(board := r.board, p1 := r.p1, p2 := r.p2)
      && r.board[x][y].hasTank
      && r.board[x][y] == w.board[x][y].(hasTank := true, tankPlayer := p, tankIndex := |Roster(w, p)|)
      && (forall a, b :: InBounds(w, a, b) && (a, b) != (x, y) ==> r.board[a][b] == w.board[a][b])
  {
    var r := PlaceTank(w, p, x, y);
    forall a, b | InBounds(r, a, b) ensures CellLayoutOk(r, a, b) && CellLinked(r, a, b) {
      assert CellLayoutOk(w, a, b);
      if (a, b) != (x, y) {
        assert CellLinked(w, a, b);
      }
    }
    forall q | 0 <= q < |r.p1| ensures TankLinked(r, 1, q) {
      if q < |w.p1| {
        assert TankLinked(w, 1, q);
      }
    }
    forall q | 0 <= q < |r.p2| ensures TankLinked(r, 2, q) {
      if q < |w.p2| {
        assert TankLinked(w, 2, q);
      }
    }
  }

  /** What the placement loops keep: layout and links hold, player p's
      tanks so far are alive and outside the enemy zone, the list cells
      from the cursor on are still free, and the other roster is as it
      was. */
  ghost predicate Placed(w0: GameState, w: GameState, order: seq<Pos>, idx: int, p: int) {
    && Shaped(w0) && LayoutOk(w) && Linked(w) && (p == 1 || p == 2) && 0 <= idx
    && w == w0.(board := w.board, p1 := w.p1, p2 := w.p2)
    && AllInBounds(w, order) && Distinct(order)
    && (forall q :: idx <= q < |order| ==>
          Holds(TankFree, w, order[q].0, order[q].1) && !w.board[order[q].0][order[q].1].hasTank)
    && SideSettled(w, p)
    && Roster(w, Other(p)) == Roster(w0, Other(p))
    && (forall a, b :: InBounds(w, a, b) ==>
          w.board[a][b].(hasTank := w0.board[a][b].hasTank, tankPlayer := w0.board[a][b].tankPlayer,
                         tankIndex := w0.board[a][b].tankIndex) == w0.board[a][b])
  }

  /** Placing one more tank on a free cell outside the enemy zone keeps
      the placement invariant, with the cursor moved to `idx'`. */
  lemma PlaceOneKeeps(w0: GameState, w: GameState, order: seq<Pos>, idx: int, idx': int, p: int, x: int, y: int)
    requires Placed(w0, w, order, idx, p) && idx <= idx'
    requires InBounds(w, x, y) && Holds(TankFree, w, x, y) && !w.board[x][y].hasTank
    requires !InSafetyZone(x, y, Other(p), w.m, w.n)
    requires forall q :: idx' <= q < |order| ==> order[q] != (x, y)
    ensures Placed(w0, PlaceTank(w, p, x, y), order, idx', p)
    ensures |Roster(PlaceTank(w, p, x, y), p)| == |Roster(w, p)| + 1
  {
    var r := PlaceTank(w, p, x, y);
    PlaceTankKeeps(w, p, x, y);
    forall q | idx' <= q < |order|
      ensures Holds(TankFree, r, order[q].0, order[q].1) && !r.board[order[q].0][order[q].1].hasTank
    {
      assert r.board[order[q].0][order[q].1] == w.board[order[q].0][order[q].1];
    }
    forall k | 0 <= k < |Roster(r, p)|
      ensures Roster(r, p)[k].alive && !InSafetyZone(Roster(r, p)[k].x, Roster(r, p)[k].y, Other(p), r.m, r.n)
    {
      if k < |Roster(w, p)| {
        assert Roster(r, p)[k] == Roster(w, p)[k];
      }
    }
    forall a, b | InBounds(r, a, b)
      ensures r.board[a][b].(hasTank := w0.board[a][b].hasTank, tankPlayer := w0.board[a][b].tankPlayer,
                             tankIndex := w0.board[a][b].tankIndex) == w0.board[a][b]
    {
      if (a, b) != (x, y) {
        assert r.board[a][b] == w.board[a][b];
      } else {
        assert w.board[a][b].(hasTank := w0.board[a][b].hasTank, tankPlayer := w0.board[a][b].tankPlayer,
                              tankIndex := w0.board[a][b].tankIndex) == w0.board[a][b];
      }
    }
  }

  /** The list scan either places one tank, at a list cell outside the
      enemy zone, or runs off the end of the list and changes nothing. */
  lemma {:induction false} ScanListFacts(w0: GameState, w: GameState, order: seq<Pos>, idx: int, p: int)
    requires Placed(w0, w, order, idx, p)
    ensures var s := ScanList(w, order, idx, p);
      && Placed(w0, s.w, order, s.idx, p)
      && (s.ok ==> |Roster(s.w, p)| == |Roster(w, p)| + 1)
      && (!s.ok ==> s.w == w && s.idx >= |order|)
      && s.idx >= idx
    decreases |order| - idx
  {
    if idx < |order| {
      var (x, y) := order[idx];
      if !InSafetyZone(x, y, Other(p), w.m, w.n) {
        forall q | idx + 1 <= q < |order| ensures order[q] != (x, y) {
          assert order[idx] != order[q];
        }
        PlaceOneKeeps(w0, w, order, idx, idx + 1, p, x, y);
      } else {
        ScanListFacts(w0, w, order, idx + 1, p);
      }
    }
  }

  /** The emergency search, once the list is used up, places the tank on
      a free cell outside the enemy zone. */
  lemma EmergencyKeeps(w0: GameState, w: GameState, order: seq<Pos>, idx: int, p: int)
    requires Placed(w0, w, order, idx, p) && idx >= |order|
    ensures match FirstOnBoard(w, Refuge(Other(p)), 0, 0)
      case Some(c) =>
        && Placed(w0, PlaceTank(w, p, c.0, c.1), order, idx, p)
        && |Roster(PlaceTank(w, p, c.0, c.1), p)| == |Roster(w, p)| + 1
      case None => true
  {
    match FirstOnBoard(w, Refuge(Other(p)), 0, 0)
    case Some(c) =>
      PlaceOneKeeps(w0, w, order, idx, idx, p, c.0, c.1);
    case None =>
  }

  /** One pass of the placement loop places exactly one tank or fails
      and changes nothing that matters. */
  lemma PlaceNextFacts(w0: GameState, w: GameState, order: seq<Pos>, idx: int, p: int)
    requires Placed(w0, w, order, idx, p)
    ensures var s := PlaceNext(w, order, idx, p);
      && Placed(w0, s.w, order, s.idx, p)
      && (s.ok ==> |Roster(s.w, p)| == |Roster(w, p)| + 1)
  {
    var s := ScanList(w, order, idx, p);
    ScanListFacts(w0, w, order, idx, p);
    if !s.ok {
      EmergencyKeeps(w0, s.w, order, s.idx, p);
    }
  }

  /** The placement loop for player p places every remaining tank or
      reports failure; on success p's roster has T entries. */
  lemma {:induction false} PlaceAllFacts(w0: GameState, w: GameState, order: seq<Pos>, idx: int, p: int, i: int)
    requires Placed(w0, w, order, idx, p) && 0 <= i <= w.tanksPerPlayer && |Roster(w, p)| == i
    ensures var s := PlaceAll(w, order, idx, p, i);
      && Placed(w0, s.w, order, s.idx, p)
      && (s.ok ==> |Roster(s.w, p)| == w.tanksPerPlayer)
    decreases w.tanksPerPlayer - i
  {
    if i < w.tanksPerPlayer {
      var s := PlaceNext(w, order, idx, p);
      PlaceNextFacts(w0, w, order, idx, p);
      if s.ok {
        PlaceAllFacts(w0, s.w, order, s.idx, p, i + 1);
      }
    }
  }

  /** Handing over from player 1 to player 2: player 1's roster and the
      cursor stay, the invariant is restated for player 2. */
  lemma HandOver(w0: GameState, w: GameState, order: seq<Pos>, idx: int)
    requires Placed(w0, w, order, idx, 1) && w0.p2 == []
    ensures Placed(w, w, order, idx, 2)
  {
    assert SideSettled(w, 2) by {
      assert Roster(w, 2) == [];
    }
  }

  /** Placement on an empty board, when it succeeds, yields a consistent
      game in which both rosters hold T living tanks, no tank rests in
      the enemy's safety zone, and only tank fields of cells changed. */
  lemma PlaceTanksFacts(w: GameState, shuffle: seq<Pos> -> seq<Pos>)
    requires Unpopulated(w) && Rearranges(shuffle) && w.tanksPerPlayer >= 1
    requires (w.current == 1 || w.current == 2) && 0 <= w.winner <= 2
    ensures var r := PlaceTanks(w, shuffle);
      r.ok ==>
        && Consistent(r.w) && OutsideEnemyZones(r.w)
        && SideSettled(r.w, 1) && SideSettled(r.w, 2)
        && r.w == w.(board := r.w.board, p1 := r.w.p1, p2 := r.w.p2)
        && (forall a, b :: InBounds(w, a, b) ==>
              r.w.board[a][b].(hasTank := false, tankPlayer := w.board[a][b].tankPlayer,
                               tankIndex := w.board[a][b].tankIndex) == w.board[a][b])
  {
    var order := shuffle(Matches(w, TankFree, w.m));
    ShuffledInBounds(w, shuffle);
    assert Linked(w);
    assert Placed(w, w, order, 0, 1);
    var s1 := PlaceAll(w, order, 0, 1, 0);
    PlaceAllFacts(w, w, order, 0, 1, 0);
    var s2 := PlaceAll(s1.w, order, s1.idx, 2, 0);
    if s1.ok {
      HandOver(w, s1.w, order, s1.idx);
      PlaceAllFacts(s1.w, s1.w, order, s1.idx, 2, 0);
      if s2.ok {
        BothPlaced(w, s1.w, s2.w, order, s1.idx, s2.idx);
      }
    }
  }

  /** Player 1's placement followed by player 2's gives the placed game. */
  lemma BothPlaced(w: GameState, w1: GameState, r: GameState, order: seq<Pos>, idx1: int, idx2: int)
    requires Unpopulated(w) && Placed(w, w1, order, idx1, 1) && Placed(w1, r, order, idx2, 2)
    requires |Roster(w1, 1)| == w.tanksPerPlayer && |Roster(r, 2)| == w.tanksPerPlayer && w.tanksPerPlayer >= 1
    requires (w.current == 1 || w.current == 2) && 0 <= w.winner <= 2
    ensures && Consistent(r) && OutsideEnemyZones(r)
            && SideSettled(r, 1) && SideSettled(r, 2)
            && r == w.(board := r.board, p1 := r.p1, p2 := r.p2)
            && (forall a, b :: InBounds(w, a, b) ==>
                  r.board[a][b].(hasTank := false, tankPlayer := w.board[a][b].tankPlayer,
                                 tankIndex := w.board[a][b].tankIndex) == w.board[a][b])
  {
    assert Roster(r, 1) == Roster(w1, 1);
    forall a, b | InBounds(w, a, b)
      ensures r.board[a][b].(hasTank := false, tankPlayer := w.board[a][b].tankPlayer,
                             tankIndex := w.board[a][b].tankIndex) == w.board[a][b]
    {
      assert w1.board[a][b].(hasTank := w.board[a][b].hasTank, tankPlayer := w.board[a][b].tankPlayer,
                             tankIndex := w.board[a][b].tankIndex) == w.board[a][b];
      assert r.board[a][b].(hasTank := w1.board[a][b].hasTank, tankPlayer := w1.board[a][b].tankPlayer,
                            tankIndex := w1.board[a][b].tankIndex) == w1.board[a][b];
    }
  }

  /** Two living roster entries of a consistent game never share a cell. */
  lemma TanksApart(w: GameState, p: int, k: int, p': int, k': int)
    requires Consistent(w) && (p == 1 || p == 2) && (p' == 1 || p' == 2)
    requires 0 <= k < |Roster(w, p)| && 0 <= k' < |Roster(w, p')|
    requires Roster(w, p)[k].alive && Roster(w, p')[k'].alive && (p, k) != (p', k')
    ensures (Roster(w, p)[k].x, Roster(w, p)[k].y) != (Roster(w, p')[k'].x, Roster(w, p')[k'].y)
  {
    assert TankLinked(w, p, k) && TankLinked(w, p', k');
  }

  // ---------------------------------------------------------------------
  // validateSafetyZones

  /** The tanks of s inside the safety zone of `owner`, in roster order. */
  function InZone(s: seq<Tank>, owner: int, m: int, n: int): (r: seq<Tank>)
    ensures |r| <= |s|
  {
    if s == [] then []
    else InZone(s[..|s| - 1], owner, m, n)
         + (if InSafetyZone(s[|s| - 1].x, s[|s| - 1].y, owner, m, n) then [s[|s| - 1]] else [])
  }

  /** The tanks validateSafetyZones hands to moveTankToSafeZone: player
      2's tanks in zone 1, then player 1's tanks in zone 2. */
  function Misplaced(w: GameState): seq<Tank> {
    InZone(w.p2, 1, w.m, w.n) + InZone(w.p1, 2, w.m, w.n)
  }

  lemma {:induction false} InZoneEmpty(s: seq<Tank>, owner: int, m: int, n: int)
    ensures InZone(s, owner, m, n) == [] <==>
      forall k :: 0 <= k < |s| ==> !InSafetyZone(s[k].x, s[k].y, owner, m, n)
  {
    if s != [] {
      InZoneEmpty(s[..|s| - 1], owner, m, n);
      assert forall k :: 0 <= k < |s| - 1 ==> s[..|s| - 1][k] == s[k];
    }
  }

  /** validateSafetyZones finds nothing to relocate exactly when no tank
      rests in the enemy zone, so after a successful placement it never
      calls moveTankToSafeZone. */
  lemma MisplacedEmpty(w: GameState)
    ensures Misplaced(w) == [] <==> OutsideEnemyZones(w)
  {
    InZoneEmpty(w.p2, 1, w.m, w.n);
    InZoneEmpty(w.p1, 2, w.m, w.n);
  }
}
