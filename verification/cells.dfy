// Entities of the laser tank game: mirrors, tanks and board cells, and the
// pure rules of the game (direction table, reflection, safety zones, glyphs,
// tie-breaks) that the engine consults.

module Cells {

  datatype Option<T> = None | Some(value: T)

  /** A grid position: x is the row, y the column. */
  type Pos = (int, int)

  /** '/' is Slash, '\' is Backslash. */
  datatype MirrorDirection = Slash | Backslash

  /** `present` is the source's `Mirror::exists` flag; `health` is a plain
      integer that the laser may drive below zero. */
  datatype Mirror = Mirror(direction: MirrorDirection, health: int, present: bool)

  datatype Tank = Tank(player: int, x: int, y: int, alive: bool)

  /** One board cell. `hasMirror` and `mirror.present` are two separate
      flags, exactly as in the source, and are not always kept in step. */
  datatype Cell = Cell(
    hasLaserSource: bool,
    sourcePlayer: int,
    hasTank: bool,
    tankPlayer: int,
    tankIndex: int,
    hasMirror: bool,
    mirror: Mirror,
    laserVisited: bool,
    laserPathChar: char)

  /** Health of a newly placed mirror. */
  const FreshHealth: int := 4

  /** The default-constructed mirror: '/', health 4, not present. */
  const DefaultMirror: Mirror := Mirror(Slash, FreshHealth, false)

  /** The default-constructed cell. */
  const EmptyCell: Cell := Cell(false, 0, false, 0, -1, false, DefaultMirror, false, ' ')

  /** A newly placed mirror of the given orientation. */
  function FreshMirror(d: MirrorDirection): (r: Mirror)
    ensures r.health == FreshHealth && r.present && r.direction == d
  {
    Mirror(d, FreshHealth, true)
  }
}

module Rules {
  import opened Cells

  /** A king move: each delta in -1..1, not both zero. */
  predicate IsKingStep(d: (int, int)) {
    -1 <= d.0 <= 1 && -1 <= d.1 <= 1 && d != (0, 0)
  }

  /** An axis-aligned unit vector. */
  predicate IsAxisUnit(d: (int, int)) {
    (d.0 == 0 && (d.1 == 1 || d.1 == -1)) || (d.1 == 0 && (d.0 == 1 || d.0 == -1))
  }

  /** Position of a king move in the row-major enumeration of the 3x3
      neighbourhood with the centre left out, counted from 1. */
  function CompassRank(d: (int, int)): int {
    var k := 3 * (d.0 + 1) + (d.1 + 1);
    if k < 4 then k + 1 else k
  }

  /** The direction table shared by moves and direct fire: codes 1..8 are
      the eight neighbours in row-major order; any other code is invalid. */
  function Offset(dir: int): (r: Option<(int, int)>)
    ensures r.Some? <==> 1 <= dir <= 8
    ensures r.Some? ==> IsKingStep(r.value) && CompassRank(r.value) == dir
  {
    match dir
    case 1 => Some((-1, -1))
    case 2 => Some((-1, 0))
    case 3 => Some((-1, 1))
    case 4 => Some((0, -1))
    case 5 => Some((0, 1))
    case 6 => Some((1, -1))
    case 7 => Some((1, 0))
    case 8 => Some((1, 1))
    case _ => None
  }

  /** Every king move has exactly one code. */
  lemma OffsetOnto(d: (int, int))
    requires IsKingStep(d)
    ensures 1 <= CompassRank(d) <= 8 && Offset(CompassRank(d)) == Some(d)
  {
  }

  /** The reflection law: '/' maps (dx,dy) to (-dy,-dx), '\' to (dy,dx). */
  function Reflect(d: MirrorDirection, dx: int, dy: int): (r: (int, int))
  {
    match d
    case Slash => (-dy, -dx)
    case Backslash => (dy, dx)
  }

  /** Reflecting twice off the same mirror restores the direction. */
  lemma ReflectTwice(d: MirrorDirection, dx: int, dy: int)
    ensures Reflect(d, Reflect(d, dx, dy).0, Reflect(d, dx, dy).1) == (dx, dy)
  {
  }

  /** An axis-aligned unit ray leaves a mirror on the other axis. */
  lemma ReflectTurnsAxis(d: MirrorDirection, dx: int, dy: int)
    requires IsAxisUnit((dx, dy))
    ensures IsAxisUnit(Reflect(d, dx, dy))
    ensures Reflect(d, dx, dy).0 * dx + Reflect(d, dx, dy).1 * dy == 0
  {
  }

  /** The 3x3 safety zone of a player: rows and columns 0..2 for player 1,
      the last three rows and columns for any other player. */
  predicate InSafetyZone(x: int, y: int, player: int, m: int, n: int) {
    if player == 1 then 0 <= x <= 2 && 0 <= y <= 2
    else m - 3 <= x <= m - 1 && n - 3 <= y <= n - 1
  }

  /** The two zones share cells exactly when both dimensions are below 6. */
  lemma ZonesOverlap(m: int, n: int)
    requires 4 <= m && 4 <= n
    ensures (exists x, y :: InSafetyZone(x, y, 1, m, n) && InSafetyZone(x, y, 2, m, n))
        <==> (m <= 5 && n <= 5)
  {
    if m <= 5 && n <= 5 {
      assert InSafetyZone(2, 2, 1, m, n) && InSafetyZone(2, 2, 2, m, n);
    }
  }

  /** The ray's loop guard. */
  predicate HasLoop(m: int, n: int, depth: int) {
    depth > m * n * 2
  }

  /** Path glyph for a ray travelling with delta (dx, dy). */
  function Glyph(dx: int, dy: int): (c: char)
    ensures c == '+' <==> dx != 0 && dy != 0
    ensures c == '|' <==> dx != 0 && dy == 0
    ensures c == '-' <==> dx == 0
  {
    if dx != 0 && dy != 0 then '+' else if dx != 0 then '|' else '-'
  }

  /** Winner on exit: the player with strictly more living tanks, 0 on a tie. */
  function ExitWinner(p1Alive: int, p2Alive: int): (w: int)
    ensures w == 1 <==> p1Alive > p2Alive
    ensures w == 2 <==> p2Alive > p1Alive
    ensures w == 0 <==> p1Alive == p2Alive
  {
    if p1Alive > p2Alive then 1 else if p2Alive > p1Alive then 2 else 0
  }

  /** The other player. */
  function Other(p: int): (q: int)
    ensures p == 1 ==> q == 2
    ensures p != 1 ==> q == 1
  {
    if p == 1 then 2 else 1
  }

  /** `toupper` on the ASCII letters; any other character is returned as is. */
  function ToUpper(c: char): (u: char)
    ensures 'a' <= c <= 'z' ==> u as int == c as int - 32
    ensures !('a' <= c <= 'z') ==> u == c
  {
    if 'a' <= c <= 'z' then (c as int - 32) as char else c
  }

  /** Number of living tanks in a roster. */
  function CountAlive(s: seq<Tank>): (k: nat)
    ensures k <= |s|
  {
    if s == [] then 0
    else CountAlive(s[..|s| - 1]) + (if s[|s| - 1].alive then 1 else 0)
  }

  /** Killing one living tank lowers the count by exactly one. */
  lemma {:induction false} CountAliveKill(s: seq<Tank>, k: int)
    requires 0 <= k < |s| && s[k].alive
    ensures CountAlive(s[k := s[k].(alive := false)]) == CountAlive(s) - 1
  {
    var s' := s[k := s[k].(alive := false)];
    if k < |s| - 1 {
      assert s'[..|s'| - 1] == s[..|s| - 1][k := s[k].(alive := false)];
      CountAliveKill(s[..|s| - 1], k);
    } else {
      assert s'[..|s'| - 1] == s[..|s| - 1];
    }
  }

  /** Changing a tank without changing whether it lives keeps the count. */
  lemma {:induction false} CountAliveSame(s: seq<Tank>, k: int, t: Tank)
    requires 0 <= k < |s| && t.alive == s[k].alive
    ensures CountAlive(s[k := t]) == CountAlive(s)
  {
    var s' := s[k := t];
    if k < |s| - 1 {
      assert s'[..|s'| - 1] == s[..|s| - 1][k := t];
      CountAliveSame(s[..|s| - 1], k, t);
    } else {
      assert s'[..|s'| - 1] == s[..|s| - 1];
    }
  }

  /** A roster with no living tank counts zero, and conversely. */
  lemma {:induction false} CountAliveZero(s: seq<Tank>)
    ensures CountAlive(s) == 0 <==> forall k :: 0 <= k < |s| ==> !s[k].alive
  {
    if s != [] {
      CountAliveZero(s[..|s| - 1]);
      assert forall k :: 0 <= k < |s| - 1 ==> s[..|s| - 1][k] == s[k];
    }
  }
}
