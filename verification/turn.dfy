// One turn (playTurn) and one round of the game loop (startGame) as
// functions of the state, the rand() stream and the player's input.

module Turn {
  import opened Cells
  import opened Rules
  import opened State
  import opened StateFacts
  import opened Scan
  import opened Laser
  import opened Upkeep
  import opened Placement
  import opened Setup

  /** The player's menu choice with the input its action reads. */
  datatype Command =
    | MoveCmd(x: int, y: int, dir: int)
    | RotateCmd(x: int, y: int)
    | ShootCmd(x: int, y: int, dir: int)
    | ExitCmd
    | InvalidCmd

  /** The menu letter after toupper: 'N', 'R', 'S' and 'E' choose an
      action, anything else is an invalid choice. */
  function ParseChoice(ch: char, x: int, y: int, dir: int): (c: Command)
    ensures c.InvalidCmd? <==> ToUpper(ch) !in {'N', 'R', 'S', 'E'}
  {
    match ToUpper(ch)
    case 'N' => MoveCmd(x, y, dir)
    case 'R' => RotateCmd(x, y)
    case 'S' => ShootCmd(x, y, dir)
    case 'E' => ExitCmd
    case _ => InvalidCmd
  }

  /** The player action a Move, Rotate or Shoot command performs. */
  function Act(w: GameState, cmd: Command): (r: GameState)
    requires Consistent(w) && (cmd.MoveCmd? || cmd.RotateCmd? || cmd.ShootCmd?)
  {
    match cmd
    case MoveCmd(x, y, dir) => MoveAction(w, x, y, dir)
    case RotateCmd(x, y) => RotateAction(w, x, y)
    case ShootCmd(x, y, dir) => ShootAction(w, x, y, dir)
  }

  /** The mandatory laser phase after an action: fire, and unless that
      ends the game, update the mirrors and clear the laser paths. */
  function LaserPhase(w: GameState, rng: nat -> nat, draws: nat, axis: char): (r: Upkept)
    requires Shaped(w) && 1 <= w.m && 1 <= w.n
  {
    var w1 := ShootLaser(w, axis);
    if w1.gameOver then Upkept(w1, draws)
    else
      var s := UpdateMirrors(w1, rng, draws);
      Upkept(ClearPaths(s.w), s.draws)
  }

  /** playTurn: Exit ends the game at once; an invalid choice skips the
      turn; any other action, even one it refuses, is followed by the
      laser phase unless the action ended the game. */
  function PlayTurn(w: GameState, rng: nat -> nat, draws: nat, cmd: Command, axis: char): (r: Upkept)
    requires Consistent(w)
  {
    match cmd
    case ExitCmd => Upkept(ExitAction(w), draws)
    case InvalidCmd => Upkept(w, draws)
    case _ =>
      var w1 := Act(w, cmd);
      ActKeeps(w, cmd);
      if w1.gameOver then Upkept(w1, draws) else LaserPhase(w1, rng, draws, axis)
  }

  /** One pass of startGame's loop: a turn, the win check, and the change
      of player while the game goes on. */
  function Round(w: GameState, rng: nat -> nat, draws: nat, cmd: Command, axis: char): (r: Upkept)
    requires Consistent(w)
  {
    var s := PlayTurn(w, rng, draws, cmd, axis);
    var w1 := CheckWin(s.w);
    Upkept(if w1.gameOver then w1 else SwitchPlayer(w1), s.draws)
  }

  /** startGame's `while (!gameOver)` loop over a finite list of inputs:
      it stops when the game is over or the inputs run out. */
  function Play(w: GameState, rng: nat -> nat, draws: nat, inputs: seq<(Command, char)>): (r: Upkept)
    requires Consistent(w)
    decreases |inputs|
  {
    if w.gameOver || inputs == [] then Upkept(w, draws)
    else
      var s := Round(w, rng, draws, inputs[0].0, inputs[0].1);
      RoundFacts(w, rng, draws, inputs[0].0, inputs[0].1);
      Play(s.w, rng, s.draws, inputs[1..])
  }

  /** startGame after getDimensions: the map of a new m x n game with T
      tanks a side, then the game loop over the inputs; None when a tank
      found no cell. */
  function StartGame(m: int, n: int, T: int, rng: nat -> nat, draws: nat,
                     shuffle: seq<Pos> -> seq<Pos>, inputs: seq<(Command, char)>): (r: Option<Upkept>)
    requires 4 <= m && 4 <= n && T >= 1 && Rearranges(shuffle)
  {
    var g := GenerateMap(NewGame(m, n, T), rng, draws, shuffle);
    GenerateMapFacts(m, n, T, rng, draws, shuffle);
    if g.ok then Some(Play(g.w, rng, g.draws, inputs)) else None
  }

  // ---------------------------------------------------------------------
  // Facts

  /** Every action keeps the game consistent and leaves the player to
      move alone. */
  lemma ActKeeps(w: GameState, cmd: Command)
    requires Consistent(w) && (cmd.MoveCmd? || cmd.RotateCmd? || cmd.ShootCmd?)
    ensures Consistent(Act(w, cmd)) && Act(w, cmd).current == w.current
  {
    match cmd
    case MoveCmd(x, y, dir) => MoveActionKeeps(w, x, y, dir);
    case RotateCmd(x, y) => RotateActionKeeps(w, x, y);
    case ShootCmd(x, y, dir) => ShootActionKeeps(w, x, y, dir);
  }

  /** The laser phase keeps the game consistent and the player to move;
      when it does not end the game it leaves no laser mark and no
      broken mirror on the board. */
  lemma LaserPhaseFacts(w: GameState, rng: nat -> nat, draws: nat, axis: char)
    requires Consistent(w)
    ensures var r := LaserPhase(w, rng, draws, axis);
      && Consistent(r.w) && r.w.current == w.current
      && (!r.w.gameOver ==>
            forall i, j :: InBounds(w, i, j) ==>
              && !r.w.board[i][j].laserVisited && r.w.board[i][j].laserPathChar == ' '
              && !Holds(Broken, r.w, i, j))
  {
    var w1 := ShootLaser(w, axis);
    ShootLaserFacts(w, axis);
    if !w1.gameOver {
      UpkeepFacts(w1, rng, draws);
    }
  }

  /** Mirror upkeep followed by path clearing on a consistent game. */
  lemma UpkeepFacts(w: GameState, rng: nat -> nat, draws: nat)
    requires Consistent(w)
    ensures var r := ClearPaths(UpdateMirrors(w, rng, draws).w);
      && Consistent(r) && r.current == w.current && r.gameOver == w.gameOver
      && forall i, j :: InBounds(w, i, j) ==>
           && !r.board[i][j].laserVisited && r.board[i][j].laserPathChar == ' '
           && !Holds(Broken, r, i, j)
  {
    var s := UpdateMirrors(w, rng, draws);
    UpdateMirrorsKeeps(w, rng, draws);
    ClearPathsFacts(s.w);
    var r := ClearPaths(s.w);
    forall i, j | InBounds(w, i, j) ensures !Holds(Broken, r, i, j) {
      assert !Holds(Broken, s.w, i, j);
    }
  }

  /** A turn keeps the game consistent and does not change the player to
      move. */
  lemma TurnKeeps(w: GameState, rng: nat -> nat, draws: nat, cmd: Command, axis: char)
    requires Consistent(w)
    ensures Consistent(PlayTurn(w, rng, draws, cmd, axis).w)
    ensures PlayTurn(w, rng, draws, cmd, axis).w.current == w.current
  {
    match cmd
    case ExitCmd => ExitActionFacts(w);
    case InvalidCmd =>
    case _ =>
      ActKeeps(w, cmd);
      var w1 := Act(w, cmd);
      if !w1.gameOver {
        LaserPhaseFacts(w1, rng, draws, axis);
      }
  }

  /** An invalid choice skips the whole turn: nothing changes and nothing
      is drawn. */
  lemma InvalidSkipsTurn(w: GameState, rng: nat -> nat, draws: nat, axis: char)
    requires Consistent(w)
    ensures PlayTurn(w, rng, draws, InvalidCmd, axis) == Upkept(w, draws)
  {
  }

  /** Exit ends the game with the winner chosen by the alive counts, and
      skips the laser phase. */
  lemma ExitEndsTurn(w: GameState, rng: nat -> nat, draws: nat, axis: char)
    requires Consistent(w)
    ensures var r := PlayTurn(w, rng, draws, ExitCmd, axis);
      && r.w.gameOver && r.w.winner == ExitWinner(CountAlive(w.p1), CountAlive(w.p2))
      && r.draws == draws && r.w.board == w.board
  {
  }

  /** A Move, Rotate or Shoot command, even one the action refuses and so
      leaves the game as it was, reaches the laser phase unless the
      action itself ended the game. */
  lemma ActionReachesLaser(w: GameState, rng: nat -> nat, draws: nat, cmd: Command, axis: char)
    requires Consistent(w) && (cmd.MoveCmd? || cmd.RotateCmd? || cmd.ShootCmd?)
    ensures var w1 := Act(w, cmd);
      !w1.gameOver ==> PlayTurn(w, rng, draws, cmd, axis) == LaserPhase(w1, rng, draws, axis)
    ensures cmd.MoveCmd? && MoveRefused(w, cmd.x, cmd.y, cmd.dir) && !w.gameOver ==>
      PlayTurn(w, rng, draws, cmd, axis) == LaserPhase(w, rng, draws, axis)
  {
    ActKeeps(w, cmd);
    if cmd.MoveCmd? && MoveRefused(w, cmd.x, cmd.y, cmd.dir) {
      MoveActionOutcomes(w, cmd.x, cmd.y, cmd.dir);
    }
  }

  /** After a round the game is consistent; if it is not over the other
      player moves next; if it is over the player who ended it is still
      the player to move. */
  lemma RoundFacts(w: GameState, rng: nat -> nat, draws: nat, cmd: Command, axis: char)
    requires Consistent(w)
    ensures var r := Round(w, rng, draws, cmd, axis).w;
      && Consistent(r)
      && (!r.gameOver ==> r.current == Other(w.current))
      && (r.gameOver ==> r.current == w.current)
  {
    TurnKeeps(w, rng, draws, cmd, axis);
    var t := PlayTurn(w, rng, draws, cmd, axis).w;
    CheckWinFacts(t);
    SwitchPlayerFacts(CheckWin(t));
  }

  /** The game loop stops once the game is over; while it goes on the
      players alternate, so after an even number of rounds the player to
      move is the one who started. */
  lemma {:induction false} PlayAlternates(w: GameState, rng: nat -> nat, draws: nat, inputs: seq<(Command, char)>)
    requires Consistent(w)
    ensures var r := Play(w, rng, draws, inputs);
      && (w.gameOver ==> r == Upkept(w, draws))
      && (!r.w.gameOver ==> r.w.current == (if |inputs| % 2 == 0 then w.current else Other(w.current)))
    decreases |inputs|
  {
    if !w.gameOver && inputs != [] {
      var s := Round(w, rng, draws, inputs[0].0, inputs[0].1);
      RoundFacts(w, rng, draws, inputs[0].0, inputs[0].1);
      PlayAlternates(s.w, rng, s.draws, inputs[1..]);
      PlayOn(w, rng, draws, inputs, s);
    }
  }

  /** One round of the loop followed by the rest of it keeps the
      alternation. */
  lemma PlayOn(w: GameState, rng: nat -> nat, draws: nat, inputs: seq<(Command, char)>, s: Upkept)
    requires Consistent(w) && !w.gameOver && inputs != []
    requires s == Round(w, rng, draws, inputs[0].0, inputs[0].1) && Consistent(s.w)
    requires !s.w.gameOver ==> s.w.current == Other(w.current)
    requires s.w.gameOver ==> s.w.current == w.current
    requires var r := Play(s.w, rng, s.draws, inputs[1..]);
      && (s.w.gameOver ==> r == Upkept(s.w, s.draws))
      && (!r.w.gameOver ==> r.w.current == (if |inputs[1..]| % 2 == 0 then s.w.current else Other(s.w.current)))
    ensures var r := Play(w, rng, draws, inputs);
      !r.w.gameOver ==> r.w.current == (if |inputs| % 2 == 0 then w.current else Other(w.current))
  {
    PlayStep(w, rng, draws, inputs, s);
    var r := Play(s.w, rng, s.draws, inputs[1..]);
    ParityStep(w.current, s.w.current, r.w.current, |inputs|, s.w.gameOver, r.w.gameOver);
  }

  /** The player-to-move bookkeeping of one round of the loop. */
  lemma ParityStep(c0: int, c1: int, c2: int, len: int, over1: bool, over2: bool)
    requires c0 == 1 || c0 == 2
    requires !over1 ==> c1 == Other(c0)
    requires over1 ==> over2
    requires !over2 ==> c2 == (if (len - 1) % 2 == 0 then c1 else Other(c1))
    ensures !over2 ==> c2 == (if len % 2 == 0 then c0 else Other(c0))
  {
  }

  lemma PlayStep(w: GameState, rng: nat -> nat, draws: nat, inputs: seq<(Command, char)>, s: Upkept)
    requires Consistent(w) && !w.gameOver && inputs != []
    requires s == Round(w, rng, draws, inputs[0].0, inputs[0].1) && Consistent(s.w)
    ensures Play(w, rng, draws, inputs) == Play(s.w, rng, s.draws, inputs[1..])
  {
  }

  /** The game loop keeps the game consistent. */
  lemma {:induction false} PlayKeeps(w: GameState, rng: nat -> nat, draws: nat, inputs: seq<(Command, char)>)
    requires Consistent(w)
    ensures Consistent(Play(w, rng, draws, inputs).w)
    decreases |inputs|
  {
    if !w.gameOver && inputs != [] {
      var s := Round(w, rng, draws, inputs[0].0, inputs[0].1);
      RoundFacts(w, rng, draws, inputs[0].0, inputs[0].1);
      PlayKeeps(s.w, rng, s.draws, inputs[1..]);
      PlayStep(w, rng, draws, inputs, s);
    }
  }

  /** A started game runs exactly when every tank found a cell; it then
      stays consistent, and while it is not over player 1 is to move
      after an even number of rounds and player 2 after an odd one. */
  lemma StartGameFacts(m: int, n: int, T: int, rng: nat -> nat, draws: nat,
                       shuffle: seq<Pos> -> seq<Pos>, inputs: seq<(Command, char)>)
    requires 4 <= m && 4 <= n && T >= 1 && Rearranges(shuffle)
    ensures var r := StartGame(m, n, T, rng, draws, shuffle, inputs);
      && (r.Some? <==> GenerateMap(NewGame(m, n, T), rng, draws, shuffle).ok)
      && (r.Some? ==> Consistent(r.value.w))
      && (r.Some? && !r.value.w.gameOver ==> r.value.w.current == (if |inputs| % 2 == 0 then 1 else 2))
  {
    var g := GenerateMap(NewGame(m, n, T), rng, draws, shuffle);
    GenerateMapFacts(m, n, T, rng, draws, shuffle);
    if g.ok {
      PlayKeeps(g.w, rng, g.draws, inputs);
      PlayAlternates(g.w, rng, g.draws, inputs);
    }
  }
}
