/**
 * The server's game loop (api/src/game.rs): the setup of board and squads,
 * and one pass of the `play_game` loop — parse the current player's batch,
 * validate it, apply it in place, compute what each side sees, send the
 * results and hand the turn over. Socket I/O is reduced to the messages a
 * pass sends; the random choices are parameters.
 */
module Server {
  import opened Wrappers
  import opened Grid

  const UsizeMax: int := 0xFFFF_FFFF_FFFF_FFFF

  /** Rust's 64-bit `usize`; arithmetic that leaves the range must be ruled out, as overflow checks would. */
  newtype usize = x: int | 0 <= x <= 0xFFFF_FFFF_FFFF_FFFF

  /** `(row, column)`. */
  type Position = (usize, usize)

  datatype Agent = Agent(position: Position, direction: Direction)

  datatype AgentMove = Nothing | TurnLeft | TurnRight | Move(to: Position)

  datatype ServerMessage =
    | Start(board: Board, isFirstPlayer: bool)
    | InvalidMove
    | MovePlayed(visibleOpponents: seq<Position>)

  function CellOf(p: Position): (int, int) {
    (p.0 as int, p.1 as int)
  }

  /** `usize::abs_diff`. */
  function AbsDiff(a: usize, b: usize): (r: usize)
    ensures r as int == Abs(a as int - b as int)
  {
    if a < b then b - a else a - b
  }

  // ---------------------------------------------------------------------
  // in_visible_range
  // ---------------------------------------------------------------------

  /**
   * `in_visible_range`, with each bound `x < y + 4` read as `x - y < 4`
   * after the comparison that makes `x - y` non-negative, so that no
   * addition can overflow (see InVisibleRangeAsWritten). Holds exactly on
   * the vision cone; every subtraction is on `usize` and is checked.
   */
  function InVisibleRange(position: Position, direction: Direction, target: Position): (r: bool)
    ensures r <==> InCone(direction, CellOf(position), CellOf(target))
  {
    match direction
    case Down =>
      position.0 < target.0 && target.0 - position.0 < 4
      && AbsDiff(position.1, target.1) <= target.0 - position.0
    case Left =>
      target.1 < position.1 && position.1 - target.1 < 4
      && AbsDiff(position.0, target.0) <= position.1 - target.1
    case Right =>
      position.1 < target.1 && target.1 - position.1 < 4
      && AbsDiff(position.0, target.0) <= target.1 - position.1
    case Up =>
      target.0 < position.0 && position.0 - target.0 < 4
      && AbsDiff(position.1, target.1) <= position.0 - target.0
  }

  /** No agent sees its own square or any square level with or behind it. */
  lemma NothingBehindIsVisible(position: Position, direction: Direction, target: Position)
    requires Forward(direction, CellOf(position), CellOf(target)) <= 0
    ensures !InVisibleRange(position, direction, target)
    ensures !InVisibleRange(position, direction, position)
  {
  }

  /** `x + y` on `usize` with overflow checks on: None where the addition panics. */
  function CheckedAdd(x: usize, y: usize): (r: Option<usize>)
    ensures r.Some? <==> x as int + y as int <= UsizeMax
    ensures r.Some? ==> r.value as int == x as int + y as int
  {
    if x as int + y as int <= UsizeMax then Some(x + y) else None
  }

  /** Where `in_visible_range` as written evaluates an addition that overflows. */
  predicate AddOverflows(position: Position, direction: Direction, target: Position) {
    match direction
    case Down => position.0 < target.0 && position.0 as int + 4 > UsizeMax
    case Left => target.1 as int + 4 > UsizeMax
    case Right => position.1 < target.1 && position.1 as int + 4 > UsizeMax
    case Up => target.0 as int + 4 > UsizeMax
  }

  /**
   * `in_visible_range` exactly as written, conjuncts evaluated left to right:
   * None where an addition `x + 4` overflows, which panics when overflow
   * checks are on. Where it does not panic it agrees with InVisibleRange.
   */
  function InVisibleRangeAsWritten(position: Position, direction: Direction, target: Position): (r: Option<bool>)
    ensures r.None? <==> AddOverflows(position, direction, target)
    ensures r.Some? ==> r.value == InVisibleRange(position, direction, target)
  {
    match direction
    case Down =>
      if !(position.0 < target.0) then Some(false)
      else
        (match CheckedAdd(position.0, 4)
         case None => None
         case Some(bound) => Some(target.0 < bound && AbsDiff(position.1, target.1) <= target.0 - position.0))
    case Left =>
      (match CheckedAdd(target.1, 4)
       case None => None
       case Some(bound) =>
         Some(position.1 < bound && target.1 < position.1 && AbsDiff(position.0, target.0) <= position.1 - target.1))
    case Right =>
      if !(position.1 < target.1) then Some(false)
      else
        (match CheckedAdd(position.1, 4)
         case None => None
         case Some(bound) => Some(target.1 < bound && AbsDiff(position.0, target.0) <= target.1 - position.1))
    case Up =>
      match CheckedAdd(target.0, 4)
      case None => None
      case Some(bound) =>
        Some(position.0 < bound && target.0 < position.0 && AbsDiff(position.1, target.1) <= position.0 - target.0)
  }

  /**
   * A batch may name any `usize` target: an agent facing up, asked to move to
   * row `usize::MAX`, makes the check as written overflow, while the target
   * is plainly outside the cone.
   */
  lemma UpwardTargetOverflows()
    ensures InVisibleRangeAsWritten((1, 6), Up, (0xFFFF_FFFF_FFFF_FFFF, 6)).None?
    ensures !InVisibleRange((1, 6), Up, (0xFFFF_FFFF_FFFF_FFFF, 6))
  {
  }

  // ---------------------------------------------------------------------
  // Batch validation
  // ---------------------------------------------------------------------

  /** `in_board`: both indices below `board.len()` and `board[0].len()`. */
  predicate InBoard(board: Board, p: Position)
    requires IsBoard(board)
  {
    (p.0 as int) < |board| && (p.1 as int) < |board[0]|
  }

  /** The checks one `Move(p)` entry of a batch must pass. */
  predicate MoveAccepted(board: Board, agent: Agent, p: Position)
    requires IsBoard(board)
  {
    InVisibleRange(agent.position, agent.direction, p) && InBoard(board, p) && board[p.0][p.1] == Empty
  }

  /**
   * A valid batch: one entry per agent; every `Move` target in its agent's
   * cone, on the board and Empty; and no two `Move` targets equal.
   */
  predicate BatchValid(board: Board, squad: seq<Agent>, moves: seq<AgentMove>)
    requires IsBoard(board)
  {
    && |moves| == |squad|
    && (forall i | 0 <= i < |moves| && moves[i].Move? :: MoveAccepted(board, squad[i], moves[i].to))
    && (forall i, j | 0 <= i < j < |moves| && moves[i].Move? && moves[j].Move? :: moves[i].to != moves[j].to)
  }

  /**
   * The validation pass: an `is_move_valid` flag cleared by a failed entry,
   * and the `move_to` list of the targets accepted so far.
   */
  method ValidateBatch(board: Board, squad: seq<Agent>, moves: seq<AgentMove>) returns (isMoveValid: bool)
    requires IsBoard(board)
    ensures isMoveValid <==> BatchValid(board, squad, moves)
  {
    isMoveValid := true;
    if |moves| != |squad| {
      isMoveValid := false;
    } else {
      var moveTo: seq<Position> := [];
      for i := 0 to |moves|
        invariant forall x :: x in moveTo ==> exists k :: 0 <= k < i && moves[k] == Move(x)
        invariant isMoveValid ==>
          && (forall k | 0 <= k < i && moves[k].Move? :: MoveAccepted(board, squad[k], moves[k].to) && moves[k].to in moveTo)
          && (forall k, m | 0 <= k < m < i && moves[k].Move? && moves[m].Move? :: moves[k].to != moves[m].to)
        invariant !isMoveValid ==>
          exists k :: 0 <= k < i && moves[k].Move? &&
            (!MoveAccepted(board, squad[k], moves[k].to) || exists m :: 0 <= m < k && moves[m] == moves[k])
      {
        var agent := squad[i];
        match moves[i] {
          case Nothing =>
          case TurnLeft =>
          case TurnRight =>
          case Move(position) =>
            var inBoard := (position.0 as int) < |board| && (position.1 as int) < |board[0]|;
            if !InVisibleRange(agent.position, agent.direction, position)
               || !inBoard
               || board[position.0][position.1] != Empty
               || position in moveTo
            {
              isMoveValid := false;
            } else {
              moveTo := moveTo + [position];
            }
        }
      }
    }
  }

  // ---------------------------------------------------------------------
  // Batch application
  // ---------------------------------------------------------------------

  /** The `TurnLeft` table: down, right, up, left, down. */
  function RotateLeft(d: Direction): Direction {
    match d
    case Down => Right
    case Right => Up
    case Up => Left
    case Left => Down
  }

  /** The `TurnRight` table: down, left, up, right, down. */
  function RotateRight(d: Direction): Direction {
    match d
    case Down => Left
    case Left => Up
    case Up => Right
    case Right => Down
  }

  lemma RotationsAreInverse(d: Direction)
    ensures RotateRight(RotateLeft(d)) == d && RotateLeft(RotateRight(d)) == d
    ensures RotateLeft(RotateLeft(RotateLeft(RotateLeft(d)))) == d
  {
  }

  function ApplyMove(agent: Agent, m: AgentMove): Agent {
    match m
    case Nothing => agent
    case TurnLeft => agent.(direction := RotateLeft(agent.direction))
    case TurnRight => agent.(direction := RotateRight(agent.direction))
    case Move(p) => agent.(position := p)
  }

  /** The squad after a batch: same length and order; turns change facing only, moves position only. */
  function Applied(squad: seq<Agent>, moves: seq<AgentMove>): (r: seq<Agent>)
    requires |moves| == |squad|
    ensures |r| == |squad|
    ensures forall i :: 0 <= i < |squad| && moves[i] == Nothing ==> r[i] == squad[i]
    ensures forall i :: 0 <= i < |squad| && moves[i].Move? ==>
      r[i].position == moves[i].to && r[i].direction == squad[i].direction
    ensures forall i :: 0 <= i < |squad| && moves[i] == TurnLeft ==>
      r[i].position == squad[i].position && r[i].direction == RotateLeft(squad[i].direction)
    ensures forall i :: 0 <= i < |squad| && moves[i] == TurnRight ==>
      r[i].position == squad[i].position && r[i].direction == RotateRight(squad[i].direction)
  {
    seq(|squad|, i requires 0 <= i < |squad| => ApplyMove(squad[i], moves[i]))
  }

  /** Every agent stands on an Empty square of the board. */
  predicate OnEmptySquares(board: Board, squad: seq<Agent>)
    requires IsBoard(board)
  {
    forall k | 0 <= k < |squad| ::
      InBoard(board, squad[k].position) && board[squad[k].position.0][squad[k].position.1] == Empty
  }

  /** An accepted batch never puts an agent off the board or onto a block. */
  lemma AcceptedBatchKeepsSquaresEmpty(board: Board, squad: seq<Agent>, moves: seq<AgentMove>)
    requires IsBoard(board) && OnEmptySquares(board, squad) && BatchValid(board, squad, moves)
    ensures OnEmptySquares(board, Applied(squad, moves))
  {
    var r := Applied(squad, moves);
    forall k | 0 <= k < |r|
      ensures InBoard(board, r[k].position) && board[r[k].position.0][r[k].position.1] == Empty
    {
      if moves[k].Move? {
        assert MoveAccepted(board, squad[k], moves[k].to);
      }
    }
  }

  // ---------------------------------------------------------------------
  // Visibility
  // ---------------------------------------------------------------------

  /** Some agent of `own` has `target` in its cone. */
  predicate SeenBy(own: seq<Agent>, target: Position) {
    exists k :: 0 <= k < |own| && InVisibleRange(own[k].position, own[k].direction, target)
  }

  /**
   * The positions of the opponents some agent of `own` sees, in opponent
   * order, one entry per opponent seen.
   */
  function SeenPositions(own: seq<Agent>, opponents: seq<Agent>): (r: seq<Position>)
    ensures |r| <= |opponents|
    ensures forall p :: p in r <==> exists k :: 0 <= k < |opponents| && opponents[k].position == p && SeenBy(own, p)
    decreases |opponents|
  {
    if opponents == [] then []
    else
      var last := opponents[|opponents| - 1];
      var before := opponents[..|opponents| - 1];
      var seen := SeenPositions(own, before);
      assert forall k :: 0 <= k < |before| ==> before[k] == opponents[k];
      seen + if SeenBy(own, last.position) then [last.position] else []
  }

  /** The visibility pass for one player: for each opponent, stop at the first own agent that sees it. */
  method VisibleOpponents(own: seq<Agent>, opponents: seq<Agent>) returns (visibleOpponents: seq<Position>)
    ensures visibleOpponents == SeenPositions(own, opponents)
  {
    visibleOpponents := [];
    for o := 0 to |opponents|
      invariant visibleOpponents == SeenPositions(own, opponents[..o])
    {
      var opponentAgent := opponents[o];
      assert opponents[..o + 1][..o] == opponents[..o];
      for a := 0 to |own|
        invariant forall k :: 0 <= k < a ==> !InVisibleRange(own[k].position, own[k].direction, opponentAgent.position)
        invariant visibleOpponents == SeenPositions(own, opponents[..o])
      {
        var agent := own[a];
        if InVisibleRange(agent.position, agent.direction, opponentAgent.position) {
          visibleOpponents := visibleOpponents + [opponentAgent.position];
          break;
        }
      }
    }
    assert opponents[..|opponents|] == opponents;
  }

  // ---------------------------------------------------------------------
  // The game
  // ---------------------------------------------------------------------

  /**
   * What every pass of the loop keeps: a 20 x 20 board, two squads of ten
   * agents standing on Empty squares, and a current player of 0 or 1.
   */
  predicate ValidGame(board: Board, agents: seq<seq<Agent>>, currentPlayer: nat) {
    && IsBoard(board)
    && |agents| == 2
    && currentPlayer <= 1
    && (forall player | 0 <= player < 2 :: |agents[player]| == SquadSize && OnEmptySquares(board, agents[player]))
  }

  /** An accepted batch, followed by the hand-over, keeps the game valid. */
  lemma AcceptedBatchKeepsGameValid(board: Board, agents: seq<seq<Agent>>, currentPlayer: nat, moves: seq<AgentMove>)
    requires ValidGame(board, agents, currentPlayer)
    requires BatchValid(board, agents[currentPlayer], moves)
    ensures ValidGame(board, agents[currentPlayer := Applied(agents[currentPlayer], moves)], 1 - currentPlayer)
  {
    AcceptedBatchKeepsSquaresEmpty(board, agents[currentPlayer], moves);
  }

  /** Side `player`'s squad at setup: columns 6..15 of row 1 facing Down, or of row 18 facing Up. */
  function InitialSquad(player: nat): seq<Agent>
    requires player <= 1
  {
    seq(SquadSize, k requires 0 <= k < SquadSize =>
      Agent((if player == 0 then 1 else 18, (k + 6) as usize), if player == 0 then Down else Up))
  }

  /** The state `play_game` keeps between passes of its loop. */
  class Game {
    var board: Board
    var agents: seq<seq<Agent>>
    var currentPlayer: nat

    ghost predicate Valid()
      reads this
    {
      ValidGame(board, agents, currentPlayer)
    }

    /**
     * Setup: a 20 x 20 board of Empty squares, with a block wherever the
     * random draw `isBlock` says so in rows 2..17; ten agents per side.
     * No agent starts on a block, and player 0 moves first.
     */
    constructor (isBlock: (int, int) -> bool)
      ensures Valid() && currentPlayer == 0
      ensures forall row, column | 0 <= row < Size && 0 <= column < Size ::
        board[row][column] == if 2 <= row <= 17 && isBlock(row, column) then Block else Empty
      ensures agents == [InitialSquad(0), InitialSquad(1)]
    {
      var b: Board := seq(Size, _ => seq(Size, _ => Empty));
      for i := 2 to 18
        invariant IsBoard(b)
        invariant forall row, column | 0 <= row < Size && 0 <= column < Size ::
          b[row][column] == if 2 <= row < i && isBlock(row, column) then Block else Empty
      {
        for j := 0 to 20
          invariant IsBoard(b)
          invariant forall row, column | 0 <= row < Size && 0 <= column < Size ::
            b[row][column] == if (2 <= row < i || (row == i && column < j)) && isBlock(row, column) then Block else Empty
        {
          if isBlock(i, j) {
            b := b[i := b[i][j := Block]];
          }
        }
      }
      var squad0: seq<Agent> := [];
      var squad1: seq<Agent> := [];
      for i := 6 to 16
        invariant squad0 == InitialSquad(0)[..i - 6] && squad1 == InitialSquad(1)[..i - 6]
      {
        squad0 := squad0 + [Agent((1, i as usize), Down)];
        squad1 := squad1 + [Agent((18, i as usize), Up)];
      }
      assert InitialSquad(0)[..SquadSize] == InitialSquad(0) && InitialSquad(1)[..SquadSize] == InitialSquad(1);
      board, agents, currentPlayer := b, [squad0, squad1], 0;
    }

    /** The messages `Start` sends: the board to both, `is_first_player` to player 0 only. */
    function StartMessages(): (r: seq<(nat, ServerMessage)>)
      reads this
      ensures |r| == 2 && r[0].0 == 0 && r[1].0 == 1
      ensures r[0].1.Start? && r[1].1.Start?
      ensures r[0].1.board == r[1].1.board == board
      ensures r[0].1.isFirstPlayer && !r[1].1.isFirstPlayer
    {
      [(0, Start(board, true)), (1, Start(board, false))]
    }

    /** Applies a validated batch to `agents[currentPlayer]`, entry by entry, in place. */
    method ApplyBatch(moves: seq<AgentMove>)
      requires Valid() && |moves| == |agents[currentPlayer]|
      modifies this`agents
      ensures agents == old(agents)[currentPlayer := Applied(old(agents)[currentPlayer], moves)]
    {
      ghost var squad := agents[currentPlayer];
      for i := 0 to |moves|
        invariant |agents| == 2 && agents[1 - currentPlayer] == old(agents)[1 - currentPlayer]
        invariant |agents[currentPlayer]| == |moves|
        invariant forall k | 0 <= k < |moves| ::
          agents[currentPlayer][k] == if k < i then ApplyMove(squad[k], moves[k]) else squad[k]
      {
        var agent := agents[currentPlayer][i];
        match moves[i] {
          case Nothing =>
          case TurnLeft =>
            agent := agent.(direction := RotateLeft(agent.direction));
          case TurnRight =>
            agent := agent.(direction := RotateRight(agent.direction));
          case Move(position) =>
            agent := agent.(position := position);
        }
        agents := agents[currentPlayer := agents[currentPlayer][i := agent]];
      }
      assert agents[currentPlayer] == Applied(squad, moves);
      assert agents == old(agents)[currentPlayer := Applied(squad, moves)];
    }

    /**
     * One pass of the loop for a text message from the current player;
     * `message` is None when it does not parse as a batch. A rejected batch
     * gets `InvalidMove` and changes nothing. An accepted one changes only
     * the current player's squad, tells each player which opponents it now
     * sees, and hands the turn to the other player.
     */
    method PlayMessage(message: Option<seq<AgentMove>>) returns (sent: seq<(nat, ServerMessage)>)
      requires Valid()
      modifies this`agents, this`currentPlayer
      ensures Valid()
      ensures message.Some? && BatchValid(board, old(agents)[old(currentPlayer)], message.value) ==>
        && agents == old(agents)[old(currentPlayer) := Applied(old(agents)[old(currentPlayer)], message.value)]
        && currentPlayer == 1 - old(currentPlayer)
        && sent == RoundResults(agents)
      ensures !(message.Some? && BatchValid(board, old(agents)[old(currentPlayer)], message.value)) ==>
        agents == old(agents) && currentPlayer == old(currentPlayer) && sent == [(currentPlayer, InvalidMove)]
    {
      if message.None? {
        return [(currentPlayer, InvalidMove)];
      }
      var moves := message.value;
      var isMoveValid := ValidateBatch(board, agents[currentPlayer], moves);
      if !isMoveValid {
        return [(currentPlayer, InvalidMove)];
      }
      AcceptedBatchKeepsGameValid(board, agents, currentPlayer, moves);
      ApplyBatch(moves);
      sent := SendRoundResults(agents);
      currentPlayer := 1 - currentPlayer;
    }
  }

  /** The `MovePlayed` messages of a round: each player gets the opponents it sees. */
  function RoundResults(agents: seq<seq<Agent>>): seq<(nat, ServerMessage)>
    requires |agents| == 2
  {
    [(0, MovePlayed(SeenPositions(agents[0], agents[1]))), (1, MovePlayed(SeenPositions(agents[1], agents[0])))]
  }

  /** The sending loop `for player in 0..=1`. */
  method SendRoundResults(agents: seq<seq<Agent>>) returns (sent: seq<(nat, ServerMessage)>)
    requires |agents| == 2
    ensures sent == RoundResults(agents)
  {
    sent := [];
    for player := 0 to 2
      invariant |sent| == player
      invariant forall p | 0 <= p < player :: sent[p] == (p, MovePlayed(SeenPositions(agents[p], agents[1 - p])))
    {
      var visibleOpponents := VisibleOpponents(agents[player], agents[1 - player]);
      sent := sent + [(player, MovePlayed(visibleOpponents))];
    }
  }
}
