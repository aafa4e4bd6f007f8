/**
 * The client's turn engine (src/Game.tsx): the state the game screen keeps,
 * and the handlers that change it — the `Start` and `MovePlayed` messages,
 * a click on a board square, and the per-agent buttons — each taken as a
 * step from the old state to the new one. The drawing of the vision cones is
 * kept only as the enumeration of the squares it paints.
 */
module Client {
  import opened Wrappers
  import opened Grid

  /** A board square as `[row, column]`. */
  type Cell = (int, int)

  datatype Agent = Agent(direction: Direction, position: Cell)

  /** One pending action; `MoveTo` is the `{ Move: [row, column] }` object. */
  datatype Move = Nothing | TurnLeft | TurnRight | MoveTo(target: Cell)

  /**
   * The game screen's state. `moveSelection` is the pending batch, None while
   * the opponent is to move; `selectedAgent` is the agent the next click is for.
   */
  datatype GameState = GameState(
    board: Board,
    isFirstPlayer: bool,
    agents: seq<Agent>,
    visibleOpponents: seq<Cell>,
    moveSelection: Option<seq<Move>>,
    selectedAgent: Option<nat>)

  /** The shape every handler keeps. */
  predicate Consistent(s: GameState) {
    && IsBoard(s.board)
    && |s.agents| == SquadSize
    && (s.moveSelection.Some? ==> |s.moveSelection.value| == |s.agents|)
    && (s.selectedAgent.Some? ==> s.moveSelection.Some? && s.selectedAgent.value < |s.agents|)
  }

  /** A square the server accepts as the `Move` target of `agent`. */
  predicate LegalTarget(board: Board, agent: Agent, cell: Cell)
    requires IsBoard(board)
  {
    OnBoard(cell.0, cell.1) && board[cell.0][cell.1] == Empty && InCone(agent.direction, agent.position, cell)
  }

  /** Every pending `MoveTo` is a legal target of its own agent, and no two pending targets coincide. */
  predicate PendingLegal(s: GameState)
    requires Consistent(s)
  {
    s.moveSelection.Some? ==>
      var selection := s.moveSelection.value;
      && (forall k | 0 <= k < |selection| && selection[k].MoveTo? ::
            LegalTarget(s.board, s.agents[k], selection[k].target))
      && (forall k, m | 0 <= k < m < |selection| && selection[k].MoveTo? && selection[m].MoveTo? ::
            selection[k].target != selection[m].target)
  }

  // ---------------------------------------------------------------------
  // Session start
  // ---------------------------------------------------------------------

  /** Agent `k` of the local squad when the session starts. */
  function StartAgent(isFirstPlayer: bool, k: int): Agent {
    Agent(if isFirstPlayer then Down else Up, (if isFirstPlayer then 1 else 18, k + 6))
  }

  /** A pending batch of `n` `Nothing`s. */
  function Nothings(n: nat): seq<Move> {
    seq(n, _ => Nothing)
  }

  /** The state the `Start` message installs. */
  function InitialState(board: Board, isFirstPlayer: bool): (s: GameState)
    ensures s.board == board && s.isFirstPlayer == isFirstPlayer
    ensures |s.agents| == SquadSize
    ensures forall k :: 0 <= k < SquadSize ==>
      && s.agents[k].position == (if isFirstPlayer then 1 else 18, k + 6)
      && s.agents[k].direction == (if isFirstPlayer then Down else Up)
    ensures s.moveSelection.Some? <==> isFirstPlayer
    ensures s.moveSelection.Some? ==>
      |s.moveSelection.value| == SquadSize && forall k :: 0 <= k < SquadSize ==> s.moveSelection.value[k] == Nothing
    ensures s.visibleOpponents == [] && s.selectedAgent == None
    ensures IsBoard(board) ==> Consistent(s) && PendingLegal(s)
  {
    GameState(board, isFirstPlayer, seq(SquadSize, k => StartAgent(isFirstPlayer, k)), [],
              if isFirstPlayer then Some(Nothings(SquadSize)) else None, None)
  }

  /** The `Start` handler: the squad is pushed agent by agent, columns 6 to 15. */
  method OnStart(board: Board, isFirstPlayer: bool) returns (s: GameState)
    ensures s == InitialState(board, isFirstPlayer)
  {
    var agents: seq<Agent> := [];
    for i := 6 to 16
      invariant |agents| == i - 6
      invariant forall k :: 0 <= k < i - 6 ==> agents[k] == StartAgent(isFirstPlayer, k)
    {
      agents := agents + [Agent(if isFirstPlayer then Down else Up, (if isFirstPlayer then 1 else 18, i))];
    }
    assert agents == seq(SquadSize, k => StartAgent(isFirstPlayer, k));
    s := GameState(board, isFirstPlayer, agents, [],
                   if isFirstPlayer then Some(seq(|agents|, _ => Nothing)) else None, None);
  }

  // ---------------------------------------------------------------------
  // Round result
  // ---------------------------------------------------------------------

  /** The `TurnLeft` table: down, right, up, left, down. */
  function RotateLeft(d: Direction): Direction {
    match d
    case Down => Right
    case Right => Up
    case Up => Left
    case Left => Down
  }

  /** The `TurnRight` table: down, left, up, right, down. */
  function RotateRight(d: Direction): Direction {
    match d
    case Down => Left
    case Left => Up
    case Up => Right
    case Right => Down
  }

  lemma RotationsAreInverse(d: Direction)
    ensures RotateRight(RotateLeft(d)) == d && RotateLeft(RotateRight(d)) == d
  {
  }

  lemma FourLeftTurnsAreIdentity(d: Direction)
    ensures RotateLeft(RotateLeft(RotateLeft(RotateLeft(d)))) == d
    ensures RotateLeft(d) != d && RotateLeft(RotateLeft(d)) != d && RotateLeft(RotateLeft(RotateLeft(d))) != d
  {
  }

  /** What one pending action does to its agent. */
  function PlayMove(agent: Agent, move: Move): Agent {
    match move
    case MoveTo(target) => agent.(position := target)
    case TurnLeft => agent.(direction := RotateLeft(agent.direction))
    case TurnRight => agent.(direction := RotateRight(agent.direction))
    case Nothing => agent
  }

  /** The roster after the pending batch is played (the `agents.map` of the round result). */
  function PlayMoves(agents: seq<Agent>, selection: seq<Move>): (r: seq<Agent>)
    requires |selection| == |agents|
    ensures |r| == |agents|
    ensures forall k :: 0 <= k < |agents| && selection[k] == Nothing ==> r[k] == agents[k]
    ensures forall k :: 0 <= k < |agents| && selection[k].MoveTo? ==>
      r[k].position == selection[k].target && r[k].direction == agents[k].direction
    ensures forall k :: 0 <= k < |agents| && selection[k] == TurnLeft ==>
      r[k].position == agents[k].position && r[k].direction == RotateLeft(agents[k].direction)
    ensures forall k :: 0 <= k < |agents| && selection[k] == TurnRight ==>
      r[k].position == agents[k].position && r[k].direction == RotateRight(agents[k].direction)
  {
    seq(|agents|, k requires 0 <= k < |agents| => PlayMove(agents[k], selection[k]))
  }

  lemma {:induction false} NothingBatchIsIdentity(agents: seq<Agent>)
    ensures PlayMoves(agents, Nothings(|agents|)) == agents
  {
    var r := PlayMoves(agents, Nothings(|agents|));
    forall k | 0 <= k < |agents|
      ensures r[k] == agents[k]
    {
      assert Nothings(|agents|)[k] == Nothing;
    }
  }

  /**
   * The `MovePlayed` handler. A null state stays null. Otherwise the pending
   * batch, if any, is played on the roster, the visible opponents are
   * replaced by the payload, the selection is cleared, and the phase flips:
   * no batch becomes a fresh all-`Nothing` batch, a batch becomes none.
   */
  function OnMovePlayed(state: Option<GameState>, visibleOpponents: seq<Cell>): (r: Option<GameState>)
    requires state.Some? ==> Consistent(state.value)
    ensures r.Some? <==> state.Some?
    ensures state.Some? ==>
      var s, n := state.value, r.value;
      && Consistent(n) && PendingLegal(n)
      && n.board == s.board && n.isFirstPlayer == s.isFirstPlayer
      && n.visibleOpponents == visibleOpponents && n.selectedAgent == None
      && (n.moveSelection.Some? <==> s.moveSelection.None?)
      && (s.moveSelection.None? ==>
            && n.agents == s.agents
            && |n.moveSelection.value| == |s.agents|
            && forall k :: 0 <= k < |s.agents| ==> n.moveSelection.value[k] == Nothing)
      && (s.moveSelection.Some? ==> n.agents == PlayMoves(s.agents, s.moveSelection.value))
  {
    match state
    case None => None
    case Some(s) =>
      var agents := if s.moveSelection.Some? then PlayMoves(s.agents, s.moveSelection.value) else s.agents;
      Some(s.(visibleOpponents := visibleOpponents,
              moveSelection := if s.moveSelection.None? then Some(Nothings(|s.agents|)) else None,
              selectedAgent := None,
              agents := agents))
  }

  /** The state after a run of `MovePlayed` messages, one payload per round. */
  function Replay(state: Option<GameState>, rounds: seq<seq<Cell>>): (r: Option<GameState>)
    requires state.Some? ==> Consistent(state.value)
    ensures r.Some? <==> state.Some?
    ensures r.Some? ==> Consistent(r.value)
    decreases |rounds|
  {
    if rounds == [] then state else Replay(OnMovePlayed(state, rounds[0]), rounds[1..])
  }

  /** Every round result flips the phase exactly once. */
  lemma {:induction false} PhasesAlternate(s: GameState, rounds: seq<seq<Cell>>)
    requires Consistent(s)
    ensures Replay(Some(s), rounds).Some?
    ensures Replay(Some(s), rounds).value.moveSelection.Some? <==> (s.moveSelection.Some? <==> |rounds| % 2 == 0)
    decreases |rounds|
  {
    if rounds != [] {
      var n := OnMovePlayed(Some(s), rounds[0]).value;
      PhasesAlternate(n, rounds[1..]);
    }
  }

  /** From `Start`, the first player composes on even rounds and the second on odd rounds. */
  lemma StartThenAlternate(board: Board, isFirstPlayer: bool, rounds: seq<seq<Cell>>)
    requires IsBoard(board)
    ensures Replay(Some(InitialState(board, isFirstPlayer)), rounds).Some?
    ensures Replay(Some(InitialState(board, isFirstPlayer)), rounds).value.moveSelection.Some?
            <==> (isFirstPlayer <==> |rounds| % 2 == 0)
  {
    PhasesAlternate(InitialState(board, isFirstPlayer), rounds);
  }

  // ---------------------------------------------------------------------
  // Vision cones as drawn
  // ---------------------------------------------------------------------

  /** The square drawn at forward step `i` and side step `j` of `agent`'s cone. */
  function ConeSquare(agent: Agent, i: int, j: int): Cell {
    match agent.direction
    case Down => (agent.position.0 + i, agent.position.1 + j)
    case Left => (agent.position.0 + j, agent.position.1 - i)
    case Right => (agent.position.0 + j, agent.position.1 + i)
    case Up => (agent.position.0 - i, agent.position.1 + j)
  }

  /** `c` comes before step (`i`, `j`) in the drawing order of `agent`'s cone. */
  predicate DrawnBefore(agent: Agent, c: Cell, i: int, j: int) {
    var f := Forward(agent.direction, agent.position, c);
    f < i || (f == i && Lateral(agent.direction, agent.position, c) < j)
  }

  /**
   * The squares the nested `i`/`j` loop paints for one agent: 15 of them,
   * all different, and exactly the squares of its vision cone.
   */
  method VisionSquares(agent: Agent) returns (squares: seq<Cell>)
    ensures |squares| == 15
    ensures forall k :: 0 <= k < |squares| ==> InCone(agent.direction, agent.position, squares[k])
    ensures forall c :: InCone(agent.direction, agent.position, c) ==> c in squares
    ensures forall k, m :: 0 <= k < m < |squares| ==> squares[k] != squares[m]
  {
    var d, p := agent.direction, agent.position;
    squares := [];
    for i := 1 to 4
      invariant |squares| == i * i - 1
      invariant forall k :: 0 <= k < |squares| ==> InCone(d, p, squares[k]) && Forward(d, p, squares[k]) < i
      invariant forall k, m :: 0 <= k < m < |squares| ==> squares[k] != squares[m]
      invariant forall c :: InCone(d, p, c) && Forward(d, p, c) < i ==> c in squares
    {
      for j := -i to i + 1
        invariant |squares| == i * i - 1 + (j + i)
        invariant forall k :: 0 <= k < |squares| ==> InCone(d, p, squares[k]) && DrawnBefore(agent, squares[k], i, j)
        invariant forall k, m :: 0 <= k < m < |squares| ==> squares[k] != squares[m]
        invariant forall c :: InCone(d, p, c) && DrawnBefore(agent, c, i, j) ==> c in squares
      {
        var square := ConeSquare(agent, i, j);
        assert forall c :: Forward(d, p, c) == i && Lateral(d, p, c) == j ==> c == square;
        squares := squares + [square];
      }
      assert (i + 1) * (i + 1) - 1 == i * i - 1 + (i + 1 + i);
    }
  }

  // ---------------------------------------------------------------------
  // Clicks and buttons
  // ---------------------------------------------------------------------

  /** `findIndex`: the first agent standing on `square`, or -1. */
  function FindAgentIndex(agents: seq<Agent>, square: Cell): (index: int)
    ensures -1 <= index < |agents|
    ensures index == -1 ==> forall k :: 0 <= k < |agents| ==> agents[k].position != square
    ensures 0 <= index ==> agents[index].position == square
    ensures 0 <= index ==> forall k :: 0 <= k < index ==> agents[k].position != square
  {
    if |agents| == 0 then -1
    else if agents[0].position == square then 0
    else
      var rest := FindAgentIndex(agents[1..], square);
      if rest == -1 then -1 else rest + 1
  }

  /**
   * A square the selected `agent` may be sent to: not a block, not a visible
   * opponent, not already the target of a pending `MoveTo`, and in the cone.
   */
  predicate LegalDestination(s: GameState, agent: Agent, square: Cell)
    requires Consistent(s) && s.moveSelection.Some? && OnBoard(square.0, square.1)
  {
    && s.board[square.0][square.1] != Block
    && square !in s.visibleOpponents
    && MoveTo(square) !in s.moveSelection.value
    && InCone(agent.direction, agent.position, square)
  }

  /** The click handler's `canMoveToSquare` flag, cleared by each failed check in turn. */
  method CanMoveToSquare(s: GameState, agent: Agent, square: Cell) returns (canMoveToSquare: bool)
    requires Consistent(s) && s.moveSelection.Some? && OnBoard(square.0, square.1)
    ensures canMoveToSquare <==> LegalDestination(s, agent, square)
  {
    canMoveToSquare := true;
    if s.board[square.0][square.1] == Block {
      canMoveToSquare := false;
    }
    if square in s.visibleOpponents {
      canMoveToSquare := false;
    }
    if MoveTo(square) in s.moveSelection.value {
      canMoveToSquare := false;
    }
    var row, column := agent.position.0, agent.position.1;
    match agent.direction {
      case Down =>
        if !(row < square.0 && square.0 < row + 4 && Abs(square.1 - column) <= square.0 - row) {
          canMoveToSquare := false;
        }
      case Left =>
        if !(column - 4 < square.1 && square.1 < column && Abs(square.0 - row) <= column - square.1) {
          canMoveToSquare := false;
        }
      case Right =>
        if !(column < square.1 && square.1 < column + 4 && Abs(square.0 - row) <= square.1 - column) {
          canMoveToSquare := false;
        }
      case Up =>
        if !(row - 4 < square.0 && square.0 < row && Abs(square.1 - column) <= row - square.0) {
          canMoveToSquare := false;
        }
    }
  }

  /**
   * A click on board square `clicked`. Ignored while no batch is pending.
   * A click on an own agent selects the first agent there. Otherwise, with
   * an agent selected, the click sets that agent's entry to `MoveTo(clicked)`
   * exactly when the square is a legal destination, and changes nothing else.
   */
  method OnClick(s: GameState, clicked: Cell) returns (next: GameState)
    requires Consistent(s) && OnBoard(clicked.0, clicked.1)
    ensures Consistent(next)
    ensures PendingLegal(s) ==> PendingLegal(next)
    ensures s.moveSelection.None? ==> next == s
    ensures s.moveSelection.Some? && FindAgentIndex(s.agents, clicked) != -1 ==>
      next == s.(selectedAgent := Some(FindAgentIndex(s.agents, clicked)))
    ensures s.moveSelection.Some? && FindAgentIndex(s.agents, clicked) == -1 && s.selectedAgent.None? ==>
      next == s
    ensures s.moveSelection.Some? && FindAgentIndex(s.agents, clicked) == -1 && s.selectedAgent.Some? ==>
      var selection, a := s.moveSelection.value, s.selectedAgent.value;
      && (next != s <==> LegalDestination(s, s.agents[a], clicked))
      && next.(moveSelection := s.moveSelection) == s
      && next.moveSelection.Some? && |next.moveSelection.value| == |selection|
      && (LegalDestination(s, s.agents[a], clicked) ==> next.moveSelection.value[a] == MoveTo(clicked))
      && (forall k :: 0 <= k < |selection| && k != a ==> next.moveSelection.value[k] == selection[k])
  {
    next := s;
    if s.moveSelection.Some? {
      var agentIndex := FindAgentIndex(s.agents, clicked);
      if agentIndex != -1 {
        next := s.(selectedAgent := Some(agentIndex));
      } else if s.selectedAgent.Some? {
        var selected := s.selectedAgent.value;
        var agent := s.agents[selected];
        var canMoveToSquare := CanMoveToSquare(s, agent, clicked);
        if canMoveToSquare {
          var moveSelection := s.moveSelection.value;
          var newMoveSelection := moveSelection[..selected] + [MoveTo(clicked)] + moveSelection[selected + 1..];
          assert forall k :: 0 <= k < |moveSelection| ==>
            newMoveSelection[k] == if k == selected then MoveTo(clicked) else moveSelection[k];
          next := s.(moveSelection := Some(newMoveSelection));
        }
      }
    }
  }

  /** The "Player {index}" button: selects agent `index` and changes nothing else. */
  function OnAgentButton(s: GameState, index: nat): (r: GameState)
    requires Consistent(s) && s.moveSelection.Some? && index < |s.agents|
    ensures Consistent(r) && (PendingLegal(s) ==> PendingLegal(r))
    ensures r.selectedAgent == Some(index) && r.(selectedAgent := s.selectedAgent) == s
  {
    s.(selectedAgent := Some(index))
  }

  /** The Nothing / TurnLeft / TurnRight buttons: entry `index` becomes `move`, the others stay. */
  function OnActionButton(s: GameState, index: nat, move: Move): (r: GameState)
    requires Consistent(s) && s.moveSelection.Some? && index < |s.agents| && !move.MoveTo?
    ensures Consistent(r) && (PendingLegal(s) ==> PendingLegal(r))
    ensures r.(moveSelection := s.moveSelection) == s
    ensures r.moveSelection.Some? && |r.moveSelection.value| == |s.moveSelection.value|
    ensures r.moveSelection.value[index] == move
    ensures forall k :: 0 <= k < |s.agents| && k != index ==> r.moveSelection.value[k] == s.moveSelection.value[k]
  {
    var moveSelection := s.moveSelection.value;
    var updated := moveSelection[..index] + [move] + moveSelection[index + 1..];
    assert forall k :: 0 <= k < |moveSelection| ==> updated[k] == if k == index then move else moveSelection[k];
    s.(moveSelection := Some(updated))
  }
}
