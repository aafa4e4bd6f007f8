/**
 * What both halves of the game agree on: the 20 x 20 board of Empty and
 * Block squares, the four facings of an agent, and the vision cone stated
 * as the game's rule (forward distance 1 to 3, sideways offset at most the
 * forward distance). Both the client's and the server's own cone tests are
 * proved equal to `InCone`.
 */
module Grid {
  /** Side length of the board; both halves hard-code 20. */
  const Size: int := 20

  /** Agents per side. */
  const SquadSize: int := 10

  datatype Square = Empty | Block

  datatype Direction = Up | Down | Left | Right

  /** Rows of squares, indexed `board[row][column]`. */
  type Board = seq<seq<Square>>

  predicate IsBoard(board: Board) {
    |board| == Size && forall row :: 0 <= row < |board| ==> |board[row]| == Size
  }

  predicate OnBoard(row: int, column: int) {
    0 <= row < Size && 0 <= column < Size
  }

  function Abs(x: int): nat {
    if x < 0 then -x else x
  }

  /** How far `to` lies ahead of `from` when facing `d` (rows grow downwards). */
  function Forward(d: Direction, from: (int, int), to: (int, int)): int {
    match d
    case Down => to.0 - from.0
    case Up => from.0 - to.0
    case Right => to.1 - from.1
    case Left => from.1 - to.1
  }

  /** How far `to` lies to the side of `from` when facing `d`. */
  function Lateral(d: Direction, from: (int, int), to: (int, int)): int {
    match d
    case Down | Up => to.1 - from.1
    case Right | Left => to.0 - from.0
  }

  /** The triangular vision cone of an agent at `from` facing `d`. */
  predicate InCone(d: Direction, from: (int, int), to: (int, int)) {
    1 <= Forward(d, from, to) <= 3 && Abs(Lateral(d, from, to)) <= Forward(d, from, to)
  }
}
