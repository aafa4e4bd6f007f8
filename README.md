# Turn engine of a two-player fog-of-war grid game, in Dafny

The game is played on a 20 x 20 board of Empty and Block squares. Each side
has ten agents. An agent stands on a square, faces up, down, left or right,
and sees a triangular cone ahead of it: three squares at distance 1, five at
distance 2, seven at distance 3. The players take turns. In a turn, the
current player gives each agent one action: do nothing, turn left, turn
right, or move to a square in its cone. The server checks the batch,
applies it, and tells each player which opponents it can now see.

The rules are written twice in the repository. The browser client
(`src/Game.tsx`) predicts and checks its own player's moves. The server
(`api/src/game.rs`) is the authority. This project models both halves and
proves that they agree.

- `grid.dfy` (module `Grid`): what both halves share. It holds the board
  shape, the four facings, and the vision cone stated as a rule: forward
  distance 1 to 3, sideways offset at most the forward distance. Both
  halves' cone tests are proved equal to this rule.
- `client.dfy` (module `Client`): the client's state and its handlers. The
  handlers are the `Start` and `MovePlayed` messages, a click on a square,
  and the per-agent buttons; each one maps the old state to the new one.
  The drawing of the vision cones is kept only as the list of squares it
  paints. `Consistent` holds the shape every handler keeps. `PendingLegal`
  says that every pending `Move` target is legal for its agent and that no
  two targets coincide.
- `server.dfy` (module `Server`): the server's setup and one pass of the
  `play_game` loop. The `Game` class holds the board, both squads and the
  current player. Its `Valid` invariant says that every agent stands on an
  Empty square of the board. Positions are a 64-bit `usize` newtype, so
  every subtraction and addition is checked for range.
- `agreement.dfy` (module `Agreement`): a batch composed on the client
  from clicks on the board, and sent unchanged, is accepted by the server.
  Both halves use the same rotation tables, start from the same squads, and
  apply a batch the same way.
- `wrappers.dfy` (module `Wrappers`): `Option`.

A click is rejected when the square is the `Move` target of any pending
entry, including the selected agent's own; the resulting state is the same
either way. The visible opponents are a list in opponent order.

## Model

| member | source | states |
|---|---|---|
| `Client.InitialState` | src/Game.tsx:40-58 | `Start` gives exactly 10 agents, agent k at column k+6, on row 1 facing down for the first player, else on row 18 facing up. The batch is ten `Nothing`s iff first player, else none. No visible opponents, no selection. On a 20 x 20 board the state is consistent and its pending moves legal. |
| `Client.OnStart` | src/Game.tsx:43-58 | The `for`/`push` loop builds exactly the `InitialState` roster and state. |
| `Client.RotationsAreInverse` | src/Game.tsx:80-129 | The `TurnRight` table undoes the `TurnLeft` table, and the other way round. |
| `Client.FourLeftTurnsAreIdentity` | src/Game.tsx:80-104 | Four left turns give back the starting facing; one, two or three do not. |
| `Client.PlayMoves` | src/Game.tsx:67-134 | Playing a batch keeps roster length and order. `Nothing` keeps the agent. `Move` changes the position only. `TurnLeft` and `TurnRight` change the facing only, by the rotation tables. |
| `Client.NothingBatchIsIdentity` | src/Game.tsx:71-134 | An all-`Nothing` batch leaves the roster unchanged. |
| `Client.OnMovePlayed` | src/Game.tsx:59-147 | A null state stays null. Otherwise the visible opponents become the payload, the selection is cleared, and the phase flips exactly once. A missing batch becomes a fresh all-`Nothing` batch of roster length and the agents stay. A present batch is played on the agents and becomes null. The result is consistent with no illegal pending move. |
| `Client.Replay` | src/Game.tsx:62-146 | A run of round results keeps a state consistent. The state is null afterwards iff it was null before, so round results that arrive before `Start` leave it null. |
| `Client.PhasesAlternate` | src/Game.tsx:137-144 | After n round results, a batch is pending iff one was pending at the start and n is even, or none was and n is odd. |
| `Client.StartThenAlternate` | src/Game.tsx:51-146 | After `Start` and n round results, a batch is pending iff the player is first and n is even, or second and n is odd. |
| `Client.VisionSquares` | src/Game.tsx:179-202 | The nested `i`/`j` loop paints exactly 15 squares, all different. They are exactly the squares of the agent's vision cone, the same test the click handler applies. |
| `Client.FindAgentIndex` | src/Game.tsx:359-363 | Returns -1 iff no agent stands on the square; otherwise the first index of an agent standing there. |
| `Client.CanMoveToSquare` | src/Game.tsx:375-457 | The flag ends true iff the square is not a block, not a visible opponent, not the target of any pending `Move`, and inside the agent's cone: forward distance 1 to 3 and sideways offset at most the forward distance. |
| `Client.OnClick` | src/Game.tsx:352-473 | With no batch pending, nothing changes. A click on an own agent selects the first agent there and changes nothing else. With no agent there and none selected, nothing changes. With one selected, the state changes iff the square is a legal destination; then only the selected agent's entry changes, to `Move` to that square. Consistency and legality of the pending moves are kept. |
| `Client.OnAgentButton` | src/Game.tsx:508-510 | Selects the agent and changes nothing else; keeps consistency and pending-move legality. |
| `Client.OnActionButton` | src/Game.tsx:524-532 | Entry `index` becomes the chosen `Nothing`/`TurnLeft`/`TurnRight`; every other entry and every other field stay; consistency and pending-move legality are kept. |
| `Server.InVisibleRange` | api/src/game.rs:59-86 | True exactly on the vision cone of the agent's position and facing: forward distance 1 to 3, sideways offset at most the forward distance. Every `usize` subtraction runs after the guard that makes it non-negative. |
| `Server.NothingBehindIsVisible` | api/src/game.rs:59-86 | The agent's own square and every square level with or behind it are never in range. |
| `Server.InVisibleRangeAsWritten` | api/src/game.rs:59-86 | The function as written, conjuncts in order. It overflows exactly when it computes `x + 4` with x above `usize::MAX - 4`; otherwise it gives the same answer as `InVisibleRange`. |
| `Server.UpwardTargetOverflows` | api/src/game.rs:80-84 | For an agent at (1, 6) facing up and target row `usize::MAX`, the function as written overflows, though the target is not in range. |
| `Server.ValidateBatch` | api/src/game.rs:166-194 | The flag and `move_to` loop accepts a batch iff it has one entry per agent, every `Move` target is in its agent's cone, on the board and Empty, and no two `Move` targets are equal. `Nothing` and turns never reject a batch. |
| `Server.RotationsAreInverse` | api/src/game.rs:214-229 | The server's `TurnRight` table undoes its `TurnLeft` table, and four left turns are the identity. |
| `Server.Applied` | api/src/game.rs:210-234 | Applying a batch keeps squad length and order. `Nothing` keeps the agent. `Move` changes the position only. Turns change the facing only, by the rotation tables. |
| `Server.AcceptedBatchKeepsSquaresEmpty` | api/src/game.rs:172-234 | After an accepted batch, every agent still stands on an Empty square of the board. |
| `Server.AcceptedBatchKeepsGameValid` | api/src/game.rs:166-266 | An accepted batch and the hand-over keep the game valid. |
| `Server.SeenPositions` | api/src/game.rs:237-251 | At most as many entries as opponents. A position is listed iff some opponent stands there and some own agent has it in range. |
| `Server.VisibleOpponents` | api/src/game.rs:240-251 | The nested loop with `break` yields exactly `SeenPositions`, in opponent order, with one entry per opponent seen. |
| `Server.SendRoundResults` | api/src/game.rs:237-264 | The `for player in 0..=1` loop sends player 0 the opponents it sees, then player 1 the opponents it sees. |
| `Server.Game.constructor` | api/src/game.rs:91-144 | The board is 20 x 20 and Empty except where the random draw puts a block, in rows 2..17 only. `agents[0]` is at (1, 6..15) facing down and `agents[1]` at (18, 6..15) facing up. No agent starts on a block, and player 0 moves first. |
| `Server.Game.StartMessages` | api/src/game.rs:112-142 | Both players get the same board; only player 0 is told it is first. |
| `Server.Game.ApplyBatch` | api/src/game.rs:210-234 | The in-place loop changes `agents[current_player]` to the applied squad and leaves the other squad unchanged. |
| `Server.Game.PlayMessage` | api/src/game.rs:145-267 | An unparsable or invalid batch gets `InvalidMove` and leaves both squads and `current_player` unchanged. A valid batch changes only the current player's squad, sends both `MovePlayed` results, and toggles `current_player` exactly once. The game stays valid: current player 0 or 1, every agent on an Empty square. |
| `Agreement.DecodeBatch` | api/src/game.rs:148-164 | The server reads the client's batch iff every coordinate fits in a `usize`; entry k then decodes entry k. |
| `Agreement.RotationTablesAgree` | api/src/game.rs:214-229 | The server's rotation tables are the client's. |
| `Agreement.InitialRostersAgree` | api/src/game.rs:100-142 | The player told it is first starts with the server's `agents[0]`, the other with `agents[1]`. |
| `Agreement.MoveAgrees` | src/Game.tsx:71-134 | One client action and its decoded server action move mirrored agents alike. |
| `Agreement.ApplicationAgrees` | api/src/game.rs:210-234 | Playing a batch on the client gives the squad the server builds from the decoded batch. |
| `Agreement.ComposedBatchIsAccepted` | api/src/game.rs:166-194 | A batch composed through clicks on board squares and the buttons decodes, and the server accepts it, when the client's roster mirrors the server's squad on the same board. |
| `Agreement.RoundKeepsRostersInSync` | src/Game.tsx:67-135 | When the server applied the decoding of the client's pending batch, the composing client's roster after the round result mirrors the server's updated squad; the waiting client's roster mirrors its unchanged squad. |

## Findings

| source | as written | input that shows it | evidently intended | confidence | as-written member | corrected member |
|---|---|---|---|---|---|---|
| api/src/game.rs:70-84 | For an agent facing up or left, `in_visible_range` first computes `target + 4` on a `usize` target taken from the client's message. | Agent at (1, 6) facing up; batch entry `Move((18446744073709551615, 6))`. | Return false, since such a target is never in the cone. | low: the overflow panics only where overflow checks are on (debug builds); in release the sum wraps and the next conjunct still gives false; not executed | `Server.InVisibleRangeAsWritten` (with `Server.UpwardTargetOverflows`) | `Server.InVisibleRange` |

## Left out

- Pixel-to-square conversion (`Math.floor(offsetY / 25.0)`) is floating point. `OnClick` takes the clicked square as a pair of integers in 0..19.
- Canvas drawing is left out: colours, rectangles and the agents' eyes. Only the list of squares in the cone-drawing loop is kept. The second copy of that loop, for the selected agent, is the same loop.
- JSON parsing and serialisation, socket sends and their failures, `onClose`, and the server's `_ => return` are I/O. The server's parse step appears only as the `Option` argument of `PlayMessage`. `Agreement.DecodeBatch` models only the `usize` range check on numbers.
- The "Play Move" button only sends the pending batch over the socket; it changes no state, so it has no member. The client ignores the server's `InvalidMove` reply, so it has no handler either.
- `players.shuffle` and `random::<f32>() < 0.1` are randomness. The shuffle only decides which connection is player 0. Block placement is the `isBlock` argument of the constructor.
- api/src/main.rs (routing, WebSocket upgrade, game registry with its five-minute expiry) and src/App.tsx (opening the socket) are I/O and shared-state concurrency, and are not part of this model.
- Client numbers are JavaScript doubles; the model uses integers, which is all the game ever stores in them. Client facings are the strings "up", "down", "left" and "right"; the model uses the same four-valued type as the server.
- `Agreement.ComposedBatchIsAccepted` and `Agreement.RoundKeepsRostersInSync` assume that the batch the server applies is the client's pending batch as it stands when the round result arrives. In the source, "Play Move" only sends the batch, and the action buttons and canvas clicks stay live while a batch is pending. A player can edit the batch after sending it, or send it twice; the server reads only the current player's socket, so a second send is read as that player's next batch. The model does not capture that.
- `Agreement.ComposedBatchIsAccepted` and `Client.OnClick` assume that a click falls on a square in 0..19. A click on the canvas border can give row or column -1 or 20. A column of -1 or 20 reads `undefined`, which is not `"Block"`, so a `Move` to column -1 or 20 can be queued; the server rejects column 20 as off the board, and -1 fails to parse. A row of -1 or 20 makes the block test throw, and the state does not change. The model does not capture those batches.
- `Server.Game.PlayMessage` and `Server.ValidateBatch` use the corrected `Server.InVisibleRange`. On a batch whose Up or Left `Move` target lies within 4 of `usize::MAX`, the model answers `InvalidMove`; the source built with overflow checks panics instead (the finding above).
- `Server.SeenPositions` states membership and size. Opponent order and one entry per opponent seen come from its definition as a filter over the opponents. Its contract does not state them.
