/**
 * The client and the server each encode the rules of the game. This module
 * connects the two: a batch the client composes is read by the server
 * through serde (numbers become `usize`, and a number that does not fit
 * fails the whole message), and the two sides' squads, rotation tables and
 * batch application are shown to agree.
 */
module Agreement {
  import opened Wrappers
  import opened Grid
  import Client
  import Server

  /** A client coordinate read into a `usize`; None when it does not fit. */
  function DecodeCoordinate(x: int): (r: Option<Server.usize>)
    ensures r.Some? <==> 0 <= x <= Server.UsizeMax
    ensures r.Some? ==> r.value as int == x
  {
    if 0 <= x <= Server.UsizeMax then Some(x as Server.usize) else None
  }

  /** One entry of the `moves` array as the server reads it. */
  function DecodeMove(m: Client.Move): Option<Server.AgentMove> {
    match m
    case Nothing => Some(Server.Nothing)
    case TurnLeft => Some(Server.TurnLeft)
    case TurnRight => Some(Server.TurnRight)
    case MoveTo(target) =>
      match (DecodeCoordinate(target.0), DecodeCoordinate(target.1))
      case (Some(row), Some(column)) => Some(Server.Move((row, column)))
      case _ => None
  }

  /** The whole `{ moves: [...] }` message as the server reads it: one bad entry fails it all. */
  function DecodeBatch(selection: seq<Client.Move>): (r: Option<seq<Server.AgentMove>>)
    ensures r.Some? <==> forall k :: 0 <= k < |selection| ==> DecodeMove(selection[k]).Some?
    ensures r.Some? ==> |r.value| == |selection| && forall k :: 0 <= k < |selection| ==> DecodeMove(selection[k]) == Some(r.value[k])
    decreases |selection|
  {
    if selection == [] then Some([])
    else
      match (DecodeMove(selection[0]), DecodeBatch(selection[1..]))
      case (Some(m), Some(rest)) => Some([m] + rest)
      case _ => None
  }

  /** A client roster mirrors a server squad: same order, same facings, same squares. */
  predicate Mirrors(roster: seq<Client.Agent>, squad: seq<Server.Agent>) {
    && |roster| == |squad|
    && forall k :: 0 <= k < |squad| ==>
         roster[k].direction == squad[k].direction && roster[k].position == Server.CellOf(squad[k].position)
  }

  /** Both halves turn an agent the same way. */
  lemma RotationTablesAgree(d: Direction)
    ensures Client.RotateLeft(d) == Server.RotateLeft(d)
    ensures Client.RotateRight(d) == Server.RotateRight(d)
  {
  }

  /**
   * The player told `is_first_player: true` starts with the server's
   * `agents[0]`, the other with `agents[1]`.
   */
  lemma InitialRostersAgree(board: Board)
    ensures Mirrors(Client.InitialState(board, true).agents, Server.InitialSquad(0))
    ensures Mirrors(Client.InitialState(board, false).agents, Server.InitialSquad(1))
  {
  }

  /** One entry: the client's action and its decoded server action move mirrored agents alike. */
  lemma MoveAgrees(agent: Client.Agent, serverAgent: Server.Agent, m: Client.Move, n: Server.AgentMove)
    requires agent.direction == serverAgent.direction && agent.position == Server.CellOf(serverAgent.position)
    requires DecodeMove(m) == Some(n)
    ensures Client.PlayMove(agent, m).direction == Server.ApplyMove(serverAgent, n).direction
    ensures Client.PlayMove(agent, m).position == Server.CellOf(Server.ApplyMove(serverAgent, n).position)
  {
    RotationTablesAgree(agent.direction);
  }

  /** Playing a batch on the client gives the squad the server gets by applying the decoded batch. */
  lemma ApplicationAgrees(roster: seq<Client.Agent>, squad: seq<Server.Agent>,
                          selection: seq<Client.Move>, moves: seq<Server.AgentMove>)
    requires Mirrors(roster, squad) && |selection| == |roster|
    requires DecodeBatch(selection) == Some(moves)
    ensures Mirrors(Client.PlayMoves(roster, selection), Server.Applied(squad, moves))
  {
    var c, s := Client.PlayMoves(roster, selection), Server.Applied(squad, moves);
    forall k | 0 <= k < |squad|
      ensures c[k].direction == s[k].direction && c[k].position == Server.CellOf(s[k].position)
    {
      assert c[k] == Client.PlayMove(roster[k], selection[k]);
      assert s[k] == Server.ApplyMove(squad[k], moves[k]);
      MoveAgrees(roster[k], squad[k], selection[k], moves[k]);
    }
  }

  /**
   * A batch composed through clicks on board squares and the buttons, sent
   * while the client's roster mirrors the server's squad on the same board,
   * decodes and passes the server's validation.
   */
  lemma ComposedBatchIsAccepted(s: Client.GameState, squad: seq<Server.Agent>)
    requires Client.Consistent(s) && Client.PendingLegal(s) && s.moveSelection.Some?
    requires Mirrors(s.agents, squad)
    ensures DecodeBatch(s.moveSelection.value).Some?
    ensures Server.BatchValid(s.board, squad, DecodeBatch(s.moveSelection.value).value)
  {
    var selection := s.moveSelection.value;
    forall k | 0 <= k < |selection|
      ensures DecodeMove(selection[k]).Some?
    {
      if selection[k].MoveTo? {
        assert Client.LegalTarget(s.board, s.agents[k], selection[k].target);
      }
    }
    var moves := DecodeBatch(selection).value;
    forall i | 0 <= i < |moves| && moves[i].Move?
      ensures Server.MoveAccepted(s.board, squad[i], moves[i].to)
    {
      assert DecodeMove(selection[i]) == Some(moves[i]);
      assert Client.LegalTarget(s.board, s.agents[i], selection[i].target);
    }
    forall i, j | 0 <= i < j < |moves| && moves[i].Move? && moves[j].Move?
      ensures moves[i].to != moves[j].to
    {
      assert DecodeMove(selection[i]) == Some(moves[i]);
      assert DecodeMove(selection[j]) == Some(moves[j]);
    }
  }

  /**
   * A round keeps the two views in step, provided the batch the server
   * applied is the client's pending batch as it stands when the round result
   * arrives. The composing client plays that batch and ends with the squad
   * the server made from its decoding; the waiting client keeps its roster,
   * as the server keeps that player's squad.
   */
  lemma RoundKeepsRostersInSync(s: Client.GameState, squad: seq<Server.Agent>, payload: seq<Client.Cell>)
    requires Client.Consistent(s) && Mirrors(s.agents, squad)
    requires s.moveSelection.Some? ==> DecodeBatch(s.moveSelection.value).Some?
    ensures s.moveSelection.Some? ==>
      Mirrors(Client.OnMovePlayed(Some(s), payload).value.agents,
              Server.Applied(squad, DecodeBatch(s.moveSelection.value).value))
    ensures s.moveSelection.None? ==> Mirrors(Client.OnMovePlayed(Some(s), payload).value.agents, squad)
  {
    if s.moveSelection.Some? {
      ApplicationAgrees(s.agents, squad, s.moveSelection.value, DecodeBatch(s.moveSelection.value).value);
    }
  }
}
