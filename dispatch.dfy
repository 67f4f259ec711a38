/** Routing of requests from players to their handlers, the dispatcher's own
    start-of-movement handler, and the chat request. */
module Dispatch {
  import opened Models
  import opened Board
  import opened Broadcast
  import opened Bombs
  import M = Movement

  /** Where a request goes: nowhere, or to one handler with what it extracted. */
  datatype Handler =
    | Ignore
    | MoveStart(player: int, direction: string)
    | MoveEnd(player: int)
    | PlantBomb
    | ChatMessage(player: int)

  /** The request type, when the map holds a string under "msgType". */
  function MsgType(msg: map<string, Value>): (r: Option<string>)
    ensures r.Some? <==> "msgType" in msg && msg["msgType"].VStr?
    ensures r.Some? ==> msg["msgType"] == VStr(r.value)
  {
    if "msgType" in msg && msg["msgType"].VStr? then Some(msg["msgType"].s) else None
  }

  /** The routing table: a request needs an int sender and a string type;
      "MS" also needs a string direction; "MS", "ME", "b" and "c" have
      handlers, and "p" and every other type have none. */
  function Route(msg: map<string, Value>): (h: Handler)
    ensures FromPlayer(msg).None? || MsgType(msg).None? ==> h == Ignore
    ensures h.MoveStart? <==>
      && FromPlayer(msg).Some? && MsgType(msg) == Some("MS")
      && "d" in msg && msg["d"].VStr?
    ensures h.MoveStart? ==> h.player == FromPlayer(msg).value && msg["d"] == VStr(h.direction)
    ensures h.MoveEnd? <==> FromPlayer(msg).Some? && MsgType(msg) == Some("ME")
    ensures h.MoveEnd? ==> h.player == FromPlayer(msg).value
    ensures h == PlantBomb <==> FromPlayer(msg).Some? && MsgType(msg) == Some("b")
    ensures h.ChatMessage? <==> FromPlayer(msg).Some? && MsgType(msg) == Some("c")
    ensures h.ChatMessage? ==> h.player == FromPlayer(msg).value
  {
    match (FromPlayer(msg), MsgType(msg))
    case (Some(i), Some(t)) =>
      if t == "MS" then
        (if "d" in msg && msg["d"].VStr? then MoveStart(i, msg["d"].s) else Ignore)
      else if t == "ME" then MoveEnd(i)
      else if t == "b" then PlantBomb
      else if t == "c" then ChatMessage(i)
      else Ignore
    case _ => Ignore
  }

  /** The powerup type "p" and unknown types route nowhere, as does a move
      start without a direction. */
  lemma RouteIgnores(msg: map<string, Value>)
    ensures MsgType(msg) == Some("p") ==> Route(msg) == Ignore
    ensures MsgType(msg).Some? && MsgType(msg).value !in {"MS", "ME", "b", "c"} ==> Route(msg) == Ignore
    ensures MsgType(msg) == Some("MS") && !("d" in msg && msg["d"].VStr?) ==> Route(msg) == Ignore
  {
  }

  /** The request's sender index that the handler will use as a player
      index: the handlers index the players without a check. */
  predicate IndexedSenderOk(msg: map<string, Value>, numberOfPlayers: int) {
    match Route(msg)
    case MoveStart(i, _) => 0 <= i < numberOfPlayers
    case MoveEnd(i) => 0 <= i < numberOfPlayers
    case ChatMessage(i) => "content" in msg && msg["content"].VStr? ==> 0 <= i < numberOfPlayers
    case _ => true
  }

  // ---------------------------------------------------------------------
  // The dispatcher's start handler
  // ---------------------------------------------------------------------

  /** Probes that refuse a start here, by their codes: fire, a bomb, a
      destructible block or a wall. */
  predicate RefusesStart(p: M.Probe) {
    p.Code() in {"Ex", "B", "D", "W"}
  }

  /** Unlike the movement file's handler, this one refuses on fire and lets
      a player start while overlapping another player. */
  lemma RefusalDiffers(p: M.Probe)
    ensures RefusesStart(p) <==> (M.Blocks(p) && p != M.OnPlayer) || p == M.OnCell(Fire)
    ensures RefusesStart(M.OnCell(Fire)) && !M.Blocks(M.OnCell(Fire))
    ensures M.Blocks(M.OnPlayer) && !RefusesStart(M.OnPlayer)
  {
    if p.OnCell? {
      match p.cell
      case Empty =>
      case Wall =>
      case Destructible =>
      case Fire =>
      case BombMark =>
    }
  }

  /** This handler refuses exactly when some corner cell under the box is
      not empty, or else a bomb blocks it; so, unlike the movement file's
      handler, its answer does not depend on the order the probe visits the
      corners in. */
  lemma RefusalIgnoresOrder(panel: array2<Cell>, bombs: seq<Bomb>, players: seq<Player>, i: int, x: int, y: int,
                            o1: M.CornerOrder, o2: M.CornerOrder)
    requires M.IsGrid(panel) && 0 <= x && 0 <= y
    ensures RefusesStart(M.ProbeAt(panel, bombs, players, i, x, y, o1)) <==>
      !M.CornersEmpty(panel, x, y) || M.AnyBombBlocks(bombs, i, x, y)
    ensures RefusesStart(M.ProbeAt(panel, bombs, players, i, x, y, o1)) ==
      RefusesStart(M.ProbeAt(panel, bombs, players, i, x, y, o2))
  {
    M.ProbeAtMeaning(panel, bombs, players, i, x, y, o1);
    M.ProbeAtMeaning(panel, bombs, players, i, x, y, o2);
    var r1 := M.ProbeAt(panel, bombs, players, i, x, y, o1);
    var r2 := M.ProbeAt(panel, bombs, players, i, x, y, o2);
    if r1.OnCell? {
      RefusalDiffers(r1);
    }
    if r2.OnCell? {
      RefusalDiffers(r2);
    }
  }

  /** The effect of this start handler for player i, its probe visiting the
      corners in the order `o`. */
  twostate predicate Started(g: GameBoard, i: int, direction: string, o: M.CornerOrder, eaten: seq<Powerup>)
    requires M.IsGrid(g.panel) && 0 <= i < |old(g.players)|
    requires old(g.players[i].xLocation) >= 0 && old(g.players[i].yLocation) >= 0
    reads g, g.panel
  {
    var p := old(g.players[i]);
    && (p.isDead ==>
          && g.players == old(g.players) && g.powerups == old(g.powerups)
          && g.broadcast == old(g.broadcast) && g.nextChanId == old(g.nextChanId) && eaten == [])
    && (!p.isDead ==>
          var probe := M.ProbeAt(g.panel, g.bombs, old(g.players), i, p.xLocation, p.yLocation, o);
          && multiset(g.powerups) + multiset(eaten) == multiset(old(g.powerups))
          && (RefusesStart(probe) ==>
                g.players == old(g.players)[i := M.Grown(p, eaten)] && g.nextChanId == old(g.nextChanId))
          && (!RefusesStart(probe) ==>
                && g.players == old(g.players)[i := M.Grown(p, eaten).(
                     isMoving := true, directionFace := direction,
                     stopMoveChan := if p.stopMoveChan.NilChan? then Chan(old(g.nextChanId)) else p.stopMoveChan)]
                && g.nextChanId == old(g.nextChanId) + (if p.stopMoveChan.NilChan? then 1 else 0)))
  }

  /** Starts continuous movement unless the player is dead or the probe at
      its current box reports fire, a bomb, a block or a wall; a stop
      channel is allocated only when none is held. Neither the game's
      started flag nor the hurt flag is consulted. */
  method HandleMoveStartMessage(g: GameBoard, i: int, direction: string, o: M.CornerOrder)
      returns (ghost eaten: seq<Powerup>)
    requires g.Valid() && 0 <= i < |g.players|
    modifies g`players, g`powerups, g`broadcast, g`nextChanId
    ensures g.Valid()
    ensures Started(g, i, direction, o, eaten)
  {
    eaten := [];
    var player := g.players[i];
    if player.isDead {
      return;
    }
    var collision;
    collision, eaten := M.FindCollision(g, i, o);
    M.AteIsUpdate(old(g.players), g.players, i, eaten);
    M.GrownKeepsShape(old(g.players), g.bombs, g.pendingRespawns, old(g.powerups), g.powerups, eaten,
                      g.nextChanId, g.closedChans, i);
    M.GrownStats(player, eaten);
    ReplaceKeepsAccounted(old(g.players), g.bombs, i, M.Grown(player, eaten));
    if RefusesStart(collision) {
      return;
    }
    M.BeginMoving(g, i, direction);
    ReplaceKeepsAccounted(old(g.players), g.bombs, i, g.players[i]);
  }

  // ---------------------------------------------------------------------
  // Chat and the dispatcher
  // ---------------------------------------------------------------------

  /** A chat request with an int sender and string content is broadcast as
      a "CM" message carrying the sender's name and colour and the clock
      reading `now`; any other leaves the board as it was. */
  method HandleChatMessage(g: GameBoard, msg: map<string, Value>, now: int)
    requires FromPlayer(msg).Some? && "content" in msg && msg["content"].VStr? ==>
      0 <= FromPlayer(msg).value < |g.players|
    modifies g`broadcast
    ensures FromPlayer(msg).None? || !("content" in msg && msg["content"].VStr?) ==> g.broadcast == old(g.broadcast)
    ensures FromPlayer(msg).Some? && "content" in msg && msg["content"].VStr? ==>
      var i := FromPlayer(msg).value;
      g.broadcast == Enqueue(old(g.broadcast), g.broadcastCapacity,
                             Struct(ChatSent(g.players[i].name, msg["content"].s, now, i, g.players[i].color)))
  {
    if !("fromPlayer" in msg && msg["fromPlayer"].VInt?) {
      return;
    }
    var playerIndex := msg["fromPlayer"].i;
    if !("content" in msg && msg["content"].VStr?) {
      return;
    }
    var content := msg["content"].s;
    var p := g.players[playerIndex];
    SendMsgToChannel(g, Struct(ChatSent(p.name, content, now, playerIndex, p.color)));
  }

  /** Routes one request. A payload that is not a map, and a map routed
      nowhere, change nothing; otherwise exactly the routed handler runs,
      with what the routing extracted. A move start probes in the order `o`. */
  method ChooseHandlerForMessages(g: GameBoard, msg: Payload, now: int, o: M.CornerOrder)
      returns (ghost route: Handler, ghost eaten: seq<Powerup>)
    requires g.Valid()
    requires msg.Dict? ==> IndexedSenderOk(msg.m.entries, |g.players|)
    modifies g`players, g`bombs, g`broadcast, g`powerups, g`nextChanId, g`closedChans
    ensures g.Valid()
    ensures route == if msg.Dict? then Route(msg.m.entries) else Ignore
    ensures route == Ignore ==> unchanged(g)
    ensures route.MoveStart? ==>
      0 <= route.player < |old(g.players)| && Started(g, route.player, route.direction, o, eaten)
      && g.bombs == old(g.bombs) && g.closedChans == old(g.closedChans)
    ensures route.MoveEnd? ==>
      0 <= route.player < |old(g.players)| && M.MoveEnded(g, route.player)
      && g.bombs == old(g.bombs) && g.broadcast == old(g.broadcast)
      && g.powerups == old(g.powerups) && g.nextChanId == old(g.nextChanId)
    ensures route == PlantBomb ==>
      BombHandled(g, msg.m.entries, now)
      && g.powerups == old(g.powerups) && g.nextChanId == old(g.nextChanId) && g.closedChans == old(g.closedChans)
    ensures route.ChatMessage? ==>
      (("content" in msg.m.entries && msg.m.entries["content"].VStr?) ==>
         0 <= route.player < |g.players| &&
         g.broadcast == Enqueue(old(g.broadcast), g.broadcastCapacity,
                                Struct(ChatSent(g.players[route.player].name, msg.m.entries["content"].s, now,
                                                route.player, g.players[route.player].color))))
      && (!("content" in msg.m.entries && msg.m.entries["content"].VStr?) ==> g.broadcast == old(g.broadcast))
      && g.players == old(g.players) && g.bombs == old(g.bombs)
      && g.powerups == old(g.powerups) && g.nextChanId == old(g.nextChanId) && g.closedChans == old(g.closedChans)
  {
    route, eaten := Ignore, [];
    if !msg.Dict? {
      return;
    }
    var msgMap := msg.m.entries;
    if !("fromPlayer" in msgMap && msgMap["fromPlayer"].VInt?) {
      return;
    }
    var playerIndex := msgMap["fromPlayer"].i;
    if !("msgType" in msgMap && msgMap["msgType"].VStr?) {
      return;
    }
    var msgType := msgMap["msgType"].s;
    route := Route(msgMap);
    if msgType == "MS" {
      if !("d" in msgMap && msgMap["d"].VStr?) {
        return;
      }
      var direction := msgMap["d"].s;
      eaten := HandleMoveStartMessage(g, playerIndex, direction, o);
    } else if msgType == "ME" {
      M.HandleMoveEndMessage(g, playerIndex);
      ReplaceKeepsAccounted(old(g.players), g.bombs, playerIndex, g.players[playerIndex]);
    } else if msgType == "b" {
      HandleBombMessage(g, msgMap, now);
    } else if msgType == "c" {
      HandleChatMessage(g, msgMap, now);
    }
  }
}
