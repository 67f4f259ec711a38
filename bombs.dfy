/** Bomb placement and the explosion engine: the four-direction blast walk,
    chain reactions, fire marking and clearing, damage, death and the
    respawn queue. Every reading of the clock is a parameter: `now` is the
    sweep's reading, `at` the later readings taken inside a detonation. */
module Bombs {
  import opened Models
  import opened Board
  import opened Broadcast
  import opened Powerups
  import opened Movement

  // ---------------------------------------------------------------------
  // Placing a bomb
  // ---------------------------------------------------------------------

  /** A player may place a bomb while it has fewer live bombs than its
      allowance; an index naming no player is refused. */
  predicate CanCreateBomb(players: seq<Player>, i: int)
    ensures CanCreateBomb(players, i) ==> 0 <= i < |players|
  {
    0 <= i < |players| && players[i].numberOfUsedBombs < players[i].numberOfBombs
  }

  /** On an accounted board the used-bomb counter is the number of the
      player's bombs on the board, so the guard admits a placement exactly
      while fewer of its bombs are live than its allowance. */
  lemma CanCreateBombCountsLive(players: seq<Player>, bombs: seq<Bomb>, i: int)
    requires AccountedOf(players, bombs)
    ensures CanCreateBomb(players, i) <==> 0 <= i < |players| && UsedBy(bombs, i) < players[i].numberOfBombs
  {
    if 0 <= i < |players| {
      assert players[i].numberOfUsedBombs == UsedBy(bombs, i);
    }
  }

  /** The bomb a player drops at its current cell, drawn at the cell's corner,
      timed to go off a bomb delay after `now`. */
  function NewBomb(p: Player, i: int, now: int): (b: Bomb)
    ensures b.row == p.row && b.column == p.column && b.ownPlayerIndex == i
    ensures b.xLocation == p.column * CellSize && b.yLocation == p.row * CellSize
    ensures b.explosionTime == now + p.bombDelay && b.initialIntersection
  {
    Bomb(p.row, p.column, p.column * CellSize, p.row * CellSize, now + p.bombDelay, i, true)
  }

  /** Places a bomb for player `i`: -1 and no change when the index is out of
      range or the allowance is used up; otherwise one more used bomb and one
      new bomb at the end of the list, whose index is returned. */
  method CreateBomb(g: GameBoard, i: int, now: int) returns (index: int)
    requires g.Valid()
    modifies g`players, g`bombs
    ensures g.Valid()
    ensures !CanCreateBomb(old(g.players), i) ==>
      index == -1 && g.players == old(g.players) && g.bombs == old(g.bombs)
    ensures CanCreateBomb(old(g.players), i) ==>
      && g.players == old(g.players)[i := old(g.players[i]).(numberOfUsedBombs := old(g.players[i].numberOfUsedBombs) + 1)]
      && g.bombs == old(g.bombs) + [NewBomb(old(g.players[i]), i, now)]
      && index == |g.bombs| - 1
  {
    if i < 0 || i >= |g.players| {
      return -1;
    }
    if !(g.players[i].numberOfUsedBombs < g.players[i].numberOfBombs) {
      return -1;
    }
    var player := g.players[i];
    ghost var ps, bs := g.players, g.bombs;
    g.players := g.players[i := player.(numberOfUsedBombs := player.numberOfUsedBombs + 1)];
    var bomb := Bomb(player.row, player.column, player.column * CellSize, player.row * CellSize,
                     now + player.bombDelay, i, true);
    g.bombs := g.bombs + [bomb];
    index := |g.bombs| - 1;
    forall p | 0 <= p < |g.players| ensures g.players[p].numberOfUsedBombs == UsedBy(g.bombs, p) {
      UsedByAppend(bs, [bomb], p);
      assert UsedBy([bomb], p) == (if p == i then 1 else 0) by {
        assert [bomb][..0] == [];
      }
    }
    assert PlayerInBounds(ps[i]);
  }

  /** The "fromPlayer" entry of a message map, when it holds an int. */
  function FromPlayer(msg: map<string, Value>): (r: Option<int>)
    ensures r.Some? <==> "fromPlayer" in msg && msg["fromPlayer"].VInt?
    ensures r.Some? ==> msg["fromPlayer"] == VInt(r.value)
  {
    if "fromPlayer" in msg && msg["fromPlayer"].VInt? then Some(msg["fromPlayer"].i) else None
  }

  /** The effect of a bomb request. */
  twostate predicate BombHandled(g: GameBoard, msg: map<string, Value>, now: int)
    reads g
  {
    && (FromPlayer(msg).None? || !CanCreateBomb(old(g.players), FromPlayer(msg).value) ==>
          g.players == old(g.players) && g.bombs == old(g.bombs) && g.broadcast == old(g.broadcast))
    && (FromPlayer(msg).Some? && CanCreateBomb(old(g.players), FromPlayer(msg).value) ==>
          var i := FromPlayer(msg).value;
          var b := NewBomb(old(g.players[i]), i, now);
          && g.players == old(g.players)[i := old(g.players[i]).(numberOfUsedBombs := old(g.players[i].numberOfUsedBombs) + 1)]
          && g.bombs == old(g.bombs) + [b]
          && g.broadcast == Enqueue(old(g.broadcast), g.broadcastCapacity,
                                    Struct(BombAccepted(b.row, b.column, b.xLocation, b.yLocation, i))))
  }

  /** A bomb request: places the bomb and announces it ("BA") with the new
      bomb's cell and pixels; a message without an int sender, or a refused
      placement, changes nothing and sends nothing. */
  method HandleBombMessage(g: GameBoard, msg: map<string, Value>, now: int)
    requires g.Valid()
    modifies g`players, g`bombs, g`broadcast
    ensures g.Valid()
    ensures BombHandled(g, msg, now)
  {
    if !("fromPlayer" in msg && msg["fromPlayer"].VInt?) {
      return;
    }
    var playerIndex := msg["fromPlayer"].i;
    var bombIndex := CreateBomb(g, playerIndex, now);
    if bombIndex == -1 {
      return;
    }
    var b := g.bombs[bombIndex];
    SendMsgToChannel(g, Struct(BombAccepted(b.row, b.column, b.xLocation, b.yLocation, playerIndex)));
  }

  // ---------------------------------------------------------------------
  // Respawn and death
  // ---------------------------------------------------------------------

  /** A player put back on its start cell, drawn at the cell's corner. */
  function Respawned(p: Player): Player {
    p.(row := p.initialRow, column := p.initialColumn,
       xLocation := p.initialColumn * CellSize, yLocation := p.initialRow * CellSize)
  }

  /** Respawning lands exactly on the start cell, stays in bounds, changes
      nothing but the position, and a second respawn changes nothing. */
  lemma RespawnedSpec(p: Player)
    requires PlayerInBounds(p)
    ensures PlayerInBounds(Respawned(p))
    ensures Respawned(p).row == p.initialRow && Respawned(p).column == p.initialColumn
    ensures Respawned(p).xLocation == p.initialColumn * CellSize && Respawned(p).yLocation == p.initialRow * CellSize
    ensures Respawned(p).(row := p.row, column := p.column, xLocation := p.xLocation, yLocation := p.yLocation) == p
    ensures Respawned(Respawned(p)) == Respawned(p)
  {
  }

  method RespawnPlayer(g: GameBoard, i: int)
    requires 0 <= i < |g.players|
    modifies g`players
    ensures g.players == old(g.players)[i := Respawned(old(g.players[i]))]
  {
    var player := g.players[i];
    player := player.(row := player.initialRow, column := player.initialColumn);
    player := player.(xLocation := player.column * CellSize, yLocation := player.row * CellSize);
    g.players := g.players[i := player];
  }

  /** Marks player `i` dead, takes one off the living count and announces
      the dead player's record ("PD"). */
  method PlayerDeath(g: GameBoard, i: int)
    requires 0 <= i < |g.players|
    modifies g`players, g`numberOfPlayers, g`broadcast
    ensures g.numberOfPlayers == old(g.numberOfPlayers) - 1
    ensures g.players == old(g.players)[i := old(g.players[i]).(isDead := true)]
    ensures g.broadcast == Enqueue(old(g.broadcast), g.broadcastCapacity, Struct(PlayerDied(g.players[i])))
  {
    g.numberOfPlayers := g.numberOfPlayers - 1;
    g.players := g.players[i := g.players[i].(isDead := true)];
    SendMsgToChannel(g, Struct(PlayerDied(g.players[i])));
  }

  // ---------------------------------------------------------------------
  // The respawn sweep
  // ---------------------------------------------------------------------

  /** A queued respawn is due once `now` is strictly after its time. */
  predicate RespawnDue(r: PlayerRespawn, now: int) {
    now > r.respawnTime
  }

  /** The queue entries not yet due, in order. */
  function PendingAfter(rs: seq<PlayerRespawn>, now: int): seq<PlayerRespawn>
    decreases |rs|
  {
    if rs == [] then []
    else PendingAfter(rs[..|rs| - 1], now) + (if RespawnDue(rs[|rs| - 1], now) then [] else [rs[|rs| - 1]])
  }

  /** The kept entries are exactly the entries not due, in their original
      order: a subsequence of the queue. */
  lemma {:induction false} PendingAfterSpec(rs: seq<PlayerRespawn>, now: int)
    ensures forall r :: r in PendingAfter(rs, now) <==> r in rs && !RespawnDue(r, now)
    ensures |PendingAfter(rs, now)| <= |rs|
    ensures multiset(PendingAfter(rs, now)) <= multiset(rs)
    decreases |rs|
  {
    if rs != [] {
      var init := rs[..|rs| - 1];
      PendingAfterSpec(init, now);
      assert rs == init + [rs[|rs| - 1]];
    }
  }

  /** Whether some due entry of the queue names player `j`. */
  ghost predicate RespawnsPlayer(rs: seq<PlayerRespawn>, now: int, j: int) {
    exists k :: 0 <= k < |rs| && RespawnDue(rs[k], now) && rs[k].playerIndex == j
  }

  /** The "PR" notices of the due entries, in queue order, each with the
      respawned player's pixels. */
  function RespawnNotices(players: seq<Player>, rs: seq<PlayerRespawn>, now: int): seq<Payload>
    requires forall k :: 0 <= k < |rs| ==> 0 <= rs[k].playerIndex < |players|
    decreases |rs|
  {
    if rs == [] then []
    else
      var r := rs[|rs| - 1];
      var p := Respawned(players[r.playerIndex]);
      RespawnNotices(players, rs[..|rs| - 1], now)
        + (if RespawnDue(r, now) then [Struct(PlayerRespawned(r.playerIndex, p.xLocation, p.yLocation))] else [])
  }

  /** The players after respawning the due entries of `rs`, in order. */
  function RespawnAll(players: seq<Player>, rs: seq<PlayerRespawn>, now: int): seq<Player>
    requires forall k :: 0 <= k < |rs| ==> 0 <= rs[k].playerIndex < |players|
    decreases |rs|
  {
    if rs == [] then players
    else
      var ps := RespawnAll(players, rs[..|rs| - 1], now);
      var r := rs[|rs| - 1];
      if RespawnDue(r, now) && r.playerIndex < |ps| then ps[r.playerIndex := Respawned(ps[r.playerIndex])] else ps
  }

  /** Each player ends on its start cell exactly when a due entry names it,
      and is otherwise untouched; the order of the entries does not matter. */
  lemma {:induction false} RespawnAllSpec(players: seq<Player>, rs: seq<PlayerRespawn>, now: int)
    requires forall k :: 0 <= k < |rs| ==> 0 <= rs[k].playerIndex < |players|
    ensures |RespawnAll(players, rs, now)| == |players|
    ensures forall j :: 0 <= j < |players| ==>
      RespawnAll(players, rs, now)[j] == if RespawnsPlayer(rs, now, j) then Respawned(players[j]) else players[j]
    decreases |rs|
  {
    if rs != [] {
      var init := rs[..|rs| - 1];
      RespawnAllSpec(players, init, now);
      RespawnsStep(rs, now, |rs| - 1);
      assert rs[..|rs|] == rs;
    }
  }

  /** One entry more of the sweep, as the loop sees it. */
  lemma RespawnPrefix(players: seq<Player>, rs: seq<PlayerRespawn>, now: int, k: int)
    requires forall m :: 0 <= m < |rs| ==> 0 <= rs[m].playerIndex < |players|
    requires 0 <= k < |rs|
    ensures PendingAfter(rs[..k + 1], now) == PendingAfter(rs[..k], now) + (if RespawnDue(rs[k], now) then [] else [rs[k]])
    ensures var ps := RespawnAll(players, rs[..k], now);
      && |ps| == |players|
      && RespawnAll(players, rs[..k + 1], now) ==
           (if RespawnDue(rs[k], now) then ps[rs[k].playerIndex := Respawned(ps[rs[k].playerIndex])] else ps)
      && Respawned(ps[rs[k].playerIndex]).xLocation == Respawned(players[rs[k].playerIndex]).xLocation
      && Respawned(ps[rs[k].playerIndex]).yLocation == Respawned(players[rs[k].playerIndex]).yLocation
    ensures RespawnNotices(players, rs[..k + 1], now) == RespawnNotices(players, rs[..k], now) +
      if RespawnDue(rs[k], now)
      then [Struct(PlayerRespawned(rs[k].playerIndex, Respawned(players[rs[k].playerIndex]).xLocation,
                                   Respawned(players[rs[k].playerIndex]).yLocation))]
      else []
  {
    assert rs[..k + 1][..k] == rs[..k];
    RespawnAllSpec(players, rs[..k], now);
  }

  /** One sweep of the respawn queue: every due entry puts its player back on
      its start cell and is dropped with a "PR" notice; the rest stay queued
      in order. A player named twice is respawned twice to the same place. */
  method ProcessRespawns(g: GameBoard, now: int)
    requires g.Valid()
    modifies g`players, g`pendingRespawns, g`broadcast
    ensures g.Valid()
    ensures g.pendingRespawns == PendingAfter(old(g.pendingRespawns), now)
    ensures g.players == RespawnAll(old(g.players), old(g.pendingRespawns), now)
    ensures g.broadcast == EnqueueAll(old(g.broadcast), g.broadcastCapacity,
                                      RespawnNotices(old(g.players), old(g.pendingRespawns), now))
  {
    var remaining := RespawnDueEntries(g, now);
    g.pendingRespawns := remaining;
    SweepKeepsValid(old(g.players), g.bombs, old(g.pendingRespawns), g.powerups, g.nextChanId, g.closedChans, now);
  }

  /** The sweep keeps the board's shape and accounting. */
  lemma SweepKeepsValid(ps0: seq<Player>, bombs: seq<Bomb>, rs: seq<PlayerRespawn>, powerups: seq<Powerup>,
                        nextChanId: nat, closedChans: set<nat>, now: int)
    requires ShapeOf(ps0, bombs, rs, powerups, nextChanId, closedChans) && AccountedOf(ps0, bombs)
    ensures var ps := RespawnAll(ps0, rs, now);
      ShapeOf(ps, bombs, PendingAfter(rs, now), powerups, nextChanId, closedChans) && AccountedOf(ps, bombs)
  {
    PendingAfterSpec(rs, now);
    RespawnAllSpec(ps0, rs, now);
    RespawnKeepsValid(ps0, RespawnAll(ps0, rs, now), bombs, rs, PendingAfter(rs, now), powerups,
                      nextChanId, closedChans, now);
  }

  /** The sweep's loop: respawns and announces the due entries and collects
      the others. */
  method RespawnDueEntries(g: GameBoard, now: int) returns (remaining: seq<PlayerRespawn>)
    requires forall k :: 0 <= k < |g.pendingRespawns| ==> 0 <= g.pendingRespawns[k].playerIndex < |g.players|
    modifies g`players, g`broadcast
    ensures remaining == PendingAfter(g.pendingRespawns, now)
    ensures g.players == RespawnAll(old(g.players), g.pendingRespawns, now)
    ensures g.broadcast == EnqueueAll(old(g.broadcast), g.broadcastCapacity,
                                      RespawnNotices(old(g.players), g.pendingRespawns, now))
  {
    remaining := [];
    var rs := g.pendingRespawns;
    var k := 0;
    while k < |rs|
      invariant 0 <= k <= |rs|
      invariant remaining == PendingAfter(rs[..k], now)
      invariant g.players == RespawnAll(old(g.players), rs[..k], now)
      invariant g.broadcast == EnqueueAll(old(g.broadcast), g.broadcastCapacity, RespawnNotices(old(g.players), rs[..k], now))
    {
      var respawn := rs[k];
      RespawnPrefix(old(g.players), rs, now, k);
      ghost var notices := RespawnNotices(old(g.players), rs[..k], now);
      if now > respawn.respawnTime {
        RespawnPlayer(g, respawn.playerIndex);
        var player := g.players[respawn.playerIndex];
        var notice := Struct(PlayerRespawned(respawn.playerIndex, player.xLocation, player.yLocation));
        SendMsgToChannel(g, notice);
        EnqueueAllSnoc(old(g.broadcast), g.broadcastCapacity, notices, notice);
      } else {
        remaining := remaining + [respawn];
        assert notices + [] == notices;
      }
      k := k + 1;
    }
    assert rs[..k] == rs;
  }

  /** Extending the scanned prefix by one entry adds its player when it is due. */
  lemma RespawnsStep(rs: seq<PlayerRespawn>, now: int, k: int)
    requires 0 <= k < |rs|
    ensures forall j :: RespawnsPlayer(rs[..k + 1], now, j) <==>
      RespawnsPlayer(rs[..k], now, j) || (RespawnDue(rs[k], now) && rs[k].playerIndex == j)
  {
    assert forall m :: 0 <= m < k ==> rs[..k + 1][m] == rs[..k][m];
    forall j | RespawnsPlayer(rs[..k + 1], now, j)
      ensures RespawnsPlayer(rs[..k], now, j) || (RespawnDue(rs[k], now) && rs[k].playerIndex == j)
    {
      var m :| 0 <= m < k + 1 && RespawnDue(rs[..k + 1][m], now) && rs[..k + 1][m].playerIndex == j;
      if m < k {
        assert RespawnDue(rs[..k][m], now) && rs[..k][m].playerIndex == j;
      }
    }
    if RespawnDue(rs[k], now) {
      assert rs[..k + 1][k] == rs[k];
      assert RespawnsPlayer(rs[..k + 1], now, rs[k].playerIndex);
    }
  }

  /** Respawning players and shrinking the queue to a filter keeps the invariant. */
  lemma RespawnKeepsValid(ps0: seq<Player>, ps: seq<Player>, bombs: seq<Bomb>, rs: seq<PlayerRespawn>,
                          remaining: seq<PlayerRespawn>, powerups: seq<Powerup>, nextChanId: nat,
                          closedChans: set<nat>, now: int)
    requires ShapeOf(ps0, bombs, rs, powerups, nextChanId, closedChans) && AccountedOf(ps0, bombs)
    requires |ps| == |ps0|
    requires forall j :: 0 <= j < |ps| ==> ps[j] == if RespawnsPlayer(rs, now, j) then Respawned(ps0[j]) else ps0[j]
    requires forall r :: r in remaining ==> r in rs
    ensures ShapeOf(ps, bombs, remaining, powerups, nextChanId, closedChans) && AccountedOf(ps, bombs)
  {
    forall j | 0 <= j < |ps| ensures PlayerInBounds(ps[j]) {
      assert PlayerInBounds(ps0[j]);
      RespawnedSpec(ps0[j]);
    }
    forall k | 0 <= k < |remaining| ensures 0 <= remaining[k].playerIndex < |ps| {
      assert remaining[k] in rs;
    }
  }

  // ---------------------------------------------------------------------
  // The blast walk
  // ---------------------------------------------------------------------

  /** The cells one direction of a blast reaches, starting `d` cells from the
      bomb: it stops at the grid edge, at the range, before a wall, and just
      after the first destructible. */
  ghost function Ray(panel: array2<Cell>, row: int, column: int, dr: int, dc: int, range: int, d: int): seq<Position>
    reads panel
    requires IsGrid(panel) && d >= 1
    decreases if range >= d then range - d + 1 else 0
  {
    if d > range then []
    else
      var r, c := row + dr * d, column + dc * d;
      if !InGrid(r, c) || panel[r, c] == Wall then []
      else if panel[r, c] == Destructible then [Position(r, c, false)]
      else [Position(r, c, false)] + Ray(panel, row, column, dr, dc, range, d + 1)
  }

  /** All cells a bomb at (row, column) affects: its own cell first, then
      the upward, downward, leftward and rightward rays. */
  ghost function Blast(panel: array2<Cell>, row: int, column: int, range: int): seq<Position>
    reads panel
    requires IsGrid(panel)
  {
    [Position(row, column, false)]
      + Ray(panel, row, column, -1, 0, range, 1) + Ray(panel, row, column, 1, 0, range, 1)
      + Ray(panel, row, column, 0, -1, range, 1) + Ray(panel, row, column, 0, 1, range, 1)
  }

  /** A ray's k-th cell is d + k steps out, in the grid, within range and not
      a wall; every cell before the last is neither wall nor destructible; and
      a ray that ends short of the range without a destructible last cell
      ends because the next cell is off the grid or a wall. */
  lemma {:induction false} RaySpec(panel: array2<Cell>, row: int, column: int, dr: int, dc: int, range: int, d: int)
    requires IsGrid(panel) && d >= 1
    ensures var ray := Ray(panel, row, column, dr, dc, range, d);
      && (forall k :: 0 <= k < |ray| ==>
            && ray[k] == Position(row + dr * (d + k), column + dc * (d + k), false)
            && InGrid(ray[k].row, ray[k].col)
            && panel[ray[k].row, ray[k].col] != Wall
            && d + k <= range)
      && (forall k :: 0 <= k < |ray| - 1 ==> panel[ray[k].row, ray[k].col] != Destructible)
      && ((ray == [] || panel[ray[|ray| - 1].row, ray[|ray| - 1].col] != Destructible) && d + |ray| <= range ==>
            var r, c := row + dr * (d + |ray|), column + dc * (d + |ray|);
            !InGrid(r, c) || panel[r, c] == Wall)
  {
    RayCells(panel, row, column, dr, dc, range, d);
    RayStops(panel, row, column, dr, dc, range, d);
    var ray := Ray(panel, row, column, dr, dc, range, d);
    forall k | 0 <= k < |ray| - 1 ensures panel[ray[k].row, ray[k].col] != Destructible {
    }
  }

  /** The cell n steps from (row, column) in direction (dr, dc). */
  function RayAt(row: int, column: int, dr: int, dc: int, n: int): Position {
    Position(row + dr * n, column + dc * n, false)
  }

  /** Each ray cell lies d + k steps out, in the grid, within range and not a
      wall, and only the last may be destructible. */
  lemma RayCells(panel: array2<Cell>, row: int, column: int, dr: int, dc: int, range: int, d: int)
    requires IsGrid(panel) && d >= 1
    ensures var ray := Ray(panel, row, column, dr, dc, range, d);
      forall k :: 0 <= k < |ray| ==>
        && ray[k] == RayAt(row, column, dr, dc, d + k)
        && InGrid(ray[k].row, ray[k].col)
        && panel[ray[k].row, ray[k].col] != Wall
        && d + k <= range
        && (k < |ray| - 1 ==> panel[ray[k].row, ray[k].col] != Destructible)
  {
    var ray := Ray(panel, row, column, dr, dc, range, d);
    forall k | 0 <= k < |ray|
      ensures && ray[k] == RayAt(row, column, dr, dc, d + k)
              && InGrid(ray[k].row, ray[k].col)
              && panel[ray[k].row, ray[k].col] != Wall
              && d + k <= range
              && (k < |ray| - 1 ==> panel[ray[k].row, ray[k].col] != Destructible)
    {
      RayCell(panel, row, column, dr, dc, range, d, k);
    }
  }

  /** The k-th cell of a ray, by induction on k. */
  lemma {:induction false} RayCell(panel: array2<Cell>, row: int, column: int, dr: int, dc: int, range: int, d: int, k: int)
    requires IsGrid(panel) && d >= 1
    requires 0 <= k < |Ray(panel, row, column, dr, dc, range, d)|
    ensures var ray := Ray(panel, row, column, dr, dc, range, d);
      && ray[k] == RayAt(row, column, dr, dc, d + k)
      && InGrid(ray[k].row, ray[k].col)
      && panel[ray[k].row, ray[k].col] != Wall
      && d + k <= range
      && (k < |ray| - 1 ==> panel[ray[k].row, ray[k].col] != Destructible)
    decreases k
  {
    var ray := Ray(panel, row, column, dr, dc, range, d);
    var r, c := row + dr * d, column + dc * d;
    if k > 0 {
      assert InGrid(r, c) && panel[r, c] != Wall && panel[r, c] != Destructible;
      var rest := Ray(panel, row, column, dr, dc, range, d + 1);
      assert ray == [RayAt(row, column, dr, dc, d)] + rest;
      RayCell(panel, row, column, dr, dc, range, d + 1, k - 1);
      assert ray[k] == rest[k - 1];
      assert d + 1 + (k - 1) == d + k;
    }
  }

  /** Whether a ray is empty or ends on a cell of the grid that is not destructible. */
  ghost predicate EndsOpen(panel: array2<Cell>, ray: seq<Position>)
    reads panel
  {
    ray == [] ||
      var last := ray[|ray| - 1];
      0 <= last.row < panel.Length0 && 0 <= last.col < panel.Length1 && panel[last.row, last.col] != Destructible
  }

  /** A ray whose last cell is not destructible and that ends within range
      ends at the grid edge or at a wall. */
  lemma {:induction false} RayStops(panel: array2<Cell>, row: int, column: int, dr: int, dc: int, range: int, d: int)
    requires IsGrid(panel) && d >= 1
    ensures var ray := Ray(panel, row, column, dr, dc, range, d);
      EndsOpen(panel, ray) && d + |ray| <= range ==>
        var r, c := row + dr * (d + |ray|), column + dc * (d + |ray|);
        !InGrid(r, c) || panel[r, c] == Wall
    decreases if range >= d then range - d + 1 else 0
  {
    if d <= range {
      var r, c := row + dr * d, column + dc * d;
      if InGrid(r, c) && panel[r, c] != Wall && panel[r, c] != Destructible {
        RayStops(panel, row, column, dr, dc, range, d + 1);
        var rest := Ray(panel, row, column, dr, dc, range, d + 1);
        var ray := Ray(panel, row, column, dr, dc, range, d);
        assert ray == [Position(r, c, false)] + rest;
        var n := d + |ray|;
        assert n == d + 1 + |rest|;
        if rest != [] {
          assert ray[|ray| - 1] == rest[|rest| - 1];
        } else {
          assert ray[|ray| - 1] == Position(r, c, false);
        }
      }
    }
  }

  /** The shape of a blast: the bomb's cell first; every other cell in the
      bomb's row or column, one to `range` cells away, in the grid, never a wall. */
  lemma BlastShape(panel: array2<Cell>, row: int, column: int, range: int)
    requires IsGrid(panel)
    ensures var b := Blast(panel, row, column, range);
      && b[0] == Position(row, column, false)
      && forall k :: 1 <= k < |b| ==>
           && InGrid(b[k].row, b[k].col) && panel[b[k].row, b[k].col] != Wall
           && ((b[k].row == row && 1 <= Dist(b[k].col, column) <= range)
               || (b[k].col == column && 1 <= Dist(b[k].row, row) <= range))
  {
    var up, down := Ray(panel, row, column, -1, 0, range, 1), Ray(panel, row, column, 1, 0, range, 1);
    var left, right := Ray(panel, row, column, 0, -1, range, 1), Ray(panel, row, column, 0, 1, range, 1);
    RaySpec(panel, row, column, -1, 0, range, 1);
    RaySpec(panel, row, column, 1, 0, range, 1);
    RaySpec(panel, row, column, 0, -1, range, 1);
    RaySpec(panel, row, column, 0, 1, range, 1);
    var b := Blast(panel, row, column, range);
    forall k | 1 <= k < |b|
      ensures InGrid(b[k].row, b[k].col) && panel[b[k].row, b[k].col] != Wall
      ensures (b[k].row == row && 1 <= Dist(b[k].col, column) <= range)
              || (b[k].col == column && 1 <= Dist(b[k].row, row) <= range)
    {
      var m := k - 1;
      if m < |up| {
        assert b[k] == up[m];
      } else if m < |up| + |down| {
        assert b[k] == down[m - |up|];
      } else if m < |up| + |down| + |left| {
        assert b[k] == left[m - |up| - |down|];
      } else {
        assert b[k] == right[m - |up| - |down| - |left|];
      }
    }
  }

  function Dist(a: int, b: int): nat {
    if a >= b then a - b else b - a
  }

  /** One direction of the blast walk: from one cell past the bomb outwards
      while in the grid and in range; a wall stops it before, a destructible
      just after, its cell. */
  method WalkRay(g: GameBoard, row: int, column: int, dr: int, dc: int, range: int) returns (ray: seq<Position>)
    requires IsGrid(g.panel)
    ensures ray == Ray(g.panel, row, column, dr, dc, range, 1)
  {
    ray := [];
    var d := 1;
    var r, c := row + dr, column + dc;
    while 0 <= r < NumberOfRows && 0 <= c < NumberOfColumns && d <= range
      invariant d >= 1 && r == row + dr * d && c == column + dc * d
      invariant ray + Ray(g.panel, row, column, dr, dc, range, d) == Ray(g.panel, row, column, dr, dc, range, 1)
      decreases range - d
    {
      RayUnfolds(g.panel, row, column, dr, dc, range, d);
      if g.panel[r, c] == Wall {
        assert ray + [] == ray;
        break;
      }
      ray := ray + [Position(r, c, false)];
      if g.panel[r, c] == Destructible {
        break;
      }
      NextStep(row, dr, d);
      NextStep(column, dc, d);
      d, r, c := d + 1, r + dr, c + dc;
    }
    RayUnfolds(g.panel, row, column, dr, dc, range, d);
  }

  /** One unfolding of a ray at distance d. */
  lemma RayUnfolds(panel: array2<Cell>, row: int, column: int, dr: int, dc: int, range: int, d: int)
    requires IsGrid(panel) && d >= 1
    ensures var r, c := row + dr * d, column + dc * d;
      Ray(panel, row, column, dr, dc, range, d) ==
        if d > range || !InGrid(r, c) || panel[r, c] == Wall then []
        else if panel[r, c] == Destructible then [Position(r, c, false)]
        else [Position(r, c, false)] + Ray(panel, row, column, dr, dc, range, d + 1)
  {
  }

  /** A step further out adds one more step. */
  lemma NextStep(base: int, step: int, d: int)
    ensures base + step * d + step == base + step * (d + 1)
  {
  }

  /** The cells a bomb at (bombRow, bombCol) with the given range affects;
      reads the panel and changes nothing. */
  method CalculateBombRange(g: GameBoard, bombRow: int, bombCol: int, bombRange: int) returns (affected: seq<Position>)
    requires IsGrid(g.panel)
    ensures affected == Blast(g.panel, bombRow, bombCol, bombRange)
  {
    affected := [Position(bombRow, bombCol, false)];
    var up := WalkRay(g, bombRow, bombCol, -1, 0, bombRange);
    affected := affected + up;
    var down := WalkRay(g, bombRow, bombCol, 1, 0, bombRange);
    affected := affected + down;
    var left := WalkRay(g, bombRow, bombCol, 0, -1, bombRange);
    affected := affected + left;
    var right := WalkRay(g, bombRow, bombCol, 0, 1, bombRange);
    affected := affected + right;
  }

  // ---------------------------------------------------------------------
  // The fire-clear sweep
  // ---------------------------------------------------------------------

  /** A fire entry is due once `now` is strictly after its clear time. */
  predicate Expired(e: ExplodedCellInfo, now: int) {
    now > e.clearTime
  }

  /** The entries not yet due, in order. */
  function Unexpired(cells: seq<ExplodedCellInfo>, now: int): seq<ExplodedCellInfo>
    decreases |cells|
  {
    if cells == [] then []
    else Unexpired(cells[..|cells| - 1], now) + (if Expired(cells[|cells| - 1], now) then [] else [cells[|cells| - 1]])
  }

  lemma {:induction false} UnexpiredSpec(cells: seq<ExplodedCellInfo>, now: int)
    ensures forall e :: e in Unexpired(cells, now) <==> e in cells && !Expired(e, now)
    ensures multiset(Unexpired(cells, now)) <= multiset(cells)
    decreases |cells|
  {
    if cells != [] {
      var init := cells[..|cells| - 1];
      UnexpiredSpec(init, now);
      assert cells == init + [cells[|cells| - 1]];
    }
  }

  /** Whether a due entry lies at cell (r, c). */
  ghost predicate ExpiresAt(cells: seq<ExplodedCellInfo>, now: int, r: int, c: int) {
    exists k :: 0 <= k < |cells| && Expired(cells[k], now) && cells[k].position.row == r && cells[k].position.col == c
  }

  /** The cells the sweep turns off, in entry order: the first due entry at
      each in-grid cell that is still on fire. */
  ghost function Doused(panel: array2<Cell>, cells: seq<ExplodedCellInfo>, now: int): seq<Position>
    reads panel
    requires IsGrid(panel)
    decreases |cells|
  {
    if cells == [] then []
    else
      var init, p := cells[..|cells| - 1], cells[|cells| - 1].position;
      Doused(panel, init, now)
        + (if Expired(cells[|cells| - 1], now) && InGrid(p.row, p.col) && panel[p.row, p.col] == Fire
              && !ExpiresAt(init, now, p.row, p.col)
           then [Position(p.row, p.col, false)] else [])
  }

  /** A turned-off cell was a due, in-grid fire cell, and none is turned off twice. */
  lemma {:induction false} DousedSpec(panel: array2<Cell>, cells: seq<ExplodedCellInfo>, now: int)
    requires IsGrid(panel)
    ensures forall k :: 0 <= k < |Doused(panel, cells, now)| ==> DousedCell(panel, cells, now, Doused(panel, cells, now)[k])
    ensures forall k, m :: 0 <= k < m < |Doused(panel, cells, now)| ==>
      !SameCell(Doused(panel, cells, now)[k], Doused(panel, cells, now)[m])
    decreases |cells|
  {
    if cells != [] {
      var init, e := cells[..|cells| - 1], cells[|cells| - 1];
      DousedSpec(panel, init, now);
      ExpiresStep(cells, now, |cells| - 1);
      assert cells[..|cells|] == cells;
      var d0 := Doused(panel, init, now);
      var d := Doused(panel, cells, now);
      assert forall k :: 0 <= k < |d0| ==> d[k] == d0[k];
      forall k | 0 <= k < |d0| ensures DousedCell(panel, cells, now, d[k]) {
        assert DousedCell(panel, init, now, d0[k]);
      }
      if |d| > |d0| {
        var n := Position(e.position.row, e.position.col, false);
        assert d == d0 + [n];
        assert ExpiresAt(cells, now, n.row, n.col);
        forall k | 0 <= k < |d0| ensures !SameCell(d[k], n) {
          assert DousedCell(panel, init, now, d0[k]);
        }
      }
    }
  }

  predicate SameCell(p: Position, q: Position) {
    p.row == q.row && p.col == q.col
  }

  /** A due in-grid cell that the panel shows on fire. */
  ghost predicate DousedCell(panel: array2<Cell>, cells: seq<ExplodedCellInfo>, now: int, p: Position)
    reads panel
    requires IsGrid(panel)
  {
    InGrid(p.row, p.col) && panel[p.row, p.col] == Fire && ExpiresAt(cells, now, p.row, p.col)
  }

  /** Extending the scanned prefix by one entry adds its cell when it is due. */
  lemma ExpiresStep(cells: seq<ExplodedCellInfo>, now: int, k: int)
    requires 0 <= k < |cells|
    ensures forall r, c :: ExpiresAt(cells[..k + 1], now, r, c) <==>
      ExpiresAt(cells[..k], now, r, c)
      || (Expired(cells[k], now) && cells[k].position.row == r && cells[k].position.col == c)
  {
    assert forall m :: 0 <= m < k ==> cells[..k + 1][m] == cells[..k][m];
    forall r, c | ExpiresAt(cells[..k + 1], now, r, c)
      ensures ExpiresAt(cells[..k], now, r, c)
              || (Expired(cells[k], now) && cells[k].position.row == r && cells[k].position.col == c)
    {
      var m :| 0 <= m < k + 1 && Expired(cells[..k + 1][m], now)
               && cells[..k + 1][m].position.row == r && cells[..k + 1][m].position.col == c;
      if m < k {
        assert Expired(cells[..k][m], now) && cells[..k][m].position.row == r && cells[..k][m].position.col == c;
      }
    }
    if Expired(cells[k], now) {
      assert cells[..k + 1][k] == cells[k];
      assert ExpiresAt(cells[..k + 1], now, cells[k].position.row, cells[k].position.col);
    }
  }

  /** One sweep of the fire list: each due entry is dropped, and turns its
      cell back to empty only if the cell is in the grid and still on fire;
      entries not due stay in order; no other cell changes; one "OF" notice
      lists the cells turned off, and none is sent when there are none. */
  method ClearExpiredExplosions(g: GameBoard, now: int)
    requires IsGrid(g.panel)
    modifies g.panel, g`explodedCells, g`broadcast
    ensures g.explodedCells == Unexpired(old(g.explodedCells), now)
    ensures forall r, c :: 0 <= r < NumberOfRows && 0 <= c < NumberOfColumns ==>
      g.panel[r, c] == if old(g.panel[r, c]) == Fire && ExpiresAt(old(g.explodedCells), now, r, c) then Empty else old(g.panel[r, c])
    ensures var cleared := old(Doused(g.panel, g.explodedCells, now));
      g.broadcast == if cleared == [] then old(g.broadcast) else Enqueue(old(g.broadcast), g.broadcastCapacity, Struct(FireOff(cleared)))
  {
    var remaining, positions, msgType := DouseExpired(g, now);
    if msgType == "OF" {
      SendMsgToChannel(g, Struct(FireOff(positions)));
    }
    g.explodedCells := remaining;
  }

  /** The sweep's loop: turns off the due fire cells and collects the
      entries that stay. */
  method DouseExpired(g: GameBoard, now: int)
    returns (remaining: seq<ExplodedCellInfo>, positions: seq<Position>, msgType: string)
    requires IsGrid(g.panel)
    modifies g.panel
    ensures remaining == Unexpired(g.explodedCells, now)
    ensures positions == old(Doused(g.panel, g.explodedCells, now))
    ensures msgType == if positions == [] then "" else "OF"
    ensures forall r, c :: 0 <= r < NumberOfRows && 0 <= c < NumberOfColumns ==>
      g.panel[r, c] == if old(g.panel[r, c]) == Fire && ExpiresAt(g.explodedCells, now, r, c) then Empty else old(g.panel[r, c])
  {
    remaining, positions, msgType := [], [], "";
    var cells := g.explodedCells;
    var k := 0;
    while k < |cells|
      invariant 0 <= k <= |cells|
      invariant remaining == Unexpired(cells[..k], now)
      invariant positions == old(Doused(g.panel, cells[..k], now))
      invariant msgType == if positions == [] then "" else "OF"
      invariant forall r, c :: 0 <= r < NumberOfRows && 0 <= c < NumberOfColumns ==>
        g.panel[r, c] == if old(g.panel[r, c]) == Fire && ExpiresAt(cells[..k], now, r, c) then Empty else old(g.panel[r, c])
    {
      var info := cells[k];
      assert cells[..k + 1][..k] == cells[..k];
      ExpiresStep(cells, now, k);
      if now > info.clearTime {
        var p := info.position;
        if 0 <= p.row < NumberOfRows && 0 <= p.col < NumberOfColumns {
          if g.panel[p.row, p.col] == Fire {
            g.panel[p.row, p.col] := Empty;
            msgType := "OF";
            positions := positions + [Position(p.row, p.col, false)];
          }
        }
      } else {
        remaining := remaining + [info];
      }
      k := k + 1;
    }
    assert cells[..k] == cells;
  }
}
