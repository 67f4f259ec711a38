/** The shared game board of the current engine and the invariant that its
    operations keep. */
module Board {
  import opened Models

  /** Largest X and Y a player's box may take: the box stays inside the grid. */
  const MaxX: int := NumberOfColumns * CellSize - PlayerSize
  const MaxY: int := NumberOfRows * CellSize - PlayerSize

  /** A player's cells and pixels lie in the grid and its step is not negative. */
  ghost predicate PlayerInBounds(p: Player) {
    && InGrid(p.row, p.column)
    && InGrid(p.initialRow, p.initialColumn)
    && 0 <= p.xLocation <= MaxX
    && 0 <= p.yLocation <= MaxY
    && p.stepSize >= 0
  }

  /** Number of bombs in `bombs` that belong to player `p`. */
  function UsedBy(bombs: seq<Bomb>, p: int): nat
  {
    if bombs == [] then 0
    else UsedBy(bombs[..|bombs| - 1], p) + (if bombs[|bombs| - 1].ownPlayerIndex == p then 1 else 0)
  }

  lemma {:induction false} UsedByAppend(a: seq<Bomb>, b: seq<Bomb>, p: int)
    ensures UsedBy(a + b, p) == UsedBy(a, p) + UsedBy(b, p)
    decreases |b|
  {
    if b == [] {
      assert a + b == a;
    } else {
      assert (a + b)[..|a + b| - 1] == a + b[..|b| - 1];
      UsedByAppend(a, b[..|b| - 1], p);
    }
  }

  /** The count depends only on who owns each bomb. */
  lemma {:induction false} UsedBySameOwners(a: seq<Bomb>, b: seq<Bomb>, p: int)
    requires |a| == |b|
    requires forall k :: 0 <= k < |a| ==> a[k].ownPlayerIndex == b[k].ownPlayerIndex
    ensures UsedBy(a, p) == UsedBy(b, p)
    decreases |a|
  {
    if a != [] {
      UsedBySameOwners(a[..|a| - 1], b[..|b| - 1], p);
    }
  }

  /** A stop channel held by a player is allocated, not yet closed, held by
      no other player, and present only while the player is moving; only
      allocated channels have been closed. */
  ghost predicate ChansFresh(players: seq<Player>, nextChanId: nat, closedChans: set<nat>) {
    && (forall c :: c in closedChans ==> c < nextChanId)
    && (forall i :: 0 <= i < |players| && players[i].stopMoveChan.Chan? ==>
          && players[i].stopMoveChan.id < nextChanId
          && players[i].stopMoveChan.id !in closedChans
          && players[i].isMoving)
    && (forall i, j :: 0 <= i < j < |players| && players[i].stopMoveChan.Chan? && players[j].stopMoveChan.Chan? ==>
          players[i].stopMoveChan.id != players[j].stopMoveChan.id)
  }

  /** Bounds and indices that every operation relies on. */
  ghost predicate ShapeOf(players: seq<Player>, bombs: seq<Bomb>, pendingRespawns: seq<PlayerRespawn>,
                          powerups: seq<Powerup>, nextChanId: nat, closedChans: set<nat>) {
    && (forall i :: 0 <= i < |players| ==> PlayerInBounds(players[i]))
    && (forall k :: 0 <= k < |bombs| ==> InGrid(bombs[k].row, bombs[k].column))
    && (forall k :: 0 <= k < |pendingRespawns| ==> 0 <= pendingRespawns[k].playerIndex < |players|)
    && (forall k :: 0 <= k < |powerups| ==> powerups[k].value >= 0)
    && ChansFresh(players, nextChanId, closedChans)
  }

  ghost predicate AccountedOf(players: seq<Player>, bombs: seq<Bomb>) {
    forall p :: 0 <= p < |players| ==> players[p].numberOfUsedBombs == UsedBy(bombs, p)
  }

  /** Replacing one player by a record in bounds that keeps its stop channel
      and moving flag, and removing powerups, keeps the invariant. */
  lemma ReplaceKeepsShape(players: seq<Player>, bombs: seq<Bomb>, pendingRespawns: seq<PlayerRespawn>,
                          powerups: seq<Powerup>, powerups2: seq<Powerup>, removed: seq<Powerup>,
                          nextChanId: nat, closedChans: set<nat>, i: int, q: Player)
    requires ShapeOf(players, bombs, pendingRespawns, powerups, nextChanId, closedChans)
    requires 0 <= i < |players| && PlayerInBounds(q)
    requires q.stopMoveChan == players[i].stopMoveChan && q.isMoving == players[i].isMoving
    requires multiset(powerups2) + multiset(removed) == multiset(powerups)
    ensures ShapeOf(players[i := q], bombs, pendingRespawns, powerups2, nextChanId, closedChans)
  {
    forall k | 0 <= k < |powerups2| ensures powerups2[k].value >= 0 {
      assert powerups2[k] in multiset(powerups);
    }
  }

  /** So does a replacement that keeps the used-bomb counter. */
  lemma ReplaceKeepsAccounted(players: seq<Player>, bombs: seq<Bomb>, i: int, q: Player)
    requires AccountedOf(players, bombs)
    requires 0 <= i < |players| && q.numberOfUsedBombs == players[i].numberOfUsedBombs
    ensures AccountedOf(players[i := q], bombs)
  {
  }

  /** Every removed powerup came from the list, so its value is not negative. */
  lemma RemovedNonNegative(powerups: seq<Powerup>, powerups2: seq<Powerup>, removed: seq<Powerup>)
    requires forall k :: 0 <= k < |powerups| ==> powerups[k].value >= 0
    requires multiset(powerups2) + multiset(removed) == multiset(powerups)
    ensures forall e :: 0 <= e < |removed| ==> removed[e].value >= 0
  {
    forall e | 0 <= e < |removed| ensures removed[e].value >= 0 {
      assert removed[e] in multiset(powerups);
    }
  }

  class GameBoard {
    var players: seq<Player>
    var bombs: seq<Bomb>
    var pendingRespawns: seq<PlayerRespawn>
    var numberOfPlayers: int
    /** The fixed NumberOfRows x NumberOfColumns panel of cell codes. */
    const panel: array2<Cell>
    var powerups: seq<Powerup>
    var isStarted: bool
    var explodedCells: seq<ExplodedCellInfo>
    /** The broadcast channel's buffer and its capacity. */
    var broadcast: seq<Payload>
    const broadcastCapacity: nat
    /** Stop channels: the next identity to allocate and the set already closed. */
    var nextChanId: nat
    var closedChans: set<nat>

    /** An empty panel and no entities; the random layout of a new game is not modelled. */
    constructor (capacity: nat)
      ensures Valid()
      ensures players == [] && bombs == [] && powerups == [] && explodedCells == []
      ensures pendingRespawns == [] && broadcast == [] && broadcastCapacity == capacity
      ensures numberOfPlayers == 0 && !isStarted
    {
      players, bombs, pendingRespawns := [], [], [];
      numberOfPlayers := 0;
      panel := new Cell[NumberOfRows, NumberOfColumns]((r, c) => Empty);
      powerups := [];
      isStarted := false;
      explodedCells := [];
      broadcast := [];
      broadcastCapacity := capacity;
      nextChanId := 0;
      closedChans := {};
    }

    /** The board invariant over its current values. */
    ghost predicate Shape()
      reads this
    {
      && panel.Length0 == NumberOfRows
      && panel.Length1 == NumberOfColumns
      && ShapeOf(players, bombs, pendingRespawns, powerups, nextChanId, closedChans)
    }

    /** Each player's used-bomb counter equals the number of live bombs it owns. */
    ghost predicate Accounted()
      reads this
    {
      AccountedOf(players, bombs)
    }

    ghost predicate Valid()
      reads this
    {
      Shape() && Accounted()
    }
  }
}
