/** Powerup list operations: search, reveal, removal, eating with its stat
    effect, and chance-based creation. */
module Powerups {
  import opened Models
  import opened Board
  import opened Broadcast

  predicate VisibleAt(p: Powerup, row: int, column: int) {
    p.row == row && p.column == column && !p.isHidden
  }

  /** Least index of a visible powerup at (row, column), or -1 when there is none. */
  function IndexOfVisible(ps: seq<Powerup>, row: int, column: int): (r: int)
    ensures -1 <= r < |ps|
    ensures r >= 0 ==> VisibleAt(ps[r], row, column)
    ensures forall k :: 0 <= k < |ps| && (r == -1 || k < r) ==> !VisibleAt(ps[k], row, column)
    decreases |ps|
  {
    if ps == [] then -1
    else if VisibleAt(ps[0], row, column) then 0
    else
      var r := IndexOfVisible(ps[1..], row, column);
      if r == -1 then -1 else r + 1
  }

  /** Appending a hidden powerup never changes what the search finds, so a
      hidden powerup at a cell does not stop a second one being created there. */
  lemma HiddenNeverFound(ps: seq<Powerup>, p: Powerup, row: int, column: int)
    requires p.isHidden
    ensures IndexOfVisible(ps + [p], row, column) == IndexOfVisible(ps, row, column)
  {
    var r := IndexOfVisible(ps + [p], row, column);
    var s := IndexOfVisible(ps, row, column);
    assert forall k :: 0 <= k < |ps| ==> (ps + [p])[k] == ps[k];
    if r >= 0 {
      assert r < |ps|;
    }
    if s >= 0 {
      assert (ps + [p])[s] == ps[s];
    }
  }

  /** Read-only search loop over the powerup list. */
  method FindPowerupAt(g: GameBoard, row: int, column: int) returns (r: int)
    ensures r == IndexOfVisible(g.powerups, row, column)
  {
    var i := 0;
    while i < |g.powerups|
      invariant 0 <= i <= |g.powerups|
      invariant forall k :: 0 <= k < i ==> !VisibleAt(g.powerups[k], row, column)
    {
      var p := g.powerups[i];
      if p.row == row && p.column == column && !p.isHidden {
        return i;
      }
      i := i + 1;
    }
    return -1;
  }

  /** The player stat a powerup kind acts on. */
  function Stat(p: Player, kind: PowerupType): int {
    match kind
    case ExtraBomb => p.numberOfBombs
    case WiderRange => p.bombRange
    case ExtraLife => p.lives
    case SpeedBoost => p.stepSize
  }

  /** `p` with its four powerup-driven stats taken from `q`. */
  function WithStatsOf(p: Player, q: Player): Player {
    p.(numberOfBombs := q.numberOfBombs, bombRange := q.bombRange, lives := q.lives, stepSize := q.stepSize)
  }

  /** The eater after a powerup's effect. */
  function Eat(p: Player, pu: Powerup): (q: Player)
    ensures Stat(q, pu.kind) == Stat(p, pu.kind) + pu.value
    ensures forall k :: k != pu.kind ==> Stat(q, k) == Stat(p, k)
    ensures WithStatsOf(q, p) == p
  {
    match pu.kind
    case ExtraBomb => p.(numberOfBombs := p.numberOfBombs + pu.value)
    case WiderRange => p.(bombRange := p.bombRange + pu.value)
    case ExtraLife => p.(lives := p.lives + pu.value)
    case SpeedBoost => p.(stepSize := p.stepSize + pu.value)
  }

  /** The event announcing an eaten powerup; range and speed boosts announce nothing. */
  function EatNotice(playerIndex: int, q: Player, kind: PowerupType): Option<Event> {
    match kind
    case ExtraBomb => Some(BombPowerupEaten(playerIndex, q.numberOfBombs, q.numberOfUsedBombs))
    case ExtraLife => Some(LifePowerupEaten(playerIndex, q.lives))
    case _ => None
  }

  function Announce(queue: seq<Payload>, capacity: nat, notice: Option<Event>): seq<Payload> {
    match notice
    case None => queue
    case Some(e) => Enqueue(queue, capacity, Struct(e))
  }

  function Without<T>(s: seq<T>, i: int): (r: seq<T>)
    requires 0 <= i < |s|
    ensures |r| == |s| - 1
    ensures forall k :: 0 <= k < i ==> r[k] == s[k]
    ensures forall k :: i <= k < |r| ==> r[k] == s[k + 1]
    ensures multiset(r) + multiset{s[i]} == multiset(s)
  {
    assert s == s[..i] + [s[i]] + s[i + 1..];
    s[..i] + s[i + 1..]
  }

  method ShowPowerup(g: GameBoard, index: int)
    modifies g`powerups, g`broadcast
    ensures !(0 <= index < |old(g.powerups)|) || !old(g.powerups[index]).isHidden ==>
      g.powerups == old(g.powerups) && g.broadcast == old(g.broadcast)
    ensures 0 <= index < |old(g.powerups)| && old(g.powerups[index]).isHidden ==>
      && g.powerups == old(g.powerups)[index := old(g.powerups[index]).(isHidden := false)]
      && g.broadcast == Enqueue(old(g.broadcast), g.broadcastCapacity, Struct(PowerupShown(g.powerups[index])))
  {
    if index < 0 || index >= |g.powerups| {
      return;
    }
    var powerup := g.powerups[index];
    if !powerup.isHidden {
      return;
    }
    powerup := powerup.(isHidden := false);
    g.powerups := g.powerups[index := powerup];
    SendMsgToChannel(g, Struct(PowerupShown(powerup)));
  }

  method RemovePowerup(g: GameBoard, index: int)
    modifies g`powerups, g`broadcast
    ensures !(0 <= index < |old(g.powerups)|) ==>
      g.powerups == old(g.powerups) && g.broadcast == old(g.broadcast)
    ensures 0 <= index < |old(g.powerups)| ==>
      && g.powerups == Without(old(g.powerups), index)
      && g.broadcast == Enqueue(old(g.broadcast), g.broadcastCapacity,
                                Struct(PowerupRemoved(old(g.powerups[index]).row, old(g.powerups[index]).column)))
  {
    if index < 0 || index >= |g.powerups| {
      return;
    }
    var powerup := g.powerups[index];
    g.powerups := g.powerups[..index] + g.powerups[index + 1..];
    SendMsgToChannel(g, Struct(PowerupRemoved(powerup.row, powerup.column)));
  }

  /** Eats a visible powerup: removes it and applies its effect to the eater only. */
  method EatPowerup(g: GameBoard, playerIndex: int, index: int)
    requires 0 <= index < |g.powerups| && !g.powerups[index].isHidden ==> 0 <= playerIndex < |g.players|
    modifies g`powerups, g`players, g`broadcast
    ensures !(0 <= index < |old(g.powerups)|) || old(g.powerups[index]).isHidden ==>
      g.powerups == old(g.powerups) && g.players == old(g.players) && g.broadcast == old(g.broadcast)
    ensures 0 <= index < |old(g.powerups)| && !old(g.powerups[index]).isHidden ==>
      && g.powerups == Without(old(g.powerups), index)
      && g.players == old(g.players)[playerIndex := Eat(old(g.players[playerIndex]), old(g.powerups[index]))]
      && g.broadcast == Announce(old(g.broadcast), g.broadcastCapacity,
                                 EatNotice(playerIndex, g.players[playerIndex], old(g.powerups[index]).kind))
  {
    if index < 0 || index >= |g.powerups| {
      return;
    }
    var powerup := g.powerups[index];
    if powerup.isHidden {
      return;
    }
    g.powerups := g.powerups[..index] + g.powerups[index + 1..];
    var player := g.players[playerIndex];
    match powerup.kind
    case ExtraBomb =>
      player := player.(numberOfBombs := player.numberOfBombs + powerup.value);
      g.players := g.players[playerIndex := player];
      SendMsgToChannel(g, Struct(BombPowerupEaten(playerIndex, player.numberOfBombs, player.numberOfUsedBombs)));
    case WiderRange =>
      player := player.(bombRange := player.bombRange + powerup.value);
      g.players := g.players[playerIndex := player];
    case ExtraLife =>
      player := player.(lives := player.lives + powerup.value);
      g.players := g.players[playerIndex := player];
      SendMsgToChannel(g, Struct(LifePowerupEaten(playerIndex, player.lives)));
    case SpeedBoost =>
      player := player.(stepSize := player.stepSize + powerup.value);
      g.players := g.players[playerIndex := player];
  }

  /** Magnitude of a freshly created powerup. */
  function ValueOf(kind: PowerupType): (v: int)
    ensures v >= 1
    ensures v == 2 <==> kind == SpeedBoost
  {
    if kind == SpeedBoost then 2 else 1
  }

  /** Creation roll: `roll` stands for rand.Float64() and `pick` for
      rand.Intn(len(PowerupTypes)). A hidden powerup is appended when the roll
      passes (roll <= 0.4) and no visible powerup lies at the cell. */
  method CreatePowerupWithChance(g: GameBoard, row: int, column: int, roll: real, pick: int)
    requires 0.0 <= roll < 1.0
    requires 0 <= pick < |PowerupTypes|
    modifies g`powerups
    ensures roll > 0.4 || IndexOfVisible(old(g.powerups), row, column) != -1 ==>
      g.powerups == old(g.powerups)
    ensures roll <= 0.4 && IndexOfVisible(old(g.powerups), row, column) == -1 ==>
      g.powerups == old(g.powerups) + [Powerup(PowerupTypes[pick], ValueOf(PowerupTypes[pick]), row, column, true)]
  {
    if roll > 0.4 {
      return;
    }
    var found := FindPowerupAt(g, row, column);
    if found != -1 {
      return;
    }
    var kind := PowerupTypes[pick];
    var value := 0;
    match kind {
      case ExtraBomb => value := 1;
      case WiderRange => value := 1;
      case ExtraLife => value := 1;
      case SpeedBoost => value := 2;
    }
    g.powerups := g.powerups + [Powerup(kind, value, row, column, true)];
  }
}
