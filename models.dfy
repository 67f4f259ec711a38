/** Constants and records of the current game engine: an 11 x 13 grid of
    string-coded cells, players moving in pixels, timed bombs, fire cells,
    powerups and the respawn queue. Times are integers (milliseconds). */
module Models {

  // ---- grid and lobby ----
  const NumberOfRows: int := 11
  const NumberOfColumns: int := 13
  const MaxNumberOfPlayers: int := 4
  const MinNumberOfPlayers: int := 2
  const CellSize: int := 50

  /** The player colour palette, indexed by join order. */
  const Colors: seq<string> := ["G", "Y", "R", "B"]

  // ---- timers, in milliseconds ----
  const BombExplosionDuration: int := 1000
  /** Declared by the source but read by no operation. */
  const PlayerInvulnerabilityDuration: int := 1000

  // ---- movement and player defaults ----
  const MovementTolerance: int := 20
  const StepSize: int := 5
  const BombDelay: int := 3
  const BombRange: int := 2
  const PlayerSize: int := 48

  // ---- powerup caps (declared, read by no operation) ----
  const MaxBombsPowerup: int := 5
  const MaxBombRangePowerup: int := 5
  const MaxSpeedPowerup: int := 20

  datatype Option<T> = None | Some(value: T)

  /** Content of one panel cell. The source stores the wire strings
      "Ex", "W", "D", "" and "B" directly; Code gives them back. */
  datatype Cell = Empty | Wall | Destructible | Fire | BombMark {
    function Code(): string {
      match this
      case Empty => ""
      case Wall => "W"
      case Destructible => "D"
      case Fire => "Ex"
      case BombMark => "B"
    }
  }

  /** Reads a wire string back as a cell; None for a string outside the code set. */
  function CellOfCode(s: string): (c: Option<Cell>)
    ensures c.Some? ==> c.value.Code() == s
  {
    if s == "" then Some(Empty)
    else if s == "W" then Some(Wall)
    else if s == "D" then Some(Destructible)
    else if s == "Ex" then Some(Fire)
    else if s == "B" then Some(BombMark)
    else None
  }

  predicate InGrid(row: int, col: int) {
    0 <= row < NumberOfRows && 0 <= col < NumberOfColumns
  }

  datatype Position = Position(row: int, col: int, cellOnFire: bool)

  datatype Bomb = Bomb(
    row: int,
    column: int,
    xLocation: int,
    yLocation: int,
    explosionTime: int,
    ownPlayerIndex: int,
    initialIntersection: bool)

  /** A cell set on fire and the time at which it should revert to empty. */
  datatype ExplodedCellInfo = ExplodedCellInfo(position: Position, clearTime: int)

  datatype PlayerRespawn = PlayerRespawn(playerIndex: int, respawnTime: int)

  /** The four powerup kinds; Name gives the source's type strings. */
  datatype PowerupType = ExtraBomb | WiderRange | ExtraLife | SpeedBoost {
    function Name(): string {
      match this
      case ExtraBomb => "ExtraBomb"
      case WiderRange => "BombRange"
      case ExtraLife => "ExtraLife"
      case SpeedBoost => "SpeedBoost"
    }
  }

  const PowerupTypes: seq<PowerupType> := [ExtraBomb, WiderRange, ExtraLife, SpeedBoost]

  datatype Powerup = Powerup(kind: PowerupType, value: int, row: int, column: int, isHidden: bool)

  /** A movement direction as read from its wire name: "u", "d", "l" and
      "r", and any other string, which moves nothing. */
  datatype Direction = Up | Down | Left | Right | Other(name: string) {
    function Name(): string {
      match this
      case Up => "u"
      case Down => "d"
      case Left => "l"
      case Right => "r"
      case Other(s) => s
    }
  }

  function DirectionOf(s: string): (d: Direction)
    ensures d.Name() == s
    ensures d.Other? <==> s !in {"u", "d", "l", "r"}
  {
    if s == "u" then Up
    else if s == "d" then Down
    else if s == "l" then Left
    else if s == "r" then Right
    else Other(s)
  }

  /** A player's stop channel: nil, or the channel with a given identity. */
  datatype StopChan = NilChan | Chan(id: nat)

  datatype Player = Player(
    index: int,
    name: string,
    lives: int,
    score: int,
    color: string,
    row: int,
    column: int,
    initialRow: int,
    initialColumn: int,
    xLocation: int,
    yLocation: int,
    isDead: bool,
    isHurt: bool,
    numberOfBombs: int,
    numberOfUsedBombs: int,
    bombDelay: int,
    bombRange: int,
    stepSize: int,
    directionFace: string,
    isMoving: bool,
    stopMoveChan: StopChan)

  /** The dynamic values a loosely typed message map may hold. */
  datatype Value = VStr(s: string) | VInt(i: int) | VBool(b: bool) | VOther

  /** A message map; Go maps are shared references, so this is an object. */
  class MsgMap {
    var entries: map<string, Value>

    constructor (entries: map<string, Value>)
      ensures this.entries == entries
    {
      this.entries := entries;
    }
  }

  /** The events the engine broadcasts (the source's anonymous and named message structs). */
  datatype Event =
    | BombAccepted(row: int, column: int, xLocation: int, yLocation: int, playerIndex: int)  // "BA"
    | ExplodedCells(positions: seq<Position>, bombRow: int, bombCol: int)                     // "EXC"
    | FireOff(cleared: seq<Position>)                                                         // "OF"
    | LifeLost(lives: int, color: string, who: int)                                           // "PLD"
    | PlayerDied(player: Player)                                                              // "PD"
    | PlayerRespawned(respawned: int, x: int, y: int)                                         // "PR"
    | PowerupShown(powerup: Powerup)                                                          // "AddPowerup"
    | PowerupRemoved(removedRow: int, removedColumn: int)                                     // "RemovePowerup"
    | BombPowerupEaten(eater: int, numberOfBombs: int, numberOfUsedBombs: int)                // "EatBombPowerup"
    | LifePowerupEaten(lifeEater: int, numberOfLives: int)                                    // "EatLifePowerup"
    | ChatSent(name: string, content: string, date: int, senderIndex: int, color: string)       // "CM"

  /** What travels on the broadcast channel: a message struct, or a message map. */
  datatype Payload = Struct(event: Event) | Dict(m: MsgMap)

  // ---- properties of the constants ----

  lemma GridIndices(row: int, col: int)
    ensures InGrid(row, col) <==> 0 <= row < 11 && 0 <= col < 13
  {
  }

  /** Every cell code lies in the closed set of the panel comment, codes are
      distinct, and a code decodes back to its cell. */
  lemma CellCodes(c: Cell, d: Cell)
    ensures c.Code() in {"Ex", "W", "D", "", "B"}
    ensures c != d ==> c.Code() != d.Code()
    ensures CellOfCode(c.Code()) == Some(c)
  {
  }

  lemma PaletteSize()
    ensures |Colors| == MaxNumberOfPlayers == 4
    ensures forall i, j :: 0 <= i < j < |Colors| ==> Colors[i] != Colors[j]
  {
  }

  lemma PowerupKinds(k: PowerupType)
    ensures |PowerupTypes| == 4 && k in PowerupTypes
    ensures forall i, j :: 0 <= i < j < |PowerupTypes| ==> PowerupTypes[i] != PowerupTypes[j]
    ensures forall i, j :: 0 <= i < j < |PowerupTypes| ==> PowerupTypes[i].Name() != PowerupTypes[j].Name()
  {
  }

  /** Since PlayerSize < CellSize, the two ends x and x + PlayerSize - 1 of a
      player's box lie in the same cell or in two adjacent cells. */
  lemma {:induction false} BoxSpansAtMostTwoCells(x: int)
    requires x >= 0
    ensures PlayerSize < CellSize
    ensures (x + PlayerSize - 1) / CellSize == x / CellSize
         || (x + PlayerSize - 1) / CellSize == x / CellSize + 1
  {
    var q := x / CellSize;
    assert q * CellSize <= x < q * CellSize + CellSize;
    assert q * CellSize <= x + PlayerSize - 1 < (q + 2) * CellSize;
    if x + PlayerSize - 1 < (q + 1) * CellSize {
      DivInCell(x + PlayerSize - 1, q);
    } else {
      DivInCell(x + PlayerSize - 1, q + 1);
    }
  }

  lemma DivInCell(v: int, q: int)
    requires q * CellSize <= v < q * CellSize + CellSize
    ensures v / CellSize == q
  {
  }

  /** The two snapping windows (offset <= tolerance, offset >= CellSize - tolerance) are disjoint. */
  lemma SnapWindowsDisjoint(offset: int)
    ensures MovementTolerance < CellSize - MovementTolerance
    ensures !(offset <= MovementTolerance && CellSize - offset <= MovementTolerance)
  {
  }
}
