/** The earlier-generation board: a 20 x 20 grid of flag records, join
    order deciding each player's colour and start corner, and look-ups on
    the grid. */
module EarlyGame {
  import opened Models

  const EarlyRows: int := 20
  const EarlyColumns: int := 20
  const MaxPlayers: int := 4
  const MinPlayers: int := 2

  /** The palette, indexed by join order. */
  const Colors: seq<string> := ["G", "Y", "R", "B"]

  /** One grid cell's flags. */
  datatype GameCell = GameCell(isOccupied: bool, isWall: bool, isDestructible: bool, isExploaded: bool)

  datatype EarlyPlayer = EarlyPlayer(
    name: string,
    lives: int,
    score: int,
    color: string,
    row: int,
    column: int,
    isDead: bool)

  predicate InEarlyGrid(row: int, col: int) {
    0 <= row < EarlyRows && 0 <= col < EarlyColumns
  }

  class EarlyBoard {
    var players: seq<EarlyPlayer>
    var numberOfPlayers: int
    /** The grid; no operation modelled here writes it. */
    const panel: array2<GameCell>
    const gridSize: int

    constructor (gridSize: int)
      ensures Valid()
      ensures players == [] && numberOfPlayers == 0 && this.gridSize == gridSize
    {
      players := [];
      numberOfPlayers := 0;
      panel := new GameCell[EarlyRows, EarlyColumns]((r, c) => GameCell(false, false, false, false));
      this.gridSize := gridSize;
    }

    /** The grid has its fixed size and every player stands on it. */
    ghost predicate Valid()
      reads this
    {
      && panel.Length0 == EarlyRows && panel.Length1 == EarlyColumns
      && forall i :: 0 <= i < |players| ==> InEarlyGrid(players[i].row, players[i].column)
    }
  }

  /** A new player may join while the count after joining lies in 1..MaxPlayers. */
  predicate CanCreateNewPlayer(numberOfPlayers: int)
    ensures CanCreateNewPlayer(numberOfPlayers) <==> 0 <= numberOfPlayers < MaxPlayers
  {
    0 < numberOfPlayers + 1 && numberOfPlayers + 1 <= MaxPlayers
  }

  lemma CanCreateNewPlayerRange(n: int)
    ensures CanCreateNewPlayer(n) <==> 1 <= n + 1 <= MaxPlayers
    ensures CanCreateNewPlayer(n) <==> 0 <= n <= 3
  {
  }

  /** The colour look-up as written: the palette entry one past the number
      of players already present; None where that index is out of range,
      which stops the program. */
  function FindColorAsWritten(numberOfPlayers: int): Option<string> {
    if 0 <= numberOfPlayers + 1 < |Colors| then Some(Colors[numberOfPlayers + 1]) else None
  }

  /** The first joiner gets "Y", no admitted joiner gets "G", and the fourth
      joiner, whom CanCreateNewPlayer admits, indexes past the palette. */
  lemma FindColorAsWrittenFails()
    ensures FindColorAsWritten(0) == Some("Y")
    ensures forall n :: CanCreateNewPlayer(n) ==> FindColorAsWritten(n) != Some("G")
    ensures CanCreateNewPlayer(3) && FindColorAsWritten(3).None?
    ensures forall n :: CanCreateNewPlayer(n) ==> (FindColorAsWritten(n).Some? <==> n <= 2)
  {
    forall n | CanCreateNewPlayer(n) ensures FindColorAsWritten(n) != Some("G") {
      if n + 1 < |Colors| {
        assert Colors[n + 1][0] != 'G';
      }
    }
  }

  /** The colour of the joiner that finds `numberOfPlayers` players present:
      the palette entry at its own zero-based position. */
  function FindColor(numberOfPlayers: int): (c: string)
    requires CanCreateNewPlayer(numberOfPlayers)
    ensures c in Colors
  {
    Colors[numberOfPlayers]
  }

  /** Every admitted joiner gets a colour, the first gets "G", and distinct
      join positions get distinct colours. */
  lemma FindColorDistinct(m: int, n: int)
    requires CanCreateNewPlayer(m) && CanCreateNewPlayer(n)
    ensures FindColor(0) == "G"
    ensures m != n ==> FindColor(m) != FindColor(n)
  {
  }

  /** Joiners 1 and 2 start on the top row, the others on the bottom row. */
  function FindStartRowLocation(numberOfPlayers: int): (row: int)
    ensures row == 0 || row == EarlyRows - 1
    ensures row == 0 <==> 0 <= numberOfPlayers <= 1
  {
    if numberOfPlayers + 1 == 1 || numberOfPlayers + 1 == 2 then 0 else EarlyRows - 1
  }

  /** Joiners 1 and 3 start in the leftmost column, the others in the rightmost. */
  function FindStartColLocation(numberOfPlayers: int): (col: int)
    ensures col == 0 || col == EarlyColumns - 1
    ensures col == 0 <==> numberOfPlayers == 0 || numberOfPlayers == 2
  {
    if numberOfPlayers + 1 == 1 || numberOfPlayers + 1 == 3 then 0 else EarlyColumns - 1
  }

  /** The start cell of the joiner that finds `n` players present. */
  function StartCell(n: int): (int, int) {
    (FindStartRowLocation(n), FindStartColLocation(n))
  }

  /** Joiners 1 to 4 start on the four corners, in the order top-left,
      top-right, bottom-left, bottom-right, each corner once; every start
      cell, for any count, lies on the grid. */
  lemma StartCorners(m: int, n: int)
    ensures StartCell(0) == (0, 0)
    ensures StartCell(1) == (0, EarlyColumns - 1)
    ensures StartCell(2) == (EarlyRows - 1, 0)
    ensures StartCell(3) == (EarlyRows - 1, EarlyColumns - 1)
    ensures 0 <= m < n < MaxPlayers ==> StartCell(m) != StartCell(n)
    ensures InEarlyGrid(StartCell(m).0, StartCell(m).1)
  {
  }

  /** Whether the cell is marked exploded; the row and column must be on the grid. */
  function HasExploaded(panel: array2<GameCell>, row: int, col: int): (b: bool)
    reads panel
    requires 0 <= row < panel.Length0 && 0 <= col < panel.Length1
    ensures b <==> panel[row, col].isExploaded
  {
    panel[row, col].isExploaded
  }

  /** A border of the player's cell in grid units: "d" and "r" are the
      cell's starting edges along the column and the row index, "u" and "l"
      one grid size beyond them; any other name gives -100. */
  function FindGridBorderLocation(p: EarlyPlayer, gridSize: int, borderName: char): (r: int)
    ensures borderName !in {'u', 'd', 'l', 'r'} ==> r == -100
  {
    match borderName
    case 'u' => (p.column * gridSize) + gridSize
    case 'd' => p.column * gridSize
    case 'l' => (p.row * gridSize) + gridSize
    case 'r' => p.row * gridSize
    case _ => -100
  }

  lemma BorderOffsets(p: EarlyPlayer, gridSize: int)
    ensures FindGridBorderLocation(p, gridSize, 'u') == FindGridBorderLocation(p, gridSize, 'd') + gridSize
    ensures FindGridBorderLocation(p, gridSize, 'l') == FindGridBorderLocation(p, gridSize, 'r') + gridSize
    ensures FindGridBorderLocation(p, gridSize, 'd') == p.column * gridSize
    ensures FindGridBorderLocation(p, gridSize, 'r') == p.row * gridSize
  {
  }
}
