/** Joining and whole-cell moves on the earlier-generation board. */
module EarlyPlayers {
  import opened Models
  import opened EarlyGame

  /** The record of the joiner that finds `n` players present. */
  function Joiner(name: string, n: int): EarlyPlayer
    requires CanCreateNewPlayer(n)
  {
    EarlyPlayer(name, 3, 0, FindColor(n), FindStartRowLocation(n), FindStartColLocation(n), false)
  }

  /** Adds a player when the board admits one; returns whether it did. A
      refused join changes nothing. */
  method CreatePlayer(g: EarlyBoard, name: string) returns (ok: bool)
    requires g.Valid()
    modifies g`players, g`numberOfPlayers
    ensures g.Valid()
    ensures ok == CanCreateNewPlayer(old(g.numberOfPlayers))
    ensures !ok ==> g.players == old(g.players) && g.numberOfPlayers == old(g.numberOfPlayers)
    ensures ok ==> g.players == old(g.players) + [Joiner(name, old(g.numberOfPlayers))]
                   && g.numberOfPlayers == old(g.numberOfPlayers) + 1
  {
    if !CanCreateNewPlayer(g.numberOfPlayers) {
      return false;
    }
    var player := EarlyPlayer(name, 3, 0, FindColor(g.numberOfPlayers),
                              FindStartRowLocation(g.numberOfPlayers), FindStartColLocation(g.numberOfPlayers), false);
    StartCorners(g.numberOfPlayers, g.numberOfPlayers);
    g.players := g.players + [player];
    g.numberOfPlayers := g.numberOfPlayers + 1;
    return true;
  }

  /** The four direction names and the cell each asks to step to. */
  function Target(p: EarlyPlayer, direction: string): (t: Option<(int, int)>)
    ensures direction !in {"row-forward", "row-backward", "col-upward", "col-downward"} <==> t.None?
  {
    if direction == "row-forward" then Some((p.row + 1, p.column))
    else if direction == "row-backward" then Some((p.row - 1, p.column))
    else if direction == "col-upward" then Some((p.row, p.column + 1))
    else if direction == "col-downward" then Some((p.row, p.column - 1))
    else None
  }

  /** A step moves exactly one of row and column, by exactly one. */
  lemma TargetIsNeighbour(p: EarlyPlayer, direction: string)
    requires Target(p, direction).Some?
    ensures var t := Target(p, direction).value;
      (t.0 == p.row && (t.1 == p.column + 1 || t.1 == p.column - 1)) ||
      (t.1 == p.column && (t.0 == p.row + 1 || t.0 == p.row - 1))
  {
  }

  /** Whether the step is taken: a known direction, a target on the grid,
      and no wall there; no other flag of the target blocks. */
  ghost predicate CanStep(panel: array2<GameCell>, p: EarlyPlayer, direction: string)
    reads panel
  {
    && Target(p, direction).Some?
    && var t := Target(p, direction).value;
    && InEarlyGrid(t.0, t.1) && 0 <= t.0 < panel.Length0 && 0 <= t.1 < panel.Length1
    && !panel[t.0, t.1].isWall
  }

  /** Steps a player one cell; a refused step changes nothing. */
  method MovePlayer(g: EarlyBoard, i: int, direction: string) returns (moved: bool)
    requires g.Valid() && 0 <= i < |g.players|
    modifies g`players
    ensures g.Valid()
    ensures moved == CanStep(g.panel, old(g.players[i]), direction)
    ensures !moved ==> g.players == old(g.players)
    ensures moved ==>
      var t := Target(old(g.players[i]), direction).value;
      g.players == old(g.players)[i := old(g.players[i]).(row := t.0, column := t.1)]
  {
    var p := g.players[i];
    if direction == "row-forward" {
      if EarlyRows <= p.row + 1 || g.panel[p.row + 1, p.column].isWall {
        return false;
      }
      g.players := g.players[i := p.(row := p.row + 1)];
    } else if direction == "row-backward" {
      if p.row - 1 < 0 || g.panel[p.row - 1, p.column].isWall {
        return false;
      }
      g.players := g.players[i := p.(row := p.row - 1)];
    } else if direction == "col-upward" {
      if EarlyColumns <= p.column + 1 || g.panel[p.row, p.column + 1].isWall {
        return false;
      }
      g.players := g.players[i := p.(column := p.column + 1)];
    } else if direction == "col-downward" {
      if p.column - 1 < 0 || g.panel[p.row, p.column - 1].isWall {
        return false;
      }
      g.players := g.players[i := p.(column := p.column - 1)];
    } else {
      return false;
    }
    return true;
  }
}
