/** Pixel movement and the collision resolver: corner-cell probing (which eats
    visible powerups on the way), clamping, snapping with a tolerance, the
    one-pixel fallback, revert-on-block, the owner's initial-intersection
    exemption, and the movement start/stop flags. Coordinates reaching the
    probe are never negative, so the source's truncating division and Dafny's
    Euclidean division agree on them. */
module Movement {
  import opened Models
  import opened Board
  import opened Broadcast
  import opened Powerups

  /** What the probe reports; Code gives the source's strings. */
  datatype Probe = Clear | OnCell(cell: Cell) | OnBomb | OnPlayer {
    function Code(): string {
      match this
      case Clear => ""
      case OnCell(c) => c.Code()
      case OnBomb => "B"
      case OnPlayer => "P"
    }
  }

  /** An obstacle: whatever the probe reports except nothing and fire. */
  predicate Blocks(p: Probe) {
    match p
    case Clear => false
    case OnCell(c) => c != Empty && c != Fire
    case OnBomb => true
    case OnPlayer => true
  }

  /** The resolver tests a code against "" and "Ex", the start handler
      against "W", "D", "B" and "P"; both tests are Blocks, and fire and an
      empty probe never block. */
  lemma BlockingCodes(p: Probe)
    ensures Blocks(p) <==> p.Code() != "" && p.Code() != "Ex"
    ensures Blocks(p) <==> p.Code() in {"W", "D", "B", "P"}
    ensures !Blocks(OnCell(Fire)) && !Blocks(Clear)
  {
    if p.OnCell? {
      CellCodes(p.cell, Empty);
      CellCodes(p.cell, Fire);
    }
  }

  // ---------------------------------------------------------------------
  // The probe as a function of the board
  // ---------------------------------------------------------------------

  /** The distinct cells under the four corners of a box at (x, y), visited
      top-left, top-right, bottom-left, bottom-right; a cell under two
      corners is visited once. */
  function CornerCells(x: int, y: int): seq<(int, int)>
    requires 0 <= x && 0 <= y
  {
    var top, bottom := y / CellSize, (y + PlayerSize - 1) / CellSize;
    var left, right := x / CellSize, (x + PlayerSize - 1) / CellSize;
    if top == bottom && left == right then [(top, left)]
    else if top == bottom then [(top, left), (top, right)]
    else if left == right then [(top, left), (bottom, left)]
    else [(top, left), (top, right), (bottom, left), (bottom, right)]
  }

  /** One to four distinct cells: exactly the rows and columns of the box's
      two edges, each the cell of a pixel the box covers. */
  lemma CornerCellsAre(x: int, y: int)
    requires 0 <= x && 0 <= y
    ensures 1 <= |CornerCells(x, y)| <= 4
    ensures forall a, b :: 0 <= a < b < |CornerCells(x, y)| ==> CornerCells(x, y)[a] != CornerCells(x, y)[b]
    ensures forall c :: c in CornerCells(x, y) <==>
      c.0 in {y / CellSize, (y + PlayerSize - 1) / CellSize} &&
      c.1 in {x / CellSize, (x + PlayerSize - 1) / CellSize}
    ensures forall c :: c in CornerCells(x, y) ==>
      exists px, py :: x <= px < x + PlayerSize && y <= py < y + PlayerSize && c == (py / CellSize, px / CellSize)
  {
    var top, bottom := y / CellSize, (y + PlayerSize - 1) / CellSize;
    var left, right := x / CellSize, (x + PlayerSize - 1) / CellSize;
    forall c | c in CornerCells(x, y)
      ensures exists px, py :: x <= px < x + PlayerSize && y <= py < y + PlayerSize && c == (py / CellSize, px / CellSize)
    {
      var px := if c.1 == left then x else x + PlayerSize - 1;
      var py := if c.0 == top then y else y + PlayerSize - 1;
      assert c == (py / CellSize, px / CellSize);
    }
  }

  /** The cells of the four corners of the box at (x, y): top-left,
      top-right, bottom-left, bottom-right. */
  function Corners(x: int, y: int): seq<(int, int)>
    requires 0 <= x && 0 <= y
  {
    var top, bottom := y / CellSize, (y + PlayerSize - 1) / CellSize;
    var left, right := x / CellSize, (x + PlayerSize - 1) / CellSize;
    [(top, left), (top, right), (bottom, left), (bottom, right)]
  }

  /** An order of visiting the four corners, numbered 0 to 3 as in Corners.
      The probe keeps the corner cells as the keys of a Go map, whose
      iteration order is unspecified, so every probe takes its order as a
      parameter. */
  predicate IsCornerOrder(o: seq<int>) {
    |o| == 4 && (forall k :: 0 <= k < 4 ==> 0 <= o[k] < 4) && (forall m :: 0 <= m < 4 ==> m in o)
  }

  type CornerOrder = o: seq<int> | IsCornerOrder(o) witness [0, 1, 2, 3]

  /** `s` without the repetitions of an element after its first occurrence. */
  function Dedup(s: seq<(int, int)>): (r: seq<(int, int)>)
    ensures forall a, b :: 0 <= a < b < |r| ==> r[a] != r[b]
    ensures forall c :: c in r <==> c in s
    ensures s != [] ==> r != [] && r[0] == s[0]
    decreases |s|
  {
    if s == [] then []
    else
      var d := Dedup(s[..|s| - 1]);
      assert s == s[..|s| - 1] + [s[|s| - 1]];
      if s[|s| - 1] in d then d else d + [s[|s| - 1]]
  }

  /** The distinct corner cells of the box at (x, y) in the order `o`
      reaches them: the keys of the source's map in one iteration order. */
  function Visit(x: int, y: int, o: CornerOrder): seq<(int, int)>
    requires 0 <= x && 0 <= y
  {
    var c := Corners(x, y);
    Dedup([c[o[0]], c[o[1]], c[o[2]], c[o[3]]])
  }

  /** The four corners fall in exactly the corner cells. */
  lemma CornersInCells(x: int, y: int)
    requires 0 <= x && 0 <= y
    ensures forall q :: q in Corners(x, y) <==> q in CornerCells(x, y)
  {
    var top, bottom := y / CellSize, (y + PlayerSize - 1) / CellSize;
    var left, right := x / CellSize, (x + PlayerSize - 1) / CellSize;
    assert Corners(x, y) == [(top, left), (top, right), (bottom, left), (bottom, right)];
  }

  /** Whatever the order, the probe visits exactly the corner cells, each
      once, starting with the cell of the corner the order names first. */
  lemma VisitCells(x: int, y: int, o: CornerOrder)
    requires 0 <= x && 0 <= y
    ensures |o| == 4 && 0 <= o[0] < 4
    ensures var v := Visit(x, y, o);
      && (forall a, b :: 0 <= a < b < |v| ==> v[a] != v[b])
      && (forall c :: c in v <==> c in CornerCells(x, y))
      && v != [] && v[0] == Corners(x, y)[o[0]]
  {
    CornersInCells(x, y);
    var c := Corners(x, y);
    var arranged := [c[o[0]], c[o[1]], c[o[2]], c[o[3]]];
    assert Visit(x, y, o) == Dedup(arranged);
    forall q | q in c ensures q in arranged {
      var m :| 0 <= m < 4 && c[m] == q;
      assert m in o;
      var k :| 0 <= k < 4 && o[k] == m;
      assert arranged[k] == q;
    }
    forall q | q in arranged ensures q in c {
      var k :| 0 <= k < 4 && arranged[k] == q;
      assert c[o[k]] == q;
    }
  }

  /** An order visiting corner `m` first. */
  function StartingAt(m: int): (o: CornerOrder)
    requires 0 <= m < 4
    ensures o[0] == m
  {
    if m == 0 then [0, 1, 2, 3]
    else if m == 1 then [1, 0, 2, 3]
    else if m == 2 then [2, 0, 1, 3]
    else [3, 0, 1, 2]
  }

  /** Every corner cell is visited first by some order. */
  lemma SomeOrderFirst(x: int, y: int, c: (int, int))
    requires 0 <= x && 0 <= y && c in CornerCells(x, y)
    ensures exists o: CornerOrder :: Visit(x, y, o)[0] == c
  {
    CornerCellsAre(x, y);
    var m :| 0 <= m < 4 && Corners(x, y)[m] == c;
    VisitCells(x, y, StartingAt(m));
  }

  predicate IsGrid(panel: array2<Cell>) {
    panel.Length0 == NumberOfRows && panel.Length1 == NumberOfColumns
  }

  /** First non-empty in-grid cell among `cells`, in order. */
  function FirstHit(panel: array2<Cell>, cells: seq<(int, int)>): Option<Cell>
    reads panel
    requires IsGrid(panel)
    decreases |cells|
  {
    if cells == [] then None
    else if InGrid(cells[0].0, cells[0].1) && panel[cells[0].0, cells[0].1] != Empty then
      Some(panel[cells[0].0, cells[0].1])
    else FirstHit(panel, cells[1..])
  }

  /** The first hit is a non-empty cell among `cells`; there is none exactly
      when every in-grid cell among them is empty. */
  lemma {:induction false} FirstHitMeaning(panel: array2<Cell>, cells: seq<(int, int)>)
    requires IsGrid(panel)
    ensures var r := FirstHit(panel, cells);
      && (r.Some? ==> (r.value != Empty &&
            exists k :: 0 <= k < |cells| && InGrid(cells[k].0, cells[k].1) && panel[cells[k].0, cells[k].1] == r.value))
      && (r.None? <==> forall k :: 0 <= k < |cells| && InGrid(cells[k].0, cells[k].1) ==>
            panel[cells[k].0, cells[k].1] == Empty)
    decreases |cells|
  {
    if cells != [] {
      FirstHitMeaning(panel, cells[1..]);
      assert forall k :: 1 <= k < |cells| ==> cells[k] == cells[1..][k - 1];
      if FirstHit(panel, cells[1..]).Some? {
        var k :| 0 <= k < |cells[1..]| && InGrid(cells[1..][k].0, cells[1..][k].1) &&
                 panel[cells[1..][k].0, cells[1..][k].1] == FirstHit(panel, cells[1..]).value;
        assert cells[k + 1] == cells[1..][k];
      }
    }
  }

  predicate BoxOverlapsBomb(x: int, y: int, b: Bomb) {
    x < b.xLocation + CellSize && x + PlayerSize > b.xLocation &&
    y < b.yLocation + CellSize && y + PlayerSize > b.yLocation
  }

  /** A bomb blocks player `i` unless it is the player's own bomb still
      flagged as initially intersecting. */
  predicate BombBlocks(b: Bomb, i: int, x: int, y: int) {
    !(b.ownPlayerIndex == i && b.initialIntersection) && BoxOverlapsBomb(x, y, b)
  }

  predicate BoxesOverlap(x: int, y: int, q: Player) {
    x < q.xLocation + PlayerSize && x + PlayerSize > q.xLocation &&
    y < q.yLocation + PlayerSize && y + PlayerSize > q.yLocation
  }

  ghost predicate AnyBombBlocks(bombs: seq<Bomb>, i: int, x: int, y: int) {
    exists k :: 0 <= k < |bombs| && BombBlocks(bombs[k], i, x, y)
  }

  ghost predicate AnyPlayerBlocks(players: seq<Player>, i: int, x: int, y: int) {
    exists j :: 0 <= j < |players| && j != i && !players[j].isDead && BoxesOverlap(x, y, players[j])
  }

  /** Every in-grid corner cell of the box at (x, y) is empty. */
  ghost predicate CornersEmpty(panel: array2<Cell>, x: int, y: int)
    reads panel
    requires IsGrid(panel)
    requires 0 <= x && 0 <= y
  {
    forall c :: c in CornerCells(x, y) && InGrid(c.0, c.1) ==> panel[c.0, c.1] == Empty
  }

  lemma FirstHitNone(panel: array2<Cell>, x: int, y: int, o: CornerOrder)
    requires IsGrid(panel) && 0 <= x && 0 <= y
    ensures FirstHit(panel, Visit(x, y, o)).None? <==> CornersEmpty(panel, x, y)
  {
    var cells := Visit(x, y, o);
    VisitCells(x, y, o);
    FirstHitMeaning(panel, cells);
    assert forall k :: 0 <= k < |cells| ==> cells[k] in cells;
    forall c | c in cells ensures exists k :: 0 <= k < |cells| && cells[k] == c {
      var k :| 0 <= k < |cells| && cells[k] == c;
    }
  }

  /** Some in-grid corner cell of the box at (x, y) holds `cell`. */
  ghost predicate CornerHolds(panel: array2<Cell>, x: int, y: int, cell: Cell)
    reads panel
    requires IsGrid(panel) && 0 <= x && 0 <= y
  {
    exists c :: c in CornerCells(x, y) && InGrid(c.0, c.1) && panel[c.0, c.1] == cell
  }

  /** Some in-grid corner cell of the box at (x, y) holds an obstacle. */
  ghost predicate ObstacleUnder(panel: array2<Cell>, x: int, y: int)
    reads panel
    requires IsGrid(panel) && 0 <= x && 0 <= y
  {
    exists c :: c in CornerCells(x, y) && InGrid(c.0, c.1) && panel[c.0, c.1] != Empty && panel[c.0, c.1] != Fire
  }

  /** In any order the scan of the corner cells finds a non-empty corner
      cell exactly when there is one, and what it finds lies under the box. */
  lemma VisitHit(panel: array2<Cell>, x: int, y: int, o: CornerOrder)
    requires IsGrid(panel) && 0 <= x && 0 <= y
    ensures var r := FirstHit(panel, Visit(x, y, o));
      && (r.None? <==> CornersEmpty(panel, x, y))
      && (r.Some? ==> r.value != Empty && CornerHolds(panel, x, y, r.value))
  {
    var cells := Visit(x, y, o);
    FirstHitNone(panel, x, y, o);
    FirstHitMeaning(panel, cells);
    VisitCells(x, y, o);
    if FirstHit(panel, cells).Some? {
      var k :| 0 <= k < |cells| && InGrid(cells[k].0, cells[k].1) && panel[cells[k].0, cells[k].1] == FirstHit(panel, cells).value;
      assert cells[k] in cells;
    }
  }

  /** Every non-empty in-grid corner cell is what some order finds first. */
  lemma SomeOrderFinds(panel: array2<Cell>, x: int, y: int, c: (int, int))
    requires IsGrid(panel) && 0 <= x && 0 <= y
    requires c in CornerCells(x, y) && InGrid(c.0, c.1) && panel[c.0, c.1] != Empty
    ensures exists o: CornerOrder :: FirstHit(panel, Visit(x, y, o)) == Some(panel[c.0, c.1])
  {
    SomeOrderFirst(x, y, c);
    var o: CornerOrder :| Visit(x, y, o)[0] == c;
    VisitCells(x, y, o);
  }

  /** What FindCollision reports for player `i` with its box at (x, y),
      visiting the corners in the order `o`: a non-empty corner cell first,
      then a bomb, then another living player. */
  ghost function ProbeAt(panel: array2<Cell>, bombs: seq<Bomb>, players: seq<Player>, i: int, x: int, y: int,
                         o: CornerOrder): Probe
    reads panel
    requires IsGrid(panel)
    requires 0 <= x && 0 <= y
  {
    match FirstHit(panel, Visit(x, y, o))
    case Some(c) => OnCell(c)
    case None =>
      if AnyBombBlocks(bombs, i, x, y) then OnBomb
      else if AnyPlayerBlocks(players, i, x, y) then OnPlayer
      else Clear
  }

  /** The probe reports a cell exactly when some in-grid corner cell is not
      empty (and then one of those cells), otherwise a blocking bomb if any,
      otherwise an overlapping living other player if any. */
  lemma ProbeAtMeaning(panel: array2<Cell>, bombs: seq<Bomb>, players: seq<Player>, i: int, x: int, y: int,
                       o: CornerOrder)
    requires IsGrid(panel) && 0 <= x && 0 <= y
    ensures var r := ProbeAt(panel, bombs, players, i, x, y, o);
      && (r.OnCell? <==> !CornersEmpty(panel, x, y))
      && (r.OnCell? ==> r.cell != Empty && CornerHolds(panel, x, y, r.cell))
      && (r.OnBomb? <==> CornersEmpty(panel, x, y) && AnyBombBlocks(bombs, i, x, y))
      && (r.OnPlayer? <==> CornersEmpty(panel, x, y) && !AnyBombBlocks(bombs, i, x, y) && AnyPlayerBlocks(players, i, x, y))
      && (r.Clear? <==> CornersEmpty(panel, x, y) && !AnyBombBlocks(bombs, i, x, y) && !AnyPlayerBlocks(players, i, x, y))
  {
    VisitHit(panel, x, y, o);
  }

  /** The order only decides which non-empty corner cell is reported.
      Whether a cell is reported, and any other answer, is the same in every
      order; two orders disagree on blocking only when fire and an obstacle
      both lie under the box. */
  lemma OrderPicksOnlyTheCell(panel: array2<Cell>, bombs: seq<Bomb>, players: seq<Player>, i: int, x: int, y: int,
                              o1: CornerOrder, o2: CornerOrder)
    requires IsGrid(panel) && 0 <= x && 0 <= y
    ensures var r1, r2 := ProbeAt(panel, bombs, players, i, x, y, o1), ProbeAt(panel, bombs, players, i, x, y, o2);
      && (r1.OnCell? <==> r2.OnCell?)
      && (!r1.OnCell? ==> r1 == r2)
      && (Blocks(r1) != Blocks(r2) ==> CornerHolds(panel, x, y, Fire) && ObstacleUnder(panel, x, y))
  {
    ProbeAtMeaning(panel, bombs, players, i, x, y, o1);
    ProbeAtMeaning(panel, bombs, players, i, x, y, o2);
    var r1, r2 := ProbeAt(panel, bombs, players, i, x, y, o1), ProbeAt(panel, bombs, players, i, x, y, o2);
    if Blocks(r1) != Blocks(r2) {
      var f, w := if r1.cell == Fire then r1 else r2, if r1.cell == Fire then r2 else r1;
      assert CornerHolds(panel, x, y, f.cell) && CornerHolds(panel, x, y, w.cell);
      var c :| c in CornerCells(x, y) && InGrid(c.0, c.1) && panel[c.0, c.1] == w.cell;
    }
  }

  /** Conversely, every non-empty corner cell is what some order reports:
      with fire and an obstacle under the box, one order lets the player
      through and another stops it. */
  lemma EveryCellSomeOrder(panel: array2<Cell>, bombs: seq<Bomb>, players: seq<Player>, i: int, x: int, y: int,
                           c: (int, int))
    requires IsGrid(panel) && 0 <= x && 0 <= y
    requires c in CornerCells(x, y) && InGrid(c.0, c.1) && panel[c.0, c.1] != Empty
    ensures exists o: CornerOrder :: ProbeAt(panel, bombs, players, i, x, y, o) == OnCell(panel[c.0, c.1])
  {
    SomeOrderFinds(panel, x, y, c);
    var o: CornerOrder :| FirstHit(panel, Visit(x, y, o)) == Some(panel[c.0, c.1]);
    assert ProbeAt(panel, bombs, players, i, x, y, o) == OnCell(panel[c.0, c.1]);
  }

  /** Two player lists that agree on everyone but player `i`. */
  ghost predicate SameOthers(ps: seq<Player>, qs: seq<Player>, i: int) {
    |ps| == |qs| && forall j :: 0 <= j < |ps| && j != i ==> ps[j] == qs[j]
  }

  /** The probe never looks at the prober's own record, only at its box. */
  lemma ProbeIgnoresProber(panel: array2<Cell>, bombs: seq<Bomb>, ps: seq<Player>, qs: seq<Player>, i: int, x: int, y: int,
                           o: CornerOrder)
    requires IsGrid(panel) && 0 <= x && 0 <= y
    requires SameOthers(ps, qs, i)
    ensures ProbeAt(panel, bombs, ps, i, x, y, o) == ProbeAt(panel, bombs, qs, i, x, y, o)
  {
    if AnyPlayerBlocks(ps, i, x, y) {
      var j :| 0 <= j < |ps| && j != i && !ps[j].isDead && BoxesOverlap(x, y, ps[j]);
      assert qs[j] == ps[j];
    }
    if AnyPlayerBlocks(qs, i, x, y) {
      var j :| 0 <= j < |qs| && j != i && !qs[j].isDead && BoxesOverlap(x, y, qs[j]);
      assert qs[j] == ps[j];
    }
  }

  /** Sum of the values of the eaten powerups of one kind. */
  function Gain(eaten: seq<Powerup>, kind: PowerupType): int
  {
    if eaten == [] then 0
    else Gain(eaten[..|eaten| - 1], kind) + (if eaten[|eaten| - 1].kind == kind then eaten[|eaten| - 1].value else 0)
  }

  lemma {:induction false} GainAppend(a: seq<Powerup>, b: seq<Powerup>, kind: PowerupType)
    ensures Gain(a + b, kind) == Gain(a, kind) + Gain(b, kind)
    decreases |b|
  {
    if b == [] {
      assert a + b == a;
    } else {
      assert (a + b)[..|a + b| - 1] == a + b[..|b| - 1];
      GainAppend(a, b[..|b| - 1], kind);
    }
  }

  // ---------------------------------------------------------------------
  // FindCollision
  // ---------------------------------------------------------------------

  /** The prober after eating `eaten`, in order. */
  function Grown(p: Player, eaten: seq<Powerup>): Player
  {
    if eaten == [] then p else Eat(Grown(p, eaten[..|eaten| - 1]), eaten[|eaten| - 1])
  }

  lemma {:induction false} GrownAppend(p: Player, a: seq<Powerup>, b: seq<Powerup>)
    ensures Grown(p, a + b) == Grown(Grown(p, a), b)
    decreases |b|
  {
    if b == [] {
      assert a + b == a;
    } else {
      assert (a + b)[..|a + b| - 1] == a + b[..|b| - 1];
      GrownAppend(p, a, b[..|b| - 1]);
    }
  }

  /** Eating only grows the four stats, each by the values of its kind eaten. */
  lemma {:induction false} GrownStats(p: Player, eaten: seq<Powerup>)
    ensures WithStatsOf(Grown(p, eaten), p) == p
    ensures forall kind :: Stat(Grown(p, eaten), kind) == Stat(p, kind) + Gain(eaten, kind)
    decreases |eaten|
  {
    if eaten != [] {
      GrownStats(p, eaten[..|eaten| - 1]);
    }
  }

  /** The effect of the probe so far: the prober ate `eaten`, nobody else changed. */
  ghost predicate Ate(ps0: seq<Player>, ps: seq<Player>, i: int, eaten: seq<Powerup>)
    requires 0 <= i < |ps0|
  {
    && |ps| == |ps0|
    && (forall j :: 0 <= j < |ps| && j != i ==> ps[j] == ps0[j])
    && ps[i] == Grown(ps0[i], eaten)
  }

  /** One corner cell of the probe: a visible powerup lying on an empty
      in-grid cell is eaten by player `i`. */
  method EatAtCell(g: GameBoard, i: int, row: int, column: int) returns (ghost eaten: seq<Powerup>)
    requires IsGrid(g.panel) && 0 <= i < |g.players| && InGrid(row, column)
    modifies g`powerups, g`players, g`broadcast
    ensures Ate(old(g.players), g.players, i, eaten)
    ensures g.players[i].xLocation == old(g.players[i].xLocation) && g.players[i].yLocation == old(g.players[i].yLocation)
    ensures multiset(g.powerups) + multiset(eaten) == multiset(old(g.powerups))
    ensures |eaten| <= 1
    ensures forall e :: 0 <= e < |eaten| ==> VisibleAt(eaten[e], row, column)
    ensures eaten == [] <==> g.panel[row, column] != Empty || IndexOfVisible(old(g.powerups), row, column) == -1
  {
    eaten := [];
    var cellContent := g.panel[row, column];
    var powerupIndex := FindPowerupAt(g, row, column);
    if cellContent == Empty && powerupIndex != -1 {
      ghost var pu := g.powerups[powerupIndex];
      ghost var ps := g.powerups;
      EatPowerup(g, i, powerupIndex);
      assert multiset(g.powerups) + multiset{pu} == multiset(ps);
      assert [pu][..0] == [];
      eaten := [pu];
    }
  }

  /** The corner-cell scan in the order `o`. It visits the corner cells up
      to the first non-empty in-grid one, which it returns; `visited` counts
      the cells it passed before that one (all of them when there is none).
      On every passed in-grid cell holding a visible powerup it eats one, and
      it eats nowhere else. */
  method ScanCorners(g: GameBoard, i: int, o: CornerOrder)
    returns (hit: Option<Cell>, ghost eaten: seq<Powerup>, ghost visited: nat)
    requires IsGrid(g.panel) && 0 <= i < |g.players|
    requires g.players[i].xLocation >= 0 && g.players[i].yLocation >= 0
    modifies g`powerups, g`players, g`broadcast
    ensures Ate(old(g.players), g.players, i, eaten)
    ensures g.players[i].xLocation == old(g.players[i].xLocation) && g.players[i].yLocation == old(g.players[i].yLocation)
    ensures multiset(g.powerups) + multiset(eaten) == multiset(old(g.powerups))
    ensures var cells := Visit(old(g.players[i].xLocation), old(g.players[i].yLocation), o);
      && hit == FirstHit(g.panel, cells)
      && visited <= |cells|
      && PassedEmpty(g.panel, cells, visited)
      && (hit.None? ==> visited == |cells|)
      && (hit.Some? ==> visited < |cells| && InGrid(cells[visited].0, cells[visited].1) &&
                        hit.value == g.panel[cells[visited].0, cells[visited].1] != Empty)
      && EatenOn(g.panel, eaten, cells[..visited])
      && Covered(old(g.powerups), eaten, cells[..visited])
  {
    var x, y := g.players[i].xLocation, g.players[i].yLocation;
    var cells := Visit(x, y, o);
    VisitCells(x, y, o);
    hit, eaten, visited := ScanCells(g, i, cells);
    GrownKeepsPlace(old(g.players[i]), eaten);
  }

  /** Eating changes stats only: the eater stays where it is. */
  lemma {:induction false} GrownKeepsPlace(p: Player, eaten: seq<Powerup>)
    ensures Grown(p, eaten).xLocation == p.xLocation && Grown(p, eaten).yLocation == p.yLocation
    decreases |eaten|
  {
    if eaten != [] {
      GrownKeepsPlace(p, eaten[..|eaten| - 1]);
    }
  }

  /** The scan loop over a list of distinct cells. */
  method ScanCells(g: GameBoard, i: int, cells: seq<(int, int)>)
    returns (hit: Option<Cell>, ghost eaten: seq<Powerup>, ghost visited: nat)
    requires IsGrid(g.panel) && 0 <= i < |g.players|
    requires forall a, b :: 0 <= a < b < |cells| ==> cells[a] != cells[b]
    modifies g`powerups, g`players, g`broadcast
    ensures Ate(old(g.players), g.players, i, eaten)
    ensures hit == FirstHit(g.panel, cells)
    ensures multiset(g.powerups) + multiset(eaten) == multiset(old(g.powerups))
    ensures visited <= |cells|
    ensures PassedEmpty(g.panel, cells, visited)
    ensures hit.None? ==> visited == |cells|
    ensures hit.Some? ==> visited < |cells| && InGrid(cells[visited].0, cells[visited].1) &&
                          hit.value == g.panel[cells[visited].0, cells[visited].1] != Empty
    ensures EatenOn(g.panel, eaten, cells[..visited])
    ensures Covered(old(g.powerups), eaten, cells[..visited])
  {
    eaten := [];
    var k := 0;
    while k < |cells|
      invariant 0 <= k <= |cells|
      invariant ScanInv(g, i, old(g.players), old(g.powerups), eaten, cells, k)
      invariant Covered(old(g.powerups), eaten, cells[..k])
      invariant PassedEmpty(g.panel, cells, k)
      invariant FirstHit(g.panel, cells) == FirstHit(g.panel, cells[k..])
    {
      var stop;
      stop, eaten := VisitCorner(g, i, cells, k, old(g.players), old(g.powerups), eaten);
      if stop {
        var (row, col) := cells[k];
        NotEatenAtHit(g.panel, eaten, cells, k);
        hit := Some(g.panel[row, col]);
        visited := k;
        return;
      }
      k := k + 1;
    }
    assert cells[..k] == cells;
    hit := None;
    visited := k;
  }

  /** Every in-grid cell among the first `k` of `cells` is empty. */
  ghost predicate PassedEmpty(panel: array2<Cell>, cells: seq<(int, int)>, k: int)
    reads panel
    requires IsGrid(panel) && k <= |cells|
  {
    forall m :: 0 <= m < k && InGrid(cells[m].0, cells[m].1) ==> panel[cells[m].0, cells[m].1] == Empty
  }

  /** Nothing is eaten on a non-empty cell, so a meal within `cells[..k + 1]`
      whose last cell is not empty lies within `cells[..k]`. */
  lemma NotEatenAtHit(panel: array2<Cell>, eaten: seq<Powerup>, cells: seq<(int, int)>, k: int)
    requires IsGrid(panel) && 0 <= k < |cells|
    requires EatenOn(panel, eaten, cells[..k + 1])
    requires InGrid(cells[k].0, cells[k].1) && panel[cells[k].0, cells[k].1] != Empty
    ensures EatenOn(panel, eaten, cells[..k])
  {
    assert cells[..k + 1] == cells[..k] + [cells[k]];
  }

  /** EatenOn and Covered depend only on which cells are listed. */
  lemma SameCells(panel: array2<Cell>, pus0: seq<Powerup>, eaten: seq<Powerup>,
                  cells1: seq<(int, int)>, cells2: seq<(int, int)>)
    requires IsGrid(panel)
    requires forall c :: c in cells1 <==> c in cells2
    ensures EatenOn(panel, eaten, cells1) ==> EatenOn(panel, eaten, cells2)
    ensures Covered(pus0, eaten, cells1) ==> Covered(pus0, eaten, cells2)
  {
    if Covered(pus0, eaten, cells1) {
      forall m | 0 <= m < |cells2| && InGrid(cells2[m].0, cells2[m].1) && IndexOfVisible(pus0, cells2[m].0, cells2[m].1) != -1
        ensures exists e :: 0 <= e < |eaten| && eaten[e].row == cells2[m].0 && eaten[e].column == cells2[m].1
      {
        assert cells2[m] in cells2;
        var m1 :| 0 <= m1 < |cells1| && cells1[m1] == cells2[m];
      }
    }
  }

  /** The bookkeeping the corner scan keeps after visiting `cells[..k]`. */
  ghost predicate ScanInv(g: GameBoard, i: int, ps0: seq<Player>, pus0: seq<Powerup>, eaten: seq<Powerup>,
                          cells: seq<(int, int)>, k: int)
    reads g, g.panel
    requires IsGrid(g.panel)
  {
    && 0 <= i < |ps0|
    && 0 <= k <= |cells|
    && Ate(ps0, g.players, i, eaten)
    && multiset(g.powerups) + multiset(eaten) == multiset(pus0)
    && EatenOn(g.panel, eaten, cells[..k])
  }

  lemma EatenOnPrefix(panel: array2<Cell>, eaten: seq<Powerup>, cells: seq<(int, int)>, k: int)
    requires IsGrid(panel) && 0 <= k <= |cells|
    requires EatenOn(panel, eaten, cells[..k])
    ensures EatenOn(panel, eaten, cells)
  {
    forall e | 0 <= e < |eaten| ensures (eaten[e].row, eaten[e].column) in cells {
      assert (eaten[e].row, eaten[e].column) in cells[..k];
    }
  }

  /** One iteration of the corner scan: visits `cells[k]`, eating there if
      it is an empty in-grid cell with a visible powerup; stops on a
      non-empty in-grid cell. */
  method VisitCorner(g: GameBoard, i: int, cells: seq<(int, int)>, k: int,
                     ghost ps0: seq<Player>, ghost pus0: seq<Powerup>, ghost eaten0: seq<Powerup>)
    returns (stop: bool, ghost eaten: seq<Powerup>)
    requires IsGrid(g.panel) && (forall a, b :: 0 <= a < b < |cells| ==> cells[a] != cells[b])
    requires k < |cells| && ScanInv(g, i, ps0, pus0, eaten0, cells, k)
    requires Covered(pus0, eaten0, cells[..k]) && PassedEmpty(g.panel, cells, k)
    modifies g`powerups, g`players, g`broadcast
    ensures ScanInv(g, i, ps0, pus0, eaten, cells, k + 1)
    ensures !stop ==> PassedEmpty(g.panel, cells, k + 1)
    ensures stop ==> eaten == eaten0
    ensures stop <==> InGrid(cells[k].0, cells[k].1) && g.panel[cells[k].0, cells[k].1] != Empty
    ensures !stop ==> Covered(pus0, eaten, cells[..k + 1])
    ensures FirstHit(g.panel, cells[k..]) == if stop then Some(g.panel[cells[k].0, cells[k].1]) else FirstHit(g.panel, cells[k + 1..])
  {
    var (row, col) := cells[k];
    assert cells[k..][1..] == cells[k + 1..];
    VisibleStillThere(pus0, g.powerups, eaten0, cells, k, row, col);
    if 0 <= row < NumberOfRows && 0 <= col < NumberOfColumns {
      ghost var ps := g.players;
      ghost var pus := g.powerups;
      var e := EatAtCell(g, i, row, col);
      AteTrans(ps0, ps, g.players, i, eaten0, e);
      ScanStep(g.panel, pus0, pus, eaten0, e, cells, k);
      eaten := eaten0 + e;
      stop := g.panel[row, col] != Empty;
      if stop {
        assert eaten == eaten0 + [];
      }
    } else {
      ScanStep(g.panel, pus0, g.powerups, eaten0, [], cells, k);
      assert eaten0 + [] == eaten0;
      eaten := eaten0;
      stop := false;
    }
  }

  /** Everything eaten is a visible powerup on an empty in-grid cell among `cells`. */
  ghost predicate EatenOn(panel: array2<Cell>, eaten: seq<Powerup>, cells: seq<(int, int)>)
    reads panel
    requires IsGrid(panel)
  {
    forall e :: 0 <= e < |eaten| ==>
      && !eaten[e].isHidden
      && (eaten[e].row, eaten[e].column) in cells
      && InGrid(eaten[e].row, eaten[e].column)
      && panel[eaten[e].row, eaten[e].column] == Empty
  }

  /** Every in-grid cell among `cells` that held a visible powerup at the start got one eaten. */
  ghost predicate Covered(ps0: seq<Powerup>, eaten: seq<Powerup>, cells: seq<(int, int)>)
  {
    forall m :: 0 <= m < |cells| && InGrid(cells[m].0, cells[m].1) && IndexOfVisible(ps0, cells[m].0, cells[m].1) != -1 ==>
      exists e :: 0 <= e < |eaten| && eaten[e].row == cells[m].0 && eaten[e].column == cells[m].1
  }

  /** One step of the corner scan keeps EatenOn and Covered. */
  lemma ScanStep(panel: array2<Cell>, ps0: seq<Powerup>, ps: seq<Powerup>, eaten: seq<Powerup>, e: seq<Powerup>,
                 cells: seq<(int, int)>, k: int)
    requires IsGrid(panel) && 0 <= k < |cells|
    requires EatenOn(panel, eaten, cells[..k]) && Covered(ps0, eaten, cells[..k])
    requires IndexOfVisible(ps0, cells[k].0, cells[k].1) != -1 ==> IndexOfVisible(ps, cells[k].0, cells[k].1) != -1
    requires |e| <= 1
    requires forall m :: 0 <= m < |e| ==> VisibleAt(e[m], cells[k].0, cells[k].1)
    requires InGrid(cells[k].0, cells[k].1) ==>
      (e == [] <==> panel[cells[k].0, cells[k].1] != Empty || IndexOfVisible(ps, cells[k].0, cells[k].1) == -1)
    requires !InGrid(cells[k].0, cells[k].1) ==> e == []
    ensures EatenOn(panel, eaten + e, cells[..k + 1])
    ensures InGrid(cells[k].0, cells[k].1) && panel[cells[k].0, cells[k].1] == Empty ==>
      Covered(ps0, eaten + e, cells[..k + 1])
    ensures !InGrid(cells[k].0, cells[k].1) ==> Covered(ps0, eaten + e, cells[..k + 1])
  {
    assert cells[..k + 1] == cells[..k] + [cells[k]];
    var all := eaten + e;
    forall m | 0 <= m < |eaten| ensures all[m] == eaten[m] { }
    if !InGrid(cells[k].0, cells[k].1) || panel[cells[k].0, cells[k].1] == Empty {
      var q := cells[..k + 1];
      forall m | 0 <= m < |q| && InGrid(q[m].0, q[m].1) && IndexOfVisible(ps0, q[m].0, q[m].1) != -1
        ensures exists j :: 0 <= j < |all| && all[j].row == q[m].0 && all[j].column == q[m].1
      {
        if m < k {
          assert q[m] == cells[..k][m];
          var j :| 0 <= j < |eaten| && eaten[j].row == cells[..k][m].0 && eaten[j].column == cells[..k][m].1;
          assert all[j] == eaten[j];
        } else {
          assert all[|eaten|] == e[0];
        }
      }
    }
  }

  lemma AteIsUpdate(ps0: seq<Player>, ps: seq<Player>, i: int, eaten: seq<Powerup>)
    requires 0 <= i < |ps0| && Ate(ps0, ps, i, eaten)
    ensures ps == ps0[i := Grown(ps0[i], eaten)]
  {
  }

  lemma AteTrans(ps0: seq<Player>, ps1: seq<Player>, ps2: seq<Player>, i: int, e1: seq<Powerup>, e2: seq<Powerup>)
    requires 0 <= i < |ps0|
    requires Ate(ps0, ps1, i, e1) && Ate(ps1, ps2, i, e2)
    ensures Ate(ps0, ps2, i, e1 + e2)
  {
    GrownAppend(ps0[i], e1, e2);
  }

  lemma EatenWithin(eaten: seq<Powerup>, e: seq<Powerup>, cells: seq<(int, int)>, k: int)
    requires 0 <= k < |cells|
    requires forall m :: 0 <= m < |eaten| ==> (eaten[m].row, eaten[m].column) in cells[..k]
    requires forall m :: 0 <= m < |e| ==> (e[m].row, e[m].column) == cells[k]
    ensures forall m :: 0 <= m < |eaten + e| ==> ((eaten + e)[m].row, (eaten + e)[m].column) in cells[..k + 1]
  {
    assert cells[..k + 1] == cells[..k] + [cells[k]];
  }

  /** A visible powerup at cell `cells[k]` at entry is still in the list:
      everything eaten so far lay at earlier, different cells. */
  lemma VisibleStillThere(ps0: seq<Powerup>, ps: seq<Powerup>, eaten: seq<Powerup>,
                          cells: seq<(int, int)>, k: int, row: int, column: int)
    requires 0 <= k < |cells| && cells[k] == (row, column)
    requires forall a, b :: 0 <= a < b < |cells| ==> cells[a] != cells[b]
    requires multiset(ps) + multiset(eaten) == multiset(ps0)
    requires forall e :: 0 <= e < |eaten| ==> (eaten[e].row, eaten[e].column) in cells[..k]
    ensures IndexOfVisible(ps0, row, column) != -1 ==> IndexOfVisible(ps, row, column) != -1
  {
    var r0 := IndexOfVisible(ps0, row, column);
    if r0 != -1 {
      var p := ps0[r0];
      assert p in multiset(ps0);
      assert (row, column) !in cells[..k] by {
        forall m | 0 <= m < k ensures cells[..k][m] != (row, column) {
          assert cells[..k][m] == cells[m];
        }
      }
      assert p !in eaten;
      assert p in multiset(ps);
      var q :| 0 <= q < |ps| && ps[q] == p;
      assert VisibleAt(ps[q], row, column);
    }
  }

  method BombInTheWay(bombs: seq<Bomb>, i: int, x: int, y: int) returns (b: bool)
    ensures b == AnyBombBlocks(bombs, i, x, y)
  {
    var k := 0;
    while k < |bombs|
      invariant 0 <= k <= |bombs|
      invariant forall m :: 0 <= m < k ==> !BombBlocks(bombs[m], i, x, y)
    {
      var bomb := bombs[k];
      if !(bomb.ownPlayerIndex == i && bomb.initialIntersection) {
        if x < bomb.xLocation + CellSize && x + PlayerSize > bomb.xLocation &&
           y < bomb.yLocation + CellSize && y + PlayerSize > bomb.yLocation {
          return true;
        }
      }
      k := k + 1;
    }
    return false;
  }

  method PlayerInTheWay(players: seq<Player>, i: int, x: int, y: int) returns (b: bool)
    ensures b == AnyPlayerBlocks(players, i, x, y)
  {
    var j := 0;
    while j < |players|
      invariant 0 <= j <= |players|
      invariant forall m :: 0 <= m < j && m != i && !players[m].isDead ==> !BoxesOverlap(x, y, players[m])
    {
      var other := players[j];
      if j != i && !other.isDead {
        if x < other.xLocation + PlayerSize && x + PlayerSize > other.xLocation &&
           y < other.yLocation + PlayerSize && y + PlayerSize > other.yLocation {
          return true;
        }
      }
      j := j + 1;
    }
    return false;
  }

  /** Probes player `i`'s box: corner cells in the order `o`, then bombs,
      then other living players. Visible powerups on empty corner cells
      visited before the first non-empty one are eaten; `eaten` lists them. */
  method FindCollision(g: GameBoard, i: int, o: CornerOrder) returns (r: Probe, ghost eaten: seq<Powerup>)
    requires IsGrid(g.panel) && 0 <= i < |g.players|
    requires g.players[i].xLocation >= 0 && g.players[i].yLocation >= 0
    modifies g`powerups, g`players, g`broadcast
    ensures Ate(old(g.players), g.players, i, eaten)
    ensures g.players[i].xLocation == old(g.players[i].xLocation) && g.players[i].yLocation == old(g.players[i].yLocation)
    ensures r == ProbeAt(g.panel, g.bombs, old(g.players), i, old(g.players[i].xLocation), old(g.players[i].yLocation), o)
    ensures multiset(g.powerups) + multiset(eaten) == multiset(old(g.powerups))
    ensures EatenOn(g.panel, eaten, CornerCells(old(g.players[i].xLocation), old(g.players[i].yLocation)))
    ensures !r.OnCell? ==> Covered(old(g.powerups), eaten, CornerCells(old(g.players[i].xLocation), old(g.players[i].yLocation)))
  {
    var hit;
    ghost var visited;
    hit, eaten, visited := ScanCorners(g, i, o);
    var x, y := g.players[i].xLocation, g.players[i].yLocation;
    ghost var cells := Visit(x, y, o);
    VisitCells(x, y, o);
    EatenOnPrefix(g.panel, eaten, cells, visited);
    SameCells(g.panel, old(g.powerups), eaten, cells, CornerCells(x, y));
    if hit.None? {
      assert cells[..visited] == cells;
      SameCells(g.panel, old(g.powerups), eaten, cells, CornerCells(x, y));
    }
    ProbeIgnoresProber(g.panel, g.bombs, old(g.players), g.players, i, x, y, o);
    if hit.Some? {
      return OnCell(hit.value), eaten;
    }
    var onBomb := BombInTheWay(g.bombs, i, x, y);
    if onBomb {
      return OnBomb, eaten;
    }
    var onPlayer := PlayerInTheWay(g.players, i, x, y);
    if onPlayer {
      return OnPlayer, eaten;
    }
    return Clear, eaten;
  }

  // ---------------------------------------------------------------------
  // MovePlayer: the positions it tries, as functions
  // ---------------------------------------------------------------------

  /** Cell index of the centre of a box whose edge is at `v`. */
  function CenterCell(v: int): int {
    (v + PlayerSize / 2) / CellSize
  }

  lemma CenterInGrid(x: int, y: int)
    requires 0 <= x <= MaxX && 0 <= y <= MaxY
    ensures InGrid(CenterCell(y), CenterCell(x))
  {
  }

  /** The full step in `direction`, clamped on the moved axis so the box
      stays in the grid; an unknown direction stays put. */
  function Candidate(x: int, y: int, step: int, direction: Direction): (c: (int, int))
    ensures direction.Other? ==> c == (x, y)
    ensures (direction == Up || direction == Down) ==> c.0 == x
    ensures (direction == Left || direction == Right) ==> c.1 == y
    ensures 0 <= x <= MaxX && 0 <= y <= MaxY && step >= 0 ==>
      && 0 <= c.0 <= MaxX && 0 <= c.1 <= MaxY
      && (direction == Up ==> y - step <= c.1 <= y && (c.1 == y - step || c.1 == 0))
      && (direction == Down ==> y <= c.1 <= y + step && (c.1 == y + step || c.1 == MaxY))
      && (direction == Left ==> x - step <= c.0 <= x && (c.0 == x - step || c.0 == 0))
      && (direction == Right ==> x <= c.0 <= x + step && (c.0 == x + step || c.0 == MaxX))
  {
    if direction == Up then (x, if y - step < 0 then 0 else y - step)
    else if direction == Down then (x, if y + step + PlayerSize > NumberOfRows * CellSize then NumberOfRows * CellSize - PlayerSize else y + step)
    else if direction == Left then (if x - step < 0 then 0 else x - step, y)
    else if direction == Right then (if x + step + PlayerSize > NumberOfColumns * CellSize then NumberOfColumns * CellSize - PlayerSize else x + step, y)
    else (x, y)
  }

  /** The coordinate is within the tolerance of a cell boundary. */
  predicate NearBoundary(v: int) {
    v % CellSize <= MovementTolerance || CellSize - v % CellSize <= MovementTolerance
  }

  /** A coordinate whose offset past a cell boundary is at least
      CellSize - movementTolerance rounds up to the next boundary without
      passing a bound that lies closer than that past its own boundary. */
  lemma RoundUpFits(v: int, m: int)
    requires 0 <= v <= m
    requires m % CellSize < CellSize - MovementTolerance
    requires CellSize - v % CellSize <= MovementTolerance
    ensures v + CellSize - v % CellSize <= m
  {
    var q, bound := v / CellSize, m / CellSize;
    assert v == CellSize * q + v % CellSize;
    assert m == CellSize * bound + m % CellSize;
    assert q < bound;
  }

  /** Rounding down or up to a cell boundary lands on a multiple of CellSize. */
  lemma RoundAligns(v: int)
    requires 0 <= v
    ensures (v - v % CellSize) % CellSize == 0
    ensures (v + CellSize - v % CellSize) % CellSize == 0
  {
    assert v - v % CellSize == CellSize * (v / CellSize);
    assert v + CellSize - v % CellSize == CellSize * (v / CellSize + 1);
  }

  /** One coordinate moved to the nearest cell boundary when it is within
      the tolerance of one; the flag says whether it moved. */
  function SnapAxis(v: int): (r: (int, bool))
    requires 0 <= v
    ensures r.1 <==> NearBoundary(v)
    ensures !r.1 ==> r.0 == v
    ensures r.1 ==> r.0 % CellSize == 0 && v - MovementTolerance <= r.0 <= v + MovementTolerance
    ensures 0 <= r.0
    ensures v <= MaxX ==> r.0 <= MaxX
    ensures v <= MaxY ==> r.0 <= MaxY
  {
    var offset := v % CellSize;
    if offset <= MovementTolerance then
      RoundAligns(v);
      (v - offset, true)
    else if CellSize - offset <= MovementTolerance then
      RoundUpFitsBoth(v);
      (v + CellSize - offset, true)
    else (v, false)
  }

  lemma RoundUpFitsBoth(v: int)
    requires 0 <= v && CellSize - v % CellSize <= MovementTolerance
    ensures (v + CellSize - v % CellSize) % CellSize == 0
    ensures v <= MaxX ==> v + CellSize - v % CellSize <= MaxX
    ensures v <= MaxY ==> v + CellSize - v % CellSize <= MaxY
  {
    if v <= MaxX {
      RoundUpFits(v, MaxX);
    }
    if v <= MaxY {
      RoundUpFits(v, MaxY);
    }
    RoundAligns(v);
  }

  /** Aligns the coordinate across the direction of travel with the nearest
      cell boundary when it is within the tolerance; the flag says whether it
      snapped. */
  function Snap(x: int, y: int, direction: Direction): (r: ((int, int), bool))
    requires 0 <= x && 0 <= y
    ensures r.1 <==> ((direction == Left || direction == Right) && NearBoundary(y)) || ((direction == Up || direction == Down) && NearBoundary(x))
    ensures !r.1 ==> r.0 == (x, y)
    ensures r.1 && (direction == Left || direction == Right) ==>
      r.0.0 == x && r.0.1 % CellSize == 0 && y - MovementTolerance <= r.0.1 <= y + MovementTolerance
    ensures r.1 && (direction == Up || direction == Down) ==>
      r.0.1 == y && r.0.0 % CellSize == 0 && x - MovementTolerance <= r.0.0 <= x + MovementTolerance
    ensures 0 <= x <= MaxX && 0 <= y <= MaxY ==> 0 <= r.0.0 <= MaxX && 0 <= r.0.1 <= MaxY
    ensures 0 <= r.0.0 && 0 <= r.0.1
  {
    if direction == Left || direction == Right then
      var s := SnapAxis(y);
      ((x, s.0), s.1)
    else if direction == Up || direction == Down then
      var s := SnapAxis(x);
      ((s.0, y), s.1)
    else ((x, y), false)
  }

  /** The one-pixel fallback from the original position, clamped on both axes. */
  function Nudge(x: int, y: int, direction: Direction): (n: (int, int))
    ensures 0 <= n.0 <= MaxX && 0 <= n.1 <= MaxY
    ensures 0 <= x <= MaxX && 0 <= y <= MaxY ==>
      && (direction == Up ==> n == (x, if y == 0 then 0 else y - 1))
      && (direction == Down ==> n == (x, if y == MaxY then MaxY else y + 1))
      && (direction == Left ==> n == (if x == 0 then 0 else x - 1, y))
      && (direction == Right ==> n == (if x == MaxX then MaxX else x + 1, y))
      && (direction.Other? ==> n == (x, y))
  {
    var moved :=
      if direction == Up then (x, y - 1)
      else if direction == Down then (x, y + 1)
      else if direction == Left then (x - 1, y)
      else if direction == Right then (x + 1, y)
      else (x, y);
    var nx, ny := moved.0, moved.1;
    (if nx < 0 then 0 else if nx + PlayerSize > NumberOfColumns * CellSize then NumberOfColumns * CellSize - PlayerSize else nx,
     if ny < 0 then 0 else if ny + PlayerSize > NumberOfRows * CellSize then NumberOfRows * CellSize - PlayerSize else ny)
  }

  /** The box at `q` is inside the grid and the probe there, visiting the
      corners in the order `o`, reports no obstacle. */
  ghost predicate ClearAt(panel: array2<Cell>, bombs: seq<Bomb>, players: seq<Player>, i: int, q: (int, int),
                          o: CornerOrder)
    reads panel
    requires IsGrid(panel)
  {
    0 <= q.0 && 0 <= q.1 && !Blocks(ProbeAt(panel, bombs, players, i, q.0, q.1, o))
  }

  /** The corner orders of the three probes of one movement step: at the
      full step, at the retest after the snap, and at the one-pixel step. */
  datatype ProbeOrders = ProbeOrders(step: CornerOrder, retest: CornerOrder, nudge: CornerOrder)

  /** The resolver's decision for player `i`, read off the board as it was
      when the move began: whether the move succeeds and where the box ends.
      The full step is taken if clear. Otherwise the box snaps and is
      retested: a clear retest keeps the snapped position, but when the snap
      did not move the box the move is refused and the box goes back. A
      blocked retest falls back to the one-pixel step, taken if clear;
      otherwise the box stays. */
  ghost function Resolve(panel: array2<Cell>, bombs: seq<Bomb>, players: seq<Player>, i: int, direction: Direction,
                         os: ProbeOrders): (r: (bool, (int, int)))
    reads panel
    requires IsGrid(panel) && 0 <= i < |players| && PlayerInBounds(players[i])
    ensures !r.0 ==> r.1 == (players[i].xLocation, players[i].yLocation)
    ensures r.0 ==>
      var c := Candidate(players[i].xLocation, players[i].yLocation, players[i].stepSize, direction);
      || (r.1 == c && ClearAt(panel, bombs, players, i, c, os.step))
      || (r.1 == Snap(c.0, c.1, direction).0 && ClearAt(panel, bombs, players, i, r.1, os.retest))
      || (r.1 == Nudge(players[i].xLocation, players[i].yLocation, direction) && ClearAt(panel, bombs, players, i, r.1, os.nudge))
  {
    var p := players[i];
    var orig := (p.xLocation, p.yLocation);
    var c := Candidate(p.xLocation, p.yLocation, p.stepSize, direction);
    var s := Snap(c.0, c.1, direction);
    var n := Nudge(p.xLocation, p.yLocation, direction);
    if ClearAt(panel, bombs, players, i, c, os.step) then (true, c)
    else if ClearAt(panel, bombs, players, i, s.0, os.retest) then (if s.1 then (true, s.0) else (false, orig))
    else if ClearAt(panel, bombs, players, i, n, os.nudge) then (true, n)
    else (false, orig)
  }

  /** Wherever the move ends, the box is inside the grid. */
  lemma ResolveInBounds(panel: array2<Cell>, bombs: seq<Bomb>, players: seq<Player>, i: int, direction: Direction,
                        os: ProbeOrders)
    requires IsGrid(panel) && 0 <= i < |players| && PlayerInBounds(players[i])
    ensures var d := Resolve(panel, bombs, players, i, direction, os).1;
      0 <= d.0 <= MaxX && 0 <= d.1 <= MaxY
  {
  }

  /** The refusal after a clear retest without a snap: the retest probed the
      very box the full step's probe found blocked, so the two probes
      reached different corner cells first. That needs two different orders
      and both fire and an obstacle under the box. */
  lemma UnsnappedRetest(panel: array2<Cell>, bombs: seq<Bomb>, players: seq<Player>, i: int, direction: Direction,
                        os: ProbeOrders)
    requires IsGrid(panel) && 0 <= i < |players| && PlayerInBounds(players[i])
    ensures var p := players[i];
      var c := Candidate(p.xLocation, p.yLocation, p.stepSize, direction);
      var s := Snap(c.0, c.1, direction);
      !ClearAt(panel, bombs, players, i, c, os.step) && !s.1 && ClearAt(panel, bombs, players, i, s.0, os.retest) ==>
        && Resolve(panel, bombs, players, i, direction, os) == (false, (p.xLocation, p.yLocation))
        && os.step != os.retest
        && CornerHolds(panel, c.0, c.1, Fire) && ObstacleUnder(panel, c.0, c.1)
  {
    var p := players[i];
    var c := Candidate(p.xLocation, p.yLocation, p.stepSize, direction);
    OrderPicksOnlyTheCell(panel, bombs, players, i, c.0, c.1, os.step, os.retest);
  }

  /** An unknown direction never moves the box. The step succeeds when the
      current box is clear; after a blocked probe, a clear retest refuses (it
      did not snap) and a blocked one leaves the one-pixel probe of the same
      box to decide. With one order for all three probes this is just
      whether the current box is clear. */
  lemma UnknownDirectionStays(panel: array2<Cell>, bombs: seq<Bomb>, players: seq<Player>, i: int, direction: Direction,
                              os: ProbeOrders)
    requires IsGrid(panel) && 0 <= i < |players| && PlayerInBounds(players[i])
    requires direction.Other?
    ensures var p := players[i];
      var r := Resolve(panel, bombs, players, i, direction, os);
      var atStep := Blocks(ProbeAt(panel, bombs, players, i, p.xLocation, p.yLocation, os.step));
      var atRetest := Blocks(ProbeAt(panel, bombs, players, i, p.xLocation, p.yLocation, os.retest));
      var atNudge := Blocks(ProbeAt(panel, bombs, players, i, p.xLocation, p.yLocation, os.nudge));
      && r.1 == (p.xLocation, p.yLocation)
      && (r.0 <==> !atStep || (atRetest && !atNudge))
      && (os.step == os.retest == os.nudge ==> r.0 == !atStep)
  {
  }

  /** Own bombs the box at (x, y) no longer overlaps lose their exemption. */
  function ReleaseOne(b: Bomb, i: int, x: int, y: int): Bomb {
    if b.ownPlayerIndex == i && b.initialIntersection && !BoxOverlapsBomb(x, y, b)
    then b.(initialIntersection := false) else b
  }

  function Released(bombs: seq<Bomb>, i: int, x: int, y: int): (r: seq<Bomb>)
    ensures |r| == |bombs|
    ensures forall k :: 0 <= k < |r| ==> r[k] == ReleaseOne(bombs[k], i, x, y)
  {
    seq(|bombs|, k requires 0 <= k < |bombs| => ReleaseOne(bombs[k], i, x, y))
  }

  /** Release only ever clears the flag, only on the mover's own bombs, and
      afterwards every own bomb still exempting the mover overlaps its box. */
  lemma ReleasedSpec(bombs: seq<Bomb>, i: int, x: int, y: int)
    ensures forall k :: 0 <= k < |bombs| ==>
      Released(bombs, i, x, y)[k] == bombs[k].(initialIntersection := Released(bombs, i, x, y)[k].initialIntersection)
    ensures forall k :: 0 <= k < |bombs| && Released(bombs, i, x, y)[k].initialIntersection ==> bombs[k].initialIntersection
    ensures forall k :: 0 <= k < |bombs| && bombs[k].ownPlayerIndex != i ==> Released(bombs, i, x, y)[k] == bombs[k]
    ensures forall k :: 0 <= k < |bombs| && bombs[k].ownPlayerIndex == i && Released(bombs, i, x, y)[k].initialIntersection ==>
      BoxOverlapsBomb(x, y, bombs[k])
    ensures forall k :: 0 <= k < |bombs| ==> UsedBy(Released(bombs, i, x, y), k) == UsedBy(bombs, k)
  {
    forall k | 0 <= k < |bombs| ensures UsedBy(Released(bombs, i, x, y), k) == UsedBy(bombs, k) {
      UsedBySameOwners(Released(bombs, i, x, y), bombs, k);
    }
  }

  /** `p` placed at a cell and a box position. */
  function Placed(p: Player, row: int, column: int, x: int, y: int): Player {
    p.(row := row, column := column, xLocation := x, yLocation := y)
  }

  lemma {:induction false} GrownMoved(p: Player, x: int, y: int, eaten: seq<Powerup>)
    ensures Grown(p.(xLocation := x, yLocation := y), eaten) == Grown(p, eaten).(xLocation := x, yLocation := y)
    decreases |eaten|
  {
    if eaten != [] {
      GrownMoved(p, x, y, eaten[..|eaten| - 1]);
    }
  }

  lemma {:induction false} GrownPlaced(p: Player, row: int, column: int, x: int, y: int, eaten: seq<Powerup>)
    ensures Grown(Placed(p, row, column, x, y), eaten) == Placed(Grown(p, eaten), row, column, x, y)
    decreases |eaten|
  {
    if eaten != [] {
      GrownPlaced(p, row, column, x, y, eaten[..|eaten| - 1]);
    }
  }

  // ---------------------------------------------------------------------
  // MovePlayer
  // ---------------------------------------------------------------------

  /** Moves player `i`'s box to (x, y), inside the grid. */
  method SetBox(g: GameBoard, i: int, x: int, y: int)
    requires 0 <= i < |g.players|
    modifies g`players
    ensures g.players == old(g.players)[i := old(g.players[i]).(xLocation := x, yLocation := y)]
  {
    g.players := g.players[i := g.players[i].(xLocation := x, yLocation := y)];
  }

  /** Places player `i`'s box at (x, y) and probes there. */
  method ProbeFrom(g: GameBoard, i: int, x: int, y: int, o: CornerOrder, ghost ps0: seq<Player>)
    returns (r: Probe, ghost eaten: seq<Powerup>)
    requires IsGrid(g.panel) && 0 <= i < |g.players| && 0 <= x && 0 <= y
    requires SameOthers(ps0, g.players, i)
    modifies g`players, g`powerups, g`broadcast
    ensures r == ProbeAt(g.panel, g.bombs, ps0, i, x, y, o)
    ensures g.players == old(g.players)[i := Grown(old(g.players[i]), eaten).(xLocation := x, yLocation := y)]
    ensures multiset(g.powerups) + multiset(eaten) == multiset(old(g.powerups))
    ensures forall e :: 0 <= e < |eaten| ==> !eaten[e].isHidden
  {
    SetBox(g, i, x, y);
    ghost var placed := g.players;
    r, eaten := FindCollision(g, i, o);
    ProbeIgnoresProber(g.panel, g.bombs, ps0, placed, i, x, y, o);
    AteIsUpdate(placed, g.players, i, eaten);
    GrownMoved(old(g.players[i]), x, y, eaten);
    GrownStats(placed[i], eaten);
    assert placed[i := Grown(placed[i], eaten)] == old(g.players)[i := Grown(placed[i], eaten)];
  }

  /** Clears the initial-intersection flag of every own bomb the box at
      (x, y) has left. */
  method UpdateBombIntersections(g: GameBoard, i: int, x: int, y: int)
    requires g.Valid()
    modifies g`bombs
    ensures g.Valid()
    ensures g.bombs == Released(old(g.bombs), i, x, y)
  {
    var k := 0;
    while k < |g.bombs|
      invariant 0 <= k <= |g.bombs| == |old(g.bombs)|
      invariant forall m :: 0 <= m < k ==> g.bombs[m] == ReleaseOne(old(g.bombs)[m], i, x, y)
      invariant forall m :: k <= m < |g.bombs| ==> g.bombs[m] == old(g.bombs)[m]
    {
      var bomb := g.bombs[k];
      if bomb.ownPlayerIndex == i && bomb.initialIntersection {
        if x >= bomb.xLocation + CellSize ||
           x + PlayerSize <= bomb.xLocation ||
           y >= bomb.yLocation + CellSize ||
           y + PlayerSize <= bomb.yLocation {
          g.bombs := g.bombs[k := bomb.(initialIntersection := false)];
        }
      }
      k := k + 1;
    }
    assert g.bombs == Released(old(g.bombs), i, x, y);
    ReleasedSpec(old(g.bombs), i, x, y);
    forall p | 0 <= p < |g.players| ensures g.players[p].numberOfUsedBombs == UsedBy(g.bombs, p) {
      assert UsedBy(g.bombs, p) == UsedBy(old(g.bombs), p) by {
        UsedBySameOwners(g.bombs, old(g.bombs), p);
      }
    }
  }

  /** The full step and its clamp to the grid. */
  method FullStep(originalX: int, originalY: int, step: int, direction: Direction) returns (x: int, y: int)
    ensures (x, y) == Candidate(originalX, originalY, step, direction)
  {
    x, y := originalX, originalY;
    if direction == Up {
      y := y - step;
      if y < 0 { y := 0; }
    } else if direction == Down {
      y := y + step;
      if y + PlayerSize > NumberOfRows * CellSize { y := NumberOfRows * CellSize - PlayerSize; }
    } else if direction == Left {
      x := x - step;
      if x < 0 { x := 0; }
    } else if direction == Right {
      x := x + step;
      if x + PlayerSize > NumberOfColumns * CellSize { x := NumberOfColumns * CellSize - PlayerSize; }
    }
  }

  /** Alignment across the direction of travel when near a cell boundary. */
  method SnapStep(x0: int, y0: int, direction: Direction) returns (x: int, y: int, movedBySnap: bool)
    requires 0 <= x0 && 0 <= y0
    ensures ((x, y), movedBySnap) == Snap(x0, y0, direction)
  {
    x, y := x0, y0;
    movedBySnap := false;
    if direction == Left || direction == Right {
      var verticalOffset := y % CellSize;
      if verticalOffset <= MovementTolerance {
        y := y - verticalOffset;
        movedBySnap := true;
      } else if CellSize - verticalOffset <= MovementTolerance {
        y := y + CellSize - verticalOffset;
        movedBySnap := true;
      }
    } else if direction == Up || direction == Down {
      var horizontalOffset := x % CellSize;
      if horizontalOffset <= MovementTolerance {
        x := x - horizontalOffset;
        movedBySnap := true;
      } else if CellSize - horizontalOffset <= MovementTolerance {
        x := x + CellSize - horizontalOffset;
        movedBySnap := true;
      }
    }
  }

  /** The one-pixel step from the original position, clamped on both axes. */
  method OnePixelStep(originalX: int, originalY: int, direction: Direction) returns (x: int, y: int)
    ensures (x, y) == Nudge(originalX, originalY, direction)
  {
    x, y := originalX, originalY;
    var step := 1;
    if direction == Up {
      y := y - step;
    } else if direction == Down {
      y := y + step;
    } else if direction == Left {
      x := x - step;
    } else if direction == Right {
      x := x + step;
    }
    if y < 0 {
      y := 0;
    } else if y + PlayerSize > NumberOfRows * CellSize {
      y := NumberOfRows * CellSize - PlayerSize;
    }
    if x < 0 {
      x := 0;
    } else if x + PlayerSize > NumberOfColumns * CellSize {
      x := NumberOfColumns * CellSize - PlayerSize;
    }
  }

  /** Two probes in a row: the second starts from the box and the stats the
      first left, so together they place the box once and grow by both meals. */
  lemma {:induction false} ReprobeUpdate(ps0: seq<Player>, i: int, e2: seq<Powerup>, e3: seq<Powerup>,
                                         sx: int, sy: int, x: int, y: int)
    requires 0 <= i < |ps0|
    ensures var mid := ps0[i := Grown(ps0[i], e2).(xLocation := sx, yLocation := sy)];
      mid[i := Grown(mid[i], e3).(xLocation := x, yLocation := y)] ==
      ps0[i := Grown(ps0[i], e2 + e3).(xLocation := x, yLocation := y)]
  {
    GrownMoved(Grown(ps0[i], e2), sx, sy, e3);
    GrownAppend(ps0[i], e2, e3);
  }

  /** Moving a box twice leaves it where the second move put it. */
  lemma BoxMovedTwice(ps: seq<Player>, i: int, q: Player, x: int, y: int, x2: int, y2: int)
    requires 0 <= i < |ps|
    ensures var mid := ps[i := q.(xLocation := x, yLocation := y)];
      mid[i := mid[i].(xLocation := x2, yLocation := y2)] == ps[i := q.(xLocation := x2, yLocation := y2)]
  {
    var mid := ps[i := q.(xLocation := x, yLocation := y)];
    assert mid[i].(xLocation := x2, yLocation := y2) == q.(xLocation := x2, yLocation := y2);
  }

  /** Two probes in a row ate from the list in turn: together they ate both
      meals, all of them visible powerups. */
  lemma MealsJoin(pus1: seq<Powerup>, pus2: seq<Powerup>, pus3: seq<Powerup>, e2: seq<Powerup>, e3: seq<Powerup>)
    requires multiset(pus2) + multiset(e2) == multiset(pus1)
    requires multiset(pus3) + multiset(e3) == multiset(pus2)
    requires forall e :: 0 <= e < |e2| ==> !e2[e].isHidden
    requires forall e :: 0 <= e < |e3| ==> !e3[e].isHidden
    ensures multiset(pus3) + multiset(e2 + e3) == multiset(pus1)
    ensures forall e :: 0 <= e < |e2 + e3| ==> !(e2 + e3)[e].isHidden
  {
    forall e | 0 <= e < |e2 + e3| ensures !(e2 + e3)[e].isHidden {
      if e >= |e2| {
        assert (e2 + e3)[e] == e3[e - |e2|];
      }
    }
  }

  /** The one-pixel step from the original position and its probe; the box
      goes back to the original position when that is blocked too. */
  method RetryOnePixel(g: GameBoard, i: int, direction: Direction, originalX: int, originalY: int, o: CornerOrder,
                       ghost ps0: seq<Player>)
    returns (ok: bool, x: int, y: int, ghost eaten: seq<Powerup>)
    requires IsGrid(g.panel) && 0 <= i < |g.players|
    requires 0 <= originalX && 0 <= originalY
    requires SameOthers(ps0, g.players, i)
    modifies g`players, g`powerups, g`broadcast
    ensures var n := Nudge(originalX, originalY, direction);
      (ok, (x, y)) == if ClearAt(g.panel, g.bombs, ps0, i, n, o) then (true, n)
                      else (false, (originalX, originalY))
    ensures g.players == old(g.players)[i := Grown(old(g.players[i]), eaten).(xLocation := x, yLocation := y)]
    ensures multiset(g.powerups) + multiset(eaten) == multiset(old(g.powerups))
    ensures forall e :: 0 <= e < |eaten| ==> !eaten[e].isHidden
  {
    x, y := OnePixelStep(originalX, originalY, direction);
    var finalCollision;
    finalCollision, eaten := ProbeFrom(g, i, x, y, o, ps0);
    if Blocks(finalCollision) {
      SetBox(g, i, originalX, originalY);
      BoxMovedTwice(old(g.players), i, Grown(old(g.players[i]), eaten), x, y, originalX, originalY);
      return false, originalX, originalY, eaten;
    }
    ok := true;
  }

  /** The snap of the current box and the probe there. */
  method SnapAndProbe(g: GameBoard, i: int, direction: Direction, o: CornerOrder, ghost ps0: seq<Player>)
    returns (r: Probe, x: int, y: int, movedBySnap: bool, ghost eaten: seq<Powerup>)
    requires IsGrid(g.panel) && 0 <= i < |g.players|
    requires g.players[i].xLocation >= 0 && g.players[i].yLocation >= 0
    requires SameOthers(ps0, g.players, i)
    modifies g`players, g`powerups, g`broadcast
    ensures ((x, y), movedBySnap) == Snap(old(g.players[i].xLocation), old(g.players[i].yLocation), direction)
    ensures r == ProbeAt(g.panel, g.bombs, ps0, i, x, y, o)
    ensures g.players == old(g.players)[i := Grown(old(g.players[i]), eaten).(xLocation := x, yLocation := y)]
    ensures multiset(g.powerups) + multiset(eaten) == multiset(old(g.powerups))
    ensures forall e :: 0 <= e < |eaten| ==> !eaten[e].isHidden
  {
    x, y, movedBySnap := SnapStep(g.players[i].xLocation, g.players[i].yLocation, direction);
    r, eaten := ProbeFrom(g, i, x, y, o, ps0);
  }

  /** What follows a blocked full step: snap and retest, refusing when the
      retest is clear but the snap did not move the box; after a blocked
      retest, the one-pixel step from the original position and its retest,
      reverting when that is blocked too. The box enters at the full step's
      position, `collision` being the blocking answer found there. */
  method Unstick(g: GameBoard, i: int, direction: Direction, collision: Probe, originalX: int, originalY: int,
                 os: ProbeOrders, ghost ps0: seq<Player>)
    returns (ok: bool, x: int, y: int, ghost eaten: seq<Powerup>)
    requires IsGrid(g.panel) && 0 <= i < |g.players|
    requires 0 <= originalX && 0 <= originalY
    requires g.players[i].xLocation >= 0 && g.players[i].yLocation >= 0
    requires SameOthers(ps0, g.players, i)
    requires collision == ProbeAt(g.panel, g.bombs, ps0, i, g.players[i].xLocation, g.players[i].yLocation, os.step)
    requires Blocks(collision)
    modifies g`players, g`powerups, g`broadcast
    ensures var p := old(g.players[i]);
      var s := Snap(p.xLocation, p.yLocation, direction);
      var n := Nudge(originalX, originalY, direction);
      (ok, (x, y)) == if ClearAt(g.panel, g.bombs, ps0, i, s.0, os.retest) then
                        (if s.1 then (true, s.0) else (false, (originalX, originalY)))
                      else if ClearAt(g.panel, g.bombs, ps0, i, n, os.nudge) then (true, n)
                      else (false, (originalX, originalY))
    ensures g.players == old(g.players)[i := Grown(old(g.players[i]), eaten).(xLocation := x, yLocation := y)]
    ensures multiset(g.powerups) + multiset(eaten) == multiset(old(g.powerups))
    ensures forall e :: 0 <= e < |eaten| ==> !eaten[e].isHidden
  {
    ghost var ps1, pus1 := g.players, g.powerups;
    var newCollision, movedBySnap;
    ghost var e2;
    newCollision, x, y, movedBySnap, e2 := SnapAndProbe(g, i, direction, os.retest, ps0);
    eaten := e2;
    if Blocks(newCollision) {
      ghost var sx, sy, pus2 := x, y, g.powerups;
      ghost var e3;
      ok, x, y, e3 := RetryOnePixel(g, i, direction, originalX, originalY, os.nudge, ps0);
      ReprobeUpdate(ps1, i, e2, e3, sx, sy, x, y);
      MealsJoin(pus1, pus2, g.powerups, e2, e3);
      eaten := e2 + e3;
      return;
    } else if !movedBySnap && Blocks(collision) {
      SetBox(g, i, originalX, originalY);
      BoxMovedTwice(ps1, i, Grown(ps1[i], e2), x, y, originalX, originalY);
      return false, originalX, originalY, eaten;
    }
    ok := true;
  }

  /** One movement step of player `i`, its three probes visiting the corners
      in the orders `os`. The outcome and the final box are the resolver's
      decision on the board as it was; the cell is always that of the full
      step's centre; the probes may eat powerups; a successful move releases
      own bombs the box has left. */
  method MovePlayer(g: GameBoard, i: int, direction: Direction, os: ProbeOrders)
    returns (moved: bool, ghost eaten: seq<Powerup>)
    requires g.Valid() && 0 <= i < |g.players|
    modifies g`players, g`powerups, g`broadcast, g`bombs
    ensures g.Valid()
    ensures var p := old(g.players[i]);
      var c := Candidate(p.xLocation, p.yLocation, p.stepSize, direction);
      var res := Resolve(g.panel, old(g.bombs), old(g.players), i, direction, os);
      && moved == res.0
      && g.players == old(g.players)[i := Placed(Grown(p, eaten), CenterCell(c.1), CenterCell(c.0), res.1.0, res.1.1)]
      && g.bombs == if moved then Released(old(g.bombs), i, res.1.0, res.1.1) else old(g.bombs)
    ensures multiset(g.powerups) + multiset(eaten) == multiset(old(g.powerups))
    ensures forall e :: 0 <= e < |eaten| ==> !eaten[e].isHidden
  {
    ghost var ps0 := g.players;
    var x, y, row, column;
    moved, x, y, row, column, eaten := MoveBox(g, i, direction, os);
    ResolveInBounds(g.panel, g.bombs, ps0, i, direction, os);
    PlacedKeepsValid(ps0, g.bombs, g.pendingRespawns, old(g.powerups), g.powerups, eaten,
                     g.nextChanId, g.closedChans, i, row, column, x, y);
    if moved {
      UpdateBombIntersections(g, i, x, y);
    }
  }

  /** MovePlayer without the bomb release: the box and cell updates and the
      probes' meals. */
  method MoveBox(g: GameBoard, i: int, direction: Direction, os: ProbeOrders)
    returns (moved: bool, x: int, y: int, row: int, column: int, ghost eaten: seq<Powerup>)
    requires IsGrid(g.panel) && 0 <= i < |g.players| && PlayerInBounds(g.players[i])
    modifies g`players, g`powerups, g`broadcast
    ensures var p := old(g.players[i]);
      var c := Candidate(p.xLocation, p.yLocation, p.stepSize, direction);
      && (moved, (x, y)) == Resolve(g.panel, g.bombs, old(g.players), i, direction, os)
      && row == CenterCell(c.1) && column == CenterCell(c.0)
      && g.players == old(g.players)[i := Placed(Grown(p, eaten), row, column, x, y)]
    ensures InGrid(row, column)
    ensures multiset(g.powerups) + multiset(eaten) == multiset(old(g.powerups))
    ensures forall e :: 0 <= e < |eaten| ==> !eaten[e].isHidden
  {
    ghost var ps0 := g.players;
    ghost var p0 := g.players[i];
    var player := g.players[i];
    var step := player.stepSize;
    var originalX, originalY := player.xLocation, player.yLocation;
    x, y := FullStep(originalX, originalY, step, direction);
    row, column := (y + PlayerSize / 2) / CellSize, (x + PlayerSize / 2) / CellSize;
    CenterInGrid(x, y);
    SetCell(g, i, row, column);
    var collision, e1 := ProbeFrom(g, i, x, y, os.step, ps0);
    eaten := e1;
    ProbedAfterCell(ps0, i, row, column, x, y, e1);
    moved := true;
    if Blocks(collision) {
      ghost var x1, y1 := x, y;
      ghost var e2;
      moved, x, y, e2 := Unstick(g, i, direction, collision, originalX, originalY, os, ps0);
      PlacedReprobed(ps0, i, row, column, x1, y1, e1, e2, x, y);
      eaten := e1 + e2;
    }
  }

  /** The cell set, then a probe from (x, y): the player is placed there
      and has grown by the meal. */
  lemma ProbedAfterCell(ps0: seq<Player>, i: int, row: int, column: int, x: int, y: int, e: seq<Powerup>)
    requires 0 <= i < |ps0|
    ensures var ps1 := ps0[i := ps0[i].(row := row, column := column)];
      ps1[i := Grown(ps1[i], e).(xLocation := x, yLocation := y)] ==
      ps0[i := Placed(Grown(ps0[i], e), row, column, x, y)]
  {
    var p := ps0[i];
    assert p.(row := row, column := column) == Placed(p, row, column, p.xLocation, p.yLocation);
    GrownPlaced(p, row, column, p.xLocation, p.yLocation, e);
  }

  /** A placed player probed again from (x2, y2) is placed there and has
      grown by both meals. */
  lemma PlacedReprobed(ps0: seq<Player>, i: int, row: int, column: int, x: int, y: int,
                       e1: seq<Powerup>, e2: seq<Powerup>, x2: int, y2: int)
    requires 0 <= i < |ps0|
    ensures var ps2 := ps0[i := Placed(Grown(ps0[i], e1), row, column, x, y)];
      ps2[i := Grown(ps2[i], e2).(xLocation := x2, yLocation := y2)] ==
      ps0[i := Placed(Grown(ps0[i], e1 + e2), row, column, x2, y2)]
  {
    GrownPlaced(Grown(ps0[i], e1), row, column, x, y, e2);
    GrownAppend(ps0[i], e1, e2);
  }

  /** Placing a player that ate powerups from the list at an in-bounds box
      and cell keeps the board invariant. */
  lemma PlacedKeepsValid(players: seq<Player>, bombs: seq<Bomb>, pendingRespawns: seq<PlayerRespawn>,
                         powerups: seq<Powerup>, powerups2: seq<Powerup>, eaten: seq<Powerup>,
                         nextChanId: nat, closedChans: set<nat>, i: int, row: int, column: int, x: int, y: int)
    requires ShapeOf(players, bombs, pendingRespawns, powerups, nextChanId, closedChans)
    requires AccountedOf(players, bombs)
    requires 0 <= i < |players| && InGrid(row, column) && 0 <= x <= MaxX && 0 <= y <= MaxY
    requires multiset(powerups2) + multiset(eaten) == multiset(powerups)
    ensures var q := Placed(Grown(players[i], eaten), row, column, x, y);
      && ShapeOf(players[i := q], bombs, pendingRespawns, powerups2, nextChanId, closedChans)
      && AccountedOf(players[i := q], bombs)
  {
    RemovedNonNegative(powerups, powerups2, eaten);
    GrownInBounds(players[i], eaten);
    var q := Placed(Grown(players[i], eaten), row, column, x, y);
    ReplaceKeepsShape(players, bombs, pendingRespawns, powerups, powerups2, eaten, nextChanId, closedChans, i, q);
    ReplaceKeepsAccounted(players, bombs, i, q);
  }

  /** Eating powerups from the list keeps the board invariant. */
  lemma GrownKeepsShape(players: seq<Player>, bombs: seq<Bomb>, pendingRespawns: seq<PlayerRespawn>,
                        powerups: seq<Powerup>, powerups2: seq<Powerup>, eaten: seq<Powerup>,
                        nextChanId: nat, closedChans: set<nat>, i: int)
    requires ShapeOf(players, bombs, pendingRespawns, powerups, nextChanId, closedChans)
    requires 0 <= i < |players|
    requires multiset(powerups2) + multiset(eaten) == multiset(powerups)
    ensures ShapeOf(players[i := Grown(players[i], eaten)], bombs, pendingRespawns, powerups2, nextChanId, closedChans)
  {
    RemovedNonNegative(powerups, powerups2, eaten);
    GrownInBounds(players[i], eaten);
    ReplaceKeepsShape(players, bombs, pendingRespawns, powerups, powerups2, eaten, nextChanId, closedChans, i,
                      Grown(players[i], eaten));
  }

  /** Eating non-negative powerups keeps a player in bounds and changes only
      its four stats. */
  lemma {:induction false} GrownInBounds(p: Player, eaten: seq<Powerup>)
    requires PlayerInBounds(p)
    requires forall e :: 0 <= e < |eaten| ==> eaten[e].value >= 0
    ensures PlayerInBounds(Grown(p, eaten))
    ensures WithStatsOf(Grown(p, eaten), p) == p
    decreases |eaten|
  {
    if eaten != [] {
      GrownInBounds(p, eaten[..|eaten| - 1]);
    }
  }

  /** Sets player `i`'s cell indices. */
  method SetCell(g: GameBoard, i: int, row: int, column: int)
    requires 0 <= i < |g.players|
    modifies g`players
    ensures g.players == old(g.players)[i := old(g.players[i]).(row := row, column := column)]
  {
    g.players := g.players[i := g.players[i].(row := row, column := column)];
  }

  // ---------------------------------------------------------------------
  // Start and end of continuous movement
  // ---------------------------------------------------------------------

  /** Clears the moving flag and closes the stop channel if there is one. */
  method StopMoving(g: GameBoard, i: int)
    requires g.Shape() && 0 <= i < |g.players|
    modifies g`players, g`closedChans
    ensures g.Shape()
    ensures old(g.players[i].stopMoveChan).Chan? ==>
      && old(g.players[i].stopMoveChan.id) !in old(g.closedChans)
      && g.closedChans == old(g.closedChans) + {old(g.players[i].stopMoveChan.id)}
    ensures old(g.players[i].stopMoveChan).NilChan? ==> g.closedChans == old(g.closedChans)
    ensures g.players == old(g.players)[i := old(g.players[i]).(isMoving := false, stopMoveChan := NilChan)]
  {
    var player := g.players[i];
    player := player.(isMoving := false);
    if player.stopMoveChan.Chan? {
      g.closedChans := g.closedChans + {player.stopMoveChan.id};
      player := player.(stopMoveChan := NilChan);
    }
    g.players := g.players[i := player];
  }

  /** The effect of a move-end request by player i: nothing unless it is
      moving; then the flag is cleared and a held stop channel, never closed
      before, is closed and dropped. */
  twostate predicate MoveEnded(g: GameBoard, i: int)
    requires 0 <= i < |old(g.players)|
    reads g
  {
    && (!old(g.players[i].isMoving) ==> g.players == old(g.players) && g.closedChans == old(g.closedChans))
    && (old(g.players[i].isMoving) ==>
          && g.players == old(g.players)[i := old(g.players[i]).(isMoving := false, stopMoveChan := NilChan)]
          && (old(g.players[i].stopMoveChan).Chan? ==>
                old(g.players[i].stopMoveChan.id) !in old(g.closedChans) &&
                g.closedChans == old(g.closedChans) + {old(g.players[i].stopMoveChan.id)})
          && (old(g.players[i].stopMoveChan).NilChan? ==> g.closedChans == old(g.closedChans)))
  }

  /** Stops a moving player; closes its stop channel exactly once. */
  method HandleMoveEndMessage(g: GameBoard, i: int)
    requires g.Shape() && 0 <= i < |g.players|
    modifies g`players, g`closedChans
    ensures g.Shape()
    ensures MoveEnded(g, i)
  {
    var player := g.players[i];
    if player.isMoving {
      StopMoving(g, i);
    }
  }

  /** Starts continuous movement unless the game has not started, the
      player is dead or hurt, or the probe at its current box reports an
      obstacle; a stop channel is allocated only when none is held. */
  method HandleMoveStartMessage(g: GameBoard, i: int, direction: string, o: CornerOrder) returns (ghost eaten: seq<Powerup>)
    requires g.Shape() && 0 <= i < |g.players|
    modifies g`players, g`powerups, g`broadcast, g`nextChanId
    ensures g.Shape()
    ensures !old(g.isStarted) || old(g.players[i].isDead) || old(g.players[i].isHurt) ==>
      && g.players == old(g.players) && g.powerups == old(g.powerups)
      && g.broadcast == old(g.broadcast) && g.nextChanId == old(g.nextChanId) && eaten == []
    ensures old(g.isStarted) && !old(g.players[i].isDead) && !old(g.players[i].isHurt) ==>
      var p := old(g.players[i]);
      var probe := ProbeAt(g.panel, g.bombs, old(g.players), i, p.xLocation, p.yLocation, o);
      && multiset(g.powerups) + multiset(eaten) == multiset(old(g.powerups))
      && (Blocks(probe) ==>
            g.players == old(g.players)[i := Grown(p, eaten)] && g.nextChanId == old(g.nextChanId))
      && (!Blocks(probe) ==>
            && g.players == old(g.players)[i := Grown(p, eaten).(
                 isMoving := true, directionFace := direction,
                 stopMoveChan := if p.stopMoveChan.NilChan? then Chan(old(g.nextChanId)) else p.stopMoveChan)]
            && g.nextChanId == old(g.nextChanId) + (if p.stopMoveChan.NilChan? then 1 else 0))
  {
    eaten := [];
    if !g.isStarted {
      return;
    }
    var player := g.players[i];
    if player.isDead {
      return;
    }
    if player.isHurt {
      return;
    }
    eaten := StartUnlessBlocked(g, i, direction, o);
  }

  /** The part of the start handler past its guards: probe the current box,
      refuse on an obstacle, otherwise begin moving. */
  method StartUnlessBlocked(g: GameBoard, i: int, direction: string, o: CornerOrder) returns (ghost eaten: seq<Powerup>)
    requires g.Shape() && 0 <= i < |g.players|
    modifies g`players, g`powerups, g`broadcast, g`nextChanId
    ensures g.Shape()
    ensures var p := old(g.players[i]);
      var probe := ProbeAt(g.panel, g.bombs, old(g.players), i, p.xLocation, p.yLocation, o);
      && multiset(g.powerups) + multiset(eaten) == multiset(old(g.powerups))
      && (Blocks(probe) ==>
            g.players == old(g.players)[i := Grown(p, eaten)] && g.nextChanId == old(g.nextChanId))
      && (!Blocks(probe) ==>
            && g.players == old(g.players)[i := Grown(p, eaten).(
                 isMoving := true, directionFace := direction,
                 stopMoveChan := if p.stopMoveChan.NilChan? then Chan(old(g.nextChanId)) else p.stopMoveChan)]
            && g.nextChanId == old(g.nextChanId) + (if p.stopMoveChan.NilChan? then 1 else 0))
  {
    var player := g.players[i];
    var collision;
    collision, eaten := FindCollision(g, i, o);
    AteIsUpdate(old(g.players), g.players, i, eaten);
    GrownKeepsShape(old(g.players), g.bombs, g.pendingRespawns, old(g.powerups), g.powerups, eaten,
                    g.nextChanId, g.closedChans, i);
    if Blocks(collision) {
      return;
    }
    GrownStats(player, eaten);
    BeginMoving(g, i, direction);
  }

  /** Sets the moving flag and direction; allocates a fresh stop channel when
      none is held. */
  method BeginMoving(g: GameBoard, i: int, direction: string)
    requires g.Shape() && 0 <= i < |g.players|
    modifies g`players, g`nextChanId
    ensures g.Shape()
    ensures g.players == old(g.players)[i := old(g.players[i]).(
      isMoving := true, directionFace := direction,
      stopMoveChan := if old(g.players[i].stopMoveChan).NilChan? then Chan(old(g.nextChanId)) else old(g.players[i].stopMoveChan))]
    ensures g.nextChanId == old(g.nextChanId) + (if old(g.players[i].stopMoveChan).NilChan? then 1 else 0)
  {
    var player := g.players[i];
    player := player.(isMoving := true, directionFace := direction);
    if player.stopMoveChan.NilChan? {
      player := player.(stopMoveChan := Chan(g.nextChanId));
      g.nextChanId := g.nextChanId + 1;
    }
    g.players := g.players[i := player];
  }

  /** What the direction-relative border distance reports: the box's offset
      from its cell's top or left edge for "u" and "l", the negation for "d"
      and "r", and -1 for any other name. */
  function FindDistanceToBorder(p: Player, borderName: string): (d: int)
    ensures borderName !in {"u", "d", "l", "r"} ==> d == -1
  {
    if borderName == "u" then p.yLocation - p.row * CellSize
    else if borderName == "d" then p.row * CellSize - p.yLocation
    else if borderName == "l" then p.xLocation - p.column * CellSize
    else if borderName == "r" then p.column * CellSize - p.xLocation
    else -1
  }

  /** The upper and lower (left and right) readings are negations of each
      other: both measure the box against the same cell edge, the row's top
      (the column's left) edge. */
  lemma BorderDistanceSymmetry(p: Player)
    ensures FindDistanceToBorder(p, "d") == -FindDistanceToBorder(p, "u")
    ensures FindDistanceToBorder(p, "r") == -FindDistanceToBorder(p, "l")
    ensures FindDistanceToBorder(p, "u") == p.yLocation - p.row * CellSize
    ensures FindDistanceToBorder(p, "l") == p.xLocation - p.column * CellSize
  {
  }
}
