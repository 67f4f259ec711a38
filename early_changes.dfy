/** The earlier-generation life-loss pass over the players, as written, and
    the pass its authors evidently meant. */
module EarlyChanges {
  import opened EarlyGame

  /** A player after the pass as written, `burning` telling whether its
      cell is marked exploded: one life less when burning; dead when the
      lives it had BEFORE the pass were zero. */
  function Hit(p: EarlyPlayer, burning: bool): EarlyPlayer {
    p.(lives := if burning then p.lives - 1 else p.lives, isDead := if p.lives == 0 then true else p.isDead)
  }

  function Hits(ps: seq<EarlyPlayer>, burning: seq<bool>): (r: seq<EarlyPlayer>)
    requires |burning| == |ps|
    ensures |r| == |ps| && forall j :: 0 <= j < |ps| ==> r[j] == Hit(ps[j], burning[j])
  {
    seq(|ps|, j requires 0 <= j < |ps| => Hit(ps[j], burning[j]))
  }

  /** The number of players with no life left. */
  function ZeroLives(ps: seq<EarlyPlayer>): nat
    decreases |ps|
  {
    if ps == [] then 0
    else ZeroLives(ps[..|ps| - 1]) + (if ps[|ps| - 1].lives == 0 then 1 else 0)
  }

  /** The number of players marked dead. */
  function DeadCount(ps: seq<EarlyPlayer>): nat
    decreases |ps|
  {
    if ps == [] then 0
    else DeadCount(ps[..|ps| - 1]) + (if ps[|ps| - 1].isDead then 1 else 0)
  }

  /** Whether each player's cell is marked exploded. */
  ghost function BurningOf(panel: array2<GameCell>, ps: seq<EarlyPlayer>): (r: seq<bool>)
    reads panel
    requires forall j :: 0 <= j < |ps| ==> 0 <= ps[j].row < panel.Length0 && 0 <= ps[j].column < panel.Length1
    ensures |r| == |ps| && forall j :: 0 <= j < |ps| ==> r[j] == HasExploaded(panel, ps[j].row, ps[j].column)
  {
    seq(|ps|, j reads panel requires 0 <= j < |ps| => HasExploaded(panel, ps[j].row, ps[j].column))
  }

  /** The pass as written: for each player, in order, one life less if its
      cell is exploded; then, judged on the copy taken before the decrement,
      a player with zero lives is marked dead and the player count drops,
      whether or not it was already dead. */
  method CheckExplosion(g: EarlyBoard) returns (ghost burning: seq<bool>)
    requires g.Valid()
    modifies g`players, g`numberOfPlayers
    ensures g.Valid()
    ensures burning == BurningOf(g.panel, old(g.players))
    ensures g.players == Hits(old(g.players), burning)
    ensures g.numberOfPlayers == old(g.numberOfPlayers) - ZeroLives(old(g.players))
  {
    ghost var ps0 := g.players;
    burning := BurningOf(g.panel, ps0);
    HitsUpToEnds(ps0, burning);
    var i := 0;
    while i < |g.players|
      invariant 0 <= i <= |ps0| && |g.players| == |ps0|
      invariant g.Valid()
      invariant g.players == HitsUpTo(ps0, burning, i)
      invariant g.numberOfPlayers == old(g.numberOfPlayers) - ZeroLives(ps0[..i])
    {
      var player := g.players[i];
      var updated := player;
      if HasExploaded(g.panel, player.row, player.column) {
        updated := updated.(lives := updated.lives - 1);
      }
      if player.lives == 0 {
        g.numberOfPlayers := g.numberOfPlayers - 1;
        updated := updated.(isDead := true);
      }
      assert updated == Hit(ps0[i], burning[i]);
      HitsUpToStep(ps0, burning, i);
      g.players := g.players[i := updated];
      assert ps0[..i + 1][..i] == ps0[..i];
      i := i + 1;
    }
    assert ps0[..i] == ps0;
  }

  /** The players after the pass has seen the first k of them. */
  function HitsUpTo(ps: seq<EarlyPlayer>, burning: seq<bool>, k: int): (r: seq<EarlyPlayer>)
    requires |burning| == |ps|
    ensures |r| == |ps|
  {
    seq(|ps|, j requires 0 <= j < |ps| => if j < k then Hit(ps[j], burning[j]) else ps[j])
  }

  lemma HitsUpToStep(ps: seq<EarlyPlayer>, burning: seq<bool>, k: int)
    requires |burning| == |ps| && 0 <= k < |ps|
    ensures HitsUpTo(ps, burning, k)[k := Hit(ps[k], burning[k])] == HitsUpTo(ps, burning, k + 1)
  {
  }

  lemma HitsUpToEnds(ps: seq<EarlyPlayer>, burning: seq<bool>)
    requires |burning| == |ps|
    ensures HitsUpTo(ps, burning, |ps|) == Hits(ps, burning)
    ensures HitsUpTo(ps, burning, 0) == ps
  {
  }

  /** The pass changes only lives and the dead flag: a burning player loses
      exactly one life, any other keeps its lives. */
  lemma HitChangesOnlyLives(p: EarlyPlayer, burning: bool)
    ensures Hit(p, burning).lives == p.lives - (if burning then 1 else 0)
    ensures Hit(p, burning).(lives := p.lives, isDead := p.isDead) == p
  {
  }

  /** As written, a living player going from one life to none stays alive
      and uncounted; only the next pass marks it dead. */
  lemma LateDeath(p: EarlyPlayer)
    requires p.lives == 1 && !p.isDead
    ensures Hit(p, true).lives == 0 && !Hit(p, true).isDead
    ensures ZeroLives([p]) == 0
    ensures Hit(Hit(p, true), false).isDead && ZeroLives([Hit(p, true)]) == 1
  {
    assert [p][..0] == [];
    assert [Hit(p, true)][..0] == [];
  }

  /** As written, a dead player with no lives away from fire is unchanged by
      the pass and counted again by every pass: the player count drops by
      one per pass for ever. */
  lemma RecountsDead(p: EarlyPlayer)
    requires p.isDead && p.lives == 0
    ensures Hits([p], [false]) == [p]
    ensures ZeroLives([p]) == 1 && DeadCount([p]) == 1
    ensures DeadCount(Hits([p], [false])) != DeadCount([p]) + ZeroLives([p])
  {
    assert [p][..0] == [];
    assert Hits([p], [false]) == [p];
  }

  // ---------------------------------------------------------------------
  // The intended pass
  // ---------------------------------------------------------------------

  /** A player after the intended pass: dead players are skipped; a burning
      one loses a life and is dead once no life is left. */
  function HitFixed(p: EarlyPlayer, burning: bool): EarlyPlayer {
    if p.isDead then p
    else
      var q := if burning then p.(lives := p.lives - 1) else p;
      if q.lives <= 0 then q.(isDead := true) else q
  }

  function HitsFixed(ps: seq<EarlyPlayer>, burning: seq<bool>): (r: seq<EarlyPlayer>)
    requires |burning| == |ps|
    ensures |r| == |ps| && forall j :: 0 <= j < |ps| ==> r[j] == HitFixed(ps[j], burning[j])
  {
    seq(|ps|, j requires 0 <= j < |ps| => HitFixed(ps[j], burning[j]))
  }

  /** The players the intended pass kills. */
  function NewDeaths(ps: seq<EarlyPlayer>, burning: seq<bool>): nat
    requires |burning| == |ps|
    decreases |ps|
  {
    if ps == [] then 0
    else
      var n := |ps| - 1;
      NewDeaths(ps[..n], burning[..n]) + (if !ps[n].isDead && HitFixed(ps[n], burning[n]).isDead then 1 else 0)
  }

  /** The intended pass kills a player in the pass that takes its last
      life, never touches a dead player, and never revives one. */
  lemma FixedDiesAtOnce(p: EarlyPlayer, burning: bool)
    ensures !p.isDead && p.lives == 1 && burning ==> HitFixed(p, burning).isDead
    ensures p.isDead ==> HitFixed(p, burning) == p
    ensures HitFixed(p, burning).isDead <==> p.isDead || (if burning then p.lives - 1 else p.lives) <= 0
  {
  }

  /** Under the intended pass, with the player count dropping by the new
      deaths, the count plus the dead stays the same: each death is counted
      once. */
  lemma {:induction false} FixedConservesCount(ps: seq<EarlyPlayer>, burning: seq<bool>)
    requires |burning| == |ps|
    ensures DeadCount(HitsFixed(ps, burning)) == DeadCount(ps) + NewDeaths(ps, burning)
    decreases |ps|
  {
    if ps != [] {
      var n := |ps| - 1;
      FixedConservesCount(ps[..n], burning[..n]);
      assert HitsFixed(ps, burning)[..n] == HitsFixed(ps[..n], burning[..n]);
    }
  }
}
