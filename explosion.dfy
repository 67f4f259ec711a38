/** The detonation path: damage to players caught by fire, one bomb's
    explosion (chain reaction, fire marking, owner's allowance) and the
    periodic sweep over the bomb list. */
module Explosions {
  import opened Models
  import opened Board
  import opened Broadcast
  import opened Powerups
  import opened Movement
  import opened Bombs

  // ---------------------------------------------------------------------
  // Damage: what the pass over the players does to one player
  // ---------------------------------------------------------------------

  /** The probe of the player's box, visiting the corners in the order `o`,
      meets fire before anything else. Only the panel decides this: a cell
      hit is reported before bombs and players. */
  ghost predicate OnFire(panel: array2<Cell>, p: Player, o: CornerOrder)
    reads panel
    requires IsGrid(panel)
  {
    p.xLocation >= 0 && p.yLocation >= 0 && FirstHit(panel, Visit(p.xLocation, p.yLocation, o)) == Some(Fire)
  }

  /** No order catches a player with no fire under its box. */
  lemma FireUnderBox(panel: array2<Cell>, p: Player, o: CornerOrder)
    requires IsGrid(panel)
    ensures OnFire(panel, p, o) ==> CornerHolds(panel, p.xLocation, p.yLocation, Fire)
  {
    if OnFire(panel, p, o) {
      VisitHit(panel, p.xLocation, p.yLocation, o);
    }
  }

  /** Fire under the box with no obstacle beside it catches the player in
      every order. */
  lemma FireAlone(panel: array2<Cell>, p: Player, o: CornerOrder)
    requires IsGrid(panel) && p.xLocation >= 0 && p.yLocation >= 0
    requires CornerHolds(panel, p.xLocation, p.yLocation, Fire) && !ObstacleUnder(panel, p.xLocation, p.yLocation)
    ensures OnFire(panel, p, o)
  {
    var x, y := p.xLocation, p.yLocation;
    VisitHit(panel, x, y, o);
    var f :| f in CornerCells(x, y) && InGrid(f.0, f.1) && panel[f.0, f.1] == Fire;
    assert !CornersEmpty(panel, x, y);
  }

  /** Fire and an obstacle both under the box: one order catches the player
      and another does not. */
  lemma FireBesideObstacle(panel: array2<Cell>, p: Player)
    requires IsGrid(panel) && p.xLocation >= 0 && p.yLocation >= 0
    requires CornerHolds(panel, p.xLocation, p.yLocation, Fire) && ObstacleUnder(panel, p.xLocation, p.yLocation)
    ensures exists o: CornerOrder :: OnFire(panel, p, o)
    ensures exists o: CornerOrder :: !OnFire(panel, p, o)
  {
    var x, y := p.xLocation, p.yLocation;
    var f :| f in CornerCells(x, y) && InGrid(f.0, f.1) && panel[f.0, f.1] == Fire;
    var w :| w in CornerCells(x, y) && InGrid(w.0, w.1) && panel[w.0, w.1] != Empty && panel[w.0, w.1] != Fire;
    SomeOrderFinds(panel, x, y, f);
    SomeOrderFinds(panel, x, y, w);
    var o1: CornerOrder :| FirstHit(panel, Visit(x, y, o1)) == Some(panel[f.0, f.1]);
    assert OnFire(panel, p, o1);
    var o2: CornerOrder :| FirstHit(panel, Visit(x, y, o2)) == Some(panel[w.0, w.1]);
    assert !OnFire(panel, p, o2);
  }

  /** A living player whose probe meets fire (`fire`). */
  predicate Hurt(p: Player, fire: bool) {
    !p.isDead && fire
  }

  /** A player caught by fire: one life less, stopped if it was moving, and
      dead once no life is left. */
  function Struck(p: Player): (q: Player)
    ensures q.lives == p.lives - 1
    ensures q.isDead <==> p.isDead || p.lives <= 1
    ensures !q.isMoving && q.stopMoveChan == (if p.isMoving then NilChan else p.stopMoveChan)
    ensures q.(lives := p.lives, isDead := p.isDead, isMoving := p.isMoving, stopMoveChan := p.stopMoveChan) == p
  {
    var q := if p.isMoving then p.(lives := p.lives - 1, isMoving := false, stopMoveChan := NilChan)
             else p.(lives := p.lives - 1);
    if q.lives <= 0 then q.(isDead := true) else q
  }

  /** Player record after its check, `fire` telling whether its probe met
      fire: dead players are skipped; the others eat what their probe finds,
      and are struck if it met fire. */
  function Fate(p: Player, eaten: seq<Powerup>, fire: bool): Player {
    if p.isDead then p
    else if fire then Struck(Grown(p, eaten))
    else Grown(p, eaten)
  }

  /** The respawn a struck player that survives is queued for. */
  function RespawnEntry(k: int, p: Player, eaten: seq<Powerup>, fire: bool, at: int): seq<PlayerRespawn> {
    if Hurt(p, fire) && !Struck(Grown(p, eaten)).isDead then [PlayerRespawn(k, at + BombExplosionDuration)] else []
  }

  /** One when the fire kills the player, else zero. */
  function Died(p: Player, eaten: seq<Powerup>, fire: bool): nat {
    if Hurt(p, fire) && Struck(Grown(p, eaten)).isDead then 1 else 0
  }

  /** The stop channel closed when the fire stops a moving player. */
  function ChanClosed(p: Player, fire: bool): set<nat> {
    if Hurt(p, fire) && p.isMoving && p.stopMoveChan.Chan? then {p.stopMoveChan.id} else {}
  }

  /** What the probe of the player may eat: visible powerups on empty corner cells. */
  ghost predicate EatsAround(panel: array2<Cell>, p: Player, eaten: seq<Powerup>)
    reads panel
    requires IsGrid(panel)
  {
    if p.xLocation >= 0 && p.yLocation >= 0 then EatenOn(panel, eaten, CornerCells(p.xLocation, p.yLocation))
    else eaten == []
  }

  /** Each of the first |es| players of `ps` ate what its probe may eat. */
  ghost predicate AllEatAround(panel: array2<Cell>, ps: seq<Player>, es: seq<seq<Powerup>>)
    reads panel
    requires IsGrid(panel) && |es| <= |ps|
  {
    forall j :: 0 <= j < |es| ==> EatsAround(panel, ps[j], es[j])
  }

  /** The event a struck player's fate sends: its dead record, or its lives
      left with its colour. */
  function StruckNotice(k: int, q: Player): Event {
    if q.isDead then PlayerDied(q) else LifeLost(q.lives, q.color, k)
  }

  /** The damage check for player `k`. The queue after the probe, `probed`,
      holds the probe's eat notices; the fire notice follows it. */
  method CheckPlayer(g: GameBoard, k: int, at: int, o: CornerOrder)
    returns (ghost eaten: seq<Powerup>, ghost probed: seq<Payload>, ghost fire: bool)
    requires g.Shape() && 0 <= k < |g.players|
    modifies g`players, g`powerups, g`broadcast, g`closedChans, g`numberOfPlayers, g`pendingRespawns
    ensures g.Shape()
    ensures fire == OnFire(g.panel, old(g.players[k]), o)
    ensures g.players == old(g.players)[k := Fate(old(g.players[k]), eaten, fire)]
    ensures g.pendingRespawns == old(g.pendingRespawns) + RespawnEntry(k, old(g.players[k]), eaten, fire, at)
    ensures g.numberOfPlayers == old(g.numberOfPlayers) - Died(old(g.players[k]), eaten, fire)
    ensures g.closedChans == old(g.closedChans) + ChanClosed(old(g.players[k]), fire)
    ensures multiset(g.powerups) + multiset(eaten) == multiset(old(g.powerups))
    ensures EatsAround(g.panel, old(g.players[k]), eaten)
    ensures old(g.players[k]).isDead ==> eaten == [] && probed == old(g.broadcast)
    ensures g.broadcast == if Hurt(old(g.players[k]), fire)
      then Enqueue(probed, g.broadcastCapacity, Struct(StruckNotice(k, g.players[k])))
      else probed
  {
    eaten, probed := [], g.broadcast;
    fire := OnFire(g.panel, g.players[k], o);
    if g.players[k].isDead {
      return;
    }
    ghost var ps0 := g.players;
    ghost var p0 := g.players[k];
    assert PlayerInBounds(p0);
    var collision;
    collision, eaten := FindCollision(g, k, o);
    probed := g.broadcast;
    AteIsUpdate(ps0, g.players, k, eaten);
    GrownKeepsShape(ps0, g.bombs, g.pendingRespawns, old(g.powerups), g.powerups, eaten, g.nextChanId, g.closedChans, k);
    GrownKeepsPlace(p0, eaten);
    GrownStats(p0, eaten);
    assert WithStatsOf(Grown(p0, eaten), p0) == p0;
    assert collision == OnCell(Fire) <==> OnFire(g.panel, p0, o);
    if collision == OnCell(Fire) {
      Strike(g, k, at);
    }
  }

  /** A living player caught by fire: loses a life and stops moving; dies
      when no life is left ("PD"), otherwise is queued to respawn a blast
      duration after `at` and its loss announced ("PLD"). */
  method Strike(g: GameBoard, k: int, at: int)
    requires g.Shape() && 0 <= k < |g.players| && !g.players[k].isDead
    modifies g`players, g`broadcast, g`closedChans, g`numberOfPlayers, g`pendingRespawns
    ensures g.Shape()
    ensures g.players == old(g.players)[k := Struck(old(g.players[k]))]
    ensures g.pendingRespawns == old(g.pendingRespawns)
      + (if g.players[k].isDead then [] else [PlayerRespawn(k, at + BombExplosionDuration)])
    ensures g.numberOfPlayers == old(g.numberOfPlayers) - (if g.players[k].isDead then 1 else 0)
    ensures g.closedChans == old(g.closedChans)
      + (if old(g.players[k]).isMoving && old(g.players[k]).stopMoveChan.Chan? then {old(g.players[k]).stopMoveChan.id} else {})
    ensures g.broadcast == Enqueue(old(g.broadcast), g.broadcastCapacity, Struct(StruckNotice(k, g.players[k])))
  {
    ghost var p0 := g.players[k];
    var player := g.players[k].(lives := g.players[k].lives - 1);
    ReplaceKeepsShape(g.players, g.bombs, g.pendingRespawns, g.powerups, g.powerups, [], g.nextChanId, g.closedChans, k, player);
    g.players := g.players[k := player];
    if g.players[k].isMoving {
      StopMoving(g, k);
    }
    Settle(g, k, at);
  }

  /** The end of a strike: death when no life is left, otherwise a queued
      respawn and the "PLD" notice. */
  method Settle(g: GameBoard, k: int, at: int)
    requires g.Shape() && 0 <= k < |g.players| && !g.players[k].isDead
    modifies g`players, g`broadcast, g`numberOfPlayers, g`pendingRespawns
    ensures g.Shape()
    ensures g.players == old(g.players)[k := if old(g.players[k]).lives <= 0 then old(g.players[k]).(isDead := true) else old(g.players[k])]
    ensures g.pendingRespawns == old(g.pendingRespawns)
      + (if old(g.players[k]).lives <= 0 then [] else [PlayerRespawn(k, at + BombExplosionDuration)])
    ensures g.numberOfPlayers == old(g.numberOfPlayers) - (if old(g.players[k]).lives <= 0 then 1 else 0)
    ensures g.broadcast == Enqueue(old(g.broadcast), g.broadcastCapacity, Struct(StruckNotice(k, g.players[k])))
  {
    if g.players[k].lives <= 0 {
      ReplaceKeepsShape(g.players, g.bombs, g.pendingRespawns, g.powerups, g.powerups, [], g.nextChanId, g.closedChans, k,
                        g.players[k].(isDead := true));
      PlayerDeath(g, k);
    } else {
      g.pendingRespawns := g.pendingRespawns + [PlayerRespawn(k, at + BombExplosionDuration)];
      SendMsgToChannel(g, Struct(LifeLost(g.players[k].lives, g.players[k].color, k)));
    }
  }

  // ---------------------------------------------------------------------
  // Damage: the pass over all players
  // ---------------------------------------------------------------------

  /** Every player's record after the pass, player j having eaten es[j]. */
  function Fates(ps: seq<Player>, es: seq<seq<Powerup>>, fires: seq<bool>): (r: seq<Player>)
    requires |es| == |ps| == |fires|
    ensures |r| == |ps| && forall j :: 0 <= j < |ps| ==> r[j] == Fate(ps[j], es[j], fires[j])
  {
    seq(|ps|, j requires 0 <= j < |ps| => Fate(ps[j], es[j], fires[j]))
  }

  /** The respawns the pass queues, in player order. */
  function Respawns(ps: seq<Player>, es: seq<seq<Powerup>>, fires: seq<bool>, at: int): seq<PlayerRespawn>
    requires |es| == |ps| == |fires|
    decreases |ps|
  {
    if ps == [] then []
    else
      var n := |ps| - 1;
      Respawns(ps[..n], es[..n], fires[..n], at) + RespawnEntry(n, ps[n], es[n], fires[n], at)
  }

  /** The number of players the pass kills. */
  function Deaths(ps: seq<Player>, es: seq<seq<Powerup>>, fires: seq<bool>): nat
    requires |es| == |ps| == |fires|
    decreases |ps|
  {
    if ps == [] then 0
    else
      var n := |ps| - 1;
      Deaths(ps[..n], es[..n], fires[..n]) + Died(ps[n], es[n], fires[n])
  }

  /** The stop channels the pass closes. */
  function ClosedBy(ps: seq<Player>, fires: seq<bool>): set<nat>
    requires |ps| == |fires|
    decreases |ps|
  {
    if ps == [] then {}
    else
      var n := |ps| - 1;
      ClosedBy(ps[..n], fires[..n]) + ChanClosed(ps[n], fires[n])
  }

  /** Everything eaten, in order. */
  function Flat(es: seq<seq<Powerup>>): seq<Powerup>
    decreases |es|
  {
    if es == [] then [] else Flat(es[..|es| - 1]) + es[|es| - 1]
  }

  /** The effect of the damage pass on players `ps`, player j having eaten
      es[j] and its probe having met fire as fires[j] says: the new records,
      the queued respawns, the deaths, the closed stop channels and the
      eaten powerups. */
  ghost predicate Damage(ps: seq<Player>, es: seq<seq<Powerup>>, fires: seq<bool>, at: int, pl: seq<Player>,
                         pr0: seq<PlayerRespawn>, pr: seq<PlayerRespawn>, np0: int, np: int,
                         cc0: set<nat>, cc: set<nat>, pu0: seq<Powerup>, pu: seq<Powerup>)
  {
    && |es| == |fires| == |ps|
    && pl == Fates(ps, es, fires)
    && pr == pr0 + Respawns(ps, es, fires, at)
    && np == np0 - Deaths(ps, es, fires)
    && cc == cc0 + ClosedBy(ps, fires)
    && multiset(pu) + multiset(Flat(es)) == multiset(pu0)
  }

  /** The damage pass: every living player is probed, in index order, and
      struck if its probe meets fire; dead players are skipped. Player j's
      probe visits the corners in the order `orders[j]`. */
  method CheckExplosion(g: GameBoard, at: int, orders: seq<CornerOrder>)
    returns (ghost es: seq<seq<Powerup>>, ghost fires: seq<bool>)
    requires g.Shape() && |orders| == |g.players|
    modifies g`players, g`powerups, g`broadcast, g`closedChans, g`numberOfPlayers, g`pendingRespawns
    ensures g.Shape()
    ensures Damage(old(g.players), es, fires, at, g.players, old(g.pendingRespawns), g.pendingRespawns,
                   old(g.numberOfPlayers), g.numberOfPlayers, old(g.closedChans), g.closedChans, old(g.powerups), g.powerups)
    ensures fires == FiresOf(g.panel, old(g.players), orders)
    ensures |es| == |old(g.players)| && AllEatAround(g.panel, old(g.players), es)
  {
    es := [];
    ghost var ps0 := g.players;
    fires := FiresOf(g.panel, ps0, orders);
    var k := 0;
    while k < |g.players|
      invariant 0 <= k <= |ps0| == |g.players| && |es| == k
      invariant g.Shape()
      invariant PassState(ps0, es, fires, at, k, g.players, old(g.pendingRespawns), g.pendingRespawns,
                          old(g.numberOfPlayers), g.numberOfPlayers, old(g.closedChans), g.closedChans,
                          old(g.powerups), g.powerups)
      invariant AllEatAround(g.panel, ps0, es)
    {
      ghost var e := PassPlayer(g, k, at, orders[k], ps0, es, fires, old(g.pendingRespawns), old(g.numberOfPlayers),
                                old(g.closedChans), old(g.powerups));
      es := es + [e];
      k := k + 1;
    }
    PassDone(ps0, es, fires, at, g.players, old(g.pendingRespawns), g.pendingRespawns,
             old(g.numberOfPlayers), g.numberOfPlayers, old(g.closedChans), g.closedChans, old(g.powerups), g.powerups);
  }

  /** One step of the damage pass: player k's check extends the pass by k. */
  method PassPlayer(g: GameBoard, k: int, at: int, o: CornerOrder, ghost ps0: seq<Player>, ghost es: seq<seq<Powerup>>,
                    ghost fires: seq<bool>, ghost pr0: seq<PlayerRespawn>, ghost np0: int, ghost cc0: set<nat>,
                    ghost pu0: seq<Powerup>)
    returns (ghost e: seq<Powerup>)
    requires g.Shape() && 0 <= k < |ps0| == |g.players| == |fires| && |es| == k
    requires fires[k] == OnFire(g.panel, ps0[k], o)
    requires PassState(ps0, es, fires, at, k, g.players, pr0, g.pendingRespawns, np0, g.numberOfPlayers,
                       cc0, g.closedChans, pu0, g.powerups)
    requires AllEatAround(g.panel, ps0, es)
    modifies g`players, g`powerups, g`broadcast, g`closedChans, g`numberOfPlayers, g`pendingRespawns
    ensures g.Shape() && |g.players| == |ps0|
    ensures PassState(ps0, es + [e], fires, at, k + 1, g.players, pr0, g.pendingRespawns, np0, g.numberOfPlayers,
                      cc0, g.closedChans, pu0, g.powerups)
    ensures AllEatAround(g.panel, ps0, es + [e])
  {
    ghost var pl, pr, np, cc, pu := g.players, g.pendingRespawns, g.numberOfPlayers, g.closedChans, g.powerups;
    assert pl[k] == ps0[k];
    ghost var probed, fire;
    e, probed, fire := CheckPlayer(g, k, at, o);
    PassAdvance(ps0, es, fires, at, k, e, pl, g.players, pr0, pr, g.pendingRespawns,
                np0, np, g.numberOfPlayers, cc0, cc, g.closedChans, pu0, pu, g.powerups);
  }

  /** The pass over every player is the damage pass. */
  lemma PassDone(ps0: seq<Player>, es: seq<seq<Powerup>>, fires: seq<bool>, at: int, pl: seq<Player>,
                 pr0: seq<PlayerRespawn>, pr: seq<PlayerRespawn>, np0: int, np: int,
                 cc0: set<nat>, cc: set<nat>, pu0: seq<Powerup>, pu: seq<Powerup>)
    requires |ps0| == |fires| && |es| == |ps0|
    requires PassState(ps0, es, fires, at, |ps0|, pl, pr0, pr, np0, np, cc0, cc, pu0, pu)
    ensures Damage(ps0, es, fires, at, pl, pr0, pr, np0, np, cc0, cc, pu0, pu)
  {
    assert ps0[..|ps0|] == ps0 && fires[..|ps0|] == fires;
  }

  /** The pass over the first k players: they have met their fates, the
      rest are untouched, and each account holds exactly their shares. */
  ghost predicate PassState(ps0: seq<Player>, es: seq<seq<Powerup>>, fires: seq<bool>, at: int, k: int, pl: seq<Player>,
                            pr0: seq<PlayerRespawn>, pr: seq<PlayerRespawn>, np0: int, np: int,
                            cc0: set<nat>, cc: set<nat>, pu0: seq<Powerup>, pu: seq<Powerup>)
    requires 0 <= k <= |ps0| == |fires| && |es| == k
  {
    && |pl| == |ps0|
    && (forall j :: 0 <= j < k ==> pl[j] == Fate(ps0[j], es[j], fires[j]))
    && (forall j :: k <= j < |ps0| ==> pl[j] == ps0[j])
    && pr == pr0 + Respawns(ps0[..k], es, fires[..k], at)
    && np == np0 - Deaths(ps0[..k], es, fires[..k])
    && cc == cc0 + ClosedBy(ps0[..k], fires[..k])
    && multiset(pu) + multiset(Flat(es)) == multiset(pu0)
  }

  /** Checking player k advances the pass by one player. */
  lemma PassAdvance(ps0: seq<Player>, es: seq<seq<Powerup>>, fires: seq<bool>, at: int, k: int, e: seq<Powerup>,
                    pl: seq<Player>, pl1: seq<Player>,
                    pr0: seq<PlayerRespawn>, pr: seq<PlayerRespawn>, pr1: seq<PlayerRespawn>,
                    np0: int, np: int, np1: int, cc0: set<nat>, cc: set<nat>, cc1: set<nat>,
                    pu0: seq<Powerup>, pu: seq<Powerup>, pu1: seq<Powerup>)
    requires 0 <= k < |ps0| == |fires| && |es| == k
    requires PassState(ps0, es, fires, at, k, pl, pr0, pr, np0, np, cc0, cc, pu0, pu)
    requires pl1 == pl[k := Fate(pl[k], e, fires[k])]
    requires pr1 == pr + RespawnEntry(k, pl[k], e, fires[k], at)
    requires np1 == np - Died(pl[k], e, fires[k])
    requires cc1 == cc + ChanClosed(pl[k], fires[k])
    requires multiset(pu1) + multiset(e) == multiset(pu)
    ensures PassState(ps0, es + [e], fires, at, k + 1, pl1, pr0, pr1, np0, np1, cc0, cc1, pu0, pu1)
  {
    PassStep(ps0, es, fires, e, k, at);
    AppendAssoc(pr0, Respawns(ps0[..k], es, fires[..k], at), RespawnEntry(k, ps0[k], e, fires[k], at));
  }

  /** Extending the pass by player k extends each of its accounts by k's share. */
  lemma PassStep(ps: seq<Player>, es: seq<seq<Powerup>>, fires: seq<bool>, e: seq<Powerup>, k: int, at: int)
    requires 0 <= k < |ps| == |fires| && |es| == k
    ensures Respawns(ps[..k + 1], es + [e], fires[..k + 1], at) == Respawns(ps[..k], es, fires[..k], at) + RespawnEntry(k, ps[k], e, fires[k], at)
    ensures Deaths(ps[..k + 1], es + [e], fires[..k + 1]) == Deaths(ps[..k], es, fires[..k]) + Died(ps[k], e, fires[k])
    ensures ClosedBy(ps[..k + 1], fires[..k + 1]) == ClosedBy(ps[..k], fires[..k]) + ChanClosed(ps[k], fires[k])
    ensures Flat(es + [e]) == Flat(es) + e
  {
    assert ps[..k + 1][..k] == ps[..k];
    assert (es + [e])[..k] == es;
    assert fires[..k + 1][..k] == fires[..k];
  }

  /** Whether each player's probe meets fire, player j's probe visiting the
      corners in the order `os[j]`. */
  ghost function FiresOf(panel: array2<Cell>, ps: seq<Player>, os: seq<CornerOrder>): (r: seq<bool>)
    reads panel
    requires IsGrid(panel) && |os| == |ps|
    ensures |r| == |ps| && forall j :: 0 <= j < |ps| ==> r[j] == OnFire(panel, ps[j], os[j])
  {
    seq(|ps|, j requires 0 <= j < |ps| reads panel => OnFire(panel, ps[j], os[j]))
  }

  lemma AppendAssoc<T>(a: seq<T>, b: seq<T>, c: seq<T>)
    ensures (a + b) + c == a + (b + c)
  {
  }

  // ---------------------------------------------------------------------
  // One bomb's explosion
  // ---------------------------------------------------------------------

  /** Whether the blast covers cell (r, c). */
  ghost predicate Covers(affected: seq<Position>, r: int, c: int) {
    exists k :: 0 <= k < |affected| && affected[k].row == r && affected[k].col == c
  }

  lemma CoversStep(affected: seq<Position>, k: int)
    requires 0 <= k < |affected|
    ensures forall r, c :: Covers(affected[..k + 1], r, c) <==>
      Covers(affected[..k], r, c) || (affected[k].row == r && affected[k].col == c)
  {
    var prefix, longer := affected[..k], affected[..k + 1];
    assert longer == prefix + [affected[k]];
    forall r, c ensures Covers(longer, r, c) <==>
      Covers(prefix, r, c) || (affected[k].row == r && affected[k].col == c)
    {
      if Covers(longer, r, c) {
        var m :| 0 <= m < k + 1 && longer[m].row == r && longer[m].col == c;
        if m < k {
          assert prefix[m] == longer[m];
        }
      }
      if Covers(prefix, r, c) {
        var m :| 0 <= m < k && prefix[m].row == r && prefix[m].col == c;
        assert longer[m] == prefix[m];
      }
      if affected[k].row == r && affected[k].col == c {
        assert longer[k] == affected[k];
      }
    }
  }

  /** A bomb after another bomb's blast: one on the exploding bomb's own
      cell is skipped; one the blast covers is set to go off at `at`. */
  ghost function ChainOne(b: Bomb, bomb: Bomb, affected: seq<Position>, at: int): Bomb {
    if b.row == bomb.row && b.column == bomb.column then b
    else if Covers(affected, b.row, b.column) then b.(explosionTime := at)
    else b
  }

  ghost function Chained(bombs: seq<Bomb>, bomb: Bomb, affected: seq<Position>, at: int): (r: seq<Bomb>)
    ensures |r| == |bombs| && forall k :: 0 <= k < |bombs| ==> r[k] == ChainOne(bombs[k], bomb, affected, at)
  {
    seq(|bombs|, k requires 0 <= k < |bombs| => ChainOne(bombs[k], bomb, affected, at))
  }

  /** Linear search of the blast for cell (r, c). */
  method InBlast(affected: seq<Position>, r: int, c: int) returns (found: bool)
    ensures found == Covers(affected, r, c)
  {
    var k := 0;
    while k < |affected|
      invariant 0 <= k <= |affected|
      invariant forall m :: 0 <= m < k ==> !(affected[m].row == r && affected[m].col == c)
    {
      if affected[k].row == r && affected[k].col == c {
        return true;
      }
      k := k + 1;
    }
    return false;
  }

  /** The chain reaction: every other bomb the blast covers is retimed to `at`. */
  method IgniteChain(g: GameBoard, bomb: Bomb, affected: seq<Position>, at: int)
    modifies g`bombs
    ensures g.bombs == Chained(old(g.bombs), bomb, affected, at)
  {
    var i := 0;
    while i < |g.bombs|
      invariant 0 <= i <= |g.bombs| == |old(g.bombs)|
      invariant forall k :: 0 <= k < i ==> g.bombs[k] == ChainOne(old(g.bombs[k]), bomb, affected, at)
      invariant forall k :: i <= k < |g.bombs| ==> g.bombs[k] == old(g.bombs[k])
    {
      if !(g.bombs[i].row == bomb.row && g.bombs[i].column == bomb.column) {
        var hit := InBlast(affected, g.bombs[i].row, g.bombs[i].column);
        if hit {
          g.bombs := g.bombs[i := g.bombs[i].(explosionTime := at)];
        }
      }
      i := i + 1;
    }
  }

  /** A blast cell that catches fire: in the grid and not a wall. */
  ghost predicate Burns(panel: array2<Cell>, p: Position)
    reads panel
    requires IsGrid(panel)
  {
    InGrid(p.row, p.col) && panel[p.row, p.col] != Wall
  }

  /** The positions the "EXC" notice lists: the burning blast cells, in
      blast order, flagged on fire. */
  ghost function FirePositions(panel: array2<Cell>, affected: seq<Position>): seq<Position>
    reads panel
    requires IsGrid(panel)
    decreases |affected|
  {
    if affected == [] then []
    else
      var p := affected[|affected| - 1];
      FirePositions(panel, affected[..|affected| - 1]) + (if Burns(panel, p) then [Position(p.row, p.col, true)] else [])
  }

  /** The fire entries the blast schedules, each clearing at `clearTime`. */
  ghost function FireEntries(panel: array2<Cell>, affected: seq<Position>, clearTime: int): seq<ExplodedCellInfo>
    reads panel
    requires IsGrid(panel)
    decreases |affected|
  {
    if affected == [] then []
    else
      var p := affected[|affected| - 1];
      FireEntries(panel, affected[..|affected| - 1], clearTime) + (if Burns(panel, p) then [ExplodedCellInfo(p, clearTime)] else [])
  }

  /** The panel after a blast over `affected`: every covered in-grid cell
      that was not a wall is fire, every other cell is as it was. */
  twostate predicate Burned(panel: array2<Cell>, affected: seq<Position>)
    requires IsGrid(panel)
    reads panel
  {
    forall r, c :: 0 <= r < NumberOfRows && 0 <= c < NumberOfColumns ==>
      panel[r, c] == if Covers(affected, r, c) && old(panel[r, c]) != Wall then Fire else old(panel[r, c])
  }

  /** Sets the blast on fire: every covered in-grid cell that is not a wall
      (destructible blocks included) becomes fire and is scheduled to clear
      a blast duration after `at`; walls and uncovered cells stay. */
  method Kindle(g: GameBoard, affected: seq<Position>, at: int) returns (positions: seq<Position>)
    requires IsGrid(g.panel)
    modifies g.panel, g`explodedCells
    ensures positions == old(FirePositions(g.panel, affected))
    ensures g.explodedCells == old(g.explodedCells) + old(FireEntries(g.panel, affected, at + BombExplosionDuration))
    ensures Burned(g.panel, affected)
  {
    positions := [];
    var k := 0;
    while k < |affected|
      invariant 0 <= k <= |affected|
      invariant positions == old(FirePositions(g.panel, affected[..k]))
      invariant g.explodedCells == old(g.explodedCells) + old(FireEntries(g.panel, affected[..k], at + BombExplosionDuration))
      invariant forall r, c :: 0 <= r < NumberOfRows && 0 <= c < NumberOfColumns ==>
        g.panel[r, c] == if Covers(affected[..k], r, c) && old(g.panel[r, c]) != Wall then Fire else old(g.panel[r, c])
    {
      var pos := affected[k];
      assert affected[..k + 1][..k] == affected[..k];
      CoversStep(affected, k);
      if 0 <= pos.row < NumberOfRows && 0 <= pos.col < NumberOfColumns {
        if g.panel[pos.row, pos.col] != Wall {
          g.panel[pos.row, pos.col] := Fire;
          g.explodedCells := g.explodedCells + [ExplodedCellInfo(pos, at + BombExplosionDuration)];
          positions := positions + [Position(pos.row, pos.col, true)];
        }
      }
      k := k + 1;
    }
    assert affected[..k] == affected;
  }

  /** The owner after its bomb went off: one live bomb fewer. */
  function Spent(ps: seq<Player>, i: int): seq<Player>
    requires 0 <= i < |ps|
  {
    ps[i := ps[i].(numberOfUsedBombs := ps[i].numberOfUsedBombs - 1)]
  }

  /** The blast alone, before the damage pass: `affected` is the owner's
      blast, the bombs it reaches are retimed, its cells burn and are
      scheduled to clear, and `announced` is the queue right after the
      "EXC" notice. */
  twostate predicate Detonated(g: GameBoard, bomb: Bomb, at: int, affected: seq<Position>, new announced: seq<Payload>)
    requires IsGrid(g.panel) && 0 <= bomb.ownPlayerIndex < |old(g.players)|
    reads g`bombs, g`explodedCells, g.panel
  {
    && affected == old(Blast(g.panel, bomb.row, bomb.column, g.players[bomb.ownPlayerIndex].bombRange))
    && g.bombs == Chained(old(g.bombs), bomb, affected, at)
    && Burned(g.panel, affected)
    && g.explodedCells == old(g.explodedCells) + old(FireEntries(g.panel, affected, at + BombExplosionDuration))
    && announced == Enqueue(old(g.broadcast), g.broadcastCapacity,
                            Struct(ExplodedCells(old(FirePositions(g.panel, affected)), bomb.row, bomb.column)))
  }

  /** The blast of a bomb whose owner exists: the blast cells from the
      owner's current range, the chain reaction, the fire, one "EXC" notice
      with the burning cells and the bomb's cell, and the owner's allowance
      given back. */
  method Detonate(g: GameBoard, bomb: Bomb, at: int) returns (ghost affected: seq<Position>)
    requires g.Shape() && 0 <= bomb.ownPlayerIndex < |g.players|
    modifies g`players, g`bombs, g.panel, g`explodedCells, g`broadcast
    ensures g.Shape()
    ensures Detonated(g, bomb, at, affected, g.broadcast)
    ensures g.players == Spent(old(g.players), bomb.ownPlayerIndex)
  {
    var owner := bomb.ownPlayerIndex;
    var a := CalculateBombRange(g, bomb.row, bomb.column, g.players[owner].bombRange);
    affected := a;
    Blaze(g, bomb, a, at);
    ChainedKeepsShape(g.players, old(g.bombs), g.pendingRespawns, g.powerups, g.nextChanId, g.closedChans, bomb, a, at);
    SpentKeepsShape(g.players, g.bombs, g.pendingRespawns, g.powerups, g.nextChanId, g.closedChans, owner);
    g.players := Spent(g.players, owner);
  }

  /** The chain reaction, the fire and the "EXC" notice of one blast. */
  method Blaze(g: GameBoard, bomb: Bomb, affected: seq<Position>, at: int)
    requires IsGrid(g.panel)
    modifies g`bombs, g.panel, g`explodedCells, g`broadcast
    ensures g.bombs == Chained(old(g.bombs), bomb, affected, at)
    ensures Burned(g.panel, affected)
    ensures g.explodedCells == old(g.explodedCells) + old(FireEntries(g.panel, affected, at + BombExplosionDuration))
    ensures g.broadcast == Enqueue(old(g.broadcast), g.broadcastCapacity,
                                   Struct(ExplodedCells(old(FirePositions(g.panel, affected)), bomb.row, bomb.column)))
  {
    IgniteChain(g, bomb, affected, at);
    var positions := Kindle(g, affected, at);
    SendMsgToChannel(g, Struct(ExplodedCells(positions, bomb.row, bomb.column)));
  }

  lemma SpentKeepsShape(players: seq<Player>, bombs: seq<Bomb>, pendingRespawns: seq<PlayerRespawn>,
                        powerups: seq<Powerup>, nextChanId: nat, closedChans: set<nat>, i: int)
    requires ShapeOf(players, bombs, pendingRespawns, powerups, nextChanId, closedChans) && 0 <= i < |players|
    ensures ShapeOf(Spent(players, i), bombs, pendingRespawns, powerups, nextChanId, closedChans)
  {
    ReplaceKeepsShape(players, bombs, pendingRespawns, powerups, powerups, [], nextChanId, closedChans,
                      i, players[i].(numberOfUsedBombs := players[i].numberOfUsedBombs - 1));
  }

  /** Retiming bombs keeps their cells, so the board invariant holds. */
  lemma ChainedKeepsShape(players: seq<Player>, bombs: seq<Bomb>, pendingRespawns: seq<PlayerRespawn>,
                          powerups: seq<Powerup>, nextChanId: nat, closedChans: set<nat>,
                          bomb: Bomb, affected: seq<Position>, at: int)
    requires ShapeOf(players, bombs, pendingRespawns, powerups, nextChanId, closedChans)
    ensures ShapeOf(players, Chained(bombs, bomb, affected, at), pendingRespawns, powerups, nextChanId, closedChans)
  {
    var bs := Chained(bombs, bomb, affected, at);
    forall k | 0 <= k < |bs| ensures InGrid(bs[k].row, bs[k].column) {
      assert InGrid(bombs[k].row, bombs[k].column);
    }
  }

  /** One bomb going off: the blast, then the damage pass over all players
      on the new panel, its clock readings being `at`. A bomb whose owner
      index names no player changes nothing. `announced` is the queue right
      after the "EXC" notice. */
  method ApplyExplosion(g: GameBoard, bomb: Bomb, at: int, orders: seq<CornerOrder>)
      returns (ghost affected: seq<Position>, ghost announced: seq<Payload>,
               ghost es: seq<seq<Powerup>>, ghost fires: seq<bool>)
    requires g.Shape() && |orders| == |g.players|
    modifies g`players, g`bombs, g.panel, g`explodedCells, g`broadcast, g`powerups, g`closedChans,
             g`numberOfPlayers, g`pendingRespawns
    ensures g.Shape()
    ensures !(0 <= bomb.ownPlayerIndex < |old(g.players)|) ==> unchanged(g) && unchanged(g.panel)
    ensures 0 <= bomb.ownPlayerIndex < |old(g.players)| ==>
      Exploded(g, bomb, at, orders, affected, announced, es, fires)
  {
    affected, announced, es, fires := [], g.broadcast, [], [];
    if 0 <= bomb.ownPlayerIndex < |g.players| {
      affected, announced, es, fires := Explode(g, bomb, at, orders);
    }
  }

  /** What a bomb with an existing owner does to the board. */
  twostate predicate Exploded(g: GameBoard, bomb: Bomb, at: int, orders: seq<CornerOrder>, affected: seq<Position>,
                              new announced: seq<Payload>, es: seq<seq<Powerup>>, fires: seq<bool>)
    requires IsGrid(g.panel) && 0 <= bomb.ownPlayerIndex < |old(g.players)| && |orders| == |old(g.players)|
    reads g, g.panel
  {
    var spent := Spent(old(g.players), bomb.ownPlayerIndex);
    && Detonated(g, bomb, at, affected, announced)
    && Damage(spent, es, fires, at, g.players, old(g.pendingRespawns), g.pendingRespawns,
              old(g.numberOfPlayers), g.numberOfPlayers, old(g.closedChans), g.closedChans, old(g.powerups), g.powerups)
    && fires == FiresOf(g.panel, spent, orders)
  }

  method Explode(g: GameBoard, bomb: Bomb, at: int, orders: seq<CornerOrder>)
      returns (ghost affected: seq<Position>, ghost announced: seq<Payload>,
               ghost es: seq<seq<Powerup>>, ghost fires: seq<bool>)
    requires g.Shape() && 0 <= bomb.ownPlayerIndex < |g.players| && |orders| == |g.players|
    modifies g`players, g`bombs, g.panel, g`explodedCells, g`broadcast, g`powerups, g`closedChans,
             g`numberOfPlayers, g`pendingRespawns
    ensures g.Shape()
    ensures Exploded(g, bomb, at, orders, affected, announced, es, fires)
  {
    affected := Detonate(g, bomb, at);
    announced := g.broadcast;
    assert Detonated(g, bomb, at, affected, announced);
    es, fires := CheckExplosion(g, at, orders);
    assert Burned(g.panel, affected);
  }
}
