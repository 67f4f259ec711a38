/** The bomb watcher's sweep over the live bombs: every bomb whose time has
    passed goes off, the others are kept for the next tick. */
module Sweep {
  import opened Models
  import opened Board
  import opened Powerups
  import opened Movement
  import opened Bombs
  import opened Explosions

  /** A bomb whose explosion time lies strictly before the sweep's clock reading. */
  predicate Due(b: Bomb, now: int) {
    now > b.explosionTime
  }

  /** The bombs of `snap` that are not due, in their order. */
  function Kept(snap: seq<Bomb>, now: int): seq<Bomb>
    decreases |snap|
  {
    if snap == [] then []
    else
      var n := |snap| - 1;
      Kept(snap[..n], now) + (if Due(snap[n], now) then [] else [snap[n]])
  }

  /** A bomb is kept exactly when it was seen and is not due. */
  lemma {:induction false} KeptSpec(snap: seq<Bomb>, now: int)
    ensures |Kept(snap, now)| <= |snap|
    ensures forall b :: b in Kept(snap, now) <==> b in snap && !Due(b, now)
    decreases |snap|
  {
    if snap != [] {
      var n := |snap| - 1;
      KeptSpec(snap[..n], now);
      assert snap == snap[..n] + [snap[n]];
    }
  }

  /** `b` is `b0`, possibly retimed to `at` by a chain reaction. */
  predicate Retimed(b0: Bomb, b: Bomb, at: int) {
    b == b0 || b == b0.(explosionTime := at)
  }

  /** Some bomb seen before position j was due. */
  ghost predicate FiredBefore(snap: seq<Bomb>, j: int, now: int) {
    exists i :: 0 <= i < j && i < |snap| && Due(snap[i], now)
  }

  /** The blast `blast` of bomb `fired` reaches bomb `b`: it covers b's
      cell, which is not the cell of `fired`. */
  ghost predicate HitBy(b: Bomb, fired: Bomb, blast: seq<Position>) {
    !(b.row == fired.row && b.column == fired.column) && Covers(blast, b.row, b.column)
  }

  /** One of the first n blasts of the sweep reaches `b`, blast i being that
      of the i-th bomb seen (empty when it did not go off). */
  ghost predicate HitBefore(b: Bomb, snap: seq<Bomb>, blasts: seq<seq<Position>>, n: int) {
    exists i :: 0 <= i < n && i < |snap| && i < |blasts| && HitBy(b, snap[i], blasts[i])
  }

  /** Bomb `b0` after the first n blasts: retimed to `at` if one reached it. */
  ghost function AfterBlasts(b0: Bomb, snap: seq<Bomb>, blasts: seq<seq<Position>>, n: int, at: int): Bomb {
    if HitBefore(b0, snap, blasts, n) then b0.(explosionTime := at) else b0
  }

  /** The sweep after k bombs, `b0` being the list it started from, `bs` the
      list now, `snap` the copies it saw, `blasts` their blasts and
      `remaining` those it kept. Every bomb stands as the blasts so far left
      it; each copy as the blasts before it left it; only due bombs blew. */
  ghost predicate SweepState(b0: seq<Bomb>, bs: seq<Bomb>, snap: seq<Bomb>, blasts: seq<seq<Position>>,
                             remaining: seq<Bomb>, k: int, now: int, at: int)
  {
    && 0 <= k <= |b0| && |bs| == |b0| && |snap| == k && |blasts| == k
    && (forall j :: 0 <= j < k ==> snap[j] == AfterBlasts(b0[j], snap, blasts, j, at))
    && (forall j :: 0 <= j < |b0| ==> bs[j] == AfterBlasts(b0[j], snap, blasts, k, at))
    && (forall i :: 0 <= i < k && blasts[i] != [] ==> Due(snap[i], now))
    && remaining == Kept(snap, now)
  }

  /** Blast i is non-empty exactly when the i-th copy was due and its
      owner one of the np players, and then it starts at the bomb's cell. */
  ghost predicate BlastsFit(snap: seq<Bomb>, blasts: seq<seq<Position>>, now: int, np: int)
    requires |snap| == |blasts|
  {
    forall i :: 0 <= i < |snap| ==>
      && (blasts[i] != [] <==> Due(snap[i], now) && 0 <= snap[i].ownPlayerIndex < np)
      && (blasts[i] != [] ==> blasts[i][0] == Position(snap[i].row, snap[i].column, false))
  }

  /** A blast starts at the bomb's own cell. */
  lemma BlastStarts(panel: array2<Cell>, row: int, column: int, range: int)
    requires IsGrid(panel)
    ensures Blast(panel, row, column, range) != [] && Blast(panel, row, column, range)[0] == Position(row, column, false)
  {
    BlastShape(panel, row, column, range);
  }

  /** A blast that fits its bomb extends a fitting sweep. */
  lemma BlastsFitStep(snap: seq<Bomb>, blasts: seq<seq<Position>>, bomb: Bomb, blast: seq<Position>, now: int, np: int)
    requires |snap| == |blasts| && BlastsFit(snap, blasts, now, np)
    requires blast != [] <==> Due(bomb, now) && 0 <= bomb.ownPlayerIndex < np
    requires blast != [] ==> blast[0] == Position(bomb.row, bomb.column, false)
    ensures BlastsFit(snap + [bomb], blasts + [blast], now, np)
  {
    var s2, b2 := snap + [bomb], blasts + [blast];
    forall i | 0 <= i < |s2|
      ensures b2[i] != [] <==> Due(s2[i], now) && 0 <= s2[i].ownPlayerIndex < np
      ensures b2[i] != [] ==> b2[i][0] == Position(s2[i].row, s2[i].column, false)
    {
      if i < |snap| {
        assert s2[i] == snap[i] && b2[i] == blasts[i];
      }
    }
  }

  /** Appending a bomb and its blast does not change what the earlier
      blasts reach. */
  lemma HitBeforeExtend(b: Bomb, snap: seq<Bomb>, blasts: seq<seq<Position>>, x: Bomb, blast: seq<Position>, n: int)
    requires n <= |snap| == |blasts|
    ensures HitBefore(b, snap + [x], blasts + [blast], n) == HitBefore(b, snap, blasts, n)
    ensures HitBefore(b, snap + [x], blasts + [blast], |snap| + 1) ==
      (HitBefore(b, snap, blasts, |snap|) || HitBy(b, x, blast))
  {
    var snap2, blasts2 := snap + [x], blasts + [blast];
    if HitBefore(b, snap2, blasts2, |snap| + 1) {
      var i :| 0 <= i < |snap| + 1 && i < |snap2| && i < |blasts2| && HitBy(b, snap2[i], blasts2[i]);
      if i < |snap| {
        assert snap2[i] == snap[i] && blasts2[i] == blasts[i];
      }
    }
    if HitBefore(b, snap, blasts, |snap|) {
      var i :| 0 <= i < |snap| && i < |blasts| && HitBy(b, snap[i], blasts[i]);
      assert snap2[i] == snap[i] && blasts2[i] == blasts[i];
    }
    if HitBy(b, x, blast) {
      assert snap2[|snap|] == x && blasts2[|snap|] == blast;
    }
    if HitBefore(b, snap2, blasts2, n) {
      var i :| 0 <= i < n && i < |snap2| && i < |blasts2| && HitBy(b, snap2[i], blasts2[i]);
      assert snap2[i] == snap[i] && blasts2[i] == blasts[i];
    }
    if HitBefore(b, snap, blasts, n) {
      var i :| 0 <= i < n && i < |snap| && i < |blasts| && HitBy(b, snap[i], blasts[i]);
      assert snap2[i] == snap[i] && blasts2[i] == blasts[i];
    }
  }

  /** A chain retiming keeps the bomb's cell, so whether a blast reaches it
      is the same before and after. */
  lemma HitSameCell(b0: Bomb, b: Bomb, fired: Bomb, blast: seq<Position>, at: int)
    requires Retimed(b0, b, at)
    ensures HitBy(b, fired, blast) == HitBy(b0, fired, blast)
  {
  }

  /** Seeing bomb k, and the list changing only by that bomb going off with
      blast `blast` (empty when it did not go off). */
  lemma SweepStep(b0: seq<Bomb>, bs: seq<Bomb>, bs2: seq<Bomb>, snap: seq<Bomb>, blasts: seq<seq<Position>>,
                  k: int, now: int, at: int, blast: seq<Position>)
    requires SweepState(b0, bs, snap, blasts, Kept(snap, now), k, now, at) && k < |b0|
    requires blast == [] ==> bs2 == bs
    requires blast != [] ==> Due(bs[k], now) && bs2 == Chained(bs, bs[k], blast, at)
    ensures SweepState(b0, bs2, snap + [bs[k]], blasts + [blast], Kept(snap + [bs[k]], now), k + 1, now, at)
  {
    var snap2, blasts2 := snap + [bs[k]], blasts + [blast];
    forall j | 0 <= j < k + 1 ensures snap2[j] == AfterBlasts(b0[j], snap2, blasts2, j, at) {
      HitBeforeExtend(b0[j], snap, blasts, bs[k], blast, j);
    }
    forall j | 0 <= j < |b0| ensures bs2[j] == AfterBlasts(b0[j], snap2, blasts2, k + 1, at) {
      HitBeforeExtend(b0[j], snap, blasts, bs[k], blast, k);
      HitSameCell(b0[j], bs[j], bs[k], blast, at);
    }
    forall i | 0 <= i < k + 1 && blasts2[i] != [] ensures Due(snap2[i], now) {
      if i < k {
        assert blasts2[i] == blasts[i] && snap2[i] == snap[i];
      }
    }
  }

  /** What the sweep's description implies: every copy is its bomb, possibly
      retimed, and only after an earlier bomb went off. */
  lemma SweepRetimes(b0: seq<Bomb>, snap: seq<Bomb>, blasts: seq<seq<Position>>, now: int, at: int)
    requires |snap| == |b0| == |blasts|
    requires forall j :: 0 <= j < |snap| ==> snap[j] == AfterBlasts(b0[j], snap, blasts, j, at)
    requires forall i :: 0 <= i < |snap| && blasts[i] != [] ==> Due(snap[i], now)
    ensures forall j :: 0 <= j < |snap| ==> Retimed(b0[j], snap[j], at)
    ensures forall j :: 0 <= j < |snap| && snap[j] != b0[j] ==> FiredBefore(snap, j, now)
  {
    forall j | 0 <= j < |snap| && snap[j] != b0[j] ensures FiredBefore(snap, j, now) {
      var i :| 0 <= i < j && i < |snap| && i < |blasts| && HitBy(b0[j], snap[i], blasts[i]);
      assert blasts[i] != [];
    }
  }

  /** The finished sweep, spelled out bomb by bomb. */
  lemma SweepDone(b0: seq<Bomb>, bs: seq<Bomb>, snap: seq<Bomb>, blasts: seq<seq<Position>>, remaining: seq<Bomb>,
                  now: int, at: int, np: int)
    requires SweepState(b0, bs, snap, blasts, remaining, |b0|, now, at) && BlastsFit(snap, blasts, now, np)
    ensures |snap| == |blasts| == |bs| == |b0|
    ensures forall j :: 0 <= j < |snap| ==> snap[j] == AfterBlasts(b0[j], snap, blasts, j, at)
    ensures forall j :: 0 <= j < |snap| ==> bs[j] == AfterBlasts(b0[j], snap, blasts, |snap|, at)
    ensures forall i :: 0 <= i < |snap| ==> (blasts[i] != [] <==> Due(snap[i], now) && 0 <= snap[i].ownPlayerIndex < np)
    ensures forall i :: 0 <= i < |snap| && blasts[i] != [] ==> blasts[i][0] == Position(snap[i].row, snap[i].column, false)
    ensures remaining == Kept(snap, now)
  {
    forall i | 0 <= i < |snap|
      ensures blasts[i] != [] <==> Due(snap[i], now) && 0 <= snap[i].ownPlayerIndex < np
      ensures blasts[i] != [] ==> blasts[i][0] == Position(snap[i].row, snap[i].column, false)
    {
    }
  }

  /** Each remaining player's counter covers the kept bombs and those not yet seen. */
  ghost predicate Tally(players: seq<Player>, remaining: seq<Bomb>, rest: seq<Bomb>) {
    forall p :: 0 <= p < |players| ==> players[p].numberOfUsedBombs == UsedBy(remaining, p) + UsedBy(rest, p)
  }

  lemma UsedByCons(b: Bomb, rest: seq<Bomb>, p: int)
    ensures UsedBy([b] + rest, p) == (if b.ownPlayerIndex == p then 1 else 0) + UsedBy(rest, p)
  {
    UsedByAppend([b], rest, p);
    assert [b][..0] == [];
  }

  /** Keeping the next bomb moves it from the unseen part to the kept part. */
  lemma TallyKeep(players: seq<Player>, remaining: seq<Bomb>, rest: seq<Bomb>)
    requires Tally(players, remaining, rest) && rest != []
    ensures Tally(players, remaining + [rest[0]], rest[1..])
  {
    assert rest == [rest[0]] + rest[1..];
    forall p | 0 <= p < |players|
      ensures players[p].numberOfUsedBombs == UsedBy(remaining + [rest[0]], p) + UsedBy(rest[1..], p)
    {
      UsedByCons(rest[0], rest[1..], p);
      UsedByAppend(remaining, [rest[0]], p);
      UsedByCons(rest[0], [], p);
      assert [rest[0]] + [] == [rest[0]];
    }
  }

  /** A bomb whose owner is no player counts for nobody. */
  lemma TallySkip(players: seq<Player>, remaining: seq<Bomb>, rest: seq<Bomb>)
    requires Tally(players, remaining, rest) && rest != []
    requires !(0 <= rest[0].ownPlayerIndex < |players|)
    ensures Tally(players, remaining, rest[1..])
  {
    assert rest == [rest[0]] + rest[1..];
    forall p | 0 <= p < |players|
      ensures players[p].numberOfUsedBombs == UsedBy(remaining, p) + UsedBy(rest[1..], p)
    {
      UsedByCons(rest[0], rest[1..], p);
    }
  }

  /** The damage pass leaves every used-bomb counter as it was. */
  lemma FateKeepsUsed(p: Player, eaten: seq<Powerup>, fire: bool)
    ensures Fate(p, eaten, fire).numberOfUsedBombs == p.numberOfUsedBombs
  {
    GrownStats(p, eaten);
    assert WithStatsOf(Grown(p, eaten), p).numberOfUsedBombs == Grown(p, eaten).numberOfUsedBombs;
  }

  /** A bomb going off gives its owner one bomb back and retimes only
      other bombs, so the tally moves past it. */
  lemma TallyFire(players: seq<Player>, remaining: seq<Bomb>, bs: seq<Bomb>, k: int,
                  affected: seq<Position>, at: int, es: seq<seq<Powerup>>, fires: seq<bool>)
    requires 0 <= k < |bs| && 0 <= bs[k].ownPlayerIndex < |players|
    requires Tally(players, remaining, bs[k..])
    requires |es| == |fires| == |players|
    ensures Tally(Fates(Spent(players, bs[k].ownPlayerIndex), es, fires), remaining,
                  Chained(bs, bs[k], affected, at)[k + 1..])
  {
    var o := bs[k].ownPlayerIndex;
    var spent := Spent(players, o);
    var ps2 := Fates(spent, es, fires);
    var rest2 := Chained(bs, bs[k], affected, at)[k + 1..];
    assert bs[k..] == [bs[k]] + bs[k + 1..];
    forall p | 0 <= p < |ps2|
      ensures ps2[p].numberOfUsedBombs == UsedBy(remaining, p) + UsedBy(rest2, p)
    {
      FateKeepsUsed(spent[p], es[p], fires[p]);
      UsedByCons(bs[k], bs[k + 1..], p);
      UsedBySameOwners(rest2, bs[k + 1..], p);
    }
  }

  /** Every bomb of `bs` lies on the grid. */
  ghost predicate AllInGrid(bs: seq<Bomb>) {
    forall j :: 0 <= j < |bs| ==> InGrid(bs[j].row, bs[j].column)
  }

  /** Bombs that keep their cells keep the board invariant. */
  lemma SameCellsKeepShape(players: seq<Player>, bombs: seq<Bomb>, bombs2: seq<Bomb>,
                           pendingRespawns: seq<PlayerRespawn>, powerups: seq<Powerup>,
                           nextChanId: nat, closedChans: set<nat>)
    requires ShapeOf(players, bombs, pendingRespawns, powerups, nextChanId, closedChans)
    requires AllInGrid(bombs2)
    ensures ShapeOf(players, bombs2, pendingRespawns, powerups, nextChanId, closedChans)
  {
  }

  /** One tick's sweep. The list is walked by index over its starting
      length; each bomb is read as it stands when reached, so a chain
      retiming by an earlier blast is seen. A due bomb goes off at clock
      reading `at`, the damage pass of the k-th bomb's blast probing player
      j's box in the corner order `orders[k][j]`; the others are kept as
      copies, and the kept copies replace the list at the end. A bomb whose
      owner is no player is dropped without effect. `snap` is the sequence
      of copies read, `blasts` their blasts (empty for a bomb that did not
      go off) and `current` the list as the blasts left it, just before it
      is replaced: a retiming that reaches a bomb after it was read survives
      only in `current`, not in the new list. */
  method CheckBombs(g: GameBoard, now: int, at: int, orders: seq<seq<CornerOrder>>)
      returns (ghost snap: seq<Bomb>, ghost blasts: seq<seq<Position>>, ghost current: seq<Bomb>)
    requires g.Valid()
    requires |orders| == |g.bombs| && forall k :: 0 <= k < |orders| ==> |orders[k]| == |g.players|
    modifies g`players, g`bombs, g.panel, g`explodedCells, g`broadcast, g`powerups, g`closedChans,
             g`numberOfPlayers, g`pendingRespawns
    ensures g.Valid()
    ensures |snap| == |blasts| == |current| == |old(g.bombs)|
    ensures forall j :: 0 <= j < |snap| ==> snap[j] == AfterBlasts(old(g.bombs[j]), snap, blasts, j, at)
    ensures forall j :: 0 <= j < |snap| ==> current[j] == AfterBlasts(old(g.bombs[j]), snap, blasts, |snap|, at)
    ensures forall i :: 0 <= i < |snap| ==>
      (blasts[i] != [] <==> Due(snap[i], now) && 0 <= snap[i].ownPlayerIndex < |old(g.players)|)
    ensures forall i :: 0 <= i < |snap| && blasts[i] != [] ==> blasts[i][0] == Position(snap[i].row, snap[i].column, false)
    ensures g.bombs == Kept(snap, now)
  {
    ghost var b0 := g.bombs;
    var remaining: seq<Bomb> := [];
    snap, blasts := [], [];
    assert b0[0..] == b0;
    var n := |g.bombs|;
    var k := 0;
    while k < n
      invariant g.Shape()
      invariant n == |b0| && |g.players| == |old(g.players)|
      invariant SweepState(b0, g.bombs, snap, blasts, remaining, k, now, at)
      invariant BlastsFit(snap, blasts, now, |old(g.players)|)
      invariant Tally(g.players, remaining, g.bombs[k..])
      invariant AllInGrid(remaining)
    {
      var bomb := g.bombs[k];
      ghost var blast, announced, es, fires;
      remaining, blast, announced, es, fires := VisitBomb(g, bomb, now, at, orders[k], k, b0, remaining, snap, blasts);
      snap, blasts := snap + [bomb], blasts + [blast];
      k := k + 1;
    }
    SameCellsKeepShape(g.players, g.bombs, remaining, g.pendingRespawns, g.powerups, g.nextChanId, g.closedChans);
    SweepDone(b0, g.bombs, snap, blasts, remaining, now, at, |old(g.players)|);
    current := g.bombs;
    g.bombs := remaining;
  }

  /** One step of the sweep: bomb k, as read, goes off when due and is kept
      otherwise; `blast` is its blast, empty when it did not go off. */
  method VisitBomb(g: GameBoard, bomb: Bomb, now: int, at: int, o: seq<CornerOrder>, k: int, ghost b0: seq<Bomb>,
                   remaining: seq<Bomb>, ghost snap: seq<Bomb>, ghost blasts: seq<seq<Position>>)
      returns (remaining2: seq<Bomb>, ghost blast: seq<Position>, ghost announced: seq<Payload>,
               ghost es: seq<seq<Powerup>>, ghost fires: seq<bool>)
    requires g.Shape() && 0 <= k < |g.bombs| && bomb == g.bombs[k] && |o| == |g.players|
    requires SweepState(b0, g.bombs, snap, blasts, remaining, k, now, at)
    requires Tally(g.players, remaining, g.bombs[k..])
    requires AllInGrid(remaining)
    requires |snap| == |blasts| && BlastsFit(snap, blasts, now, |g.players|)
    modifies g`players, g`bombs, g.panel, g`explodedCells, g`broadcast, g`powerups, g`closedChans,
             g`numberOfPlayers, g`pendingRespawns
    ensures g.Shape() && |g.players| == |old(g.players)|
    ensures Due(bomb, now) && 0 <= bomb.ownPlayerIndex < |old(g.players)| ==>
      Exploded(g, bomb, at, o, blast, announced, es, fires)
    ensures !(Due(bomb, now) && 0 <= bomb.ownPlayerIndex < |old(g.players)|) ==>
      unchanged(g) && unchanged(g.panel) && blast == []
    ensures blast != [] <==> Due(bomb, now) && 0 <= bomb.ownPlayerIndex < |old(g.players)|
    ensures blast != [] ==> blast[0] == Position(bomb.row, bomb.column, false)
    ensures remaining2 == if Due(bomb, now) then remaining else remaining + [bomb]
    ensures SweepState(b0, g.bombs, snap + [bomb], blasts + [blast], remaining2, k + 1, now, at)
    ensures Tally(g.players, remaining2, g.bombs[k + 1..])
    ensures AllInGrid(remaining2)
    ensures BlastsFit(snap + [bomb], blasts + [blast], now, |old(g.players)|)
  {
    ghost var bs := g.bombs;
    ghost var pl := g.players;
    blast, announced, es, fires := [], g.broadcast, [], [];
    remaining2 := remaining;
    if now > bomb.explosionTime {
      blast, announced, es, fires := GoOff(g, bomb, at, o, k, remaining);
    } else {
      TallyKeep(pl, remaining, bs[k..]);
      assert bs[k..][1..] == bs[k + 1..];
      remaining2 := remaining + [bomb];
    }
    SweepStep(b0, bs, g.bombs, snap, blasts, k, now, at, blast);
    BlastsFitStep(snap, blasts, bomb, blast, now, |pl|);
  }

  /** A due bomb goes off: its blast when its owner is a player, nothing
      otherwise; either way the tally moves past it. */
  method GoOff(g: GameBoard, bomb: Bomb, at: int, o: seq<CornerOrder>, k: int, ghost remaining: seq<Bomb>)
      returns (ghost blast: seq<Position>, ghost announced: seq<Payload>,
               ghost es: seq<seq<Powerup>>, ghost fires: seq<bool>)
    requires g.Shape() && 0 <= k < |g.bombs| && bomb == g.bombs[k] && |o| == |g.players|
    requires Tally(g.players, remaining, g.bombs[k..])
    modifies g`players, g`bombs, g.panel, g`explodedCells, g`broadcast, g`powerups, g`closedChans,
             g`numberOfPlayers, g`pendingRespawns
    ensures g.Shape() && |g.players| == |old(g.players)|
    ensures blast != [] <==> 0 <= bomb.ownPlayerIndex < |old(g.players)|
    ensures blast != [] ==>
      Exploded(g, bomb, at, o, blast, announced, es, fires) && blast[0] == Position(bomb.row, bomb.column, false)
    ensures blast == [] ==> unchanged(g) && unchanged(g.panel)
    ensures g.bombs == if blast != [] then Chained(old(g.bombs), bomb, blast, at) else old(g.bombs)
    ensures Tally(g.players, remaining, g.bombs[k + 1..])
  {
    ghost var bs := g.bombs;
    ghost var pl := g.players;
    if 0 <= bomb.ownPlayerIndex < |pl| {
      BlastStarts(g.panel, bomb.row, bomb.column, g.players[bomb.ownPlayerIndex].bombRange);
    }
    ghost var affected;
    affected, announced, es, fires := ApplyExplosion(g, bomb, at, o);
    blast := [];
    if 0 <= bomb.ownPlayerIndex < |pl| {
      TallyFire(pl, remaining, bs, k, affected, at, es, fires);
      blast := affected;
    } else {
      TallySkip(pl, remaining, bs[k..]);
      assert bs[k..][1..] == bs[k + 1..];
    }
  }

  /** A bomb retimed by a chain reaction is set to the blast's clock reading,
      which is not before the sweep's own, so it is kept for the next tick
      and never goes off in the sweep that retimed it. */
  lemma RetimedSurvive(b0: seq<Bomb>, snap: seq<Bomb>, now: int, at: int)
    requires |snap| == |b0| && now <= at
    requires forall j :: 0 <= j < |snap| ==> Retimed(b0[j], snap[j], at)
    ensures forall j :: 0 <= j < |snap| && snap[j] != b0[j] ==> snap[j] in Kept(snap, now)
  {
    KeptSpec(snap, now);
    forall j | 0 <= j < |snap| && snap[j] != b0[j] ensures snap[j] in Kept(snap, now) {
      assert Retimed(b0[j], snap[j], at);
      assert snap[j] in snap;
    }
  }
}
