# Bomberman game engine, modelled in Dafny

This project models the Go game engine of the bomberman-dom server
(`backend/bomberman`). The package holds two generations of the engine side
by side, and the model keeps them apart:

- **Current engine.** One shared `GameBoard` class (module `Board`) holds:
  - the 11 x 13 panel of cell codes, as a fixed `array2<Cell>`;
  - the players, the live bombs, the fire list, the respawn queue and the
    powerups;
  - the bounded broadcast buffer;
  - the stop channels of moving players.

  The modules follow the source files:
  - `Models` holds the constants and records of `models.go`;
  - `Bombs` holds placement, the blast walk, respawn, death and the fire
    sweep of `bomb.go`;
  - `Explosions` holds the detonation path of `bomb.go`: chain reaction,
    fire, the damage pass, and `ApplyExplosion`;
  - `Sweep` holds one run of the bomb watcher's `checkBombs`;
  - `Movement` holds `move.go`: the collision probe, the pixel mover and the
    start/stop handlers;
  - `Powerups` holds `powerup.go`;
  - `Broadcast` holds the channel helpers of `gameMsg.go`;
  - `Dispatch` holds the request router and the router's own start handler
    of `gameMsg.go`.
- **Earlier generation.** `Game.go`, `player.go` and `changes.go` are
  modelled as `EarlyGame`, `EarlyPlayers` and `EarlyChanges`. They use a
  20 x 20 grid of flag records with join-order colours and corners,
  whole-cell moves, and the older life-loss pass.

Every state-changing Go method is a Dafny `method` on the board, with its
`modifies` frame and a postcondition. The postcondition gives the whole new
state in terms of specification functions of the old state: `Blast`,
`Chained`, `Kept`, `Unexpired`, `Doused`, `PendingAfter`, `RespawnAll`,
`Fates`, `ProbeAt`, `Resolve`, `Released`. Lemmas then prove what the game
promises about those functions.

Conventions:

- **Time.** A reading of `time.Now()` is an `int` parameter. `now` is the
  clock of a sweep or a request. `at` is the clock a detonation reads when
  it retimes bombs and schedules fire and respawns.
- **Randomness.** `rand` draws are parameters.
- **Messages.** Loosely typed message maps are `map<string, Value>`. The
  map the broadcaster shares between recipients is a `MsgMap` object.
- **Broadcasts.** The broadcast channel is a sequence with a capacity.
  Sending enqueues when there is room and drops otherwise.
- **Stop channels.** A stop channel is `NilChan` or `Chan(id)`. The board
  tracks the next identity to hand out and the set of closed identities, so
  "closed at most once" can be stated.
- **Probe order.** `FindCollision` walks a Go map of corner cells, whose
  iteration order is unspecified and may differ from call to call. The
  order is therefore a parameter: a `CornerOrder` is a permutation of the
  four corners, and the probe visits the distinct corner cells in that
  order. Every operation that probes takes the order of each of its probes
  as a parameter: `ProbeOrders` for the three probes of one movement step,
  and one order per player for the damage pass.
  - Whether a cell is reported does not depend on the order
    (`OrderPicksOnlyTheCell`). Neither does a bomb or player answer.
  - Which cell is reported does. Every non-empty corner cell is reported by
    some order (`EveryCellSomeOrder`).
  - Blocking can change with the order only when fire and an obstacle lie
    under the same box. Then one order lets the player through and another
    stops it. In the damage pass, one order burns the player and another
    spares it (`FireBesideObstacle`).

Where the code and its design notes disagree, the model follows the code:

- Chain-triggered bombs are retimed to the detonation's clock.
- The fire-clear sweep only reverts cells still on fire.
- The router's start handler consults neither the started flag nor the
  hurt flag.

## Model

| member | source | states |
|---|---|---|
| Models.GridIndices | backend/bomberman/models.go:12-13 | a cell index is valid exactly when 0 <= row < 11 and 0 <= col < 13 |
| Models.CellCodes | backend/bomberman/models.go:33 | every cell code is one of "Ex", "W", "D", "", "B"; distinct cells have distinct codes; reading a code back gives the cell |
| Models.CellOfCode | backend/bomberman/models.go:33 | a decoded code gives back the same wire string |
| Models.PaletteSize | backend/bomberman/models.go:14-21 | the palette has exactly MaxNumberOfPlayers = 4 distinct colours |
| Models.PowerupKinds | backend/bomberman/models.go:184 | there are exactly four powerup kinds, with distinct type names |
| Models.BoxSpansAtMostTwoCells | backend/bomberman/models.go:150 | PlayerSize (48) < CellSize (50, models.go line 16), so a box's two ends fall in the same cell or in adjacent cells |
| Models.SnapWindowsDisjoint | backend/bomberman/models.go:136 | movementTolerance (20) < CellSize - movementTolerance (30), so an offset is never in both snap windows |
| Models.DirectionOf | backend/bomberman/move.go:272-293 | the wire direction name is kept; it is Other exactly for a name outside "u", "d", "l", "r" |
| Models.MsgMap.constructor | backend/bomberman/gameMsg.go:31-32 | a message map holds the given entries |
| Board.GameBoard.constructor | backend/bomberman/models.go:28-53 | a new board is empty, holds the invariant, and has the given broadcast capacity |
| Broadcast.EnqueueKeepsBound | backend/bomberman/gameMsg.go:70-77 | a send never overfills the buffer and keeps what was queued; it appends exactly when there is room and drops exactly when the buffer is full |
| Broadcast.EnqueueAllTakes | backend/bomberman/gameMsg.go:70-77 | a run of sends keeps the queue and appends the longest prefix of the messages that fits |
| Broadcast.SendMsgToChannel | backend/bomberman/gameMsg.go:70-77 | the buffer becomes the enqueue-or-drop of the message and nothing else changes |
| Broadcast.CheckForPlayer | backend/bomberman/gameMsg.go:31-47 | non-maps and maps without a string "Type" are returned untouched; "Filter" is set to true exactly for a "CM" map whose sender is the recipient; no other key changes; the write is made on the shared map |
| Broadcast.FanOut | backend/bomberman/gameMsg.go:18-21 | recipient k is written the shared map as tagged for all recipients up to k, so an earlier "Filter" tag persists for later recipients |
| Powerups.IndexOfVisible | backend/bomberman/powerup.go:119-126 | the result is the least index of a visible powerup at the cell, or -1 when there is none |
| Powerups.HiddenNeverFound | backend/bomberman/powerup.go:119-126 | adding a hidden powerup never changes what the search finds |
| Powerups.FindPowerupAt | backend/bomberman/powerup.go:119-126 | the search loop returns IndexOfVisible and changes nothing |
| Powerups.Eat | backend/bomberman/powerup.go:86-116 | eating adds the value to exactly the stat of its kind; the other stats are unchanged |
| Powerups.Without | backend/bomberman/powerup.go:60-75 | removal deletes exactly element i, keeps the others in order, and is an exact multiset removal |
| Powerups.ShowPowerup | backend/bomberman/powerup.go:16-33 | an out-of-range index or a visible powerup changes nothing; otherwise only that entry's hidden flag is cleared, and the reveal is announced |
| Powerups.RemovePowerup | backend/bomberman/powerup.go:60-75 | an out-of-range index changes nothing; otherwise exactly that element is removed, the others keep their order, and the removal is announced |
| Powerups.EatPowerup | backend/bomberman/powerup.go:77-117 | an out-of-range or hidden powerup changes nothing; otherwise it is removed, the eater alone gains its value in one stat, and the notice is sent |
| Powerups.ValueOf | backend/bomberman/powerup.go:47-56 | a new powerup's value is 2 for a speed boost and 1 otherwise |
| Powerups.CreatePowerupWithChance | backend/bomberman/powerup.go:35-58 | a roll above 0.4, or a visible powerup already at the cell, changes nothing; otherwise one hidden powerup of the picked kind is appended, even when a hidden one is already there |
| Bombs.NewBomb | backend/bomberman/bomb.go:173-198 | the new bomb sits at the player's cell, is drawn at the cell's corner, goes off a bomb delay after `now`, and starts with the initial-intersection exemption |
| Bombs.CanCreateBomb | backend/bomberman/bomb.go:164-171 | an index that names no player is refused |
| Bombs.CanCreateBombCountsLive | backend/bomberman/bomb.go:164-171 | on an accounted board, a placement is allowed exactly while the player has fewer bombs on the board than its allowance |
| Bombs.CreateBomb | backend/bomberman/bomb.go:164-198 | an invalid index or an exhausted allowance gives -1 and changes nothing; otherwise the used count rises by one, exactly NewBomb is appended, and its index is returned |
| Bombs.FromPlayer | backend/bomberman/bomb.go:72-76 | the sender is read exactly when "fromPlayer" holds an int |
| Bombs.HandleBombMessage | backend/bomberman/bomb.go:71-92 | with no int sender, or with a refused placement, nothing changes and nothing is sent; otherwise the bomb is placed and one "BA" message with its cell and pixels is sent |
| Bombs.RespawnedSpec | backend/bomberman/bomb.go:94-99 | a respawn lands on the start cell at cell-corner pixels, stays in bounds, changes nothing else, and is idempotent |
| Bombs.RespawnPlayer | backend/bomberman/bomb.go:94-99 | only player i changes, to its respawned record |
| Bombs.PlayerDeath | backend/bomberman/bomb.go:141-150 | the player is marked dead, the living count drops by one, and the death is announced |
| Bombs.PendingAfterSpec | backend/bomberman/bomb.go:353-381 | the kept queue holds exactly the entries not yet due, and only shrinks |
| Bombs.RespawnAllSpec | backend/bomberman/bomb.go:353-381 | a player ends on its start cell exactly when a due entry names it; every other player is unchanged |
| Bombs.ProcessRespawns | backend/bomberman/bomb.go:353-381 | the queue becomes PendingAfter, the players become RespawnAll, one "PR" notice is offered per due entry in queue order, and the invariant is kept |
| Bombs.RespawnDueEntries | backend/bomberman/bomb.go:360-379 | the loop keeps exactly the entries not yet due, respawns the players RespawnAll names, and offers one "PR" notice per due entry, in queue order |
| Bombs.SweepKeepsValid | backend/bomberman/bomb.go:353-381 | after the sweep the players stay in bounds and every queued entry still names a player |
| Bombs.RaySpec | backend/bomberman/bomb.go:206-251 | each ray cell lies d + k steps out, in the grid, within range and not a wall; only the last may be destructible; a ray stops short only at the grid edge or a wall |
| Bombs.RayCells | backend/bomberman/bomb.go:206-251 | the k-th ray cell is the cell d + k steps out; it lies in the grid, is not a wall, is within range, and is destructible only if it is the last |
| Bombs.RayStops | backend/bomberman/bomb.go:206-251 | a ray that ends within range on a non-destructible cell was stopped by the grid edge or a wall |
| Bombs.BlastShape | backend/bomberman/bomb.go:200-253 | the blast starts with the bomb's cell; every other cell lies in its row or column within range, in the grid, and is never a wall |
| Bombs.WalkRay | backend/bomberman/bomb.go:206-251 | each break-terminated direction loop computes exactly Ray |
| Bombs.CalculateBombRange | backend/bomberman/bomb.go:200-253 | the result is exactly Blast, and the board is untouched |
| Bombs.UnexpiredSpec | backend/bomberman/bomb.go:320-351 | the kept fire list holds exactly the entries not yet due, and only shrinks |
| Bombs.DousedSpec | backend/bomberman/bomb.go:320-351 | every cell turned off was a due in-grid fire cell, and none is turned off twice |
| Bombs.ClearExpiredExplosions | backend/bomberman/bomb.go:320-351 | due entries are dropped and the rest kept in order; a cell reverts to empty exactly when it is still on fire and a due entry names it; no other cell changes; an "OF" notice is sent only when some cell was cleared |
| Bombs.DouseExpired | backend/bomberman/bomb.go:322-344 | the sweep loop computes the kept entries, the cleared positions and the panel change of ClearExpiredExplosions |
| Explosions.Struck | backend/bomberman/bomb.go:109-136 | a struck player loses exactly one life, stops moving and drops its stop channel, and is dead exactly when no life is left; nothing else changes |
| Explosions.CheckPlayer | backend/bomberman/bomb.go:102-139 | a dead player is skipped; a living one whose probe, in the given order, meets fire becomes Fate, queues one respawn at `at` + BombExplosionDuration or dies, and has its channel closed; eaten powerups leave the list |
| Explosions.Strike | backend/bomberman/bomb.go:110-136 | the life loss, stop, channel close, death or respawn, and notice of one struck player |
| Explosions.Settle | backend/bomberman/bomb.go:120-136 | a player with no life left dies and the living count drops; otherwise exactly one respawn is queued |
| Explosions.Fates | backend/bomberman/bomb.go:102-139 | the players after the pass are each player's Fate |
| Explosions.CheckExplosion | backend/bomberman/bomb.go:102-139 | the fire flags are FiresOf, player j probing in order j; each player eats only around its own box; over all players in index order: players become Fates, respawns and deaths are the per-player sums, exactly the struck movers' channels close, and the eaten powerups are removed from the list |
| Explosions.InBlast | backend/bomberman/bomb.go:281-287 | the search answers whether the blast covers the cell |
| Explosions.Chained | backend/bomberman/bomb.go:278-291 | every other bomb on a blast cell is retimed to `at`; a bomb sharing the exploding bomb's cell, and any bomb off the blast, is unchanged |
| Explosions.IgniteChain | backend/bomberman/bomb.go:278-291 | the bomb list becomes Chained |
| Explosions.Kindle | backend/bomberman/bomb.go:292-309 | every blast cell that is not a wall becomes fire, including former destructibles; no other cell changes; one fire entry per burning cell is appended, clearing at `at` + BombExplosionDuration |
| Explosions.Detonate | backend/bomberman/bomb.go:273-313 | the blast of the owner's range, the chain, the fire, the "EXC" notice, and the owner's used count one lower |
| Explosions.Blaze | backend/bomberman/bomb.go:278-311 | the chain reaction, the fire and the "EXC" notice of one blast |
| Explosions.ApplyExplosion | backend/bomberman/bomb.go:257-316 | with no owner, the board and panel are unchanged; otherwise the blast, chain, fire, notice and used-count decrement, followed by the damage pass over all players |
| Explosions.Explode | backend/bomberman/bomb.go:273-315 | the effect of a bomb with an existing owner |
| Explosions.FiresOf | backend/bomberman/bomb.go:108-109 | each player's fire flag is whether its probe, in that player's order, meets fire |
| Explosions.FireUnderBox | backend/bomberman/bomb.go:108-109 | no order catches a player with no fire under its box |
| Explosions.FireAlone | backend/bomberman/bomb.go:108-109 | fire under the box with no obstacle beside it catches the player in every order |
| Explosions.FireBesideObstacle | backend/bomberman/bomb.go:108-109 | with fire and an obstacle under the box, some order catches the player and some order spares it |
| Sweep.KeptSpec | backend/bomberman/bomb.go:404-417 | a bomb is kept exactly when it was seen and was not due; the kept list is no longer than the seen one |
| Sweep.SweepStep | backend/bomberman/bomb.go:404-417 | seeing one more bomb, and detonating it when due, advances the sweep state: every bomb its blast covers on another cell is retimed, and the rest stay as they were |
| Sweep.TallyFire | backend/bomberman/bomb.go:404-417 | a detonation gives its owner one bomb back, so every used counter still matches the bombs that are kept or still unseen |
| Sweep.CheckBombs | backend/bomberman/bomb.go:400-418 | copy j is bomb j retimed to `at` exactly when the blast of an earlier bomb of the sweep covers its cell and that bomb is on another cell; blast i is non-empty exactly when copy i was due and its owner exists, and starts at its cell; `current`, the live list just before it is replaced, is every bomb as all the blasts of the sweep left it; the final list is exactly the copies not due, in order; the invariant is kept |
| Sweep.VisitBomb | backend/bomberman/bomb.go:407-415 | one step of the sweep: a due bomb with an owner explodes as Explode states and is not kept; a due bomb without one is dropped and changes nothing; a bomb not due is kept as read; the sweep state and the tally advance by that bomb |
| Sweep.GoOff | backend/bomberman/bomb.go:407-409 | a due bomb with an owner explodes, with a blast starting at its cell and the bomb list chained; one without an owner changes nothing; the tally moves past it |
| Sweep.SweepRetimes | backend/bomberman/bomb.go:404-417 | each copy is its bomb or that bomb retimed to `at`, and a retimed copy was preceded by a bomb that was due |
| Sweep.RetimedSurvive | backend/bomberman/bomb.go:404-417 | a bomb retimed during the sweep (to the detonation's clock, line 287) is never due in the same sweep, so it is kept |
| Movement.BlockingCodes | backend/bomberman/move.go:300 | the resolver's test (not "" and not "Ex") and the start handler's test at line 33 (W, D, B, P) both decide Blocks; fire and an empty probe never block |
| Movement.CornerCellsAre | backend/bomberman/move.go:172-190 | one to four distinct cells, exactly the rows and columns the box's corners fall in |
| Movement.VisitCells | backend/bomberman/move.go:185-192 | in any corner order the probe visits each distinct corner cell exactly once, starting with the corner the order names first |
| Movement.SomeOrderFirst | backend/bomberman/move.go:185-192 | every corner cell is visited first by some order |
| Movement.FirstHitMeaning | backend/bomberman/move.go:192-206 | the first hit is a non-empty in-grid cell among the candidates; there is none exactly when every in-grid candidate is empty |
| Movement.VisitHit | backend/bomberman/move.go:192-206 | in any order the scan finds a cell exactly when some in-grid corner cell is non-empty, and what it finds is a non-empty cell under the box |
| Movement.SomeOrderFinds | backend/bomberman/move.go:192-206 | every non-empty in-grid corner cell is what some order finds first |
| Movement.ProbeAtMeaning | backend/bomberman/move.go:168-238 | in any order, a cell code is reported exactly when some in-grid corner cell is non-empty, and it is the code of one of them; otherwise "B" exactly when a non-exempt bomb overlaps; otherwise "P" exactly when another living player overlaps; otherwise "" |
| Movement.OrderPicksOnlyTheCell | backend/bomberman/move.go:185-238 | two orders agree on whether a cell is reported and on every bomb, player or empty answer; they disagree on blocking only when fire and an obstacle both lie under the box |
| Movement.EveryCellSomeOrder | backend/bomberman/move.go:185-238 | every non-empty in-grid corner cell is the probe's report under some order |
| Movement.ProbeIgnoresProber | backend/bomberman/move.go:224-227 | the probe never reads the prober's own record in the player list |
| Movement.GrownStats | backend/bomberman/powerup.go:86-116 | eating grows each stat by the values of its kind and changes nothing else |
| Movement.EatAtCell | backend/bomberman/move.go:194-199 | at most one visible powerup is eaten, exactly when the cell is empty and holds one; only the prober's stats change |
| Movement.ScanCorners | backend/bomberman/move.go:192-206 | the corner scan in the given order reports FirstHit; `visited` counts the cells it passed before the hit (all of them when nothing is hit), each empty or off the grid; it eats only on those passed cells, and on every passed cell with a visible powerup; the hit cell and the cells after it are not eaten on |
| Movement.BombInTheWay | backend/bomberman/move.go:209-221 | the bomb loop answers whether a bomb blocks, skipping the owner's own exempt bomb |
| Movement.PlayerInTheWay | backend/bomberman/move.go:224-236 | the player loop answers whether another living player's box overlaps |
| Movement.FindCollision | backend/bomberman/move.go:168-238 | the probe reports ProbeAt of the box in the given order; only the prober's stats change; the eaten powerups leave the list; all are from empty corner cells, and all are eaten unless a cell code was reported |
| Movement.CenterInGrid | backend/bomberman/move.go:296-297 | the centre cell of an in-bounds box is in the grid |
| Movement.Candidate | backend/bomberman/move.go:272-293 | the full step moves one axis only, by the step or up to the clamp at the grid edge, and stays in bounds; an unknown direction does not move |
| Movement.Snap | backend/bomberman/move.go:305-324 | it snaps exactly when the cross-axis offset lies in a tolerance window, to a cell boundary within the tolerance; the moved axis is kept and the position stays in bounds |
| Movement.SnapAxis | backend/bomberman/move.go:305-324 | the cross-axis coordinate snaps exactly when its offset in the cell lies in one of the tolerance windows, to a multiple of CellSize within the tolerance, staying in bounds |
| Movement.Nudge | backend/bomberman/move.go:332-354 | the fallback moves one pixel from the start, is clamped on both axes, and does not move for an unknown direction |
| Movement.Resolve | backend/bomberman/move.go:263-370 | a refused move leaves the box where it was; a successful move ends on the full step, the snapped box or the one-pixel box, and only on one that its own probe found clear |
| Movement.ResolveInBounds | backend/bomberman/move.go:263-387 | wherever the move ends, the box is in the grid |
| Movement.UnsnappedRetest | backend/bomberman/move.go:362-367 | the revert after a clear retest without a snap happens only when the two probes of the same box used different orders and both fire and an obstacle lie under it; the move is then refused and the box stays |
| Movement.UnknownDirectionStays | backend/bomberman/move.go:272-342 | an unknown direction never moves the box; it succeeds exactly when the first probe is not blocked, or the retest is blocked and the one-pixel probe is not; with one order for all three probes it succeeds exactly when the box is not blocked |
| Movement.ReleasedSpec | backend/bomberman/move.go:373-384 | release only clears the flag, only on the mover's own bombs, keeps it only while the box still overlaps, and changes no owner count |
| Movement.UpdateBombIntersections | backend/bomberman/move.go:373-384 | the bomb list becomes Released |
| Movement.FullStep | backend/bomberman/move.go:272-293 | the switch computes Candidate |
| Movement.SnapStep | backend/bomberman/move.go:305-324 | the snapping branch computes Snap |
| Movement.OnePixelStep | backend/bomberman/move.go:332-354 | the one-pixel branch computes Nudge |
| Movement.Unstick | backend/bomberman/move.go:304-368 | after a blocked full step: the snapped box if its retest is clear and the snap moved it; a refusal and the original box if the retest is clear but nothing snapped; else the one-pixel box if clear; else the original box and failure |
| Movement.MovePlayer | backend/bomberman/move.go:263-387 | the outcome and box are Resolve under the three probes' orders; row and column are the candidate's centre cell even when the move is refused; bombs are released only on success; only the mover's stats change |
| Movement.MoveBox | backend/bomberman/move.go:263-370 | the moves, probes and reverts, without the bomb release: outcome and box are Resolve, and row and column are the candidate's centre cell |
| Movement.StopMoving | backend/bomberman/move.go:57-65 | moving stops; a held channel is closed, was not closed before, and is dropped |
| Movement.HandleMoveEndMessage | backend/bomberman/move.go:52-66 | a player that is not moving is unchanged; a moving one stops and its channel is closed exactly once |
| Movement.HandleMoveStartMessage | backend/bomberman/move.go:11-49 | nothing changes before the game starts, or for a dead or hurt player; a probe reporting W, D, B or P in the given order refuses; otherwise moving is set with the direction, and a channel is allocated only when none is held |
| Movement.StartUnlessBlocked | backend/bomberman/move.go:32-48 | the probe-and-start part of the start handler: a blocked probe in the given order refuses, otherwise moving starts |
| Movement.BeginMoving | backend/bomberman/move.go:38-48 | moving and direction are set; a fresh channel is allocated exactly when none is held |
| Movement.BorderDistanceSymmetry | backend/bomberman/move.go:241-261 | "d" and "r" are the negations of "u" and "l", which are the box's offsets from its cell's edges |
| Movement.FindDistanceToBorder | backend/bomberman/move.go:241-261 | any other border name gives -1 |
| Dispatch.MsgType | backend/bomberman/gameMsg.go:91-95 | the type is read exactly when "msgType" holds a string |
| Dispatch.Route | backend/bomberman/gameMsg.go:78-117 | a request without an int sender or a string type goes nowhere; "MS" with a string "d", "ME", "b" and "c" go exactly to their handlers, with the sender and direction extracted |
| Dispatch.RouteIgnores | backend/bomberman/gameMsg.go:99-116 | "p", unknown types, and "MS" without a direction go nowhere |
| Dispatch.RefusalDiffers | backend/bomberman/gameMsg.go:148-152 | the router's start handler refuses on fire, a bomb, a block or a wall, and not on another player, unlike move.go's handler |
| Dispatch.RefusalIgnoresOrder | backend/bomberman/gameMsg.go:148-152 | this handler refuses exactly when some corner cell under the box is non-empty or a bomb blocks, so its answer is the same in every order |
| Dispatch.HandleMoveStartMessage | backend/bomberman/gameMsg.go:139-166 | a dead player is unchanged; a probe reporting Ex, B, D or W refuses; otherwise moving is set, and a channel is allocated only when none is held |
| Dispatch.HandleChatMessage | backend/bomberman/chatMsg.go:7-31 | a chat with an int sender and string content enqueues one "CM" message with the sender's name and colour, the content and the clock; anything else changes nothing |
| Dispatch.ChooseHandlerForMessages | backend/bomberman/gameMsg.go:78-117 | a non-map or an unroutable request changes nothing; otherwise exactly the routed handler runs, with the effect its own contract states, and the fields it does not touch stay unchanged |
| EarlyGame.EarlyBoard.constructor | backend/bomberman/Game.go:10-16 | a new early board has no players and a 20 x 20 grid |
| EarlyGame.CanCreateNewPlayer | backend/bomberman/Game.go:25-30 | a player may join exactly when 0 to 3 players are present |
| EarlyGame.CanCreateNewPlayerRange | backend/bomberman/Game.go:25-30 | a player may join exactly when 1 <= NumberOfPlayers + 1 <= 4 |
| EarlyGame.FindColorAsWritten | backend/bomberman/Game.go:32-34 | the colour lookup as written: palette entry NumberOfPlayers + 1, or out of range |
| EarlyGame.FindColorAsWrittenFails | backend/bomberman/Game.go:32-34 | as written, the first joiner gets "Y", no joiner gets "G", and the fourth admitted joiner indexes past the palette |
| EarlyGame.FindColor | backend/bomberman/Game.go:32-34 | corrected: every admitted joiner gets a palette colour |
| EarlyGame.FindColorDistinct | backend/bomberman/Game.go:32-34 | corrected: the first joiner gets "G", and distinct join positions get distinct colours |
| EarlyGame.FindStartRowLocation | backend/bomberman/Game.go:36-41 | the start row is the top or the bottom row, the top one exactly for the first two joiners |
| EarlyGame.FindStartColLocation | backend/bomberman/Game.go:43-48 | the start column is the leftmost or the rightmost, the leftmost exactly for the first and third joiners |
| EarlyGame.HasExploaded | backend/bomberman/Game.go:50-52 | the answer is the exploded flag of the on-grid cell; an off-grid cell is excluded, since the Go array index would panic |
| EarlyGame.StartCorners | backend/bomberman/Game.go:36-48 | joiners 1 to 4 start on the four distinct corners, in the order top-left, top-right, bottom-left, bottom-right; every start cell is on the grid |
| EarlyGame.FindGridBorderLocation | backend/bomberman/Game.go:63-77 | any border name other than u, d, l, r gives -100 |
| EarlyGame.BorderOffsets | backend/bomberman/Game.go:63-77 | 'u' is 'd' + GridSize and 'l' is 'r' + GridSize; 'd' and 'r' are the cell's starting edges |
| EarlyPlayers.CreatePlayer | backend/bomberman/player.go:15-31 | a refused join changes nothing; otherwise exactly one player is appended, with 3 lives, score 0, its colour and its corner, and the count rises by one |
| EarlyPlayers.Target | backend/bomberman/player.go:35-57 | exactly the four direction names give a target cell |
| EarlyPlayers.TargetIsNeighbour | backend/bomberman/player.go:35-54 | a step moves exactly one of row and column, by exactly one |
| EarlyPlayers.MovePlayer | backend/bomberman/player.go:33-59 | the step is taken exactly when the direction is known, the target is on the grid, and it is not a wall; a refusal changes nothing; a step changes only that player's row or column |
| EarlyChanges.Hits | backend/bomberman/changes.go:4-12 | the players after the pass as written are each player's Hit |
| EarlyChanges.BurningOf | backend/bomberman/changes.go:5 | each player's flag is HasExploaded of its cell |
| EarlyChanges.CheckExplosion | backend/bomberman/changes.go:3-15 | players become Hits of the burning flags; the count drops by the number of players whose lives were zero before the pass; the grid and positions are untouched |
| EarlyChanges.HitChangesOnlyLives | backend/bomberman/changes.go:4-12 | a burning player loses exactly one life and any other keeps its lives; only lives and the dead flag change |
| EarlyChanges.LateDeath | backend/bomberman/changes.go:4-12 | as written, a player dropping from 1 to 0 stays alive and uncounted until the next pass |
| EarlyChanges.RecountsDead | backend/bomberman/changes.go:9-12 | as written, a dead player with no lives is counted again by every pass |
| EarlyChanges.HitsFixed | backend/bomberman/changes.go:4-12 | the players after the intended pass are each player's HitFixed |
| EarlyChanges.FixedDiesAtOnce | backend/bomberman/changes.go:4-12 | corrected: a player dies on the pass that takes its last life, and a dead player is never touched |
| EarlyChanges.FixedConservesCount | backend/bomberman/changes.go:9-12 | corrected: the dead count rises by exactly the new deaths, so each death is counted once |

## Left out

- Goroutines, tickers and the mutex are left out: `StartBombWatcher`, `playerMoveLoop` and `StartBroadcaster`'s loop over the channel. One sweep or one request is a sequential method, and locking is not modelled.
- WebSocket and HTTP glue, which is I/O, is left out: `HandlePlayerMessages`, broadcast.go, backend/server.go and fakeAPI/server.go. The socket write failure in `StartBroadcaster` is left out too.
- The frontend is left out. It is browser UI.
- `HandleMoveMessage` and `SendMoveMsg` (move.go:130-166) are left out. They are superseded single-move helpers that the router never calls.
- `HasExploaded` of bomb.go (153-161) is left out. It takes the lock and reads one cell. The early `EarlyGame.HasExploaded` is modelled as a plain lookup with an in-bounds requirement.
- `FindInnerCell` and `FindGridCenterLocation` in Game.go are left out. They are an empty stub and a bodyless declaration.
- No operation reads the invulnerability duration, the damage cooldown, or the powerup caps, so they are not modelled. A win condition, powerup spawn on destroy, and any periodic standing-in-fire check are not implemented by the code, so they are not modelled either.
- The random layout of a new game is not part of this model, because `InitGame` is not among the modelled sources. A board starts empty, and `g.CellSize` is taken equal to the `CellSize` constant.
- The early board's bomb list is not modelled, because no early operation reads it.
- Go panics on out-of-range indices, such as `g.Players[playerIndex]`, are modelled as `requires` clauses on the index. `Dispatch.IndexedSenderOk` states what the router needs of the sender index.
- Movement.FindCollision: the corner order is a parameter, because Go does not specify a map's iteration order. The model does not say which orders a run picks, nor whether two probes in one step pick the same one.
- Powerups.EatPowerup, Movement.FindCollision, Explosions.CheckPlayer and Explosions.CheckExplosion: the broadcast notices of eaten powerups are not specified. The queue after the probe is related to the rest of the effect only through the ghost `probed` and `announced` values.
- Explosions.ApplyExplosion: it takes one clock reading `at` for the whole detonation. The source reads `time.Now()` at each use within one call, and those readings are modelled as equal.
- Explosions.ApplyExplosion: the source's loop finds the owner by scanning players for a matching index. It is modelled as a range check on `ownPlayerIndex`, which has the same outcome.
- Sweep.CheckBombs: its contract gives which bombs are retimed, which go off, and which survive. The panel, players, powerups and queues after the whole sweep are not given as one formula. Each detonation's effect is stated separately, by `Sweep.VisitBomb` through `Explosions.Exploded`.
- `PlayerDied` and the other broadcast structs are abstract events (`Models.Event`). Their JSON tags are not modelled.
- EarlyPlayers.CreatePlayer: it uses the corrected `EarlyGame.FindColor`, because the colour lookup as written stops the program for the fourth joiner (see Findings).

## Findings

| source | as written | input that shows it | evidently intended | confidence | as-written member | corrected member |
|---|---|---|---|---|---|---|
| backend/bomberman/Game.go:32-34 | the colour is Colors[NumberOfPlayers + 1] | the first joiner (NumberOfPlayers = 0) gets "Y"; the fourth, whom CanCreateNewPlayer admits (NumberOfPlayers = 3), indexes Colors[4] past the four-entry palette | Colors[NumberOfPlayers]: every admitted joiner gets a distinct palette colour, the first "G" | not executed | EarlyGame.FindColorAsWrittenFails | EarlyGame.FindColorDistinct |
| backend/bomberman/changes.go:4-12 | the death test reads the loop copy's lives, taken before the decrement | a living player with 1 life on an exploded cell ends the pass with 0 lives, not dead, and still counted | a player losing its last life is dead in that pass | not executed | EarlyChanges.LateDeath | EarlyChanges.FixedDiesAtOnce |
| backend/bomberman/changes.go:9-12 | dead players are not skipped | a dead player with 0 lives makes every pass decrement NumberOfPlayers again | each death lowers the player count once | not executed | EarlyChanges.RecountsDead | EarlyChanges.FixedConservesCount |
