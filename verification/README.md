# my-game arena server, modelled in Dafny

This project models the core of an arena game. The server keeps a world of
entities: players, bullets, food, walls and minions. It finds colliding pairs
with a hierarchical spatial hash grid (HSHG), resolves collisions and damage,
and runs each entity's controllers. It builds the room (tiles, labyrinth,
spawns) and keeps a leaderboard. Every tick it sends each socket a binary frame
of little-endian messages. Two clients decode those frames: the newer
TypeScript client and the legacy JavaScript one.

Everything is modelled by value. Entities live in a `store` map from id to
entity, and the world's lists, the id map and the mini-map hold ids. The hash
grid and the hierarchy are records that each operation hands back, and
methods keep the source's loops. Math.random, the clock, square roots and
trigonometry are parameters. Float32 values on the wire are four opaque bytes.

Modules, one per source component:

- **Geometry and the hash grid**
  - `HashGeometry`: boxes, hashing and the neighbour tables.
  - `HashGrid`: one grid.
  - `Hshg`: the hierarchy.
  - `HshgQuery`: the pair query.
- **Entities and the world**
  - `Entities` and `Controllers`: `src/entity`.
  - `ClassLoading`: `src/entity/class.ts`.
  - `Worlds`: `src/room/world.ts`.
  - `RoomConfig`, `RoomLoops`, `Tiles`, `Leaderboards`: the rest of `src/room`.
  - `Mazes`: the maze generator.
  - `RandomChoice`: `src/util/random.ts`.
- **Wire codecs**
  - `Bytes`, `Utf8`: the encodings.
  - `BufferPools`, `Protocol`: the reader, writer and buffer pool.
  - `Messages`, `ServerMessages`: every server-to-client message, as the clients read it.
- **Server socket**
  - `ServerSockets`: the message handler and session sweep.
  - `Broadcasts`: the per-tick frames and the leaderboard message.
- **Clients**
  - `ClientSockets`: both clients' `onMessage`.
  - `Rgb`: colours.
  - `MessageStack`: the chat stack.
- **Shared helpers:** `Arith`, `Vec`, `Wrappers`.

Behaviour of the code worth knowing:

- **First level-up.** Level 1 is reached as soon as the score exceeds 0. `levelScore` starts at 0 (`src/entity/entity.ts:61`), and the test is `score > levelScore` (`src/entity/entity.ts:309-314`).
- **Upgrade card borders.** An upgrade card's border is derived from the own entity's colour, not the card's (`client/src/lib/socket.ts:340`).
- **Unreachable spawn branch.** The "You can't spawn." branch of the server (`src/network/socket.ts:43-47`) is unreachable, because `spawn` never returns nothing.
- **Auto-fire stop.** The trigger message that the clients send when auto-fire stops carries one boolean, but the server reads two. On the uWebSockets.js transport, whose message bytes are the whole buffer (`src/network/web-server.ts:98`), the read throws and the message is dropped (`ServerSockets.TriggerNeedsTwo`). On the Bun transport (`src/network/web-server.ts:71`) the message may be a view into a larger buffer; the reader then reads from the buffer's first byte (`Protocol.ReaderOfIgnoresOffset`), so the second read may take a stray byte instead of throwing.
- **Tile food on walls.** Each tile draws positions with its own generator (`src/room/tile.ts:21`, used at `:56`), and nothing adds exclusion zones to it. The labyrinth's wall zones go only to the room's generator (`src/room/room-loop.ts:102`), so tile food can spawn on a wall (`Tiles.Fire`).
- **Legacy team.** The legacy client's default team is the string `'FFA'` (`public/lib/entity.js:20`). It is modelled as team -1, which no team number equals.
- **Legacy prop order.** The legacy client's prop comparator subtracts objects. That gives NaN, which `Array.prototype.sort` treats as "equal", so the props keep their wire order.

## Model

| member | source | states |
|---|---|---|
| HashGeometry.TestAabbOverlap | src/physics/hshg.ts:30-41 | false when both boxes are inactive; otherwise true exactly when the closed boxes meet on both axes |
| HashGeometry.OverlapIsCommonPoint | src/physics/hshg.ts:30-41 | for well-formed boxes, one of them active, the test holds exactly when the boxes share a point, so boxes that only touch collide |
| HashGeometry.LongestEdge | src/physics/hshg.ts:43-45 | the result is at least each edge of the box and equal to one of them |
| HashGeometry.AxisHash | src/physics/hshg.ts:308-328 | one axis of the hash is always a column index in [0, rowColumnCount) |
| HashGeometry.ToHash | src/physics/hshg.ts:308-328 | every hash is the index of a cell of the grid |
| HashGeometry.MaskIsMod | src/physics/hshg.ts:308-328 | for a power of two up to 2^32, masking the 32-bit truncation with rcc - 1 is the remainder modulo rcc |
| HashGeometry.AxisHashFormula | src/physics/hshg.ts:308-328 | a non-negative coordinate lands in column floor(c / cellSize) mod rcc; a negative one is mirrored to count down from the last column |
| HashGeometry.CellIndexInjective | src/physics/hshg.ts:308-328 | two column/row pairs in range give the same cell index only if they are equal |
| HashGeometry.NeighborOffsetsUniform | src/physics/hshg.ts:249-306 | the shared table of interior cells agrees with the per-edge formula |
| HashGeometry.NeighborOffsetsTorus | src/physics/hshg.ts:249-306 | offset k of cell i leads to the cell one step away in direction k, wrapping around the borders like a torus |
| HashGeometry.NeighborOffsetsInRange | src/physics/hshg.ts:249-306 | every neighbour index is a cell of the grid, and the middle offset is zero |
| HashGeometry.ForwardNeighborIsOtherCell | src/physics/hshg.ts:158-174 | the four forward neighbours the pair query scans are never the cell itself |
| HashGrid.InitCells | src/physics/hshg.ts:249-306 | cell i is empty and unoccupied, and carries the neighbour table of its position |
| HashGrid.NewGrid | src/physics/hshg.ts:236-247 | a new grid is valid and empty, with 16 rows and columns |
| HashGrid.MetaIsAllObjects | src/physics/hshg.ts:330-395 | the objects the grid has metadata for are exactly the elements of allObjects |
| HashGrid.Place | src/physics/hshg.ts:330-353 | the object is registered at the target cell's hash and appended to allObjects; every other object keeps its hash and the grid's shape invariant holds |
| HashGrid.SwapRemoveMultiset | src/physics/hshg.ts:359-395 | removing slot i by moving the last element into it drops exactly that element |
| HashGrid.Remove | src/physics/hshg.ts:359-395 | the object's record goes, allObjects loses exactly one copy of it, every other object keeps its hash and the shape invariant holds |
| HashGrid.EmptyGrid | src/physics/hshg.ts:359-395 | a grid without objects has no occupied cells |
| HashGrid.RemoveAll | src/physics/hshg.ts:397-415 | every object of the snapshot leaves the grid, which ends empty |
| HashGrid.PlaceAll | src/physics/hshg.ts:397-415 | each object goes to the cell its box hashes to; the density check never fires |
| HashGrid.ExpandGrid | src/physics/hshg.ts:397-415 | the row/column count doubles, the grid stays valid, holds the same multiset of objects, each in the cell its box hashes to |
| HashGrid.AddObject | src/physics/hshg.ts:330-357 | the multiset gains the object; the grid doubles exactly when it passes one object per eight cells, otherwise the object sits at the given or computed hash and the others keep theirs |
| HashGrid.Move | src/physics/hshg.ts:213-218 | removing then re-adding with a new hash moves the object to that cell, without expansion, leaving the others in place |
| Hshg.Empty | src/physics/hshg.ts:51-54 | the new hierarchy has no grids and no objects and is valid |
| Hshg.RemoveObject | src/physics/hshg.ts:113-133 | a no-op without metadata; otherwise the object leaves _globalObjects by swap removal and its grid, and loses its metadata |
| Hshg.AbsentRemoval | src/physics/hshg.ts:117-119 | an object without metadata is not in _globalObjects, so removing it changes nothing |
| Hshg.HalveBelow | src/physics/hshg.ts:80-89 | the halving loop stops at the first x with x <= objSize < 2x |
| Hshg.DoubleAbove | src/physics/hshg.ts:97-99 | the doubling loop stops at the first x with objSize < x <= 2 objSize |
| Hshg.AddObject | src/physics/hshg.ts:56-106 | the object ends in a grid whose cell size lies in (objSize, 2 objSize]; an existing grid is used exactly when one fits; the hierarchy stays valid with grids in increasing cell size |
| Hshg.AddFirstGrid | src/physics/hshg.ts:67-73 | the first object of an empty hierarchy creates the first grid, holding only it |
| Hshg.SpliceGrid | src/physics/hshg.ts:86-89 | when the first coarser grid is more than twice too coarse, a new grid is spliced in before it |
| Hshg.ReuseGrid | src/physics/hshg.ts:91 | when the first coarser grid is at most twice as coarse, the object joins it |
| Hshg.AppendGrid | src/physics/hshg.ts:97-104 | when no grid is coarser than the object, a new coarsest grid is appended |
| Hshg.SingletonGrid | src/physics/hshg.ts:67-73 | a new grid with initCells and one addObject holds exactly that object |
| Hshg.SpliceFits | src/physics/hshg.ts:86-89 | the spliced grid keeps _grids in increasing cell size |
| Hshg.NoFittingGridBefore | src/physics/hshg.ts:77-95 | no grid fits when all grids before i are too fine and all from i on are more than twice too coarse |
| Hshg.Rehash | src/physics/hshg.ts:213-218 | the hierarchy stays valid with the same grids; the object is hashed and objects already hashed stay hashed |
| Hshg.UpdateRecompute | src/physics/hshg.ts:206-220 | afterwards every object sits in the cell its box hashes to, with the same grids and the same objects in each |
| Hshg.AddThenRemove | src/physics/hshg.ts:56-133 | removing right after adding restores _globalObjects and every existing grid as multisets and drops the metadata |
| HshgQuery.PairsWithinSpec | src/physics/hshg.ts:146-156 | the same-cell pairs are exactly the colliding (objs[k], objs[l]) with k < l, both active |
| HshgQuery.PairsWithinNoRepeat | src/physics/hshg.ts:146-156 | a cell of distinct objects never yields the same pair twice, in either orientation |
| HshgQuery.PairsWithSpec | src/physics/hshg.ts:158-174 | the neighbour pairs of an object are exactly its colliding pairs with the neighbour cell's active objects |
| HshgQuery.CellPairsSound | src/physics/hshg.ts:143-175 | every pair found from one occupied cell joins two distinct objects of the grid |
| HshgQuery.OwnPairsSound | src/physics/hshg.ts:139-175 | pairs found inside grid i are pairs of registered objects |
| HshgQuery.ObjectsCoarserSound | src/physics/hshg.ts:177-200 | an object of grid i is paired only with objects of coarser grids |
| HshgQuery.CrossPairsSound | src/physics/hshg.ts:177-200 | pairs across grids join objects of two different grids, hence two different objects |
| HshgQuery.QueryPairsSound | src/physics/hshg.ts:137-204 | every reported pair joins two distinct registered objects that are both active and whose boxes overlap |
| Entities.Make | src/entity/controller.ts:17-56 | the timer is the drawn value; acceptsFromTop is set exactly for the plain, GoToMaster and Nearest kinds |
| Entities.SameTeamIff | src/entity/entity.ts:405-407 | two entities are on the same team exactly when their team numbers agree, so the relation is an equivalence |
| Entities.SameTeamTransitive | src/entity/entity.ts:405-407 | being on the same team is transitive |
| Entities.VisibilityNotSymmetric | src/entity/entity.ts:409-414 | visibility uses the observer's fov, so two entities at one spot with different views see each other differently |
| Entities.DistanceSymmetric | src/entity/entity.ts:409-414 | the distance is the same from both ends, so two entities with the same fov agree on visibility |
| Entities.Mass | src/entity/entity.ts:207-209 | with mass setting 1 the mass is the size |
| Entities.MaxHealth | src/entity/entity.ts:211-213 | for a non-negative score at least the skill's health |
| Entities.MaxShield | src/entity/entity.ts:215-217 | for a non-negative score at least the skill's shield |
| Entities.GetAabb | src/entity/entity.ts:80-92 | an active square of half-side 0.7 size centred on the entity's position |
| Entities.TopMaster | src/entity/entity.ts:225-229 | a found top master is in the store and is its own master; a master is its own top master |
| Entities.TopMasterStep | src/entity/entity.ts:225-229 | an entity that is not a master has its master's top master |
| Entities.OrderedTopMaster | src/entity/entity.ts:225-229 | when masters have smaller ids, every entity has a top master |
| Entities.Source | src/entity/entity.ts:123-134 | reading source reads the top master's _source |
| Entities.SetSource | src/entity/entity.ts:123-134 | the store keeps its ids and every entity other than the top master is unchanged |
| Entities.SourceRoundTrip | src/entity/entity.ts:123-134 | a source written through any entity is read back through every entity with the same top master, and no master link moves |
| Entities.MasterPos | src/entity/entity.ts:231-233 | the top master's position |
| Entities.Title | src/entity/entity.ts:235-239 | food is named by its label alone; a bullet is "<top master's name>'s <label>", and none when it has no top master; anything else is "<name>'s <label>" |
| Entities.LookupUpgrades | src/entity/entity.ts:291-298 | every listed upgrade's class, or a failure when one name has no class |
| Entities.Init | src/entity/entity.ts:241-301 | completes exactly when every upgrade name resolves; the mockup is always written; when it throws, the upgrades and flags stay as they were |
| Entities.InitFields | src/entity/entity.ts:241-284 | whether or not init throws: the class's settings except score, its score, full health and shield, the class's name unless null; existing controllers stay in front of the new ones; motion, team, master and level are untouched |
| Entities.InitUpgrades | src/entity/entity.ts:291-296 | once init completes, one upgrade per listed name, in order, and the current ones are exactly those of at most the current level |
| Entities.InitTwiceDoubles | src/entity/entity.ts:275-277 | initialising twice with the same class leaves both sets of controllers, whether or not the upgrades resolve |
| Entities.LevelUp | src/entity/entity.ts:309-314 | the level grows by at most one per update, and by one exactly when the score exceeds the level's threshold |
| Entities.LevelUpIsNotALoop | src/entity/entity.ts:309-314 | example: a score far above the curve still gains only one level per update |
| Entities.Regenerate | src/entity/entity.ts:316-330 | only health and shield change (their new values are stated by RegenerateEffect) |
| Entities.RegenerateEffect | src/entity/entity.ts:316-330 | at or above the maximum nothing happens; below it the value grows by exactly rate plus bonus, without clamping |
| Entities.RegenOvershoots | src/entity/entity.ts:316-330 | example: one step below the maximum with a large rate ends above the maximum |
| Entities.Merge | src/entity/entity.ts:334-348 | a controller that does not defer overwrites exactly the intent fields it sets |
| Entities.MergeNulls | src/entity/entity.ts:334-348 | a deferring controller is invisible; a think with every field null changes only the angle and, when absent, the power |
| Entities.AddKeysSum | src/entity/entity.ts:362-381 | the held keys add speed times (#right - #left, #down - #up), whatever their order |
| Entities.Move | src/entity/entity.ts:350-393 | only the motion fields (angle, velocity, position, acceleration, active) change; the cases are stated by MoveByKeys, MoveCoasts and MoveSteers |
| Entities.MoveByKeys | src/entity/entity.ts:362-393 | without a target, the key push is added, the entity moves by the new velocity, and the velocity is damped |
| Entities.MoveCoasts | src/entity/entity.ts:382-393 | with no target, key or move angle, the entity coasts |
| Entities.MoveSteers | src/entity/entity.ts:350-360 | the angle follows the control or the target direction; the push is speed times power, with power 1 when absent or zero |
| Controllers.IsThinkTime | src/entity/controller.ts:24-32 | true exactly when the timer before its decrement is below zero, which resets it to 10; otherwise the timer drops by 1 |
| Controllers.FalsesBeforeThink | src/entity/controller.ts:24-32 | for k up to floor(t) + 1 calls from a timer t >= 0, every call answers false and the timer drops by k |
| Controllers.ElevenFalsesAfterReset | src/entity/controller.ts:24-32 | after a reset, exactly eleven calls answer false before one answers true |
| Controllers.ScanIsNearest | src/entity/controller.ts:96-116 | the scan finds an entity exactly when one is eligible, and then the nearest, the first of equally near ones |
| Controllers.NearestUnique | src/entity/controller.ts:109-116 | at most one index is the first nearest eligible one |
| Controllers.ScanExcludes | src/entity/controller.ts:96-107 | the scan never picks itself, a team-mate, a dependent entity (one with a master that is not independent), a fixed entity, one out of view, or food when only players count |
| Controllers.NearestThink | src/entity/controller.ts:69-142 | keeps the Nearest controller's state valid and steps its timer; the outcomes are stated by NearestScans and NearestReplays |
| Controllers.NearestScans | src/entity/controller.ts:118-141 | off a think tick: nothing eligible means defer and clear the cache; otherwise cache the nearest entity, stop deferring and aim at it |
| Controllers.NearestReplays | src/entity/controller.ts:70-92 | on a think tick the result does not depend on the room's entity order, orders from the top are accepted exactly when no target is cached, and the brain is unchanged |
| Controllers.CircleThink | src/entity/controller.ts:145-191 | on a think tick the aim becomes (5, 5) turned by the angle, main is set with power 0.1 and the angle steps back; off a think tick the state is unchanged |
| Controllers.MasterCircleThink | src/entity/controller.ts:193-222 | on a think tick the intent aims at the orbit point relative to the entity with power 0.6; off a think tick the state is unchanged |
| Controllers.MasterCircleCentre | src/entity/controller.ts:193-222 | the orbit is around the direct master, or the entity itself without one, and the angle steps back by pi/10 |
| Controllers.CirclersNeverDefer | src/entity/controller.ts:145-222 | the circling kinds keep acceptsFromTop false through any number of thoughts and always ask for main without fire |
| Controllers.GoToMasterThink | src/entity/controller.ts:224-246 | on a think tick it defers when the top master has no source, and otherwise aims at the source plus the master's position with power 0.7 plus the draw |
| Controllers.MinionThink | src/entity/controller.ts:258-290 | the controller stays a Minion controller; its decisions are stated by MinionDecides |
| Controllers.MinionDecides | src/entity/controller.ts:258-290 | it defers exactly when the master or its source is missing, and pursues exactly when it is too far |
| Controllers.FindNearest | src/entity/controller.ts:340-359 | a found id is in the store |
| Controllers.MinionNearestThink | src/entity/controller.ts:302-338 | on a think tick the aim is a point at radius 20 around the nearest entity, or nothing |
| Controllers.PlainThink | src/entity/controller.ts:34-42 | no timer, no deferral change, and an intent that turns main, fire and alt off |
| Controllers.ThinkOnce | src/entity/controller.ts:17-360 | the controller's state stays valid, and its kind is plain exactly when it was |
| Controllers.DeferralChangers | src/entity/controller.ts:59-360 | only Nearest, GoToMasterTarget and Minion ever change their deferral |
| RoomConfig.Ceil | src/room/room-config.ts:16-18 | the least integer not below x |
| RoomConfig.LevelScore | src/room/room-config.ts:16-18 | the score of a level >= 0 is never negative |
| RoomConfig.LevelScoreStart | src/room/room-config.ts:16-18 | example: levels 0, 1 and 2 need scores 0, 1 and 3 |
| RoomConfig.LevelScoreMonotone | src/room/room-config.ts:16-18 | more levels never need less score |
| RoomConfig.LevelSkill | src/room/room-config.ts:19-25 | levels 2 to 45 grant a skill point, and no other level does |
| RoomConfig.Spawn | src/room/room-config.ts:12-15 | x lies in [0, height) and y in [0, width): the axes are crossed |
| RoomConfig.PushBack | src/room/room-config.ts:26-44 | inside the walls the push is zero; past the lower wall it is the distance times the factor, past the upper one minus that |
| RoomConfig.Physics | src/room/room-config.ts:26-44 | along each axis where the entity is outside, the velocity is pushed back by the distance past the wall times the factor; along each axis inside, it is kept; airplanes keep their velocity |
| Worlds.Insert | src/room/world.ts:28-37 | the entity gets the next id, is appended to the lists and registered in the id map, the counter grows by one, the events gain Inserted(id) and the mini-map is unchanged |
| Worlds.InsertNumbers | src/room/world.ts:28-37 | example: two inserts into an empty world get ids 0 and 1, in insert order |
| Worlds.Remove | src/room/world.ts:39-51 | the entity leaves every list and the mini-map, is marked dead with no master or controllers, and a removal event is emitted |
| Worlds.GiveScore | src/room/world.ts:154-165 | when the victim gives score, the killer's top master gains the victim's score, capped at maxGiveScore unless the victim is food, and is sent the kill message; otherwise nothing changes; the entity lists are untouched |
| Worlds.CreditStoreSpec | src/room/world.ts:154-165 | crediting keeps the keys and changes only the top master's score |
| Worlds.Hurt | src/room/world.ts:178-196 | the shield absorbs what it can, the rest comes off health, and the hit is dated |
| Worlds.Hit | src/room/world.ts:178-186 | the victim is hurt and a damage event is recorded |
| Worlds.ApplyDamage | src/room/world.ts:178-196 | the world becomes AfterDamage: a hit that leaves health above zero does nothing more; a fatal one kills the victim and credits the attacker unless the victim was already dead before the hit |
| Worlds.AfterDamage | src/room/world.ts:178-196 | one hit keeps the world well formed with the same ids, index, tick and walls |
| Worlds.AfterDamageVictim | src/room/world.ts:178-196 | the shield absorbs up to the damage and the rest comes off health; the victim is dead exactly when it was already or its health reached zero; its motion is unchanged; a damage event follows the old events |
| Worlds.AfterDamageOthers | src/room/world.ts:187-196 | every other entity changes at most in its score |
| Worlds.KillStoreSound | src/room/world.ts:187-196 | killing, with or without the credit, keeps the store sound and its keys |
| Worlds.KillStoreSpec | src/room/world.ts:187-196 | the victim is dead with no master or controllers, keeping health and position; everyone else is as crediting left them |
| Worlds.Kill | src/room/world.ts:187-196 | the dead event, the credit when due, and the removal last; the victim leaves every list |
| Worlds.DoDamage | src/room/world.ts:167-176 | team-mates do nothing; otherwise b is hit with a's damage and then, unless god, a is hit with the same damage whether or not b survived: the world is AfterDamage on b, then on a |
| Worlds.DoDamageHitsTarget | src/room/world.ts:167-173 | b's shield and health drop as one hit prescribes and b is dead exactly when it was already or its health reached zero; in god mode a is untouched |
| Worlds.DoDamageHitsBack | src/room/world.ts:174-175 | without god mode a then takes the same damage and is dead exactly when it was already or its health reached zero |
| Worlds.ResolveWall | src/room/world.ts:112-118 | the mover is pushed out along its farther axis to the wall's edge on its own side; exactly one coordinate changes |
| Worlds.ResolveWallOntoBoundary | src/room/world.ts:112-118 | a mover strictly inside the wall's reach ends on the boundary of the square |
| Worlds.HandleFixed | src/room/world.ts:93-110 | the wall never moves; two fixed or a flying mover do nothing; a bullet dies; otherwise the mover is pushed out and damaged |
| Worlds.HandleDynamic | src/room/world.ts:120-130 | entities farther apart than their sizes do nothing; otherwise both are hit and, unless one flies, they bounce |
| Worlds.HandleCustom | src/room/world.ts:75-91 | the non-auto side goes first; a none on either side ends it; each side's callback is recorded |
| Worlds.HandleCollision | src/room/world.ts:53-73 | the collision hooks, then custom hit types (no damage, no motion) or the fixed or dynamic handler |
| Worlds.Collide | src/room/world.ts:203-210 | the world stays well formed; ids, index, tick and walls are kept, events only grow and no entity joins the list |
| Worlds.ThinkAll | src/entity/entity.ts:334-348 | the number of controllers is kept, every brain stays in the store, and controllers before the current one are untouched |
| Worlds.Step | src/entity/entity.ts:309-393 | master, setting, tick and death flag are kept; the level is LevelUp's and health is Regenerate applied after LevelUp |
| Worlds.StepEntity | src/entity/entity.ts:309-393 | the stepped entity keeps its setting, master, tick and death flag, levels and regenerates; nobody else changes |
| Worlds.UpdateEntity | src/entity/entity.ts:303-394 | the tick is counted; a dependent whose master is dead is removed before it steps; otherwise it steps |
| Worlds.AfterUpdate | src/room/world.ts:214-220 | the velocity is the room's physics applied to the motion; the entity is on the mini-map exactly when its type is not none |
| Worlds.UpdateOne | src/room/world.ts:212-221 | one entity's update, physics and mini-map bookkeeping; only its own mini-map place is decided |
| Worlds.UpdateAll | src/room/world.ts:212-221 | afterwards every listed entity is on the mini-map exactly when its type is not none |
| Worlds.Update | src/room/world.ts:198-222 | the tick grows by one and the world stays well formed |
| ClassLoading.DeepCopyIsEqual | src/entity/class.ts:142-158 | a deep copy reads exactly like the original |
| ClassLoading.CopyRecord | src/entity/class.ts:142-158 | the deep copy of a whole record equals the record |
| ClassLoading.Assign | src/entity/class.ts:183-185 | Object.assign of two field sets: the second's fields win, the rest come from the first |
| ClassLoading.WithDefaultProps | src/entity/class.ts:183-185 | each prop is the default prop overlaid with the prop, in order |
| ClassLoading.OverlayFields | src/entity/class.ts:173-185 | the class's own fields other than skill and props win; missing fields come from the base; the skill is keyed in |
| ClassLoading.Finish | src/entity/class.ts:177-191 | overlay on the base, take the next mockup id and cache the result; an error from the base passes through |
| ClassLoading.CacheHit | src/entity/class.ts:161 | a cached name returns the same record and leaves the loader unchanged |
| ClassLoading.MissingParentThrows | src/entity/class.ts:165-172 | a parent missing from the registry throws, and nothing changes |
| ClassLoading.SelfParentCycles | src/entity/class.ts:165-172 | a class naming itself as parent never finishes; the cycle is reported with the loader unchanged |
| ClassLoading.ProcessLoader | src/entity/class.ts:160-192 | the loader only grows; a success is the record cached under the name, with the counter's value as its id |
| ClassLoading.FreshIds | src/entity/class.ts:187 | a fresh class's mockup id is never 0 and differs from every earlier one |
| ClassLoading.RootClass | src/entity/class.ts:173-189 | a class without a parent is basic overlaid with the class, with the counter's current value as id |
| ClassLoading.ChildClass | src/entity/class.ts:165-189 | a class with a registered parent is overlaid on the parent's processed record |
| ClassLoading.LoadAllIds | src/entity/class.ts:194-207 | starting from an empty cache, every registered key gets a record whose id is no lower than the counter before the load |
| Leaderboards.Lookup | src/room/leaderboard.ts:17-27 | a found record is an entry listed under k; nothing is found exactly when k is not listed |
| Leaderboards.Replace | src/room/leaderboard.ts:22-27 | setting a present key replaces its record in place |
| Leaderboards.ReplaceLookup | src/room/leaderboard.ts:22-27 | after a replace, get finds the new record and every other id's record as it was |
| Leaderboards.CreatedIsRefreshed | src/room/leaderboard.ts:17-27 | a new record and a refreshed one hold the same values |
| Leaderboards.VisitSpec | src/room/leaderboard.ts:13-28 | one visit lists a qualifying entity with its current record, leaves others alone and keeps the key order |
| Leaderboards.PassSpec | src/room/leaderboard.ts:12-32 | exactly the qualifying entities are added or refreshed; no other record changes and no key leaves or moves |
| Leaderboards.SortDesc | src/room/leaderboard.ts:34-40 | the same multiset of entries (the order is stated by SortDescSpec) |
| Leaderboards.SortDescSpec | src/room/leaderboard.ts:34-40 | the result is ordered by non-increasing score and keeps a map a map |
| Leaderboards.Truncated | src/room/leaderboard.ts:34-40 | the first n entries of a sorted map are sorted and ahead of every record left out |
| Leaderboards.SortSpec | src/room/leaderboard.ts:34-40 | at most ten records, non-increasing, each as it was; a record is dropped only when ten score at least as much |
| Leaderboards.UpdateSpec | src/room/leaderboard.ts:12-40 | after update the board holds at most ten records by non-increasing score, each qualifying one current |
| Leaderboards.Drop | src/room/leaderboard.ts:20 | keeps only entries that were there (DropSpec states which) |
| Leaderboards.DropSpec | src/room/leaderboard.ts:20 | deleting removes exactly that id and keeps a map |
| Leaderboards.OnRemoveSpec | src/room/leaderboard.ts:20 | removing a listed entity deletes exactly its record; the board stays valid |
| BufferPools.SizeFor | src/network/protocol.ts:6-15 | the first pool size at least the request, or the request itself |
| BufferPools.Acquire | src/network/protocol.ts:6-15 | a buffer of at least the requested size: the last free one of the chosen size, or a fresh zero-filled one |
| BufferPools.Release | src/network/protocol.ts:17-30 | a pool-size buffer is kept while its list holds fewer than 1000; any other is dropped |
| BufferPools.ReleaseThenAcquire | src/network/protocol.ts:6-30 | releasing then acquiring the same size hands back that very buffer when the list had room |
| Bytes.U16RoundTrip | src/network/protocol.ts:161-166 | a u16 written and read back is the value modulo 2^16 |
| Bytes.U32RoundTrip | src/network/protocol.ts:168-173 | a u32 written and read back is the value modulo 2^32 |
| Bytes.I32RoundTrip | src/network/protocol.ts:154-159 | a signed 32-bit value survives setInt32 then getInt32 |
| Utf8.EncodeChar | src/network/protocol.ts:141-152 | one to four bytes per scalar value |
| Utf8.Decode | src/network/protocol.ts:48-58 | the decoder's output with a leading byte order mark dropped |
| Utf8.DecodeEncode | src/network/protocol.ts:48-58 | a leading U+FEFF is dropped by the round trip; every other string comes back unchanged |
| Protocol.ReadUint | src/network/protocol.ts:71-80 | succeeds exactly when two bytes remain, giving their little-endian value; a throw leaves the reader unchanged |
| Protocol.ReadBigUint | src/network/protocol.ts:82-91 | succeeds exactly when four bytes remain, giving their little-endian value |
| Protocol.ReadInt | src/network/protocol.ts:60-69 | succeeds exactly when four bytes remain, giving the two's-complement value |
| Protocol.ReadFloat | src/network/protocol.ts:93-102 | succeeds exactly when four bytes remain, giving those bytes |
| Protocol.ReadBoolean | src/network/protocol.ts:104-113 | succeeds exactly when a byte remains, true when it is non-zero |
| Protocol.ReadString | src/network/protocol.ts:48-58 | a u16 count then that many UTF-8 bytes; a count that runs past the end throws after the count is consumed |
| Protocol.ReadLongString | src/network/protocol.ts:141-152 | a string of 65536 UTF-8 bytes or more has its length wrapped, so only length mod 65536 bytes come back |
| Protocol.NewWriter | src/network/protocol.ts:123-126 | a pooled buffer of at least the initial size, at position 0 |
| Protocol.EnsureCapacity | src/network/protocol.ts:128-139 | afterwards the buffer has room for the additional bytes, the written bytes are kept, and a buffer that fits is unchanged |
| Protocol.Put | src/network/protocol.ts:154-187 | the bytes are stored at the position, which moves past them; earlier bytes are kept |
| Protocol.WriteBytes | src/network/protocol.ts:154-187 | a fixed-width write appends exactly its bytes to the written ones |
| Protocol.WriteString | src/network/protocol.ts:141-152 | appends the u16 length of the UTF-8 and then the UTF-8 bytes |
| Protocol.Make | src/network/protocol.ts:189-193 | the written bytes; the pool gets the buffer back although the writer keeps it |
| Protocol.Reset | src/network/protocol.ts:195-198 | back to position 0 on the same buffer |
| Protocol.StringRoundTrip | src/network/protocol.ts:48-58 | a string written then read back is the same string |
| Protocol.UintRoundTrip | src/network/protocol.ts:71-80 | a u16 written then read back is the value modulo 2^16 |
| Protocol.BigUintRoundTrip | src/network/protocol.ts:82-91 | a u32 written then read back is the value modulo 2^32 |
| Protocol.IntRoundTrip | src/network/protocol.ts:60-69 | an i32 written then read back is the value |
| Protocol.BooleanRoundTrip | src/network/protocol.ts:104-113 | a boolean written then read back is the same boolean |
| Protocol.ReaderOfIgnoresOffset | src/network/protocol.ts:40-46 | a reader over a view two bytes into its buffer reads the buffer's first u16, not the view's |
| Protocol.ReaderOfView | src/network/protocol.ts:40-46 | the intended reader covers exactly the view's bytes |
| Messages.ReadPaint | client/src/lib/socket.ts:49-63 | a successful read stays on the same data and moves forward |
| Messages.ReadPaintAt | client/src/lib/socket.ts:49-63 | the paint written is the paint read back |
| Messages.ReadSides | client/src/lib/socket.ts:82-101 | a successful read stays on the same data and moves forward |
| Messages.ReadSidesAt | client/src/lib/socket.ts:82-101 | the sides written are read back, for polygons of fewer than 65534 points |
| Messages.PolygonTagWraps | src/network/socket.ts:289-301 | a polygon of 65534 points wraps its tag to 0, the tag of a name |
| Messages.ReadPropAt | client/src/lib/socket.ts:298-314 | one prop written is read back in field order |
| Messages.ReadMockupAt | src/network/socket.ts:286-346 | a mockup written is read back |
| Messages.ReadEntityDataAt | client/src/lib/socket.ts:132-153 | the entity data written is read back |
| Messages.ReadEntityInfoAt | client/src/lib/socket.ts:229-265 | the entity info written is read back |
| Messages.ReadEntityMockupAt | client/src/lib/socket.ts:281-331 | the entity look written is read back |
| Messages.ReadUpgradeAt | client/src/lib/socket.ts:336-387 | one upgrade card written is read back |
| Messages.ReadMinimapAt | client/src/lib/socket.ts:392-414 | one minimap entry written is read back |
| Messages.ReadLeaderAt | client/src/lib/socket.ts:416-429 | one leaderboard row written is read back |
| ServerMessages.ReadBody | client/src/lib/socket.ts:103-436 | the body of a known type; an unknown type reads nothing more |
| ServerMessages.ReadMessage | client/src/lib/socket.ts:103-436 | a successful read stays on the same data and moves forward by at least 2 bytes |
| ServerMessages.ReadBodyAt | client/src/lib/socket.ts:103-436 | the reader for a message's type reads the message back from its body |
| ServerMessages.UnknownTypeReadsNothing | client/src/lib/socket.ts:431-432 | a type the clients do not know reads nothing past the tag |
| ServerMessages.Dispatch | client/src/lib/socket.ts:103-436 | the tag selects the body reader |
| ServerMessages.MessageRoundTrip | client/src/lib/socket.ts:103-436 | a whole message read from the start of its bytes is the message written, and the reader stops at the end |
| ServerSockets.AddKey | src/network/socket.ts:109-153 | k is held afterwards and the keys are exactly the old ones plus k |
| ServerSockets.DeleteKey | src/network/socket.ts:109-153 | deleting removes exactly that key |
| ServerSockets.Message | src/network/socket.ts:22-241 | id '0' is answered with Hello and a new id; other sessions are untouched and at most uuid is added |
| ServerSockets.Handle | src/network/socket.ts:34-236 | on success other sessions are untouched and at most uuid is added |
| ServerSockets.Spawn | src/network/socket.ts:36-106 | the session is stored open and greeted with the welcome chat; a living body is kept and nothing is inserted; no other session changes |
| ServerSockets.Control | src/network/socket.ts:109-201 | only uuid's session may change; no session is added and nothing is inserted |
| ServerSockets.Upgrade | src/network/socket.ts:214-239 | an index past the body's upgrades is quiet; otherwise the session takes the body init left, even when init threw, and the chat line is sent exactly when init completed; no other session changes and nothing is inserted |
| ServerSockets.CommandApplies | src/network/socket.ts:22-241 | every well-formed command from a known session does what the client's bytes say |
| ServerSockets.PressReleaseRestores | src/network/socket.ts:109-153 | a key pressed then released leaves the held keys as they were |
| ServerSockets.KeyCodeKeepsKeys | src/network/socket.ts:109-153 | the held keys stay distinct codes 0 to 3 whatever code arrives |
| ServerSockets.Truncated | src/network/socket.ts:238-240 | a message too short for its tag is dropped |
| ServerSockets.UnknownTag | src/network/socket.ts:234-236 | an unknown tag is answered in plain text, whatever follows |
| ServerSockets.Stranger | src/network/socket.ts:109-232 | an unknown session's steering and upgrade messages change nothing and send nothing |
| ServerSockets.TriggerNeedsTwo | src/network/socket.ts:178-189 | the one-boolean trigger message throws at the second read and changes nothing |
| ServerSockets.Close | src/network/socket.ts:247-249 | the session keeps its body and records when its socket closed |
| ServerSockets.Reconnect | src/network/socket.ts:36-106 | a player who spawns again before the sweep gets the same living body back, and the session is open again |
| ServerSockets.SweepBy | src/network/socket.ts:411-416 | the kept sessions are exactly the sessions the test does not hold for, unchanged |
| ServerSockets.EarlyCloseLingers | src/network/socket.ts:411-416 | as written, a session closed within the first minute of the process is never swept |
| ServerSockets.LateCloseDropsAtOnce | src/network/socket.ts:411-416 | as written, a session closed later is swept at the next tick |
| ServerSockets.Grace | src/network/socket.ts:411-416 | with the corrected test a closed session survives exactly the timeout after its close, and an open one is never swept |
| Broadcasts.ToUint32 | src/network/socket.ts:364-377 | in [0, 2^32), and the floor of any number in that range |
| Broadcasts.ToUint32Whole | src/network/socket.ts:364-377 | a whole number k becomes k mod 2^32 and is written as the same bytes as k |
| Broadcasts.DataOf | src/network/socket.ts:364-377 | a well-formed data record whose score is the entity's score as setUint32 stores it |
| Broadcasts.Seen | src/network/socket.ts:504-525 | every id seen is in the store |
| Broadcasts.SeenSpec | src/network/socket.ts:504-525 | an entity is seen exactly when it is in the room, is not the player, and lies in the player's view |
| Broadcasts.Others | src/network/socket.ts:504-525 | only data and info messages about other entities |
| Broadcasts.OthersShowSeen | src/network/socket.ts:504-525 | in room order, each seen entity's data, then its info when it changed, and nothing about anyone else |
| Broadcasts.Mapped | src/network/socket.ts:458-502 | every id drawn is in the store |
| Broadcasts.MappedSpec | src/network/socket.ts:465-471 | an entity is drawn exactly when the filter keeps it |
| Broadcasts.MarkOf | src/network/socket.ts:458-502 | black for the player itself; a size and sides exactly for a fixed entity |
| Broadcasts.MarksSpec | src/network/socket.ts:458-502 | the k-th entry is the k-th entity the filter keeps |
| Broadcasts.FrameSpec | src/network/socket.ts:418-525 | own data first; upgrades only when one was added, stats every 20 ticks, minimap every 10 |
| Broadcasts.Tick | src/network/socket.ts:406-531 | one upgrade flag per session |
| Broadcasts.Frames | src/network/socket.ts:406-531 | one frame per session, in order |
| Broadcasts.TickStep | src/network/socket.ts:406-531 | one turn appends the body's frame, clears its upgrade flag if sent, and collects what changed |
| Broadcasts.TickCleared | src/network/socket.ts:425-435 | the cleared bodies are exactly the sessions' bodies that had an upgrade added |
| Broadcasts.TickFrames | src/network/socket.ts:406-531 | each session gets its body's frame, with the upgrade list only on the first frame of a body that had one |
| Broadcasts.TickChanged | src/network/socket.ts:437-445 | the collected set is exactly the changed entities some frame carried |
| Broadcasts.Settle | src/network/socket.ts:528-530 | the store keeps its ids |
| Broadcasts.TickSettles | src/network/socket.ts:406-531 | an entity stays changed exactly when nobody was sent its info, and nothing else about any entity changes |
| Broadcasts.FrameReadable | src/network/socket.ts:406-531 | when the writes fit their fields, every message of a frame reads back as written |
| Broadcasts.Rows | src/network/socket.ts:533-548 | one row per entry with its title, in board order, each score fitting in 32 bits |
| Broadcasts.LeaderboardReadable | src/network/socket.ts:533-548 | a board of fewer than 2^16 fitting entries reaches the client with titles in order and each fitting score intact up to its fraction |
| ClientSockets.TeamColor | client/src/lib/socket.ts:49-63 | team 0 is FFA; teams past the table have no colour |
| ClientSockets.DecodeColor | client/src/lib/socket.ts:49-63 | fails only without an own entity; with a plain palette the result is never the word FFA |
| ClientSockets.IndexedAsNamed | client/src/lib/socket.ts:49-63 | an indexed colour decodes exactly as the same word sent inline |
| ClientSockets.FfaColor | client/src/lib/socket.ts:49-63 | both ways of being free-for-all give blue exactly for the own team and green for any other |
| ClientSockets.ColorPassesThrough | client/src/lib/socket.ts:49-63 | every other word, and undefined, passes through unchanged |
| ClientSockets.Border | client/src/lib/socket.ts:65-80 | fails exactly for AutoBorder with no colour |
| ClientSockets.BorderAfterColor | client/src/lib/socket.ts:65-80 | the FFA recolouring never changes a border derived from a decoded colour |
| ClientSockets.BorderWords | client/src/lib/socket.ts:65-80 | TeamColor gives the team colour, AutoBorder the darkened colour, and every other word is unchanged |
| ClientSockets.DarkenInRange | client/src/lib/socket.ts:65-80 | a darkened in-range colour stays in range |
| ClientSockets.Cap | client/src/lib/socket.ts:378 | the size, capped at 30 |
| ClientSockets.DecodeProp | client/src/lib/socket.ts:298-314 | keeps the layer and the shape; the size is decoded, capped at 30 when asked |
| ClientSockets.DecodeProps | client/src/lib/socket.ts:298-314 | one prop per record in wire order, or the first prop's fault |
| ClientSockets.Insert | client/src/lib/socket.ts:316 | inserts before the first prop of a layer at least its own |
| ClientSockets.InsertSorted | client/src/lib/socket.ts:316 | inserting into a sorted list keeps it sorted |
| ClientSockets.SortByLayer | client/src/lib/socket.ts:316 | the same props (as a multiset), ordered by non-decreasing layer |
| ClientSockets.Fresh | client/src/lib/socket.ts:36-44 | maximum health 100, unseen, not fading, not loaded |
| ClientSockets.Target | client/src/lib/socket.ts:283 | a found target indexes an object; none exactly when the id is unknown and there is no own entity |
| ClientSockets.Raised | client/src/lib/socket.ts:137-139 | a non-zero maximum health is raised to a larger health |
| ClientSockets.Lerp | client/src/lib/socket.ts:17-19 | between a and b, with the gap to b shrunk to a fifth |
| ClientSockets.Land | client/src/lib/socket.ts:132-153 | the fields cases 1 and 2 copy from one data record |
| ClientSockets.SelfUpdate | client/src/lib/socket.ts:126-165 | case 1 keeps the client valid (the effect is stated by SelfDataSpec) |
| ClientSockets.OtherUpdate | client/src/lib/socket.ts:167-209 | case 2 keeps the client valid (the effect is stated by OtherDataSpec) |
| ClientSockets.Fade | client/src/lib/socket.ts:212-219 | case 3 keeps the client valid (the effect is stated by RemovedOnlyFades) |
| ClientSockets.Describe | client/src/lib/socket.ts:229-265 | case 5 keeps the client valid (the effect is stated by InfoSpec) |
| ClientSockets.Progress | client/src/lib/socket.ts:267-273 | case 6 fails exactly without an own entity and keeps the client valid |
| ClientSockets.Shaped | client/src/lib/socket.ts:281-331 | case 8 keeps the client valid (the effect is stated by LookSpec) |
| ClientSockets.DecodeCard | client/src/lib/socket.ts:336-387 | one upgrade card: colour for the own team, border from the own entity's colour, props capped at 30 |
| ClientSockets.Offer | client/src/lib/socket.ts:333-390 | case 9 fails without an own entity and keeps the client valid |
| ClientSockets.DecodeMarker | client/src/lib/socket.ts:392-414 | keeps the team, and has a size exactly when the entry is fixed |
| ClientSockets.Skilled | public/lib/socket.js:421-435 | legacy case 12 fails exactly without an own entity and keeps the client valid |
| ClientSockets.Handle | client/src/lib/socket.ts:103-436 | every handled message keeps the client valid |
| ClientSockets.OnMessage | client/src/lib/socket.ts:103-436 | the reply and the return value: false for type 0, true otherwise; an unknown type throws |
| ClientSockets.LegacyOnMessage | public/lib/socket.js:437-438 | the legacy client leaves the client unchanged and sends nothing on an unknown type |
| ClientSockets.Receive | client/src/lib/socket.ts:103-436 | fewer than two bytes throw; a false return leaves the client unchanged with nothing sent; the client stays valid |
| ClientSockets.LegacyReceive | public/lib/socket.js:87-440 | fewer than two bytes throw; the client stays valid |
| ClientSockets.StopsEarlyComplete | client/src/lib/socket.ts:120-285 | on a whole message a handler stops early exactly for the newer client's type 0, or a case 5 or 8 whose id names no object while there is no own entity |
| ClientSockets.ReceiveComplete | client/src/lib/socket.ts:103-436 | on bytes that hold a whole message, stopping early is invisible: the handler does what the decoded message asks |
| ClientSockets.LegacyReceiveComplete | public/lib/socket.js:87-440 | the same for the legacy client |
| ClientSockets.ReceiveHello | client/src/lib/socket.ts:120-124 | type 0 returns false and changes nothing, whatever follows the type |
| ClientSockets.ReceiveNoTarget | client/src/lib/socket.ts:229-233 | in both clients, cases 5 and 8 about an id with no object while there is no own entity change nothing, whatever follows the id; the newer client returns true |
| ClientSockets.ReceiveCutInfo | public/lib/socket.js:221-225 | example: the bytes 5, 0, 9, 0, 0, 0 fail a full read, yet both clients take them without throwing and change nothing |
| ClientSockets.ReceiveWritten | client/src/lib/socket.ts:103-436 | whatever the server sends reaches the handlers as the message it wrote |
| ClientSockets.SelfDataSpec | client/src/lib/socket.ts:126-165 | the first data creates the own entity and asks for its info once; later data update it in place |
| ClientSockets.SelfDataMoves | client/src/lib/socket.ts:141-149 | a new own entity is placed; later the newer client moves it eight tenths of the way and the legacy one records the server position |
| ClientSockets.OtherDataSpec | client/src/lib/socket.ts:167-209 | an unknown id gets a new object and one info request; a known one is updated in place and nothing is sent |
| ClientSockets.OtherDataMoves | client/src/lib/socket.ts:187-195 | the legacy client always jumps; the newer one jumps for a new or hidden entity and otherwise lerps |
| ClientSockets.RemovedOnlyFades | client/src/lib/socket.ts:212-219 | case 3 only starts the fade; the entity stays listed and nothing else changes |
| ClientSockets.InfoSpec | client/src/lib/socket.ts:229-265 | the look comes from the cache when cached, otherwise exactly one look request goes out |
| ClientSockets.LookSpec | client/src/lib/socket.ts:281-331 | the newer client orders props by layer, the legacy keeps wire order; the look is cached exactly when the mockup id is non-zero |
| ClientSockets.ListsReplaced | client/src/lib/socket.ts:392-429 | cases 10 and 11 replace their list with one record per entry, in order; each leaderboard row carries its entry's title and score; nothing else changes and nothing is sent |
| ClientSockets.SkillsSpec | public/lib/socket.js:421-435 | case 12 is legacy-only; the newer client throws on it |
| ClientSockets.LegacyHello | public/lib/socket.js:110-126 | legacy case 0 keeps the new session id and sends its join again |
| Rgb.ChannelMixer | client/src/lib/rgb.ts:16-18 | between a and b for a ratio in [0, 1]; ratio 1 gives a and ratio 0 gives b |
| Rgb.MixBetween | client/src/lib/rgb.ts:16-18 | a convex combination of two integers lies between them |
| Rgb.Mix | client/src/lib/rgb.ts:24-30 | in range for in-range colours and a ratio in [0, 1]; ratio 1 gives the colour back; a non-numeric other colour gives a non-numeric result |
| Rgb.Invert | client/src/lib/rgb.ts:20-22 | each channel v becomes 255 - v |
| Rgb.InvertInvolution | client/src/lib/rgb.ts:20-22 | inverting twice gives the colour back |
| Rgb.Hex | client/src/lib/rgb.ts:32-40 | a hash and two hex digits per channel |
| Rgb.TwoDigits | client/src/lib/rgb.ts:32-40 | a channel in [0, 255] is written as its two hexadecimal digits |
| Rgb.FromHex | client/src/lib/rgb.ts:42-57 | a text that does not expand to six digits gives black (six digits are covered by HexRoundTrip) |
| Rgb.HexRoundTrip | client/src/lib/rgb.ts:32-57 | fromHex(c.hex) is c for integer channels in [0, 255] |
| Rgb.ShortFormIsDoubled | client/src/lib/rgb.ts:42-57 | #rgb denotes the same colour as #rrggbb |
| MessageStack.Split | client/src/lib/state/message.ts:7-14 | the pieces between line breaks, at least one |
| MessageStack.JoinSplit | client/src/lib/state/message.ts:7-14 | joining the pieces gives the text back |
| MessageStack.Push | client/src/lib/state/message.ts:7-14 | each piece in turn goes on top with full opacity |
| MessageStack.Add | client/src/lib/state/message.ts:7-14 | the lines, last first, above the old entries in their order |
| MessageStack.Update | client/src/lib/state/message.ts:16-22 | the survivors in their order, each at most 0.01 fainter than the entry it came from; every dropped entry had at most 0.01 opacity |
| MessageStack.SpliceSkipsNext | client/src/lib/state/message.ts:16-22 | example: an entry that fades out takes the next one's turn with it |
| MessageStack.DropOrder | client/src/lib/state/message.ts:16-22 | the survivors keep their relative order |
| MessageStack.DropGone | client/src/lib/state/message.ts:16-22 | a spliced-out entry had at most one fade step of opacity left |
| MessageStack.SingleFades | client/src/lib/state/message.ts:16-22 | example: one entry fades by 0.006 per pass and is removed only once gone |
| Mazes.WallsDetermine | src/util/maze.ts:14-19 | two mazes of the same shape with the same walls are equal |
| Mazes.New | src/util/maze.ts:14-19 | every cell is a wall |
| Mazes.Clear | src/util/maze.ts:21-30 | carves c and changes nothing else |
| Mazes.FewerWalls | src/util/maze.ts:21-114 | carving never adds to the wall count |
| Mazes.FewerWallsAt | src/util/maze.ts:21-114 | carving a wall lowers the wall count |
| Mazes.RemoveBorders | src/util/maze.ts:21-30 | the outer ring is carved and nothing else changes; no rows but some columns throws |
| Mazes.CreateHoles | src/util/maze.ts:91-105 | every interior cell within floor(holeSize / 2) of a centre is carved, and nothing else |
| Mazes.CreateCorridors | src/util/maze.ts:107-114 | throws exactly when a listed value is not a row index; otherwise the corridor cells are carved |
| Mazes.PunchAdditionalWalls | src/util/maze.ts:78-89 | exactly the punched cells are carved |
| Mazes.PunchedIsOdd | src/util/maze.ts:78-89 | every punched cell has odd coordinates |
| Mazes.Shuffle | src/util/maze.ts:71 | some order of the same elements |
| Mazes.GenerateMaze | src/util/maze.ts:32-76 | a missing start row throws; otherwise the maze only loses walls and every inside cell of the start's parity is carved |
| Mazes.Reach | src/util/maze.ts:32-76 | in a closed maze with the start carved, every inside cell of the start's parity is carved |
| Mazes.AdjacentParity | src/util/maze.ts:52-67 | adjacent cells never share a parity class |
| Mazes.PushesQueued | src/util/maze.ts:52-74 | the pushed visits are inside, of the start's parity, each paired with the adjacent midpoint |
| Mazes.PushesComplete | src/util/maze.ts:52-74 | every inside neighbour of the popped cell is carved or pushed |
| RoomLoops.InitTile | src/room/room-loop.ts:29-37 | tile k belongs to slot (k div cols, k mod cols) and covers its rectangle; an empty map throws |
| RoomLoops.AxisPartition | src/room/room-loop.ts:29-37 | a point of [0, length) lies in exactly one slot |
| RoomLoops.TilePartition | src/room/room-loop.ts:29-37 | the tiles partition the world: a point lies in tile (i, j) exactly when those are its slots |
| RoomLoops.Pick | src/room/room-loop.ts:46-48 | a member of the list; for a draw in [0, 1) one is found exactly when the list is non-empty |
| RoomLoops.PickInRange | src/room/room-loop.ts:46-48 | a draw in [0, 1) picks an index of a non-empty list |
| RoomLoops.HomeTile | src/room/room-loop.ts:46-48 | one of the team's tiles when the team has a list |
| RoomLoops.SpawnWith | src/room/room-loop.ts:39-59 | keeps the name and team, never lies in an exclusion zone, and is None exactly when every draw was rejected |
| RoomLoops.Spawn | src/room/room-loop.ts:39-59 | keeps the name and never lies in an exclusion zone; for a draw in [0, 1) the player has a team exactly when teams are listed, and then one of them |
| RoomLoops.SpawnInside | src/room/room-loop.ts:39-59 | a player spawns inside one of its team's tiles, or else inside the world, never in an exclusion zone |
| RoomLoops.SpawnMissesTile | src/room/room-loop.ts:50-53 | as written, the only tile (0, 1250)-(1250, 2500) places its player at (625, 625), outside it |
| RoomLoops.ZoneCoversCell | src/room/room-loop.ts:102-105 | a wall's exclusion zone covers the whole square of its cell |
| RoomLoops.ColumnsSpec | src/room/room-loop.ts:85-107 | the enumeration holds each wall cell exactly once, in column-major order |
| RoomLoops.PlaceWalls | src/room/room-loop.ts:85-107 | one wall per wall cell, column by column, each with its exclusion zone |
| RoomLoops.WallSquaresExcluded | src/room/room-loop.ts:85-107 | no point on a wall cell's square can be a spawn position |
| RoomLoops.Carve | src/room/room-loop.ts:63-83 | from (1, 1): punched openings, four small holes, a large middle one, and two corridors |
| RoomLoops.Carved | src/room/room-loop.ts:63-65 | every inside cell with odd coordinates ends open |
| RoomLoops.GenerateLabyrinth | src/room/room-loop.ts:61-108 | the carved maze, then one wall per remaining wall cell with its zone |
| Tiles.Init | src/room/tile.ts:42-45 | keeps the rectangle and setting, with the centre midway, the size the width, and no entities |
| Tiles.CentreInside | src/room/tile.ts:42-45 | the centre lies inside the rectangle |
| Tiles.Period | src/room/tile.ts:75 | a missing or zero interval means 500 |
| Tiles.Fire | src/room/tile.ts:21-73 | closed exactly when the gate is shut; the tile's own generator has no exclusion zones, so a spawn takes the first position draw, wherever it falls, adds and counts the id and has a listed kind; no place is found only when no draw is given |
| Tiles.FireInside | src/room/tile.ts:52-68 | the spawned entity lies in the tile's rectangle |
| Tiles.FireOpen | src/room/tile.ts:49-68 | example: an open tile with one food of weight 1 spawns on draw 0.5 |
| Tiles.OnRemove | src/room/tile.ts:70-73 | as written, every removal event of a spawned entity lowers the count, however often it fires |
| Tiles.RemovedTwiceMiscounts | src/room/tile.ts:70-73 | two removal events for one entity leave the count one below the entities held |
| Tiles.OverSpawns | src/room/tile.ts:70-73 | a tile limited to one entity ends holding two |
| Tiles.OnRemoveOnce | src/room/tile.ts:70-73 | drops the id from the entities and keeps the spawned set |
| Tiles.ObserveOnceCounted | src/room/tile.ts:70-73 | with the intended listener the count stays exact whatever the events |
| Tiles.FireCounted | src/room/tile.ts:52-73 | a firing keeps the count exact, so a limited tile never holds more than its limit |
| Tiles.MakerInit | src/room/tile.ts:95-101 | a new tile with the maker's setting, recorded at the end of the maker's list |
| RandomChoice.Candidate | src/util/random.ts:6-13 | the candidate of one pair of draws lies in [min, max) |
| RandomChoice.Between | src/util/random.ts:6-13 | a draw in [0, 1) scaled onto [lo, hi) stays inside it |
| RandomChoice.FirstFree | src/util/random.ts:6-13 | the first draw whose candidate lies outside every zone |
| RandomChoice.RandomPos | src/util/random.ts:6-13 | a point of the box outside every zone, or None when every draw was rejected |
| RandomChoice.Walk | src/util/random.ts:16-32 | an index of the list (the interval is stated by WalkPicksInterval) |
| RandomChoice.WalkPicksInterval | src/util/random.ts:16-32 | the pick i has prefix(i) <= r < prefix(i + 1); no pick when r reaches the total |
| RandomChoice.WalkIsFirst | src/util/random.ts:16-32 | no earlier food's interval holds r |
| RandomChoice.RandomFood | src/util/random.ts:16-32 | none for an empty list; a found kind is a listed food's kind |
| RandomChoice.RandomFoodPicks | src/util/random.ts:16-32 | with a positive total and a draw in [0, 1), a food is always picked and never one of weight zero |

## Left out

- Transport, timers, `setInterval` and `setTimeout`, the logger and the clock are not modelled. The clock is a parameter.
- Hooks are not run:
  - `on.collision`, `on.upgrade`, `init`, `tick` and `afterSpawn` are recorded as events, taken as given callbacks or left out.
  - Their effects are out of scope.
- Math functions:
  - Float32 values are four opaque bytes. The conversion from a number is a parameter, and NaN and Infinity are not modelled.
  - `Math.sqrt`, `cos`, `sin` and `atan2` are fields of a `MathLib` parameter and stay uninterpreted.
  - `Math.random` is a list of draws.
- `resolveElasticCollision` (src/room/world.ts:132-152) is a parameter (`Bounce`). Its floating-point formula is not modelled.
- The room's `'remove'` broadcast (src/network/socket.ts:550-559) and the fan-out of room messages to every socket are not modelled.
- A `Tile` entry in the tile map, rather than a `TileMaker`, would be aliased by the source. That case is not modelled: `InitTile` takes settings.
- ClientSockets.Receive: a read past the end inside a case that has already written fields gives Truncated with the client unchanged. The source keeps what the case wrote before the throw; case 11, for instance, clears the leaderboard before it reads the rows.
- ClientSockets.LegacyReceive: the same partial writes before a throw are not modelled.
- The newer client's data-rate counters (`totalDataSize`, `dataCount`, `avgDataSize`, `dataRate`, client/src/lib/socket.ts:106-118) only feed a display and are not modelled.
- Entities.Init: the look fields `init` writes (colour, border, stroke width, alpha and props) are not part of the entity model. When `init` throws, the source's `allUpgrades` holds `undefined` for each name without a class; the model cannot hold that value and keeps the old list.
- The labyrinth's wall entities are inserted into the room (src/room/room-loop.ts:100). `RoomLoops` builds them and their exclusion zones but does not insert them, so they never enter a `World` as entities.
- Hshg.AddObject: objects whose box has a longest edge of zero are not accepted (nor by AddFirstGrid, SpliceGrid and AppendGrid). The source accepts them and builds a first grid of cell size 0, whose hashing divides by zero.
- Utf8: strings are sequences of Unicode scalar values, so a lone UTF-16 surrogate, which `TextEncoder` turns into U+FFFD, is not modelled.
- The override of a room's configuration (src/room/room-config.ts:47) is not modelled.
- The colour palette file `definitions/color.ts` is not part of this model, so the palette is a parameter.
- The paint and look written in EntityInfo and EntityUpgrade are taken as given by id in `Broadcasts`. Their serialisers are modelled in `Messages`.
- Rendering, drawing and the legacy client's reconnect logic are not modelled.
- HSHG `update_REMOVEALL` is not modelled because its body is empty, and `checkIfInHSHG` is not modelled because nothing calls it.
- Entities.Mass: the contract states only the case of mass setting 1; the general formula is its body, over exact reals rather than floats.
- Entities.MaxHealth: states only a lower bound for a non-negative score, over exact reals rather than floats.
- Entities.MaxShield: states only a lower bound for a non-negative score, over exact reals rather than floats.
- Worlds.Update: only the tick count, the well-formedness and the id counter are stated. The per-phase facts are in `Collide` and `UpdateAll`, which it calls.
- Worlds.Collide: states only what the collision pass keeps (well-formedness, ids, index, tick, walls, the entity list) and that events only grow; it does not give the effect of the whole sequence.
- ClientSockets.SortByLayer: states the permutation and the order but not stability. Stability does not matter for equal layers of equal props.
- RandomChoice.RandomPos: answers None when the finite draws run out, where the source keeps drawing.
- RoomLoops.SpawnWith: answers None when the finite draws run out, where the source keeps drawing.
- Tiles.Fire: answers NoPlace only when no position draw is given. The tile's generator has no zones, so the source takes its first draw.
- ServerSockets.Message: takes the message bytes as the whole buffer, as the uWebSockets.js transport passes them. The Bun transport's view into a larger buffer appears only in Protocol.ReaderOfIgnoresOffset.
- RoomConfig.LevelScore: states only that the score is non-negative; the values of the first levels are in LevelScoreStart. Computed over exact reals, not floats.
- ClientSockets.Cap: NaN sizes are not modelled.
- Rgb.Mix: over exact reals. NaN channels are kept as NaN, but float rounding is not modelled.

## Findings

| source | as written | input that shows it | evidently intended | confidence | as-written member | corrected member |
|---|---|---|---|---|---|---|
| src/room/tile.ts:70-73 | the tile's `'remove'` listener lowers `entitySize` on every event, and `World.remove` emits one even for an entity already removed | remove fired twice for one entity: a limit-1 tile then spawns twice more and holds entities 1 and 2 | count each spawned entity out once | not executed | Tiles.RemovedTwiceMiscounts | Tiles.ObserveOnceCounted |
| src/network/protocol.ts:41-42 | the reader wraps `buffer.buffer`, ignoring the view's byte offset and length | a view of [7, 0, 5, 0] starting at byte 2 with length 2: readUint gives 7, not 5 | read only the view's bytes | not executed | Protocol.ReaderOfIgnoresOffset | Protocol.ReaderOfView |
| src/room/room-loop.ts:50-53 | the spawn box takes its y range from the tile's x bounds | one team whose only tile spans (0, 1250)-(1250, 2500): the player is placed at (625, 625), outside the tile | y range from the tile's y bounds | not executed | RoomLoops.SpawnMissesTile | RoomLoops.SpawnInside |
| src/network/socket.ts:411 | the sweep compares the close timestamp itself with the timeout, not the time elapsed since the close | a close at 30000 ms is never swept; a close at 120000 ms is swept at the next tick | drop a session once the timeout has elapsed since its close | not executed | ServerSockets.EarlyCloseLingers | ServerSockets.Grace |
