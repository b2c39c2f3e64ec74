# Voxel arena server and client core: a verified model

The repository is a multiplayer voxel game with an authoritative server. This project models the
deterministic core that the server runs once per tick and the client code that mirrors it, and proves
properties of whole runs:

- **World** (`WorldProfile`, `ProfileJson`, `PoiGrid`, `ChunkStore`, `PoiStamps`, `WorldReference`, `VoxelWorld`,
  `GenerationOrder`, `BlockEdits`): points of interest are found by a windowed search per chunk and stamped chunk by chunk.
  The reference is a picture of the whole infinite grid; what the chunks show of it is stated exactly. Hash and height noise are parameters.
- **Replication** (`Replication`, `ChunkSync`): per-player chunk deltas and their application on the client equal a full resend.
- **Movement and prediction** (`Movement`, `Prediction`): bounds and the closed form of a jump; reconciliation is invisible.
- **Loop and sessions** (`Queues`, `Loop`, `Sessions`): the tick schedule, exactly-once delivery, slots and names.
- **Combat and its event stream** (`Raycast`, `Combat`, `CombatInvariants`, `CombatRuns`, `CombatSim`, `EventFeed`).
- **Match** (`Match`, `MatchRuns`, `MatchSim`): phases, clock, respawn budget, winner.
- **The server's tick** (`ServerTick`, `ServerLoot`, `ServerParts`): combat, loot and match as `server/src/main.cpp` wires
  them, shots and pickups let in during a match only: nobody dies in the lobby, during a match exactly the dead who are not
  out are to return, where deaths drop everything the dead carry nothing, and coins are what is carried. Seen from each
  part a run of the server is a run of that part, so all results about the parts hold in it.
- **Loot** (`Loot`, `LootRuns`, `LootSim`): conservation of treasures and the life of a spawn id.

What the specification functions themselves mean is proved in the source's terms apart from them: `Terrain`, `LootReach`,
`MatchMeaning`, `HealthLedger`, `Walking`, `Aim`, `Interest`, `SessionTimeouts`, `LoopCadence`.

Each stateful component is a class with the source's fields, whose methods are proved against a function on
values; the properties are lemmas about those functions and about runs of events. Hash tables are maps visited in
an arbitrary order, so every result holds for any visiting order. `std::sort` is known only by its contract: a sorted
permutation, nothing about ties. `Prelude.dfy` holds that contract and ascending id lists, `Totals.dfy` sums over tables,
`Reals.dfy` squares.

Some promises hold only under a condition. Each is proved, exactly unless said otherwise, together with
a case that needs it:

- The disc test that selects a chunk's buildings can miss the four corner columns of outposts and ruins. A chunk shows the
  picture except where the last writer is cut and what shows instead is not stone
  (`WorldReference.ChunksPaintTheWorld`, `WorldReference.CutCornerOccurs`).
- Reconciliation is invisible when inputs go one per tick, the queue has room, and snapshots arrive in order
  (`Prediction.ReconciliationIsInvisible`). These conditions suffice; without any one of them it can move the player:
  an older snapshot, an evicted input or two inputs in one frame
  (`Prediction.StaleSnapshotDisturbs`, `Prediction.EvictedStepIsLost`, `Prediction.TwoInputsInOneFrameDisturb`). What any
  snapshot computes is `Prediction.DeliveryReplays`.
- A join with peer token 0 keeps slots and sessions matched exactly when it is refused, which its name and the tables
  decide beforehand (`Sessions.ZeroTokenMustBeRefused`, `Sessions.ZeroTokenSharesSlot`); the wired server takes tokens from
  peer pointers (`server/src/main.cpp`, line 134), which are not 0.
- The raycast hits the same player in every visiting order exactly when no target within the tolerance of the first has a
  smaller id than it (`Raycast.VisitOrderDecidesExactly`, `Raycast.VisitOrderCanDecide`).
- A match is over in its opening tick exactly when one player is left once that tick's deaths are counted; with the default
  minimum of one player, one connected player is enough (`MatchRuns.OpeningTickDecides`, `MatchRuns.LonePlayerWinsAtOnce`). In the wired server
  that tick lists no deaths (`ServerTick.OpeningTickNeedsTwo`).
- Chunks are generated under the same heights in every order of requests exactly when all requests raise the greatest
  height alike, as equal heights do (`GenerationOrder.OrderMattersExactly`); then their blocks are the same, too.

Check everything with `dafny verify dfyconfig.toml`.

## Model

| member | source | states |
|---|---|---|
| `LootRuns.RunsConserve` | server/src/InventoryLootSimulation.cpp:134-318 | over any run the multiset of treasures lying and carried changes by scheduled spawns (and a reset) only; ids stay split between ground and consumed, every carried item has its own consumed source, and totals and limits hold |
| `LootRuns.RunsFromTheStart` | server/src/InventoryLootSimulation.cpp:54-318 | the same, and the queue counter, in every state reachable from an empty world |
| `LootRuns.DropConserves` | server/src/InventoryLootSimulation.cpp:179-204 | a death drop empties the victim's inventory and lays it down item by item, in order, under fresh ids; the multiset of treasures and all invariants stay |
| `LootRuns.DropLaysDown` | server/src/InventoryLootSimulation.cpp:179-204 | the same of any state whose ids are split, with every other player untouched |
| `LootRuns.PickupConserves` | server/src/InventoryLootSimulation.cpp:206-302 | serving one pickup, granted or refused, keeps the multiset of treasures and all invariants |
| `LootRuns.CollectionConserves` | server/src/InventoryLootSimulation.cpp:283-302 | a granted pickup takes the spawn off the ground, marks it consumed and appends its treasure to that player's items and nobody else's; the multiset of treasures stays |
| `LootRuns.RefusalKeeps` | server/src/InventoryLootSimulation.cpp:218-281 | a refused pickup changes nobody's items, no spawn, no consumed id and no changed flag |
| `LootRuns.ScheduleKeeps` | server/src/InventoryLootSimulation.cpp:159-165 | the schedule adds exactly one catalogue treasure when it is due and there is room, else nothing |
| `LootRuns.StepKeeps` | server/src/InventoryLootSimulation.cpp:65-132 | reset, join, leave and enqueue keep the invariants and what there is (a reset empties it) |
| `LootRuns.CollectedAtMostOnce` | server/src/InventoryLootSimulation.cpp:231-302 | until a reset no spawn id is collected twice over a whole run, and the collected ids are exactly the newly consumed ones |
| `LootRuns.RefusalTellsHistory` | server/src/InventoryLootSimulation.cpp:231-249 | for a live player: UnknownSpawn exactly for ids never issued, DuplicatePickup exactly for collected ids, otherwise the spawn lies there |
| `LootRuns.NobodyIsMissing` | server/src/InventoryLootSimulation.cpp:213-218 | no tick ever answers PlayerMissing |
| `LootRuns.RunsKeepCount` | server/src/InventoryLootSimulation.cpp:90-132 | over any run the queue counter is the summed queue length and within capacity |
| `LootRuns.DeathOrderDoesNotMatter` | server/src/InventoryLootSimulation.cpp:167-204 | a tick depends only on who died, not on the order or repetition of the death list |
| `LootSim.InventoryLootSimulation.constructor` | server/src/InventoryLootSimulation.cpp:54-63 | sanitized configuration, the sound definitions in order, and an empty state |
| `LootSim.InventoryLootSimulation.Reset` | server/src/InventoryLootSimulation.cpp:65-81 | everything is emptied; players keep position and life |
| `LootSim.InventoryLootSimulation.RemovePlayer` | server/src/InventoryLootSimulation.cpp:90-106 | the queue goes, the counter drops by its length, the player is marked dead at the origin and keeps its items |
| `LootSim.InventoryLootSimulation.EnqueuePickup` | server/src/InventoryLootSimulation.cpp:108-132 | verdict and new state, refusals included; the player becomes known either way |
| `LootSim.InventoryLootSimulation.SpawnOnSchedule` | server/src/InventoryLootSimulation.cpp:159-165 | the schedule step: identity, position and treasure of the spawn |
| `LootSim.InventoryLootSimulation.DropForDeaths` | server/src/InventoryLootSimulation.cpp:167-204 | whether or not the sort is skipped, and whatever std::sort does with ties: the drops of the distinct victims in ascending order |
| `LootSim.InventoryLootSimulation.IsSortedByVictim` | server/src/InventoryLootSimulation.cpp:386-396 | true exactly when victims never decrease along the list |
| `LootSim.InventoryLootSimulation.Serve` | server/src/InventoryLootSimulation.cpp:207-317 | one pickup: the eight verdicts in the order they are checked, and the state each leaves |
| `LootSim.InventoryLootSimulation.DrainPickups` | server/src/InventoryLootSimulation.cpp:439-466 | hands out all queues by ascending player and takes their length off the counter |
| `LootSim.InventoryLootSimulation.ResolveTick` | server/src/InventoryLootSimulation.cpp:134-318 | one tick is the specified tick: spawned list, answers in drain order, and summaries of the changed players ascending |
| `PoiGrid.FloorDivIsFloor` | shared/src/voxel/World.cpp:127-140 | the corrected truncating division is the mathematical floor, for negative values too |
| `PoiGrid.CenterStaysInCell` | shared/src/voxel/World.cpp:209-230 | with a sanitized jitter every center lies strictly inside its own cell |
| `PoiGrid.TooCloseIsInWindow` | shared/src/voxel/World.cpp:242-277 | whoever is closer than the spacing sits in a cell the local search visits |
| `PoiGrid.SurvivesSpacing` | shared/src/voxel/World.cpp:242-277 | the windowed search decides survival against the whole infinite grid |
| `PoiGrid.SpacingHolds` | shared/src/voxel/World.cpp:155-163 | any two surviving points of interest are at least the minimum spacing apart anywhere on the plane |
| `PoiGrid.WindowMissesNothing` | shared/src/voxel/World.cpp:396-420 | the cell of any point of interest whose disc meets the chunk lies in the searched window |
| `PoiGrid.GatherChunkCandidates` | shared/src/voxel/World.cpp:389-432 | returns exactly the surviving points of interest of the infinite grid that meet the chunk, in painting order |
| `PoiGrid.PaintOrderIsTotal` | shared/src/voxel/World.cpp:422-430 | the (x, z, type) order never ties for two different candidates |
| `PoiGrid.ChunkListUnique` | shared/src/voxel/World.cpp:389-432 | there is one such list, whatever the search order or the sort did |
| `PoiStamps.SetBlockIfInChunk` | shared/src/voxel/World.cpp:279-295 | writes one block if it lies in the chunk and within height, and touches no other position |
| `PoiStamps.StampOutpost` | shared/src/voxel/World.cpp:297-329 | every position of the chunk gets the outpost block specified for it or keeps what it had |
| `PoiStamps.StampRuins` | shared/src/voxel/World.cpp:331-358 | the same for ruins |
| `PoiStamps.StampLootShrine` | shared/src/voxel/World.cpp:360-387 | the same for the loot shrine |
| `PoiStamps.PaintTerrain` | shared/src/voxel/World.cpp:452-471 | every position holds its terrain block |
| `WorldReference.ChunksPaintTheWorld` | shared/src/voxel/World.cpp:165-177 | a chunk shows the block of the infinite picture exactly where the last writer of the position is not cut there, or is cut over stone: the last uncut writer, or the terrain if there is none, being stone too |
| `WorldReference.ChunkShowsUncutPicture` | shared/src/voxel/World.cpp:440-493 | whichever writers meet at a position, a chunk painted from its own windowed list shows the infinite picture with its cut corners left out, and no other block |
| `WorldReference.SomebodyGovernsUncut` | shared/src/voxel/World.cpp:422-430 | either some uncut writer is the last of them or every writer there is cut |
| `WorldReference.CornersAreStone` | shared/src/voxel/World.cpp:297-358 | what a corner that can be cut would write is always stone |
| `WorldReference.MissedExactlyAtCutCorners` | shared/src/voxel/World.cpp:165-177 | a point of interest that writes in a chunk is left off its list exactly at the four corner columns of outposts and ruins |
| `WorldReference.ListedExactlyTheUncut` | shared/src/voxel/World.cpp:389-432 | the writers on a chunk's list are exactly the uncut writers of the infinite grid |
| `WorldReference.GeneratedIsUnique` | shared/src/voxel/World.cpp:440-493 | the contents of a generated chunk are a function of generator and coordinate |
| `WorldReference.SomebodyGoverns` | shared/src/voxel/World.cpp:422-430 | at every position either nobody writes or one last writer governs |
| `WorldReference.PaintShowsLastWriter` | shared/src/voxel/World.cpp:473-490 | painting one after another shows the last writer |
| `WorldReference.WorldBlockUnique` | shared/src/voxel/World.cpp:440-493 | the picture has one block per position |
| `WorldReference.CutCornerOccurs` | shared/src/voxel/World.cpp:165-177 | a concrete world whose chunk lacks a block of the picture: the exception is real |
| `VoxelWorld.ChunkAtIsTheChunk` | shared/src/voxel/World.cpp:29-36 | every position lies in exactly one chunk |
| `VoxelWorld.World.EnsureGeneratedChunk` | shared/src/voxel/World.cpp:440-493 | raises the greatest height asked for; keeps a loaded chunk, else adds one generated under that height; no other chunk changes |
| `VoxelWorld.World.BuildChunk` | shared/src/voxel/World.cpp:452-490 | a fresh chunk holding terrain and stamps as generated |
| `VoxelWorld.World.Generate` | shared/src/voxel/World.cpp:514-545 | exactly the box of chunks, each as generated, in any loop order |
| `VoxelWorld.World.SetBlock` | shared/src/voxel/World.cpp:590-610 | succeeds exactly on loaded positions and changes that block of the world and no other |
| `VoxelWorld.World.BlockAt` | shared/src/voxel/World.cpp:569-588 | the block there, or nothing when the position is not loaded |
| `ChunkStore.IndexIsBijection` | shared/src/voxel/Chunk.cpp:64-67 | every array slot is the home of exactly one position of the 32 cube |
| `ChunkStore.SameBlocks` | shared/src/voxel/Chunk.cpp:64-78 | chunks that agree at every position are equal arrays |
| `ChunkStore.Chunk.Get` | shared/src/voxel/Chunk.cpp:73-78 | the block at a position, air outside |
| `ChunkStore.Chunk.Set` | shared/src/voxel/Chunk.cpp:80-85 | changes that position only, and nothing when outside |
| `WorldProfile.SanitizeRepairsExactlyTheUnsound` | shared/src/voxel/WorldGenerationProfile.cpp:79-102 | sanitizing changes exactly the unsound profiles, is idempotent, and leaves seed, switch and density alone |
| `ProfileJson.WrittenIsReadRepaired` | shared/src/voxel/WorldGenerationProfile.cpp:104-214 | writing any profile and reading it back gives exactly the sanitized profile |
| `ProfileJson.ReadIsSaneAndStable` | shared/src/voxel/WorldGenerationProfile.cpp:119-214 | whatever is read is sane, fits its field types and survives another round |
| `BlockEdits.BlockInteraction.Apply` | server/src/BlockInteraction.cpp:23-68 | status, previous block and chunk of an edit, refusals included; only an applied edit changes the world, and only its own block |
| `BlockEdits.EditsUndo` | server/src/BlockInteraction.cpp:54-67 | after an applied edit the opposite one restores every block of the world exactly when the old block is one commands may name; repeating it changes nothing |
| `Replication.WorldReplication.MarkChunkDirty` | server/src/WorldReplication.cpp:54-61 | raises that chunk's revision by one |
| `Replication.WorldReplication.GatherRelevantChunks` | server/src/WorldReplication.cpp:129-169 | exactly the loaded chunks of the clipped interest disc, strictly ordered |
| `Replication.WorldReplication.BuildPlayerUpdate` | server/src/WorldReplication.cpp:63-111 | the sorted added, removed and delta lists, exactly, and the new subscription |
| `ChunkSync.ChunkSyncClient.Apply` | client/src/ChunkSyncApplier.cpp:110-130 | removals, then additions, then deltas; each loaded chunk was kept as it was or generated afresh |
| `ChunkSync.UpdateReachesFullView` | server/src/WorldReplication.cpp:74-111 | one update takes a client in step to exactly the interest disc at current revisions |
| `ChunkSync.RunsStayInStep` | server/src/WorldReplication.cpp:54-111 | over any run of moves and edits the client and the server's bookkeeping stay in step |
| `ChunkSync.IncrementalEqualsFull` | client/src/ChunkSyncApplier.cpp:74-130 | after each update the client's view equals a full resend |
| `ChunkSync.EditIsInNextUpdate` | server/src/BlockInteraction.cpp:54-67 | every edit in a chunk the player is to see is in its next update, at the newest revision |
| `ChunkSync.RemovedEffect` | client/src/ChunkSyncApplier.cpp:118-124 | removals drop exactly the listed chunks and revisions |
| `ChunkSync.AddedEffect` | client/src/ChunkSyncApplier.cpp:74-92 | additions load every listed chunk at the listed revision |
| `Movement.StepMovement` | shared/src/game/Movement.cpp:81-175 | the statement-by-statement step computes the step function |
| `Movement.InputInUnitDisc` | shared/src/game/Movement.cpp:34-49 | the normalized stick stays in the unit disc |
| `Movement.SpeedAndHeightBounds` | shared/src/game/Movement.cpp:104-156 | from rest no input sequence exceeds walk speed times max(1, sprint, crouch), height is never negative, and grounded means at rest vertically |
| `Movement.TowardStaysWithin` | shared/src/game/Movement.cpp:114-121 | steering part of the way toward a velocity in the disc stays in the disc |
| `Movement.StepVertical` | shared/src/game/Movement.cpp:138-156 | the vertical half of a step does not depend on the horizontal half |
| `Movement.JumpFollowsClosedForm` | shared/src/game/Movement.cpp:138-151 | with constant dt a jump is at its closed-form height and velocity until the first step at which that height is not positive, where it lands |
| `Movement.LandsByIsHeightZero` | shared/src/game/Movement.cpp:143-151 | the landing condition n >= 2J/(g dt) - 1 is the closed form reaching the ground |
| `Movement.ApexBound` | shared/src/game/Movement.cpp:138-146 | the closed-form height of every step of a jump is at most J*J/(2g) |
| `Movement.HeightStaysBelowApex` | shared/src/game/Movement.cpp:138-156 | from rest no input sequence with whatever step lengths ever rises above J*J/(2g) |
| `Prediction.PredictionReconciler.QueueLocalInput` | client/src/PredictionReconciler.cpp:78-97 | numbers, stores and predicts an input, evicting the oldest when full |
| `Prediction.PredictionReconciler.ReconcileWith` | client/src/PredictionReconciler.cpp:100-136 | drops acknowledged inputs, restarts from the snapshot and replays the rest; reports the correction |
| `Prediction.MovementSimulation.ApplyInputs` | server/src/MovementSimulation.cpp:26-74 | every known player and every sender steps once by its newest input, in any table order, and acknowledges the greatest number |
| `Prediction.ReconcileIsIdempotent` | client/src/PredictionReconciler.cpp:100-136 | of a well-formed client exactly the newer inputs remain, and the same snapshot again changes nothing |
| `Prediction.ClientRunsAreWellFormed` | client/src/PredictionReconciler.cpp:72-136 | any run of queueing (evictions included), snapshots and resets keeps inputs in order, below the next number and within capacity |
| `Prediction.ReachableReconcileIsIdempotent` | client/src/PredictionReconciler.cpp:100-136 | so idempotence holds of every client that can arise |
| `Prediction.DropAckedKeepsNewer` | client/src/PredictionReconciler.cpp:107-112 | dropping keeps exactly the inputs newer than the acknowledgement |
| `Prediction.DeliveryCorrectsNothing` | client/src/PredictionReconciler.cpp:100-136 | in a consistent system a snapshot at any delay puts the client where it already was |
| `Prediction.RunsAreConsistent` | server/src/MovementSimulation.cpp:26-74 | one input per tick with the client's dt keeps client and server consistent over any run |
| `Prediction.ReconciliationIsInvisible` | client/src/PredictionReconciler.cpp:100-136 | in every such run every reconciliation has correction zero |
| `Prediction.DeliveryReplays` | client/src/PredictionReconciler.cpp:104-124 | what any snapshot computes, stale or not: a replay of the inputs it has seen and of those still held |
| `Prediction.StaleSnapshotDisturbs` | client/src/PredictionReconciler.cpp:100-136 | a run from the start (jump, server tick, acknowledgement) after which the snapshot from before the jump puts the airborne player on the ground: the order condition is needed |
| `Prediction.EvictionDisturbs` | client/src/PredictionReconciler.cpp:91-94 | for every capacity: a jump still in flight when the queue evicts it is taken back by the next snapshot, so room in the queue is needed |
| `Prediction.EvictedStepIsLost` | client/src/PredictionReconciler.cpp:91-94 | for every capacity and tuning whose walking speed exceeds the steering threshold: an evicted step forward is lost, however long ago it was, and the next snapshot puts the player back where it started |
| `Prediction.QueueKeepsTheNewest` | client/src/PredictionReconciler.cpp:78-97 | however many inputs are queued from a new client, all are predicted and the newest stay, as many as there is room for |
| `Prediction.TwoInputsInOneFrameDisturb` | server/src/MovementSimulation.cpp:38-60 | a run in which the server takes a jump and its successor in one frame, steps once and acknowledges both, and its snapshot grounds the airborne player: one input per tick is needed |
| `Loop.AuthoritativeLoop.EnqueueInput` | server/src/AuthoritativeLoop.cpp:25-46 | verdict and new state of an input |
| `Loop.AuthoritativeLoop.ClearPlayer` | server/src/AuthoritativeLoop.cpp:48-55 | drops a player's queue and numbering and takes its length off the counter |
| `Loop.AuthoritativeLoop.AdvanceTo` | server/src/AuthoritativeLoop.cpp:57-69 | produces one frame per passed deadline, draining everything into the first |
| `Loop.TicksAreWholeIntervals` | server/src/AuthoritativeLoop.cpp:57-69 | after an advance the counter is max(old, floor((now - start) / interval)) and the next deadline is one interval later |
| `Loop.AdvanceSplits` | server/src/AuthoritativeLoop.cpp:57-69 | splitting an advance in two gives the same frames and state |
| `Loop.DeliveredExactlyOnce` | server/src/AuthoritativeLoop.cpp:25-126 | per player, what was delivered followed by what waits is exactly what was accepted since the last clear, strictly increasing |
| `Loop.PendingIsCounted` | server/src/AuthoritativeLoop.cpp:25-69 | over any run the pending count is the summed queue length, within capacity |
| `Loop.FrameIsSorted` | server/src/AuthoritativeLoop.cpp:100-126 | a frame is strictly sorted by (player, number) |
| `Loop.LatestIsNewest` | server/src/MovementSimulation.cpp:38-47 | the last input of a player in a frame is its newest |
| `Queues.DrainDeterministic` | server/src/AuthoritativeLoop.cpp:100-126 | the drain shared by loop, combat and loot: ascending players, each queue front to back, from any table order |
| `Sessions.SessionManager.HandleJoinRequest` | server/src/SessionManager.cpp:15-69 | answer and new state of a join, every refusal included |
| `Sessions.SessionManager.HandleDisconnect` | server/src/SessionManager.cpp:80-94 | removes the session and frees its slot |
| `Sessions.SessionManager.CollectTimedOut` | server/src/SessionManager.cpp:96-114 | from any state, drops exactly the overdue sessions and reports each of them once, in any table order |
| `Sessions.RunIsBijective` | server/src/SessionManager.cpp:15-114 | with non-zero peer tokens occupied slots and sessions are in bijection in every reachable state |
| `Sessions.SessionsAreDistinct` | server/src/SessionManager.cpp:15-69 | live sessions have pairwise different ids and names |
| `Sessions.SameNameSameId` | server/src/SessionManager.cpp:29-62 | over a whole run every successful join under a name gets the same id |
| `Sessions.RefusedExactlyWhenFull` | server/src/SessionManager.cpp:173-180 | an unseen valid name from a new peer is refused ServerFull exactly when all slots are in use |
| `Sessions.DropAllKeepsBijection` | server/src/SessionManager.cpp:96-114 | a timeout sweep keeps the bijection |
| `Sessions.ZeroTokenMustBeRefused` | server/src/SessionManager.cpp:166-171 | in every sound state a join keeps the bijection exactly when its token is not 0 or its name is invalid, taken, or new to a full server |
| `Sessions.ZeroTokenSharesSlot` | server/src/SessionManager.cpp:166-171 | with a peer token of 0, which the wired server never passes, a run in which two live sessions get the same id: the condition is needed |
| `Raycast.RaycastVictim` | server/src/CombatSimulation.cpp:330-380 | the victim is what some visiting order of the targets yields; it is within (n-1) tolerances of the nearest, and the lexicographic minimum (distance, id) when distances are separated |
| `Raycast.CanBeHitIsChosen` | server/src/CombatSimulation.cpp:346-379 | so are all outcomes of all visiting orders |
| `Raycast.VisitOrderDecidesExactly` | server/src/CombatSimulation.cpp:346-379 | for any number of targets all visiting orders agree exactly when no target within the tolerance of the first by (distance, id) has a smaller id, and then they hit the first |
| `Raycast.SomebodyIsFirst` | server/src/CombatSimulation.cpp:346-379 | with any target there is such a first |
| `Raycast.ChoiceIsUnique` | server/src/CombatSimulation.cpp:346-379 | with separated distances the choice does not depend on the visiting order |
| `Raycast.VisitOrderCanDecide` | server/src/CombatSimulation.cpp:374-378 | the instance of two targets, and who is hit in either order |
| `CombatSim.CombatSimulation.constructor` | server/src/CombatSimulation.cpp:24-62 | the arsenal is the one the definitions give, later ones of an id replacing earlier ones, and armed; the state is empty |
| `CombatSim.CombatSimulation.RemovePlayer` | server/src/CombatSimulation.cpp:83-95 | forgets the player and every projectile from or to it |
| `CombatSim.CombatSimulation.RespawnPlayer` | server/src/CombatSimulation.cpp:97-111 | full health and life again, and no projectile toward the player |
| `CombatSim.CombatSimulation.EnqueueFire` | server/src/CombatSimulation.cpp:127-149 | verdict and new state of a queued shot |
| `CombatSim.CombatSimulation.ApplyOneDamage` | server/src/CombatSimulation.cpp:382-404 | one hit: health floor, lethal flag, death record; nothing on the dead or missing |
| `CombatSim.CombatSimulation.ResolveDue` | server/src/CombatSimulation.cpp:406-437 | splits due from remaining projectiles and applies the due ones in their one sorted order |
| `CombatSim.CombatSimulation.ResolveTick` | server/src/CombatSimulation.cpp:151-195 | one tick is projectiles, then drained shots, with ray hits that are admissible choices |
| `CombatInvariants.TickKeepsHealth` | server/src/CombatSimulation.cpp:382-404 | alive exactly when health is positive, health within 0 and the start value, and the deaths are exactly the lethal damages in order, at most one per victim |
| `CombatInvariants.TickCountsShotsOnce` | server/src/CombatSimulation.cpp:127-195 | a tick keeps shot numbers unique between queues and the air and emits at most one damage per shot |
| `CombatInvariants.NoDuplicateDamage` | server/src/CombatSimulation.cpp:151-195 | no two damage events of a tick are for the same shot |
| `CombatRuns.RunsAreSound` | server/src/CombatSimulation.cpp:73-195 | health bounds and shot numbering hold in every reachable state |
| `CombatRuns.DeathsNeedARise` | server/src/CombatSimulation.cpp:73-111 | between two deaths of a player lies a respawn, or the player left in between |
| `CombatRuns.CooldownsAreKept` | server/src/CombatSimulation.cpp:165-170 | over any run effective shots of an attacker are at least the earlier weapon's cooldown apart |
| `CombatRuns.TravelDelayIsLeast` | server/src/CombatSimulation.cpp:276-297 | the flight time is the least whole number of ticks, at least one, that covers the distance |
| `CombatRuns.TickLeavesOnlyLater` | server/src/CombatSimulation.cpp:406-437 | after a tick every pending projectile is due strictly later |
| `CombatRuns.DueHitLands` | server/src/CombatSimulation.cpp:382-437 | a due hit shows in its tick exactly when its victim is alive at its turn, that is after the due hits sorted before it |
| `CombatRuns.FallenAreListed` | server/src/CombatSimulation.cpp:151-195 | a tick lists as dead exactly those who were alive before it and are not after, and revives nobody |
| `CombatRuns.ShotLandsOnTime` | server/src/CombatSimulation.cpp:187-191 | from the shot: an effective projectile shot in tick T that meets somebody is pending for tick T plus its flight time, and on gap-free ticks, unless one of the players leaves or the victim is respawned, comes up in exactly that tick and shows there exactly when its victim is alive at its turn |
| `CombatRuns.ShotTakesOff` | server/src/CombatSimulation.cpp:181-191 | every such shot of a tick, at whatever place of the drain, leaves its projectile in the air |
| `CombatRuns.FlightTimeFormula` | server/src/CombatSimulation.cpp:276-297 | the flight time is max(1, ceil(distance / (speed * tick))) |
| `CombatRuns.HitLandsOnTime` | server/src/CombatSimulation.cpp:406-437 | from a pending hit: the same, for any hit in the air |
| `CombatRuns.RunsFromTheStart` | server/src/CombatSimulation.cpp:64-195 | every state reachable from an empty server is sound and holds no two projectiles of one shot |
| `CombatRuns.CooldownIsLeast` | server/src/CombatSimulation.cpp:253-274 | a cooldown is the least whole number of ticks, at least one, that lasts as long as one shot at the weapon rate |
| `EventFeed.AppendCombatOutputs` | server/src/CombatEvents.cpp:39-55 | each damage goes on both streams, each death on the snapshot stream, in order |
| `EventFeed.AuthoritativeEventFeed.ConsumeDamageEvent` | client/src/AuthoritativeEventFeed.cpp:208-240 | drops a remembered hit; otherwise remembers it and reports it if it concerns the local player |
| `EventFeed.RecentIsLastNews` | client/src/AuthoritativeEventFeed.cpp:242-257 | the remembered list is exactly the last 64 hits taken as new |
| `EventFeed.RecentIsBounded` | client/src/AuthoritativeEventFeed.cpp:252-257 | it has no repetition and at most 64 entries |
| `EventFeed.CopySuppressedExactly` | client/src/AuthoritativeEventFeed.cpp:208-257 | a copy is suppressed if and only if fewer than 64 new hits came since it was last taken |
| `EventFeed.MirroredHitReportedOnce` | client/src/AuthoritativeEventFeed.cpp:208-257 | a hit that comes twice is reported once if and only if fewer than 64 new hits lie between |
| `EventFeed.EmittedAreDistinct` | server/src/CombatSimulation.cpp:151-195 | over a run with increasing ticks the server never emits the same (tick, attacker, victim, shot) twice |
| `EventFeed.EachHitReportedExactlyOnce` | server/src/CombatEvents.cpp:39-55 | server and client together: every emitted hit, mirrored on both streams in any interleaving with gaps under 64, is reported exactly once |
| `MatchRuns.RunsKeepBudgets` | server/src/MatchLifecycleSimulation.cpp:158-188 | in every reachable state respawns left are max(0, budget - deaths), out means deaths > budget, and nobody who is out waits for a respawn |
| `MatchRuns.EliminationIsPermanent` | server/src/MatchLifecycleSimulation.cpp:162-171 | who is out stays out until a reset |
| `MatchRuns.KillsNeverExceedDeaths` | server/src/MatchLifecycleSimulation.cpp:149-182 | over any run total kills never exceed total deaths |
| `MatchRuns.TickCountsDeaths` | server/src/MatchLifecycleSimulation.cpp:136-187 | a match tick adds exactly one death per distinct victim, however often listed |
| `MatchRuns.ClockIsExact` | server/src/MatchLifecycleSimulation.cpp:125-134 | the timer expires in exactly the tick that completes the duration |
| `MatchRuns.ClockMatchesElapsed` | server/src/MatchLifecycleSimulation.cpp:125-134 | over any run (duration - remaining) * 10^9 + accumulator is the time the match has run, the accumulator is below a second and a second or more remains |
| `MatchRuns.MatchEndsInTime` | server/src/MatchLifecycleSimulation.cpp:125-234 | with ticks at least delta long, and whoever joins or leaves between them, the match is over within ceil(duration * 10^9 / delta) ticks |
| `MatchRuns.PhasesOnlyForward` | server/src/MatchLifecycleSimulation.cpp:106-234 | until a reset phases are only passed in order |
| `MatchRuns.ResultIsFinal` | server/src/MatchLifecycleSimulation.cpp:396-404 | after the match winner, kills, deaths, budgets and eliminations are frozen until a reset |
| `MatchRuns.EndIsDecided` | server/src/MatchLifecycleSimulation.cpp:216-234 | a tick ends the match exactly when one connected player is left standing, who wins, or the time is up, and then the leader wins |
| `MatchRuns.OpeningTickDecides` | server/src/MatchLifecycleSimulation.cpp:106-228 | whether a lobby tick ends in a finished match can be told beforehand: the countdown ends, enough players are connected, and exactly one is left once its deaths are counted, who wins |
| `MatchRuns.LonePlayerWinsAtOnce` | server/src/MatchLifecycleSimulation.cpp:106-228 | without deaths, a match that can open is over in its opening tick exactly when one player is connected, who wins |
| `MatchRuns.DeathOrderDoesNotMatter` | server/src/MatchLifecycleSimulation.cpp:136-188 | a tick does not depend on the order or repetition of the death list |
| `MatchRuns.DeathBooksRespawn` | server/src/MatchLifecycleSimulation.cpp:162-171 | a death with budget left books the respawn exactly the delay ahead |
| `MatchRuns.RespawnFiresOnTime` | server/src/MatchLifecycleSimulation.cpp:185-214 | on consecutive ticks a booked respawn fires exactly once, exactly in its tick |
| `MatchRuns.RunsFromTheStart` | server/src/MatchLifecycleSimulation.cpp:20-239 | budgets, tallies and clock hold in every state reachable from a new server |
| `Match.LeaderIsUnique` | server/src/MatchLifecycleSimulation.cpp:302-314 | at most one player ranks before all others |
| `Match.SomebodyLeads` | server/src/MatchLifecycleSimulation.cpp:302-314 | with any player on record somebody ranks before all others |
| `Match.ScoreboardIsUnique` | server/src/MatchLifecycleSimulation.cpp:340-367 | there is one strictly ranked scoreboard and the leader heads it |
| `MatchSim.MatchLifecycleSimulation.Reset` | server/src/MatchLifecycleSimulation.cpp:25-43 | tallies, budgets and phase start over; who is connected stays |
| `MatchSim.MatchLifecycleSimulation.RemovePlayer` | server/src/MatchLifecycleSimulation.cpp:55-62 | disconnected and no longer waiting for a respawn |
| `MatchSim.MatchLifecycleSimulation.NoteActive` | server/src/MatchLifecycleSimulation.cpp:73-81 | everybody active is on record and exactly they are connected |
| `MatchSim.MatchLifecycleSimulation.CountDown` | server/src/MatchLifecycleSimulation.cpp:106-123 | the lobby countdown, its restart below the minimum, and the start of the match |
| `MatchSim.MatchLifecycleSimulation.RunClock` | server/src/MatchLifecycleSimulation.cpp:125-134 | the subtracting loop computes the quotient form of the clock |
| `MatchSim.MatchLifecycleSimulation.HandleDeaths` | server/src/MatchLifecycleSimulation.cpp:136-183 | sorting and skipping handled victims credits, per distinct victim, the claimant with the least id |
| `MatchSim.MatchLifecycleSimulation.HandleRespawns` | server/src/MatchLifecycleSimulation.cpp:185-214 | clears every due respawn and reports those not out, ascending |
| `MatchSim.MatchLifecycleSimulation.SettleByElimination` | server/src/MatchLifecycleSimulation.cpp:216-228 | ends the match exactly when one contender is left |
| `MatchSim.MatchLifecycleSimulation.BuildScoreboard` | server/src/MatchLifecycleSimulation.cpp:348-367 | all records, each once, strictly ranked, from any table order |
| `MatchSim.MatchLifecycleSimulation.ResolveTick` | server/src/MatchLifecycleSimulation.cpp:64-239 | one tick is the specified tick, with its report and scoreboard |
| `ServerTick.RunsAreWired` | server/src/main.cpp:1284-1500 | over any run of joins, departures, gated shots and pickups, and ticks: combat stays sound; in the lobby nothing is queued or in flight and nobody is dead, booked or out; during a match a respawn is booked exactly for those who are dead and not out |
| `ServerTick.NobodyDiesInTheLobby` | server/src/main.cpp:1284-1296 | before the match nobody is dead in combat, out, or waiting for a respawn |
| `ServerTick.BookedAreTheDeadNotOut` | server/src/main.cpp:1486-1500 | during a match whoever is dead in combat is out or will be brought back, and a respawn is booked exactly for the dead who are not out |
| `ServerTick.OutStayDead` | server/src/main.cpp:1490-1500 | who is dead and out stays dead and out, during the match and after it, until it leaves |
| `ServerTick.OpeningTickNeedsTwo` | server/src/main.cpp:1464-1493 | the tick that opens a match ends it at once exactly when one player is connected, who wins |
| `ServerTick.FightListsTheFallen` | server/src/main.cpp:1464-1467 | after the fight of a tick the dead are those before it and those it lists |
| `ServerLoot.LootTickOnTheDead` | server/src/main.cpp:1473-1475 | whoever the fight leaves dead collects nothing in the tick, and drops what it carried exactly if it fell in it and deaths drop |
| `ServerLoot.TheDeadCarryNothing` | server/src/main.cpp:1464-1475 | where deaths drop everything, over any run and in any phase, a player dead in combat carries nothing and has no coins |
| `ServerLoot.CoinsAreWhatIsCarried` | server/src/main.cpp:1473-1493 | over any run the coins on a player's match record are the summed value of the treasures it carries |
| `ServerParts.PartsOfARun` | server/src/main.cpp:1095-1500 | every run of the wired server is, seen from combat, match and loot, a run of that part, and neither match nor loot is ever reset |
| `ServerParts.WiredRunsConserve` | server/src/main.cpp:1095-1500 | so over any run of the server treasures change by scheduled spawns only, queues are counted, budgets and tallies are right and combat is sound |
| `GenerationOrder.FirstRequestDecides` | shared/src/voxel/World.cpp:440-448 | in any run of requests a chunk is for good what its first request made it, under the greatest height asked for until then |
| `GenerationOrder.OrderMattersExactly` | shared/src/voxel/World.cpp:440-448 | every chunk of a table of requests is generated under the same height in all orders exactly when all requests raise the greatest height alike |
| `GenerationOrder.SameWorldInAnyOrder` | shared/src/voxel/World.cpp:440-493 | then any two orders leave the same blocks in every requested chunk |
| `Terrain.OpenGround` | shared/src/voxel/World.cpp:452-471 | where no point of interest writes, a generated chunk is air exactly from the sampled height up, with one block of grass, two of dirt and rock below |
| `Terrain.SampledHeight` | shared/src/voxel/World.cpp:88-97 | the sampled height is the noise kept within 1 and the greatest height, and 0 without one |
| `Terrain.ColumnHoldsItsHeight` | shared/src/voxel/World.cpp:452-471 | over all its chunks an open column shows as many blocks other than air as its height is sampled |
| `Terrain.GeneratedColumnHoldsItsHeight` | shared/src/voxel/World.cpp:500-545 | so it is in every column of the box that generation fills |
| `Terrain.BuiltExactly` | shared/src/voxel/World.cpp:242-277 | a candidate is built exactly if no candidate that outranks it by hash, then cell, is closer than the spacing |
| `Terrain.GreatestXShows` | shared/src/voxel/World.cpp:422-430 | where buildings overlap the one whose middle has the greatest x, then the greatest z, shows |
| `Terrain.WallIsClosed` | shared/src/voxel/World.cpp:297-329 | the wall of an outpost is three high and closed but for the gate, three wide and two high |
| `Terrain.EveryWayInLeadsThroughTheGate` | shared/src/voxel/World.cpp:297-329 | every way from outside an outpost to its inside, at the height of a body, leads through the gate |
| `Terrain.OutpostInside` | shared/src/voxel/World.cpp:297-329 | inside there is a floor of rock and one tower of six with grass on top, and nothing else |
| `Terrain.RuinsPlan` | shared/src/voxel/World.cpp:331-358 | ruins have a chequered floor of rock and dirt and walls of two where they stand |
| `Terrain.ShrineIsSymmetric` | shared/src/voxel/World.cpp:360-387 | a shrine looks the same from all sides and in the mirror |
| `Terrain.ShrinePlan` | shared/src/voxel/World.cpp:360-387 | a shrine has a round floor, a pillar of three, and grass on it and at its four sides |
| `Terrain.FloorIsTheGround` | shared/src/voxel/World.cpp:297-306 | the floor of a building takes the place of the grass in its middle |
| `PoiGrid.DenserKeepsCandidates` | shared/src/voxel/World.cpp:196-208 | a higher density keeps every candidate of a lower one |
| `LootReach.AnswerIsExact` | server/src/InventoryLootSimulation.cpp:251-302 | for a live player and a spawn on the ground: collected, out of range, too many items or too heavy, each exactly by squared distance, number of items and summed weight |
| `LootReach.WhoeverStandsOnItGetsIt` | server/src/InventoryLootSimulation.cpp:251-302 | standing on a treasure with room for it is enough |
| `LootReach.FarIsFar` | server/src/InventoryLootSimulation.cpp:251-262 | farther than the radius along either axis, by more than a thousandth, nothing is granted |
| `LootReach.TickGrantsAreNear` | server/src/InventoryLootSimulation.cpp:206-302 | every granted pickup of a tick is of a spawn that lay within reach of where its player stands |
| `LootReach.DeathDropLiesInReach` | server/src/InventoryLootSimulation.cpp:179-204 | whoever dies on the map drops everything within reach of that place, if twice the squared spread is at most the squared radius |
| `LootReach.DropLiesInReach` | server/src/InventoryLootSimulation.cpp:416-435 | and on the map |
| `LootReach.ScheduledLiesOnMap` | server/src/InventoryLootSimulation.cpp:398-414 | scheduled treasures lie on the map |
| `LootReach.TickLaysOutWhatIsDue` | server/src/InventoryLootSimulation.cpp:159-165 | a tick lays out the next catalogue entry exactly if its number is divisible by the interval and there is room |
| `LootReach.CatalogueGoesRound` | server/src/InventoryLootSimulation.cpp:159-165 | over any run without a reset the n-th treasure laid out is catalogue entry n, counted round and round |
| `MatchMeaning.LeaderTops` | server/src/MatchLifecycleSimulation.cpp:302-314 | the leader is who has the most kills, among equals the most coins, then the fewest deaths, then the smallest id |
| `MatchMeaning.WinnerOnTimeTops` | server/src/MatchLifecycleSimulation.cpp:230-234 | when a match ends with nobody last standing, the time is up and its winner tops everybody on record so |
| `MatchMeaning.BoardDescends` | server/src/MatchLifecycleSimulation.cpp:348-367 | a list is a scoreboard exactly if it has everybody on record and goes down by kills, coins, deaths and id |
| `MatchMeaning.TickCreditsKills` | server/src/MatchLifecycleSimulation.cpp:136-183 | a tick gives each player exactly one kill for each victim whose least listed killer it is, number 0 and self excepted |
| `MatchMeaning.LobbyTick` | server/src/MatchLifecycleSimulation.cpp:106-123 | a lobby tick counts down by one with enough players, restarts without, and opens at the end |
| `MatchMeaning.LobbyOpensOnTime` | server/src/MatchLifecycleSimulation.cpp:106-123 | with enough players, whoever comes and goes between ticks, the lobby is left in exactly the last tick of its countdown |
| `HealthLedger.TickIsLedgered` | server/src/CombatSimulation.cpp:388-402 | a tick takes off each fighter's health exactly the damage of its events, each of which says what is left and kills exactly if nothing is |
| `HealthLedger.HealthFromTheStart` | server/src/CombatSimulation.cpp:73-111 | over any run a fighter's health is the starting health less the damage of the events against it since it arrived or was last respawned, not below 0 |
| `HealthLedger.EventsTellTheRun` | server/src/CombatSimulation.cpp:382-404 | after any run, each event gives the health left after all that damage and itself, and kills in exactly the event with which it reaches the starting health |
| `HealthLedger.NewcomersAreWhole` | server/src/CombatSimulation.cpp:73-111 | whoever arrives or is respawned has the starting health |
| `HealthLedger.DueHitsComeInOrder` | server/src/CombatSimulation.cpp:420-436 | due hits are applied by tick, attacker and shot |
| `HealthLedger.HitscanStrikes` | server/src/CombatSimulation.cpp:178-186 | an effective hitscan shot at whatever place of the drain deals its weapon's damage to whom its ray met, in that tick, if that one still stands |
| `HealthLedger.WeaponsAreAsDefined` | server/src/CombatSimulation.cpp:27-61 | what damage, kind, rate, range and speed a definition gives, with the defaults of its kind |
| `Walking.RunsUpToTop` | shared/src/game/Movement.cpp:104-121 | on the ground from rest with the stick held, after n steps the player runs along it at min(n * accelGround * dt, top), up to the steering threshold; top is walk, walk * crouch, or else walk * sprint by the buttons |
| `Walking.RunStep` | shared/src/game/Movement.cpp:104-156 | a step moves the speed toward its target by at most the acceleration, and the player by its new velocity |
| `Walking.AirStep` | shared/src/game/Movement.cpp:104-121 | in the air the stick steers by accelAir and nothing brakes |
| `Walking.RunsOut` | shared/src/game/Movement.cpp:122-136 | hands off, the speed falls by (accelGround + frictionGround) * dt a step but for the thresholds, and with friction the player ends up standing |
| `Aim.ReachesExactly` | server/src/CombatSimulation.cpp:330-380 | a shot reaches a position exactly if the point of its line nearest to it lies from 0 to the range ahead and within the hit radius |
| `Aim.NobodyBehindIsHit` | server/src/CombatSimulation.cpp:330-380 | nobody behind the shooter is hit |
| `Aim.SceneMayTurn` | server/src/CombatSimulation.cpp:330-380 | turning and moving shooter, shot and position together changes no answer |
| `Interest.OwnChunkIsRelevant` | server/src/WorldReplication.cpp:129-172 | on the map every loaded chunk of a player's own column is relevant to it |
| `Interest.RelevantByMiddles` | server/src/WorldReplication.cpp:145-168 | a chunk is relevant exactly if the middles of the two columns are at most 32 * radius blocks apart |
| `Interest.RelevantByBlocks` | server/src/WorldReplication.cpp:145-168 | a chunk with a block within 32 * (radius - 2) blocks is sent, and one with a block 32 * (radius + 2) away is not |
| `Interest.UpdatesGoByColumn` | server/src/WorldReplication.cpp:171-172 | the lists of an update go by x, z and y |
| `SessionTimeouts.HeartbeatIsLastHeard` | server/src/SessionManager.cpp:71-78 | over any run a session's heartbeat is the time its peer was last heard from |
| `SessionTimeouts.SweepDropsTheSilent` | server/src/SessionManager.cpp:96-114 | a sweep drops a peer exactly when it was silent for longer than the timeout |
| `SessionTimeouts.WhoKeepsInTouchStays` | server/src/SessionManager.cpp:71-114 | a peer that is heard from within the timeout at every sweep and does not leave is never dropped |
| `SessionTimeouts.NameDecides` | server/src/SessionManager.cpp:157-164 | a join is refused for its name exactly if that is empty, longer than 24 or not printable ASCII |
| `LoopCadence.IntervalFitsTheRate` | server/src/AuthoritativeLoop.cpp:6-15 | the interval is the greatest number of nanoseconds that fits the tick rate into a second, or else 1 |
| `LoopCadence.SnapshotsKeepTheCadence` | server/src/AuthoritativeLoop.cpp:57-69 | a snapshot is due in exactly one of any cadence consecutive frames |
| `EventFeed.WhoIsToldWhat` | client/src/AuthoritativeEventFeed.cpp:226-240 | of a complete hit the attacker hears that it struck or felled, the victim that it was struck or felled, others nothing |
| `BlockEdits.VerdictIsExact` | server/src/BlockInteraction.cpp:23-70 | each of the six verdicts exactly by known id, loaded position, and which of the two blocks is air |
| `WorldProfile.Sanitize` | shared/src/voxel/WorldGenerationProfile.cpp:79-102 | the result is sane: jitter below half a cell, positive cell and bias, some type enabled |
| `Match.Sanitize` | server/src/MatchLifecycleSimulation.cpp:267-278 | each sound field is kept and each unsound one takes its default: 600 seconds, 60 ticks, 1 player |
| `Loot.SanitizeReplacesExactlyTheUnsound` | server/src/InventoryLootSimulation.cpp:355-384 | each sound field is kept and each unsound one takes its default; sound configurations are exactly the unchanged ones |
| `Combat.SanitizeConfig` | server/src/CombatSimulation.cpp:219-238 | each sound field is kept and each unsound one takes its default |
| `Combat.LastDefinitionCounts` | server/src/CombatSimulation.cpp:27-61 | under each weapon id stands the last usable definition of it, and nothing where there is none |
| `PoiStamps.FillColumn` | shared/src/voxel/World.cpp:308-313 | one block id over a run of heights of one column, nothing else |
| `PoiStamps.Stamp` | shared/src/voxel/World.cpp:474-490 | whatever its kind, a building writes exactly its specified blocks |
| `VoxelWorld.World.Clear` | shared/src/voxel/World.cpp:438 | no chunk is loaded |
| `VoxelWorld.World.RemoveChunk` | shared/src/voxel/World.cpp:495-498 | unloads that chunk and no other, and says whether it was loaded |
| `VoxelWorld.World.SetGenerationProfile` | shared/src/voxel/World.cpp:616-618 | stores the sanitized profile and leaves every loaded block alone |
| `Replication.WorldReplication.Reset` | server/src/WorldReplication.cpp:47-50 | forgets players and revisions |
| `Replication.WorldReplication.RemovePlayer` | server/src/WorldReplication.cpp:52 | forgets one player's subscription |
| `ChunkSync.ChunkSyncClient.Remove` | client/src/ChunkSyncApplier.cpp:118-124 | drops the listed chunks and leaves the others as they were |
| `ChunkSync.ChunkSyncClient.AddLike` | client/src/ChunkSyncApplier.cpp:74-92 | loads every listed chunk not already held at its revision; a chunk is kept or generated, never edited |
| `Prediction.PredictionReconciler.Reset` | client/src/PredictionReconciler.cpp:72-76 | a new client |
| `Prediction.MovementSimulation.EnsurePlayer` | server/src/MovementSimulation.cpp:17-22 | a new player is at rest; a known one is untouched |
| `Prediction.MovementSimulation.RemovePlayer` | server/src/MovementSimulation.cpp:24 | forgets that player only |
| `Loop.AuthoritativeLoop.Reset` | server/src/AuthoritativeLoop.cpp:17-23 | starts over at the given time |
| `Sessions.SessionManager.HandleHeartbeat` | server/src/SessionManager.cpp:71-78 | renews exactly that session's heartbeat, and says whether it exists |
| `Sessions.SessionManager.FirstFreeSlot` | server/src/SessionManager.cpp:173-180 | the first slot nobody owns |
| `CombatSim.CombatSimulation.Reset` | server/src/CombatSimulation.cpp:64-71 | everything is forgotten |
| `CombatSim.CombatSimulation.EnsurePlayer` | server/src/CombatSimulation.cpp:73-81 | a new player is alive at starting health; a known one is untouched |
| `CombatSim.CombatSimulation.SetPlayerPosition` | server/src/CombatSimulation.cpp:113-119 | stores the position of a then known player |
| `CombatSim.CombatSimulation.StrikeNow` | server/src/CombatSimulation.cpp:178-191 | a hitscan shot is applied at once, a projectile waits for its flight time |
| `EventFeed.AuthoritativeEventFeed.IsDuplicateDamage` | client/src/AuthoritativeEventFeed.cpp:242-250 | true exactly for remembered hits |
| `EventFeed.AuthoritativeEventFeed.RememberDamage` | client/src/AuthoritativeEventFeed.cpp:252-257 | appends, and drops the oldest past 64 |
| `MatchSim.MatchLifecycleSimulation.EnsurePlayer` | server/src/MatchLifecycleSimulation.cpp:45-53 | on record with a fresh budget if new, and connected |
| `MatchSim.MatchLifecycleSimulation.NoteCombat` | server/src/MatchLifecycleSimulation.cpp:83-92 | who is alive, except for those waiting for a respawn |
| `MatchSim.MatchLifecycleSimulation.NoteCoins` | server/src/MatchLifecycleSimulation.cpp:94-104 | coins as reported, and whether any differed |
| `MatchSim.MatchLifecycleSimulation.StartMatch` | server/src/MatchLifecycleSimulation.cpp:380-394 | a full clock and full budgets for everybody on record |
| `MatchSim.MatchLifecycleSimulation.EndMatch` | server/src/MatchLifecycleSimulation.cpp:396-404 | stops all clocks and fixes the winner |
| `LootSim.InventoryLootSimulation.NoteMoves` | server/src/InventoryLootSimulation.cpp:140-148 | players are where they were last reported |
| `LootSim.InventoryLootSimulation.NoteCombat` | server/src/InventoryLootSimulation.cpp:150-157 | players are alive as last reported |
| `LootSim.InventoryLootSimulation.Summarize` | server/src/InventoryLootSimulation.cpp:304-315 | one summary per changed player, ascending |

## Left out

- IEEE rounding, NaN, infinities and integer wrap-around: floats are reals, counters and ids are unbounded integers, inputs are finite; guards that only filter non-finite values are therefore absent.
- Square roots: `norm` is a parameter of which only non-negativity and its square are assumed.
- Noise, hash mixing and sampled heights: parameters of the generator, arbitrary functions.
- JSON text, packet schemas and the parsing of snapshots, inventory and match messages: records arrive already parsed; only the profile's field reader is modelled, on a parsed value.
- ENet, SDL, OpenGL, Bullet, rendering (`Chunk::build_mesh`), user interface, telemetry, configuration files and command-line tools.
- Read-only views such as `active_sessions`, `active_spawns`, `score_for`, and the displayed remaining seconds of a lobby.
- The caps of cooldown and travel ticks at the largest 64-bit value: with unbounded integers they cannot be reached.
- `rarity` of a collected treasure and the receive time of commands: no modelled decision reads them.
- Match states and pickup, respawn and death notices in the event feed: only its damage stream is modelled.
- Movement.StepMovement: gives the new motion; the MoveState name strings are not modelled.
- CombatSim.CombatSimulation.ResolveTick: asks that no two pending projectiles are for the same shot; CombatRuns.RunsFromTheStart proves it of every reachable state, and without it the sorted order of due hits would depend on std::sort.
- The wiring of sessions, movement and replication into a tick: `ServerTick` takes positions, ray hits and active sessions of a tick as arbitrary inputs.
- Prediction.ReconciliationIsInvisible: that lost or late inputs which change nothing are invisible too is not stated; its conditions are sufficient, and each is shown to be needed by one run.
- ChunkSync.ChunkSyncClient.Apply: the null-argument guard and the counters and changed flag of the returned result are not modelled.
- EventFeed.EachHitReportedExactlyOnce: speaks of whether a hit is taken as new; a new hit that concerns the local player yields one message, as ConsumeDamageEvent states, and the message's wording is not modelled.
- ProfileJson.WrittenIsReadRepaired: numbers are exact, so the text form of a float is not part of the round trip.
- Matching of names across cases and encodings beyond ASCII lower-casing.
