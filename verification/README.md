# Starwards core, modelled in Dafny

Starwards is a multiplayer spaceship bridge simulator. The server keeps a world of space
objects: ships, asteroids, projectiles, explosions and waypoints. It also keeps one state per
ship for its systems. Every tick runs a set of managers over that state. Browser screens
watch the state through small observable wrappers. This project models the core of that
engine and proves properties about it:

- `SpaceRules` and `SpaceManagement` model the space manager:
  - the world state and its command queues;
  - the insertion queue and garbage collection;
  - attachment cliques, and moving objects by command;
  - explosion growth and the timing-out of explosions and projectiles;
  - frozen and attached objects coming to a stop;
  - the collision responses, and the damage and order tables handed to ships.
- `ChainGuns` models the chain gun manager:
  - choosing ammunition;
  - loading and unloading rounds between the magazine and the gun;
  - the lifetime of the next shell;
  - firing a shell into space.
- `HeatManagement` models how heat is added to ship systems, how it overflows into damage,
  and how coolant is spread across the systems.
- `Reactors` models the reactor system's fields and derived getters.
- `SpaceObjectBase` models the base fields of every space object and the id comparator.
- `Utils` models the `Destructors` clean-up registry and `notNull`.
- `PropertyWrappers` models `propertyStub`, `abstractOnChange` and `aggregate`.
- `Selection` models the radar's selection container.
- `Driver` models the two endpoint strings the client derives from the page location.
- `Wrappers` holds the `Option` type.

State that the source updates in place is modelled as classes with `modifies` frames:
`SpaceState`, `SpaceManager`, `ChainGun`, `Magazine`, `ChainGunManager`, `ShipSystem`,
`HeatManager`, `Destructors`, `PropertyStub`, `AbstractOnChange` and `SelectionContainer`.
Each method is proved against a specification function on values, such as `Moved`,
`Applied`, `LoadStep`, `PutAll`, `RemoveScan`, `SetScan` or `ReducedHeat`. The lemmas state
what those functions promise.

## Model

Some members are definitions: each one's `ensures` only spells out its own body, so none
has a row. The rows that state what each definition means are these:
- `SpaceRules.ObjectPtr` and `PtrIds`: `ChangeTurnSpeed`, `ChangeVelocity`, `SetVelocity`
  and `Detach`, where only a live object changes.
- `SpaceRules.Merge`: `MergeConsistent`, `MergeKeepsJoins`, `MergeLinked` and `MergeStep`.
- `SpaceRules.Grown`: `GrownNeverShrinks` and `GrowExplosions`.
- `SpaceRules.AgedExplosion`, `ExplosionAfterTick` and `ExplosionIds`: `AgeExplosions` and
  `AppliedNeverRevives`.
- `SpaceRules.AgedProjectile`, `ShellAfterTick`, `ExpiringShells`, `ProjectileIds` and
  `ExplosionOf`: `ExplosionOfAged`, `ExplosionsForSpelledOut`, `ExpiredExplosions`,
  `ExplodeProjectile` and `AgeProjectiles`.
- `SpaceRules.Stilled`: `StilledKeepsPlace` and `StopRuleStopsAttachers`.
- `SpaceRules.SolidCollision`: `SolidDamageBounded` and `SolidCorrectionsSeparate`.
- `SpaceRules.ExplosionCollision`, `ShipDamage` and `AppendDamage`: `PairOutcome` and
  `HandleCollisionPair`.
- `SpaceRules.DestroyedIds` and `LiveIds`: `Gc`, `UntrackDestroyedObjects` and
  `HandleToInsert`.
- `SpaceRules.NewExplosion`, `NewAsteroids`, `NewExplosions`, `NewWaypoints` and
  `SpaceObjectBase.NewObject`: `CreateAsteroids`, `CreateExplosions`, `CreateWaypoints` and
  `CreateCommandedObjects`.
- `SpaceRules.Moved`: `MovedStep`, `MovedKeepsKeying` and `MovesChangeOnlyPositions`.
- `SpaceRules.IdsOf`: `StoredObjects`.
- `ChainGuns.Fired`: `FiredUsesOneRound`.
- `ChainGuns.Shell`: `FireChainGun`.
- `ChainGuns.BaseRange` and `ChainGunManager.ShellSecondsToLive`: `DirectIgnoresTarget` and
  `CalcShellSecondsToLive`.
- `HeatManagement.ReducedHeat`: `ReducedHeatNeverRaises`.
- `HeatManagement.EvenRequests`: `EvenRequestsSplitBudget`.
- `HeatManagement.Factors`: `CoolantRequestsSplitBudget`.
- `Reactors.NewReactor`: `FreshReactorRate` and `FreshReactorInRange`.
- `Driver.WebsocketScheme`: `EndpointsAgree`.
- `Selection.Emitted`: `SetReportsSymmetricDifference`.
- `Selection.IdsOf`: `RemoveScanReportsOnce` and `SetScanReports`.
- `Selection.SelectionContainer.Has`: `Add`, `Remove` and `Set`, which state the selection
  it reads.
- `PropertyWrappers.PropertyStub.GetValue`: `SetValue`, which states the value it reads.
- `Utils.NotNull`: `notNull` is a type guard, and its definition is all there is to state.

| member | source | states |
|---|---|---|
| SpaceRules.GroupIsClosed | modules/core/src/logic/space-manager.ts:148-150 | an id's group (its clique, or the id itself) is closed under registration, contains only live ids and contains the id while it is live |
| SpaceRules.MergeConsistent | modules/core/src/logic/space-manager.ts:147-152 | merging a closed clique keeps every registered member mapped to a clique that contains it |
| SpaceRules.MergeKeepsJoins | modules/core/src/logic/space-manager.ts:147-152 | merging never separates two ids that already shared a clique |
| SpaceRules.MergeStep | modules/core/src/logic/space-manager.ts:145-153 | one attachment step keeps cliques consistent and live, joins its two ends, keeps earlier joins, and registers only the two ends |
| SpaceRules.LinkedByMore | modules/core/src/logic/space-manager.ts:142-155 | a clique linked by some attachments stays linked when more are considered |
| SpaceRules.LinkedAtMostOne | modules/core/src/logic/space-manager.ts:142-155 | a clique of at most one id is linked by any attachments |
| SpaceRules.LinkedUnion | modules/core/src/logic/space-manager.ts:147-152 | two linked cliques joined by an attachment form a linked clique |
| SpaceRules.MergeLinked | modules/core/src/logic/space-manager.ts:147-152 | merging the groups of an attachment's two ends keeps every clique linked, counting that attachment |
| SpaceRules.CliquesStep | modules/core/src/logic/space-manager.ts:145-153 | handling one more attachment keeps the loop's account: cliques consistent, live, joining and linked by the handled attachments |
| SpaceRules.AttachedCliqueMembers | modules/core/src/logic/space-manager.ts:157-165 | the attached clique holds exactly the ids that lie in some given id's group |
| SpaceRules.AttachedCliqueLive | modules/core/src/logic/space-manager.ts:157-165 | over consistent live cliques, a move command only ever reaches live objects |
| SpaceRules.AttachedCliqueHasWholeCliques | modules/core/src/logic/space-manager.ts:157-165 | an attached id brings its whole clique along |
| SpaceRules.GrownNeverShrinks | modules/core/src/logic/space-manager.ts:245-252 | with forward time and non-negative expansion, no radius shrinks and ids stay |
| SpaceRules.ExplosionOfAged | modules/core/src/logic/space-manager.ts:439-445 | ageing a projectile does not change the explosion it makes |
| SpaceRules.StilledKeepsPlace | modules/core/src/logic/space-manager.ts:391-397 | stopping never moves an object or changes its id |
| SpaceRules.StopRuleStopsAttachers | modules/core/src/logic/space-manager.ts:391-397 | the stop rule zeroes the velocity and turn speed of a frozen object or one attached to a non-empty id, and leaves any other object unchanged |
| SpaceRules.SolidDamageBounded | modules/core/src/logic/space-manager.ts:525-546 | the collision damage is non-negative and bounded by the coefficient times twice the other object's radius |
| SpaceRules.SolidCorrectionsSeparate | modules/core/src/logic/space-manager.ts:536-544 | for two solids, the two sides of one contact move apart by exactly the overlap vector |
| SpaceRules.PairOutcome | modules/core/src/logic/space-manager.ts:477-506 | one pair keeps the stored ids, queues at most one object after the earlier ones, draws one id per queued object, only extends damage lists, and changes something only when the pair passes the collision filter |
| SpaceRules.CollisionPass | modules/core/src/logic/space-manager.ts:471-506 | the pass over all pairs keeps the stored ids, only appends to the queue and damage lists, draws one id per queued object, and reports at most one position change per pair, each for a stored id |
| SpaceRules.PositionsApplied | modules/core/src/logic/space-manager.ts:507-512 | applying the position changes keeps the stored ids |
| SpaceRules.PositionsAppliedStep | modules/core/src/logic/space-manager.ts:507-512 | applying one more change moves exactly that subject's clique and adds it to the touched ids |
| SpaceRules.PositionsAppliedOnlyMove | modules/core/src/logic/space-manager.ts:507-512 | applying position changes changes nothing but positions, and leaves every untouched object as it was |
| SpaceRules.OrdersOnlyForShips | modules/core/src/logic/space-manager.ts:201-209 | a command's order reaches exactly the live spaceships it names; all other entries stay |
| SpaceRules.FindById | modules/core/src/logic/space-manager.ts:339-341 | the result is the first queued object with that id, and is absent exactly when none has it |
| SpaceRules.ApplyRule | modules/core/src/logic/space-manager.ts:245-270 | no per-object tick rule changes an id or revives a destroyed object |
| SpaceRules.Applied | modules/core/src/logic/space-manager.ts:245-270 | applying a rule keeps the stored ids, and keeps every object under its own id |
| SpaceRules.AppliedNeverRevives | modules/core/src/logic/space-manager.ts:245-270 | an object that is live after the rules was live before them |
| SpaceRules.AppliedStep | modules/core/src/logic/space-manager.ts:245-270 | handling one more id changes exactly that object |
| SpaceRules.ExplosionsForSpelledOut | modules/core/src/logic/space-manager.ts:263-270 | the k-th queued explosion is the explosion of the k-th exploded projectile under the id drawn k after the first |
| SpaceRules.ExplosionsForAppend | modules/core/src/logic/space-manager.ts:263-270 | one more exploded projectile appends exactly its explosion under the next id |
| SpaceRules.ListedMembers | modules/core/src/logic/space-manager.ts:263-270 | the set of listed ids has exactly the ids in the list |
| SpaceRules.NoRepeatsCount | modules/core/src/logic/space-manager.ts:263-270 | a list without repeats has as many ids as its set |
| SpaceRules.ListsExactlyStep | modules/core/src/logic/space-manager.ts:263-270 | visiting one more projectile keeps the exploded list exactly the expiring projectiles visited so far |
| SpaceRules.ExpiredExplosions | modules/core/src/logic/space-manager.ts:263-270 | once every projectile is visited, the exploded ids are exactly the expiring ones, once each, and each queued explosion is that projectile's under consecutive ids |
| SpaceRules.MovedStep | modules/core/src/logic/space-manager.ts:126-131 | moving one more id changes exactly that object's position, or nothing when it is not stored |
| SpaceRules.MovedKeepsKeying | modules/core/src/logic/space-manager.ts:126-131 | moving keeps objects under their ids and keeps the same objects live |
| SpaceRules.MovesChangeOnlyPositions | modules/core/src/logic/space-manager.ts:196-199 | the move commands together change nothing but positions |
| SpaceRules.OrdersAfterOnlyForShips | modules/core/src/logic/space-manager.ts:201-209 | after all bot-order commands, every new or changed order belongs to a live spaceship |
| SpaceRules.LastOrderWins | modules/core/src/logic/space-manager.ts:201-209 | a live spaceship named by the last command ends up with that command's order |
| SpaceRules.SumOverRemove | modules/core/src/logic/space-manager.ts:359-375 | the summed clique velocity and turn speed do not depend on the order of the clique's members |
| SpaceRules.StoredObjects | modules/core/src/logic/space-manager.ts:377-389 | flushing adds exactly the queued ids, keeps other objects, stores one of the queued objects under each queued id, and keeps objects under their ids |
| SpaceManagement.SpaceState.constructor | modules/core/src/logic/space-manager.ts:64 | a new world state has no objects and empty command queues |
| SpaceManagement.DestroyStateObject | modules/core/src/logic/space-manager.ts:54-62 | only a live, expendable object is destroyed, and only a spaceship's destruction is queued as a command |
| SpaceManagement.SpaceManager.constructor | modules/core/src/logic/space-manager.ts:64-76 | a new manager is valid and has empty tables, queues and timer |
| SpaceManagement.SpaceManager.DrawId | modules/core/src/logic/space-manager.ts:442 | each id is the next one the generator yields |
| SpaceManagement.SpaceManager.DestroyObject | modules/core/src/logic/space-manager.ts:138-140 | destroying an object by id keeps the manager valid, marks only a live, expendable object, and queues its id as a destroy-spaceship command exactly when it is such a spaceship |
| SpaceManagement.SpaceManager.ChangeTurnSpeed | modules/core/src/logic/space-manager.ts:101-105 | only a live object's turn speed changes, by the delta |
| SpaceManagement.SpaceManager.ChangeVelocity | modules/core/src/logic/space-manager.ts:107-112 | only a live object's velocity changes, by the delta |
| SpaceManagement.SpaceManager.SetVelocity | modules/core/src/logic/space-manager.ts:114-124 | a velocity with a NaN component is refused; otherwise a live object's velocity is set |
| SpaceManagement.SpaceManager.Attach | modules/core/src/logic/space-manager.ts:355-357 | the attacher now follows the attachee, replacing any earlier attachment |
| SpaceManagement.SpaceManager.Detach | modules/core/src/logic/space-manager.ts:359-375 | a live attacher leaves with its clique's summed velocity and turn speed, and its attachment is removed in every case |
| SpaceManagement.SpaceManager.Insert | modules/core/src/logic/space-manager.ts:343-345 | the object is queued at the end |
| SpaceManagement.SpaceManager.InsertBulk | modules/core/src/logic/space-manager.ts:347-349 | the objects are queued in order |
| SpaceManagement.SpaceManager.CheckDuplicateShip | modules/core/src/logic/space-manager.ts:339-341 | a stored spaceship under the id wins, otherwise a queued object with that id; nothing exactly when neither exists |
| SpaceManagement.SpaceManager.ResolveObjectDamage | modules/core/src/logic/space-manager.ts:447-453 | the queued damage is handed out once and then forgotten |
| SpaceManagement.SpaceManager.ResolveObjectOrder | modules/core/src/logic/space-manager.ts:462-466 | the pending order is handed out once (null when absent) and then forgotten |
| SpaceManagement.SpaceManager.CalcAttachmentCliques | modules/core/src/logic/space-manager.ts:142-155 | the cliques are consistent and live, the live ends of every attachment share one, only attachment ends are registered, and every clique is linked: however it is split in two, some attachment joins the two parts |
| SpaceManagement.SpaceManager.GetAttachedClique | modules/core/src/logic/space-manager.ts:157-165 | returns the union of the ids' groups |
| SpaceManagement.SpaceManager.MoveAll | modules/core/src/logic/space-manager.ts:126-131 | exactly the stored ids are moved by the delta and marked for a body update |
| SpaceManagement.SpaceManager.HandleMoveCommand | modules/core/src/logic/space-manager.ts:126-131 | the ids' attached clique moves by the delta and nothing else changes |
| SpaceManagement.SpaceManager.HandleMoveCommands | modules/core/src/logic/space-manager.ts:196-199 | the move commands run in order and their queue is emptied |
| SpaceManagement.SpaceManager.HandleBotOrderCommands | modules/core/src/logic/space-manager.ts:201-209 | live spaceships get the commands' orders, in order, and the queue is emptied |
| SpaceManagement.SpaceManager.CreateAsteroids | modules/core/src/logic/space-manager.ts:180-186 | one new asteroid is queued per command, ids are drawn one each, and the queue is emptied |
| SpaceManagement.SpaceManager.CreateExplosions | modules/core/src/logic/space-manager.ts:187-190 | one new explosion is queued per command, ids are drawn one each, and the queue is emptied |
| SpaceManagement.SpaceManager.CreateWaypoints | modules/core/src/logic/space-manager.ts:191-194 | one new waypoint is queued per command, ids are drawn one each, and the queue is emptied |
| SpaceManagement.SpaceManager.UntrackDestroyedObjects | modules/core/src/logic/space-manager.ts:323-337 | destroyed objects lose their extra data and attachment, and afterwards exactly the live objects are tracked |
| SpaceManagement.SpaceManager.Gc | modules/core/src/logic/space-manager.ts:168-176 | destroyed objects and their pending damage and orders are removed, only live objects remain, and the timer restarts |
| SpaceManagement.SpaceManager.HandleToInsert | modules/core/src/logic/space-manager.ts:377-389 | with a non-empty queue, collects garbage (destroyed objects leave the store, the tracked set, the attachments, the damage and order tables), stores and tracks every queued object and empties the queue; with an empty queue, nothing changes |
| SpaceManagement.SpaceManager.StoreAll | modules/core/src/logic/space-manager.ts:381-387 | each queued object is stored and tracked, in order |
| SpaceManagement.SpaceManager.ForceFlushEntities | modules/core/src/logic/space-manager.ts:351-353 | the flush is the insertion step: with a non-empty queue, destroyed objects and their tracking, attachments, damage and orders go, every queued object is stored and tracked, and the timer restarts; with an empty queue, nothing changes; the queue ends empty |
| SpaceManagement.SpaceManager.GrowExplosions | modules/core/src/logic/space-manager.ts:245-252 | every live explosion grows by the rule, nothing else changes, and the unfrozen ones are marked for a body update |
| SpaceManagement.SpaceManager.AgeExplosions | modules/core/src/logic/space-manager.ts:255-262 | every live explosion ages by the rule and nothing else changes |
| SpaceManagement.SpaceManager.ExplodeProjectile | modules/core/src/logic/space-manager.ts:439-445 | the projectile is destroyed and exactly one explosion of it is queued, with a new id |
| SpaceManagement.SpaceManager.AgeOneShell | modules/core/src/logic/space-manager.ts:263-270 | one projectile ages by the rule; an expiring one queues exactly the explosion of it under the next drawn id, and any other queues nothing and draws no id |
| SpaceManagement.SpaceManager.AgeShells | modules/core/src/logic/space-manager.ts:263-270 | the loop over projectiles ages each one and queues, in the order they expire, exactly the explosions of the expiring projectiles under consecutive new ids |
| SpaceManagement.SpaceManager.AgeAndRecord | modules/core/src/logic/space-manager.ts:263-270 | ageing one more projectile keeps the loop's account: the aged ids, the explosions queued so far and the ids drawn match the expiring projectiles handled |
| SpaceManagement.SpaceManager.AgeProjectiles | modules/core/src/logic/space-manager.ts:263-270 | every live projectile ages by the rule; the projectiles that explode are exactly the expiring ones, once each, and the queue grows by exactly their explosions under consecutive new ids after its earlier entries |
| SpaceManagement.SpaceManager.FrozenAndAttachedDontMove | modules/core/src/logic/space-manager.ts:391-397 | every live frozen or attached object stops, and nothing else changes |
| SpaceManagement.SpaceManager.UpdateCollisionBodies | modules/core/src/logic/space-manager.ts:597-613 | no body is left pending |
| SpaceManagement.SpaceManager.HandleCollisionPair | modules/core/src/logic/space-manager.ts:477-506 | the new objects, damage table, queue and id counter, and the reported position change, are exactly the outcome of the pair: a filtered-out pair changes nothing; a projectile explodes; an explosion backs out; a solid takes the velocity change and damage (a ship as a queued record when there is an arc) |
| SpaceManagement.SpaceManager.ApplyPositionChange | modules/core/src/logic/space-manager.ts:507-512 | a position change moves exactly the subject's clique (or the subject alone) by the change, and marks the moved stored ids for a body update |
| SpaceManagement.SpaceManager.HandleCollisions | modules/core/src/logic/space-manager.ts:471-513 | the new state is the collision pass over all pairs followed by the position changes in order: no object is added or removed, the damage lists and insertion queue only grow, only positions of the moved cliques change, and exactly the moved ids are marked for a body update |
| SpaceManagement.SpaceManager.FirstCollisionPass | modules/core/src/logic/space-manager.ts:471-506 | the loop over pairs leaves exactly the state, and returns exactly the position changes, of the collision pass |
| SpaceManagement.SpaceManager.ApplyPositionChanges | modules/core/src/logic/space-manager.ts:507-512 | the loop over position changes leaves exactly the objects and pending bodies of applying them in order |
| SpaceManagement.SpaceManager.CreateCommandedObjects | modules/core/src/logic/space-manager.ts:180-194 | the queue grows by exactly the commanded asteroids, then explosions, then waypoints, in command order under consecutive new ids, one id drawn per object, and the three command queues are emptied |
| SpaceManagement.SpaceManager.HandleCommands | modules/core/src/logic/space-manager.ts:179-209 | after the first half of a tick, every command queue and the insertion queue are empty, the manager is valid, and the cliques are consistent, live, join every attachment and are linked by the attachments |
| SpaceManagement.SpaceManager.AdvanceObjects | modules/core/src/logic/space-manager.ts:211-219 | the objects are exactly the old ones after growing and ageing explosions, ageing projectiles and stopping frozen and attached objects, in that order; attachments of destroyed objects go, the expiring projectiles' explosions are queued under consecutive new ids, and no body is left pending |
| SpaceManagement.SpaceManager.Update | modules/core/src/logic/space-manager.ts:178-224 | a tick drains every command queue, keeps the manager valid, and never leaves the garbage-collection timer above its timeout |
| ChainGuns.Filter | modules/core/src/ship/chain-gun-manager.ts:28-29 | keeps exactly the elements in the kept set and never lengthens the list; the order is stated by `FilterSnoc` |
| ChainGuns.FilterSnoc | modules/core/src/ship/chain-gun-manager.ts:28-29 | the filter keeps the order: an element appended to the input is decided after all the others and appended to the output exactly when it is kept |
| ChainGuns.FilterDistinct | modules/core/src/ship/chain-gun-manager.ts:109 | filtering distinct models yields distinct models |
| ChainGuns.FirstOfFilter | modules/core/src/ship/chain-gun-manager.ts:28-30 | the first of a filtered stream is the earliest kept element, and there is none exactly when no element is kept |
| ChainGuns.FirstIndex | modules/core/src/ship/chain-gun-manager.ts:113 | the first position of the current element |
| ChainGuns.ElementAfter | modules/core/src/ship/chain-gun-manager.ts:113 | the next type is one of the stream's types, and there is none exactly when the stream is empty |
| ChainGuns.SwitchingVisitsEveryType | modules/core/src/ship/chain-gun-manager.ts:107-115 | repeated switch commands visit the enabled types in order |
| ChainGuns.SwitchingWrapsAround | modules/core/src/ship/chain-gun-manager.ts:107-115 | one switch per type brings the selection back to the first type |
| ChainGuns.SwitchedProjectile | modules/core/src/ship/chain-gun-manager.ts:107-115 | a switch selects an enabled model, and selects none exactly when no model is enabled |
| ChainGuns.ResetChainGun | modules/core/src/ship/chain-gun-manager.ts:16-20 | the angle offset is 0, the rate-of-fire factor 1 and the range mode DIRECT |
| ChainGuns.SwitchToAvailableAmmo | modules/core/src/ship/chain-gun-manager.ts:26-32 | an existing selection stays; otherwise the first model that is both enabled and in stock is selected, if any |
| ChainGuns.DontLoadMeansNoRound | modules/core/src/ship/chain-gun-manager.ts:122-125 | with a projectile selected, loading is held back exactly when the gun is empty and the magazine has no round of that model |
| ChainGuns.LoadingDeltaSign | modules/core/src/ship/chain-gun-manager.ts:126-127 | the loading delta is never negative, and is zero when the rate-of-fire factor, the effectiveness or the tick is zero |
| ChainGuns.StartLoadingConservesStock | modules/core/src/ship/chain-gun-manager.ts:146-151 | starting to load takes one round of the selected model from the magazine into the gun, so the rounds of that model are conserved |
| ChainGuns.LoadStep | modules/core/src/ship/chain-gun-manager.ts:122-161 | without granted energy or a positive delta, nothing changes; the magazine's models stay the same |
| ChainGuns.LoadStepKeepsInvariant | modules/core/src/ship/chain-gun-manager.ts:130-161 | loading keeps progress in [0, 1], a round in the gun exactly while there is progress, and no negative stock |
| ChainGuns.LoadStepConservesStock | modules/core/src/ship/chain-gun-manager.ts:137-159 | loading and unloading only move rounds between the magazine and the gun |
| ChainGuns.LoadStepTransitions | modules/core/src/ship/chain-gun-manager.ts:130-161 | with time and energy granted: a round that is not selected or not wanted loses progress by the delta, and at 0 it returns to the magazine and the gun empties; an empty gun takes exactly one round of the selected model and starts from the carried-over progress; a gun loading the selected model advances by the delta; progress is capped at 1 and the excess becomes the carry-over; in every other case nothing changes |
| ChainGuns.FiredUsesOneRound | modules/core/src/ship/chain-gun-manager.ts:166-174 | firing keeps the loader consistent and uses up exactly the round that was in the gun |
| ChainGuns.CanFireNeedsFullRound | modules/core/src/ship/chain-gun-manager.ts:164-170 | the gun fires exactly when effective, firing and fully loaded, and then a round is in the gun |
| ChainGuns.ChainGunManager.constructor | modules/core/src/ship/chain-gun-manager.ts:37-48 | a new manager has no carry-over and has ammunition selected by `switchToAvailableAmmo` |
| ChainGuns.ChainGunManager.SetShellRangeMode | modules/core/src/ship/chain-gun-manager.ts:50-60 | TARGET without a weapons target is logged and refused; any other new mode is set and resets the range adjustment |
| ChainGuns.ChainGunManager.DirectIgnoresTarget | modules/core/src/ship/chain-gun-manager.ts:74-77 | in DIRECT mode the shell lifetime does not depend on the weapons target |
| ChainGuns.ChainGunManager.CalcShellSecondsToLive | modules/core/src/ship/chain-gun-manager.ts:68-100 | the lifetime is stored, or it throws and the old lifetime stays |
| ChainGuns.ChainGunManager.SwitchProjectile | modules/core/src/ship/chain-gun-manager.ts:104-115 | a commanded or forced switch selects as `SwitchedProjectile` says, and the selected model is always enabled |
| ChainGuns.ChainGunManager.Load | modules/core/src/ship/chain-gun-manager.ts:122-161 | the loader's new state is one `LoadStep`, whose unloading, loading, cap and carry-over `LoadStepTransitions` states, and the manager stays valid |
| ChainGuns.ChainGunManager.HoldFire | modules/core/src/ship/chain-gun-manager.ts:116-121 | no firing without effectiveness, and no carry-over without firing |
| ChainGuns.ChainGunManager.UpdateChainGun | modules/core/src/ship/chain-gun-manager.ts:102-162 | switching, then holding fire, then one loading step, while the total stock of every model is conserved |
| ChainGuns.ChainGunManager.FireChainGun | modules/core/src/ship/chain-gun-manager.ts:164-198 | fires exactly when effective, firing and fully loaded; then the gun is emptied and one shell of the loaded model, with the current lifetime, is queued, and otherwise nothing changes; every round the gun loses is the queued shell |
| ChainGuns.ChainGunManager.UpdateAndFire | modules/core/src/ship/chain-gun-manager.ts:64-65 | the gun's update then firing: the ammunition switch, the firing flag, one `LoadStep` from the loader with the carry-over kept only while firing, and a shell of the loaded model queued exactly when the gun can then fire, with the stock conserved |
| ChainGuns.ChainGunManager.Update | modules/core/src/ship/chain-gun-manager.ts:62-66 | throws exactly when the lifetime has no value, and then nothing else changes; otherwise the lifetime is stored, the ammunition is switched as `SwitchedProjectile` says, the firing flag drops without effectiveness, the loader takes one `LoadStep`, and a shell of the loaded model is queued exactly when the gun can then fire; every round lost from the stock is a queued shell |
| HeatManagement.HeatManager.constructor | modules/core/src/ship/heat-manager.ts:8-13 | the manager holds the given systems, coolant and damage manager |
| HeatManagement.AddedHeat | modules/core/src/ship/heat-manager.ts:14-21 | heat is clamped at MAX_SYSTEM_HEAT, and the excess is reported as positive damage; new heat plus damage equals old heat plus the value |
| HeatManagement.ReducedHeatNeverRaises | modules/core/src/ship/heat-manager.ts:22-32 | a non-negative reduction never raises the heat |
| HeatManagement.CoolantRequests | modules/core/src/ship/heat-manager.ts:34-52 | one request per system |
| HeatManagement.EvenRequestsSplitBudget | modules/core/src/ship/heat-manager.ts:40-45 | the even shares add up to the tick's whole coolant budget |
| HeatManagement.ProportionalRequestsSplitBudget | modules/core/src/ship/heat-manager.ts:46-51 | the proportional shares add up to the tick's whole coolant budget |
| HeatManagement.CoolantRequestsSplitBudget | modules/core/src/ship/heat-manager.ts:34-52 | the requests always add up to the whole budget, and a system with factor 0 is not cooled when the factors do not sum to 0 |
| HeatManagement.SumScaled | modules/core/src/ship/heat-manager.ts:46-51 | scaling every term scales the sum of the terms |
| HeatManagement.SumConstant | modules/core/src/ship/heat-manager.ts:40-45 | a sum of equal terms is their count times the term |
| HeatManagement.HeatManager.AddHeat | modules/core/src/ship/heat-manager.ts:14-21 | heat rises as `AddedHeat` says, and the overheat damage is reported once exactly when there is excess |
| HeatManagement.HeatManager.ReduceHeat | modules/core/src/ship/heat-manager.ts:22-32 | heat falls as `ReducedHeat` says |
| HeatManagement.HeatManager.Update | modules/core/src/ship/heat-manager.ts:34-52 | every system sheds its share of the coolant requests, and no coolant factor changes |
| Reactors.IsInstanceRejectsOthers | modules/core/src/ship/reactor.ts:25-27 | null or undefined, an object without a type and an object of any other type fail the instance check; an object typed 'Reactor' passes |
| Reactors.FreshReactorRate | modules/core/src/ship/reactor.ts:40-47 | a new reactor produces its design rate and is not broken |
| Reactors.FreshReactorInRange | modules/core/src/ship/reactor.ts:35-43 | a new reactor is within its declared ranges exactly when the design allows 1000 energy |
| Reactors.BrokenIffNoEnergy | modules/core/src/ship/reactor.ts:45-51 | a broken reactor produces nothing, and with a non-zero design rate only a broken one does |
| Reactors.RateWithinDesign | modules/core/src/ship/reactor.ts:40-47 | within the declared ranges, the output lies between 0 and a non-negative design rate |
| SpaceObjectBase.StrLessIrreflexive | modules/model/src/space-object-base.ts:7 | no id is less than itself |
| SpaceObjectBase.StrLessAsymmetric | modules/model/src/space-object-base.ts:7 | no two ids are each less than the other |
| SpaceObjectBase.StrLessTotal | modules/model/src/space-object-base.ts:7 | two different ids are always ordered |
| SpaceObjectBase.StrLessTransitive | modules/model/src/space-object-base.ts:7 | the id order is transitive |
| SpaceObjectBase.Compare | modules/model/src/space-object-base.ts:6-8 | 0 exactly for equal ids, 1 exactly when the first id is smaller, and -1 exactly when it is larger (descending order) |
| SpaceObjectBase.CompareAntisymmetric | modules/model/src/space-object-base.ts:6-8 | swapping the arguments negates the result |
| SpaceObjectBase.CompareTransitive | modules/model/src/space-object-base.ts:6-8 | the induced order is transitive, so sorting with it is well defined |
| Utils.Destructors.constructor | modules/core/src/utils.ts:9-11 | a new registry is empty and not destroyed |
| Utils.Destructors.Add | modules/core/src/utils.ts:17-23 | registers while not destroyed; once destroyed it throws and changes nothing |
| Utils.Destructors.PendingWithoutChildren | modules/core/src/utils.ts:49-52 | without children, a clean-up runs exactly the registered destructors |
| Utils.Destructors.Child | modules/core/src/utils.ts:25-29 | a fresh, empty child whose destroy is registered with the parent |
| Utils.Destructors.OnEvent | modules/core/src/utils.ts:31-34 | the listener is always attached; unless the registry is destroyed, a new removal closure is registered, so the registry grows by exactly one |
| Utils.Destructors.Cleanup | modules/core/src/utils.ts:49-54 | runs exactly what `Pending` names: every registered destructor other than a child's, plus what each child's destroy runs; the children are destroyed and the registry is emptied but stays usable |
| Utils.Destructors.DestroyChild | modules/core/src/utils.ts:50-52 | one child's destroy runs exactly what that child had pending and leaves the other children as they were |
| Utils.Destructors.Destroy | modules/core/src/utils.ts:39-44 | the first destroy cleans up, running exactly what was pending, and invalidates; a later one runs nothing and changes nothing |
| Utils.DestroyTwice | modules/core/src/utils.ts:39-44 | a second destroy runs nothing |
| Utils.AddAfterCleanup | modules/core/src/utils.ts:46-54 | after cleanup, adding succeeds |
| Utils.OnEventTwiceRegistersTwo | modules/core/src/utils.ts:31-34 | the same listener attached twice registers two distinct removals, so cleanup calls `off` twice; on a destroyed registry nothing is registered |
| Utils.AddTwiceRegistersOnce | modules/core/src/utils.ts:11-23 | on any live registry, the same function added twice is registered once beside what was there; on a destroyed one, both calls throw and nothing is registered |
| PropertyWrappers.IndexOf | modules/browser/src/property-wrappers.ts:59 | the first position of the callback, or -1 exactly when it is absent |
| PropertyWrappers.SpliceOne | modules/browser/src/property-wrappers.ts:59 | `splice(start, 1)` removes the element at `start`, counting a negative start from the end and clamping it at the front; a start past the end removes nothing |
| PropertyWrappers.UnsubscribeAsWritten | modules/browser/src/property-wrappers.ts:58-60 | every call removes exactly one callback while any is left, whether or not it is the one being unsubscribed |
| PropertyWrappers.UnsubscribeAsWrittenWhenPresent | modules/browser/src/property-wrappers.ts:58-60 | a registered callback is removed once and nothing else is |
| PropertyWrappers.UnsubscribeAsWrittenWhenAbsent | modules/browser/src/property-wrappers.ts:58-60 | when the callback is already gone, the last callback is removed instead |
| PropertyWrappers.UnsubscribeTwiceDropsAnother | modules/browser/src/property-wrappers.ts:56-61 | calling the first subscriber's unsubscribe twice also removes the second subscriber |
| PropertyWrappers.Unsubscribed | modules/browser/src/property-wrappers.ts:58-60 | removes one registration of the callback, and nothing when it is absent |
| PropertyWrappers.UnsubscribedTwiceIsOnce | modules/browser/src/property-wrappers.ts:58-60 | calling it a second time changes nothing |
| PropertyWrappers.UnsubscribedAgreesWhenPresent | modules/browser/src/property-wrappers.ts:58-60 | agrees with the code as written while the callback is registered |
| PropertyWrappers.PropertyStub.constructor | modules/browser/src/property-wrappers.ts:44-47 | the initial value and no callbacks |
| PropertyWrappers.PropertyStub.SetValue | modules/browser/src/property-wrappers.ts:48-55 | a different value is stored and every callback is called once, in order; an equal value calls nothing |
| PropertyWrappers.PropertyStub.OnChange | modules/browser/src/property-wrappers.ts:56-57 | the callback is appended |
| PropertyWrappers.PropertyStub.Unsubscribe | modules/browser/src/property-wrappers.ts:58-60 | the returned unsubscribe function as written: while the callback is registered, one registration of it and nothing else goes; once it is gone, the last callback goes instead |
| PropertyWrappers.PropertyStub.UnsubscribeGuarded | modules/browser/src/property-wrappers.ts:58-60 | the evidently intended unsubscribe: removes one registration of the callback and no other callback, leaving none of a callback registered once, and nothing when it is absent |
| PropertyWrappers.AbstractOnChange.constructor | modules/browser/src/property-wrappers.ts:23-40 | registers exactly one listener on each underlying property and leaves other callbacks alone |
| PropertyWrappers.AbstractOnChange.Notify | modules/browser/src/property-wrappers.ts:32-38 | the callback is called exactly when the value differs from the last one seen, which is then remembered |
| PropertyWrappers.AbstractOnChange.UnsubscribeAll | modules/browser/src/property-wrappers.ts:28-41 | removes this listener from every property and leaves other callbacks alone |
| PropertyWrappers.AbstractOnChange.Destroy | modules/browser/src/property-wrappers.ts:41 | the returned destructor unregisters from every property once; a second call changes nothing |
| PropertyWrappers.Aggregate.constructor | modules/browser/src/property-wrappers.ts:16-21 | the aggregate is built over the given properties |
| PropertyWrappers.Aggregate.OnChange | modules/browser/src/property-wrappers.ts:18 | subscribing creates a fresh, live listener over the aggregated properties |
| Selection.Without | modules/browser/src/radar/selection-container.ts:54 | drops exactly the id and keeps distinct ids distinct |
| Selection.Selected.Put | modules/browser/src/radar/selection-container.ts:77 | sets the object under its id, keeping the selection well formed |
| Selection.Selected.Delete | modules/browser/src/radar/selection-container.ts:54 | deletes the id, keeping the selection well formed |
| Selection.Selected.Values | modules/browser/src/radar/selection-container.ts:38 | the selected objects in insertion order, one per selected id |
| Selection.Filter | modules/browser/src/radar/selection-container.ts:74 | keeps exactly the objects that pass the predicate |
| Selection.FilterPredicate | modules/browser/src/radar/selection-container.ts:24-35 | an object that passes always passes the filter; with no view filter, or a view filter of 0 (falsy, skipped by the `f2 &&` test), it passes exactly when it passes the filter |
| Selection.FilterPredicateIsConjunction | modules/browser/src/radar/selection-container.ts:24-35 | an object passes exactly when it passes the filter and, when the view filter is present and non-zero, the view filter; when filter 0 lets the object through, a view filter of 0 needs no exception |
| Selection.FilterTwice | modules/browser/src/radar/selection-container.ts:74 | filtering twice by one predicate is filtering once |
| Selection.FilterSnoc | modules/browser/src/radar/selection-container.ts:74 | filtering a sequence with one more element decides that element last |
| Selection.SelectionContainer.KeptTwice | modules/browser/src/radar/selection-container.ts:20 | re-filtering the already filtered selected items keeps all of them |
| Selection.PutAllStores | modules/browser/src/radar/selection-container.ts:76-78 | storing adds exactly the given ids, each under one of the given objects, and leaves the rest |
| Selection.NewItems | modules/browser/src/radar/selection-container.ts:75 | exactly the given objects whose id is not selected |
| Selection.RemoveScanDeletes | modules/browser/src/radar/selection-container.ts:88 | removing deletes exactly the given ids |
| Selection.RemoveScanReports | modules/browser/src/radar/selection-container.ts:88 | the reported objects are exactly the given ones that were selected |
| Selection.RemoveScanReportsOnce | modules/browser/src/radar/selection-container.ts:88-94 | no id is reported twice |
| Selection.SetScanSplits | modules/browser/src/radar/selection-container.ts:99 | the first pass deletes exactly the kept ids |
| Selection.SetScanReports | modules/browser/src/radar/selection-container.ts:99 | the first pass reports the kept objects that were not selected (exactly those for distinct ids) |
| Selection.SetReportsSymmetricDifference | modules/browser/src/radar/selection-container.ts:97-110 | `set` reports every id whose selection state changed, and exactly those for distinct ids |
| Selection.ObjectEvents | modules/browser/src/radar/selection-container.ts:80-82 | one event per changed object |
| Selection.AddSilentIffNothingNew | modules/browser/src/radar/selection-container.ts:73-85 | `add` emits nothing exactly when every kept object was already selected |
| Selection.Split | modules/browser/src/radar/selection-container.ts:53 | splitting yields at least one part, and no part contains the separator |
| Selection.JoinSplit | modules/browser/src/radar/selection-container.ts:53 | joining the parts gives back the path |
| Selection.SplitPrefix | modules/browser/src/radar/selection-container.ts:53 | a separator-free prefix extends the first part |
| Selection.SplitJoin | modules/browser/src/radar/selection-container.ts:53 | splitting joined separator-free parts gives back the parts |
| Selection.PathId | modules/browser/src/radar/selection-container.ts:53 | the id taken from a removal path never contains the separator |
| Selection.RemovePathCarriesId | modules/browser/src/radar/selection-container.ts:52-53 | a removal path `/collection/id` yields the id |
| Selection.DistinctCount | modules/browser/src/radar/selection-container.ts:115-117 | the size of the selection is the number of selected ids |
| Selection.SelectionContainer.constructor | modules/browser/src/radar/selection-container.ts:8-22 | starts with the ALL filter, the given view filter, nothing selected and no events |
| Selection.SelectionContainer.Kept | modules/browser/src/radar/selection-container.ts:74 | exactly the given objects that pass the current filters |
| Selection.SelectionContainer.SelectedItems | modules/browser/src/radar/selection-container.ts:37-45 | exactly the selected objects that pass the current filters |
| Selection.SelectionContainer.Size | modules/browser/src/radar/selection-container.ts:115-117 | the number of selected ids |
| Selection.SelectionContainer.Emit | modules/browser/src/radar/selection-container.ts:79-84 | appends the events that `Emitted` prescribes |
| Selection.SelectionContainer.StoreAll | modules/browser/src/radar/selection-container.ts:76-78 | stores every given object under its id, in order |
| Selection.SelectionContainer.Add | modules/browser/src/radar/selection-container.ts:73-85 | stores the objects that pass the filters, and reports exactly the newly selected ones |
| Selection.SelectionContainer.Remove | modules/browser/src/radar/selection-container.ts:87-95 | deletes the given ids and reports exactly the ones that were selected |
| Selection.SelectionContainer.DeleteEach | modules/browser/src/radar/selection-container.ts:99 | deletes each kept id, collecting the objects that were not selected |
| Selection.SelectionContainer.Set | modules/browser/src/radar/selection-container.ts:97-110 | the selection becomes exactly the objects that pass the filters, and every id whose state changed is reported |
| Selection.SelectionContainer.Clear | modules/browser/src/radar/selection-container.ts:62-71 | nothing stays selected, and every previously selected object is reported |
| Selection.SelectionContainer.OnRemoveEvent | modules/browser/src/radar/selection-container.ts:51-58 | a removed object that was selected is deselected and reported; any other removal changes nothing |
| Selection.SelectionContainer.SetFilter | modules/browser/src/radar/selection-container.ts:19-20 | a new filter re-sets the selection: it becomes exactly the previously selected objects, in order, that pass the new filters, and the events are those `set` emits for that change; an equal value changes nothing |
| Selection.SelectionContainer.SetViewFilter | modules/browser/src/radar/selection-container.ts:19-21 | a new view filter re-sets the selection: it becomes exactly the previously selected objects, in order, that pass the new filters, and the events are those `set` emits for that change; an equal value changes nothing |
| Driver.GetColyseusEndpoint | modules/core/src/client/driver.ts:13-15 | the websocket scheme, '//', the host verbatim, then '/colyseus' |
| Driver.HttpEndpoint | modules/core/src/client/driver.ts:65 | the page's protocol, '//', then the host |
| Driver.HostRoundTrip | modules/core/src/client/driver.ts:13-15 | the host can be read back out of the websocket endpoint |
| Driver.EndpointsAgree | modules/core/src/client/driver.ts:13-15 | the websocket endpoint is the HTTP endpoint with its protocol swapped for the websocket scheme and '/colyseus' appended |

## Left out

- Homing projectiles (`calcHomingProjectiles`), `applyPhysics`, fields of view, `getFactionVisibleObjects`, `updateFieldsOFView`, the `spatialIndex` queries and `changeShipRadarRange` are not modelled. They are geometry and physics over the collision library, outside the manager's bookkeeping.
- The collision library (`detect-collisions`) is not part of this model. The pairs it reports (bodies, overlap, overlap vectors, `aInB`) are an input to `HandleCollisions`. The damage arc from `circlesIntersection` is carried in each pair, and `limitPercision` is a parameter.
- The collision bodies and fields of view that are kept per object are modelled as the set of tracked ids. Body positions, radii and the clean-up of temporary bodies are not modelled.
- Attachment cliques hold ids rather than object references.
- SpaceManagement.SpaceManager.Detach: the summed clique velocity is stated as an order-free sum over the set. The source adds floating-point numbers in the set's iteration order, which is not modelled. The source's cliques hold object references taken at the last `calcAttachmentCliques`, while the model's hold ids and reads the objects stored now. The two differ when a clique member was deleted by garbage collection since then, for example after `destroyObject` and `forceFlushEntities`. The source still adds that object's last velocity and turn speed, and the model adds nothing for it. They also differ when another object has since been stored under the same id: the model reads the new object.
- SpaceManagement.SpaceManager.HandleCollisions: requires a non-zero tick, because `calcSolidCollision` divides by it. With a zero tick the source produces infinities, which are not modelled.
- SpaceManagement.SpaceManager.Update: states validity, drained queues and the timer bound. Its sub-steps carry the detailed contracts.
- SpaceManagement.SpaceManager.HandleCommands: states drained queues, validity and the recomputed cliques. The objects, tables and id counter after it are not composed into one clause. They follow from the contracts of its steps `CreateCommandedObjects`, `HandleToInsert`, `HandleMoveCommands` and `HandleBotOrderCommands`, which state each step's whole new state.
- SpaceManagement.SpaceManager.ResolveObjectDamage: hands out the whole list and deletes it in one call. The source is a generator that deletes the list only after its caller has consumed every record; a caller that stops early is not modelled.
- SpaceManagement.SpaceManager.SetVelocity: the `console.warn` for a `NaN` component is not modelled. The refusal itself is: nothing changes.
- SpaceManagement.SpaceManager.HandleCollisionPair: the `console.error` for a ship collision without an intersection arc is not modelled. Nothing else changes in that case, and the model does the same.
- SpaceObjectBase.StrLess: compares ids by code point. JavaScript's `<` compares UTF-16 code units; the two orders agree on ids made of ASCII characters.
- Selection: the `TypeFilter` enum is not part of this model. Filters are numbers, and `ALL` is taken to be 0.
- The id generators `uniqueId` and `makeId` are not part of this model. They are a parameter function from a prefix and a counter to an id.
- The state's `getAll`, `get` and iteration are modelled as map lookups. `SpaceState` is not part of this model. `getAll` and the default iterator are taken to yield only live (not destroyed) objects, and `[Symbol.iterator](true)` only destroyed ones. `LiveIds`, `ExplosionIds`, `ProjectileIds` and `DestroyedIds` rest on this reading.
- ChainGuns: the `Iterator` helpers `filter`, `firstOr` and `elementAfter` are defined by the model. The library that implements them (`logic/iteration.ts`) is not part of this model.
- ChainGuns: the energy manager's `trySpendEnergy` is modelled as the `energyGranted` input. The loading energy amount is not modelled.
- ChainGuns: `capToRange`, `lerp` and the module-level `calcShellSecondsToLive` are parameters. The distance to the weapons target (`XY.lengthOf`) is the `targetDistance` input.
- ChainGuns.ChainGunManager.FireChainGun: `gaussianRandom` and the muzzle geometry are not modelled. The sampled angle, the shell's velocity and position, and the weapons target id are inputs.
- ChainGuns.ChainGunManager.constructor: requires a consistent initial loader state (loading progress in [0, 1] with a round exactly while loading). The source assumes this of its chain gun state without checking it.
- ChainGuns.ChainGunManager.SetShellRangeMode: `console.error` is modelled as the returned `logged` flag.
- ChainGuns.ChainGunManager.Update: a thrown error is modelled as the returned `thrown` flag, after which the rest of the tick does not run.
- HeatManagement: the damage manager is a recorder of the calls it receives. What it does with them is not part of this model.
- Utils: `waitFor`, `printError`, `getKeys` and `assertUnreachable` are not modelled. They are async timing, string formatting and type-level helpers.
- Utils.Destructors.OnEvent: the event emitter is not modelled. Attaching a listener is reported by the `attached` result. Its removal is a token that carries the call's serial number, so each call's closure is distinct, as the source's arrow functions are. `Add` accepts such a token only once `onEvent` has made it, since the closure never leaves `onEvent`.
- Utils.Destructors.Cleanup: destructors other than a child's `destroy` are opaque tokens reported as invoked. Their effects are not modelled, and neither is the order of `Set` iteration. `invoked` is a set, so a function registered both here and in a child is reported once, though the source calls it once from each registry.
- PropertyWrappers: callbacks are tokens. Calling them, and the closures that `abstractOnChange` creates, are modelled by `SetValue` returning the callbacks it calls and by `AbstractOnChange.Notify`.
- PropertyWrappers: `readProp`, `writeProp`, `readWriteProp`, `readNumberProp` and `readWriteNumberProp` are not modelled. They depend on JSON pointers into the network state.
- Selection: the event emitter is an appended list of events. `filterObject` is a parameter of the container.
- Selection.SelectionContainer.SetViewFilter: requires that the container was built with a view filter. Without one there is nothing to change.
- Driver: only the two endpoint strings are modelled. Connection management, rooms and the admin, space and ship drivers are network I/O.
- Reactors: the `@range`, `@tweakable` and `@defectible` decorators are modelled as the `InDeclaredRanges` predicate and the normal efficiency constant. The system's shared `SystemState` fields are not modelled.
- Numbers are modelled as unbounded reals. Floating-point rounding, `NaN` (except in `setVelocity`) and the `uint16` and `float32` wire encodings are not modelled.

## Findings

| source | as written | input that shows it | evidently intended | confidence | as-written member | corrected member |
|---|---|---|---|---|---|---|
| modules/browser/src/property-wrappers.ts:56-61 | the unsubscribe function returned by `onChange` runs `callbacks.splice(callbacks.indexOf(cb), 1)` without checking that `cb` is still registered | two subscribers A then B; call A's unsubscribe twice. The second call finds `indexOf` = -1, and `splice(-1, 1)` removes B | calling an unsubscribe function again does nothing once its callback is gone | high (not executed) | PropertyWrappers.UnsubscribeTwiceDropsAnother | PropertyWrappers.UnsubscribedTwiceIsOnce |
