# Survivor: a verified model of the gameplay core

Survivor is a Unity DOTS game: the player's avatar moves through waves of
enemies, and abilities fire projectiles and damage zones. This project
models, in Dafny, the systems that decide the game's state frame after
frame:

- the 16-bit custom ids (`AbilityId`, `EnemyTypeId`, `VfxId`) and the
  editor's first-fit generator of new ids;
- the damage components and the damage-dealer baker;
- the damage pipeline of one frame. Damage receivers are fetched,
  `ComputeDamagesJob` fills the damages multimap, and `HealthSystem`
  subtracts the recorded damages from the hit points;
- projectile launching, with its nearest-target search;
- both versions of the enemy spawner system;
- ability instantiation;
- both versions of the damage number effect: digit layout, rising and expiry;
- the collision-layer masks and the vfx prefab settings lookup.

Every job writes to an entity command buffer. The buffer is modelled as the
sequence of commands it records (`Ecs.CommandBuffer.commands`). An entity
that a command creates is referred to by that command's position in the
buffer (`Deferred(k)`). Each job method is proved against a pure function
that gives the complete sequence of commands it records and the complete new
state it leaves, and lemmas about those functions state what the game relies
on.

Engine services are parameters:

- component lookups (`typeOf`, `idOf`, `isAvatar`, the collision matrix);
- the camera;
- the random generator, as a stream of values indexed by seed and draw.

Numbers are mathematical reals and integers. Where the source narrows a
value (the `ushort` hit points, the `uint` seed, the 32-bit shift count),
the narrowing is written out.

The model keeps these behaviours of the code as written:

- A digit child's material index is `damages / 10^(n-1-i)`, not the i-th
  digit. Only the first child gets a single digit, and the last child gets
  the whole value (`DamageNumberLayout.MaterialIndicesAreDigitsIffOneDigit`).
- Digit offsets run from `-(n-1) * 0.5` to `0`. The number therefore ends
  at its root's position rather than being centred on it.
- Every ability instance ends up twice in its owner's `OwnedAbility` buffer
  once the commands are played back. The job adds the placeholder directly,
  and playback never remaps it; a recorded `AppendToBuffer` adds the created
  entity (see Findings).
- `GetNext` already gives `Invalid` after 65533, so 65534 is never generated.

## Model

| member | source | states |
|---|---|---|
| CustomIds.CompareValues | Assets/Scripts/Runtime/Ability/AbilityId.cs:106-109 | the sign of the comparison is the order of the two ushort values, in all three directions |
| CustomIds.FirstFitIsUnique | Assets/Scripts/Editor/Ability/AbilityIdDrawer.cs:17-39 | the first-fit result of the id generator is determined by the set of used ids |
| CustomIds.FirstFitNeverMax | Assets/Scripts/Editor/Ability/AbilityIdDrawer.cs:22-31 | the generator never yields the maximum id 65534, because the walk stops one short of it |
| AbilityIds.AbilityId.GetMinId | Assets/Scripts/Runtime/Ability/AbilityId.cs:91-94 | the minimum id is valid and no valid id is smaller |
| AbilityIds.AbilityId.GetMaxId | Assets/Scripts/Runtime/Ability/AbilityId.cs:96-99 | the maximum id is valid and no valid id is larger |
| AbilityIds.AbilityId.Equals | Assets/Scripts/Runtime/Ability/AbilityId.cs:21-24 | two ids are equal exactly when they are the same value |
| AbilityIds.AbilityId.NotEquals | Assets/Scripts/Runtime/Ability/AbilityId.cs:41-44 | `!=` holds exactly when the values differ |
| AbilityIds.AbilityId.IsValid | Assets/Scripts/Runtime/Ability/AbilityId.cs:46-49 | `Invalid` (65535) is the only invalid id |
| AbilityIds.AbilityId.GetNext | Assets/Scripts/Runtime/Ability/AbilityId.cs:51-64 | an invalid id stays invalid; a valid id steps by one while below the maximum and becomes `Invalid` at the bound; the result is never the maximum id |
| AbilityIds.AbilityId.SetFromInt | Assets/Scripts/Runtime/Ability/AbilityId.cs:71-83 | integers in 0..65534 are kept as they are and every other integer gives `Invalid`; the result is valid exactly for 0..65534 |
| AbilityIds.AbilityId.SetInvalid | Assets/Scripts/Runtime/Ability/AbilityId.cs:85-89 | the result is `Invalid` and is not valid |
| AbilityIds.AbilityId.CompareTo | Assets/Scripts/Runtime/Ability/AbilityId.cs:106-109 | the sign of the result orders the ids, and 0 means equal |
| AbilityIds.SetFromIntRoundTrip | Assets/Scripts/Runtime/Ability/AbilityId.cs:71-83 | `SetFromInt(n).ToInt() == n` exactly for 0..65535 |
| EnemyTypeIds.EnemyTypeId.GetMinId | Assets/Scripts/Runtime/Character/EnemyTypeId.cs:94-97 | the minimum id is valid and no valid id is smaller |
| EnemyTypeIds.EnemyTypeId.GetMaxId | Assets/Scripts/Runtime/Character/EnemyTypeId.cs:99-102 | the maximum id is valid and no valid id is larger |
| EnemyTypeIds.EnemyTypeId.Equals | Assets/Scripts/Runtime/Character/EnemyTypeId.cs:24-27 | two ids are equal exactly when they are the same value |
| EnemyTypeIds.EnemyTypeId.NotEquals | Assets/Scripts/Runtime/Character/EnemyTypeId.cs:44-47 | `!=` holds exactly when the values differ |
| EnemyTypeIds.EnemyTypeId.IsValid | Assets/Scripts/Runtime/Character/EnemyTypeId.cs:49-52 | `Invalid` (65535) is the only invalid id |
| EnemyTypeIds.EnemyTypeId.GetNext | Assets/Scripts/Runtime/Character/EnemyTypeId.cs:54-67 | an invalid id stays invalid; a valid id steps by one below the bound and becomes `Invalid` at it; the result is never the maximum id |
| EnemyTypeIds.EnemyTypeId.SetFromInt | Assets/Scripts/Runtime/Character/EnemyTypeId.cs:74-86 | in-range integers are kept and every other integer gives `Invalid` |
| EnemyTypeIds.EnemyTypeId.SetInvalid | Assets/Scripts/Runtime/Character/EnemyTypeId.cs:88-92 | the result is `Invalid` and is not valid |
| EnemyTypeIds.EnemyTypeId.CompareTo | Assets/Scripts/Runtime/Character/EnemyTypeId.cs:109-112 | the sign of the result orders the ids, and 0 means equal |
| EnemyTypeIds.SetFromIntRoundTrip | Assets/Scripts/Runtime/Character/EnemyTypeId.cs:74-86 | `SetFromInt(n).ToInt() == n` exactly for 0..65535 |
| VfxIds.VfxId.GetMinId | Assets/Scripts/Runtime/Vfx/Settings/VfxPrefabSettings.cs:99-102 | the minimum id is valid and no valid id is smaller |
| VfxIds.VfxId.GetMaxId | Assets/Scripts/Runtime/Vfx/Settings/VfxPrefabSettings.cs:104-107 | the maximum id is valid and no valid id is larger |
| VfxIds.VfxId.Equals | Assets/Scripts/Runtime/Vfx/Settings/VfxPrefabSettings.cs:29-32 | two ids are equal exactly when they are the same value |
| VfxIds.VfxId.NotEquals | Assets/Scripts/Runtime/Vfx/Settings/VfxPrefabSettings.cs:49-52 | `!=` holds exactly when the values differ |
| VfxIds.VfxId.IsValid | Assets/Scripts/Runtime/Vfx/Settings/VfxPrefabSettings.cs:54-57 | `Invalid` (65535) is the only invalid id |
| VfxIds.VfxId.GetNext | Assets/Scripts/Runtime/Vfx/Settings/VfxPrefabSettings.cs:59-72 | an invalid id stays invalid; a valid id steps by one below the bound and becomes `Invalid` at it; the result is never the maximum id |
| VfxIds.VfxId.SetFromInt | Assets/Scripts/Runtime/Vfx/Settings/VfxPrefabSettings.cs:79-91 | in-range integers are kept and every other integer gives `Invalid` |
| VfxIds.VfxId.SetInvalid | Assets/Scripts/Runtime/Vfx/Settings/VfxPrefabSettings.cs:93-97 | the result is `Invalid` and is not valid |
| VfxIds.VfxId.CompareTo | Assets/Scripts/Runtime/Vfx/Settings/VfxPrefabSettings.cs:114-117 | the sign of the result orders the ids, and 0 means equal |
| VfxIds.SetFromIntRoundTrip | Assets/Scripts/Runtime/Vfx/Settings/VfxPrefabSettings.cs:79-91 | `SetFromInt(n).ToInt() == n` exactly for 0..65535 |
| AbilityIdDrawer.UsedValuesMembership | Assets/Scripts/Editor/Ability/AbilityIdDrawer.cs:22-31 | an id is among the used ids exactly when its value is among the used values |
| AbilityIdDrawer.IsValueValid | Assets/Scripts/Editor/Ability/AbilityIdDrawer.cs:12-15 | a value is accepted exactly when it lies in 0..65534 |
| AbilityIdDrawer.GenerateAvailableId | Assets/Scripts/Editor/Ability/AbilityIdDrawer.cs:17-39 | the result is the least unused candidate id, or `Invalid` when every candidate is used; a valid result is never among the used ids and is never the maximum id |
| EnemyTypeIdDrawer.UsedValuesMembership | Assets/Scripts/Editor/Character/EnemyTypeIdDrawer.cs:22-31 | an id is among the used ids exactly when its value is among the used values |
| EnemyTypeIdDrawer.IsValueValid | Assets/Scripts/Editor/Character/EnemyTypeIdDrawer.cs:12-15 | a value is accepted exactly when it lies in 0..65534 |
| EnemyTypeIdDrawer.GenerateAvailableId | Assets/Scripts/Editor/Character/EnemyTypeIdDrawer.cs:17-39 | the least unused candidate id, or `Invalid` when every candidate is used |
| VfxIdDrawer.UsedValuesMembership | Assets/Scripts/Editor/Vfx/Settings/VfxIdDrawer.cs:30-39 | an id is among the used ids exactly when its value is among the used values |
| VfxIdDrawer.IsValueValid | Assets/Scripts/Editor/Vfx/Settings/VfxIdDrawer.cs:20-23 | a value is accepted exactly when it lies in 0..65534 |
| VfxIdDrawer.GenerateAvailableId | Assets/Scripts/Editor/Vfx/Settings/VfxIdDrawer.cs:25-47 | the least unused candidate id, or `Invalid` when every candidate is used |
| PhysicsUtilities.LayerToMask | Assets/Scripts/Runtime/Physics/PhysicsUtilities.cs:12-15 | exactly one bit is set, at the layer index taken modulo 32 (the 32-bit shift-count rule) |
| PhysicsUtilities.BuildCollidesWithMask | Assets/Scripts/Runtime/Physics/PhysicsUtilities.cs:18-32 | bit `other` is set exactly when the collision matrix does not ignore collisions between `layer` and `other`, for all 32 layers |
| PhysicsUtilities.BuildFilterWithCollisionMatrix | Assets/Scripts/Runtime/Physics/PhysicsUtilities.cs:34-42 | the filter belongs to the one layer, collides with exactly the layers the matrix does not ignore, and has group 0 |
| PhysicsUtilities.BuildFilter | Assets/Scripts/Runtime/Physics/PhysicsUtilities.cs:44-52 | the filter belongs to and collides with exactly the one layer, with group 0 |
| PhysicsUtilities.BuildFilterForRaycast | Assets/Scripts/Runtime/Physics/PhysicsUtilities.cs:54-62 | the filter belongs to every layer, collides with exactly the given layer, and has group 0 |
| DamagesComponents.FlagsAreIndependent | Assets/Scripts/Runtime/Lifecycle/DamagesComponents.cs:6-12 | the flags are 1, 2 and 4, so setting one leaves the test of each other flag unchanged |
| DamagesComponents.DamageCooldown.OnDamagesDone | Assets/Scripts/Runtime/Lifecycle/DamagesComponents.cs:42-49 | the cooldown restarts at the given time, keeps its duration, and is not over at that moment |
| DamagesComponents.CooldownOverIsMonotone | Assets/Scripts/Runtime/Lifecycle/DamagesComponents.cs:37-40 | once a cooldown is over, it stays over at every later time |
| DamagesComponents.OnDamagesDoneIsIdempotent | Assets/Scripts/Runtime/Lifecycle/DamagesComponents.cs:42-49 | restarting a cooldown twice at the same time is the same as restarting it once |
| DamageDealerAuthoring.DamageCooldown.OnDamagesDone | Assets/Scripts/Runtime/Lifecycle/DamageDealerAuthoring.cs:43-50 | the second copy of the cooldown restarts at the given time with its duration kept |
| DamageDealerAuthoring.CooldownCopiesAgree | Assets/Scripts/Runtime/Lifecycle/DamageDealerAuthoring.cs:38-50 | the cooldown declared in the authoring file behaves exactly like the one in DamagesComponents.cs |
| DamageDealerAuthoring.Clamp | Assets/Scripts/Runtime/Lifecycle/DamageDealerAuthoring.cs:95 | the result lies in [min, max], and an in-range value is unchanged |
| DamageDealerAuthoring.DamageDealerAuthoring.constructor | Assets/Scripts/Runtime/Lifecycle/DamageDealerAuthoring.cs:86-91 | the inspector defaults: damage the enemies, destroy on damage, zone radius 1, cooldown 0.5 |
| DamageDealerAuthoring.DamageDealerAuthoring.OnValidate | Assets/Scripts/Runtime/Lifecycle/DamageDealerAuthoring.cs:93-96 | damages end in 1..65535: 0 becomes 1 and every other value is kept |
| DamageDealerAuthoring.DamageDealerAuthoring.Bake | Assets/Scripts/Runtime/Lifecycle/DamageDealerAuthoring.cs:100-115 | the dealer component carrying the damages comes first, followed by the tag of the side it damages |
| DamageDealerAuthoring.BakeMembership | Assets/Scripts/Runtime/Lifecycle/DamageDealerAuthoring.cs:104-137 | a component is baked exactly when it is the dealer component, the tag of the side to damage, or a component of a flag that is set |
| DamageDealerAuthoring.BakeContents | Assets/Scripts/Runtime/Lifecycle/DamageDealerAuthoring.cs:108-137 | exactly one side tag, chosen by `DamagePlayer`; `DestroyOnDamage` appears exactly when its flag is set; the zone and its cooldown appear only with the sphere flag and both appear when it is set; a targeted component appears exactly when its flag is set and its target is `Entity.Null` |
| DamagesSystem.CeilPow2 | Assets/Scripts/Runtime/Lifecycle/DamagesSystem.cs:73 | for n > 0 the least power of two at or above n (n <= r < 2n), and 0 for 0 |
| DamagesSystem.DamageReceiversContainer.constructor | Assets/Scripts/Runtime/Lifecycle/DamagesSystem.cs:89-105 | an empty enemy list with capacity `ceilpow2(MAX_ENEMIES)` and a default player reference |
| DamagesSystem.DamageReceiversContainer.EnsureCapacity | Assets/Scripts/Runtime/Lifecycle/DamagesSystem.cs:68-75 | afterwards the capacity covers the count; nothing changes when it already did, otherwise the list is resized to `ceilpow2(count)`, keeping its old elements as a prefix |
| DamagesSystem.DamageReceiversContainer.Clear | Assets/Scripts/Runtime/Lifecycle/DamagesSystem.cs:125 | the enemy list is emptied and the capacity is kept |
| DamagesSystem.DamageReceiversContainer.AddNoResize | Assets/Scripts/Runtime/Lifecycle/DamagesSystem.cs:144-147 | appends one receiver and requires free room, as the parallel writer does |
| DamagesSystem.EnemyReceivers | Assets/Scripts/Runtime/Lifecycle/DamagesSystem.cs:138-148 | every fetched receiver comes from an enemy of the query, and every enemy of the query is fetched |
| DamagesSystem.PlayerReceiver | Assets/Scripts/Runtime/Lifecycle/DamagesSystem.cs:150-160 | the reference holds the data of the last avatar in the query, or keeps its previous value when the query has no avatar |
| DamagesSystem.FetcherOnUpdate | Assets/Scripts/Runtime/Lifecycle/DamagesSystem.cs:119-136 | after the update the list holds exactly this frame's enemy receivers, within its capacity, and the player reference is refreshed |
| DamagesSystem.DamagesContainer.constructor | Assets/Scripts/Runtime/Lifecycle/DamagesSystem.cs:185-186 | an empty multimap with the given capacity |
| DamagesSystem.DamagesContainer.Add | Assets/Scripts/Runtime/Lifecycle/DamagesSystem.cs:330 | adds one (key, value) pair to the multimap |
| DamagesSystem.ValuesFor | Assets/Scripts/Runtime/Lifecycle/HealthSystem.cs:43-50 | a value is returned for a key as many times as the pair (key, value) occurs in the multimap |
| DamagesSystem.EnemyHits | Assets/Scripts/Runtime/Lifecycle/DamagesSystem.cs:314-332 | a dealer never hits more receivers than exist (membership is stated by EnemyHitsMembership) |
| DamagesSystem.EnemyEntries | Assets/Scripts/Runtime/Lifecycle/DamagesSystem.cs:330 | one entry per hit receiver, keyed by its entity, carrying its position and the dealer's damages |
| DamagesSystem.NextCooldown | Assets/Scripts/Runtime/Lifecycle/DamagesSystem.cs:374-386 | a cooldown that is over restarts at the current time; one that is not over is left unchanged |
| DamagesSystem.NextCooldowns | Assets/Scripts/Runtime/Lifecycle/DamagesSystem.cs:303-306 | a dealer whose cooldown is over restarts it at the elapsed time and keeps its duration; every other dealer keeps its cooldown unchanged |
| DamagesSystem.ConsumeCooldown | Assets/Scripts/Runtime/Lifecycle/DamagesSystem.cs:374-386 | reports whether cooldown `i` was over and restarts it in place if so; every other cooldown is untouched |
| DamagesSystem.HitEnemy | Assets/Scripts/Runtime/Lifecycle/DamagesSystem.cs:314-330 | for one receiver: an entry is added exactly when the dealer may hit it (the target filter and the reach test), at the receiver's position with the dealer's damages |
| DamagesSystem.HitEnemies | Assets/Scripts/Runtime/Lifecycle/DamagesSystem.cs:312-332 | appends exactly the entries of the receivers the dealer may hit, and reports whether there was any |
| DamagesSystem.DealDamages | Assets/Scripts/Runtime/Lifecycle/DamagesSystem.cs:308-370 | appends the dealer's entries and records its commands, on the enemy side or on the player side |
| DamagesSystem.ComputeDealer | Assets/Scripts/Runtime/Lifecycle/DamagesSystem.cs:303-306 | one dealer: its cooldown is restarted when over and left alone otherwise, and it adds its entries and commands only when let through |
| DamagesSystem.ComputeDamages | Assets/Scripts/Runtime/Lifecycle/DamagesSystem.cs:280-372 | for a chunk: entries and commands dealer after dealer, and the new cooldowns when the chunk has them |
| DamagesSystem.EnemyHitsMembership | Assets/Scripts/Runtime/Lifecycle/DamagesSystem.cs:314-332 | a receiver is hit exactly when it is present, passes the target filter and is within hit-box plus zone radius |
| DamagesSystem.EnemySideEntries | Assets/Scripts/Runtime/Lifecycle/DamagesSystem.cs:299-339 | on the enemy side, the entry (key, data) is added exactly when the cooldown let the dealer through and a reachable receiver with that entity and position exists, the data carrying the dealer's damages |
| DamagesSystem.TargetedDealerHitsOnlyItsTarget | Assets/Scripts/Runtime/Lifecycle/DamagesSystem.cs:316-320 | a targeted dealer adds entries only for its target |
| DamagesSystem.PlayerSideEntries | Assets/Scripts/Runtime/Lifecycle/DamagesSystem.cs:343-370 | on the player side there is at most one entry, present exactly when the dealer is active and reaches the player; it is keyed by the player and placed at the dealer's position |
| DamagesSystem.DestructionOnlyAfterHit | Assets/Scripts/Runtime/Lifecycle/DamagesSystem.cs:334-338 | a dealer records a command exactly when it has `DestroyOnDamage` and has just added damages; that command destroys it (enemy side) or adds `PendingDestruction` (player side) |
| DamagesSystem.CoolingDownChunkDoesNothing | Assets/Scripts/Runtime/Lifecycle/DamagesSystem.cs:303-306 | a chunk whose dealers are all cooling down adds no damages and records no command |
| DamagesSystem.ChunkCommandsFollowHits | Assets/Scripts/Runtime/Lifecycle/DamagesSystem.cs:334-338 | every command of a chunk is the destruction of one of its own dealers that added damages in this run |
| DamagesSystem.NewCapacityAsWritten | Assets/Scripts/Runtime/Lifecycle/DamagesSystem.cs:213-216 | the capacity as written: the test is on receivers + 1, but the new size comes from dealers + 1 |
| DamagesSystem.CapacityAsWrittenEndsBelowGuard | Assets/Scripts/Runtime/Lifecycle/DamagesSystem.cs:213-216 | starting from 128, with 200 receivers and 1 dealer, the map is shrunk to 2, below the 201 the guard asked for |
| DamagesSystem.NewCapacity | Assets/Scripts/Runtime/Lifecycle/DamagesSystem.cs:213-216 | the corrected capacity always covers receivers + 1; it is kept when large enough, otherwise the least power of two at or above it |
| DamagesSystem.OnUpdate | Assets/Scripts/Runtime/Lifecycle/DamagesSystem.cs:207-239 | afterwards the multimap holds exactly this frame's entries from every chunk, the commands are those of every chunk, every chunk's cooldowns are advanced exactly when the chunk has them, and the capacity is the corrected one |
| HealthSystem.SaturatingSub | Assets/Scripts/Runtime/Lifecycle/HealthSystem.cs:46 | hit points never increase; a non-zero result is the exact difference; 0 means the damages covered the hit points |
| HealthSystem.HitPointsAfter | Assets/Scripts/Runtime/Lifecycle/HealthSystem.cs:43-50 | saturating at each step loses nothing: the result is the start minus the total of the damages, or 0 |
| HealthSystem.TotalDamagesRemove | Assets/Scripts/Runtime/Lifecycle/HealthSystem.cs:47-50 | removing one value takes exactly its damages off the total |
| HealthSystem.TotalDamagesPermutation | Assets/Scripts/Runtime/Lifecycle/HealthSystem.cs:47-50 | the total of the damages does not depend on their order |
| HealthSystem.HitPointsAfterIsOrderIndependent | Assets/Scripts/Runtime/Lifecycle/HealthSystem.cs:43-50 | the hit points left are the same for every order the multimap may return the values in |
| HealthSystem.UpdateHealth | Assets/Scripts/Runtime/Lifecycle/HealthSystem.cs:41-57 | the entity loses every damage recorded for it, saturating at 0, and an entity with no damages is unchanged |
| HealthSystem.OnUpdate | Assets/Scripts/Runtime/Lifecycle/HealthSystem.cs:25-33 | every health component loses the damages recorded for its own entity, and hit-box radii are kept |
| ProjectilesLaunchingSystem.NearestEnemy | Assets/Scripts/Runtime/Projectiles/ProjectilesLaunchingSystem.cs:84-94 | no enemy is found exactly when none is in range; a found enemy is in range, strictly nearer than every eligible enemy before it, and no farther than every eligible enemy after it |
| ProjectilesLaunchingSystem.NearestIsUnique | Assets/Scripts/Runtime/Projectiles/ProjectilesLaunchingSystem.cs:84-94 | the nearest enemy defined that way is unique |
| ProjectilesLaunchingSystem.FindNearestEnemy | Assets/Scripts/Runtime/Projectiles/ProjectilesLaunchingSystem.cs:84-94 | the loop ends with the nearest enemy's entity and position, or with `Entity.Null` and zero when no enemy is in range |
| ProjectilesLaunchingSystem.TargetFor | Assets/Scripts/Runtime/Projectiles/ProjectilesLaunchingSystem.cs:67-95 | an enemy owner targets the player exactly when the player is in range; the player targets an enemy exactly when some enemy is in range, and then the nearest one; otherwise there is no target |
| ProjectilesLaunchingSystem.LaunchCommands | Assets/Scripts/Runtime/Projectiles/ProjectilesLaunchingSystem.cs:100-123 | one instantiation of the prefab, then three commands on that projectile: the tag of the opposite side, the start position 0.5 above the owner, and the velocity toward the target |
| ProjectilesLaunchingSystem.LaunchProjectiles | Assets/Scripts/Runtime/Projectiles/ProjectilesLaunchingSystem.cs:62-128 | a projectile is launched, and the launch time recorded, exactly when the interval has elapsed and a target exists; otherwise nothing changes |
| ProjectilesLaunchingSystem.TargetIgnoresOtherSide | Assets/Scripts/Runtime/Projectiles/ProjectilesLaunchingSystem.cs:71-94 | an enemy owner's target does not depend on the enemies, and the player's target does not depend on the player receiver |
| EnemySpawners.SeededRandom | Assets/Scripts/Runtime/Enemy/EnemySpawnSystem.cs:91 | the seed is `entity.Index * 1000` wrapped to 32 bits, and the generator has drawn nothing yet |
| EnemySpawners.FractionBetween | Assets/Scripts/Runtime/Enemy/EnemySpawnSystem.cs:154-159 | `min + u * (max - min)` for `u` in [0, 1) lies in [min, max), or equals `min` when the bounds coincide |
| EnemySpawners.NextFloat | Assets/Scripts/Runtime/Enemy/EnemySpawnSystem.cs:157 | a draw advances the generator by one and lies within the bounds |
| EnemySpawners.UpdateSpawnData | Assets/Scripts/Runtime/Enemy/EnemySpawnSystem.cs:154-159 | the next delay lies within the spawn interval, the time is recorded, one value is drawn, and everything else is kept |
| EnemySpawners.FindEnemyPrefab | Assets/Scripts/Runtime/Enemy/EnemySpawnSystem.cs:101-110 | the first prefab of the requested enemy type, or `Entity.Null` when there is none |
| EnemySpawners.SpawnPlacement | Assets/Scripts/Runtime/Enemy/EnemySpawnSystem.cs:116-125 | three values are drawn, and the enemy faces a direction flattened onto the ground, with up kept upward |
| EnemySpawners.SpawnOffsetIsHorizontalWithinRadius | Assets/Scripts/Runtime/Enemy/EnemySpawnSystem.cs:116-119 | the enemy spawns level with the spawner and no farther from it than the spawn radius |
| EnemySpawnSystem.NextSpawner | Assets/Scripts/Runtime/Enemy/EnemySpawnSystem.cs:83-152 | the first run only seeds the spawner and draws its delay; a due spawn with a prefab records the time and draws four values; otherwise the spawner is unchanged; a new delay lies within the interval |
| EnemySpawnSystem.SpawnCommands | Assets/Scripts/Runtime/Enemy/EnemySpawnSystem.cs:112-143 | a spawn is recorded exactly when it is not the first run, the spawn is due and a prefab exists: one instantiation of a prefab of the spawner's type, its transform, and the cast colliders of that type |
| EnemySpawnSystem.SpawnedEnemyIsHorizontalWithinRadius | Assets/Scripts/Runtime/Enemy/EnemySpawnSystem.cs:115-132 | the recorded transform puts the spawned enemy level with its spawner, no farther than the spawn radius, facing a horizontal direction |
| EnemySpawnSystem.SpawnEnemiesFromSpawners | Assets/Scripts/Runtime/Enemy/EnemySpawnSystem.cs:83-152 | the job leaves the spawner as NextSpawner says and records SpawnCommands |
| EnemySpawnSystem.OnUpdate | Assets/Scripts/Runtime/Enemy/EnemySpawnSystem.cs:28-50 | nothing happens at or above 600 enemies; below that every spawner is advanced and its spawn recorded in order |
| LegacyEnemySpawnSystem.NextSpawner | Assets/Scripts/Runtime/Lifecycle/EnemySpawnSystem.cs:70-130 | the same state machine as the newer system |
| LegacyEnemySpawnSystem.SpawnCommands | Assets/Scripts/Runtime/Lifecycle/EnemySpawnSystem.cs:99-121 | a spawn is recorded exactly when it is due and a prefab exists: an instantiation of a prefab of the spawner's type and its transform, with no colliders |
| LegacyEnemySpawnSystem.SpawnedEnemyIsHorizontalWithinRadius | Assets/Scripts/Runtime/Lifecycle/EnemySpawnSystem.cs:102-120 | the recorded transform puts the spawned enemy level with its spawner, no farther than the spawn radius, facing a horizontal direction |
| LegacyEnemySpawnSystem.SpawnEnemiesFromSpawners | Assets/Scripts/Runtime/Lifecycle/EnemySpawnSystem.cs:70-130 | the job leaves the spawner as NextSpawner says and records SpawnCommands |
| LegacyEnemySpawnSystem.OnUpdate | Assets/Scripts/Runtime/Lifecycle/EnemySpawnSystem.cs:20-41 | nothing happens at or above 300 enemies; below that every spawner runs in order |
| AbilitiesInitializationSystem.AbilityCommands | Assets/Scripts/Runtime/Ability/AbilitiesInitializationSystem.cs:82-121 | nine commands per instance, the first of them the instantiation of the prefab |
| AbilitiesInitializationSystem.AbilityCommandsContents | Assets/Scripts/Runtime/Ability/AbilitiesInitializationSystem.cs:82-121 | only the first command creates an entity; the damage tag follows the owner's side and the other tag is absent; the instance is parented to the owner, recorded in its `OwnedAbility` and `LinkedEntityGroup` buffers, and given the pending id and the owner |
| AbilitiesInitializationSystem.FindAbilityPrefab | Assets/Scripts/Runtime/Ability/AbilitiesInitializationSystem.cs:78-83 | the position of the first prefab that carries the pending id, or none |
| AbilitiesInitializationSystem.RecordAbility | Assets/Scripts/Runtime/Ability/AbilitiesInitializationSystem.cs:82-121 | records the instance's nine commands and, as the source does, adds the instance's placeholder to the owned buffer directly (see Findings) |
| AbilitiesInitializationSystem.RecordAbilityListsInstanceTwice | Assets/Scripts/Runtime/Ability/AbilitiesInitializationSystem.cs:82-107 | after playback of one recorded instance, the owner's `OwnedAbility` buffer holds the placeholder added directly and then the created entity |
| AbilitiesInitializationSystem.RecordAbilityOnce | Assets/Scripts/Runtime/Ability/AbilitiesInitializationSystem.cs:82-121 | the corrected step records the same nine commands and writes nothing to the owned buffer directly |
| AbilitiesInitializationSystem.RecordedOnceAfterPlayback | Assets/Scripts/Runtime/Ability/AbilitiesInitializationSystem.cs:103-106 | after playback of one instance's commands, the owner's `OwnedAbility` buffer gains that instance once, as the entity its `Instantiate` created |
| AbilitiesInitializationSystem.InstantiateAbility | Assets/Scripts/Runtime/Ability/AbilitiesInitializationSystem.cs:69-130 | one instance per pending id that has a prefab, in pending order; then the pending buffer is cleared and switched off |
| AbilitiesInitializationSystem.InstancesCount | Assets/Scripts/Runtime/Ability/AbilitiesInitializationSystem.cs:75-126 | exactly one instance per pending id that some prefab carries and none for the others, nine commands each, and no commands at all when no pending id has a prefab |
| AbilitiesInitializationSystem.InstancesAreRecorded | Assets/Scripts/Runtime/Ability/AbilitiesInitializationSystem.cs:84-119 | every instance is appended to the owner's `OwnedAbility` buffer by a command, parented to the owner, linked to it, and given one of the pending ids |
| AbilitiesInitializationSystem.InstancesAreInstantiations | Assets/Scripts/Runtime/Ability/AbilitiesInitializationSystem.cs:78-83 | every instance is created after the earlier commands by an instantiation of one of the ability prefabs; instances come in the order of their commands; the earlier commands are kept |
| AbilitiesInitializationSystem.InstancesFromPending | Assets/Scripts/Runtime/Ability/AbilitiesInitializationSystem.cs:74-112 | every instance comes from a pending id: its command instantiates the first prefab whose id is that pending id, and its `AbilityComponent` carries that id and the owner |
| AbilitiesInitializationSystem.PlaybackAppendsInstances | Assets/Scripts/Runtime/Ability/AbilitiesInitializationSystem.cs:74-121 | playback of one owner's job appends each instance to its `OwnedAbility` buffer once, as the created entity, in pending order |
| AbilitiesInitializationSystem.JobListsInstancesTwice | Assets/Scripts/Runtime/Ability/AbilitiesInitializationSystem.cs:68-126 | once the job as written is played back, the owner's `OwnedAbility` buffer holds every instance twice: first all the placeholders, which are never remapped, then all the created entities |
| AbilitiesInitializationSystem.OnUpdate | Assets/Scripts/Runtime/Ability/AbilitiesInitializationSystem.cs:33-53 | nothing happens when no entity has pending abilities; otherwise each owner's job runs in turn, every pending buffer ends empty, and each owner's `OwnedAbility` buffer gains exactly the instances of its own job |
| DamageNumberLayout.Pow10Monotone | Assets/Scripts/Runtime/Vfx/DamageNumberVfx/DamageNumberVfxSystem.cs:161 | powers of ten grow with the exponent |
| DamageNumberLayout.DigitCount | Assets/Scripts/Runtime/Vfx/DamageNumberVfx/DamageNumberVfxSystem.cs:147 | for damages >= 1, the n with 10^(n-1) <= damages < 10^n, and 0 for 0 damages |
| DamageNumberLayout.DigitCountIsUnique | Assets/Scripts/Runtime/Vfx/DamageNumberVfx/DamageNumberVfxSystem.cs:147 | the digit count is the only n that brackets the damages between two powers of ten |
| DamageNumberLayout.FirstAndLastMaterialIndex | Assets/Scripts/Runtime/Vfx/DamageNumberVfx/DamageNumberVfxSystem.cs:161-162 | the first digit child gets the leading digit (1..9) and the last gets the whole value |
| DamageNumberLayout.MaterialIndexAppendsDigit | Assets/Scripts/Runtime/Vfx/DamageNumberVfx/DamageNumberVfxSystem.cs:161 | each child's index is the previous child's index with one more digit appended |
| DamageNumberLayout.MaterialIndicesAreDigitsIffOneDigit | Assets/Scripts/Runtime/Vfx/DamageNumberVfx/DamageNumberVfxSystem.cs:161-162 | every material index is a single digit exactly when the damages have one digit |
| DamageNumberLayout.ChildOffsetsEndAtRoot | Assets/Scripts/Runtime/Vfx/DamageNumberVfx/DamageNumberVfxSystem.cs:148-164 | the digits are 0.5 apart, the first at -(n-1)*0.5 and the last at 0, all of them within that range |
| DamageNumberLayout.DigitCommands | Assets/Scripts/Runtime/Vfx/DamageNumberVfx/DamageNumberVfxSystem.cs:153-162 | the four commands of one digit, the first of them the instantiation of the digit prefab |
| DamageNumberLayout.DigitsCommandsPrefix | Assets/Scripts/Runtime/Vfx/DamageNumberVfx/DamageNumberVfxSystem.cs:151-165 | the commands of the first j children are a prefix of those of the first m: later children only append |
| DamageNumberLayout.DigitBlock | Assets/Scripts/Runtime/Vfx/DamageNumberVfx/DamageNumberVfxSystem.cs:151-165 | child i's four commands sit at positions 4i..4i+3 of the digit commands |
| DamageNumberLayout.NumberCommands | Assets/Scripts/Runtime/Vfx/DamageNumberVfx/DamageNumberVfxSystem.cs:122-165 | four root commands, plus four commands per digit |
| DamageNumberLayout.NumberCommandsLayout | Assets/Scripts/Runtime/Vfx/DamageNumberVfx/DamageNumberVfxSystem.cs:122-165 | the root is created first, with its creation time, its world matrix at the hit position and its transform 3 above it; then, for each digit i, the four commands of that child (instantiated, parented to the root, placed at its offset, given its material index) at positions 4+4i..7+4i |
| DamageNumberLayout.NumberDigitBlock | Assets/Scripts/Runtime/Vfx/DamageNumberVfx/DamageNumberVfxSystem.cs:151-165 | the commands of digit child i follow the root's four commands at positions 4+4i..7+4i |
| DamageNumberLayout.LeadingQuotient | Assets/Scripts/Runtime/Vfx/DamageNumberVfx/DamageNumberVfxSystem.cs:161-162 | a value in [p, 10p) divided by p is a single digit in 1..9: the first child's index |
| DamageNumberLayout.DestroyCommands | Assets/Scripts/Runtime/Vfx/DamageNumberVfx/DamageNumberVfxSystem.cs:194-201 | one destruction for the root and one for each child |
| DamageNumberLayout.DestroyCommandsContents | Assets/Scripts/Runtime/Vfx/DamageNumberVfx/DamageNumberVfxSystem.cs:194-201 | the root is destroyed first and then child j; nothing else is destroyed |
| DamageNumberLayout.ExpiryCommandsDestroyExpired | Assets/Scripts/Runtime/Vfx/DamageNumberVfx/DamageNumberVfxSystem.cs:185-203 | exactly the numbers past their lifetime are destroyed, each with all its digits; nothing is destroyed while every number is still shown |
| DamageNumberLayout.Risen | Assets/Scripts/Runtime/Vfx/DamageNumberVfx/DamageNumberVfxSystem.cs:187-189 | a shown number rises by speed times the frame time, and nothing else about it changes |
| DamageNumberVfxSystem.NumbersFaceCameraForward | Assets/Scripts/Runtime/Vfx/DamageNumberVfx/DamageNumberVfxSystem.cs:122-144 | every number's root is created and placed 3 units above its damage position, with the one rotation `LookRotation(cameraForward, up)` for every number whatever its position |
| DamageNumberVfxSystem.InstantiatedCommandsGrow | Assets/Scripts/Runtime/Vfx/DamageNumberVfx/DamageNumberVfxSystem.cs:118-167 | each entry adds at least four commands, and the earlier commands are kept |
| DamageNumberLayout.InstantiateDigit | Assets/Scripts/Runtime/Vfx/DamageNumberVfx/DamageNumberVfxSystem.cs:152-162 | one digit child: instantiated, parented to the root, placed at its offset, given the digit's material index |
| DamageNumberLayout.InstantiateDigits | Assets/Scripts/Runtime/Vfx/DamageNumberVfx/DamageNumberVfxSystem.cs:145-165 | the digit loop records one child per decimal digit, most significant first, offsets following ChildOffset |
| DamageNumberVfxSystem.InstantiateNumber | Assets/Scripts/Runtime/Vfx/DamageNumberVfx/DamageNumberVfxSystem.cs:122-165 | one entry's loop records exactly the commands of its number, the running offset following ChildOffset |
| DamageNumberVfxSystem.InstantiateNumbersVfx | Assets/Scripts/Runtime/Vfx/DamageNumberVfx/DamageNumberVfxSystem.cs:118-167 | the numbers of every entry, in enumeration order |
| DamageNumberVfxSystem.UpdateVfxNumber | Assets/Scripts/Runtime/Vfx/DamageNumberVfx/DamageNumberVfxSystem.cs:185-203 | within 1 second a number rises and records nothing; after that it keeps its transform and is destroyed with its children |
| DamageNumberVfxSystem.OnUpdate | Assets/Scripts/Runtime/Vfx/DamageNumberVfx/DamageNumberVfxSystem.cs:64-95 | the numbers of every entry are instantiated; every shown number rises and every expired one is destroyed |
| LegacyDamageNumberVfxSystem.NumbersLookFromCamera | Assets/Scripts/Runtime/Vfx/DamageNumberVfxSystem.cs:229-249 | every number's root is created and placed 3 units above its damage position, turned from the camera's position towards that position |
| LegacyDamageNumberVfxSystem.Billboarded | Assets/Scripts/Runtime/Vfx/DamageNumberVfxSystem.cs:290-297 | a shown number rises by speed times the frame time and turns to face the camera from its new position, keeping its scale |
| LegacyDamageNumberVfxSystem.InstantiatedCommandsGrow | Assets/Scripts/Runtime/Vfx/DamageNumberVfxSystem.cs:223-272 | each entry adds at least four commands, and the earlier commands are kept |
| LegacyDamageNumberVfxSystem.InstantiateNumber | Assets/Scripts/Runtime/Vfx/DamageNumberVfxSystem.cs:227-270 | one entry's loop records exactly the commands of its number, the running offset following ChildOffset |
| LegacyDamageNumberVfxSystem.InstantiateNumbersVfx | Assets/Scripts/Runtime/Vfx/DamageNumberVfxSystem.cs:223-272 | the numbers of every entry, in enumeration order |
| LegacyDamageNumberVfxSystem.UpdateVfxNumber | Assets/Scripts/Runtime/Vfx/DamageNumberVfxSystem.cs:288-310 | within 1.5 seconds a number is billboarded and records nothing; after that it is destroyed with its children |
| LegacyDamageNumberVfxSystem.OnUpdate | Assets/Scripts/Runtime/Vfx/DamageNumberVfxSystem.cs:59-106 | numbers are instantiated only when the multimap is not empty; every shown number is billboarded and every expired one destroyed |
| VfxPrefabsSettingsContainer.GetPrefabSettings | Assets/Scripts/Runtime/Vfx/Settings/VfxPrefabsSettingsContainer.cs:22-33 | null exactly when no settings carry the id; otherwise the first settings in the list whose id equals it |
| VfxPrefabsSettingsContainer.GetPrefabSettingsFindsTheId | Assets/Scripts/Runtime/Vfx/Settings/VfxPrefabsSettingsContainer.cs:22-33 | a found settings entry carries exactly the requested id, and an id present in the list is always found |
| Entities.FirstMatch | Assets/Scripts/Runtime/Enemy/EnemySpawnSystem.cs:101-110 | no position exactly when no entity carries the key; otherwise the first position that carries it |
| Basics.DistanceSq | Assets/Scripts/Runtime/Lifecycle/DamagesSystem.cs:388-395 | a squared distance is never negative and is 0 from a point to itself |

## Left out

- `GetHashCode` and `Equals(object)` of the id types are not modelled. Ids are compared by value.
- Editor asset scanning (`GetUsedIds`, `GetIdContainersGuids`) is a parameter, the list of used ids.
- Logging in the drawers and in the spawn job is not modelled.
- Rotations are not computed. `LookRotation`, `LookRotationSafe`, `LookAtRotation` and `normalizesafe` stay symbolic, by their arguments, because square roots and trigonometry are not exact operations here.
- `Unity.Mathematics.Random` is an oracle stream indexed by seed and draw count, so its xorshift steps are not modelled. Its non-zero seed assertion is not modelled.
- Single-precision rounding is not modelled. Coordinates, times and radii are reals: `float` and `double` times (for example `DamageNumberVfx.CreationElaspedTime`) become `real`.
- `DamageNumberLayout.DigitCount` uses integer arithmetic instead of `(int)math.floor(math.log10(damages)) + 1`. For 0 damages the source casts minus infinity to `int`, which C# leaves unspecified. The model gives 0 digits, so no digit child.
- `DamageNumberLayout.Pow10` is the exact power of ten in place of `(int)math.pow`.
- `DamagesSystem.CeilPow2` is taken over unbounded integers. The `int` bit trick overflows past 2^30, and that is not modelled.
- `DamagesSystem.DamageReceiversContainer.EnsureCapacity` fills the resized list with default values in place of uninitialised memory, and its contract promises nothing about those slots.
- Parallel scheduling, parallel writers and sort keys are not modelled. Jobs run chunk after chunk, entity after entity, on one command buffer.
- The legacy number system creates two command buffers on the same end-of-frame system. They are modelled as one, in recording order.
- Multimap capacity overflow on `Add` is not modelled. The multimap's value order is not modelled either; `HealthSystem.HitPointsAfterIsOrderIndependent` shows that the hit points do not depend on it.
- Engine lookups are parameters: the camera transform, the `CastCollidersContainer`, the prefab's `LinkedEntityGroup` entry 1, the `OnStartRunning` prefab lookup and the component lookups.
- Command buffer playback is modelled only for what it appends to an `OwnedAbility` buffer (`Ecs.OwnedAbilityAppends`); the entity that a creating command makes is a parameter (`created`).
- Requirements set up in `OnCreate` (`RequireForUpdate`) become `requires` clauses on `OnUpdate`.
- The update job's query check `CalculateChunkCount() != 0` is modelled as "some number exists".
- `IVfxSettings` and `InitializeVfx` of the vfx prefab settings are not modelled, because they are engine-side asset loading.
- `DamagesSystem.EnemyHits`: its own contract only bounds the length. Which receivers are hit is stated by `DamagesSystem.EnemyHitsMembership`.
- `DamageDealerAuthoring.DamageDealerAuthoring.Bake`: its own contract states only the first two components. The rest is stated by `DamageDealerAuthoring.BakeContents`.

## Findings

| source | as written | input that shows it | evidently intended | confidence | as-written member | corrected member |
|---|---|---|---|---|---|---|
| Assets/Scripts/Runtime/Lifecycle/DamagesSystem.cs:213-216 | the guard tests the capacity against the receivers count + 1, but the new capacity is `ceilpow2` of the dealers count + 1 | a capacity of 128, 200 receivers and 1 dealer: the capacity becomes 2, below the 201 the guard asked for | the new capacity is `ceilpow2` of the count the guard tested, so the map is never left smaller than that count | not executed | DamagesSystem.NewCapacityAsWritten, DamagesSystem.CapacityAsWrittenEndsBelowGuard | DamagesSystem.NewCapacity |
| Assets/Scripts/Runtime/Ability/AbilitiesInitializationSystem.cs:84-87 | the job adds the instance to the owner's `OwnedAbility` buffer directly, and also records an `AppendToBuffer` of it (lines 104-107); the direct entry is the command buffer's placeholder, which playback does not remap | an owner with one pending id that one prefab carries: after playback its buffer holds the placeholder and then the created entity | each instance is recorded once, as the created entity | not executed | AbilitiesInitializationSystem.RecordAbility, AbilitiesInitializationSystem.RecordAbilityListsInstanceTwice, AbilitiesInitializationSystem.JobListsInstancesTwice | AbilitiesInitializationSystem.RecordAbilityOnce, AbilitiesInitializationSystem.RecordedOnceAfterPlayback |

The ability job (`AbilitiesInitializationSystem.InstantiateAbility` and
`OnUpdate`) keeps the step as written, so that its contracts describe the
buffers the source leaves. The corrected step records the same commands, so
`AbilitiesInitializationSystem.PlaybackAppendsInstances` describes the buffer
it leaves after playback.
