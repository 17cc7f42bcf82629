/** `EnemySpawnSystem` (Runtime/Enemy/EnemySpawnSystem.cs): while fewer than
    600 enemies are alive, every spawner is run once per frame. A spawner's
    first run only seeds it; afterwards, once its delay has elapsed, it
    instantiates the first prefab of its enemy type around itself and gives
    it the cast colliders of that type. The `CastCollidersContainer` is a
    parameter, as are the prefab type lookup and the random stream. */
module EnemySpawnSystem {
  import opened Basics
  import opened Entities
  import opened EnemyTypeIds
  import opened Ecs
  import opened EnemySpawners

  /** `MAX_ENEMIES`. */
  const MAX_ENEMIES: int := 600

  /** The spawner after one run of the job. */
  function NextSpawner(spawner: EnemySpawner, entity: Entity, prefabs: seq<Entity>, typeOf: Entity -> EnemyTypeId,
                       stream: RandomStream, spawnerPosition: Float3, currentTime: real): (r: EnemySpawner)
    ensures r.EnemyTypeId == spawner.EnemyTypeId && r.SpawnRadius == spawner.SpawnRadius
    ensures r.SpawnInterval == spawner.SpawnInterval
    ensures IsFirstRun(spawner) ==>
      r.LastSpawnTime == currentTime && r.Random == Advance(SeededRandom(entity))
    ensures !IsFirstRun(spawner) && !(IsSpawnDue(spawner, currentTime) && FoundPrefab(prefabs, typeOf, spawner.EnemyTypeId) != Null) ==>
      r == spawner
    ensures !IsFirstRun(spawner) && IsSpawnDue(spawner, currentTime) && FoundPrefab(prefabs, typeOf, spawner.EnemyTypeId) != Null ==>
      r.LastSpawnTime == currentTime && r.Random == Advance(Advance(Advance(Advance(spawner.Random))))
    ensures (IsFirstRun(spawner) || r != spawner) && spawner.SpawnInterval.x <= spawner.SpawnInterval.y ==>
      spawner.SpawnInterval.x <= r.TimeToNextSpawn <= spawner.SpawnInterval.y
  {
    if IsFirstRun(spawner) then
      UpdateSpawnData(spawner.(Random := SeededRandom(entity)), stream, currentTime)
    else if IsSpawnDue(spawner, currentTime) && FoundPrefab(prefabs, typeOf, spawner.EnemyTypeId) != Null then
      var placement := SpawnPlacement(spawner, stream, spawnerPosition);
      UpdateSpawnData(spawner.(Random := placement.Random), stream, currentTime)
    else
      spawner
  }

  /** The commands one run of the job records, the enemy being created by
      the command at position `k` of the buffer. */
  function SpawnCommands(k: nat, spawner: EnemySpawner, prefabs: seq<Entity>, typeOf: Entity -> EnemyTypeId,
                         colliders: EnemyTypeId -> (int, int), stream: RandomStream,
                         spawnerPosition: Float3, currentTime: real): (commands: seq<Command>)
    ensures commands != [] <==>
      !IsFirstRun(spawner) && IsSpawnDue(spawner, currentTime) && FoundPrefab(prefabs, typeOf, spawner.EnemyTypeId) != Null
    ensures commands != [] ==>
      && |commands| == 3
      && commands[0] == InstantiateCommand(FoundPrefab(prefabs, typeOf, spawner.EnemyTypeId))
      && typeOf(commands[0].prefab) == spawner.EnemyTypeId
      && (forall j :: 1 <= j < 3 ==> commands[j].SetComponentCommand? && commands[j].target == Deferred(k))
      && commands[2].component == CharacterCastColliders(colliders(spawner.EnemyTypeId).0, colliders(spawner.EnemyTypeId).1)
  {
    var prefab := FoundPrefab(prefabs, typeOf, spawner.EnemyTypeId);
    if !IsFirstRun(spawner) && IsSpawnDue(spawner, currentTime) && prefab != Null then
      var placement := SpawnPlacement(spawner, stream, spawnerPosition);
      var colliderData := colliders(spawner.EnemyTypeId);
      [ InstantiateCommand(prefab),
        SetComponentCommand(Deferred(k), LocalTransformComponent(LocalTransform(placement.Position, placement.Rotation, 1.0))),
        SetComponentCommand(Deferred(k), CharacterCastColliders(colliderData.0, colliderData.1)) ]
    else
      []
  }

  /** The spawned enemy is placed level with its spawner, no farther than
      `SpawnRadius` from it, and faces a horizontal direction. */
  lemma SpawnedEnemyIsHorizontalWithinRadius(k: nat, spawner: EnemySpawner, prefabs: seq<Entity>, typeOf: Entity -> EnemyTypeId,
                                              colliders: EnemyTypeId -> (int, int), stream: RandomStream,
                                              spawnerPosition: Float3, currentTime: real)
    requires spawner.SpawnRadius >= 0.0
    ensures var commands := SpawnCommands(k, spawner, prefabs, typeOf, colliders, stream, spawnerPosition, currentTime);
      commands != [] ==>
        && commands[1].component.LocalTransformComponent?
        && commands[1].component.transform.Position.y == spawnerPosition.y
        && DistanceSq(commands[1].component.transform.Position, spawnerPosition) <= spawner.SpawnRadius * spawner.SpawnRadius
        && commands[1].component.transform.Rotation.LookRotationSafe?
        && commands[1].component.transform.Rotation.direction.v.y == 0.0
  {
    SpawnOffsetIsHorizontalWithinRadius(spawner, stream, spawnerPosition);
  }

  /** `SpawnEnemiesFromSpawnersJob.Execute`, the spawner being returned as
      the job leaves it through its `ref`. */
  method SpawnEnemiesFromSpawners(entity: Entity, enemySpawner: EnemySpawner, spawnerPosition: Float3,
                                  prefabs: seq<Entity>, typeOf: Entity -> EnemyTypeId, colliders: EnemyTypeId -> (int, int),
                                  stream: RandomStream, currentTime: real, ecb: CommandBuffer)
    returns (spawner: EnemySpawner)
    modifies ecb
    ensures spawner == NextSpawner(enemySpawner, entity, prefabs, typeOf, stream, spawnerPosition, currentTime)
    ensures ecb.commands == old(ecb.commands) +
      SpawnCommands(|old(ecb.commands)|, enemySpawner, prefabs, typeOf, colliders, stream, spawnerPosition, currentTime)
  {
    spawner := enemySpawner;
    if spawner.LastSpawnTime == FLOAT_MIN {
      spawner := spawner.(Random := SeededRandom(entity));
      spawner := UpdateSpawnData(spawner, stream, currentTime);
      return;
    }

    if currentTime - spawner.LastSpawnTime >= spawner.TimeToNextSpawn {
      var enemyPrefab := FindEnemyPrefab(prefabs, typeOf, spawner.EnemyTypeId);
      if enemyPrefab != Null {
        var enemyInstanceEntity := ecb.Instantiate(enemyPrefab);
        var placement := SpawnPlacement(spawner, stream, spawnerPosition);
        spawner := spawner.(Random := placement.Random);
        ecb.SetComponent(enemyInstanceEntity, LocalTransformComponent(LocalTransform(placement.Position, placement.Rotation, 1.0)));
        var colliderData := colliders(spawner.EnemyTypeId);
        ecb.SetComponent(enemyInstanceEntity, CharacterCastColliders(colliderData.0, colliderData.1));
      } else {
        // The job logs an error; logging is not modelled.
        return;
      }
      spawner := UpdateSpawnData(spawner, stream, currentTime);
    }
  }

  /** The commands recorded after `base` by the runs of the first `n` spawners. */
  function FrameCommands(base: seq<Command>, spawners: seq<EnemySpawner>, entities: seq<Entity>, positions: seq<Float3>,
                         prefabs: seq<Entity>, typeOf: Entity -> EnemyTypeId, colliders: EnemyTypeId -> (int, int),
                         stream: RandomStream, currentTime: real, n: nat): seq<Command>
    requires n <= |spawners| == |entities| == |positions|
  {
    if n == 0 then base
    else
      var previous := FrameCommands(base, spawners, entities, positions, prefabs, typeOf, colliders, stream, currentTime, n - 1);
      previous + SpawnCommands(|previous|, spawners[n - 1], prefabs, typeOf, colliders, stream, positions[n - 1], currentTime)
  }

  /** `EnemySpawnSystem.OnUpdate`: nothing at or above the cap, otherwise
      the job over every spawner. */
  method OnUpdate(enemiesCount: nat, entities: seq<Entity>, spawners: array<EnemySpawner>, positions: seq<Float3>,
                  prefabs: seq<Entity>, typeOf: Entity -> EnemyTypeId, colliders: EnemyTypeId -> (int, int),
                  stream: RandomStream, currentTime: real, ecb: CommandBuffer)
    requires spawners.Length == |entities| == |positions|
    modifies spawners, ecb
    ensures enemiesCount >= MAX_ENEMIES ==> spawners[..] == old(spawners[..]) && ecb.commands == old(ecb.commands)
    ensures enemiesCount < MAX_ENEMIES ==> forall k :: 0 <= k < spawners.Length ==>
      spawners[k] == NextSpawner(old(spawners[k]), entities[k], prefabs, typeOf, stream, positions[k], currentTime)
    ensures enemiesCount < MAX_ENEMIES ==>
      ecb.commands == FrameCommands(old(ecb.commands), old(spawners[..]), entities, positions, prefabs, typeOf, colliders,
                                    stream, currentTime, spawners.Length)
  {
    if enemiesCount >= MAX_ENEMIES {
      return;
    }
    ghost var initial := spawners[..];
    for k := 0 to spawners.Length
      invariant forall m :: 0 <= m < k ==>
        spawners[m] == NextSpawner(initial[m], entities[m], prefabs, typeOf, stream, positions[m], currentTime)
      invariant forall m :: k <= m < spawners.Length ==> spawners[m] == initial[m]
      invariant ecb.commands ==
        FrameCommands(old(ecb.commands), initial, entities, positions, prefabs, typeOf, colliders, stream, currentTime, k)
    {
      spawners[k] := SpawnEnemiesFromSpawners(entities[k], spawners[k], positions[k], prefabs, typeOf, colliders, stream, currentTime, ecb);
    }
  }
}
