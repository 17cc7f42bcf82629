/** What both versions of `EnemySpawnSystem` share: the `EnemySpawner`
    component (Runtime/Enemy/EnemySpawnerAuthoring.cs), the spawner's random
    generator, the first-match prefab search and the spawn placement.
    `Unity.Mathematics.Random` is an oracle: a generator is its seed and the
    number of values drawn from it so far, and the stream gives, for every
    seed and position, a float in [0, 1), a unit direction and a rotation. */
module EnemySpawners {
  import opened Basics
  import opened Entities
  import opened EnemyTypeIds

  /** A float of `Random.NextFloat()`. */
  type UnitInterval = r: real | 0.0 <= r < 1.0 witness 0.0

  /** A `float2` of `Random.NextFloat2Direction()`. */
  type UnitDirection = d: Float2 | d.x * d.x + d.y * d.y == 1.0 witness Float2(1.0, 0.0)

  /** A `quaternion` of `Random.NextQuaternionRotation()`. */
  type QuaternionRotation = q: Rotation | q.Quaternion? witness Quaternion(0.0, 0.0, 0.0, 1.0)

  /** The values the generators produce, by seed and position in the stream. */
  datatype RandomStream = RandomStream(
    Float: (int, nat) -> UnitInterval,
    Direction: (int, nat) -> UnitDirection,
    QuaternionRotation: (int, nat) -> QuaternionRotation)

  /** `Unity.Mathematics.Random`: its seed and how many values it has drawn. */
  datatype Random = Random(Seed: int, Draws: nat)

  /** `new Random((uint)(entity.Index * 1000))`: the product is wrapped to 32 bits. */
  function SeededRandom(entity: Entity): (r: Random)
    ensures 0 <= r.Seed < 0x1_0000_0000 && r.Draws == 0
    ensures 0 <= entity.Index * 1000 < 0x1_0000_0000 ==> r.Seed == entity.Index * 1000
  {
    Random((entity.Index * 1000) % 0x1_0000_0000, 0)
  }

  /** One draw further. */
  function Advance(random: Random): Random
  {
    Random(random.Seed, random.Draws + 1)
  }

  /** The point a fraction `u` of the way from `min` to `max`. */
  function Lerp(min: real, max: real, u: real): real
  {
    min + u * (max - min)
  }

  /** `min + u * (max - min)` for `u` in [0, 1) lies in [min, max]: below
      `max` when `min < max`, and `min` itself when they are equal. */
  lemma FractionBetween(u: UnitInterval, min: real, max: real)
    ensures min <= max ==> min <= Lerp(min, max, u) <= max
    ensures min < max ==> Lerp(min, max, u) < max
    ensures min == max ==> Lerp(min, max, u) == min
  {
    var width := max - min;
    var scaled := u * (max - min);
    assert max - (min + scaled) == (1.0 - u) * width;
    if min < max {
      assert (1.0 - u) * width > 0.0;
      assert max - (min + scaled) > 0.0;
      assert scaled >= 0.0;
    }
  }

  /** `Random.NextFloat(min, max)`: `min + u * (max - min)` for the next `u`
      in [0, 1), so in [min, max) when `min < max`. */
  function NextFloat(random: Random, stream: RandomStream, min: real, max: real): (r: (real, Random))
    ensures r.1 == Advance(random)
    ensures min <= max ==> min <= r.0 <= max
    ensures min < max ==> r.0 < max
    ensures min == max ==> r.0 == min
  {
    var u := stream.Float(random.Seed, random.Draws);
    FractionBetween(u, min, max);
    (Lerp(min, max, u), Advance(random))
  }

  /** `EnemySpawner`. */
  datatype EnemySpawner = EnemySpawner(
    EnemyTypeId: EnemyTypeId,
    SpawnRadius: real,
    SpawnInterval: Float2,
    TimeToNextSpawn: real,
    LastSpawnTime: real,
    Random: Random)

  /** The baker leaves `LastSpawnTime` at `float.MinValue` until the first run. */
  predicate IsFirstRun(spawner: EnemySpawner)
  {
    spawner.LastSpawnTime == FLOAT_MIN
  }

  /** A spawn is due at `currentTime`. */
  predicate IsSpawnDue(spawner: EnemySpawner, currentTime: real)
  {
    currentTime - spawner.LastSpawnTime >= spawner.TimeToNextSpawn
  }

  /** `UpdateSpawnData`: draws the next delay from the spawn interval and
      records the time. */
  function UpdateSpawnData(spawner: EnemySpawner, stream: RandomStream, currentTime: real): (r: EnemySpawner)
    ensures r.LastSpawnTime == currentTime
    ensures r.Random == Advance(spawner.Random)
    ensures spawner.SpawnInterval.x <= spawner.SpawnInterval.y ==>
      spawner.SpawnInterval.x <= r.TimeToNextSpawn <= spawner.SpawnInterval.y
    ensures spawner.SpawnInterval.x < spawner.SpawnInterval.y ==> r.TimeToNextSpawn < spawner.SpawnInterval.y
    ensures r.EnemyTypeId == spawner.EnemyTypeId && r.SpawnRadius == spawner.SpawnRadius
    ensures r.SpawnInterval == spawner.SpawnInterval
  {
    var (delay, random) := NextFloat(spawner.Random, stream, spawner.SpawnInterval.x, spawner.SpawnInterval.y);
    spawner.(TimeToNextSpawn := delay, LastSpawnTime := currentTime, Random := random)
  }

  /** The prefab the search ends with, `Entity.Null` when none matches. */
  function FoundPrefab(prefabs: seq<Entity>, typeOf: Entity -> EnemyTypeId, id: EnemyTypeId): Entity
  {
    match FirstMatch(prefabs, typeOf, id)
    case None => Null
    case Some(k) => prefabs[k]
  }

  /** The prefab search of `SpawnEnemiesFromSpawnersJob.Execute`: a
      `foreach` over the prefabs container that breaks at the first match.
      `typeOf` is the `EnemyCharacterComponent` lookup. */
  method FindEnemyPrefab(prefabs: seq<Entity>, typeOf: Entity -> EnemyTypeId, id: EnemyTypeId)
    returns (enemyPrefab: Entity)
    ensures enemyPrefab == FoundPrefab(prefabs, typeOf, id)
  {
    enemyPrefab := Null;
    var i := 0;
    while i < |prefabs|
      invariant 0 <= i <= |prefabs|
      invariant forall j :: 0 <= j < i ==> typeOf(prefabs[j]) != id
    {
      if typeOf(prefabs[i]) == id {
        enemyPrefab := prefabs[i];
        assert FirstMatch(prefabs, typeOf, id) == Some(i);
        return;
      }
      i := i + 1;
    }
  }

  /** Where and how a spawned enemy is placed: a random radius in
      [0, SpawnRadius) along a random horizontal direction, facing a random
      rotation's forward axis flattened onto the ground. */
  datatype Placement = Placement(Position: Float3, Rotation: Rotation, Random: Random)

  function SpawnPlacement(spawner: EnemySpawner, stream: RandomStream, spawnerPosition: Float3): (p: Placement)
    ensures p.Random == Advance(Advance(Advance(spawner.Random)))
    ensures p.Rotation.LookRotationSafe? && p.Rotation.direction.v.y == 0.0 && p.Rotation.up == Up
  {
    var (spawnRadius, random1) := NextFloat(spawner.Random, stream, 0.0, spawner.SpawnRadius);
    var direction := stream.Direction(random1.Seed, random1.Draws);
    var random2 := Advance(random1);
    var rotation := stream.QuaternionRotation(random2.Seed, random2.Draws);
    var random3 := Advance(random2);
    var forward := ForwardOf(rotation);
    var position := spawnerPosition.Plus(Float3(direction.x, 0.0, direction.y).Times(spawnRadius));
    Placement(position, LookRotationSafe(NormalizeSafe(Float3(forward.x, 0.0, forward.z)), Up), random3)
  }

  /** The enemy spawns level with the spawner, no farther than SpawnRadius. */
  lemma SpawnOffsetIsHorizontalWithinRadius(spawner: EnemySpawner, stream: RandomStream, spawnerPosition: Float3)
    requires spawner.SpawnRadius >= 0.0
    ensures SpawnPlacement(spawner, stream, spawnerPosition).Position.y == spawnerPosition.y
    ensures DistanceSq(SpawnPlacement(spawner, stream, spawnerPosition).Position, spawnerPosition) <=
      spawner.SpawnRadius * spawner.SpawnRadius
  {
    var (radius, random1) := NextFloat(spawner.Random, stream, 0.0, spawner.SpawnRadius);
    var direction := stream.Direction(random1.Seed, random1.Draws);
    var offset := Float3(direction.x, 0.0, direction.y).Times(radius);
    var position := SpawnPlacement(spawner, stream, spawnerPosition).Position;
    assert position == spawnerPosition.Plus(offset);
    assert position.Minus(spawnerPosition) == offset;
    calc {
      DistanceSq(position, spawnerPosition);
      offset.x * offset.x + offset.y * offset.y + offset.z * offset.z;
      radius * radius * (direction.x * direction.x + direction.y * direction.y);
      radius * radius;
    }
    assert 0.0 <= radius <= spawner.SpawnRadius;
    assert radius * radius <= radius * spawner.SpawnRadius <= spawner.SpawnRadius * spawner.SpawnRadius;
  }
}
