/** The damage pipeline of one frame (Runtime/Lifecycle/DamagesSystem.cs):
    the receivers container refreshed by `DamageReceiversFetcherSystem`, the
    damages multimap, and `ComputeDamagesJob`, which decides for every damage
    dealer of a chunk which receivers it hits. The job runs chunk after chunk;
    the parallel scheduling and the parallel writers are the engine's. */
module DamagesSystem {
  import opened Basics
  import opened Entities
  import opened DamagesComponents
  import opened Ecs

  /** `HealthComponent` (Runtime/Lifecycle/HealthComponentAuthoring.cs). */
  datatype HealthComponent = HealthComponent(HitBoxRadius: real, HitPoints: UShort)

  /** `DamagesContainer.DamageData`. */
  datatype DamageData = DamageData(Position: Float3, Damages: UShort)

  /** `DamageReceiverData`. */
  datatype DamageReceiverData = DamageReceiverData(Position: Float3, HitBoxRadius: real, Entity: Entity)

  /** The value of a `NativeReference<DamageReceiverData>` before anything is written to it. */
  const DefaultReceiver: DamageReceiverData := DamageReceiverData(Zero3, 0.0, Null)

  // ---------------------------------------------------------------------
  // math.ceilpow2

  predicate IsPowerOfTwo(n: nat)
    decreases n
  {
    n == 1 || (n >= 2 && n % 2 == 0 && IsPowerOfTwo(n / 2))
  }

  /** `math.ceilpow2(n)` for a non-negative count: the least power of two
      that is at least `n`, and 0 for 0 (the bit trick wraps -1 back to 0). */
  function CeilPow2(n: nat): (r: nat)
    ensures n == 0 ==> r == 0
    ensures n > 0 ==> IsPowerOfTwo(r) && n <= r < 2 * n
    decreases n
  {
    if n <= 1 then n
    else
      var half := CeilPow2((n + 1) / 2);
      DoublingBracket(n, half);
      2 * half
  }

  /** The recursive step of `CeilPow2`: doubling the power of two that
      brackets half of `n` (rounded up) brackets `n`. */
  lemma DoublingBracket(n: nat, half: nat)
    requires n >= 2 && IsPowerOfTwo(half) && (n + 1) / 2 <= half < 2 * ((n + 1) / 2)
    ensures IsPowerOfTwo(2 * half) && n <= 2 * half < 2 * n
  {
    assert (2 * half) / 2 == half;
    if n % 2 == 1 {
      assert half >= 2;
      assert half % 2 == 0;
    }
  }

  // ---------------------------------------------------------------------
  // DamageReceiversContainer

  /** `DamageReceiversContainer`: the enemy receivers as a `NativeList` with
      its capacity, and the player receiver. */
  class DamageReceiversContainer {
    var EnemyDamageReceivers: seq<DamageReceiverData>
    var Capacity: nat
    var PlayerDamageReceiver: DamageReceiverData

    ghost predicate Valid()
      reads this
    {
      |EnemyDamageReceivers| <= Capacity
    }

    /** `DamageReceiversFetcherSystem.OnCreate`: room for `ceilpow2(maxEnemies)` receivers. */
    constructor (maxEnemies: nat)
      ensures Valid()
      ensures EnemyDamageReceivers == [] && Capacity == CeilPow2(maxEnemies)
      ensures PlayerDamageReceiver == DefaultReceiver
    {
      EnemyDamageReceivers := [];
      Capacity := CeilPow2(maxEnemies);
      PlayerDamageReceiver := DefaultReceiver;
    }

    /** `EnsureCapacity(damageReceiversCount)`: when the list cannot hold
        that many receivers it is resized (its length, and so its capacity) to
        `ceilpow2(damageReceiversCount)`; the new slots are uninitialised, so
        nothing is promised about them. */
    method EnsureCapacity(damageReceiversCount: nat)
      requires Valid()
      modifies this`EnemyDamageReceivers, this`Capacity
      ensures Valid()
      ensures Capacity >= damageReceiversCount
      ensures old(Capacity) >= damageReceiversCount ==>
        Capacity == old(Capacity) && EnemyDamageReceivers == old(EnemyDamageReceivers)
      ensures old(Capacity) < damageReceiversCount ==>
        Capacity == CeilPow2(damageReceiversCount) &&
        |EnemyDamageReceivers| == CeilPow2(damageReceiversCount) &&
        EnemyDamageReceivers[..|old(EnemyDamageReceivers)|] == old(EnemyDamageReceivers)
    {
      if Capacity < damageReceiversCount {
        var length := CeilPow2(damageReceiversCount);
        var added := length - |EnemyDamageReceivers|;
        EnemyDamageReceivers := EnemyDamageReceivers + seq(added, _ => DefaultReceiver);
        Capacity := length;
      }
    }

    /** `NativeList.Clear()`: the length drops to 0, the capacity stays. */
    method Clear()
      requires Valid()
      modifies this`EnemyDamageReceivers
      ensures Valid() && EnemyDamageReceivers == []
    {
      EnemyDamageReceivers := [];
    }

    /** `ParallelWriter.AddNoResize(value)`: the list must have room. */
    method AddNoResize(value: DamageReceiverData)
      requires Valid() && |EnemyDamageReceivers| < Capacity
      modifies this`EnemyDamageReceivers
      ensures Valid() && EnemyDamageReceivers == old(EnemyDamageReceivers) + [value]
    {
      EnemyDamageReceivers := EnemyDamageReceivers + [value];
    }
  }

  // ---------------------------------------------------------------------
  // DamageReceiversFetcherSystem

  /** An entity of the receivers query (`HealthComponent` and
      `LocalTransform`), with the tags the two fetch jobs filter on. */
  datatype ReceiverEntity = ReceiverEntity(
    Entity: Entity, Health: HealthComponent, Transform: LocalTransform,
    IsEnemy: bool, IsAvatar: bool)

  function ReceiverDataOf(e: ReceiverEntity): DamageReceiverData
  {
    DamageReceiverData(e.Transform.Position, e.Health.HitBoxRadius, e.Entity)
  }

  /** What `FetchEnemyDamageReceiverDataJob` adds: the data of every enemy, in query order. */
  function EnemyReceivers(query: seq<ReceiverEntity>): (r: seq<DamageReceiverData>)
    ensures |r| <= |query|
    ensures forall d :: d in r ==> exists e :: e in query && e.IsEnemy && d == ReceiverDataOf(e)
    ensures forall e :: e in query && e.IsEnemy ==> ReceiverDataOf(e) in r
  {
    if query == [] then []
    else (EnemyReceivers(query[..|query| - 1])
          + (var last := query[|query| - 1]; if last.IsEnemy then [ReceiverDataOf(last)] else []))
  }

  /** What `FetchPlayerDamageReceiverDataJob` leaves in the reference: the
      data of the last avatar of the query, or the previous value when there
      is none. */
  function PlayerReceiver(query: seq<ReceiverEntity>, previous: DamageReceiverData): (r: DamageReceiverData)
    ensures r == previous || exists e :: e in query && e.IsAvatar && r == ReceiverDataOf(e)
    ensures (forall e :: e in query ==> !e.IsAvatar) ==> r == previous
    ensures (exists j :: 0 <= j < |query| && query[j].IsAvatar) ==>
      exists j :: 0 <= j < |query| && query[j].IsAvatar && r == ReceiverDataOf(query[j]) &&
        forall j' :: j < j' < |query| ==> !query[j'].IsAvatar
  {
    if query == [] then previous
    else if query[|query| - 1].IsAvatar then ReceiverDataOf(query[|query| - 1])
    else PlayerReceiver(query[..|query| - 1], previous)
  }

  /** `DamageReceiversFetcherSystem.OnUpdate`: room for every receiver, then
      the list is refilled with this frame's enemies and the player
      reference is refreshed. */
  method FetcherOnUpdate(container: DamageReceiversContainer, query: seq<ReceiverEntity>)
    requires container.Valid()
    modifies container
    ensures container.Valid()
    ensures container.Capacity >= |query|
    ensures container.EnemyDamageReceivers == EnemyReceivers(query)
    ensures container.PlayerDamageReceiver == PlayerReceiver(query, old(container.PlayerDamageReceiver))
  {
    container.EnsureCapacity(|query|);
    container.Clear();
    // FetchEnemyDamageReceiverDataJob
    for k := 0 to |query|
      invariant container.Valid() && container.Capacity >= |query|
      invariant container.EnemyDamageReceivers == EnemyReceivers(query[..k])
      invariant container.PlayerDamageReceiver == old(container.PlayerDamageReceiver)
    {
      assert query[..k + 1][..k] == query[..k];
      if query[k].IsEnemy {
        container.AddNoResize(ReceiverDataOf(query[k]));
      }
    }
    assert query[..|query|] == query;
    // FetchPlayerDamageReceiverDataJob
    ghost var previous := container.PlayerDamageReceiver;
    for k := 0 to |query|
      invariant container.Valid() && container.Capacity >= |query|
      invariant container.EnemyDamageReceivers == EnemyReceivers(query)
      invariant container.PlayerDamageReceiver == PlayerReceiver(query[..k], previous)
    {
      assert query[..k + 1][..k] == query[..k];
      if query[k].IsAvatar {
        container.PlayerDamageReceiver := ReceiverDataOf(query[k]);
      }
    }
    assert query[..|query|] == query;
  }

  // ---------------------------------------------------------------------
  // DamagesContainer

  /** `DamagesContainer`: the `NativeParallelMultiHashMap<Entity, DamageData>`
      as its (key, value) pairs in the order they were added, and its capacity. */
  class DamagesContainer {
    var DamagesPerEntity: seq<(Entity, DamageData)>
    var Capacity: int

    /** `new DamagesContainer(capacity, allocator)`. */
    constructor (capacity: int)
      ensures DamagesPerEntity == [] && Capacity == capacity
    {
      DamagesPerEntity := [];
      Capacity := capacity;
    }

    /** `ParallelWriter.Add(key, value)`. */
    method Add(key: Entity, value: DamageData)
      modifies this`DamagesPerEntity
      ensures DamagesPerEntity == old(DamagesPerEntity) + [(key, value)]
    {
      DamagesPerEntity := DamagesPerEntity + [(key, value)];
    }
  }

  /** The values stored under `key`, in the order they were added. */
  function ValuesFor(entries: seq<(Entity, DamageData)>, key: Entity): (r: seq<DamageData>)
    ensures |r| <= |entries|
    ensures forall d :: d in r <==> (key, d) in entries
    ensures forall d :: multiset(r)[d] == multiset(entries)[(key, d)]
  {
    if entries == [] then []
    else
      assert entries == entries[..|entries| - 1] + [entries[|entries| - 1]];
      ValuesFor(entries[..|entries| - 1], key)
      + (if entries[|entries| - 1].0 == key then [entries[|entries| - 1].1] else [])
  }

  // ---------------------------------------------------------------------
  // ComputeDamagesJob

  /** The chunk a `ComputeDamagesJob.Execute` call receives: the arrays of
      its entities and the component types the chunk has. The cooldowns,
      which the job writes, are passed as an array beside it. */
  datatype DealerChunk = DealerChunk(
    Entities: seq<Entity>,
    DamageDealers: seq<DamageDealer>,
    LocalToWorlds: seq<LocalToWorld>,
    DamageSphereZones: Option<seq<DamageSphereZone>>,
    TargetedDamages: Option<seq<TargetedDamages>>,
    HasDamageCooldown: bool,
    HasDamagesToEnemy: bool,
    HasDestroyOnDamage: bool)
  {
    function Count(): nat
    {
      |Entities|
    }

    /** Every array of the chunk has one element per entity. */
    predicate Valid()
    {
      && |DamageDealers| == Count()
      && |LocalToWorlds| == Count()
      && (DamageSphereZones.Some? ==> |DamageSphereZones.value| == Count())
      && (TargetedDamages.Some? ==> |TargetedDamages.value| == Count())
    }
  }

  /** The cooldowns handed to the job: one per entity when the chunk has them. */
  predicate CooldownsFit(chunk: DealerChunk, cooldowns: seq<DamageCooldown>)
  {
    chunk.Valid() && (chunk.HasDamageCooldown ==> |cooldowns| == chunk.Count())
  }

  /** `CanHit`: the receiver is within hit-box plus zone radius of the damage position. */
  predicate CanHit(damagePosition: Float3, damageReceiverPosition: Float3, hitBoxRadius: real, zoneRadius: real)
  {
    DistanceSq(damagePosition, damageReceiverPosition) <= (hitBoxRadius + zoneRadius) * (hitBoxRadius + zoneRadius)
  }

  /** Dealer `i` is not held back by its cooldown at time `t`. */
  predicate IsActive(chunk: DealerChunk, cooldowns: seq<DamageCooldown>, i: nat, t: real)
    requires CooldownsFit(chunk, cooldowns) && i < chunk.Count()
  {
    !chunk.HasDamageCooldown || cooldowns[i].IsCooldownOver(t)
  }

  /** The zone radius of dealer `i`: 0 without `DamageSphereZone`. */
  function ZoneRadius(chunk: DealerChunk, i: nat): real
    requires chunk.Valid() && i < chunk.Count()
  {
    if chunk.DamageSphereZones.Some? then chunk.DamageSphereZones.value[i].Radius else 0.0
  }

  /** Dealer `i` may hit receiver `r` on the enemy side: not targeted, or
      targeted at `r`'s entity, and within reach. */
  predicate MayHitEnemy(chunk: DealerChunk, i: nat, r: DamageReceiverData)
    requires chunk.Valid() && i < chunk.Count()
  {
    && (chunk.TargetedDamages.None? || chunk.TargetedDamages.value[i].Target == r.Entity)
    && CanHit(chunk.LocalToWorlds[i].Position, r.Position, r.HitBoxRadius, ZoneRadius(chunk, i))
  }

  /** The enemy receivers dealer `i` hits, in the receivers' order. */
  function EnemyHits(chunk: DealerChunk, i: nat, receivers: seq<DamageReceiverData>): (hits: seq<DamageReceiverData>)
    requires chunk.Valid() && i < chunk.Count()
    ensures |hits| <= |receivers|
  {
    if receivers == [] then []
    else (EnemyHits(chunk, i, receivers[..|receivers| - 1])
          + (if MayHitEnemy(chunk, i, receivers[|receivers| - 1]) then [receivers[|receivers| - 1]] else []))
  }

  /** The entries a hit list produces: one per receiver, at the receiver's position. */
  function EnemyEntries(hits: seq<DamageReceiverData>, damages: UShort): (entries: seq<(Entity, DamageData)>)
    ensures |entries| == |hits|
    ensures forall k :: 0 <= k < |hits| ==> entries[k] == (hits[k].Entity, DamageData(hits[k].Position, damages))
  {
    if hits == [] then [] else EnemyEntries(hits[..|hits| - 1], damages) + [(hits[|hits| - 1].Entity, DamageData(hits[|hits| - 1].Position, damages))]
  }

  /** Dealer `i` hits the player (player side). */
  predicate HitsPlayer(chunk: DealerChunk, i: nat, player: DamageReceiverData)
    requires chunk.Valid() && i < chunk.Count()
  {
    CanHit(chunk.LocalToWorlds[i].Position, player.Position, player.HitBoxRadius, ZoneRadius(chunk, i))
  }

  /** The multimap entries dealer `i` adds once its cooldown let it through. */
  function ActiveEntries(chunk: DealerChunk, i: nat, receivers: seq<DamageReceiverData>, player: DamageReceiverData): seq<(Entity, DamageData)>
    requires chunk.Valid() && i < chunk.Count()
  {
    if chunk.HasDamagesToEnemy then EnemyEntries(EnemyHits(chunk, i, receivers), chunk.DamageDealers[i].Damages)
    else if HitsPlayer(chunk, i, player) then [(player.Entity, DamageData(chunk.LocalToWorlds[i].Position, chunk.DamageDealers[i].Damages))]
    else []
  }

  /** The commands dealer `i` records once its cooldown let it through: its
      destruction on the enemy side, a `PendingDestruction` on the player
      side, each only after a hit. */
  function ActiveCommands(chunk: DealerChunk, i: nat, receivers: seq<DamageReceiverData>, player: DamageReceiverData): seq<Command>
    requires chunk.Valid() && i < chunk.Count()
  {
    if !chunk.HasDestroyOnDamage then []
    else if chunk.HasDamagesToEnemy then
      (if EnemyHits(chunk, i, receivers) != [] then [DestroyEntityCommand(Existing(chunk.Entities[i]))] else [])
    else if HitsPlayer(chunk, i, player) then [AddComponentCommand(Existing(chunk.Entities[i]), PendingDestruction)]
    else []
  }

  /** The multimap entries dealer `i` adds. */
  function DealerEntries(chunk: DealerChunk, cooldowns: seq<DamageCooldown>, i: nat, t: real,
                         receivers: seq<DamageReceiverData>, player: DamageReceiverData): seq<(Entity, DamageData)>
    requires CooldownsFit(chunk, cooldowns) && i < chunk.Count()
  {
    if IsActive(chunk, cooldowns, i, t) then ActiveEntries(chunk, i, receivers, player) else []
  }

  /** The commands dealer `i` records. */
  function DealerCommands(chunk: DealerChunk, cooldowns: seq<DamageCooldown>, i: nat, t: real,
                          receivers: seq<DamageReceiverData>, player: DamageReceiverData): seq<Command>
    requires CooldownsFit(chunk, cooldowns) && i < chunk.Count()
  {
    if IsActive(chunk, cooldowns, i, t) then ActiveCommands(chunk, i, receivers, player) else []
  }

  /** The private `IsCooldownOver(ref damageCooldowns, i, t)` write: an over
      cooldown restarts at `t`, whether or not anything is then hit. */
  function NextCooldown(c: DamageCooldown, t: real): (r: DamageCooldown)
    ensures c.IsCooldownOver(t) ==> r.LastDamageDealtElapsedTime == t && r.CooldownDuration == c.CooldownDuration
    ensures !c.IsCooldownOver(t) ==> r == c
  {
    if c.IsCooldownOver(t) then c.OnDamagesDone(t) else c
  }

  /** The entries of dealers `0..n`. */
  function ChunkEntries(chunk: DealerChunk, cooldowns: seq<DamageCooldown>, t: real,
                        receivers: seq<DamageReceiverData>, player: DamageReceiverData, n: nat): seq<(Entity, DamageData)>
    requires CooldownsFit(chunk, cooldowns) && n <= chunk.Count()
  {
    if n == 0 then []
    else ChunkEntries(chunk, cooldowns, t, receivers, player, n - 1) + DealerEntries(chunk, cooldowns, n - 1, t, receivers, player)
  }

  /** The commands of dealers `0..n`. */
  function ChunkCommands(chunk: DealerChunk, cooldowns: seq<DamageCooldown>, t: real,
                         receivers: seq<DamageReceiverData>, player: DamageReceiverData, n: nat): seq<Command>
    requires CooldownsFit(chunk, cooldowns) && n <= chunk.Count()
  {
    if n == 0 then []
    else ChunkCommands(chunk, cooldowns, t, receivers, player, n - 1) + DealerCommands(chunk, cooldowns, n - 1, t, receivers, player)
  }

  /** The cooldowns after the job. */
  function NextCooldowns(cooldowns: seq<DamageCooldown>, t: real): (r: seq<DamageCooldown>)
    ensures |r| == |cooldowns|
    ensures forall k :: 0 <= k < |r| && cooldowns[k].IsCooldownOver(t) ==>
      r[k].LastDamageDealtElapsedTime == t && r[k].CooldownDuration == cooldowns[k].CooldownDuration
    ensures forall k :: 0 <= k < |r| && !cooldowns[k].IsCooldownOver(t) ==> r[k] == cooldowns[k]
  {
    seq(|cooldowns|, k requires 0 <= k < |cooldowns| => NextCooldown(cooldowns[k], t))
  }

  /** The private `IsCooldownOver`: tests the cooldown of dealer `i` and, when
      it is over, restarts it at `elapsedTime` in place. */
  method ConsumeCooldown(damageCooldowns: array<DamageCooldown>, i: nat, elapsedTime: real) returns (over: bool)
    requires i < damageCooldowns.Length
    modifies damageCooldowns
    ensures over == old(damageCooldowns[i]).IsCooldownOver(elapsedTime)
    ensures damageCooldowns[i] == NextCooldown(old(damageCooldowns[i]), elapsedTime)
    ensures forall k :: 0 <= k < damageCooldowns.Length && k != i ==> damageCooldowns[k] == old(damageCooldowns[k])
  {
    var coolDown := damageCooldowns[i];
    if !coolDown.IsCooldownOver(elapsedTime) {
      return false;
    } else {
      damageCooldowns[i] := coolDown.OnDamagesDone(elapsedTime);
      return true;
    }
  }

  /** One receiver more: the hits grow by that receiver when the dealer may hit it. */
  lemma EnemyHitsStep(chunk: DealerChunk, i: nat, receivers: seq<DamageReceiverData>, j: nat)
    requires chunk.Valid() && i < chunk.Count() && j < |receivers|
    ensures EnemyHits(chunk, i, receivers[..j + 1]) ==
      EnemyHits(chunk, i, receivers[..j]) + (if MayHitEnemy(chunk, i, receivers[j]) then [receivers[j]] else [])
  {
    assert receivers[..j + 1][..j] == receivers[..j];
  }

  /** One hit more: the entries grow by that hit's entry. */
  lemma EnemyEntriesStep(hits: seq<DamageReceiverData>, r: DamageReceiverData, damages: UShort)
    ensures EnemyEntries(hits + [r], damages) == EnemyEntries(hits, damages) + [(r.Entity, DamageData(r.Position, damages))]
  {
    assert (hits + [r])[..|hits|] == hits;
  }

  /** The body of the inner `foreach` for one receiver: skip it when the
      dealer is targeted at another entity, add an entry when it is in reach. */
  method HitEnemy(chunk: DealerChunk, i: nat, enemyDamageReceiver: DamageReceiverData,
                  damagesPerEntity: DamagesContainer) returns (hit: bool)
    requires chunk.Valid() && i < chunk.Count()
    modifies damagesPerEntity`DamagesPerEntity
    ensures hit == MayHitEnemy(chunk, i, enemyDamageReceiver)
    ensures damagesPerEntity.DamagesPerEntity == old(damagesPerEntity.DamagesPerEntity)
      + (if hit then [(enemyDamageReceiver.Entity, DamageData(enemyDamageReceiver.Position, chunk.DamageDealers[i].Damages))] else [])
  {
    if chunk.TargetedDamages.Some? && chunk.TargetedDamages.value[i].Target != enemyDamageReceiver.Entity {
      return false;
    }
    var zoneRadius := if chunk.DamageSphereZones.Some? then chunk.DamageSphereZones.value[i].Radius else 0.0;
    var damagePosition := chunk.LocalToWorlds[i].Position;
    hit := CanHit(damagePosition, enemyDamageReceiver.Position, enemyDamageReceiver.HitBoxRadius, zoneRadius);
    if hit {
      damagesPerEntity.Add(enemyDamageReceiver.Entity, DamageData(enemyDamageReceiver.Position, chunk.DamageDealers[i].Damages));
    }
  }

  /** The inner `foreach` over the enemy receivers for dealer `i`: one
      entry per receiver it may hit; the result says whether any was hit. */
  method HitEnemies(chunk: DealerChunk, i: nat, enemyDamageReceivers: seq<DamageReceiverData>,
                    damagesPerEntity: DamagesContainer) returns (hasInflictedDamages: bool)
    requires chunk.Valid() && i < chunk.Count()
    modifies damagesPerEntity`DamagesPerEntity
    ensures damagesPerEntity.DamagesPerEntity == old(damagesPerEntity.DamagesPerEntity)
      + EnemyEntries(EnemyHits(chunk, i, enemyDamageReceivers), chunk.DamageDealers[i].Damages)
    ensures hasInflictedDamages <==> EnemyHits(chunk, i, enemyDamageReceivers) != []
  {
    var damages := chunk.DamageDealers[i].Damages;
    ghost var entries0 := damagesPerEntity.DamagesPerEntity;
    hasInflictedDamages := false;
    for j := 0 to |enemyDamageReceivers|
      invariant damagesPerEntity.DamagesPerEntity == entries0 + EnemyEntries(EnemyHits(chunk, i, enemyDamageReceivers[..j]), damages)
      invariant hasInflictedDamages <==> EnemyHits(chunk, i, enemyDamageReceivers[..j]) != []
    {
      ghost var hits := EnemyHits(chunk, i, enemyDamageReceivers[..j]);
      EnemyHitsStep(chunk, i, enemyDamageReceivers, j);
      EnemyEntriesStep(hits, enemyDamageReceivers[j], damages);
      var hit := HitEnemy(chunk, i, enemyDamageReceivers[j], damagesPerEntity);
      if hit {
        hasInflictedDamages := true;
        var entry := (enemyDamageReceivers[j].Entity, DamageData(enemyDamageReceivers[j].Position, damages));
        assert (entries0 + EnemyEntries(hits, damages)) + [entry] == entries0 + (EnemyEntries(hits, damages) + [entry]);
      } else {
        assert hits + [] == hits;
      }
    }
    assert enemyDamageReceivers[..|enemyDamageReceivers|] == enemyDamageReceivers;
  }

  /** The body of the job's loops for a dealer whose cooldown let it through. */
  method DealDamages(chunk: DealerChunk, i: nat, enemyDamageReceivers: seq<DamageReceiverData>,
                     playerData: DamageReceiverData, damagesPerEntity: DamagesContainer, ecb: CommandBuffer)
    requires chunk.Valid() && i < chunk.Count()
    modifies damagesPerEntity`DamagesPerEntity, ecb
    ensures damagesPerEntity.DamagesPerEntity == old(damagesPerEntity.DamagesPerEntity)
      + ActiveEntries(chunk, i, enemyDamageReceivers, playerData)
    ensures ecb.commands == old(ecb.commands) + ActiveCommands(chunk, i, enemyDamageReceivers, playerData)
  {
    if chunk.HasDamagesToEnemy {
      var hasInflictedDamages := HitEnemies(chunk, i, enemyDamageReceivers, damagesPerEntity);
      if hasInflictedDamages && chunk.HasDestroyOnDamage {
        ecb.DestroyEntity(Existing(chunk.Entities[i]));
      }
    } else {
      var zoneRadius := if chunk.DamageSphereZones.Some? then chunk.DamageSphereZones.value[i].Radius else 0.0;
      var damagePosition := chunk.LocalToWorlds[i].Position;
      if CanHit(damagePosition, playerData.Position, playerData.HitBoxRadius, zoneRadius) {
        var damages := chunk.DamageDealers[i].Damages;
        damagesPerEntity.Add(playerData.Entity, DamageData(damagePosition, damages));
        if chunk.HasDestroyOnDamage {
          ecb.AddComponent(Existing(chunk.Entities[i]), PendingDestruction);
        }
      }
    }
  }

  /** The cooldowns once dealers `0..i` have been through the job. */
  ghost function CooldownsAfter(chunk: DealerChunk, cooldowns: seq<DamageCooldown>, t: real, i: nat): seq<DamageCooldown>
    requires chunk.HasDamageCooldown ==> i <= |cooldowns|
  {
    if chunk.HasDamageCooldown then NextCooldowns(cooldowns[..i], t) + cooldowns[i..] else cooldowns
  }

  lemma CooldownsAfterStep(chunk: DealerChunk, cooldowns: seq<DamageCooldown>, t: real, i: nat)
    requires chunk.HasDamageCooldown ==> i < |cooldowns|
    ensures |CooldownsAfter(chunk, cooldowns, t, i)| == |cooldowns|
    ensures chunk.HasDamageCooldown ==> CooldownsAfter(chunk, cooldowns, t, i)[i] == cooldowns[i]
    ensures CooldownsAfter(chunk, cooldowns, t, i + 1) == if chunk.HasDamageCooldown
      then CooldownsAfter(chunk, cooldowns, t, i)[i := NextCooldown(cooldowns[i], t)] else CooldownsAfter(chunk, cooldowns, t, i)
  {
  }

  lemma CooldownsAfterAll(chunk: DealerChunk, cooldowns: seq<DamageCooldown>, t: real, n: nat)
    requires chunk.HasDamageCooldown ==> n == |cooldowns|
    ensures CooldownsAfter(chunk, cooldowns, t, n) ==
      if chunk.HasDamageCooldown then NextCooldowns(cooldowns, t) else cooldowns
  {
    assert cooldowns[..|cooldowns|] == cooldowns;
  }

  lemma AppendIsAssociative<T>(a: seq<T>, b: seq<T>, c: seq<T>)
    ensures (a + b) + c == a + (b + c)
  {
  }

  /** One dealer more: its entries and commands follow those of the dealers before it. */
  lemma ChunkStep(chunk: DealerChunk, cooldowns: seq<DamageCooldown>, t: real,
                  receivers: seq<DamageReceiverData>, player: DamageReceiverData, i: nat)
    requires CooldownsFit(chunk, cooldowns) && i < chunk.Count()
    ensures ChunkEntries(chunk, cooldowns, t, receivers, player, i + 1) ==
      ChunkEntries(chunk, cooldowns, t, receivers, player, i) + DealerEntries(chunk, cooldowns, i, t, receivers, player)
    ensures ChunkCommands(chunk, cooldowns, t, receivers, player, i + 1) ==
      ChunkCommands(chunk, cooldowns, t, receivers, player, i) + DealerCommands(chunk, cooldowns, i, t, receivers, player)
  {
  }

  /** The job's loop invariant is kept by one more dealer. */
  lemma ChunkProgress(chunk: DealerChunk, cooldowns: seq<DamageCooldown>, t: real,
                      receivers: seq<DamageReceiverData>, player: DamageReceiverData, i: nat,
                      entries0: seq<(Entity, DamageData)>, entries: seq<(Entity, DamageData)>, entries': seq<(Entity, DamageData)>,
                      commands0: seq<Command>, commands: seq<Command>, commands': seq<Command>)
    requires CooldownsFit(chunk, cooldowns) && i < chunk.Count()
    requires entries == entries0 + ChunkEntries(chunk, cooldowns, t, receivers, player, i)
    requires entries' == entries + DealerEntries(chunk, cooldowns, i, t, receivers, player)
    requires commands == commands0 + ChunkCommands(chunk, cooldowns, t, receivers, player, i)
    requires commands' == commands + DealerCommands(chunk, cooldowns, i, t, receivers, player)
    ensures entries' == entries0 + ChunkEntries(chunk, cooldowns, t, receivers, player, i + 1)
    ensures commands' == commands0 + ChunkCommands(chunk, cooldowns, t, receivers, player, i + 1)
  {
    ChunkStep(chunk, cooldowns, t, receivers, player, i);
    AppendIsAssociative(entries0, ChunkEntries(chunk, cooldowns, t, receivers, player, i), DealerEntries(chunk, cooldowns, i, t, receivers, player));
    AppendIsAssociative(commands0, ChunkCommands(chunk, cooldowns, t, receivers, player, i), DealerCommands(chunk, cooldowns, i, t, receivers, player));
  }

  /** One iteration of the job's loop: the cooldown test of dealer `i`
      (when the chunk has cooldowns), then its damages when it is let through. */
  method ComputeDealer(chunk: DealerChunk, damageCooldowns: array<DamageCooldown>, ghost cooldowns: seq<DamageCooldown>, i: nat,
                       enemyDamageReceivers: seq<DamageReceiverData>, playerData: DamageReceiverData,
                       elapsedTime: real, damagesPerEntity: DamagesContainer, ecb: CommandBuffer)
    requires CooldownsFit(chunk, cooldowns) && i < chunk.Count()
    requires chunk.HasDamageCooldown ==> damageCooldowns.Length == chunk.Count() && damageCooldowns[i] == cooldowns[i]
    modifies damageCooldowns, damagesPerEntity`DamagesPerEntity, ecb
    ensures damagesPerEntity.DamagesPerEntity == old(damagesPerEntity.DamagesPerEntity)
      + DealerEntries(chunk, cooldowns, i, elapsedTime, enemyDamageReceivers, playerData)
    ensures ecb.commands == old(ecb.commands) + DealerCommands(chunk, cooldowns, i, elapsedTime, enemyDamageReceivers, playerData)
    ensures damageCooldowns[..] == if chunk.HasDamageCooldown
      then old(damageCooldowns[..])[i := NextCooldown(cooldowns[i], elapsedTime)] else old(damageCooldowns[..])
  {
    if chunk.HasDamageCooldown {
      var over := ConsumeCooldown(damageCooldowns, i, elapsedTime);
      if !over {
        return;
      }
    }
    DealDamages(chunk, i, enemyDamageReceivers, playerData, damagesPerEntity, ecb);
  }

  /** The job's loop invariant once dealers `0..i` have been through it:
      entries and commands appended dealer after dealer, and their cooldowns
      updated. */
  ghost predicate JobState(chunk: DealerChunk, cooldowns: seq<DamageCooldown>, t: real,
                           receivers: seq<DamageReceiverData>, player: DamageReceiverData, i: nat,
                           entries0: seq<(Entity, DamageData)>, commands0: seq<Command>,
                           entries: seq<(Entity, DamageData)>, commands: seq<Command>, current: seq<DamageCooldown>)
  {
    && CooldownsFit(chunk, cooldowns) && i <= chunk.Count()
    && entries == entries0 + ChunkEntries(chunk, cooldowns, t, receivers, player, i)
    && commands == commands0 + ChunkCommands(chunk, cooldowns, t, receivers, player, i)
    && current == CooldownsAfter(chunk, cooldowns, t, i)
  }

  /** The body of the job's loop, which keeps its invariant. */
  method ComputeNext(chunk: DealerChunk, damageCooldowns: array<DamageCooldown>, ghost cooldowns: seq<DamageCooldown>, i: nat,
                     enemyDamageReceivers: seq<DamageReceiverData>, playerData: DamageReceiverData,
                     elapsedTime: real, damagesPerEntity: DamagesContainer, ecb: CommandBuffer,
                     ghost entries0: seq<(Entity, DamageData)>, ghost commands0: seq<Command>)
    requires i < chunk.Count()
    requires JobState(chunk, cooldowns, elapsedTime, enemyDamageReceivers, playerData, i, entries0, commands0,
                      damagesPerEntity.DamagesPerEntity, ecb.commands, damageCooldowns[..])
    modifies damageCooldowns, damagesPerEntity`DamagesPerEntity, ecb
    ensures JobState(chunk, cooldowns, elapsedTime, enemyDamageReceivers, playerData, i + 1, entries0, commands0,
                     damagesPerEntity.DamagesPerEntity, ecb.commands, damageCooldowns[..])
  {
    ghost var entries := damagesPerEntity.DamagesPerEntity;
    ghost var commands := ecb.commands;
    CooldownsAfterStep(chunk, cooldowns, elapsedTime, i);
    assert chunk.HasDamageCooldown ==> damageCooldowns[i] == damageCooldowns[..][i] == cooldowns[i];
    ComputeDealer(chunk, damageCooldowns, cooldowns, i, enemyDamageReceivers, playerData, elapsedTime, damagesPerEntity, ecb);
    ChunkProgress(chunk, cooldowns, elapsedTime, enemyDamageReceivers, playerData, i,
                  entries0, entries, damagesPerEntity.DamagesPerEntity, commands0, commands, ecb.commands);
  }

  /** `ComputeDamagesJob.Execute(chunk, …)`. */
  method ComputeDamages(chunk: DealerChunk, damageCooldowns: array<DamageCooldown>,
                        enemyDamageReceivers: seq<DamageReceiverData>, playerData: DamageReceiverData,
                        elapsedTime: real, damagesPerEntity: DamagesContainer, ecb: CommandBuffer)
    requires chunk.Valid() && (chunk.HasDamageCooldown ==> damageCooldowns.Length == chunk.Count())
    modifies damageCooldowns, damagesPerEntity`DamagesPerEntity, ecb
    ensures damagesPerEntity.DamagesPerEntity == old(damagesPerEntity.DamagesPerEntity)
      + ChunkEntries(chunk, old(damageCooldowns[..]), elapsedTime, enemyDamageReceivers, playerData, chunk.Count())
    ensures ecb.commands == old(ecb.commands)
      + ChunkCommands(chunk, old(damageCooldowns[..]), elapsedTime, enemyDamageReceivers, playerData, chunk.Count())
    ensures damageCooldowns[..] ==
      if chunk.HasDamageCooldown then NextCooldowns(old(damageCooldowns[..]), elapsedTime) else old(damageCooldowns[..])
  {
    ghost var cooldowns := damageCooldowns[..];
    ghost var entries0 := damagesPerEntity.DamagesPerEntity;
    ghost var commands0 := ecb.commands;
    for i := 0 to chunk.Count()
      invariant JobState(chunk, cooldowns, elapsedTime, enemyDamageReceivers, playerData, i, entries0, commands0,
                         damagesPerEntity.DamagesPerEntity, ecb.commands, damageCooldowns[..])
    {
      ComputeNext(chunk, damageCooldowns, cooldowns, i, enemyDamageReceivers, playerData, elapsedTime,
                  damagesPerEntity, ecb, entries0, commands0);
    }
    CooldownsAfterAll(chunk, cooldowns, elapsedTime, chunk.Count());
  }

  // ---------------------------------------------------------------------
  // Properties of ComputeDamagesJob

  /** A receiver is hit exactly when it is among the receivers and the
      dealer may hit it (target filter and reach). */
  lemma {:induction false} EnemyHitsMembership(chunk: DealerChunk, i: nat, receivers: seq<DamageReceiverData>, r: DamageReceiverData)
    requires chunk.Valid() && i < chunk.Count()
    ensures r in EnemyHits(chunk, i, receivers) <==> r in receivers && MayHitEnemy(chunk, i, r)
  {
    if receivers != [] {
      var prefix := receivers[..|receivers| - 1];
      EnemyHitsMembership(chunk, i, prefix, r);
      assert receivers == prefix + [receivers[|receivers| - 1]];
    }
  }

  /** Enemy side: dealer `i` adds the entry (`key`, `data`) exactly when its
      cooldown let it through and some receiver it may hit has entity `key`
      and position `data.Position`, `data.Damages` being the dealer's damages. */
  lemma EnemySideEntries(chunk: DealerChunk, cooldowns: seq<DamageCooldown>, i: nat, t: real,
                         receivers: seq<DamageReceiverData>, player: DamageReceiverData,
                         key: Entity, data: DamageData)
    requires CooldownsFit(chunk, cooldowns) && i < chunk.Count() && chunk.HasDamagesToEnemy
    ensures (key, data) in DealerEntries(chunk, cooldowns, i, t, receivers, player) <==>
      && IsActive(chunk, cooldowns, i, t)
      && data.Damages == chunk.DamageDealers[i].Damages
      && exists r :: r in receivers && MayHitEnemy(chunk, i, r) && r.Entity == key && r.Position == data.Position
  {
    var hits := EnemyHits(chunk, i, receivers);
    var entries := EnemyEntries(hits, chunk.DamageDealers[i].Damages);
    if IsActive(chunk, cooldowns, i, t) {
      if (key, data) in entries {
        var k :| 0 <= k < |entries| && entries[k] == (key, data);
        EnemyHitsMembership(chunk, i, receivers, hits[k]);
      }
      if data.Damages == chunk.DamageDealers[i].Damages &&
         exists r :: r in receivers && MayHitEnemy(chunk, i, r) && r.Entity == key && r.Position == data.Position {
        var r :| r in receivers && MayHitEnemy(chunk, i, r) && r.Entity == key && r.Position == data.Position;
        EnemyHitsMembership(chunk, i, receivers, r);
        var k :| 0 <= k < |hits| && hits[k] == r;
        assert entries[k] == (key, data);
      }
    }
  }

  /** A targeted dealer only ever damages its target. */
  lemma TargetedDealerHitsOnlyItsTarget(chunk: DealerChunk, cooldowns: seq<DamageCooldown>, i: nat, t: real,
                                        receivers: seq<DamageReceiverData>, player: DamageReceiverData)
    requires CooldownsFit(chunk, cooldowns) && i < chunk.Count()
    requires chunk.HasDamagesToEnemy && chunk.TargetedDamages.Some?
    ensures forall e :: e in DealerEntries(chunk, cooldowns, i, t, receivers, player) ==>
      e.0 == chunk.TargetedDamages.value[i].Target
  {
    forall e | e in DealerEntries(chunk, cooldowns, i, t, receivers, player)
      ensures e.0 == chunk.TargetedDamages.value[i].Target
    {
      EnemySideEntries(chunk, cooldowns, i, t, receivers, player, e.0, e.1);
    }
  }

  /** Player side: at most one entry, for the player, at the dealer's position. */
  lemma PlayerSideEntries(chunk: DealerChunk, cooldowns: seq<DamageCooldown>, i: nat, t: real,
                          receivers: seq<DamageReceiverData>, player: DamageReceiverData)
    requires CooldownsFit(chunk, cooldowns) && i < chunk.Count() && !chunk.HasDamagesToEnemy
    ensures var entries := DealerEntries(chunk, cooldowns, i, t, receivers, player);
      && |entries| <= 1
      && (|entries| == 1 <==> IsActive(chunk, cooldowns, i, t) && HitsPlayer(chunk, i, player))
      && forall e :: e in entries ==>
           e == (player.Entity, DamageData(chunk.LocalToWorlds[i].Position, chunk.DamageDealers[i].Damages))
  {
  }

  /** The command that destroys dealer `i`: immediate on the enemy side,
      deferred through `PendingDestruction` on the player side. */
  function DestructionCommand(chunk: DealerChunk, i: nat): Command
    requires chunk.Valid() && i < chunk.Count()
  {
    if chunk.HasDamagesToEnemy then DestroyEntityCommand(Existing(chunk.Entities[i]))
    else AddComponentCommand(Existing(chunk.Entities[i]), PendingDestruction)
  }

  /** A dealer records a command only when it has the `DestroyOnDamage` tag
      and has just added damages; the command is its destruction on the
      enemy side and a `PendingDestruction` on the player side. */
  lemma DestructionOnlyAfterHit(chunk: DealerChunk, cooldowns: seq<DamageCooldown>, i: nat, t: real,
                                receivers: seq<DamageReceiverData>, player: DamageReceiverData)
    requires CooldownsFit(chunk, cooldowns) && i < chunk.Count()
    ensures var commands := DealerCommands(chunk, cooldowns, i, t, receivers, player);
      && (commands != [] <==> chunk.HasDestroyOnDamage && DealerEntries(chunk, cooldowns, i, t, receivers, player) != [])
      && (commands != [] ==> commands == [DestructionCommand(chunk, i)])
  {
  }

  /** A chunk whose dealers are all still cooling down adds no damages and
      records no command. */
  lemma {:induction false} CoolingDownChunkDoesNothing(chunk: DealerChunk, cooldowns: seq<DamageCooldown>, t: real,
                                                       receivers: seq<DamageReceiverData>, player: DamageReceiverData, n: nat)
    requires CooldownsFit(chunk, cooldowns) && n <= chunk.Count()
    requires forall k :: 0 <= k < n ==> !IsActive(chunk, cooldowns, k, t)
    ensures ChunkEntries(chunk, cooldowns, t, receivers, player, n) == []
    ensures ChunkCommands(chunk, cooldowns, t, receivers, player, n) == []
  {
    if n > 0 {
      CoolingDownChunkDoesNothing(chunk, cooldowns, t, receivers, player, n - 1);
    }
  }

  /** Every command of a chunk destroys one of its own dealers, one that
      added damages in this run. */
  lemma {:induction false} ChunkCommandsFollowHits(chunk: DealerChunk, cooldowns: seq<DamageCooldown>, t: real,
                                                   receivers: seq<DamageReceiverData>, player: DamageReceiverData, n: nat)
    requires CooldownsFit(chunk, cooldowns) && n <= chunk.Count()
    ensures forall c :: c in ChunkCommands(chunk, cooldowns, t, receivers, player, n) ==>
      exists k :: 0 <= k < n && c == DestructionCommand(chunk, k) &&
                  DealerEntries(chunk, cooldowns, k, t, receivers, player) != []
  {
    if n > 0 {
      ChunkCommandsFollowHits(chunk, cooldowns, t, receivers, player, n - 1);
      DestructionOnlyAfterHit(chunk, cooldowns, n - 1, t, receivers, player);
      forall c | c in ChunkCommands(chunk, cooldowns, t, receivers, player, n)
        ensures exists k :: 0 <= k < n && c == DestructionCommand(chunk, k) &&
                            DealerEntries(chunk, cooldowns, k, t, receivers, player) != []
      {
        if c !in ChunkCommands(chunk, cooldowns, t, receivers, player, n - 1) {
          assert c in DealerCommands(chunk, cooldowns, n - 1, t, receivers, player);
        }
      }
    }
  }

  // ---------------------------------------------------------------------
  // DamagesSystem.OnUpdate

  /** `DAMAGES_CONTAINER_INITIAL_CAPACITY`. */
  const DAMAGES_CONTAINER_INITIAL_CAPACITY: int := 128

  /** The capacity `OnUpdate` leaves, as written: the test is on the
      receivers count plus one, but the new capacity is computed from the
      dealers count plus one. */
  function NewCapacityAsWritten(capacity: int, receiversCount: nat, dealersCount: nat): (r: int)
    ensures capacity >= receiversCount + 1 ==> r == capacity
    ensures capacity < receiversCount + 1 ==> r >= 0 && IsPowerOfTwo(r) && dealersCount + 1 <= r < 2 * (dealersCount + 1)
  {
    if capacity < receiversCount + 1 then CeilPow2(dealersCount + 1) else capacity
  }

  /** With the initial capacity of 128, 200 receivers and one dealer, the
      capacity is shrunk to 2, below the bound the guard tested for. */
  lemma CapacityAsWrittenEndsBelowGuard()
    ensures NewCapacityAsWritten(DAMAGES_CONTAINER_INITIAL_CAPACITY, 200, 1) == 2
    ensures NewCapacityAsWritten(DAMAGES_CONTAINER_INITIAL_CAPACITY, 200, 1) < 200 + 1
  {
    assert CeilPow2(2) == 2 * CeilPow2(1);
  }

  /** The capacity `OnUpdate` is evidently meant to leave: the guard's own
      bound, grown to a power of two only when the map is too small. */
  function NewCapacity(capacity: int, receiversCount: nat): (r: int)
    ensures r >= receiversCount + 1
    ensures capacity >= receiversCount + 1 ==> r == capacity
    ensures capacity < receiversCount + 1 ==> r >= 0 && IsPowerOfTwo(r) && r < 2 * (receiversCount + 1)
  {
    if capacity < receiversCount + 1 then CeilPow2(receiversCount + 1) else capacity
  }

  /** The dealer chunks of the frame fit their cooldown contents. */
  predicate ChunksFit(chunks: seq<DealerChunk>, cooldowns: seq<seq<DamageCooldown>>)
  {
    |cooldowns| == |chunks| && forall k :: 0 <= k < |chunks| ==> CooldownsFit(chunks[k], cooldowns[k])
  }

  /** The entries of the first `n` chunks of the frame. */
  function FrameEntries(chunks: seq<DealerChunk>, cooldowns: seq<seq<DamageCooldown>>, t: real,
                        receivers: seq<DamageReceiverData>, player: DamageReceiverData, n: nat): seq<(Entity, DamageData)>
    requires ChunksFit(chunks, cooldowns) && n <= |chunks|
  {
    if n == 0 then []
    else (FrameEntries(chunks, cooldowns, t, receivers, player, n - 1)
          + ChunkEntries(chunks[n - 1], cooldowns[n - 1], t, receivers, player, chunks[n - 1].Count()))
  }

  /** The commands of the first `n` chunks of the frame. */
  function FrameCommands(chunks: seq<DealerChunk>, cooldowns: seq<seq<DamageCooldown>>, t: real,
                         receivers: seq<DamageReceiverData>, player: DamageReceiverData, n: nat): seq<Command>
    requires ChunksFit(chunks, cooldowns) && n <= |chunks|
  {
    if n == 0 then []
    else (FrameCommands(chunks, cooldowns, t, receivers, player, n - 1)
          + ChunkCommands(chunks[n - 1], cooldowns[n - 1], t, receivers, player, chunks[n - 1].Count()))
  }

  /** The cooldowns of a chunk once the job has run over it: every dealer's
      cooldown advanced when the chunk has cooldowns, none otherwise. */
  function CooldownsAfterJob(chunk: DealerChunk, cooldowns: seq<DamageCooldown>, t: real): seq<DamageCooldown>
  {
    if chunk.HasDamageCooldown then NextCooldowns(cooldowns, t) else cooldowns
  }

  /** The system's loop invariant is kept by one more chunk. */
  lemma FrameProgress(chunks: seq<DealerChunk>, cooldowns: seq<seq<DamageCooldown>>, t: real,
                      receivers: seq<DamageReceiverData>, player: DamageReceiverData, n: nat,
                      entries: seq<(Entity, DamageData)>, entries': seq<(Entity, DamageData)>,
                      commands0: seq<Command>, commands: seq<Command>, commands': seq<Command>)
    requires ChunksFit(chunks, cooldowns) && n < |chunks|
    requires entries == FrameEntries(chunks, cooldowns, t, receivers, player, n)
    requires entries' == entries + ChunkEntries(chunks[n], cooldowns[n], t, receivers, player, chunks[n].Count())
    requires commands == commands0 + FrameCommands(chunks, cooldowns, t, receivers, player, n)
    requires commands' == commands + ChunkCommands(chunks[n], cooldowns[n], t, receivers, player, chunks[n].Count())
    ensures entries' == FrameEntries(chunks, cooldowns, t, receivers, player, n + 1)
    ensures commands' == commands0 + FrameCommands(chunks, cooldowns, t, receivers, player, n + 1)
  {
    AppendIsAssociative(commands0, FrameCommands(chunks, cooldowns, t, receivers, player, n),
                        ChunkCommands(chunks[n], cooldowns[n], t, receivers, player, chunks[n].Count()));
  }

  /** The cooldown arrays once the job has run over chunks `0..n`: those
      chunks' cooldowns advanced, the others untouched. */
  ghost predicate CooldownsState(chunks: seq<DealerChunk>, cooldowns: seq<array<DamageCooldown>>,
                                 contents: seq<seq<DamageCooldown>>, t: real, n: nat)
    reads set k | 0 <= k < |cooldowns| :: cooldowns[k]
  {
    && |cooldowns| == |chunks| == |contents|
    && forall k :: 0 <= k < |chunks| ==>
         cooldowns[k][..] == if k < n then CooldownsAfterJob(chunks[k], contents[k], t) else contents[k]
  }

  /** The map and the command buffer once the job has run over chunks `0..n`. */
  ghost predicate FrameState(chunks: seq<DealerChunk>, contents: seq<seq<DamageCooldown>>, t: real,
                             receivers: seq<DamageReceiverData>, player: DamageReceiverData, n: nat,
                             commands0: seq<Command>, entries: seq<(Entity, DamageData)>, commands: seq<Command>)
  {
    && ChunksFit(chunks, contents) && n <= |chunks|
    && entries == FrameEntries(chunks, contents, t, receivers, player, n)
    && commands == commands0 + FrameCommands(chunks, contents, t, receivers, player, n)
  }

  /** The body of the system's loop: the job over chunk `n`. */
  method RunChunk(n: nat, damagesContainer: DamagesContainer, chunks: seq<DealerChunk>, cooldowns: seq<array<DamageCooldown>>,
                  ghost contents: seq<seq<DamageCooldown>>, enemyDamageReceivers: seq<DamageReceiverData>,
                  playerData: DamageReceiverData, elapsedTime: real, ecb: CommandBuffer, ghost commands0: seq<Command>)
    requires n < |chunks| && ChunksFit(chunks, contents)
    requires forall a, b :: 0 <= a < b < |cooldowns| ==> cooldowns[a] != cooldowns[b]
    requires CooldownsState(chunks, cooldowns, contents, elapsedTime, n)
    requires FrameState(chunks, contents, elapsedTime, enemyDamageReceivers, playerData, n, commands0,
                        damagesContainer.DamagesPerEntity, ecb.commands)
    modifies damagesContainer`DamagesPerEntity, ecb, cooldowns[n]
    ensures CooldownsState(chunks, cooldowns, contents, elapsedTime, n + 1)
    ensures FrameState(chunks, contents, elapsedTime, enemyDamageReceivers, playerData, n + 1, commands0,
                       damagesContainer.DamagesPerEntity, ecb.commands)
  {
    assert CooldownsFit(chunks[n], contents[n]);
    assert cooldowns[n][..] == contents[n];
    ghost var entries := damagesContainer.DamagesPerEntity;
    ghost var commands := ecb.commands;
    label BeforeChunk:
    ComputeDamages(chunks[n], cooldowns[n], enemyDamageReceivers, playerData, elapsedTime, damagesContainer, ecb);
    FrameProgress(chunks, contents, elapsedTime, enemyDamageReceivers, playerData, n,
                  entries, damagesContainer.DamagesPerEntity, commands0, commands, ecb.commands);
    assert cooldowns[n][..] == CooldownsAfterJob(chunks[n], contents[n], elapsedTime);
    forall k | 0 <= k < |chunks| && k != n
      ensures cooldowns[k][..] == old@BeforeChunk(cooldowns[k][..])
    {
      assert cooldowns[k] != cooldowns[n];
    }
  }

  /** `DamagesSystem.OnUpdate`: the map is cleared and sized, then the job
      runs over every dealer chunk, so afterwards the map holds exactly this
      frame's damages. The system only runs when there are receivers and
      dealers. The capacity is the corrected one (see NewCapacityAsWritten). */
  method OnUpdate(damagesContainer: DamagesContainer, receiversCount: nat, dealersCount: nat,
                  chunks: seq<DealerChunk>, cooldowns: seq<array<DamageCooldown>>, ghost contents: seq<seq<DamageCooldown>>,
                  enemyDamageReceivers: seq<DamageReceiverData>, playerData: DamageReceiverData,
                  elapsedTime: real, ecb: CommandBuffer)
    requires receiversCount >= 1 && dealersCount >= 1
    requires |cooldowns| == |chunks| && |contents| == |chunks|
    requires forall k :: 0 <= k < |chunks| ==> cooldowns[k][..] == contents[k]
    requires ChunksFit(chunks, contents)
    requires forall a, b :: 0 <= a < b < |cooldowns| ==> cooldowns[a] != cooldowns[b]
    modifies damagesContainer, ecb, set k | 0 <= k < |cooldowns| :: cooldowns[k]
    ensures damagesContainer.Capacity == NewCapacity(old(damagesContainer.Capacity), receiversCount)
    ensures damagesContainer.DamagesPerEntity ==
      FrameEntries(chunks, contents, elapsedTime, enemyDamageReceivers, playerData, |chunks|)
    ensures ecb.commands == old(ecb.commands) +
      FrameCommands(chunks, contents, elapsedTime, enemyDamageReceivers, playerData, |chunks|)
    ensures forall k :: 0 <= k < |chunks| ==> cooldowns[k][..] == CooldownsAfterJob(chunks[k], contents[k], elapsedTime)
  {
    ghost var commands0 := ecb.commands;
    damagesContainer.DamagesPerEntity := [];
    if damagesContainer.Capacity < receiversCount + 1 {
      damagesContainer.Capacity := CeilPow2(receiversCount + 1);
    }
    for n := 0 to |chunks|
      invariant damagesContainer.Capacity == NewCapacity(old(damagesContainer.Capacity), receiversCount)
      invariant FrameState(chunks, contents, elapsedTime, enemyDamageReceivers, playerData, n, commands0,
                           damagesContainer.DamagesPerEntity, ecb.commands)
      invariant CooldownsState(chunks, cooldowns, contents, elapsedTime, n)
    {
      RunChunk(n, damagesContainer, chunks, cooldowns, contents, enemyDamageReceivers, playerData, elapsedTime, ecb, commands0);
    }
  }
}
