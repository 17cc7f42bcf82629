/** `LaunchProjectilesJob` (Runtime/Projectiles/ProjectilesLaunchingSystem.cs):
    once its launch interval has elapsed, a projectile launcher looks for a
    target in range and, when it finds one, records the instantiation of a
    projectile aimed at it. The two component lookups are parameters: whether
    the owner is an enemy, the owner's transform and the prefab's scale. */
module ProjectilesLaunchingSystem {
  import opened Basics
  import opened Entities
  import opened Ecs
  import opened DamagesSystem

  /** `ProjectileLauncher`. */
  datatype ProjectileLauncher = ProjectileLauncher(
    ProjectilePrefab: Entity,
    LastLaunchTime: real,
    Damages: UShort,
    InitialVelocity: real,
    LaunchInterval: real,
    MinimalSqrDistanceToTarget: real)

  /** The launch interval has elapsed at `now`. */
  predicate IntervalElapsed(launcher: ProjectileLauncher, now: real)
  {
    launcher.LastLaunchTime + launcher.LaunchInterval <= now
  }

  /** The squared distance from the owner to a receiver. */
  function SqrDistance(receiver: DamageReceiverData, ownerPosition: Float3): real
  {
    DistanceSq(receiver.Position, ownerPosition)
  }

  /** A receiver may be picked: in range, and below the `float.MaxValue` the
      search starts from. */
  predicate Eligible(receiver: DamageReceiverData, ownerPosition: Float3, maxSqrDistance: real)
  {
    var d := SqrDistance(receiver, ownerPosition);
    d <= maxSqrDistance && d < FLOAT_MAX
  }

  /** Enemy `k` is the one the search must pick: eligible, strictly nearer
      than every eligible enemy before it and no farther than every eligible
      enemy after it. */
  predicate IsNearest(enemies: seq<DamageReceiverData>, ownerPosition: Float3, maxSqrDistance: real, k: nat)
  {
    && k < |enemies|
    && Eligible(enemies[k], ownerPosition, maxSqrDistance)
    && (forall j :: 0 <= j < k && Eligible(enemies[j], ownerPosition, maxSqrDistance) ==>
          SqrDistance(enemies[j], ownerPosition) > SqrDistance(enemies[k], ownerPosition))
    && (forall j :: k < j < |enemies| && Eligible(enemies[j], ownerPosition, maxSqrDistance) ==>
          SqrDistance(enemies[j], ownerPosition) >= SqrDistance(enemies[k], ownerPosition))
  }

  /** The index the player-side search ends with, the enemies being visited in order. */
  function NearestEnemy(enemies: seq<DamageReceiverData>, ownerPosition: Float3, maxSqrDistance: real): (r: Option<nat>)
    ensures r.None? <==> forall j :: 0 <= j < |enemies| ==> !Eligible(enemies[j], ownerPosition, maxSqrDistance)
    ensures r.Some? ==> IsNearest(enemies, ownerPosition, maxSqrDistance, r.value)
  {
    if enemies == [] then None
    else
      var last := |enemies| - 1;
      var best := NearestEnemy(enemies[..last], ownerPosition, maxSqrDistance);
      if Eligible(enemies[last], ownerPosition, maxSqrDistance) &&
         (best.None? || SqrDistance(enemies[last], ownerPosition) < SqrDistance(enemies[best.value], ownerPosition))
      then Some(last)
      else best
  }

  /** At most one enemy satisfies IsNearest. */
  lemma NearestIsUnique(enemies: seq<DamageReceiverData>, ownerPosition: Float3, maxSqrDistance: real, k1: nat, k2: nat)
    requires IsNearest(enemies, ownerPosition, maxSqrDistance, k1)
    requires IsNearest(enemies, ownerPosition, maxSqrDistance, k2)
    ensures k1 == k2
  {
  }

  /** The player-side search: the `foreach` over the enemy receivers keeping
      the smallest squared distance so far. */
  method FindNearestEnemy(enemies: seq<DamageReceiverData>, ownerPosition: Float3, maxSqrDistance: real)
    returns (projectileTarget: Entity, targetPosition: Float3)
    ensures NearestEnemy(enemies, ownerPosition, maxSqrDistance).None? ==>
      projectileTarget == Null && targetPosition == Zero3
    ensures NearestEnemy(enemies, ownerPosition, maxSqrDistance).Some? ==>
      var k := NearestEnemy(enemies, ownerPosition, maxSqrDistance).value;
      projectileTarget == enemies[k].Entity && targetPosition == enemies[k].Position
  {
    projectileTarget := Null;
    targetPosition := Zero3;
    var smallestSqrDistance := FLOAT_MAX;
    ghost var best: Option<nat> := None;
    for i := 0 to |enemies|
      invariant best == NearestEnemy(enemies[..i], ownerPosition, maxSqrDistance)
      invariant best.None? ==> projectileTarget == Null && targetPosition == Zero3 && smallestSqrDistance == FLOAT_MAX
      invariant best.Some? ==> best.value < i
      invariant best.Some? ==>
        && projectileTarget == enemies[best.value].Entity
        && targetPosition == enemies[best.value].Position
        && smallestSqrDistance == SqrDistance(enemies[best.value], ownerPosition)
    {
      assert enemies[..i + 1][..i] == enemies[..i];
      var sqrDistance := DistanceSq(enemies[i].Position, ownerPosition);
      if sqrDistance <= maxSqrDistance && sqrDistance < smallestSqrDistance {
        smallestSqrDistance := sqrDistance;
        projectileTarget := enemies[i].Entity;
        targetPosition := enemies[i].Position;
        best := Some(i);
      }
    }
    assert enemies[..|enemies|] == enemies;
  }

  /** The target an owner is given, and its position: an enemy owner only
      considers the player, the player considers every enemy. `Null` when
      there is none. */
  function TargetFor(isEnemy: bool, enemies: seq<DamageReceiverData>, player: DamageReceiverData,
                     ownerPosition: Float3, maxSqrDistance: real): (r: (Entity, Float3))
    ensures isEnemy && SqrDistance(player, ownerPosition) <= maxSqrDistance ==> r == (player.Entity, player.Position)
    ensures isEnemy && SqrDistance(player, ownerPosition) > maxSqrDistance ==> r == (Null, Zero3)
    ensures !isEnemy && r.0 != Null ==>
      exists k: nat :: IsNearest(enemies, ownerPosition, maxSqrDistance, k) && r == (enemies[k].Entity, enemies[k].Position)
    ensures !isEnemy && (forall j :: 0 <= j < |enemies| ==> !Eligible(enemies[j], ownerPosition, maxSqrDistance)) ==>
      r == (Null, Zero3)
    ensures !isEnemy && (exists j :: 0 <= j < |enemies| && Eligible(enemies[j], ownerPosition, maxSqrDistance)) ==>
      exists k: nat :: IsNearest(enemies, ownerPosition, maxSqrDistance, k) && r == (enemies[k].Entity, enemies[k].Position)
  {
    if isEnemy then
      if SqrDistance(player, ownerPosition) <= maxSqrDistance then (player.Entity, player.Position) else (Null, Zero3)
    else
      match NearestEnemy(enemies, ownerPosition, maxSqrDistance)
      case None => (Null, Zero3)
      case Some(k) => (enemies[k].Entity, enemies[k].Position)
  }

  /** The commands recording one launch, the projectile being created by the
      command at position `k` of the buffer. */
  function LaunchCommands(k: nat, launcher: ProjectileLauncher, isEnemy: bool, ownerTransform: LocalTransform,
                          prefabScale: real, targetPosition: Float3): (commands: seq<Command>)
    ensures |commands| == 4 && commands[0] == InstantiateCommand(launcher.ProjectilePrefab)
    ensures forall j :: 1 <= j < 4 ==> !CreatesEntity(commands[j]) && commands[j].target == Deferred(k)
    ensures commands[1] == AddComponentCommand(Deferred(k), if isEnemy then DamagesToPlayer else DamagesToEnemy)
    ensures commands[2].SetComponentCommand? && commands[2].component.LocalTransformComponent? &&
      commands[2].component.transform.Position == ownerTransform.Position.Plus(Float3(0.0, 0.5, 0.0))
    ensures commands[3].SetComponentCommand? && commands[3].component == Projectile(NormalizeSafe(targetPosition.Minus(ownerTransform.Position)), launcher.InitialVelocity)
  {
    var projectile := Deferred(k);
    [ InstantiateCommand(launcher.ProjectilePrefab),
      AddComponentCommand(projectile, if isEnemy then DamagesToPlayer else DamagesToEnemy),
      SetComponentCommand(projectile, LocalTransformComponent(
        LocalTransform(ownerTransform.Position.Plus(Float3(0.0, 0.5, 0.0)), ownerTransform.Rotation, prefabScale))),
      SetComponentCommand(projectile, Projectile(NormalizeSafe(targetPosition.Minus(ownerTransform.Position)), launcher.InitialVelocity)) ]
  }

  /** `LaunchProjectilesJob.Execute`. The launcher is returned updated, as
      the job writes it through its `ref`. */
  method LaunchProjectiles(launcher: ProjectileLauncher, isEnemy: bool, ownerTransform: LocalTransform, prefabScale: real,
                           enemies: seq<DamageReceiverData>, player: DamageReceiverData,
                           currentElapsedTime: real, ecb: CommandBuffer)
    returns (newLauncher: ProjectileLauncher)
    modifies ecb
    ensures var (target, targetPosition) :=
      TargetFor(isEnemy, enemies, player, ownerTransform.Position, launcher.MinimalSqrDistanceToTarget);
      if IntervalElapsed(launcher, currentElapsedTime) && target != Null then
        && newLauncher == launcher.(LastLaunchTime := currentElapsedTime)
        && ecb.commands == old(ecb.commands) +
             LaunchCommands(|old(ecb.commands)|, launcher, isEnemy, ownerTransform, prefabScale, targetPosition)
      else
        newLauncher == launcher && ecb.commands == old(ecb.commands)
  {
    newLauncher := launcher;
    if launcher.LastLaunchTime + launcher.LaunchInterval <= currentElapsedTime {
      var projectileTarget := Null;
      var targetPosition := Zero3;
      if isEnemy {
        var sqrDistance := DistanceSq(player.Position, ownerTransform.Position);
        if sqrDistance <= launcher.MinimalSqrDistanceToTarget {
          projectileTarget := player.Entity;
          targetPosition := player.Position;
        }
      } else {
        projectileTarget, targetPosition := FindNearestEnemy(enemies, ownerTransform.Position, launcher.MinimalSqrDistanceToTarget);
      }

      if projectileTarget != Null {
        var projectileInstance := ecb.Instantiate(launcher.ProjectilePrefab);
        if isEnemy {
          ecb.AddComponent(projectileInstance, DamagesToPlayer);
        } else {
          ecb.AddComponent(projectileInstance, DamagesToEnemy);
        }
        var projectileInitialPosition := ownerTransform.Position.Plus(Float3(0.0, 0.5, 0.0));
        ecb.SetComponent(projectileInstance, LocalTransformComponent(
          LocalTransform(projectileInitialPosition, ownerTransform.Rotation, prefabScale)));
        ecb.SetComponent(projectileInstance, Projectile(NormalizeSafe(targetPosition.Minus(ownerTransform.Position)), launcher.InitialVelocity));
        newLauncher := launcher.(LastLaunchTime := currentElapsedTime);
      }
    }
  }

  /** An enemy owner never looks at the enemy receivers, and the player never
      looks at the player receiver. */
  lemma TargetIgnoresOtherSide(isEnemy: bool, enemies1: seq<DamageReceiverData>, enemies2: seq<DamageReceiverData>,
                               player1: DamageReceiverData, player2: DamageReceiverData,
                               ownerPosition: Float3, maxSqrDistance: real)
    ensures isEnemy ==>
      TargetFor(isEnemy, enemies1, player1, ownerPosition, maxSqrDistance) ==
      TargetFor(isEnemy, enemies2, player1, ownerPosition, maxSqrDistance)
    ensures !isEnemy ==>
      TargetFor(isEnemy, enemies1, player1, ownerPosition, maxSqrDistance) ==
      TargetFor(isEnemy, enemies1, player2, ownerPosition, maxSqrDistance)
  {
  }
}
