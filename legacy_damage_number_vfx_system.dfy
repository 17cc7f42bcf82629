/** The older `DamageNumberVfxSystem` (Runtime/Vfx/DamageNumberVfxSystem.cs):
    when the damages multimap is not empty, one damage number per entry,
    turned from the camera's position towards the number; every number
    already shown rises and turns to keep facing the camera for 1.5 seconds,
    then is destroyed with its digits. The camera's position is a parameter,
    and so is the digit prefab (the entity at index 1 of the prefab's
    `LinkedEntityGroup`). */
module LegacyDamageNumberVfxSystem {
  import opened Basics
  import opened Entities
  import opened Ecs
  import opened DamagesSystem
  import opened DamageNumberLayout

  /** `UpdateVfxNumbers.VFX_LIFETIME`, in seconds. */
  const VFX_LIFETIME: real := 1.5

  /** `UpdateVfxNumbers.VFX_SPEED`. */
  const VFX_SPEED: real := 1.0

  /** `TransformHelpers.LookAtRotation(cameraPosition, position, math.up())`. */
  function NumberRotation(cameraPosition: Float3, position: Float3): (r: Rotation)
    ensures r.LookAtRotation? && r.eye == cameraPosition && r.target == position && r.up == Up
  {
    LookAtRotation(cameraPosition, position, Up)
  }

  /** The transform of a number still shown after one update: risen, and
      turned towards its new position as seen from the camera. */
  function Billboarded(transform: LocalTransform, cameraPosition: Float3, deltaTime: real): (r: LocalTransform)
    ensures r.Position == Risen(transform, VFX_SPEED, deltaTime).Position
    ensures r.Position.y - transform.Position.y == VFX_SPEED * deltaTime
    ensures r.Rotation == NumberRotation(cameraPosition, r.Position) && r.Scale == transform.Scale
  {
    var risen := Risen(transform, VFX_SPEED, deltaTime);
    risen.(Rotation := NumberRotation(cameraPosition, risen.Position))
  }

  /** The commands recorded after `base` for the first `m` entries. */
  function InstantiatedCommands(base: seq<Command>, entries: seq<(Entity, DamageData)>, numberPrefab: Entity,
                                elapsedTime: real, cameraPosition: Float3, m: nat): seq<Command>
    requires m <= |entries|
  {
    if m == 0 then base
    else
      var previous := InstantiatedCommands(base, entries, numberPrefab, elapsedTime, cameraPosition, m - 1);
      previous + NumberCommands(|previous|, entries[m - 1].1, numberPrefab, elapsedTime,
        NumberRotation(cameraPosition, entries[m - 1].1.Position.Plus(Float3(0.0, 3.0, 0.0))))
  }

  /** Each entry adds one root and one child per digit, and what came before is kept. */
  lemma {:induction false} InstantiatedCommandsGrow(base: seq<Command>, entries: seq<(Entity, DamageData)>, numberPrefab: Entity,
                                                    elapsedTime: real, cameraPosition: Float3, m: nat)
    requires m <= |entries|
    ensures var commands := InstantiatedCommands(base, entries, numberPrefab, elapsedTime, cameraPosition, m);
      && |commands| >= |base| + 4 * m
      && commands[..|base|] == base
  {
    if m > 0 {
      InstantiatedCommandsGrow(base, entries, numberPrefab, elapsedTime, cameraPosition, m - 1);
      var previous := InstantiatedCommands(base, entries, numberPrefab, elapsedTime, cameraPosition, m - 1);
      var commands := InstantiatedCommands(base, entries, numberPrefab, elapsedTime, cameraPosition, m);
      assert commands[..|previous|] == previous;
      assert commands[..|base|] == previous[..|base|];
    }
  }

  /** Every number's root is placed 3 units above its damage position and
      turned towards that position as seen from the camera. */
  lemma NumbersLookFromCamera(base: seq<Command>, entries: seq<(Entity, DamageData)>, numberPrefab: Entity,
      elapsedTime: real, cameraPosition: Float3, M: nat)
    requires M <= |entries|
    ensures var commands := InstantiatedCommands(base, entries, numberPrefab, elapsedTime, cameraPosition, M);
      forall m :: 0 <= m < M ==>
        var root := |InstantiatedCommands(base, entries, numberPrefab, elapsedTime, cameraPosition, m)|;
        && root + 4 <= |commands| && commands[root] == CreateEntityCommand
        && commands[root + 3] == AddComponentCommand(Deferred(root), LocalTransformComponent(
             LocalTransform(entries[m].1.Position.Plus(Float3(0.0, 3.0, 0.0)), LookAtRotation(cameraPosition, entries[m].1.Position.Plus(Float3(0.0, 3.0, 0.0)), Up), 1.0)))
  {
    forall m | 0 <= m < M
      ensures var root := |InstantiatedCommands(base, entries, numberPrefab, elapsedTime, cameraPosition, m)|;
        var commands := InstantiatedCommands(base, entries, numberPrefab, elapsedTime, cameraPosition, M);
        && root + 4 <= |commands| && commands[root] == CreateEntityCommand
        && commands[root + 3] == AddComponentCommand(Deferred(root), LocalTransformComponent(
             LocalTransform(entries[m].1.Position.Plus(Float3(0.0, 3.0, 0.0)), LookAtRotation(cameraPosition, entries[m].1.Position.Plus(Float3(0.0, 3.0, 0.0)), Up), 1.0)))
    {
      RootTransform(base, entries, numberPrefab, elapsedTime, cameraPosition, m, M);
    }
  }

  /** The root commands of entry `m` are kept once the later entries are recorded. */
  lemma {:induction false} RootTransform(base: seq<Command>, entries: seq<(Entity, DamageData)>, numberPrefab: Entity,
      elapsedTime: real, cameraPosition: Float3, m: nat, M: nat)
    requires m < M <= |entries|
    ensures var root := |InstantiatedCommands(base, entries, numberPrefab, elapsedTime, cameraPosition, m)|;
      var commands := InstantiatedCommands(base, entries, numberPrefab, elapsedTime, cameraPosition, M);
      && root + 4 <= |commands| && commands[root] == CreateEntityCommand
      && commands[root + 3] == AddComponentCommand(Deferred(root), LocalTransformComponent(
           LocalTransform(entries[m].1.Position.Plus(Float3(0.0, 3.0, 0.0)), LookAtRotation(cameraPosition, entries[m].1.Position.Plus(Float3(0.0, 3.0, 0.0)), Up), 1.0)))
    decreases M
  {
    var previous := InstantiatedCommands(base, entries, numberPrefab, elapsedTime, cameraPosition, M - 1);
    var commands := InstantiatedCommands(base, entries, numberPrefab, elapsedTime, cameraPosition, M);
    var data := entries[M - 1].1;
    var number := NumberCommands(|previous|, data, numberPrefab, elapsedTime, LookAtRotation(cameraPosition, entries[M - 1].1.Position.Plus(Float3(0.0, 3.0, 0.0)), Up));
    assert commands == previous + number;
    if m == M - 1 {
      NumberRootCommands(|previous|, data, numberPrefab, elapsedTime,
                         LookAtRotation(cameraPosition, entries[M - 1].1.Position.Plus(Float3(0.0, 3.0, 0.0)), Up));
      assert commands[|previous|] == number[0] && commands[|previous| + 3] == number[3];
    } else {
      RootTransform(base, entries, numberPrefab, elapsedTime, cameraPosition, m, M - 1);
      var root := |InstantiatedCommands(base, entries, numberPrefab, elapsedTime, cameraPosition, m)|;
      assert commands[root] == previous[root] && commands[root + 3] == previous[root + 3];
    }
  }

  /** One entry of `InstantiateNumbersVfxJob.Execute`: the root, then the
      `for` loop over the digits with its running offset. */
  method InstantiateNumber(data: DamageData, numberPrefab: Entity, elapsedTime: real, cameraPosition: Float3, ecb: CommandBuffer)
    modifies ecb
    ensures ecb.commands == old(ecb.commands) +
      NumberCommands(|old(ecb.commands)|, data, numberPrefab, elapsedTime,
        NumberRotation(cameraPosition, data.Position.Plus(Float3(0.0, 3.0, 0.0))))
  {
    ghost var k := |ecb.commands|;
    var rootEntity := ecb.CreateEntity();
    ecb.AddComponent(rootEntity, DamageNumberVfx(elapsedTime));
    ecb.AddComponent(rootEntity, LocalToWorldComponent(LocalToWorld(data.Position, Identity, 1.0)));
    var numbersPosition := data.Position.Plus(Float3(0.0, 3.0, 0.0));
    var vfxRotation := LookAtRotation(cameraPosition, numbersPosition, Up);
    ecb.AddComponent(rootEntity, LocalTransformComponent(LocalTransform(numbersPosition, vfxRotation, 1.0)));

    ghost var rootCommands := ecb.commands;
    assert rootCommands == old(ecb.commands) + NumberCommands(k, data, numberPrefab, elapsedTime, NumberRotation(cameraPosition, data.Position.Plus(Float3(0.0, 3.0, 0.0))))[..4];
    InstantiateDigits(rootEntity, numberPrefab, data.Damages, ecb);
    NumberProgress(old(ecb.commands), data, numberPrefab, elapsedTime, NumberRotation(cameraPosition, data.Position.Plus(Float3(0.0, 3.0, 0.0))), rootCommands, ecb.commands);
  }

  /** `InstantiateNumbersVfxJob.Execute`: the entries of the multimap in the
      order its enumerator gives them. */
  method InstantiateNumbersVfx(entries: seq<(Entity, DamageData)>, numberPrefab: Entity, elapsedTime: real,
                               cameraPosition: Float3, ecb: CommandBuffer)
    modifies ecb
    ensures ecb.commands == InstantiatedCommands(old(ecb.commands), entries, numberPrefab, elapsedTime, cameraPosition, |entries|)
  {
    for e := 0 to |entries|
      invariant ecb.commands == InstantiatedCommands(old(ecb.commands), entries, numberPrefab, elapsedTime, cameraPosition, e)
    {
      InstantiateNumber(entries[e].1, numberPrefab, elapsedTime, cameraPosition, ecb);
    }
  }

  /** `UpdateVfxNumbers.Execute`: the transform written back through its
      `ref` is returned. */
  method UpdateVfxNumber(entity: Entity, localTransform: LocalTransform, creationElapsedTime: real, children: seq<Entity>,
                         elapsedTime: real, deltaTime: real, cameraPosition: Float3, ecb: CommandBuffer)
    returns (newTransform: LocalTransform)
    modifies ecb
    ensures IsShown(creationElapsedTime, elapsedTime, VFX_LIFETIME) ==>
      newTransform == Billboarded(localTransform, cameraPosition, deltaTime) && ecb.commands == old(ecb.commands)
    ensures !IsShown(creationElapsedTime, elapsedTime, VFX_LIFETIME) ==>
      newTransform == localTransform && ecb.commands == old(ecb.commands) + DestroyCommands(entity, children)
  {
    newTransform := localTransform;
    if elapsedTime - creationElapsedTime < VFX_LIFETIME {
      var newPosition := localTransform.Position.Plus(Float3(0.0, VFX_SPEED * deltaTime, 0.0));
      var newRotation := LookAtRotation(cameraPosition, newPosition, Up);
      newTransform := newTransform.(Position := newPosition, Rotation := newRotation);
    } else {
      ecb.DestroyEntity(Existing(entity));
      for j := 0 to |children|
        invariant ecb.commands == old(ecb.commands) + DestroyCommands(entity, children[..j])
      {
        assert children[..j + 1][..j] == children[..j];
        ecb.DestroyEntity(Existing(children[j]));
      }
      assert children[..|children|] == children;
    }
  }

  /** `DamageNumberVfxSystem.OnUpdate`: the instantiation job when the
      multimap is not empty, then, when some number exists, the update job
      over every number (entity, transform, creation time and `Child` buffer). */
  method OnUpdate(entries: seq<(Entity, DamageData)>, numberPrefab: Entity, elapsedTime: real, deltaTime: real,
                  cameraPosition: Float3, vfxEntities: seq<Entity>, transforms: array<LocalTransform>,
                  creations: seq<real>, children: seq<seq<Entity>>, ecb: CommandBuffer)
    requires transforms.Length == |vfxEntities| == |creations| == |children|
    modifies transforms, ecb
    ensures forall k :: 0 <= k < transforms.Length ==>
      transforms[k] == if IsShown(creations[k], elapsedTime, VFX_LIFETIME) then Billboarded(old(transforms[k]), cameraPosition, deltaTime)
                       else old(transforms[k])
    ensures ecb.commands ==
      InstantiatedCommands(old(ecb.commands), entries, numberPrefab, elapsedTime, cameraPosition, |entries|)
      + ExpiryCommands(vfxEntities, creations, children, elapsedTime, VFX_LIFETIME, |vfxEntities|)
  {
    if entries != [] {
      InstantiateNumbersVfx(entries, numberPrefab, elapsedTime, cameraPosition, ecb);
    }
    ghost var instantiated := ecb.commands;
    if transforms.Length != 0 {
      for k := 0 to transforms.Length
        invariant forall m :: 0 <= m < k ==>
          transforms[m] == if IsShown(creations[m], elapsedTime, VFX_LIFETIME) then Billboarded(old(transforms[m]), cameraPosition, deltaTime)
                           else old(transforms[m])
        invariant forall m :: k <= m < transforms.Length ==> transforms[m] == old(transforms[m])
        invariant ecb.commands == instantiated + ExpiryCommands(vfxEntities, creations, children, elapsedTime, VFX_LIFETIME, k)
      {
        ghost var commands := ecb.commands;
        assert transforms[k] == old(transforms[k]);
        transforms[k] := UpdateVfxNumber(vfxEntities[k], transforms[k], creations[k], children[k], elapsedTime, deltaTime, cameraPosition, ecb);
        assert transforms[k] == if IsShown(creations[k], elapsedTime, VFX_LIFETIME) then Billboarded(old(transforms[k]), cameraPosition, deltaTime) else old(transforms[k]);
        ExpiryProgress(vfxEntities, creations, children, elapsedTime, VFX_LIFETIME, k, instantiated, commands, ecb.commands);
      }
    }
  }
}
