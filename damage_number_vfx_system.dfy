/** `DamageNumberVfxSystem` (Runtime/Vfx/DamageNumberVfx/DamageNumberVfxSystem.cs):
    every frame, one damage number per entry of the damages multimap, turned
    towards the camera's forward axis, and every number already shown rises
    for one second, then is destroyed with its digits. The camera's forward
    axis is a parameter, and so is the digit prefab (the entity at index 1 of
    the prefab's `LinkedEntityGroup`). */
module DamageNumberVfxSystem {
  import opened Basics
  import opened Entities
  import opened Ecs
  import opened DamagesSystem
  import opened DamageNumberLayout

  /** `UpdateVfxNumbers.VFX_LIFETIME`, in seconds. */
  const VFX_LIFETIME: real := 1.0

  /** `UpdateVfxNumbers.VFX_SPEED`. */
  const VFX_SPEED: real := 1.0

  /** `quaternion.LookRotation(cameraForward, math.up())`: one rotation for every number. */
  function NumberRotation(cameraForward: Float3): (r: Rotation)
    ensures r.LookRotation? && r.forward == cameraForward && r.up == Up
  {
    LookRotation(cameraForward, Up)
  }

  /** The commands recorded after `base` for the first `m` entries. */
  function InstantiatedCommands(base: seq<Command>, entries: seq<(Entity, DamageData)>, numberPrefab: Entity,
                                elapsedTime: real, cameraForward: Float3, m: nat): seq<Command>
    requires m <= |entries|
  {
    if m == 0 then base
    else
      var previous := InstantiatedCommands(base, entries, numberPrefab, elapsedTime, cameraForward, m - 1);
      previous + NumberCommands(|previous|, entries[m - 1].1, numberPrefab, elapsedTime, NumberRotation(cameraForward))
  }

  /** Each entry adds one root and one child per digit, and what came before is kept. */
  lemma {:induction false} InstantiatedCommandsGrow(base: seq<Command>, entries: seq<(Entity, DamageData)>, numberPrefab: Entity,
                                                    elapsedTime: real, cameraForward: Float3, m: nat)
    requires m <= |entries|
    ensures var commands := InstantiatedCommands(base, entries, numberPrefab, elapsedTime, cameraForward, m);
      && |commands| >= |base| + 4 * m
      && commands[..|base|] == base
  {
    if m > 0 {
      InstantiatedCommandsGrow(base, entries, numberPrefab, elapsedTime, cameraForward, m - 1);
      var previous := InstantiatedCommands(base, entries, numberPrefab, elapsedTime, cameraForward, m - 1);
      var commands := InstantiatedCommands(base, entries, numberPrefab, elapsedTime, cameraForward, m);
      assert commands[..|previous|] == previous;
      assert commands[..|base|] == previous[..|base|];
    }
  }

  /** Every number's root is placed 3 units above its damage position and
      turned along the camera's forward axis: one rotation for all of them,
      whatever their position. */
  lemma NumbersFaceCameraForward(base: seq<Command>, entries: seq<(Entity, DamageData)>, numberPrefab: Entity,
      elapsedTime: real, cameraForward: Float3, M: nat)
    requires M <= |entries|
    ensures var commands := InstantiatedCommands(base, entries, numberPrefab, elapsedTime, cameraForward, M);
      forall m :: 0 <= m < M ==>
        var root := |InstantiatedCommands(base, entries, numberPrefab, elapsedTime, cameraForward, m)|;
        && root + 4 <= |commands| && commands[root] == CreateEntityCommand
        && commands[root + 3] == AddComponentCommand(Deferred(root), LocalTransformComponent(
             LocalTransform(entries[m].1.Position.Plus(Float3(0.0, 3.0, 0.0)), LookRotation(cameraForward, Up), 1.0)))
  {
    forall m | 0 <= m < M
      ensures var root := |InstantiatedCommands(base, entries, numberPrefab, elapsedTime, cameraForward, m)|;
        var commands := InstantiatedCommands(base, entries, numberPrefab, elapsedTime, cameraForward, M);
        && root + 4 <= |commands| && commands[root] == CreateEntityCommand
        && commands[root + 3] == AddComponentCommand(Deferred(root), LocalTransformComponent(
             LocalTransform(entries[m].1.Position.Plus(Float3(0.0, 3.0, 0.0)), LookRotation(cameraForward, Up), 1.0)))
    {
      RootTransform(base, entries, numberPrefab, elapsedTime, cameraForward, m, M);
    }
  }

  /** The root commands of entry `m` are kept once the later entries are recorded. */
  lemma {:induction false} RootTransform(base: seq<Command>, entries: seq<(Entity, DamageData)>, numberPrefab: Entity,
      elapsedTime: real, cameraForward: Float3, m: nat, M: nat)
    requires m < M <= |entries|
    ensures var root := |InstantiatedCommands(base, entries, numberPrefab, elapsedTime, cameraForward, m)|;
      var commands := InstantiatedCommands(base, entries, numberPrefab, elapsedTime, cameraForward, M);
      && root + 4 <= |commands| && commands[root] == CreateEntityCommand
      && commands[root + 3] == AddComponentCommand(Deferred(root), LocalTransformComponent(
           LocalTransform(entries[m].1.Position.Plus(Float3(0.0, 3.0, 0.0)), LookRotation(cameraForward, Up), 1.0)))
    decreases M
  {
    var previous := InstantiatedCommands(base, entries, numberPrefab, elapsedTime, cameraForward, M - 1);
    var commands := InstantiatedCommands(base, entries, numberPrefab, elapsedTime, cameraForward, M);
    var data := entries[M - 1].1;
    var number := NumberCommands(|previous|, data, numberPrefab, elapsedTime, LookRotation(cameraForward, Up));
    assert commands == previous + number;
    if m == M - 1 {
      NumberRootCommands(|previous|, data, numberPrefab, elapsedTime, LookRotation(cameraForward, Up));
      assert commands[|previous|] == number[0] && commands[|previous| + 3] == number[3];
    } else {
      RootTransform(base, entries, numberPrefab, elapsedTime, cameraForward, m, M - 1);
      var root := |InstantiatedCommands(base, entries, numberPrefab, elapsedTime, cameraForward, m)|;
      assert commands[root] == previous[root] && commands[root + 3] == previous[root + 3];
    }
  }

  /** One entry of `InstantiateNumbersVfxJob.Execute`: the root, then the
      `for` loop over the digits with its running offset. */
  method InstantiateNumber(data: DamageData, numberPrefab: Entity, elapsedTime: real, cameraForward: Float3, ecb: CommandBuffer)
    modifies ecb
    ensures ecb.commands == old(ecb.commands) +
      NumberCommands(|old(ecb.commands)|, data, numberPrefab, elapsedTime, NumberRotation(cameraForward))
  {
    ghost var k := |ecb.commands|;
    var rootEntity := ecb.CreateEntity();
    ecb.AddComponent(rootEntity, DamageNumberVfx(elapsedTime));
    ecb.AddComponent(rootEntity, LocalToWorldComponent(LocalToWorld(data.Position, Identity, 1.0)));
    var numbersPosition := data.Position.Plus(Float3(0.0, 3.0, 0.0));
    var vfxRotation := LookRotation(cameraForward, Up);
    ecb.AddComponent(rootEntity, LocalTransformComponent(LocalTransform(numbersPosition, vfxRotation, 1.0)));

    ghost var rootCommands := ecb.commands;
    assert rootCommands == old(ecb.commands) + NumberCommands(k, data, numberPrefab, elapsedTime, NumberRotation(cameraForward))[..4];
    InstantiateDigits(rootEntity, numberPrefab, data.Damages, ecb);
    NumberProgress(old(ecb.commands), data, numberPrefab, elapsedTime, NumberRotation(cameraForward), rootCommands, ecb.commands);
  }

  /** `InstantiateNumbersVfxJob.Execute`: the entries of the multimap in the
      order its enumerator gives them. */
  method InstantiateNumbersVfx(entries: seq<(Entity, DamageData)>, numberPrefab: Entity, elapsedTime: real,
                               cameraForward: Float3, ecb: CommandBuffer)
    modifies ecb
    ensures ecb.commands == InstantiatedCommands(old(ecb.commands), entries, numberPrefab, elapsedTime, cameraForward, |entries|)
  {
    for e := 0 to |entries|
      invariant ecb.commands == InstantiatedCommands(old(ecb.commands), entries, numberPrefab, elapsedTime, cameraForward, e)
    {
      InstantiateNumber(entries[e].1, numberPrefab, elapsedTime, cameraForward, ecb);
    }
  }

  /** `UpdateVfxNumbers.Execute`: the transform written back through its
      `ref` is returned. */
  method UpdateVfxNumber(entity: Entity, localTransform: LocalTransform, creationElapsedTime: real, children: seq<Entity>,
                         elapsedTime: real, deltaTime: real, ecb: CommandBuffer)
    returns (newTransform: LocalTransform)
    modifies ecb
    ensures IsShown(creationElapsedTime, elapsedTime, VFX_LIFETIME) ==>
      newTransform == Risen(localTransform, VFX_SPEED, deltaTime) && ecb.commands == old(ecb.commands)
    ensures !IsShown(creationElapsedTime, elapsedTime, VFX_LIFETIME) ==>
      newTransform == localTransform && ecb.commands == old(ecb.commands) + DestroyCommands(entity, children)
  {
    newTransform := localTransform;
    if elapsedTime - creationElapsedTime < VFX_LIFETIME {
      newTransform := newTransform.(Position := newTransform.Position.Plus(Float3(0.0, VFX_SPEED * deltaTime, 0.0)));
    } else {
      ecb.DestroyEntity(Existing(entity));
      for j := 0 to |children|
        invariant ecb.commands == old(ecb.commands) + DestroyCommands(entity, children[..j])
      {
        assert children[..j + 1][..j] == children[..j];
        ecb.DestroyEntity(Existing(children[j]));
      }
      assert children[..|children|] == children;
    }
  }

  /** The transform `UpdateVfxNumbers` leaves to a number created at `creation`. */
  ghost function Updated(transform: LocalTransform, creation: real, elapsedTime: real, deltaTime: real): LocalTransform
  {
    if IsShown(creation, elapsedTime, VFX_LIFETIME) then Risen(transform, VFX_SPEED, deltaTime) else transform
  }

  /** `DamageNumberVfxSystem.OnUpdate`: the instantiation job, always
      scheduled, then, when some number exists, the update job over every
      number (entity, transform, creation time and `Child` buffer). */
  method OnUpdate(entries: seq<(Entity, DamageData)>, numberPrefab: Entity, elapsedTime: real, deltaTime: real,
                  cameraForward: Float3, vfxEntities: seq<Entity>, transforms: array<LocalTransform>,
                  creations: seq<real>, children: seq<seq<Entity>>, ecb: CommandBuffer)
    requires transforms.Length == |vfxEntities| == |creations| == |children|
    modifies transforms, ecb
    ensures forall k :: 0 <= k < transforms.Length ==>
      transforms[k] == if IsShown(creations[k], elapsedTime, VFX_LIFETIME) then Risen(old(transforms[k]), VFX_SPEED, deltaTime)
                       else old(transforms[k])
    ensures ecb.commands ==
      InstantiatedCommands(old(ecb.commands), entries, numberPrefab, elapsedTime, cameraForward, |entries|)
      + ExpiryCommands(vfxEntities, creations, children, elapsedTime, VFX_LIFETIME, |vfxEntities|)
  {
    InstantiateNumbersVfx(entries, numberPrefab, elapsedTime, cameraForward, ecb);
    ghost var instantiated := ecb.commands;
    if transforms.Length != 0 {
      for k := 0 to transforms.Length
        invariant forall m :: 0 <= m < k ==> transforms[m] == Updated(old(transforms[m]), creations[m], elapsedTime, deltaTime)
        invariant forall m :: k <= m < transforms.Length ==> transforms[m] == old(transforms[m])
        invariant ecb.commands == instantiated + ExpiryCommands(vfxEntities, creations, children, elapsedTime, VFX_LIFETIME, k)
      {
        ghost var commands := ecb.commands;
        assert transforms[k] == old(transforms[k]);
        transforms[k] := UpdateVfxNumber(vfxEntities[k], transforms[k], creations[k], children[k], elapsedTime, deltaTime, ecb);
        assert transforms[k] == Updated(old(transforms[k]), creations[k], elapsedTime, deltaTime);
        ExpiryProgress(vfxEntities, creations, children, elapsedTime, VFX_LIFETIME, k, instantiated, commands, ecb.commands);
      }
    }
  }
}
