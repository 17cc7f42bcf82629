/** The entity command buffer (`EntityCommandBuffer` and its parallel writer)
    as the list of commands it records; playback is the engine's. An entity
    created by a recorded command is referred to as `Deferred(k)`, `k` being
    the position of the creating command. The components the core records are
    listed in `Component`. */
module Ecs {
  import opened Basics
  import opened Entities
  import opened AbilityIds

  /** The components the core puts on entities through a command buffer. */
  datatype Component =
    | DamagesToPlayer
    | DamagesToEnemy
    | PendingDestruction
    | VfxPrefabNotCreated
    | LocalTransformComponent(transform: LocalTransform)
    | LocalToWorldComponent(matrix: LocalToWorld)
    | Parent(Value: EntityRef)
      /** `Projectile`: `Velocity` is `normalizesafe(Direction.v) * Speed`. */
    | Projectile(Direction: Direction3, Speed: real)
    | AbilityComponent(AbilityId: AbilityId, Owner: Entity)
    | DamageNumberVfx(CreationElapsedTime: real)
      /** `MaterialMeshInfo.FromRenderMeshArrayIndices(material, mesh)`. */
    | MaterialMeshInfo(Material: int, Mesh: int)
      /** `CharacterCastColliders`, the two collider handles as opaque numbers. */
    | CharacterCastColliders(GroundCastCollider: int, ObstacleCastCollider: int)

  /** The enableable components the core switches. */
  datatype ComponentType = PendingAbilityType

  /** The dynamic-buffer elements the core appends. */
  datatype BufferElement =
    | OwnedAbilityElement(AbilityEntity: EntityRef)
    | LinkedEntityGroupElement(Value: EntityRef)

  datatype Command =
    | InstantiateCommand(prefab: Entity)
    | CreateEntityCommand
    | DestroyEntityCommand(target: EntityRef)
    | AddComponentCommand(target: EntityRef, component: Component)
    | SetComponentCommand(target: EntityRef, component: Component)
    | AppendToBufferCommand(target: EntityRef, element: BufferElement)
    | SetNameCommand(target: EntityRef, name: string)
    | SetComponentEnabledCommand(target: EntityRef, componentType: ComponentType, enabled: bool)

  /** A command that creates an entity when the buffer is played back. */
  predicate CreatesEntity(c: Command)
  {
    c.InstantiateCommand? || c.CreateEntityCommand?
  }

  /** Playback's fix-up of a reference carried by a recorded command: the
      placeholder `Deferred(k)` becomes the entity that the `k`-th command
      created, `created(k)`; a reference to an existing entity stays. */
  function Remapped(r: EntityRef, created: nat -> Entity): (e: EntityRef)
    ensures e.Existing?
    ensures r.Existing? ==> e == r
    ensures r.Deferred? ==> e.entity == created(r.command)
  {
    match r
    case Existing(_) => r
    case Deferred(k) => Existing(created(k))
  }

  /** The references that playback of `commands` appends to `owner`'s
      `OwnedAbility` buffer, in order, each remapped. Playback fixes up only
      what the commands carry: what a job wrote into a buffer directly is
      not among them. */
  function OwnedAbilityAppends(commands: seq<Command>, owner: Entity, created: nat -> Entity): (r: seq<EntityRef>)
    ensures |r| <= |commands|
    ensures forall e :: e in r ==> e.Existing?
  {
    if commands == [] then []
    else
      var previous := OwnedAbilityAppends(commands[..|commands| - 1], owner, created);
      var c := commands[|commands| - 1];
      if AppendsOwnedAbility(c, owner) then
        previous + [Remapped(c.element.AbilityEntity, created)]
      else previous
  }

  /** `c` appends an `OwnedAbility` element to `owner`'s buffer. */
  predicate AppendsOwnedAbility(c: Command, owner: Entity)
  {
    c.AppendToBufferCommand? && c.target == Existing(owner) && c.element.OwnedAbilityElement?
  }

  /** Every reference of `rs`, remapped. */
  function RemappedAll(rs: seq<EntityRef>, created: nat -> Entity): (r: seq<EntityRef>)
    ensures |r| == |rs| && forall i :: 0 <= i < |rs| ==> r[i] == Remapped(rs[i], created)
  {
    seq(|rs|, i requires 0 <= i < |rs| => Remapped(rs[i], created))
  }

  /** Commands none of which appends to `owner`'s `OwnedAbility` buffer
      append nothing to it at playback. */
  lemma {:induction false} NoOwnedAbilityAppends(commands: seq<Command>, owner: Entity, created: nat -> Entity)
    requires forall i :: 0 <= i < |commands| ==> !AppendsOwnedAbility(commands[i], owner)
    ensures OwnedAbilityAppends(commands, owner, created) == []
    decreases |commands|
  {
    if commands != [] {
      NoOwnedAbilityAppends(commands[..|commands| - 1], owner, created);
    }
  }

  /** Playing back two runs of commands appends what each run appends. */
  lemma {:induction false} OwnedAbilityAppendsConcat(a: seq<Command>, b: seq<Command>, owner: Entity, created: nat -> Entity)
    ensures OwnedAbilityAppends(a + b, owner, created) ==
      OwnedAbilityAppends(a, owner, created) + OwnedAbilityAppends(b, owner, created)
    decreases |b|
  {
    if b == [] {
      assert a + b == a;
    } else {
      var front := b[..|b| - 1];
      var c := b[|b| - 1];
      var last := if AppendsOwnedAbility(c, owner) then [Remapped(c.element.AbilityEntity, created)] else [];
      OwnedAbilityAppendsConcat(a, front, owner, created);
      assert (a + b)[..|a + b| - 1] == a + front && (a + b)[|a + b| - 1] == c;
      assert OwnedAbilityAppends(a + b, owner, created) == OwnedAbilityAppends(a + front, owner, created) + last;
      assert OwnedAbilityAppends(b, owner, created) == OwnedAbilityAppends(front, owner, created) + last;
    }
  }

  /** A command buffer: every method appends exactly its own command. */
  class CommandBuffer {
    var commands: seq<Command>

    constructor ()
      ensures commands == []
    {
      commands := [];
    }

    /** `Instantiate(prefab)`: the reference to the entity it will create. */
    method Instantiate(prefab: Entity) returns (r: EntityRef)
      modifies this
      ensures commands == old(commands) + [InstantiateCommand(prefab)]
      ensures r == Deferred(|old(commands)|) && CreatesEntity(commands[r.command])
    {
      r := Deferred(|commands|);
      commands := commands + [InstantiateCommand(prefab)];
    }

    /** `CreateEntity()`. */
    method CreateEntity() returns (r: EntityRef)
      modifies this
      ensures commands == old(commands) + [CreateEntityCommand]
      ensures r == Deferred(|old(commands)|) && CreatesEntity(commands[r.command])
    {
      r := Deferred(|commands|);
      commands := commands + [CreateEntityCommand];
    }

    method DestroyEntity(target: EntityRef)
      modifies this
      ensures commands == old(commands) + [DestroyEntityCommand(target)]
    {
      commands := commands + [DestroyEntityCommand(target)];
    }

    method AddComponent(target: EntityRef, component: Component)
      modifies this
      ensures commands == old(commands) + [AddComponentCommand(target, component)]
    {
      commands := commands + [AddComponentCommand(target, component)];
    }

    method SetComponent(target: EntityRef, component: Component)
      modifies this
      ensures commands == old(commands) + [SetComponentCommand(target, component)]
    {
      commands := commands + [SetComponentCommand(target, component)];
    }

    method AppendToBuffer(target: EntityRef, element: BufferElement)
      modifies this
      ensures commands == old(commands) + [AppendToBufferCommand(target, element)]
    {
      commands := commands + [AppendToBufferCommand(target, element)];
    }

    method SetName(target: EntityRef, name: string)
      modifies this
      ensures commands == old(commands) + [SetNameCommand(target, name)]
    {
      commands := commands + [SetNameCommand(target, name)];
    }

    method SetComponentEnabled(target: EntityRef, componentType: ComponentType, enabled: bool)
      modifies this
      ensures commands == old(commands) + [SetComponentEnabledCommand(target, componentType, enabled)]
    {
      commands := commands + [SetComponentEnabledCommand(target, componentType, enabled)];
    }
  }

  /** `DynamicBuffer<T>`, a per-entity list the core grows and clears in place. */
  class DynamicBuffer<T> {
    var elements: seq<T>

    constructor (initial: seq<T>)
      ensures elements == initial
    {
      elements := initial;
    }

    method Add(x: T)
      modifies this
      ensures elements == old(elements) + [x]
    {
      elements := elements + [x];
    }

    method Clear()
      modifies this
      ensures elements == []
    {
      elements := [];
    }
  }
}
