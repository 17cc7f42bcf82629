/** The engine values the core passes around: entities, references to
    entities created by a command buffer, rotations and transforms. */
module Entities {
  import opened Basics

  /** `Entity`: two entities are the same when index and version agree. */
  datatype Entity = Entity(Index: int, Version: int)

  /** `Entity.Null`. */
  const Null: Entity := Entity(0, 0)

  /** What a recorded command points at: an entity that already exists, or
      the entity that the command at position `command` of the same buffer
      will create when the buffer is played back. */
  datatype EntityRef = Existing(entity: Entity) | Deferred(command: nat)

  /** `float2`. */
  datatype Float2 = Float2(x: real, y: real)

  /** `math.up()`. */
  const Up: Float3 := Float3(0.0, 1.0, 0.0)

  /** `math.normalizesafe(v)`: the unit vector along `v`, or zero when `v`
      is (nearly) zero. Kept symbolic, since a square root is not a real
      operation here. */
  datatype Direction3 = NormalizeSafe(v: Float3)

  /** `quaternion`. `LookRotation`, `LookRotationSafe` and
      `TransformHelpers.LookAtRotation` are kept symbolic, by their arguments. */
  datatype Rotation =
    | Identity
    | Quaternion(x: real, y: real, z: real, w: real)
    | LookRotation(forward: Float3, up: Float3)
    | LookRotationSafe(direction: Direction3, up: Float3)
    | LookAtRotation(eye: Float3, target: Float3, up: Float3)

  /** `LocalTransform`. */
  datatype LocalTransform = LocalTransform(Position: Float3, Rotation: Rotation, Scale: real)

  /** `LocalToWorld`, the matrix `float4x4.TRS(position, rotation, scale)`
      given by its three parts. */
  datatype LocalToWorld = LocalToWorld(Position: Float3, Rotation: Rotation, Scale: real)

  /** `math.mul(q, new float3(0, 0, 1))` for a unit quaternion `q`: the
      forward axis it rotates to. */
  function ForwardOf(q: Rotation): (f: Float3)
    requires q.Quaternion?
    ensures q == Quaternion(0.0, 0.0, 0.0, 1.0) ==> f == Float3(0.0, 0.0, 1.0)
  {
    Float3(2.0 * (q.x * q.z + q.w * q.y),
           2.0 * (q.y * q.z - q.w * q.x),
           1.0 - 2.0 * (q.x * q.x + q.y * q.y))
  }

  /** The position of the first of `entities` whose key (read through a
      component lookup) is `key`. */
  function FirstMatch<K(==)>(entities: seq<Entity>, keyOf: Entity -> K, key: K): (r: Option<nat>)
    ensures r.None? <==> forall j :: 0 <= j < |entities| ==> keyOf(entities[j]) != key
    ensures r.Some? ==> r.value < |entities| && keyOf(entities[r.value]) == key
    ensures r.Some? ==> forall j :: 0 <= j < r.value ==> keyOf(entities[j]) != key
  {
    if entities == [] then None
    else if keyOf(entities[0]) == key then Some(0)
    else match FirstMatch(entities[1..], keyOf, key)
      case None => None
      case Some(k) => Some(k + 1)
  }
}
