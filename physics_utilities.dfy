/** Collision-layer masks and collision filters (Runtime/Physics/PhysicsUtilities.cs).
    The editor's layer collision matrix (`Physics.GetIgnoreLayerCollision`)
    is a parameter. Bit positions are `bv32`s below 32. */
module PhysicsUtilities {

  /** Bit `i` of a 32-bit mask. */
  predicate BitSet(mask: bv32, i: bv32)
    requires i < 32
  {
    (mask >> i) & 1 == 1
  }

  /** A bit of a union is set when it is set in either operand. */
  lemma BitSetOr(a: bv32, b: bv32, i: bv32)
    requires i < 32
    ensures BitSet(a | b, i) <==> BitSet(a, i) || BitSet(b, i)
  {
  }

  /** `1u << k` has exactly bit `k` set. */
  lemma SingleBit(k: bv32, i: bv32)
    requires i < 32 && k < 32
    ensures BitSet((1 as bv32) << k, i) <==> i == k
  {
  }

  lemma BelowSuccessor(i: bv32, k: bv32)
    requires k < 32
    ensures i < k + 1 <==> i < k || i == k
  {
  }

  datatype CollisionFilter = CollisionFilter(BelongsTo: bv32, CollidesWith: bv32, GroupIndex: int)

  /** `LayerToMask(layer)`: `1u << layer`. C# keeps only the low five bits
      of a 32-bit shift count, so the set bit is at `layer mod 32`. */
  function LayerToMask(layer: int): (r: bv32)
    ensures forall i: bv32 :: i < 32 ==> (BitSet(r, i) <==> i == (layer % 32) as bv32)
  {
    (1 as bv32) << ((layer % 32) as bv32)
  }

  /** `BuildCollidesWithMask(layer)`: bit `other` is set exactly when the
      collision matrix does not ignore collisions between `layer` and `other`. */
  method BuildCollidesWithMask(layer: int, ignoreLayerCollision: (int, int) -> bool) returns (mask: bv32)
    ensures forall i: bv32 :: i < 32 ==> (BitSet(mask, i) <==> !ignoreLayerCollision(layer, i as int))
  {
    mask := 0;
    var other: bv32 := 0;
    while other < 32
      invariant other <= 32
      invariant forall i: bv32 :: i < other ==> (BitSet(mask, i) <==> !ignoreLayerCollision(layer, i as int))
      invariant forall i: bv32 :: other <= i < 32 ==> !BitSet(mask, i)
    {
      var newMask := mask;
      var disabled := ignoreLayerCollision(layer, other as int);
      if !disabled {
        var bit := (1 as bv32) << other;
        newMask := mask | bit;
        forall i: bv32 | i < 32
          ensures BitSet(newMask, i) <==> BitSet(mask, i) || i == other
        {
          BitSetOr(mask, bit, i);
          SingleBit(other, i);
        }
      }
      forall i: bv32 | i < other + 1
        ensures BitSet(newMask, i) <==> !ignoreLayerCollision(layer, i as int)
      {
        BelowSuccessor(i, other);
      }
      forall i: bv32 | other + 1 <= i < 32
        ensures !BitSet(newMask, i)
      {
        BelowSuccessor(i, other);
      }
      mask := newMask;
      other := other + 1;
    }
  }

  /** `BuildFilterWithCollisionMatrix(layer)`: belongs to the layer, collides
      with every layer the matrix does not ignore. */
  method BuildFilterWithCollisionMatrix(layer: int, ignoreLayerCollision: (int, int) -> bool) returns (filter: CollisionFilter)
    ensures forall i: bv32 :: i < 32 ==> (BitSet(filter.BelongsTo, i) <==> i == (layer % 32) as bv32)
    ensures forall i: bv32 :: i < 32 ==> (BitSet(filter.CollidesWith, i) <==> !ignoreLayerCollision(layer, i as int))
    ensures filter.GroupIndex == 0
  {
    var collidesWith := BuildCollidesWithMask(layer, ignoreLayerCollision);
    filter := CollisionFilter(LayerToMask(layer), collidesWith, 0);
  }

  /** `BuildFilter(layer)`: belongs to and collides with the one layer. */
  function BuildFilter(layer: int): (filter: CollisionFilter)
    ensures filter.BelongsTo == filter.CollidesWith
    ensures forall i: bv32 :: i < 32 ==> (BitSet(filter.CollidesWith, i) <==> i == (layer % 32) as bv32)
    ensures filter.GroupIndex == 0
  {
    CollisionFilter(LayerToMask(layer), LayerToMask(layer), 0)
  }

  /** `BuildFilterForRaycast(collidesWithLayer)`: belongs to every layer,
      collides with the one layer. */
  function BuildFilterForRaycast(collidesWithLayer: int): (filter: CollisionFilter)
    ensures forall i: bv32 :: i < 32 ==> BitSet(filter.BelongsTo, i)
    ensures forall i: bv32 :: i < 32 ==> (BitSet(filter.CollidesWith, i) <==> i == (collidesWithLayer % 32) as bv32)
    ensures filter.GroupIndex == 0
  {
    CollisionFilter(!(0 as bv32), LayerToMask(collidesWithLayer), 0)
  }
}
