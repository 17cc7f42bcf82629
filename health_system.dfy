/** `HealthSystem` (Runtime/Lifecycle/HealthSystem.cs): every entity with a
    health component loses the damages recorded for it in the damages
    multimap, one value after the other, saturating at zero hit points. */
module HealthSystem {
  import opened Basics
  import opened Entities
  import opened DamagesSystem

  /** `(ushort)math.max(0, hitPoints - damages)`: the difference of the two
      `ushort`s is an `int`, so it never wraps, and the cast back is exact. */
  function SaturatingSub(hitPoints: UShort, damages: UShort): (r: UShort)
    ensures r <= hitPoints
    ensures r > 0 ==> r + damages == hitPoints
    ensures r == 0 ==> damages >= hitPoints
  {
    if hitPoints - damages > 0 then hitPoints - damages else 0
  }

  /** The sum of the damages of `values`. */
  function TotalDamages(values: seq<DamageData>): nat
  {
    if values == [] then 0
    else TotalDamages(values[..|values| - 1]) + values[|values| - 1].Damages
  }

  /** The hit points left after subtracting every value in turn. Saturating at
      each step loses nothing: the result is the start minus the total, or 0. */
  function HitPointsAfter(hitPoints: UShort, values: seq<DamageData>): (r: UShort)
    ensures r == if hitPoints >= TotalDamages(values) then hitPoints - TotalDamages(values) else 0
    ensures r <= hitPoints
  {
    if values == [] then hitPoints
    else SaturatingSub(HitPointsAfter(hitPoints, values[..|values| - 1]), values[|values| - 1].Damages)
  }

  /** Removing one value from a sequence takes its damages off the total. */
  lemma {:induction false} TotalDamagesRemove(values: seq<DamageData>, j: nat)
    requires j < |values|
    ensures TotalDamages(values) == TotalDamages(values[..j] + values[j + 1..]) + values[j].Damages
    decreases |values|
  {
    var last := |values| - 1;
    if j < last {
      var prefix := values[..last];
      TotalDamagesRemove(prefix, j);
      assert prefix[..j] + prefix[j + 1..] == (values[..j] + values[j + 1..])[..last - 1];
      assert values[..j] + values[j + 1..] == prefix[..j] + prefix[j + 1..] + [values[last]];
    } else {
      assert values[..j] + values[j + 1..] == values[..last];
    }
  }

  /** The total does not depend on the order of the values. */
  lemma {:induction false} TotalDamagesPermutation(a: seq<DamageData>, b: seq<DamageData>)
    requires multiset(a) == multiset(b)
    ensures TotalDamages(a) == TotalDamages(b)
    decreases |a|
  {
    if a == [] {
      assert |b| == |multiset(b)| == 0;
    } else {
      var x := a[|a| - 1];
      var prefix := a[..|a| - 1];
      assert a == prefix + [x];
      assert x in multiset(b);
      var j :| 0 <= j < |b| && b[j] == x;
      var rest := b[..j] + b[j + 1..];
      assert b == b[..j] + [x] + b[j + 1..];
      assert multiset(b) == multiset(b[..j]) + multiset{x} + multiset(b[j + 1..]);
      assert multiset(a) == multiset(prefix) + multiset{x};
      assert multiset(rest) == multiset(b[..j]) + multiset(b[j + 1..]);
      assert multiset(prefix) == multiset(a) - multiset{x};
      assert multiset(rest) == multiset(b) - multiset{x};
      TotalDamagesPermutation(prefix, rest);
      TotalDamagesRemove(b, j);
    }
  }

  /** The multimap gives back the values of a key in no promised order; the
      hit points left are the same for every order. */
  lemma HitPointsAfterIsOrderIndependent(hitPoints: UShort, a: seq<DamageData>, b: seq<DamageData>)
    requires multiset(a) == multiset(b)
    ensures HitPointsAfter(hitPoints, a) == HitPointsAfter(hitPoints, b)
  {
    TotalDamagesPermutation(a, b);
  }

  /** `UpdateHealthJob.Execute`: the first value through `TryGetFirstValue`,
      the others through `TryGetNextValue`. */
  method UpdateHealth(entity: Entity, health: HealthComponent, damagesPerEntity: seq<(Entity, DamageData)>)
    returns (newHealth: HealthComponent)
    ensures newHealth.HitBoxRadius == health.HitBoxRadius
    ensures newHealth.HitPoints == HitPointsAfter(health.HitPoints, ValuesFor(damagesPerEntity, entity))
    ensures (forall d :: (entity, d) !in damagesPerEntity) ==> newHealth == health
  {
    newHealth := health;
    var values := ValuesFor(damagesPerEntity, entity);
    if |values| > 0 {
      assert values[0] in values;
      newHealth := newHealth.(HitPoints := SaturatingSub(newHealth.HitPoints, values[0].Damages));
      assert values[..1][..0] == [];
      var i := 1;
      while i < |values|
        invariant 1 <= i <= |values|
        invariant newHealth.HitBoxRadius == health.HitBoxRadius
        invariant newHealth.HitPoints == HitPointsAfter(health.HitPoints, values[..i])
      {
        assert values[..i + 1][..i] == values[..i];
        newHealth := newHealth.(HitPoints := SaturatingSub(newHealth.HitPoints, values[i].Damages));
        i := i + 1;
      }
      assert values[..i] == values;
    } else {
      assert forall d :: d !in values;
    }
  }

  /** `HealthSystem.OnUpdate`: the job over every entity with a health component. */
  method OnUpdate(entities: seq<Entity>, healths: array<HealthComponent>, damagesPerEntity: seq<(Entity, DamageData)>)
    requires healths.Length == |entities|
    modifies healths
    ensures forall k :: 0 <= k < healths.Length ==>
      && healths[k].HitBoxRadius == old(healths[k].HitBoxRadius)
      && healths[k].HitPoints == HitPointsAfter(old(healths[k].HitPoints), ValuesFor(damagesPerEntity, entities[k]))
  {
    for k := 0 to healths.Length
      invariant forall m :: 0 <= m < k ==>
        && healths[m].HitBoxRadius == old(healths[m].HitBoxRadius)
        && healths[m].HitPoints == HitPointsAfter(old(healths[m].HitPoints), ValuesFor(damagesPerEntity, entities[m]))
      invariant forall m :: k <= m < healths.Length ==> healths[m] == old(healths[m])
    {
      healths[k] := UpdateHealth(entities[k], healths[k], damagesPerEntity);
    }
  }
}
