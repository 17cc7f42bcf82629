/** The damage components (Runtime/Lifecycle/DamagesComponents.cs). */
module DamagesComponents {
  import opened Basics
  import opened Entities

  /** `DamageType`, a `[Flags]` enum over `int`. */
  type DamageType = bv32

  const DestroyOnDamageFlag: DamageType := 1 << 0
  const SphereDamageZoneFlag: DamageType := 1 << 1
  const TargetedDamagesFlag: DamageType := 1 << 2

  /** `Enum.HasFlag(flag)`: every bit of `flag` is set in `value`. */
  predicate HasFlag(value: DamageType, flag: DamageType)
  {
    value & flag == flag
  }

  /** The three flags are the distinct powers of two 1, 2 and 4, so each
      can be tested on its own. */
  lemma FlagsAreIndependent(value: DamageType)
    ensures DestroyOnDamageFlag == 1 && SphereDamageZoneFlag == 2 && TargetedDamagesFlag == 4
    ensures HasFlag(value | DestroyOnDamageFlag, DestroyOnDamageFlag)
    ensures HasFlag(value, SphereDamageZoneFlag) <==> HasFlag(value | DestroyOnDamageFlag, SphereDamageZoneFlag)
    ensures HasFlag(value, TargetedDamagesFlag) <==> HasFlag(value | DestroyOnDamageFlag, TargetedDamagesFlag)
  {
  }

  /** `DamageDealer`. */
  datatype DamageDealer = DamageDealer(Damages: UShort)

  /** `DamageCooldown`: durations and times in seconds. */
  datatype DamageCooldown = DamageCooldown(CooldownDuration: real, LastDamageDealtElapsedTime: real) {

    /** `IsCooldownOver(elapsedTime)`: strictly more than the duration has
        passed since the last damages. */
    predicate IsCooldownOver(elapsedTime: real)
    {
      elapsedTime - LastDamageDealtElapsedTime > CooldownDuration
    }

    /** `OnDamagesDone(elapsedTime)`: a new cooldown that starts at
        `elapsedTime`; the receiver itself is a value and is not changed. */
    function OnDamagesDone(elapsedTime: real): (r: DamageCooldown)
      ensures r.LastDamageDealtElapsedTime == elapsedTime
      ensures r.CooldownDuration == CooldownDuration
      ensures CooldownDuration >= 0.0 ==> !r.IsCooldownOver(elapsedTime)
    {
      DamageCooldown(CooldownDuration, elapsedTime)
    }
  }

  /** Once over, a cooldown stays over as time goes on. */
  lemma CooldownOverIsMonotone(c: DamageCooldown, t1: real, t2: real)
    requires c.IsCooldownOver(t1) && t1 <= t2
    ensures c.IsCooldownOver(t2)
  {
  }

  /** `OnDamagesDone` depends only on the duration and the time: applying it
      twice at the same time is applying it once. */
  lemma OnDamagesDoneIsIdempotent(c: DamageCooldown, t: real)
    ensures c.OnDamagesDone(t).OnDamagesDone(t) == c.OnDamagesDone(t)
  {
  }

  /** `DamageSphereZone`. */
  datatype DamageSphereZone = DamageSphereZone(Radius: real)

  /** `TargetedDamages`. */
  datatype TargetedDamages = TargetedDamages(Target: Entity)
}
