/** The damage-dealer authoring component and its baker
    (Runtime/Lifecycle/DamageDealerAuthoring.cs). The file repeats, word for
    word, every declaration of DamagesComponents.cs; this module keeps that
    second copy of `DamageType` and `DamageCooldown` apart from the one in
    module DamagesComponents. */
module DamageDealerAuthoring {
  import opened Basics
  import opened Entities
  import DamagesComponents

  /** `DamageType`, a `[Flags]` enum over `int`. */
  type DamageType = bv32

  const DestroyOnDamageFlag: DamageType := 1 << 0
  const SphereDamageZoneFlag: DamageType := 1 << 1
  const TargetedDamagesFlag: DamageType := 1 << 2

  /** `Enum.HasFlag(flag)`. */
  predicate HasFlag(value: DamageType, flag: DamageType)
  {
    value & flag == flag
  }

  /** `DamageCooldown` (second copy). */
  datatype DamageCooldown = DamageCooldown(CooldownDuration: real, LastDamageDealtElapsedTime: real) {

    /** `IsCooldownOver(elapsedTime)`: the strict test. */
    predicate IsCooldownOver(elapsedTime: real)
    {
      elapsedTime - LastDamageDealtElapsedTime > CooldownDuration
    }

    /** `OnDamagesDone(elapsedTime)`: records the time, keeps the duration. */
    function OnDamagesDone(elapsedTime: real): (r: DamageCooldown)
      ensures r.LastDamageDealtElapsedTime == elapsedTime
      ensures r.CooldownDuration == CooldownDuration
      ensures CooldownDuration >= 0.0 ==> !r.IsCooldownOver(elapsedTime)
    {
      DamageCooldown(CooldownDuration, elapsedTime)
    }
  }

  /** The two copies of the cooldown behave alike. */
  lemma CooldownCopiesAgree(duration: real, last: real, t: real)
    ensures DamageCooldown(duration, last).IsCooldownOver(t)
        <==> DamagesComponents.DamageCooldown(duration, last).IsCooldownOver(t)
    ensures DamageCooldown(duration, last).OnDamagesDone(t).LastDamageDealtElapsedTime
        == DamagesComponents.DamageCooldown(duration, last).OnDamagesDone(t).LastDamageDealtElapsedTime
  {
  }

  /** The components the baker adds to the dealer entity. */
  datatype BakedComponent =
    | DamageDealerComponent(dealer: DamagesComponents.DamageDealer)
    | DamagesToPlayerComponent
    | DamagesToEnemyComponent
    | DestroyOnDamageComponent
    | DamageSphereZoneComponent(zone: DamagesComponents.DamageSphereZone)
    | DamageCooldownComponent(cooldown: DamageCooldown)
    | TargetedDamagesComponent(targeted: DamagesComponents.TargetedDamages)

  /** `Mathf.Clamp(int, int, int)`. */
  function Clamp(value: int, min: int, max: int): (r: int)
    requires min <= max
    ensures min <= r <= max
    ensures min <= value <= max ==> r == value
  {
    if value < min then min else if value > max then max else value
  }

  /** `DamageDealerAuthoring`, the inspector-edited settings of a dealer. */
  class DamageDealerAuthoring {
    var Damages: UShort
    var DamagePlayer: bool
    var DamagesType: DamageType
    var SphereZoneRadius: real
    var CooldownDuration: real

    /** The field initialisers. */
    constructor ()
      ensures Damages == 0 && !DamagePlayer && DamagesType == DestroyOnDamageFlag
      ensures SphereZoneRadius == 1.0 && CooldownDuration == 0.5
    {
      Damages := 0;
      DamagePlayer := false;
      DamagesType := DestroyOnDamageFlag;
      SphereZoneRadius := 1.0;
      CooldownDuration := 0.5;
    }

    /** `OnValidate()`: damages are kept in 1..65535, so only 0 changes (to 1). */
    method OnValidate()
      modifies this`Damages
      ensures 1 <= Damages <= USHORT_MAX
      ensures old(Damages) >= 1 ==> Damages == old(Damages)
      ensures old(Damages) == 0 ==> Damages == 1
    {
      Damages := Clamp(Damages, 1, USHORT_MAX);
    }

    /** `DamageDealerAuthoringBaker.Bake`: the components added to the
        entity, in the order the baker adds them. */
    function Bake(): (components: seq<BakedComponent>)
      reads this
      ensures |components| >= 2
      ensures components[0] == DamageDealerComponent(DamagesComponents.DamageDealer(Damages))
      ensures components[1] == (if DamagePlayer then DamagesToPlayerComponent else DamagesToEnemyComponent)
    {
      [DamageDealerComponent(DamagesComponents.DamageDealer(Damages))]
      + (if DamagePlayer then [DamagesToPlayerComponent] else [DamagesToEnemyComponent])
      + (if HasFlag(DamagesType, DestroyOnDamageFlag) then [DestroyOnDamageComponent] else [])
      + (if HasFlag(DamagesType, SphereDamageZoneFlag)
         then [DamageSphereZoneComponent(DamagesComponents.DamageSphereZone(SphereZoneRadius)),
               DamageCooldownComponent(DamageCooldown(CooldownDuration, 0.0))]
         else [])
      + (if HasFlag(DamagesType, TargetedDamagesFlag)
         then [TargetedDamagesComponent(DamagesComponents.TargetedDamages(Null))]
         else [])
    }
  }

  /** A component is baked exactly when it is the dealer component, the tag
      of the side to damage, or a component of a flag that is set. */
  lemma BakeMembership(authoring: DamageDealerAuthoring, c: BakedComponent)
    ensures c in authoring.Bake() <==>
      || c == DamageDealerComponent(DamagesComponents.DamageDealer(authoring.Damages))
      || c == (if authoring.DamagePlayer then DamagesToPlayerComponent else DamagesToEnemyComponent)
      || (HasFlag(authoring.DamagesType, DestroyOnDamageFlag) && c == DestroyOnDamageComponent)
      || (HasFlag(authoring.DamagesType, SphereDamageZoneFlag) &&
          (c == DamageSphereZoneComponent(DamagesComponents.DamageSphereZone(authoring.SphereZoneRadius)) ||
           c == DamageCooldownComponent(DamageCooldown(authoring.CooldownDuration, 0.0))))
      || (HasFlag(authoring.DamagesType, TargetedDamagesFlag) && c == TargetedDamagesComponent(DamagesComponents.TargetedDamages(Null)))
  {
    var flags := authoring.DamagesType;
    var head := [DamageDealerComponent(DamagesComponents.DamageDealer(authoring.Damages))]
      + (if authoring.DamagePlayer then [DamagesToPlayerComponent] else [DamagesToEnemyComponent]);
    var destroy := if HasFlag(flags, DestroyOnDamageFlag) then [DestroyOnDamageComponent] else [];
    var zone := if HasFlag(flags, SphereDamageZoneFlag)
      then [DamageSphereZoneComponent(DamagesComponents.DamageSphereZone(authoring.SphereZoneRadius)),
            DamageCooldownComponent(DamageCooldown(authoring.CooldownDuration, 0.0))]
      else [];
    var targeted := if HasFlag(flags, TargetedDamagesFlag) then [TargetedDamagesComponent(DamagesComponents.TargetedDamages(Null))] else [];
    assert authoring.Bake() == head + destroy + zone + targeted;
    assert c in authoring.Bake() <==> c in head || c in destroy || c in zone || c in targeted;
  }

  /** Each flag of the damage type adds exactly its components, and the side
      to damage picks exactly one of the two tags. */
  lemma BakeContents(authoring: DamageDealerAuthoring)
    ensures DamagesToPlayerComponent in authoring.Bake() <==> authoring.DamagePlayer
    ensures DamagesToEnemyComponent in authoring.Bake() <==> !authoring.DamagePlayer
    ensures DestroyOnDamageComponent in authoring.Bake() <==> HasFlag(authoring.DamagesType, DestroyOnDamageFlag)
    ensures forall c :: c in authoring.Bake() && c.DamageSphereZoneComponent? ==> HasFlag(authoring.DamagesType, SphereDamageZoneFlag)
    ensures HasFlag(authoring.DamagesType, SphereDamageZoneFlag) ==>
      DamageSphereZoneComponent(DamagesComponents.DamageSphereZone(authoring.SphereZoneRadius)) in authoring.Bake() &&
      DamageCooldownComponent(DamageCooldown(authoring.CooldownDuration, 0.0)) in authoring.Bake()
    ensures forall c :: c in authoring.Bake() && c.DamageCooldownComponent? ==> HasFlag(authoring.DamagesType, SphereDamageZoneFlag)
    ensures TargetedDamagesComponent(DamagesComponents.TargetedDamages(Null)) in authoring.Bake()
      <==> HasFlag(authoring.DamagesType, TargetedDamagesFlag)
    ensures forall c :: c in authoring.Bake() && c.TargetedDamagesComponent? ==> c.targeted.Target == Null
  {
    BakeMembership(authoring, DamagesToPlayerComponent);
    BakeMembership(authoring, DamagesToEnemyComponent);
    BakeMembership(authoring, DestroyOnDamageComponent);
    BakeMembership(authoring, DamageSphereZoneComponent(DamagesComponents.DamageSphereZone(authoring.SphereZoneRadius)));
    BakeMembership(authoring, DamageCooldownComponent(DamageCooldown(authoring.CooldownDuration, 0.0)));
    BakeMembership(authoring, TargetedDamagesComponent(DamagesComponents.TargetedDamages(Null)));
    forall c | c in authoring.Bake()
      ensures c.DamageSphereZoneComponent? ==> HasFlag(authoring.DamagesType, SphereDamageZoneFlag)
      ensures c.DamageCooldownComponent? ==> HasFlag(authoring.DamagesType, SphereDamageZoneFlag)
      ensures c.TargetedDamagesComponent? ==> c.targeted.Target == Null
    {
      BakeMembership(authoring, c);
    }
  }
}
