/** `AbilitiesInitializationSystem` (Runtime/Ability/AbilitiesInitializationSystem.cs):
    every entity with pending abilities gets, for each pending ability id,
    an instance of the first ability prefab with that id, attached to it and
    recorded among its owned abilities; its pending abilities are then
    cleared and switched off. The `AbilityComponent` lookup on the prefabs
    and the `AvatarCharacterComponent` test on the owners are parameters. */
module AbilitiesInitializationSystem {
  import opened Basics
  import opened Entities
  import opened AbilityIds
  import opened Ecs

  /** The commands recording one ability instance, created by the command
      at position `k`, of the prefab `prefab` for the owner `owner`. The
      instance is also appended to the owner's `OwnedAbility` buffer, and
      linked to the owner so that it dies with it. */
  function AbilityCommands(k: nat, owner: Entity, prefab: Entity, id: AbilityId,
                           localToWorld: LocalToWorld, isAvatar: bool): (commands: seq<Command>)
    ensures |commands| == 9 && commands[0] == InstantiateCommand(prefab)
  {
    var instance := Deferred(k);
    [ InstantiateCommand(prefab),
      SetNameCommand(instance, "Ability"),
      SetComponentCommand(instance, LocalToWorldComponent(localToWorld)),
      AddComponentCommand(instance, Parent(Existing(owner))),
      AddComponentCommand(instance, if isAvatar then DamagesToEnemy else DamagesToPlayer),
      AppendToBufferCommand(Existing(owner), OwnedAbilityElement(instance)),
      SetComponentCommand(instance, AbilityComponent(id, owner)),
      AppendToBufferCommand(Existing(owner), LinkedEntityGroupElement(instance)),
      AddComponentCommand(instance, VfxPrefabNotCreated) ]
  }

  /** What the commands of one instance give it: only the first creates an
      entity; the damage tag follows the owner (`DamagesToEnemy` for the
      avatar, `DamagesToPlayer` otherwise); the owner records it in its
      `OwnedAbility` and `LinkedEntityGroup` buffers; its `AbilityComponent`
      carries the pending id and the owner. */
  lemma AbilityCommandsContents(k: nat, owner: Entity, prefab: Entity, id: AbilityId,
                                localToWorld: LocalToWorld, isAvatar: bool)
    ensures var commands := AbilityCommands(k, owner, prefab, id, localToWorld, isAvatar);
      && (forall j :: 1 <= j < 9 ==> !CreatesEntity(commands[j]))
      && AddComponentCommand(Deferred(k), if isAvatar then DamagesToEnemy else DamagesToPlayer) in commands
      && AddComponentCommand(Deferred(k), if isAvatar then DamagesToPlayer else DamagesToEnemy) !in commands
      && AddComponentCommand(Deferred(k), Parent(Existing(owner))) in commands
      && AppendToBufferCommand(Existing(owner), OwnedAbilityElement(Deferred(k))) in commands
      && SetComponentCommand(Deferred(k), AbilityComponent(id, owner)) in commands
      && AppendToBufferCommand(Existing(owner), LinkedEntityGroupElement(Deferred(k))) in commands
  {
  }

  /** The commands after `base` once the first `n` pending ids are handled:
      an id with no matching prefab records nothing. */
  function PendingCommands(base: seq<Command>, owner: Entity, pending: seq<AbilityId>, prefabs: seq<Entity>,
                           idOf: Entity -> AbilityId, localToWorld: LocalToWorld, isAvatar: bool, n: nat): seq<Command>
    requires n <= |pending|
  {
    if n == 0 then base
    else
      var previous := PendingCommands(base, owner, pending, prefabs, idOf, localToWorld, isAvatar, n - 1);
      match FirstMatch(prefabs, idOf, pending[n - 1])
      case None => previous
      case Some(j) => previous + AbilityCommands(|previous|, owner, prefabs[j], pending[n - 1], localToWorld, isAvatar)
  }

  /** The instances created for the first `n` pending ids, in pending order. */
  function Instances(base: seq<Command>, owner: Entity, pending: seq<AbilityId>, prefabs: seq<Entity>,
                     idOf: Entity -> AbilityId, localToWorld: LocalToWorld, isAvatar: bool, n: nat): seq<EntityRef>
    requires n <= |pending|
  {
    if n == 0 then []
    else
      var previous := Instances(base, owner, pending, prefabs, idOf, localToWorld, isAvatar, n - 1);
      match FirstMatch(prefabs, idOf, pending[n - 1])
      case None => previous
      case Some(_) => previous + [Deferred(|PendingCommands(base, owner, pending, prefabs, idOf, localToWorld, isAvatar, n - 1)|)]
  }

  /** The prefab search: the inner `foreach`, which stops at the first prefab
      with the pending id. */
  method FindAbilityPrefab(prefabs: seq<Entity>, idOf: Entity -> AbilityId, id: AbilityId) returns (found: Option<nat>)
    ensures found == FirstMatch(prefabs, idOf, id)
  {
    for j := 0 to |prefabs|
      invariant forall m :: 0 <= m < j ==> idOf(prefabs[m]) != id
    {
      if idOf(prefabs[j]) == id {
        assert FirstMatch(prefabs, idOf, id) == Some(j);
        return Some(j);
      }
    }
    return None;
  }

  /** The commands after the instance is parented: its damage tag, its
      `OwnedAbility` and `LinkedEntityGroup` entries, its `AbilityComponent`
      and `VfxPrefabNotCreated`. */
  method RecordTail(abilityInstance: EntityRef, abilityOwnerEntity: Entity, ghost abilityPrefab: Entity, id: AbilityId,
                    ghost localToWorld: LocalToWorld, isAvatar: bool, ecb: CommandBuffer)
    requires abilityInstance.Deferred?
    modifies ecb
    ensures ecb.commands == old(ecb.commands) +
      AbilityCommands(abilityInstance.command, abilityOwnerEntity, abilityPrefab, id, localToWorld, isAvatar)[4..]
  {
    ghost var c0 := ecb.commands;
    ghost var expected := AbilityCommands(abilityInstance.command, abilityOwnerEntity, abilityPrefab, id, localToWorld, isAvatar)[4..];
    if isAvatar {
      ecb.AddComponent(abilityInstance, DamagesToEnemy);
    } else {
      ecb.AddComponent(abilityInstance, DamagesToPlayer);
    }
    assert ecb.commands == c0 + expected[..1];
    ecb.AppendToBuffer(Existing(abilityOwnerEntity), OwnedAbilityElement(abilityInstance));
    ecb.SetComponent(abilityInstance, AbilityComponent(id, abilityOwnerEntity));
    ecb.AppendToBuffer(Existing(abilityOwnerEntity), LinkedEntityGroupElement(abilityInstance));
    ecb.AddComponent(abilityInstance, VfxPrefabNotCreated);
    assert expected == expected[..1] + expected[1..];
  }

  /** The body of the inner `foreach` once a prefab matches, as written: the
      owned buffer gets the instance's placeholder directly, besides the
      recorded `AppendToBuffer` (see `RecordAbilityListsInstanceTwice`). */
  method RecordAbility(abilityOwnerEntity: Entity, abilityPrefab: Entity, id: AbilityId, localToWorld: LocalToWorld,
                       isAvatar: bool, ownedAbilities: DynamicBuffer<EntityRef>, ecb: CommandBuffer)
    modifies ownedAbilities, ecb
    ensures ecb.commands == old(ecb.commands) +
      AbilityCommands(|old(ecb.commands)|, abilityOwnerEntity, abilityPrefab, id, localToWorld, isAvatar)
    ensures ownedAbilities.elements == old(ownedAbilities.elements) + [Deferred(|old(ecb.commands)|)]
  {
    ghost var c0 := ecb.commands;
    ghost var expected := AbilityCommands(|c0|, abilityOwnerEntity, abilityPrefab, id, localToWorld, isAvatar);
    var abilityInstance := ecb.Instantiate(abilityPrefab);
    ecb.SetName(abilityInstance, "Ability");
    ownedAbilities.Add(abilityInstance);
    ecb.SetComponent(abilityInstance, LocalToWorldComponent(localToWorld));
    ecb.AddComponent(abilityInstance, Parent(Existing(abilityOwnerEntity)));
    assert ecb.commands == c0 + expected[..4];
    RecordTail(abilityInstance, abilityOwnerEntity, abilityPrefab, id, localToWorld, isAvatar, ecb);
    assert expected == expected[..4] + expected[4..];
  }

  /** `RecordAbility` as the job evidently means it: the instance is recorded
      in the owner's `OwnedAbility` buffer by the `AppendToBuffer` command
      alone, with no direct entry. */
  method RecordAbilityOnce(abilityOwnerEntity: Entity, abilityPrefab: Entity, id: AbilityId, localToWorld: LocalToWorld,
                           isAvatar: bool, ecb: CommandBuffer)
    modifies ecb
    ensures ecb.commands == old(ecb.commands) +
      AbilityCommands(|old(ecb.commands)|, abilityOwnerEntity, abilityPrefab, id, localToWorld, isAvatar)
  {
    ghost var c0 := ecb.commands;
    ghost var expected := AbilityCommands(|c0|, abilityOwnerEntity, abilityPrefab, id, localToWorld, isAvatar);
    var abilityInstance := ecb.Instantiate(abilityPrefab);
    ecb.SetName(abilityInstance, "Ability");
    ecb.SetComponent(abilityInstance, LocalToWorldComponent(localToWorld));
    ecb.AddComponent(abilityInstance, Parent(Existing(abilityOwnerEntity)));
    assert ecb.commands == c0 + expected[..4];
    RecordTail(abilityInstance, abilityOwnerEntity, abilityPrefab, id, localToWorld, isAvatar, ecb);
    assert expected == expected[..4] + expected[4..];
  }

  /** After playback of one instance's commands, the owner's `OwnedAbility`
      buffer holds what it held plus the instance itself, once: the entity
      its `Instantiate` command created. */
  lemma RecordedOnceAfterPlayback(owned: seq<EntityRef>, k: nat, owner: Entity, prefab: Entity, id: AbilityId,
                                  localToWorld: LocalToWorld, isAvatar: bool, created: nat -> Entity)
    ensures owned + OwnedAbilityAppends(AbilityCommands(k, owner, prefab, id, localToWorld, isAvatar), owner, created) ==
      owned + [Existing(created(k))]
  {
    var commands := AbilityCommands(k, owner, prefab, id, localToWorld, isAvatar);
    assert commands == commands[..5] + [commands[5]] + commands[6..];
    NoOwnedAbilityAppends(commands[..5], owner, created);
    NoOwnedAbilityAppends(commands[6..], owner, created);
    OwnedAbilityAppendsConcat(commands[..5], [commands[5]], owner, created);
    OwnedAbilityAppendsConcat(commands[..5] + [commands[5]], commands[6..], owner, created);
    assert OwnedAbilityAppends([commands[5]], owner, created) == [Existing(created(k))] by {
      assert [commands[5]][..0] == [];
    }
  }

  /** What `RecordAbility` leaves in the owner's `OwnedAbility` buffer once
      its commands are played back: the placeholder it added directly, which
      playback never remaps, and then the created entity. */
  lemma RecordAbilityListsInstanceTwice(owned: seq<EntityRef>, k: nat, owner: Entity, prefab: Entity, id: AbilityId,
                                        localToWorld: LocalToWorld, isAvatar: bool, created: nat -> Entity)
    ensures (owned + [Deferred(k)]) + OwnedAbilityAppends(AbilityCommands(k, owner, prefab, id, localToWorld, isAvatar), owner, created) ==
      owned + [Deferred(k), Existing(created(k))]
  {
    RecordedOnceAfterPlayback(owned + [Deferred(k)], k, owner, prefab, id, localToWorld, isAvatar, created);
  }

  /** `InstantiateAbilityJob.Execute`. */
  method InstantiateAbility(abilityOwnerEntity: Entity, pendingAbilities: DynamicBuffer<AbilityId>,
                            ownedAbilities: DynamicBuffer<EntityRef>, localToWorld: LocalToWorld,
                            abilityPrefabs: seq<Entity>, idOf: Entity -> AbilityId, isAvatar: bool, ecb: CommandBuffer)
    modifies pendingAbilities, ownedAbilities, ecb
    ensures pendingAbilities.elements == []
    ensures ownedAbilities.elements == old(ownedAbilities.elements) +
      Instances(old(ecb.commands), abilityOwnerEntity, old(pendingAbilities.elements), abilityPrefabs, idOf, localToWorld, isAvatar,
                |old(pendingAbilities.elements)|)
    ensures ecb.commands ==
      PendingCommands(old(ecb.commands), abilityOwnerEntity, old(pendingAbilities.elements), abilityPrefabs, idOf, localToWorld, isAvatar,
                      |old(pendingAbilities.elements)|)
      + [SetComponentEnabledCommand(Existing(abilityOwnerEntity), PendingAbilityType, false)]
  {
    var pending := pendingAbilities.elements;
    ghost var base := ecb.commands;
    ghost var owned0 := ownedAbilities.elements;
    for i := 0 to |pending|
      invariant pendingAbilities.elements == pending
      invariant ecb.commands == PendingCommands(base, abilityOwnerEntity, pending, abilityPrefabs, idOf, localToWorld, isAvatar, i)
      invariant ownedAbilities.elements ==
        owned0 + Instances(base, abilityOwnerEntity, pending, abilityPrefabs, idOf, localToWorld, isAvatar, i)
    {
      var found := FindAbilityPrefab(abilityPrefabs, idOf, pending[i]);
      if found.Some? {
        RecordAbility(abilityOwnerEntity, abilityPrefabs[found.value], pending[i], localToWorld, isAvatar, ownedAbilities, ecb);
      }
      assert ecb.commands == PendingCommands(base, abilityOwnerEntity, pending, abilityPrefabs, idOf, localToWorld, isAvatar, i + 1);
    }
    pendingAbilities.Clear();
    ecb.SetComponentEnabled(Existing(abilityOwnerEntity), PendingAbilityType, false);
  }

  /** The number of the first `n` pending ids for which some prefab carries the id. */
  function MatchCount(pending: seq<AbilityId>, prefabs: seq<Entity>, idOf: Entity -> AbilityId, n: nat): (count: nat)
    requires n <= |pending|
    ensures count <= n
  {
    if n == 0 then 0
    else MatchCount(pending, prefabs, idOf, n - 1) + (if FirstMatch(prefabs, idOf, pending[n - 1]).Some? then 1 else 0)
  }

  /** One instance per pending id that some prefab carries, none for the
      others, and each instance costs nine commands. */
  lemma {:induction false} InstancesCount(base: seq<Command>, owner: Entity, pending: seq<AbilityId>, prefabs: seq<Entity>,
                                          idOf: Entity -> AbilityId, localToWorld: LocalToWorld, isAvatar: bool, n: nat)
    requires n <= |pending|
    ensures var instances := Instances(base, owner, pending, prefabs, idOf, localToWorld, isAvatar, n);
      && |instances| == MatchCount(pending, prefabs, idOf, n)
      && |PendingCommands(base, owner, pending, prefabs, idOf, localToWorld, isAvatar, n)| == |base| + 9 * |instances|
    ensures (forall m :: 0 <= m < n ==> FirstMatch(prefabs, idOf, pending[m]).None?) ==>
      Instances(base, owner, pending, prefabs, idOf, localToWorld, isAvatar, n) == [] &&
      PendingCommands(base, owner, pending, prefabs, idOf, localToWorld, isAvatar, n) == base
  {
    if n > 0 {
      InstancesCount(base, owner, pending, prefabs, idOf, localToWorld, isAvatar, n - 1);
    }
  }

  /** Every instance is appended to the owner's `OwnedAbility` buffer by a
      recorded command; it is also given the owner as parent, an
      `AbilityComponent` with one of the pending ids, and its link. */
  lemma {:induction false} InstancesAreRecorded(base: seq<Command>, owner: Entity, pending: seq<AbilityId>, prefabs: seq<Entity>,
                                                idOf: Entity -> AbilityId, localToWorld: LocalToWorld, isAvatar: bool, n: nat)
    requires n <= |pending|
    ensures forall r :: r in Instances(base, owner, pending, prefabs, idOf, localToWorld, isAvatar, n) ==>
      && AppendToBufferCommand(Existing(owner), OwnedAbilityElement(r)) in PendingCommands(base, owner, pending, prefabs, idOf, localToWorld, isAvatar, n)
      && AddComponentCommand(r, Parent(Existing(owner))) in PendingCommands(base, owner, pending, prefabs, idOf, localToWorld, isAvatar, n)
      && AppendToBufferCommand(Existing(owner), LinkedEntityGroupElement(r)) in PendingCommands(base, owner, pending, prefabs, idOf, localToWorld, isAvatar, n)
      && (exists m :: 0 <= m < n && SetComponentCommand(r, AbilityComponent(pending[m], owner)) in
            PendingCommands(base, owner, pending, prefabs, idOf, localToWorld, isAvatar, n))
  {
    if n > 0 {
      InstancesAreRecorded(base, owner, pending, prefabs, idOf, localToWorld, isAvatar, n - 1);
      var previous := PendingCommands(base, owner, pending, prefabs, idOf, localToWorld, isAvatar, n - 1);
      var commands := PendingCommands(base, owner, pending, prefabs, idOf, localToWorld, isAvatar, n);
      assert forall c :: c in previous ==> c in commands;
      match FirstMatch(prefabs, idOf, pending[n - 1])
      case None =>
      case Some(j) =>
        var added := AbilityCommands(|previous|, owner, prefabs[j], pending[n - 1], localToWorld, isAvatar);
        assert commands == previous + added;
        AbilityCommandsContents(|previous|, owner, prefabs[j], pending[n - 1], localToWorld, isAvatar);
    }
  }

  /** Playback of one owner's job commands appends every instance to the
      owner's `OwnedAbility` buffer once, as the entity created for it, in
      pending order. */
  lemma {:induction false} PlaybackAppendsInstances(base: seq<Command>, owner: Entity, pending: seq<AbilityId>, prefabs: seq<Entity>,
                                                    idOf: Entity -> AbilityId, localToWorld: LocalToWorld, isAvatar: bool,
                                                    created: nat -> Entity, n: nat)
    requires n <= |pending|
    ensures |base| <= |PendingCommands(base, owner, pending, prefabs, idOf, localToWorld, isAvatar, n)|
    ensures OwnedAbilityAppends(PendingCommands(base, owner, pending, prefabs, idOf, localToWorld, isAvatar, n)[|base|..], owner, created) ==
      RemappedAll(Instances(base, owner, pending, prefabs, idOf, localToWorld, isAvatar, n), created)
  {
    if n == 0 {
      assert PendingCommands(base, owner, pending, prefabs, idOf, localToWorld, isAvatar, n)[|base|..] == [];
    } else {
      PlaybackAppendsInstances(base, owner, pending, prefabs, idOf, localToWorld, isAvatar, created, n - 1);
      var previous := PendingCommands(base, owner, pending, prefabs, idOf, localToWorld, isAvatar, n - 1);
      var commands := PendingCommands(base, owner, pending, prefabs, idOf, localToWorld, isAvatar, n);
      var earlier := Instances(base, owner, pending, prefabs, idOf, localToWorld, isAvatar, n - 1);
      match FirstMatch(prefabs, idOf, pending[n - 1])
      case None =>
      case Some(j) =>
        var added := AbilityCommands(|previous|, owner, prefabs[j], pending[n - 1], localToWorld, isAvatar);
        assert commands[|base|..] == previous[|base|..] + added;
        OwnedAbilityAppendsConcat(previous[|base|..], added, owner, created);
        RecordedOnceAfterPlayback(OwnedAbilityAppends(previous[|base|..], owner, created), |previous|, owner, prefabs[j],
                                  pending[n - 1], localToWorld, isAvatar, created);
        assert RemappedAll(earlier + [Deferred(|previous|)], created) == RemappedAll(earlier, created) + [Existing(created(|previous|))];
    }
  }

  /** The job as written, after playback: the owner's `OwnedAbility` buffer
      holds what it held, then every instance as a placeholder that playback
      never remaps (the direct entries), then every instance again as its
      created entity (the recorded appends). */
  lemma JobListsInstancesTwice(owned: seq<EntityRef>, base: seq<Command>, owner: Entity, pending: seq<AbilityId>, prefabs: seq<Entity>,
                               idOf: Entity -> AbilityId, localToWorld: LocalToWorld, isAvatar: bool, created: nat -> Entity)
    ensures var instances := Instances(base, owner, pending, prefabs, idOf, localToWorld, isAvatar, |pending|);
      var commands := PendingCommands(base, owner, pending, prefabs, idOf, localToWorld, isAvatar, |pending|)
        + [SetComponentEnabledCommand(Existing(owner), PendingAbilityType, false)];
      && |base| <= |commands|
      && (owned + instances) + OwnedAbilityAppends(commands[|base|..], owner, created) ==
           owned + instances + RemappedAll(instances, created)
      && forall r :: r in instances ==> r.Deferred?
  {
    var instances := Instances(base, owner, pending, prefabs, idOf, localToWorld, isAvatar, |pending|);
    var jobCommands := PendingCommands(base, owner, pending, prefabs, idOf, localToWorld, isAvatar, |pending|);
    var enable := SetComponentEnabledCommand(Existing(owner), PendingAbilityType, false);
    PlaybackAppendsInstances(base, owner, pending, prefabs, idOf, localToWorld, isAvatar, created, |pending|);
    InstancesAreInstantiations(base, owner, pending, prefabs, idOf, localToWorld, isAvatar, |pending|);
    assert (jobCommands + [enable])[|base|..] == jobCommands[|base|..] + [enable];
    OwnedAbilityAppendsConcat(jobCommands[|base|..], [enable], owner, created);
    NoOwnedAbilityAppends([enable], owner, created);
  }

  /** `r` is the instance created for pending id `m`: its creating command
      instantiates the first prefab carrying that id, and the seventh of its
      commands gives it an `AbilityComponent` with that id and the owner. */
  ghost predicate InstanceOf(r: EntityRef, m: nat, commands: seq<Command>, owner: Entity, pending: seq<AbilityId>,
                             prefabs: seq<Entity>, idOf: Entity -> AbilityId)
  {
    && r.Deferred? && r.command + 9 <= |commands| && m < |pending|
    && FirstMatch(prefabs, idOf, pending[m]).Some?
    && commands[r.command] == InstantiateCommand(prefabs[FirstMatch(prefabs, idOf, pending[m]).value])
    && idOf(commands[r.command].prefab) == pending[m]
    && commands[r.command + 6] == SetComponentCommand(r, AbilityComponent(pending[m], owner))
  }

  /** Every instance comes from one of the pending ids (see `InstanceOf`). */
  lemma {:induction false} InstancesFromPending(base: seq<Command>, owner: Entity, pending: seq<AbilityId>, prefabs: seq<Entity>,
                                                idOf: Entity -> AbilityId, localToWorld: LocalToWorld, isAvatar: bool, n: nat)
    requires n <= |pending|
    ensures forall r :: r in Instances(base, owner, pending, prefabs, idOf, localToWorld, isAvatar, n) ==>
      exists m :: 0 <= m < n &&
        InstanceOf(r, m, PendingCommands(base, owner, pending, prefabs, idOf, localToWorld, isAvatar, n), owner, pending, prefabs, idOf)
  {
    if n == 0 {
      assert Instances(base, owner, pending, prefabs, idOf, localToWorld, isAvatar, n) == [];
    } else {
      InstancesFromPending(base, owner, pending, prefabs, idOf, localToWorld, isAvatar, n - 1);
      var previous := PendingCommands(base, owner, pending, prefabs, idOf, localToWorld, isAvatar, n - 1);
      var commands := PendingCommands(base, owner, pending, prefabs, idOf, localToWorld, isAvatar, n);
      var earlier := Instances(base, owner, pending, prefabs, idOf, localToWorld, isAvatar, n - 1);
      var instances := Instances(base, owner, pending, prefabs, idOf, localToWorld, isAvatar, n);
      assert |previous| <= |commands| && commands[..|previous|] == previous && earlier <= instances;
      forall r | r in instances
        ensures exists m :: 0 <= m < n && InstanceOf(r, m, commands, owner, pending, prefabs, idOf)
      {
        if r in earlier {
          var m :| 0 <= m < n - 1 && InstanceOf(r, m, previous, owner, pending, prefabs, idOf);
          assert commands[r.command] == previous[r.command];
          assert commands[r.command + 6] == previous[r.command + 6];
          assert InstanceOf(r, m, commands, owner, pending, prefabs, idOf);
        } else {
          var j := FirstMatch(prefabs, idOf, pending[n - 1]).value;
          var added := AbilityCommands(|previous|, owner, prefabs[j], pending[n - 1], localToWorld, isAvatar);
          assert commands == previous + added;
          assert commands[|previous|] == added[0];
          assert commands[|previous| + 6] == added[6];
          assert InstanceOf(Deferred(|previous|), n - 1, commands, owner, pending, prefabs, idOf);
        }
      }
      assert forall r :: r in Instances(base, owner, pending, prefabs, idOf, localToWorld, isAvatar, n) ==>
        exists m :: 0 <= m < n &&
          InstanceOf(r, m, PendingCommands(base, owner, pending, prefabs, idOf, localToWorld, isAvatar, n), owner, pending, prefabs, idOf);
    }
  }

  /** The instances are created by commands at increasing positions after
      `base`, each by an instantiation of one of the prefabs; `base` is left
      as it was. */
  lemma {:induction false} InstancesAreInstantiations(base: seq<Command>, owner: Entity, pending: seq<AbilityId>, prefabs: seq<Entity>,
                                                      idOf: Entity -> AbilityId, localToWorld: LocalToWorld, isAvatar: bool, n: nat)
    requires n <= |pending|
    ensures var instances := Instances(base, owner, pending, prefabs, idOf, localToWorld, isAvatar, n);
      var commands := PendingCommands(base, owner, pending, prefabs, idOf, localToWorld, isAvatar, n);
      && (forall r :: r in instances ==>
            && r.Deferred? && |base| <= r.command && r.command + 9 <= |commands|
            && commands[r.command].InstantiateCommand? && commands[r.command].prefab in prefabs)
      && (forall a, b :: 0 <= a < b < |instances| ==> instances[a].command < instances[b].command)
    ensures |base| <= |PendingCommands(base, owner, pending, prefabs, idOf, localToWorld, isAvatar, n)|
    ensures PendingCommands(base, owner, pending, prefabs, idOf, localToWorld, isAvatar, n)[..|base|] == base
  {
    if n > 0 {
      InstancesAreInstantiations(base, owner, pending, prefabs, idOf, localToWorld, isAvatar, n - 1);
      var previous := PendingCommands(base, owner, pending, prefabs, idOf, localToWorld, isAvatar, n - 1);
      var commands := PendingCommands(base, owner, pending, prefabs, idOf, localToWorld, isAvatar, n);
      match FirstMatch(prefabs, idOf, pending[n - 1])
      case None =>
      case Some(j) =>
        assert commands == previous + AbilityCommands(|previous|, owner, prefabs[j], pending[n - 1], localToWorld, isAvatar);
        assert commands[..|previous|] == previous;
        assert commands[|previous|] == InstantiateCommand(prefabs[j]);
    }
  }

  /** The commands after `base` once the jobs of the first `n` owners have run. */
  function FrameCommands(base: seq<Command>, owners: seq<Entity>, pending: seq<seq<AbilityId>>, localToWorlds: seq<LocalToWorld>,
                         prefabs: seq<Entity>, idOf: Entity -> AbilityId, isAvatar: Entity -> bool, n: nat): seq<Command>
    requires n <= |owners| == |pending| == |localToWorlds|
  {
    if n == 0 then base
    else
      var previous := FrameCommands(base, owners, pending, localToWorlds, prefabs, idOf, isAvatar, n - 1);
      PendingCommands(previous, owners[n - 1], pending[n - 1], prefabs, idOf, localToWorlds[n - 1], isAvatar(owners[n - 1]),
                      |pending[n - 1]|)
      + [SetComponentEnabledCommand(Existing(owners[n - 1]), PendingAbilityType, false)]
  }

  /** The instances the job over owner `k` creates, its commands starting
      after those of the owners before it. */
  function OwnerInstances(base: seq<Command>, owners: seq<Entity>, pending: seq<seq<AbilityId>>, localToWorlds: seq<LocalToWorld>,
                          prefabs: seq<Entity>, idOf: Entity -> AbilityId, isAvatar: Entity -> bool, k: nat): seq<EntityRef>
    requires k < |owners| == |pending| == |localToWorlds|
  {
    Instances(FrameCommands(base, owners, pending, localToWorlds, prefabs, idOf, isAvatar, k),
              owners[k], pending[k], prefabs, idOf, localToWorlds[k], isAvatar(owners[k]), |pending[k]|)
  }

  /** The buffers once the jobs over owners `0..n` have run: those pending
      buffers are empty and those `OwnedAbility` buffers have gained the
      owner's instances; the others are as they were. */
  ghost predicate BuffersState(owners: seq<Entity>, pendingAbilities: seq<DynamicBuffer<AbilityId>>, pending: seq<seq<AbilityId>>,
                               ownedAbilities: seq<DynamicBuffer<EntityRef>>, owned0: seq<seq<EntityRef>>,
                               localToWorlds: seq<LocalToWorld>, prefabs: seq<Entity>, idOf: Entity -> AbilityId,
                               isAvatar: Entity -> bool, base: seq<Command>, n: nat)
    reads set k | 0 <= k < |pendingAbilities| :: pendingAbilities[k]
    reads set k | 0 <= k < |ownedAbilities| :: ownedAbilities[k]
  {
    && |pendingAbilities| == |pending| == |ownedAbilities| == |owned0| == |localToWorlds| == |owners| && n <= |owners|
    && (forall k :: 0 <= k < |owners| ==> pendingAbilities[k].elements == if k < n then [] else pending[k])
    && (forall k :: 0 <= k < |owners| ==>
          ownedAbilities[k].elements ==
            if k < n then owned0[k] + OwnerInstances(base, owners, pending, localToWorlds, prefabs, idOf, isAvatar, k)
            else owned0[k])
  }

  /** The body of the system's loop: the job over owner `n`. */
  method RunOwner(n: nat, owners: seq<Entity>, pendingAbilities: seq<DynamicBuffer<AbilityId>>, ghost pending: seq<seq<AbilityId>>,
                  ownedAbilities: seq<DynamicBuffer<EntityRef>>, ghost owned0: seq<seq<EntityRef>>, localToWorlds: seq<LocalToWorld>,
                  abilityPrefabs: seq<Entity>, idOf: Entity -> AbilityId, isAvatar: Entity -> bool, ecb: CommandBuffer,
                  ghost base: seq<Command>)
    requires n < |owners| == |pendingAbilities| == |ownedAbilities|
    requires forall a, b :: 0 <= a < b < |owners| ==> pendingAbilities[a] != pendingAbilities[b] && ownedAbilities[a] != ownedAbilities[b]
    requires BuffersState(owners, pendingAbilities, pending, ownedAbilities, owned0, localToWorlds, abilityPrefabs, idOf, isAvatar, base, n)
    requires ecb.commands == FrameCommands(base, owners, pending, localToWorlds, abilityPrefabs, idOf, isAvatar, n)
    modifies ecb, pendingAbilities[n], ownedAbilities[n]
    ensures BuffersState(owners, pendingAbilities, pending, ownedAbilities, owned0, localToWorlds, abilityPrefabs, idOf, isAvatar, base, n + 1)
    ensures ecb.commands == FrameCommands(base, owners, pending, localToWorlds, abilityPrefabs, idOf, isAvatar, n + 1)
  {
    label BeforeOwner:
    InstantiateAbility(owners[n], pendingAbilities[n], ownedAbilities[n], localToWorlds[n], abilityPrefabs, idOf,
                       isAvatar(owners[n]), ecb);
    forall k | 0 <= k < |owners| && k != n
      ensures pendingAbilities[k].elements == old@BeforeOwner(pendingAbilities[k].elements)
      ensures ownedAbilities[k].elements == old@BeforeOwner(ownedAbilities[k].elements)
    {
      assert pendingAbilities[k] != pendingAbilities[n] && ownedAbilities[k] != ownedAbilities[n];
    }
  }

  /** `AbilitiesInitializationSystem.OnUpdate`: nothing when no entity has
      pending abilities, otherwise the job over each of them. `pending` is
      what their `PendingAbility` buffers hold. Each owner's `OwnedAbility`
      buffer gains the instances of its own job. */
  method OnUpdate(owners: seq<Entity>, pendingAbilities: seq<DynamicBuffer<AbilityId>>, ghost pending: seq<seq<AbilityId>>,
                  ownedAbilities: seq<DynamicBuffer<EntityRef>>, localToWorlds: seq<LocalToWorld>,
                  abilityPrefabs: seq<Entity>, idOf: Entity -> AbilityId, isAvatar: Entity -> bool, ecb: CommandBuffer)
    requires |pendingAbilities| == |pending| == |ownedAbilities| == |localToWorlds| == |owners|
    requires forall k :: 0 <= k < |owners| ==> pendingAbilities[k].elements == pending[k]
    requires forall a, b :: 0 <= a < b < |owners| ==> pendingAbilities[a] != pendingAbilities[b] && ownedAbilities[a] != ownedAbilities[b]
    modifies ecb, set k | 0 <= k < |owners| :: pendingAbilities[k], set k | 0 <= k < |owners| :: ownedAbilities[k]
    ensures owners == [] ==> ecb.commands == old(ecb.commands)
    ensures ecb.commands == FrameCommands(old(ecb.commands), owners, pending, localToWorlds, abilityPrefabs, idOf, isAvatar, |owners|)
    ensures forall k :: 0 <= k < |owners| ==> pendingAbilities[k].elements == []
    ensures forall k :: 0 <= k < |owners| ==>
      ownedAbilities[k].elements == old(ownedAbilities[k].elements) +
        OwnerInstances(old(ecb.commands), owners, pending, localToWorlds, abilityPrefabs, idOf, isAvatar, k)
  {
    if |owners| == 0 {
      return;
    }
    ghost var base := ecb.commands;
    ghost var owned0 := seq(|ownedAbilities|, k requires 0 <= k < |ownedAbilities|
                              reads set j | 0 <= j < |ownedAbilities| :: ownedAbilities[j] => ownedAbilities[k].elements);
    for k := 0 to |owners|
      invariant ecb.commands == FrameCommands(base, owners, pending, localToWorlds, abilityPrefabs, idOf, isAvatar, k)
      invariant BuffersState(owners, pendingAbilities, pending, ownedAbilities, owned0, localToWorlds, abilityPrefabs, idOf, isAvatar, base, k)
    {
      RunOwner(k, owners, pendingAbilities, pending, ownedAbilities, owned0, localToWorlds, abilityPrefabs, idOf, isAvatar, ecb, base);
    }
  }
}
