/** What both versions of `DamageNumberVfxSystem` share: the digit count of a
    damage value, the material index and horizontal offset of each digit
    child, the commands that create one damage number (a root entity and one
    child per digit) and the commands that destroy one. `math.log10` and
    `math.pow` are replaced by their integer meaning: the number of decimal
    digits and a power of ten. */
module DamageNumberLayout {
  import opened Basics
  import opened Entities
  import opened Ecs
  import opened DamagesSystem

  /** `offsetPerDigit`. */
  const OFFSET_PER_DIGIT: real := 0.5

  /** `(int)math.pow(10, e)`. */
  function Pow10(e: nat): (r: nat)
    ensures r >= 1
  {
    if e == 0 then 1 else 10 * Pow10(e - 1)
  }

  lemma {:induction false} Pow10Monotone(a: nat, b: nat)
    requires a <= b
    ensures Pow10(a) <= Pow10(b)
    decreases b
  {
    if a < b {
      Pow10Monotone(a, b - 1);
    }
  }

  /** `(int)math.floor(math.log10(damages)) + 1` for `damages >= 1`: the
      number of decimal digits, the one `n` with 10^(n-1) <= damages < 10^n.
      For 0 it is 0, so no digit child is created (see README). */
  function DigitCount(damages: nat): (n: nat)
    ensures damages == 0 <==> n == 0
    ensures damages >= 1 ==> Pow10(n - 1) <= damages < Pow10(n)
  {
    if damages == 0 then 0 else DigitCount(damages / 10) + 1
  }

  /** The digit count is the only `n` that brackets the value between two
      consecutive powers of ten, so it is floor(log10 damages) + 1. */
  lemma DigitCountIsUnique(damages: nat, n: nat)
    requires n >= 1 && Pow10(n - 1) <= damages < Pow10(n)
    ensures DigitCount(damages) == n
  {
    var m := DigitCount(damages);
    if m < n {
      Pow10Monotone(m, n - 1);
    } else if m > n {
      Pow10Monotone(n, m - 1);
    }
  }

  lemma MultiplicationIsMonotone(x: nat, y: nat, b: nat)
    requires x <= y
    ensures x * b <= y * b
  {
    assert y * b == x * b + (y - x) * b;
  }

  /** Euclidean division is determined by quotient and remainder. */
  lemma DivisionIsUnique(a: nat, b: nat, q: nat, r: nat)
    requires b > 0 && r < b && a == q * b + r
    ensures a / b == q
  {
    var q' := a / b;
    var r' := a % b;
    assert a == q' * b + r';
    if q' > q {
      MultiplicationIsMonotone(q + 1, q', b);
    } else if q' < q {
      MultiplicationIsMonotone(q' + 1, q, b);
    }
  }

  /** Dividing by 10p is dividing by p, then by 10. */
  lemma DivideByTenTimes(a: nat, p: nat)
    requires p >= 1
    ensures a / (10 * p) == (a / p) / 10
  {
    var q := a / p;
    var r := a % p;
    var high := q / 10;
    var digit := q % 10;
    assert a == q * p + r;
    assert q == 10 * high + digit;
    assert q * p == high * (10 * p) + digit * p;
    MultiplicationIsMonotone(digit, 9, p);
    var low := digit * p + r;
    assert low < 10 * p;
    DivisionIsUnique(a, 10 * p, high, low);
  }

  /** The material index the job gives digit child `i` of an `n`-digit
      number: `damages / (int)math.pow(10, n - i - 1)`, with no modulo. */
  function MaterialIndex(damages: nat, n: nat, i: nat): int
    requires i < n
  {
    var p := Pow10(n - 1 - i);
    damages / p
  }

  /** A value in [p, 10p) divided by p is in 1..9. */
  lemma LeadingQuotient(damages: nat, p: nat)
    requires p >= 1 && p <= damages < 10 * p
    ensures 1 <= damages / p <= 9
  {
    var q := damages / p;
    var r := damages % p;
    assert damages == q * p + r;
    if q >= 10 {
      MultiplicationIsMonotone(10, q, p);
    }
  }

  /** The first child gets the leading digit, between 1 and 9, and the last
      one the whole value. */
  lemma FirstAndLastMaterialIndex(damages: nat)
    requires damages >= 1
    ensures 1 <= MaterialIndex(damages, DigitCount(damages), 0) <= 9
    ensures MaterialIndex(damages, DigitCount(damages), DigitCount(damages) - 1) == damages
  {
    var n := DigitCount(damages);
    var p := Pow10(n - 1);
    assert Pow10(n) == 10 * p;
    LeadingQuotient(damages, p);
    assert Pow10(n - 1 - (n - 1)) == 1;
  }

  /** Each index is the previous one with the next digit appended: index `i`
      is the number written by the first `i + 1` digits, and only its last
      decimal digit is the digit the child stands for. */
  lemma MaterialIndexAppendsDigit(damages: nat, n: nat, i: nat)
    requires 1 <= i < n
    ensures MaterialIndex(damages, n, i - 1) == MaterialIndex(damages, n, i) / 10
    ensures MaterialIndex(damages, n, i) == 10 * MaterialIndex(damages, n, i - 1) + MaterialIndex(damages, n, i) % 10
  {
    var e := n - 1 - i;
    assert Pow10(n - 1 - (i - 1)) == 10 * Pow10(e);
    DivideByTenTimes(damages, Pow10(e));
  }

  /** Every digit child gets a material index among the ten digit materials
      exactly when the damages have one digit. */
  lemma MaterialIndicesAreDigitsIffOneDigit(damages: nat)
    requires damages >= 1
    ensures (forall i :: 0 <= i < DigitCount(damages) ==> MaterialIndex(damages, DigitCount(damages), i) <= 9)
      <==> damages <= 9
  {
    FirstAndLastMaterialIndex(damages);
    if damages <= 9 {
      DigitCountIsUnique(damages, 1);
    }
  }

  /** The x-offset of digit child `i`: the running offset starts at
      `-(n - 1) * offsetPerDigit` and grows by `offsetPerDigit` per child. */
  function ChildOffset(n: nat, i: nat): real
  {
    -((n as real) - 1.0) * OFFSET_PER_DIGIT + (i as real) * OFFSET_PER_DIGIT
  }

  /** The digits are evenly spaced, from `-(n - 1) * offsetPerDigit` for the
      first to 0 for the last: the number ends at the root, it is not centred
      on it. */
  lemma ChildOffsetsEndAtRoot(n: nat, i: nat)
    requires i < n
    ensures ChildOffset(n, 0) == -((n as real) - 1.0) * OFFSET_PER_DIGIT
    ensures ChildOffset(n, n - 1) == 0.0
    ensures ChildOffset(n, i + 1) - ChildOffset(n, i) == OFFSET_PER_DIGIT
    ensures ChildOffset(n, 0) <= ChildOffset(n, i) <= 0.0
  {
    assert ((n - 1) as real) == (n as real) - 1.0;
    assert ((i + 1) as real) == (i as real) + 1.0;
  }

  /** The four commands of digit child `i`, the child being created by the
      command at position `k`. */
  function DigitCommands(k: nat, root: EntityRef, prefab: Entity, damages: nat, n: nat, i: nat): (commands: seq<Command>)
    requires i < n
    ensures |commands| == 4 && commands[0] == InstantiateCommand(prefab)
  {
    var child := Deferred(k);
    [ InstantiateCommand(prefab),
      AddComponentCommand(child, Parent(root)),
      SetComponentCommand(child, LocalTransformComponent(LocalTransform(Float3(ChildOffset(n, i), 0.0, 0.0), Identity, 1.0))),
      SetComponentCommand(child, MaterialMeshInfo(MaterialIndex(damages, n, i), 0)) ]
  }

  /** The commands of the first `m` digit children, the first being created
      by the command at position `k`. */
  function DigitsCommands(k: nat, root: EntityRef, prefab: Entity, damages: nat, n: nat, m: nat): (commands: seq<Command>)
    requires m <= n
    ensures |commands| == 4 * m
  {
    if m == 0 then []
    else DigitsCommands(k, root, prefab, damages, n, m - 1) + DigitCommands(k + 4 * (m - 1), root, prefab, damages, n, m - 1)
  }

  /** The first `j` children's commands do not change as more children
      follow: they are a prefix of the commands of the first `m`. */
  lemma {:induction false} DigitsCommandsPrefix(k: nat, root: EntityRef, prefab: Entity, damages: nat, n: nat, m: nat, j: nat)
    requires j <= m <= n
    ensures DigitsCommands(k, root, prefab, damages, n, m)[..4 * j] == DigitsCommands(k, root, prefab, damages, n, j)
    decreases m
  {
    if j < m {
      DigitsCommandsPrefix(k, root, prefab, damages, n, m - 1, j);
      var previous := DigitsCommands(k, root, prefab, damages, n, m - 1);
      var all := DigitsCommands(k, root, prefab, damages, n, m);
      assert all[..4 * j] == previous[..4 * j];
    }
  }

  /** Digit child `i` is created at `k + 4i`, parented to the root, placed at
      its offset and given its material index. */
  lemma DigitBlock(k: nat, root: EntityRef, prefab: Entity, damages: nat, n: nat, i: nat)
    requires i < n
    ensures DigitsCommands(k, root, prefab, damages, n, n)[4 * i .. 4 * i + 4] == DigitCommands(k + 4 * i, root, prefab, damages, n, i)
  {
    DigitsCommandsPrefix(k, root, prefab, damages, n, n, i + 1);
    var all := DigitsCommands(k, root, prefab, damages, n, n);
    var upTo := DigitsCommands(k, root, prefab, damages, n, i + 1);
    assert all[4 * i .. 4 * i + 4] == all[..4 * i + 4][4 * i ..] == upTo[4 * i ..];
  }

  /** Moving one digit to the right adds `offsetPerDigit` to the offset. */
  lemma ChildOffsetStep(offset: Float3, n: nat, i: nat)
    requires offset == Float3(ChildOffset(n, i), 0.0, 0.0)
    ensures offset.Plus(Float3(OFFSET_PER_DIGIT, 0.0, 0.0)) == Float3(ChildOffset(n, i + 1), 0.0, 0.0)
  {
    assert ((i + 1) as real) == (i as real) + 1.0;
  }

  /** The commands of the first `i + 1` children follow those of the first `i`. */
  lemma DigitsProgress(base: seq<Command>, k: nat, root: EntityRef, prefab: Entity, damages: nat, n: nat, i: nat,
                       commands: seq<Command>, commands': seq<Command>)
    requires i < n
    requires commands == base + DigitsCommands(k, root, prefab, damages, n, i)
    requires commands' == commands + DigitCommands(k + 4 * i, root, prefab, damages, n, i)
    ensures commands' == base + DigitsCommands(k, root, prefab, damages, n, i + 1)
  {
    var previous := DigitsCommands(k, root, prefab, damages, n, i);
    var block := DigitCommands(k + 4 * i, root, prefab, damages, n, i);
    assert (base + previous) + block == base + (previous + block);
  }

  /** The body of the digit `for` loop: digit child `i` is instantiated,
      parented to the root, placed at the running offset and given its
      material index. */
  method InstantiateDigit(rootEntity: EntityRef, numberPrefab: Entity, damages: nat, damagesDigits: nat, i: nat,
                          offset: Float3, ecb: CommandBuffer)
    requires i < damagesDigits && offset == Float3(ChildOffset(damagesDigits, i), 0.0, 0.0)
    modifies ecb
    ensures ecb.commands == old(ecb.commands) + DigitCommands(|old(ecb.commands)|, rootEntity, numberPrefab, damages, damagesDigits, i)
  {
    var numberEntity := ecb.Instantiate(numberPrefab);
    ecb.AddComponent(numberEntity, Parent(rootEntity));
    ecb.SetComponent(numberEntity, LocalTransformComponent(LocalTransform(offset, Identity, 1.0)));
    var number := damages / Pow10(damagesDigits - i - 1);
    ecb.SetComponent(numberEntity, MaterialMeshInfo(number, 0));
  }

  /** The digit `for` loop of both versions of the job: the running offset
      starts at `-(n - 1) * offsetPerDigit` and grows by `offsetPerDigit`
      per child. */
  method InstantiateDigits(rootEntity: EntityRef, numberPrefab: Entity, damages: nat, ecb: CommandBuffer)
    modifies ecb
    ensures ecb.commands == old(ecb.commands) +
      DigitsCommands(|old(ecb.commands)|, rootEntity, numberPrefab, damages, DigitCount(damages), DigitCount(damages))
  {
    var damagesDigits := DigitCount(damages);
    var offset := Float3(-((damagesDigits as real) - 1.0) * OFFSET_PER_DIGIT, 0.0, 0.0);
    ghost var k := |ecb.commands|;
    ghost var base := ecb.commands;
    assert offset == Float3(ChildOffset(damagesDigits, 0), 0.0, 0.0);
    for i := 0 to damagesDigits
      invariant ecb.commands == base + DigitsCommands(k, rootEntity, numberPrefab, damages, damagesDigits, i)
      invariant offset == Float3(ChildOffset(damagesDigits, i), 0.0, 0.0)
    {
      ghost var before := ecb.commands;
      assert |before| == k + 4 * i;
      InstantiateDigit(rootEntity, numberPrefab, damages, damagesDigits, i, offset, ecb);
      DigitsProgress(base, k, rootEntity, numberPrefab, damages, damagesDigits, i, before, ecb.commands);
      ChildOffsetStep(offset, damagesDigits, i);
      offset := offset.Plus(Float3(OFFSET_PER_DIGIT, 0.0, 0.0));
    }
  }

  /** The commands of one damage number whose root entity is created by the
      command at position `k`: the root carries `DamageNumberVfx`, a
      `LocalToWorld` at the damage position and a `LocalTransform` 3 units
      above it with the given rotation, and one digit child follows per digit. */
  function NumberCommands(k: nat, data: DamageData, prefab: Entity, elapsedTime: real, rotation: Rotation): (commands: seq<Command>)
    ensures |commands| == 4 + 4 * DigitCount(data.Damages)
  {
    var root := Deferred(k);
    var n := DigitCount(data.Damages);
    [ CreateEntityCommand,
      AddComponentCommand(root, DamageNumberVfx(elapsedTime)),
      AddComponentCommand(root, LocalToWorldComponent(LocalToWorld(data.Position, Identity, 1.0))),
      AddComponentCommand(root, LocalTransformComponent(LocalTransform(data.Position.Plus(Float3(0.0, 3.0, 0.0)), rotation, 1.0))) ]
    + DigitsCommands(k + 4, root, prefab, data.Damages, n, n)
  }

  /** A number starts with the creation of its root, and its fourth command
      places the root 3 units above the damage position with the given rotation. */
  lemma NumberRootCommands(k: nat, data: DamageData, prefab: Entity, elapsedTime: real, rotation: Rotation)
    ensures var commands := NumberCommands(k, data, prefab, elapsedTime, rotation);
      && commands[0] == CreateEntityCommand
      && commands[3] == AddComponentCommand(Deferred(k), LocalTransformComponent(
           LocalTransform(data.Position.Plus(Float3(0.0, 3.0, 0.0)), rotation, 1.0)))
  {
  }

  /** The four root commands followed by the digit children's commands are
      the commands of the whole number. */
  lemma NumberProgress(base: seq<Command>, data: DamageData, prefab: Entity, elapsedTime: real, rotation: Rotation,
                       commands: seq<Command>, commands': seq<Command>)
    requires commands == base + NumberCommands(|base|, data, prefab, elapsedTime, rotation)[..4]
    requires commands' == commands + DigitsCommands(|base| + 4, Deferred(|base|), prefab, data.Damages,
                                                    DigitCount(data.Damages), DigitCount(data.Damages))
    ensures commands' == base + NumberCommands(|base|, data, prefab, elapsedTime, rotation)
  {
    var number := NumberCommands(|base|, data, prefab, elapsedTime, rotation);
    assert number == number[..4] + number[4..];
    assert (base + number[..4]) + number[4..] == base + (number[..4] + number[4..]);
  }

  /** One root created at `k`, then one instantiated child per digit, each
      parented to that root, at its offset and with its material index. */
  lemma NumberCommandsLayout(k: nat, data: DamageData, prefab: Entity, elapsedTime: real, rotation: Rotation)
    ensures var commands := NumberCommands(k, data, prefab, elapsedTime, rotation);
      var n := DigitCount(data.Damages);
      && commands[0] == CreateEntityCommand
      && commands[1] == AddComponentCommand(Deferred(k), DamageNumberVfx(elapsedTime))
      && commands[2] == AddComponentCommand(Deferred(k), LocalToWorldComponent(LocalToWorld(data.Position, Identity, 1.0)))
      && commands[3] == AddComponentCommand(Deferred(k), LocalTransformComponent(
           LocalTransform(data.Position.Plus(Float3(0.0, 3.0, 0.0)), rotation, 1.0)))
      && forall i :: 0 <= i < n ==>
           commands[4 + 4 * i .. 8 + 4 * i] == DigitCommands(k + 4 + 4 * i, Deferred(k), prefab, data.Damages, n, i)
  {
    var n := DigitCount(data.Damages);
    forall i | 0 <= i < n
      ensures NumberCommands(k, data, prefab, elapsedTime, rotation)[4 + 4 * i .. 8 + 4 * i] ==
        DigitCommands(k + 4 + 4 * i, Deferred(k), prefab, data.Damages, n, i)
    {
      NumberDigitBlock(k, data, prefab, elapsedTime, rotation, i);
    }
  }

  /** Digit child `i`'s four commands sit at positions `4 + 4i` to `7 + 4i`
      of the number's commands. */
  lemma NumberDigitBlock(k: nat, data: DamageData, prefab: Entity, elapsedTime: real, rotation: Rotation, i: nat)
    requires i < DigitCount(data.Damages)
    ensures NumberCommands(k, data, prefab, elapsedTime, rotation)[4 + 4 * i .. 8 + 4 * i] ==
      DigitCommands(k + 4 + 4 * i, Deferred(k), prefab, data.Damages, DigitCount(data.Damages), i)
  {
    var n := DigitCount(data.Damages);
    var digits := DigitsCommands(k + 4, Deferred(k), prefab, data.Damages, n, n);
    var commands := NumberCommands(k, data, prefab, elapsedTime, rotation);
    var header := commands[..4];
    assert commands == header + digits;
    SliceOfAppend(header, digits, 4 * i, 4 * i + 4);
    DigitBlock(k + 4, Deferred(k), prefab, data.Damages, n, i);
  }

  /** A slice past the first part of a concatenation is a slice of the second. */
  lemma SliceOfAppend<T>(a: seq<T>, b: seq<T>, x: nat, y: nat)
    requires x <= y <= |b|
    ensures (a + b)[|a| + x .. |a| + y] == b[x..y]
  {
  }

  /** The commands `UpdateVfxNumbers` records for an expired number: the
      root, then each of its children in buffer order. */
  function DestroyCommands(entity: Entity, children: seq<Entity>): (commands: seq<Command>)
    ensures |commands| == 1 + |children|
  {
    if children == [] then [DestroyEntityCommand(Existing(entity))]
    else DestroyCommands(entity, children[..|children| - 1]) + [DestroyEntityCommand(Existing(children[|children| - 1]))]
  }

  /** The root is destroyed first, then child `j` at position `j + 1`: the
      expired number and all of its children, and nothing else. */
  lemma {:induction false} DestroyCommandsContents(entity: Entity, children: seq<Entity>)
    ensures DestroyCommands(entity, children)[0] == DestroyEntityCommand(Existing(entity))
    ensures forall j :: 0 <= j < |children| ==>
      DestroyCommands(entity, children)[j + 1] == DestroyEntityCommand(Existing(children[j]))
    ensures forall c :: c in DestroyCommands(entity, children) <==>
      c == DestroyEntityCommand(Existing(entity)) || exists j :: 0 <= j < |children| && c == DestroyEntityCommand(Existing(children[j]))
    decreases |children|
  {
    if children != [] {
      var last := |children| - 1;
      DestroyCommandsContents(entity, children[..last]);
      assert forall j :: 0 <= j < last ==> children[..last][j] == children[j];
      var commands := DestroyCommands(entity, children);
      forall c | c in commands
        ensures c == DestroyEntityCommand(Existing(entity)) || exists j :: 0 <= j < |children| && c == DestroyEntityCommand(Existing(children[j]))
      {
        var p :| 0 <= p < |commands| && commands[p] == c;
        if p > 0 {
          assert c == DestroyEntityCommand(Existing(children[p - 1]));
        }
      }
      forall j | 0 <= j < |children|
        ensures DestroyEntityCommand(Existing(children[j])) in commands
      {
        assert commands[j + 1] == DestroyEntityCommand(Existing(children[j]));
      }
      assert commands[0] in commands;
    }
  }

  /** A number created at `creationElapsedTime` is still shown at `elapsedTime`. */
  predicate IsShown(creationElapsedTime: real, elapsedTime: real, lifetime: real)
  {
    elapsedTime - creationElapsedTime < lifetime
  }

  /** The commands `UpdateVfxNumbers` records over the first `m` numbers:
      nothing for a number still shown, its destruction otherwise. */
  function ExpiryCommands(entities: seq<Entity>, creations: seq<real>, children: seq<seq<Entity>>,
                          elapsedTime: real, lifetime: real, m: nat): seq<Command>
    requires m <= |entities| == |creations| == |children|
  {
    if m == 0 then []
    else
      ExpiryCommands(entities, creations, children, elapsedTime, lifetime, m - 1)
      + (if IsShown(creations[m - 1], elapsedTime, lifetime) then [] else DestroyCommands(entities[m - 1], children[m - 1]))
  }

  /** The update job's command invariant is kept by one more number. */
  lemma ExpiryProgress(entities: seq<Entity>, creations: seq<real>, children: seq<seq<Entity>>,
                       elapsedTime: real, lifetime: real, m: nat,
                       base: seq<Command>, commands: seq<Command>, commands': seq<Command>)
    requires m < |entities| == |creations| == |children|
    requires commands == base + ExpiryCommands(entities, creations, children, elapsedTime, lifetime, m)
    requires commands' == if IsShown(creations[m], elapsedTime, lifetime) then commands
                          else commands + DestroyCommands(entities[m], children[m])
    ensures commands' == base + ExpiryCommands(entities, creations, children, elapsedTime, lifetime, m + 1)
  {
    var previous := ExpiryCommands(entities, creations, children, elapsedTime, lifetime, m);
    if IsShown(creations[m], elapsedTime, lifetime) {
      assert previous + [] == previous;
    } else {
      assert (base + previous) + DestroyCommands(entities[m], children[m])
        == base + (previous + DestroyCommands(entities[m], children[m]));
    }
  }

  /** Exactly the numbers past their lifetime are destroyed, each with all
      of its children (DestroyCommandsContents). */
  lemma {:induction false} ExpiryCommandsDestroyExpired(entities: seq<Entity>, creations: seq<real>, children: seq<seq<Entity>>,
                                                        elapsedTime: real, lifetime: real, m: nat)
    requires m <= |entities| == |creations| == |children|
    ensures forall c :: c in ExpiryCommands(entities, creations, children, elapsedTime, lifetime, m) <==>
      exists k :: 0 <= k < m && !IsShown(creations[k], elapsedTime, lifetime) && c in DestroyCommands(entities[k], children[k])
    ensures (forall k :: 0 <= k < m ==> IsShown(creations[k], elapsedTime, lifetime)) ==>
      ExpiryCommands(entities, creations, children, elapsedTime, lifetime, m) == []
  {
    if m > 0 {
      ExpiryCommandsDestroyExpired(entities, creations, children, elapsedTime, lifetime, m - 1);
      var previous := ExpiryCommands(entities, creations, children, elapsedTime, lifetime, m - 1);
      var last := if IsShown(creations[m - 1], elapsedTime, lifetime) then [] else DestroyCommands(entities[m - 1], children[m - 1]);
      assert ExpiryCommands(entities, creations, children, elapsedTime, lifetime, m) == previous + last;
      forall c
        ensures c in previous + last <==>
          exists k :: 0 <= k < m && !IsShown(creations[k], elapsedTime, lifetime) && c in DestroyCommands(entities[k], children[k])
      {
        if c in last {
          assert !IsShown(creations[m - 1], elapsedTime, lifetime) && c in DestroyCommands(entities[m - 1], children[m - 1]);
        }
      }
    }
  }

  /** A number still being shown rises by `speed * deltaTime`; nothing else
      about its transform changes. */
  function Risen(transform: LocalTransform, speed: real, deltaTime: real): (r: LocalTransform)
    ensures r.Position.x == transform.Position.x && r.Position.z == transform.Position.z
    ensures r.Position.y - transform.Position.y == speed * deltaTime
    ensures r.Rotation == transform.Rotation && r.Scale == transform.Scale
  {
    transform.(Position := transform.Position.Plus(Float3(0.0, speed * deltaTime, 0.0)))
  }
}
