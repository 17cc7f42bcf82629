/** The value-level rules every custom 16-bit id type of the game follows
    (`VfxId`, `EnemyTypeId`, `AbilityId` share them word for word): ids are
    `ushort`s, 0..65534 are valid and 65535 is the invalid id. */
module CustomIds {
  import opened Basics

  /** `GetMinId().Value`. */
  const MIN_VALUE: UShort := 0

  /** `GetMaxId().Value`, i.e. `ushort.MaxValue - 1`. */
  const MAX_VALUE: UShort := 65534

  /** `Invalid.Value`, i.e. `ushort.MaxValue`. */
  const INVALID_VALUE: UShort := USHORT_MAX

  /** The private `IsValid(int)` range check. */
  predicate IsValidValue(n: int)
  {
    MIN_VALUE <= n <= MAX_VALUE
  }

  /** `ushort.CompareTo(ushort)`: the difference of the two values as an `int`. */
  function CompareValues(a: UShort, b: UShort): (r: int)
    ensures r < 0 <==> a < b
    ensures r == 0 <==> a == b
    ensures r > 0 <==> a > b
  {
    a - b
  }

  /** The value sequence of `GenerateAvailableId`: the candidates visited
      from `GetMinId()` by `GetNext()` while they stay valid. */
  predicate IsCandidate(v: int)
  {
    0 <= v < MAX_VALUE
  }

  /** `v` is what a first-fit search over `used` yields: either the least
      candidate that is not used, or the invalid value when every candidate is. */
  ghost predicate IsFirstFit(used: set<int>, v: UShort)
  {
    || (IsCandidate(v) && v !in used && forall w :: 0 <= w < v ==> w in used)
    || (v == INVALID_VALUE && forall w :: IsCandidate(w) ==> w in used)
  }

  /** A first-fit result is determined by the used set. */
  lemma FirstFitIsUnique(used: set<int>, v1: UShort, v2: UShort)
    requires IsFirstFit(used, v1) && IsFirstFit(used, v2)
    ensures v1 == v2
  {
  }

  /** The first fit is never the maximum id 65534: the search stops one short. */
  lemma FirstFitNeverMax(used: set<int>, v: UShort)
    requires IsFirstFit(used, v)
    ensures v != MAX_VALUE
  {
  }
}
