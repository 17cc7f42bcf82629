/** The id logic of the editor drawer for `EnemyTypeId`s
    (Editor/Character/EnemyTypeIdDrawer.cs). The used ids, which the editor
    collects from the asset database, are a parameter. */
module EnemyTypeIdDrawer {
  import opened Basics
  import CustomIds
  import opened EnemyTypeIds

  /** The values of the used ids. */
  ghost function UsedValues(usedIds: seq<EnemyTypeId>): set<int>
  {
    set id | id in usedIds :: id.Value
  }

  /** An id is used exactly when its value is among the used values. */
  lemma UsedValuesMembership(usedIds: seq<EnemyTypeId>, id: EnemyTypeId)
    ensures id in usedIds <==> id.Value in UsedValues(usedIds)
  {
    if id.Value in UsedValues(usedIds) {
      var u :| u in usedIds && u.Value == id.Value;
      assert u == id;
    }
  }

  /** `IsValueValid(value)`: a fresh (all-zero) id set from `value` is valid. */
  predicate IsValueValid(value: int)
    ensures IsValueValid(value) <==> 0 <= value <= 65534
  {
    EnemyTypeId(0).SetFromInt(value).IsValid()
  }

  /** `GenerateAvailableId()`: walks `GetNext` from `GetMinId()` and returns
      the first id that is not used; `Invalid` when the walk runs out. */
  method GenerateAvailableId(usedIds: seq<EnemyTypeId>) returns (r: EnemyTypeId)
    ensures r.IsValid() ==> r !in usedIds
    ensures CustomIds.IsFirstFit(UsedValues(usedIds), r.Value)
    ensures r != EnemyTypeId.GetMaxId()
  {
    var idCandidate := EnemyTypeId.GetMinId();
    while idCandidate.IsValid()
      invariant idCandidate == EnemyTypeId.Invalid || CustomIds.IsCandidate(idCandidate.Value)
      invariant forall w: UShort :: w < idCandidate.Value && CustomIds.IsCandidate(w) ==> EnemyTypeId(w) in usedIds
      decreases CustomIds.INVALID_VALUE - idCandidate.Value
    {
      // Array.Exists(usedIds, usedId => usedId == idCandidate)
      if idCandidate !in usedIds {
        UsedValuesMembership(usedIds, idCandidate);
        forall w: int | 0 <= w < idCandidate.Value
          ensures w in UsedValues(usedIds)
        {
          UsedValuesMembership(usedIds, EnemyTypeId(w));
        }
        return idCandidate;
      }
      idCandidate := idCandidate.GetNext();
    }
    forall w: int | CustomIds.IsCandidate(w)
      ensures w in UsedValues(usedIds)
    {
      UsedValuesMembership(usedIds, EnemyTypeId(w));
    }
    // The editor logs an error here; logging is not modelled.
    return idCandidate;
  }
}
