/** `VfxId` (Runtime/Vfx/Settings/VfxPrefabSettings.cs): the 16-bit id of a
    gameobject vfx. The struct's mutating `SetFromInt`/`SetInvalid` assign
    `Value` and return `this`; here they return the updated struct, which is
    both the receiver's new value and the returned copy. */
module VfxIds {
  import opened Basics
  import CustomIds

  datatype VfxId = VfxId(Value: UShort) {

    /** `Invalid`, the id 65535. */
    static const Invalid: VfxId := VfxId(CustomIds.INVALID_VALUE)

    /** `GetMinId()`: the least valid id. */
    static function GetMinId(): (r: VfxId)
      ensures r.IsValid()
      ensures forall v: UShort :: VfxId(v).IsValid() ==> r.Value <= v
    {
      VfxId(CustomIds.MIN_VALUE)
    }

    /** `GetMaxId()`: the greatest valid id. */
    static function GetMaxId(): (r: VfxId)
      ensures r.IsValid()
      ensures forall v: UShort :: VfxId(v).IsValid() ==> v <= r.Value
    {
      VfxId(CustomIds.MAX_VALUE)
    }

    /** `Equals(VfxId)`, `operator ==`: equality of the values. */
    predicate Equals(other: VfxId)
      ensures Equals(other) <==> this == other
    {
      Value == other.Value
    }

    /** `operator !=`. */
    predicate NotEquals(other: VfxId)
      ensures NotEquals(other) <==> Value != other.Value
    {
      !Equals(other)
    }

    /** `IsValid()`: `Invalid` is the only invalid id. */
    predicate IsValid()
      ensures IsValid() <==> this != Invalid
    {
      CustomIds.IsValidValue(Value)
    }

    /** `GetNext()`. The bound test is `Value + 1 >= GetMaxId()`, so the
        successor of 65533 is already `Invalid` and 65534 is never produced. */
    function GetNext(): (r: VfxId)
      ensures !IsValid() ==> r == Invalid
      ensures IsValid() && Value + 1 < CustomIds.MAX_VALUE ==> r.Value == Value + 1
      ensures IsValid() && Value + 1 >= CustomIds.MAX_VALUE ==> r == Invalid
      ensures r != Invalid ==> r.Value == Value + 1 && r.Value < CustomIds.MAX_VALUE
      ensures r != GetMaxId()
    {
      if !IsValid() then Invalid
      else if Value + 1 >= GetMaxId().Value then Invalid
      else VfxId(Value + 1)
    }

    function ToInt(): int
    {
      Value
    }

    /** `SetFromInt(idValue)`: in-range values round-trip through `ToInt`,
        every other integer gives `Invalid`. */
    function SetFromInt(idValue: int): (r: VfxId)
      ensures CustomIds.IsValidValue(idValue) ==> r.ToInt() == idValue
      ensures !CustomIds.IsValidValue(idValue) ==> r == Invalid
      ensures r.IsValid() <==> 0 <= idValue <= 65534
    {
      if CustomIds.IsValidValue(idValue) then VfxId(idValue) else VfxId(Invalid.Value)
    }

    /** `SetInvalid()`. */
    function SetInvalid(): (r: VfxId)
      ensures r == Invalid && !r.IsValid()
    {
      VfxId(Invalid.Value)
    }

    /** `CompareTo(other)`: its sign is the order of the values. */
    function CompareTo(other: VfxId): (r: int)
      ensures r < 0 <==> Value < other.Value
      ensures r == 0 <==> this == other
      ensures r > 0 <==> Value > other.Value
    {
      CustomIds.CompareValues(Value, other.Value)
    }
  }

  /** `SetFromInt` followed by `ToInt` gives back exactly the integers that
      are valid ids, plus 65535, which every other integer is mapped to. */
  lemma SetFromIntRoundTrip(receiver: VfxId, n: int)
    ensures receiver.SetFromInt(n).ToInt() == n <==> 0 <= n <= 65535
  {
  }
}
