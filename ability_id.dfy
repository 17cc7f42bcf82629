/** `AbilityId` (Runtime/Ability/AbilityId.cs): the 16-bit id of an
    ability. The struct's mutating `SetFromInt`/`SetInvalid` assign
    `Value` and return `this`; here they return the updated struct, which is
    both the receiver's new value and the returned copy. */
module AbilityIds {
  import opened Basics
  import CustomIds

  datatype AbilityId = AbilityId(Value: UShort) {

    /** `Invalid`, the id 65535. */
    static const Invalid: AbilityId := AbilityId(CustomIds.INVALID_VALUE)

    /** `GetMinId()`: the least valid id. */
    static function GetMinId(): (r: AbilityId)
      ensures r.IsValid()
      ensures forall v: UShort :: AbilityId(v).IsValid() ==> r.Value <= v
    {
      AbilityId(CustomIds.MIN_VALUE)
    }

    /** `GetMaxId()`: the greatest valid id. */
    static function GetMaxId(): (r: AbilityId)
      ensures r.IsValid()
      ensures forall v: UShort :: AbilityId(v).IsValid() ==> v <= r.Value
    {
      AbilityId(CustomIds.MAX_VALUE)
    }

    /** `Equals(AbilityId)`, `operator ==`: equality of the values. */
    predicate Equals(other: AbilityId)
      ensures Equals(other) <==> this == other
    {
      Value == other.Value
    }

    /** `operator !=`. */
    predicate NotEquals(other: AbilityId)
      ensures NotEquals(other) <==> Value != other.Value
    {
      !Equals(other)
    }

    /** `IsValid()`: `Invalid` is the only invalid id. */
    predicate IsValid()
      ensures IsValid() <==> this != Invalid
    {
      CustomIds.IsValidValue(Value)
    }

    /** `GetNext()`. The bound test is `Value + 1 >= GetMaxId()`, so the
        successor of 65533 is already `Invalid` and 65534 is never produced. */
    function GetNext(): (r: AbilityId)
      ensures !IsValid() ==> r == Invalid
      ensures IsValid() && Value + 1 < CustomIds.MAX_VALUE ==> r.Value == Value + 1
      ensures IsValid() && Value + 1 >= CustomIds.MAX_VALUE ==> r == Invalid
      ensures r != Invalid ==> r.Value == Value + 1 && r.Value < CustomIds.MAX_VALUE
      ensures r != GetMaxId()
    {
      if !IsValid() then Invalid
      else if Value + 1 >= GetMaxId().Value then Invalid
      else AbilityId(Value + 1)
    }

    function ToInt(): int
    {
      Value
    }

    /** `SetFromInt(idValue)`: in-range values round-trip through `ToInt`,
        every other integer gives `Invalid`. */
    function SetFromInt(idValue: int): (r: AbilityId)
      ensures CustomIds.IsValidValue(idValue) ==> r.ToInt() == idValue
      ensures !CustomIds.IsValidValue(idValue) ==> r == Invalid
      ensures r.IsValid() <==> 0 <= idValue <= 65534
    {
      if CustomIds.IsValidValue(idValue) then AbilityId(idValue) else AbilityId(Invalid.Value)
    }

    /** `SetInvalid()`. */
    function SetInvalid(): (r: AbilityId)
      ensures r == Invalid && !r.IsValid()
    {
      AbilityId(Invalid.Value)
    }

    /** `CompareTo(other)`: its sign is the order of the values. */
    function CompareTo(other: AbilityId): (r: int)
      ensures r < 0 <==> Value < other.Value
      ensures r == 0 <==> this == other
      ensures r > 0 <==> Value > other.Value
    {
      CustomIds.CompareValues(Value, other.Value)
    }
  }

  /** `SetFromInt` followed by `ToInt` gives back exactly the integers that
      are valid ids, plus 65535, which every other integer is mapped to. */
  lemma SetFromIntRoundTrip(receiver: AbilityId, n: int)
    ensures receiver.SetFromInt(n).ToInt() == n <==> 0 <= n <= 65535
  {
  }
}
