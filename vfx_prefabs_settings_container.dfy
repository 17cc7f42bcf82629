/** `VfxPrefabsSettingsContainer` (Runtime/Vfx/Settings/VfxPrefabsSettingsContainer.cs):
    the settings of every instantiable vfx prefab, looked up by id. A
    `VfxPrefabSettings` asset is read only, so it is a value here; its
    `IVfxSettings` part is not modelled. */
module VfxPrefabsSettingsContainer {
  import opened Basics
  import opened VfxIds

  /** `VfxPrefabSettings` (Runtime/Vfx/Settings/VfxPrefabSettings.cs): the id,
      the addressable asset's key and the local position of the prefab. */
  datatype VfxPrefabSettings = VfxPrefabSettings(ID: VfxId, AssetReference: string, LocalPosition: Float3)

  /** `GetPrefabSettings(id)`: the first settings whose id equals `id`
      (`VfxId.operator ==`), or `null` (`None`) when there is none. */
  function GetPrefabSettings(vfxPrefabsSettings: seq<VfxPrefabSettings>, id: VfxId): (r: Option<VfxPrefabSettings>)
    ensures r.None? <==> forall j :: 0 <= j < |vfxPrefabsSettings| ==> !vfxPrefabsSettings[j].ID.Equals(id)
    ensures r.Some? ==> r.value.ID.Equals(id)
    ensures r.Some? ==>
      exists k :: (0 <= k < |vfxPrefabsSettings| && vfxPrefabsSettings[k] == r.value &&
                   forall j :: 0 <= j < k ==> !vfxPrefabsSettings[j].ID.Equals(id))
  {
    if vfxPrefabsSettings == [] then None
    else if vfxPrefabsSettings[0].ID.Equals(id) then Some(vfxPrefabsSettings[0])
    else
      var r := GetPrefabSettings(vfxPrefabsSettings[1..], id);
      assert r.Some? ==>
        exists k :: (1 <= k < |vfxPrefabsSettings| && vfxPrefabsSettings[k] == r.value &&
                     forall j :: 0 <= j < k ==> !vfxPrefabsSettings[j].ID.Equals(id)) by {
        if r.Some? {
          var k :| 0 <= k < |vfxPrefabsSettings[1..]| && vfxPrefabsSettings[1..][k] == r.value &&
            forall j :: 0 <= j < k ==> !vfxPrefabsSettings[1..][j].ID.Equals(id);
          assert vfxPrefabsSettings[k + 1] == r.value;
        }
      }
      r
  }

  /** Ids are compared by value, so the result is the settings at the first
      position holding exactly the requested id. */
  lemma GetPrefabSettingsFindsTheId(vfxPrefabsSettings: seq<VfxPrefabSettings>, id: VfxId)
    ensures GetPrefabSettings(vfxPrefabsSettings, id).Some? ==> GetPrefabSettings(vfxPrefabsSettings, id).value.ID == id
    ensures (exists j :: 0 <= j < |vfxPrefabsSettings| && vfxPrefabsSettings[j].ID == id) ==>
      GetPrefabSettings(vfxPrefabsSettings, id).Some?
  {
  }
}
