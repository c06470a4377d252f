/** `fish-name-mapper.ts`: the Chinese names of the species the image
    classifier reports. */
module FishNames {

  /** `FISH_NAME_MAP`: classifier label to Chinese name. */
  const FishNameMap: map<string, string> := map[
    "black_sea_sprat" := "黑海鲱鱼",
    "gilt_head_bream" := "金头鲷",
    "mackerel" := "鲭鱼",
    "red_mullet" := "红鲻鱼",
    "red_sea_bream" := "红鲷",
    "sea_bass" := "鲈鱼",
    "shrimp" := "虾",
    "striped_red_mullet" := "条纹红鲻鱼",
    "trout" := "鳟鱼",
    "salmon" := "三文鱼",
    "tuna" := "金枪鱼",
    "cod" := "鳕鱼",
    "carp" := "鲤鱼",
    "tilapia" := "罗非鱼",
    "catfish" := "鲶鱼",
    "eel" := "鳗鱼",
    "sardine" := "沙丁鱼",
    "anchovy" := "凤尾鱼",
    "herring" := "鲱鱼"]

  /** `getFishNameCN(enName)`: `FISH_NAME_MAP[enName] || enName`, where a
      missing entry (and an empty one) falls back to the label itself. */
  function GetFishNameCN(enName: string): (r: string)
    ensures enName in FishNameMap && FishNameMap[enName] != "" ==> r == FishNameMap[enName]
    ensures enName !in FishNameMap ==> r == enName
  {
    if enName in FishNameMap && FishNameMap[enName] != "" then FishNameMap[enName] else enName
  }

  /** Every entry is non-empty and no Chinese name is itself a label. */
  lemma MapEntries()
    ensures forall k :: k in FishNameMap ==> FishNameMap[k] != "" && FishNameMap[k] !in FishNameMap
  {
  }

  /** A known label gives its Chinese name: `sea_bass` is 鲈鱼. */
  lemma SeaBass()
    ensures GetFishNameCN("sea_bass") == "鲈鱼"
  {
  }

  /** A label is translated exactly when it is in the table; anything else
      comes back unchanged, and a non-empty label never yields an empty name. */
  lemma GetFishNameSpec(enName: string)
    ensures GetFishNameCN(enName) != enName <==> enName in FishNameMap
    ensures enName in FishNameMap ==> GetFishNameCN(enName) == FishNameMap[enName]
    ensures enName != "" ==> GetFishNameCN(enName) != ""
  {
    MapEntries();
  }

  /** Translating twice is translating once: no Chinese name is a label. */
  lemma GetFishNameIdempotent(enName: string)
    ensures GetFishNameCN(GetFishNameCN(enName)) == GetFishNameCN(enName)
  {
    MapEntries();
  }
}
