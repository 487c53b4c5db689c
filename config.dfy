/** The `[stacking]` settings the engine reads, merged over the defaults. */
module Config {
  import Names

  datatype Settings = Settings(
    enabled: bool,
    radius: real,
    minGroup: int,
    maxStackSize: int,
    scanPeriodTicks: int,
    labelFormat: string,
    ignoreTamed: bool,
    feedPopEnabled: bool,
    feedPopRequireItem: bool,
    feedPopCooldownTicks: int,
    feedPopBreedCooldownTicks: int,
    handleLethalOnHurt: bool,
    showNameForCountGe: int,
    allowLeaderPairMerge: bool,
    allowedTypes: seq<string>)

  /** `_defaults()["stacking"]`; `allowed_types` has no default, so it reads
      as the empty list. */
  function Defaults(): Settings {
    Settings(
      enabled := true,
      radius := 3.0,
      minGroup := 5,
      maxStackSize := 100,
      scanPeriodTicks := 60,
      labelFormat := Names.NameFormat,
      ignoreTamed := true,
      feedPopEnabled := true,
      feedPopRequireItem := true,
      feedPopCooldownTicks := 6,
      feedPopBreedCooldownTicks := 6000,
      handleLethalOnHurt := true,
      showNameForCountGe := 2,
      allowLeaderPairMerge := false,
      allowedTypes := [])
  }
}
