// pkg/governor/types.go: the loaded configuration and its defaults.
module Settings {
  import opened Prelude

  const DEFAULT_CRITICAL_RESERVE_PERCENT: int := 30
  const DEFAULT_DATAPLANE_REPLICAS: int := 1
  const DEFAULT_REQUEST_TOKENS: int := 1000

  // A limit of 0 means "no limit" in that dimension.
  datatype ModelLimit = ModelLimit(maxRpm: int, maxTpm: int)

  datatype CascadeStep = CascadeStep(targetModel: string, targetRegion: string)

  // Intervals are in nanoseconds.
  datatype Config = Config(
    projectIDs: seq<string>,
    regions: seq<string>,
    models: seq<string>,
    allowances: map<string, Option<ModelLimit>>,
    criticalReservePercent: Option<int>,
    dataplaneReplicas: Option<int>,
    customPolicies: map<string, seq<CascadeStep>>,
    pollInterval: int,
    pollTimeout: int,
    safetyMarginPercent: int,
    defaultRequestTokens: int)
  {
    function ReservePercent(): int {
      match criticalReservePercent
      case None => DEFAULT_CRITICAL_RESERVE_PERCENT
      case Some(r) => r
    }

    function RequestTokens(): int {
      if defaultRequestTokens <= 0 then DEFAULT_REQUEST_TOKENS else defaultRequestTokens
    }

    function Replicas(): int {
      match dataplaneReplicas
      case None => DEFAULT_DATAPLANE_REPLICAS
      case Some(n) => n
    }
  }
}
