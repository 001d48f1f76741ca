// pkg/governor/helpers.go and priority.go: snapshot lookups and saturation.
// Utilizations are real numbers.
module Quotas {
  import opened Prelude
  import opened Text

  datatype Quota = Quota(
    maxRpm: int, maxTpm: int,
    currentRpm: int, currentTpm: int,
    headroomRpm: int, headroomTpm: int,
    utilizationRpm: real, utilizationTpm: real)

  datatype Snapshot = Snapshot(orgQuotas: map<string, Quota>, projectQuotas: map<string, Quota>)

  function Lookup<V>(m: map<string, V>, k: string): Option<V> {
    if k in m then Some(m[k]) else None
  }

  // The project's own quota if the snapshot has one, else the pooled org quota.
  function EffectiveQuota(snap: Option<Snapshot>, project: string, region: string, model: string): Option<Quota> {
    match snap
    case None => None
    case Some(s) =>
      if project != "" && ProjectKey(project, region, model) in s.projectQuotas then
        Some(s.projectQuotas[ProjectKey(project, region, model)])
      else
        Lookup(s.orgQuotas, Key(region, model))
  }

  predicate IsSaturated(q: Option<Quota>) {
    match q
    case None => false
    case Some(q) =>
      || q.utilizationRpm >= 1.0 || q.utilizationTpm >= 1.0
      || (q.maxRpm > 0 && q.headroomRpm <= 0)
      || (q.maxTpm > 0 && q.headroomTpm <= 0)
  }
}
