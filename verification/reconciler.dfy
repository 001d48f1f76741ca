// pkg/controlplane/reconciler.go: raw rows, visited in no particular order,
// folded into a snapshot. Utilizations are real numbers; the spelling kept in a
// quota's labels is not part of this model.
module Reconciler {
  import opened Prelude
  import opened Text
  import opened Quotas

  datatype Raw = Raw(projectID: string, model: string, region: string, maxTpm: int, maxRpm: int, currentRpm: int, currentTpm: int)

  function Current(raw: Raw, side: Side): int {
    if side.Rpm? then raw.currentRpm else raw.currentTpm
  }

  function OrgKeyOf(raw: Raw): string {
    Key(raw.region, raw.model)
  }

  // The key of a project row; None is the source's error for a missing name.
  function GetKey(raw: Raw): Option<string> {
    if raw.projectID == "" || raw.region == "" || raw.model == "" then None
    else Some(ProjectKey(raw.projectID, raw.region, raw.model))
  }

  // ---------- Headroom and saturation ----------

  function Usable(max: int, margin: int): int {
    GoDiv(max * (100 - margin), 100)
  }

  function ComputeHeadroomMetric(max: int, current: int, margin: int): (int, real) {
    (Usable(max, margin) - current, if max > 0 then current as real / max as real else 0.0)
  }

  function PopulateQuotaMetrics(q: Quota, margin: int): Quota {
    var (headroomRpm, utilizationRpm) := ComputeHeadroomMetric(q.maxRpm, q.currentRpm, margin);
    var (headroomTpm, utilizationTpm) := ComputeHeadroomMetric(q.maxTpm, q.currentTpm, margin);
    q.(headroomRpm := headroomRpm, utilizationRpm := utilizationRpm, headroomTpm := headroomTpm, utilizationTpm := utilizationTpm)
  }

  // One unit more would overstep the part of the limit that the margin leaves.
  predicate Exhausted(max: int, current: int, margin: int) {
    max > 0 && 100 * (current + 1) > max * (100 - margin)
  }

  lemma {:induction false} UsableWithin(max: int, margin: int)
    requires max > 0 && 0 <= margin <= 100
    ensures 0 <= Usable(max, margin) <= max
  {
    DivBounds(max * (100 - margin), 100);
    assert max * (100 - margin) == 100 * max - max * margin;
    MulMono(0, max, margin);
    MulMono(0, max, 100 - margin);
  }

  lemma {:induction false} MeterSaturated(max: int, current: int, margin: int)
    requires 10 <= margin <= 90
    ensures
      var (headroom, utilization) := ComputeHeadroomMetric(max, current, margin);
      utilization >= 1.0 || (max > 0 && headroom <= 0) <==> Exhausted(max, current, margin)
  {
    if max > 0 {
      UsableWithin(max, margin);
      DivBounds(max * (100 - margin), 100);
      MulMono(0, max, 100 - margin);
      assert current as real / max as real >= 1.0 <==> current >= max;
    }
  }

  // The headroom is the most that can still be used before the limit, less the
  // margin, is reached; the utilization counts the whole limit.
  lemma {:induction false} HeadroomInNumbers(max: int, current: int, margin: int)
    requires 0 < max && 0 <= margin <= 100
    ensures
      var (headroom, utilization) := ComputeHeadroomMetric(max, current, margin);
      && 100 * (current + headroom) <= max * (100 - margin) < 100 * (current + headroom + 1)
      && utilization * max as real == current as real
  {
    MulMono(0, max, 100 - margin);
    DivBounds(max * (100 - margin), 100);
  }

  // A target is saturated exactly when one limited dimension has used up what
  // the safety margin leaves of it.
  lemma {:induction false} SaturatedIff(q: Quota, margin: int)
    requires 10 <= margin <= 90
    ensures IsSaturated(Some(PopulateQuotaMetrics(q, margin))) <==>
      || (q.maxRpm > 0 && 100 * (q.currentRpm + 1) > q.maxRpm * (100 - margin))
      || (q.maxTpm > 0 && 100 * (q.currentTpm + 1) > q.maxTpm * (100 - margin))
  {
    MeterSaturated(q.maxRpm, q.currentRpm, margin);
    MeterSaturated(q.maxTpm, q.currentTpm, margin);
    hide ComputeHeadroomMetric;
  }

  // Caution only adds: a larger margin never makes a saturated quota unsaturated.
  lemma {:induction false} MarginMonotone(q: Quota, margin: int, wider: int)
    requires 10 <= margin <= wider <= 90
    ensures IsSaturated(Some(PopulateQuotaMetrics(q, margin))) ==> IsSaturated(Some(PopulateQuotaMetrics(q, wider)))
  {
    MeterSaturated(q.maxRpm, q.currentRpm, margin);
    MeterSaturated(q.maxTpm, q.currentTpm, margin);
    MeterSaturated(q.maxRpm, q.currentRpm, wider);
    MeterSaturated(q.maxTpm, q.currentTpm, wider);
    ExhaustedMonotone(q.maxRpm, q.currentRpm, margin, wider);
    ExhaustedMonotone(q.maxTpm, q.currentTpm, margin, wider);
    hide ComputeHeadroomMetric, Exhausted;
  }

  lemma {:induction false} ExhaustedMonotone(max: int, current: int, margin: int, wider: int)
    requires margin <= wider
    ensures Exhausted(max, current, margin) ==> Exhausted(max, current, wider)
  {
    if max > 0 {
      MulMono(100 - wider, 100 - margin, max);
    }
  }

  // ---------- The snapshot, whatever the order of the rows ----------

  // The project rows among done that belong to an organisation key.
  function Part(rows: map<string, Raw>, done: set<string>, org: string, side: Side): map<string, int> {
    map j | j in rows && j in done && rows[j].projectID != "" && OrgKeyOf(rows[j]) == org :: Current(rows[j], side)
  }

  // Rows are stored under the keys that their own names give.
  predicate Canonical(rows: map<string, Raw>) {
    forall k | k in rows :: if rows[k].projectID == "" then k == OrgKeyOf(rows[k]) else Some(k) == GetKey(rows[k])
  }

  function ProjectQuota(raw: Raw, margin: int): Quota {
    PopulateQuotaMetrics(Quota(raw.maxRpm, raw.maxTpm, raw.currentRpm, raw.currentTpm, 0, 0, 0.0, 0.0), margin)
  }

  // The organisation's quota after the rows in done: its own row's limits, and
  // the usage of its projects.
  ghost function OrgQuota(rows: map<string, Raw>, done: set<string>, org: string): Quota {
    var own := org in done && org in rows && rows[org].projectID == "";
    Quota(if own then rows[org].maxRpm else 0, if own then rows[org].maxTpm else 0,
          Total(Part(rows, done, org, Rpm)), Total(Part(rows, done, org, Tpm)), 0, 0, 0.0, 0.0)
  }

  function OrgKeys(rows: map<string, Raw>, done: set<string>): set<string> {
    set j | j in rows && j in done :: OrgKeyOf(rows[j])
  }

  function ProjectKeys(rows: map<string, Raw>, done: set<string>): set<string> {
    set j | j in rows && j in done && rows[j].projectID != ""
  }

  // The snapshot of a set of rows: no order is involved.
  ghost predicate IsSnapshot(snap: Snapshot, rows: map<string, Raw>, margin: int) {
    && snap.projectQuotas.Keys == ProjectKeys(rows, rows.Keys)
    && snap.orgQuotas.Keys == OrgKeys(rows, rows.Keys)
    && (forall k | k in snap.projectQuotas :: snap.projectQuotas[k] == ProjectQuota(rows[k], margin))
    && (forall k | k in snap.orgQuotas :: snap.orgQuotas[k] == PopulateQuotaMetrics(OrgQuota(rows, rows.Keys, k), margin))
  }

  // ---------- The fold ----------

  // The state of the loop after the rows in done.
  ghost predicate Folded(rows: map<string, Raw>, done: set<string>, margin: int, projects: map<string, Quota>, orgs: map<string, Quota>) {
    && done <= rows.Keys
    && projects.Keys == ProjectKeys(rows, done)
    && orgs.Keys == OrgKeys(rows, done)
    && (forall k | k in projects :: projects[k] == ProjectQuota(rows[k], margin))
    && (forall k | k in orgs :: orgs[k] == OrgQuota(rows, done, k))
  }

  const NO_QUOTA := Quota(0, 0, 0, 0, 0, 0, 0.0, 0.0)

  // An organisation entry, made on first use.
  function Entry(orgs: map<string, Quota>, org: string): Quota {
    if org in orgs then orgs[org] else NO_QUOTA
  }

  // What the loop body does to an organisation entry.
  function Merged(q: Quota, raw: Raw): Quota {
    if raw.projectID == "" then q.(maxRpm := raw.maxRpm, maxTpm := raw.maxTpm)
    else q.(currentRpm := q.currentRpm + raw.currentRpm, currentTpm := q.currentTpm + raw.currentTpm)
  }

  lemma {:induction false} PartStep(rows: map<string, Raw>, done: set<string>, j: string, org: string, side: Side)
    requires j in rows && j !in done
    ensures Total(Part(rows, done + {j}, org, side))
         == Total(Part(rows, done, org, side)) + (if rows[j].projectID != "" && OrgKeyOf(rows[j]) == org then Current(rows[j], side) else 0)
  {
    var before, after := Part(rows, done, org, side), Part(rows, done + {j}, org, side);
    if rows[j].projectID != "" && OrgKeyOf(rows[j]) == org {
      assert after == before[j := Current(rows[j], side)];
      TotalAdd(before, j, Current(rows[j], side));
    } else {
      assert after == before;
    }
  }

  // An organisation without an entry has nothing recorded.
  lemma {:induction false} NoEntry(rows: map<string, Raw>, done: set<string>, org: string)
    requires Canonical(rows) && org !in OrgKeys(rows, done)
    ensures OrgQuota(rows, done, org) == NO_QUOTA
  {
    assert Part(rows, done, org, Rpm) == map[] == Part(rows, done, org, Tpm);
  }

  // The rows' effect on one organisation entry.
  lemma {:induction false} OrgStep(rows: map<string, Raw>, done: set<string>, j: string, org: string)
    requires Canonical(rows) && j in rows && j !in done
    ensures
      var before, raw := OrgQuota(rows, done, org), rows[j];
      OrgQuota(rows, done + {j}, org) == if OrgKeyOf(raw) == org then Merged(before, raw) else before
  {
    PartStep(rows, done, j, org, Rpm);
    PartStep(rows, done, j, org, Tpm);
    hide Part;
  }

  // The loop body for one row.
  method Fold(raw: Raw, margin: int, projects: map<string, Quota>, orgs: map<string, Quota>)
    returns (ok: bool, projects': map<string, Quota>, orgs': map<string, Quota>)
    ensures ok <==> raw.projectID == "" || GetKey(raw).Some?
    ensures ok ==> projects' == if raw.projectID == "" then projects else projects[GetKey(raw).value := ProjectQuota(raw, margin)]
    ensures ok ==> orgs' == orgs[OrgKeyOf(raw) := Merged(Entry(orgs, OrgKeyOf(raw)), raw)]
  {
    projects', orgs' := projects, orgs;
    var orgKey := OrgKeyOf(raw);
    if raw.projectID == "" {
      if orgKey !in orgs' {
        orgs' := orgs'[orgKey := NO_QUOTA];
      }
      orgs' := orgs'[orgKey := orgs'[orgKey].(maxRpm := raw.maxRpm, maxTpm := raw.maxTpm)];
      return true, projects', orgs';
    }
    var pKey := GetKey(raw);
    if pKey.None? {
      return false, projects', orgs';
    }
    var q := Quota(raw.maxRpm, raw.maxTpm, raw.currentRpm, raw.currentTpm, 0, 0, 0.0, 0.0);
    projects' := projects'[pKey.value := PopulateQuotaMetrics(q, margin)];
    if orgKey !in orgs' {
      orgs' := orgs'[orgKey := NO_QUOTA];
    }
    var o := orgs'[orgKey];
    orgs' := orgs'[orgKey := o.(currentRpm := o.currentRpm + raw.currentRpm, currentTpm := o.currentTpm + raw.currentTpm)];
    return true, projects', orgs';
  }

  lemma {:induction false} FoldOrgs(rows: map<string, Raw>, done: set<string>, j: string, margin: int, projects: map<string, Quota>, orgs: map<string, Quota>, k: string)
    requires Canonical(rows) && j in rows && j !in done && Folded(rows, done, margin, projects, orgs)
    requires k in orgs || k == OrgKeyOf(rows[j])
    ensures
      var key := OrgKeyOf(rows[j]);
      orgs[key := Merged(Entry(orgs, key), rows[j])][k] == OrgQuota(rows, done + {j}, k)
  {
    hide Total, Part, Merged, ProjectKeys, ProjectQuota;
    var key := OrgKeyOf(rows[j]);
    OrgStep(rows, done, j, k);
    if key !in orgs {
      NoEntry(rows, done, key);
    }
    hide OrgQuota, OrgKeyOf, OrgKeys, ProjectKeys, ProjectQuota, Canonical;
  }

  lemma {:induction false} FoldStep(rows: map<string, Raw>, done: set<string>, j: string, margin: int, projects: map<string, Quota>, orgs: map<string, Quota>)
    requires Canonical(rows) && j in rows && j !in done && Folded(rows, done, margin, projects, orgs)
    ensures
      var key := OrgKeyOf(rows[j]);
      Folded(rows, done + {j}, margin, if rows[j].projectID == "" then projects else projects[j := ProjectQuota(rows[j], margin)],
             orgs[key := Merged(Entry(orgs, key), rows[j])])
  {
    hide OrgQuota, OrgKeys, ProjectKeys, ProjectQuota, OrgKeyOf, Merged, Entry, Canonical;
    KeysStep(rows, done, j);
    FoldProjects(rows, done, j, margin, projects, orgs);
    var key := OrgKeyOf(rows[j]);
    forall k | k in orgs || k == key ensures orgs[key := Merged(Entry(orgs, key), rows[j])][k] == OrgQuota(rows, done + {j}, k) {
      FoldOrgs(rows, done, j, margin, projects, orgs, k);
    }
  }

  lemma {:induction false} KeysStep(rows: map<string, Raw>, done: set<string>, j: string)
    requires j in rows
    ensures OrgKeys(rows, done + {j}) == OrgKeys(rows, done) + {OrgKeyOf(rows[j])}
    ensures ProjectKeys(rows, done + {j}) == ProjectKeys(rows, done) + (if rows[j].projectID == "" then {} else {j})
  {
    hide OrgKeyOf;
  }

  lemma {:induction false} FoldProjects(rows: map<string, Raw>, done: set<string>, j: string, margin: int, projects: map<string, Quota>, orgs: map<string, Quota>)
    requires j in rows && Folded(rows, done, margin, projects, orgs)
    ensures
      var after := if rows[j].projectID == "" then projects else projects[j := ProjectQuota(rows[j], margin)];
      && after.Keys == ProjectKeys(rows, done + {j})
      && (forall k | k in after :: after[k] == ProjectQuota(rows[k], margin))
  {
    KeysStep(rows, done, j);
    hide ProjectKeys, ProjectQuota, OrgKeys, OrgQuota, OrgKeyOf;
  }

  // The final loop over the organisation entries.
  method PopulateAll(orgs: map<string, Quota>, margin: int) returns (r: map<string, Quota>)
    ensures r.Keys == orgs.Keys
    ensures forall k | k in orgs :: r[k] == PopulateQuotaMetrics(orgs[k], margin)
  {
    r := orgs;
    var rest := orgs.Keys;
    while rest != {}
      invariant rest <= orgs.Keys && r.Keys == orgs.Keys
      invariant forall k | k in orgs :: r[k] == if k in rest then orgs[k] else PopulateQuotaMetrics(orgs[k], margin)
      decreases rest
    {
      var k :| k in rest;
      rest := rest - {k};
      r := r[k := PopulateQuotaMetrics(r[k], margin)];
    }
  }

  // Rows under canonical keys have one snapshot, whatever order they come in.
  // The only error is a project row without a region or a model.
  method Reconcile(rows: map<string, Raw>, margin: int) returns (snap: Option<Snapshot>)
    ensures snap.None? <==> exists k :: k in rows && rows[k].projectID != "" && GetKey(rows[k]).None?
    ensures Canonical(rows) ==> snap.Some? && IsSnapshot(snap.value, rows, margin)
  {
    var projects: map<string, Quota>, orgs: map<string, Quota> := map[], map[];
    var rest := rows.Keys;
    ghost var done: set<string> := {};
    assert Folded(rows, done, margin, projects, orgs);
    hide Folded, Canonical, ProjectQuota, OrgQuota, OrgKeyOf, Merged, Entry, GetKey;
    while rest != {}
      invariant rest !! done && rest + done == rows.Keys
      invariant forall k | k in done :: rows[k].projectID == "" || GetKey(rows[k]).Some?
      invariant Canonical(rows) ==> Folded(rows, done, margin, projects, orgs)
      decreases rest
    {
      var k :| k in rest;
      ghost var (projects0, orgs0) := (projects, orgs);
      var ok;
      ok, projects, orgs := Fold(rows[k], margin, projects, orgs);
      if !ok {
        return None;
      }
      if Canonical(rows) {
        CanonicalRow(rows, k);
        FoldStep(rows, done, k, margin, projects0, orgs0);
      }
      rest, done := rest - {k}, done + {k};
    }
    assert done == rows.Keys;
    ghost var folded := orgs;
    orgs := PopulateAll(orgs, margin);
    if Canonical(rows) {
      AllFolded(rows, margin, projects, folded, orgs);
    }
    return Some(Snapshot(orgs, projects));
  }

  lemma {:induction false} CanonicalRow(rows: map<string, Raw>, k: string)
    requires Canonical(rows) && k in rows
    ensures rows[k].projectID != "" ==> GetKey(rows[k]) == Some(k)
  {
  }

  lemma {:induction false} AllFolded(rows: map<string, Raw>, margin: int, projects: map<string, Quota>, folded: map<string, Quota>, orgs: map<string, Quota>)
    requires Canonical(rows) && Folded(rows, rows.Keys, margin, projects, folded)
    requires orgs.Keys == folded.Keys && forall k | k in folded :: orgs[k] == PopulateQuotaMetrics(folded[k], margin)
    ensures IsSnapshot(Snapshot(orgs, projects), rows, margin)
    ensures forall k | k in rows && rows[k].projectID != "" :: GetKey(rows[k]).Some?
  {
    hide OrgQuota, ProjectQuota, PopulateQuotaMetrics, GetKey, OrgKeyOf;
  }

  // ---------- What the snapshot says ----------

  lemma {:induction false} SnapshotIsUnique(a: Snapshot, b: Snapshot, rows: map<string, Raw>, margin: int)
    requires IsSnapshot(a, rows, margin) && IsSnapshot(b, rows, margin)
    ensures a == b
  {
    hide ProjectKeys, OrgKeys, ProjectQuota, OrgQuota, PopulateQuotaMetrics;
  }

  function QuotaCurrent(q: Quota, side: Side): int {
    if side.Rpm? then q.currentRpm else q.currentTpm
  }

  // The usages of a snapshot's project quotas for one region and model.
  function ProjectUsages(snap: Snapshot, rows: map<string, Raw>, org: string, side: Side): map<string, int> {
    map j | j in snap.projectQuotas && j in rows && OrgKeyOf(rows[j]) == org :: QuotaCurrent(snap.projectQuotas[j], side)
  }

  lemma {:induction false} UsagesArePart(snap: Snapshot, rows: map<string, Raw>, margin: int, org: string, side: Side)
    requires IsSnapshot(snap, rows, margin)
    ensures ProjectUsages(snap, rows, org, side) == Part(rows, rows.Keys, org, side)
  {
    forall j | j in snap.projectQuotas ensures QuotaCurrent(snap.projectQuotas[j], side) == Current(rows[j], side) {
      assert snap.projectQuotas[j] == ProjectQuota(rows[j], margin);
      hide ComputeHeadroomMetric;
    }
    hide OrgKeyOf, QuotaCurrent, Current, ProjectQuota, OrgQuota, OrgKeys;
  }

  // The usage of an organisation quota is the sum of the usages of the
  // snapshot's project quotas for the same region and model.
  lemma {:induction false} OrgUsageIsProjectUsage(snap: Snapshot, rows: map<string, Raw>, margin: int, org: string, side: Side)
    requires IsSnapshot(snap, rows, margin) && org in snap.orgQuotas
    ensures QuotaCurrent(snap.orgQuotas[org], side) == Total(ProjectUsages(snap, rows, org, side))
  {
    UsagesArePart(snap, rows, margin, org, side);
    hide Part, ProjectUsages, ComputeHeadroomMetric, ProjectKeys, OrgKeys;
  }

  // What Decide sees of a project with a quota of its own: it is saturated
  // exactly when the project's usage exhausts the project's limit.
  lemma {:induction false} OwnSaturation(snap: Snapshot, rows: map<string, Raw>, margin: int, k: string)
    requires IsSnapshot(snap, rows, margin) && k in rows && rows[k].projectID != "" && 10 <= margin <= 90
    ensures k in snap.projectQuotas
    ensures
      var row := rows[k];
      IsSaturated(Some(snap.projectQuotas[k])) <==>
        || (row.maxRpm > 0 && 100 * (row.currentRpm + 1) > row.maxRpm * (100 - margin))
        || (row.maxTpm > 0 && 100 * (row.currentTpm + 1) > row.maxTpm * (100 - margin))
  {
    assert k in ProjectKeys(rows, rows.Keys);
    var row := rows[k];
    SaturatedIff(Quota(row.maxRpm, row.maxTpm, row.currentRpm, row.currentTpm, 0, 0, 0.0, 0.0), margin);
    hide PopulateQuotaMetrics, IsSaturated;
  }

  // What Decide sees of a target with no project quota: it is saturated
  // exactly when the projects' summed usage exhausts the organisation's limit.
  lemma {:induction false} PooledSaturation(snap: Snapshot, rows: map<string, Raw>, margin: int, org: string)
    requires IsSnapshot(snap, rows, margin) && org in rows && rows[org].projectID == "" && OrgKeyOf(rows[org]) == org && 10 <= margin <= 90
    ensures org in snap.orgQuotas
    ensures
      var row, rpm, tpm := rows[org], Total(Part(rows, rows.Keys, org, Rpm)), Total(Part(rows, rows.Keys, org, Tpm));
      IsSaturated(Some(snap.orgQuotas[org])) <==>
        || (row.maxRpm > 0 && 100 * (rpm + 1) > row.maxRpm * (100 - margin))
        || (row.maxTpm > 0 && 100 * (tpm + 1) > row.maxTpm * (100 - margin))
  {
    assert org in OrgKeys(rows, rows.Keys);
    SaturatedIff(OrgQuota(rows, rows.Keys, org), margin);
    hide Part, PopulateQuotaMetrics;
  }
}
