// pkg/controlplane/client.go: the rows that one fetch builds. The answers of
// the quota and usage services are parameters.
module Metrics {
  import opened Prelude
  import opened Text
  import opened Settings
  import opened Limits
  import opened Reconciler

  const FALLBACK_MAX_RPM := 1000
  const FALLBACK_MAX_TPM := 2_000_000

  // What the services say about a project; a failed limits call is None, and so
  // is a failed usage call.
  datatype Answers = Answers(rpm: Option<seq<Limits.Entry>>, tpm: Option<seq<Limits.Entry>>,
                             rpmUsage: Option<map<string, int>>, tpmUsage: Option<map<string, int>>)

  datatype ProjectData = ProjectData(rpmLimits: map<string, int>, tpmLimits: map<string, int>,
                                     rpmUsage: map<string, int>, tpmUsage: map<string, int>)

  predicate HasSubstring(s: string, sub: string) {
    exists i :: 0 <= i <= |s| - |sub| && s[i..][..|sub|] == sub
  }

  // The configured limit of the closest name, down to the model family.
  function ResolveFallbackLimit(limits: map<string, ModelLimit>, project: string, region: string, model: string): ModelLimit {
    var name := Lower(model);
    if project != "" && ProjectKey(project, region, model) in limits then limits[ProjectKey(project, region, model)]
    else if Key(region, model) in limits then limits[Key(region, model)]
    else if name in limits then limits[name]
    else if HasSubstring(name, "flash-lite") && "flash-lite" in limits then limits["flash-lite"]
    else if HasSubstring(name, "flash") && "flash" in limits then limits["flash"]
    else if HasSubstring(name, "pro") && "pro" in limits then limits["pro"]
    else ModelLimit(FALLBACK_MAX_RPM, FALLBACK_MAX_TPM)
  }

  function UsageOf(usage: map<string, int>, key: string): int {
    if key in usage then usage[key] else 0
  }

  function OrgRow(r: string, m: string, allowances: map<string, ModelLimit>): Raw {
    var limit := ResolveFallbackLimit(allowances, "", r, m);
    Raw("", m, r, limit.maxTpm, limit.maxRpm, 0, 0)
  }

  function ProjectRow(p: string, r: string, m: string, data: ProjectData, limits: map<string, ModelLimit>): Raw {
    var key, fallback := Key(r, m), ResolveFallbackLimit(limits, p, r, m);
    Raw(p, m, r, ResolveLimit(data.tpmLimits, key, fallback.maxTpm), ResolveLimit(data.rpmLimits, key, fallback.maxRpm),
        UsageOf(data.rpmUsage, key), UsageOf(data.tpmUsage, key))
  }

  lemma {:induction false} SubstringIff(s: string, sub: string)
    ensures HasSubstring(s, sub) <==> exists a, b :: s == a + sub + b
  {
    if HasSubstring(s, sub) {
      var i :| 0 <= i <= |s| - |sub| && s[i..][..|sub|] == sub;
      assert s == s[..i] + sub + s[i + |sub|..];
    }
    forall a, b | s == a + sub + b ensures HasSubstring(s, sub) {
      assert s[|a|..][..|sub|] == sub;
    }
  }

  // The closest name wins: the project's own target, the target, the model, and
  // only then the family that the model's name is part of.
  lemma {:induction false} ClosestLimit(limits: map<string, ModelLimit>, project: string, region: string, model: string)
    ensures
      var name, found := Lower(model), ResolveFallbackLimit(limits, project, region, model);
      var pooled := Lower(region) + "/" + name;
      var own := Lower(project) + "/" + pooled;
      if project != "" && own in limits then found == limits[own]
      else if pooled in limits then found == limits[pooled]
      else if name in limits then found == limits[name]
      else
        var families := ["flash-lite", "flash", "pro"];
        || (exists i | 0 <= i < 3 ::
              && OfFamily(limits, name, families[i]) && found == limits[families[i]]
              && forall j | 0 <= j < i :: !OfFamily(limits, name, families[j]))
        || (found == ModelLimit(1000, 2_000_000) && forall i | 0 <= i < 3 :: !OfFamily(limits, name, families[i]))
  {
    hide HasSubstring, Lower;
    var families, name := ["flash-lite", "flash", "pro"], Lower(model);
    assert families[0] == "flash-lite" && families[1] == "flash" && families[2] == "pro";
  }

  predicate OfFamily(limits: map<string, ModelLimit>, name: string, family: string) {
    family in limits && HasSubstring(name, family)
  }

  // A positive limit of the answer is taken, -1 means that there is none, and
  // anything else falls back. Requests come from the request answers, tokens
  // from the token answers.
  lemma {:induction false} ProjectRowInNumbers(p: string, r: string, m: string, data: ProjectData, limits: map<string, ModelLimit>)
    ensures
      var row, key, fallback := ProjectRow(p, r, m, data, limits), Key(r, m), ResolveFallbackLimit(limits, p, r, m);
      && row.projectID == p && row.region == r && row.model == m
      && LimitIs(row.maxRpm, data.rpmLimits, key, fallback.maxRpm)
      && LimitIs(row.maxTpm, data.tpmLimits, key, fallback.maxTpm)
      && row.currentRpm == (if key in data.rpmUsage then data.rpmUsage[key] else 0)
      && row.currentTpm == (if key in data.tpmUsage then data.tpmUsage[key] else 0)
  {
    hide Key, ResolveFallbackLimit;
  }

  // An organisation row has the allowance for its target and no usage yet.
  lemma {:induction false} OrgRowInNumbers(r: string, m: string, allowances: map<string, ModelLimit>)
    ensures
      var (row, found) := (OrgRow(r, m, allowances), ResolveFallbackLimit(allowances, "", r, m));
      && row.projectID == "" && row.region == r && row.model == m
      && row.maxRpm == found.maxRpm && row.maxTpm == found.maxTpm && row.currentRpm == row.currentTpm == 0
  {
    hide ResolveFallbackLimit;
  }

  predicate LimitIs(limit: int, reported: map<string, int>, key: string, fallback: int) {
    && (key in reported && reported[key] > 0 ==> limit == reported[key])
    && (key in reported && reported[key] == -1 ==> limit == 0)
    && (key in reported && reported[key] <= 0 && reported[key] != -1 ==> limit == fallback)
    && (key !in reported ==> limit == fallback)
  }

  ghost predicate DataFor(d: ProjectData, a: Answers, regions: seq<string>, models: seq<string>) {
    && Extracted(d.rpmLimits, if a.rpm.None? then [] else a.rpm.value, regions, models)
    && Extracted(d.tpmLimits, if a.tpm.None? then [] else a.tpm.value, regions, models)
    && a.rpmUsage == Some(d.rpmUsage) && a.tpmUsage == Some(d.tpmUsage)
  }

  // The loop over the projects.
  method Collect(projectIDs: seq<string>, answers: map<string, Answers>, regions: seq<string>, models: seq<string>)
    returns (data: Option<map<string, ProjectData>>)
    requires forall p | p in projectIDs :: p in answers
    ensures data.None? <==> exists p :: p in projectIDs && (answers[p].rpmUsage.None? || answers[p].tpmUsage.None?)
    ensures data.Some? ==> forall p | p in projectIDs :: p in data.value && DataFor(data.value[p], answers[p], regions, models)
  {
    hide DataFor, Extracted;
    var gcpData: map<string, ProjectData> := map[];
    for i := 0 to |projectIDs|
      invariant forall j | 0 <= j < i ::
        && answers[projectIDs[j]].rpmUsage.Some? && answers[projectIDs[j]].tpmUsage.Some?
        && projectIDs[j] in gcpData && DataFor(gcpData[projectIDs[j]], answers[projectIDs[j]], regions, models)
    {
      var p := projectIDs[i];
      var a := answers[p];
      if a.rpmUsage.None? || a.tpmUsage.None? {
        return None;
      }
      var rpmLimits := ExtractLimits(a.rpm, regions, models);
      var tpmLimits := ExtractLimits(a.tpm, regions, models);
      var d := ProjectData(rpmLimits, tpmLimits, a.rpmUsage.value, a.tpmUsage.value);
      Collected(d, a, regions, models);
      gcpData := gcpData[p := d];
    }
    return Some(gcpData);
  }

  lemma {:induction false} Collected(d: ProjectData, a: Answers, regions: seq<string>, models: seq<string>)
    requires Extracted(d.rpmLimits, if a.rpm.None? then [] else a.rpm.value, regions, models)
    requires Extracted(d.tpmLimits, if a.tpm.None? then [] else a.tpm.value, regions, models)
    requires a.rpmUsage == Some(d.rpmUsage) && a.tpmUsage == Some(d.tpmUsage)
    ensures DataFor(d, a, regions, models)
  {
    hide Extracted;
  }

  // What every fetch works with.
  datatype Inputs = Inputs(projectIDs: seq<string>, data: map<string, ProjectData>, allowances: map<string, ModelLimit>, projectLimits: map<string, ModelLimit>)

  ghost predicate ReadyInputs(inp: Inputs) {
    forall p | p in inp.projectIDs :: p in inp.data
  }

  // The row is that of a listed target, or of a listed project on it, and is
  // stored under its own key.
  ghost predicate RowFor(inp: Inputs, r: string, m: string, k: string, row: Raw)
    requires ReadyInputs(inp)
  {
    || (row == OrgRow(r, m, inp.allowances) && k == Key(r, m))
    || (row.projectID in inp.projectIDs && row.projectID != "" && r != "" && m != "" && k == ProjectKey(row.projectID, r, m)
        && row == ProjectRow(row.projectID, r, m, inp.data[row.projectID], inp.projectLimits))
  }

  // The rows of one target, added to those of the targets before it.
  method AddTarget(inp: Inputs, r: string, m: string, before: map<string, Raw>) returns (rows: Option<map<string, Raw>>)
    requires ReadyInputs(inp)
    ensures rows.None? <==> inp.projectIDs != [] && (r == "" || m == "" || "" in inp.projectIDs)
    ensures rows.Some? ==>
      && before.Keys <= rows.value.Keys && Key(r, m) in rows.value
      && (forall p | p in inp.projectIDs :: ProjectKey(p, r, m) in rows.value)
      && (forall k | k in rows.value :: (k in before && rows.value[k] == before[k]) || RowFor(inp, r, m, k, rows.value[k]))
  {
    hide Key, ProjectKey, ResolveFallbackLimit, ResolveLimit, UsageOf;
    var resp := before[Key(r, m) := OrgRow(r, m, inp.allowances)];
    for i := 0 to |inp.projectIDs|
      invariant i > 0 ==> r != "" && m != ""
      invariant before.Keys <= resp.Keys && Key(r, m) in resp
      invariant forall j | 0 <= j < i :: inp.projectIDs[j] != "" && ProjectKey(inp.projectIDs[j], r, m) in resp
      invariant forall k | k in resp :: (k in before && resp[k] == before[k]) || RowFor(inp, r, m, k, resp[k])
    {
      var p := inp.projectIDs[i];
      assert p in inp.projectIDs;
      var row := ProjectRow(p, r, m, inp.data[p], inp.projectLimits);
      var pKey := GetKey(row);
      if pKey.None? {
        return None;
      }
      resp := resp[pKey.value := row];
    }
    return Some(resp);
  }

  // All rows are rows of listed targets.
  ghost predicate Built(inp: Inputs, regions: seq<string>, models: seq<string>, rows: map<string, Raw>)
    requires ReadyInputs(inp)
  {
    forall k | k in rows :: exists r, m :: r in regions && m in models && RowFor(inp, r, m, k, rows[k])
  }

  // Every listed target has its row, and so has every project on it.
  ghost predicate Complete(inp: Inputs, regions: seq<string>, models: seq<string>, rows: map<string, Raw>) {
    && (forall r, m | r in regions && m in models :: Key(r, m) in rows)
    && (forall p, r, m | p in inp.projectIDs && r in regions && m in models :: ProjectKey(p, r, m) in rows)
  }

  method AddTargets(inp: Inputs, regions: seq<string>, models: seq<string>) returns (rows: Option<map<string, Raw>>)
    requires ReadyInputs(inp)
    ensures rows.None? <==>
      inp.projectIDs != [] && regions != [] && models != [] && ("" in regions || "" in models || "" in inp.projectIDs)
    ensures rows.Some? ==> Built(inp, regions, models, rows.value) && Complete(inp, regions, models, rows.value)
  {
    hide Key, ProjectKey, RowFor, ReadyInputs;
    var resp: map<string, Raw> := map[];
    for i := 0 to |regions|
      invariant Built(inp, regions, models, resp) && Complete(inp, regions[..i], models, resp)
      invariant inp.projectIDs != [] && models != [] && i > 0 ==> "" !in regions[..i] && "" !in models && "" !in inp.projectIDs
    {
      var r := regions[i];
      assert r in regions && regions[..i + 1] == regions[..i] + [r];
      for j := 0 to |models|
        invariant Built(inp, regions, models, resp) && Complete(inp, regions[..i], models, resp) && Complete(inp, [r], models[..j], resp)
        invariant inp.projectIDs != [] && models != [] && i > 0 ==> "" !in regions[..i] && "" !in models && "" !in inp.projectIDs
        invariant inp.projectIDs != [] && j > 0 ==> r != "" && "" !in models[..j] && "" !in inp.projectIDs
      {
        var m := models[j];
        assert m in models && models[..j + 1] == models[..j] + [m];
        var added := AddTarget(inp, r, m, resp);
        if added.None? {
          return None;
        }
        resp := added.value;
      }
      assert models[..|models|] == models;
    }
    assert regions[..|regions|] == regions;
    return Some(resp);
  }

  // Rows are built under canonical keys, so the reconciler's snapshot does not
  // depend on their order.
  lemma {:induction false} BuiltIsCanonical(inp: Inputs, regions: seq<string>, models: seq<string>, rows: map<string, Raw>)
    requires ReadyInputs(inp) && Built(inp, regions, models, rows)
    ensures Canonical(rows)
  {
    hide Key, ProjectKey, ResolveFallbackLimit, ResolveLimit, UsageOf;
  }

  method FetchMetrics(projectIDs: seq<string>, regions: seq<string>, models: seq<string>, answers: map<string, Answers>,
                      allowances: map<string, ModelLimit>, projectLimits: map<string, ModelLimit>)
    returns (rows: Option<map<string, Raw>>, ghost inp: Inputs)
    requires forall p | p in projectIDs :: p in answers
    ensures inp.projectIDs == projectIDs && inp.allowances == allowances && inp.projectLimits == projectLimits
    ensures rows.Some? ==>
      && ReadyInputs(inp) && (forall p | p in projectIDs :: DataFor(inp.data[p], answers[p], regions, models))
      && Built(inp, regions, models, rows.value) && Complete(inp, regions, models, rows.value) && Canonical(rows.value)
    ensures rows.None? <==>
      ((exists p :: p in projectIDs && (answers[p].rpmUsage.None? || answers[p].tpmUsage.None?))
       || (projectIDs != [] && regions != [] && models != [] && ("" in regions || "" in models || "" in projectIDs)))
  {
    hide DataFor, Built, Complete, Canonical;
    var data := Collect(projectIDs, answers, regions, models);
    if data.None? {
      inp := Inputs(projectIDs, map[], allowances, projectLimits);
      return None, inp;
    }
    var inputs := Inputs(projectIDs, data.value, allowances, projectLimits);
    inp := inputs;
    rows := AddTargets(inputs, regions, models);
    if rows.Some? {
      BuiltIsCanonical(inputs, regions, models, rows.value);
    }
  }

  lemma {:induction false} NotAProjectKey(p: string, r: string, m: string, r': string, m': string)
    requires '/' !in r && '/' !in m
    ensures Key(r, m) != ProjectKey(p, r', m')
  {
    LowerChars(r);
    LowerChars(m);
    var k := ProjectKey(p, r', m');
    var i, j := |Lower(p)|, |Lower(p)| + 1 + |Lower(r')|;
    assert k[i] == '/' && k[j] == '/';
    assert forall n | 0 <= n < |Key(r, m)| && n != |Lower(r)| :: Key(r, m)[n] != '/' by {
      assert forall n | |Lower(r)| < n < |Key(r, m)| :: Key(r, m)[n] == Lower(m)[n - |Lower(r)| - 1];
    }
  }

  // Under the key of a configured target stands its organisation row, so the
  // snapshot has its quota (see PooledSaturation). Names with a '/' could make
  // it collide with a project's key.
  lemma {:induction false} TargetHasOrgRow(inp: Inputs, regions: seq<string>, models: seq<string>, rows: map<string, Raw>, r: string, m: string)
    requires ReadyInputs(inp) && Built(inp, regions, models, rows) && Complete(inp, regions, models, rows)
    requires r in regions && m in models && '/' !in r && '/' !in m
    ensures
      var k := Key(r, m);
      k in rows && rows[k].projectID == "" && OrgKeyOf(rows[k]) == k
  {
    var k := Key(r, m);
    var r', m' :| r' in regions && m' in models && RowFor(inp, r', m', k, rows[k]);
    NotAProjectKey(rows[k].projectID, r, m, r', m');
    hide Key, ProjectKey, ResolveFallbackLimit, ResolveLimit, UsageOf, Built, Complete;
  }
}
