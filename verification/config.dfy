// pkg/governor/config.go: which configurations are accepted, and what an
// accepted one guarantees.
module ConfigLoad {
  import opened Prelude
  import opened Text
  import opened Settings
  import opened Sorting
  import opened Router
  import opened Limiters
  import opened Cascade

  datatype ConfigError =
    | NoProjects | NoRegions | NoModels | BadReserve | NegativeTokens | BadReplicas
    | NoAllowances | BadKey | UnlistedLocation | UnlistedModel | BadLimit | DuplicateKey
    | StepRegionUnlisted | StepModelUnlisted | StepHasNoAllowance

  const MIN_POLL_INTERVAL := 15_000_000_000
  const DEFAULT_POLL_TIMEOUT := 10_000_000_000
  const MIN_SAFETY_MARGIN_PERCENT := 10
  const MAX_SAFETY_MARGIN_PERCENT := 90
  const MIN_CRITICAL_RESERVE_PERCENT := 0
  const MAX_CRITICAL_RESERVE_PERCENT := 90

  datatype LoadResult = Accepted(config: Config) | Refused(error: ConfigError)

  function Norm(s: string): string {
    Lower(Trim(s))
  }

  ghost predicate Listed(values: seq<string>, name: string) {
    exists v :: v in values && Norm(v) == name
  }

  method NormalizedSet(values: seq<string>) returns (names: set<string>)
    ensures forall name :: name in names <==> Listed(values, name)
  {
    names := {};
    for i := 0 to |values|
      invariant forall name :: name in names <==> Listed(values[..i], name)
    {
      ghost var before := names;
      names := names + {Norm(values[i])};
      forall name ensures name in names <==> Listed(values[..i + 1], name) {
        assert values[..i + 1] == values[..i] + [values[i]];
        assert values[i] in values[..i + 1];
      }
    }
    assert values[..|values|] == values;
  }

  // ---------- Allowances ----------

  // "location/model" with both parts nonempty and a single separator.
  predicate IsPair(key: string) {
    var i := IndexByte(key, '/');
    i > 0 && i < |key| - 1 && '/' !in key[i + 1..]
  }

  function LocationOf(key: string): string
    requires IsPair(key)
  {
    key[..IndexByte(key, '/')]
  }

  function ModelOf(key: string): string
    requires IsPair(key)
  {
    key[IndexByte(key, '/') + 1..]
  }

  predicate GoodLimit(limit: Option<ModelLimit>) {
    limit.Some? && limit.value.maxRpm >= 0 && limit.value.maxTpm >= 0 && (limit.value.maxRpm > 0 || limit.value.maxTpm > 0)
  }

  ghost predicate GoodAllowance(c: Config, raw: string)
    requires raw in c.allowances
  {
    var key := Norm(raw);
    && IsPair(key)
    && Listed(c.regions, LocationOf(key)) && Listed(c.models, ModelOf(key))
    && GoodLimit(c.allowances[raw])
  }

  // Keys that differ only in case and surrounding space are one key.
  ghost predicate DistinctKeys(c: Config) {
    forall raw, raw' | raw in c.allowances && raw' in c.allowances && Norm(raw) == Norm(raw') :: raw == raw'
  }

  ghost predicate GoodAllowances(c: Config) {
    && c.allowances != map[]
    && (forall raw | raw in c.allowances :: GoodAllowance(c, raw))
    && DistinctKeys(c)
  }

  // The same limits under normalised keys.
  ghost predicate Rekeyed(out: map<string, Option<ModelLimit>>, allowances: map<string, Option<ModelLimit>>) {
    && (forall raw | raw in allowances :: Norm(raw) in out && out[Norm(raw)] == allowances[raw])
    && (forall k | k in out :: exists raw :: raw in allowances && Norm(raw) == k)
  }

  // The checks on one allowance, in their order.
  method CheckAllowance(c: Config, raw: string, regions: set<string>, models: set<string>, out: map<string, Option<ModelLimit>>)
    returns (fault: Option<ConfigError>)
    requires raw in c.allowances
    requires forall name :: name in regions <==> Listed(c.regions, name)
    requires forall name :: name in models <==> Listed(c.models, name)
    ensures fault.None? <==> (GoodAllowance(c, raw) && Norm(raw) !in out)
  {
    var limit, key := c.allowances[raw], Norm(raw);
    var i := IndexByte(key, '/');
    if i == -1 || key[..i] == "" || key[i + 1..] == "" || '/' in key[i + 1..] {
      return Some(BadKey);
    }
    if key[..i] !in regions {
      return Some(UnlistedLocation);
    }
    if key[i + 1..] !in models {
      return Some(UnlistedModel);
    }
    if limit.None? || limit.value.maxRpm < 0 || limit.value.maxTpm < 0 || (limit.value.maxRpm == 0 && limit.value.maxTpm == 0) {
      return Some(BadLimit);
    }
    if key in out {
      return Some(DuplicateKey);
    }
    return None;
  }

  // The allowances in done have been moved to out; source remembers from where.
  ghost predicate Moved(c: Config, done: set<string>, out: map<string, Option<ModelLimit>>, source: map<string, string>) {
    && done <= c.allowances.Keys && source.Keys == out.Keys
    && (forall raw | raw in done :: GoodAllowance(c, raw) && Norm(raw) in source && source[Norm(raw)] == raw)
    && (forall k | k in out :: source[k] in done && Norm(source[k]) == k && out[k] == c.allowances[source[k]])
  }

  lemma {:induction false} NothingMoved(c: Config)
    ensures Moved(c, {}, map[], map[])
    ensures c.allowances == map[] ==> !GoodAllowances(c)
  {
  }

  lemma {:induction false} MoveOne(c: Config, done: set<string>, out: map<string, Option<ModelLimit>>, source: map<string, string>, raw: string)
    requires Moved(c, done, out, source) && raw in c.allowances && raw !in done
    requires GoodAllowance(c, raw) && Norm(raw) !in out
    ensures Moved(c, done + {raw}, out[Norm(raw) := c.allowances[raw]], source[Norm(raw) := raw])
  {
    hide Norm, GoodAllowance;
  }

  lemma {:induction false} CannotMove(c: Config, done: set<string>, out: map<string, Option<ModelLimit>>, source: map<string, string>, raw: string)
    requires Moved(c, done, out, source) && raw in c.allowances && raw !in done
    requires !GoodAllowance(c, raw) || Norm(raw) in out
    ensures !GoodAllowances(c)
  {
    hide Norm, GoodAllowance;
    if Norm(raw) in out {
      assert Norm(source[Norm(raw)]) == Norm(raw);
    }
  }

  lemma {:induction false} AllMoved(c: Config, out: map<string, Option<ModelLimit>>, source: map<string, string>)
    requires Moved(c, c.allowances.Keys, out, source) && c.allowances != map[]
    ensures Rekeyed(out, c.allowances) && GoodAllowances(c)
  {
    hide Norm, GoodAllowance;
    forall k | k in out ensures exists raw :: raw in c.allowances && Norm(raw) == k {
      assert source[k] in c.allowances;
    }
  }

  method NormalizeAllowances(c: Config) returns (r: LoadResult)
    ensures r.Accepted? <==> GoodAllowances(c)
    ensures r.Accepted? ==> Rekeyed(r.config.allowances, c.allowances) && r.config == c.(allowances := r.config.allowances)
  {
    NothingMoved(c);
    hide *;
    if c.allowances == map[] {
      return Refused(NoAllowances);
    }
    var regions := NormalizedSet(c.regions);
    var models := NormalizedSet(c.models);
    var keys := SortedKeys(c.allowances.Keys);
    var out: map<string, Option<ModelLimit>> := map[];
    ghost var done: set<string>, source: map<string, string> := {}, map[];
    for i := 0 to |keys|
      invariant Moved(c, done, out, source)
      invariant forall raw :: raw in done <==> raw in keys[..i]
    {
      var raw := keys[i];
      AscendingDistinct(keys, i);
      var fault := CheckAllowance(c, raw, regions, models, out);
      if fault.Some? {
        CannotMove(c, done, out, source, raw);
        return Refused(fault.value);
      }
      MoveOne(c, done, out, source, raw);
      out, source, done := out[Norm(raw) := c.allowances[raw]], source[Norm(raw) := raw], done + {raw};
      assert keys[..i + 1] == keys[..i] + [raw];
    }
    assert keys[..|keys|] == keys;
    assert done == c.allowances.Keys;
    AllMoved(c, out, source);
    return Accepted(c.(allowances := out));
  }

  // ---------- Cascade targets ----------

  ghost predicate GoodStep(c: Config, keys: set<string>, step: CascadeStep) {
    && Listed(c.regions, Norm(step.targetRegion)) && Listed(c.models, Norm(step.targetModel))
    && Norm(step.targetRegion) + "/" + Norm(step.targetModel) in keys
  }

  ghost predicate GoodTargets(c: Config, keys: set<string>) {
    forall name, step | name in c.customPolicies && step in c.customPolicies[name] :: GoodStep(c, keys, step)
  }

  method CheckSteps(c: Config, regions: set<string>, models: set<string>, steps: seq<CascadeStep>) returns (fault: Option<ConfigError>)
    requires forall name :: name in regions <==> Listed(c.regions, name)
    requires forall name :: name in models <==> Listed(c.models, name)
    ensures fault.None? <==> forall step | step in steps :: GoodStep(c, c.allowances.Keys, step)
  {
    for i := 0 to |steps|
      invariant forall j | 0 <= j < i :: GoodStep(c, c.allowances.Keys, steps[j])
    {
      assert steps[i] in steps;
      var region, model := Norm(steps[i].targetRegion), Norm(steps[i].targetModel);
      if region !in regions {
        return Some(StepRegionUnlisted);
      }
      if model !in models {
        return Some(StepModelUnlisted);
      }
      if region + "/" + model !in c.allowances {
        return Some(StepHasNoAllowance);
      }
    }
    return None;
  }

  method ValidateCascadeTargets(c: Config) returns (fault: Option<ConfigError>)
    ensures fault.None? <==> GoodTargets(c, c.allowances.Keys)
  {
    var regions := NormalizedSet(c.regions);
    var models := NormalizedSet(c.models);
    var names := SortedKeys(c.customPolicies.Keys);
    for i := 0 to |names|
      invariant forall j, step | 0 <= j < i && step in c.customPolicies[names[j]] :: GoodStep(c, c.allowances.Keys, step)
    {
      assert names[i] in names;
      fault := CheckSteps(c, regions, models, c.customPolicies[names[i]]);
      if fault.Some? {
        return;
      }
    }
    return None;
  }

  // ---------- The whole load ----------

  predicate GoodAdmission(c: Config) {
    && MIN_CRITICAL_RESERVE_PERCENT <= c.ReservePercent() <= MAX_CRITICAL_RESERVE_PERCENT
    && c.defaultRequestTokens >= 0 && c.Replicas() >= 1
  }

  function NormalKeys(allowances: map<string, Option<ModelLimit>>): set<string> {
    set raw | raw in allowances :: Norm(raw)
  }

  // Exactly the configurations that are accepted.
  ghost predicate Good(c: Config) {
    && c.projectIDs != [] && c.regions != [] && c.models != [] && GoodAdmission(c) && GoodAllowances(c)
    && GoodTargets(c, NormalKeys(c.allowances))
  }

  method ValidateAdmissionSettings(c: Config) returns (fault: Option<ConfigError>)
    ensures fault.None? <==> GoodAdmission(c)
    ensures fault.None? <==>
      && (c.criticalReservePercent.Some? ==> 0 <= c.criticalReservePercent.value <= 90)
      && (c.dataplaneReplicas.Some? ==> c.dataplaneReplicas.value >= 1)
      && c.defaultRequestTokens >= 0
  {
    if c.criticalReservePercent.Some? {
      var percent := c.criticalReservePercent.value;
      if percent < MIN_CRITICAL_RESERVE_PERCENT || percent > MAX_CRITICAL_RESERVE_PERCENT {
        return Some(BadReserve);
      }
    }
    if c.defaultRequestTokens < 0 {
      return Some(NegativeTokens);
    }
    if c.dataplaneReplicas.Some? && c.dataplaneReplicas.value < 1 {
      return Some(BadReplicas);
    }
    return None;
  }

  // The polling and margin settings are clamped, never rejected.
  method Clamp(c: Config) returns (r: Config)
    ensures r == c.(pollInterval := r.pollInterval, pollTimeout := r.pollTimeout, safetyMarginPercent := r.safetyMarginPercent)
    ensures Clamped(c, r)
    ensures r.pollInterval == Max(c.pollInterval, 15_000_000_000)
    ensures r.pollTimeout == if 0 < c.pollTimeout <= r.pollInterval then c.pollTimeout else 10_000_000_000
    ensures r.safetyMarginPercent == if 10 <= c.safetyMarginPercent <= 90 then c.safetyMarginPercent else 10
  {
    r := c;
    if r.pollInterval < MIN_POLL_INTERVAL {
      r := r.(pollInterval := MIN_POLL_INTERVAL);
    }
    if r.pollTimeout <= 0 || r.pollTimeout > r.pollInterval {
      r := r.(pollTimeout := DEFAULT_POLL_TIMEOUT);
      if r.pollTimeout > r.pollInterval {
        r := r.(pollTimeout := r.pollInterval);
      }
    }
    if r.safetyMarginPercent < MIN_SAFETY_MARGIN_PERCENT || r.safetyMarginPercent > MAX_SAFETY_MARGIN_PERCENT {
      r := r.(safetyMarginPercent := MIN_SAFETY_MARGIN_PERCENT);
    }
  }

  // Usable settings are kept; the others become the least interval, the
  // default timeout and the least margin.
  predicate Clamped(c: Config, r: Config) {
    && r.pollInterval == Max(c.pollInterval, MIN_POLL_INTERVAL)
    && r.pollTimeout == (if 0 < c.pollTimeout <= r.pollInterval then c.pollTimeout else DEFAULT_POLL_TIMEOUT)
    && r.safetyMarginPercent == (if MIN_SAFETY_MARGIN_PERCENT <= c.safetyMarginPercent <= MAX_SAFETY_MARGIN_PERCENT
                                 then c.safetyMarginPercent else MIN_SAFETY_MARGIN_PERCENT)
  }

  // What becomes of an accepted configuration.
  ghost predicate LoadedAs(c: Config, r: Config) {
    && Rekeyed(r.allowances, c.allowances) && Clamped(c, r)
    && r == c.(allowances := r.allowances, pollInterval := r.pollInterval, pollTimeout := r.pollTimeout,
               safetyMarginPercent := r.safetyMarginPercent)
  }

  // A configuration that Load has accepted.
  ghost predicate Loadable(c: Config) {
    exists raw :: Good(raw) && LoadedAs(raw, c)
  }

  lemma {:induction false} GoodParts(c: Config)
    ensures Good(c) <==>
      (c.projectIDs != [] && c.regions != [] && c.models != [] && GoodAdmission(c) && GoodAllowances(c)
       && GoodTargets(c, NormalKeys(c.allowances)))
  {
  }

  // The checks do not look at what is clamped.
  lemma {:induction false} ClampKeeps(c: Config, r: Config)
    requires r == c.(pollInterval := r.pollInterval, pollTimeout := r.pollTimeout, safetyMarginPercent := r.safetyMarginPercent)
    ensures GoodAdmission(r) == GoodAdmission(c) && GoodAllowances(r) == GoodAllowances(c)
    ensures GoodTargets(r, NormalKeys(r.allowances)) == GoodTargets(c, NormalKeys(c.allowances))
  {
    hide Norm, IsPair, LocationOf, ModelOf, Listed, GoodLimit;
    assert forall raw | raw in c.allowances :: GoodAllowance(r, raw) == GoodAllowance(c, raw);
    assert DistinctKeys(r) == DistinctKeys(c);
    assert forall keys, step :: GoodStep(r, keys, step) == GoodStep(c, keys, step);
    hide GoodAllowance, DistinctKeys, GoodStep;
  }

  method Load(c: Config) returns (r: LoadResult)
    ensures r.Accepted? <==> Good(c)
    ensures r.Accepted? ==> LoadedAs(c, r.config) && Loadable(r.config)
  {
    GoodParts(c);
    hide *;
    if |c.projectIDs| == 0 {
      return Refused(NoProjects);
    }
    if |c.regions| == 0 {
      return Refused(NoRegions);
    }
    if |c.models| == 0 {
      return Refused(NoModels);
    }
    var clamped := Clamp(c);
    ClampKeeps(c, clamped);
    var fault := ValidateAdmissionSettings(clamped);
    if fault.Some? {
      return Refused(fault.value);
    }
    r := NormalizeAllowances(clamped);
    if r.Refused? {
      return;
    }
    fault := ValidateCascadeTargets(r.config);
    TargetsCarryOver(clamped, r.config.allowances);
    if fault.Some? {
      return Refused(fault.value);
    }
    LoadedIsLoadable(c, clamped, r.config);
  }

  lemma {:induction false} LoadedIsLoadable(raw: Config, clamped: Config, c: Config)
    requires Good(raw) && Clamped(raw, clamped)
    requires clamped == raw.(pollInterval := clamped.pollInterval, pollTimeout := clamped.pollTimeout,
                             safetyMarginPercent := clamped.safetyMarginPercent)
    requires Rekeyed(c.allowances, clamped.allowances) && c == clamped.(allowances := c.allowances)
    ensures LoadedAs(raw, c) && Loadable(c)
  {
    hide Good, Rekeyed;
  }

  lemma {:induction false} TargetsCarryOver(c: Config, out: map<string, Option<ModelLimit>>)
    requires Rekeyed(out, c.allowances)
    ensures GoodTargets(c.(allowances := out), out.Keys) <==> GoodTargets(c, NormalKeys(c.allowances))
  {
    assert out.Keys == NormalKeys(c.allowances);
    var c' := c.(allowances := out);
    assert forall step :: GoodStep(c', out.Keys, step) <==> GoodStep(c, out.Keys, step);
  }

  // ---------- What an accepted configuration guarantees ----------

  // Settings that the rest of the system takes for granted.
  lemma {:induction false} LoadedSettings(c: Config)
    requires Loadable(c)
    ensures 10 <= c.safetyMarginPercent <= 90 && c.pollInterval >= 15_000_000_000 && 0 < c.pollTimeout <= c.pollInterval
    ensures 0 <= c.ReservePercent() <= 90 && c.Replicas() >= 1 && c.RequestTokens() > 0
    ensures c.projectIDs != [] && c.regions != [] && c.models != []
    ensures c.criticalReservePercent.None? ==> c.ReservePercent() == 30
    ensures c.dataplaneReplicas.None? ==> c.Replicas() == 1
    ensures c.defaultRequestTokens == 0 ==> c.RequestTokens() == 1000
  {
    hide Rekeyed, GoodAllowances, GoodTargets;
    var raw :| Good(raw) && LoadedAs(raw, c);
  }

  // What makes an allowance good, written out on its own spelling.
  lemma {:induction false} GoodAllowanceIff(c: Config, raw: string)
    requires raw in c.allowances
    ensures GoodAllowance(c, raw) <==>
      && (exists location, model | PairOf(Trim(raw), location, model) ::
            Mentioned(c.regions, location) && Mentioned(c.models, model))
      && c.allowances[raw].Some?
      && (var limit := c.allowances[raw].value;
          limit.maxRpm >= 0 && limit.maxTpm >= 0 && limit.maxRpm + limit.maxTpm > 0)
  {
    var key := Norm(raw);
    if IsPair(key) {
      PairSplits(Trim(raw));
      var i := IndexByte(key, '/');
      assert PairOf(Trim(raw), Trim(raw)[..i], Trim(raw)[i + 1..]);
    }
    forall location, model | PairOf(Trim(raw), location, model)
      ensures IsPair(key) && LocationOf(key) == Lower(location) && ModelOf(key) == Lower(model)
    {
      PairJoins(location, model);
    }
    hide Norm, IsPair, LocationOf, ModelOf, PairOf;
  }

  predicate PairOf(key: string, location: string, model: string) {
    key == location + "/" + model && location != "" && model != "" && '/' !in location && '/' !in model
  }

  lemma {:induction false} PairSplits(s: string)
    requires IsPair(Lower(s))
    ensures var i := IndexByte(Lower(s), '/'); PairOf(s, s[..i], s[i + 1..])
  {
    var i := IndexByte(Lower(s), '/');
    assert forall j | 0 <= j < |s| :: Lower(s)[j] == '/' <==> s[j] == '/';
    assert s == s[..i] + "/" + s[i + 1..];
    assert forall j | 0 <= j < i :: Lower(s)[j] == Lower(s)[..i][j];
    assert forall j | i < j < |s| :: Lower(s)[j] == Lower(s)[i + 1..][j - i - 1];
  }

  lemma {:induction false} PairJoins(location: string, model: string)
    requires location != "" && model != "" && '/' !in location && '/' !in model
    ensures var key := Lower(location + "/" + model);
      IsPair(key) && LocationOf(key) == Lower(location) && ModelOf(key) == Lower(model)
  {
    LowerChars(location);
    LowerChars(model);
    LowerConcat(location + "/", model);
    LowerConcat(location, "/");
    assert Lower("/") == ['/'];
    IndexOfFirst(Lower(location), '/', Lower(model));
    assert Lower(location + "/" + model) == Lower(location) + ['/'] + Lower(model);
    hide Lower;
  }

  // The name is in the list up to case and surrounding space.
  ghost predicate Mentioned(values: seq<string>, name: string) {
    exists v :: v in values && EqualFold(Trim(v), name)
  }

  lemma {:induction false} PairParts(a: string, b: string)
    requires IsPair(a + "/" + b)
    ensures '/' !in a && '/' !in b && a != "" && b != ""
  {
    var key := a + "/" + b;
    var i := IndexByte(key, '/');
    assert key[|a|] == '/';
    assert forall j | i < j < |key| :: key[j] == key[i + 1..][j - i - 1];
    assert a == key[..i] && b == key[i + 1..];
  }

  lemma {:induction false} NormOfKey(region: string, model: string)
    ensures Lower(Norm(region) + "/" + Norm(model)) == Norm(region) + "/" + Norm(model) == Key(Trim(region), Trim(model))
  {
    LowerChars(Trim(region));
    LowerChars(Trim(model));
    LowerConcat(Norm(region), "/" + Norm(model));
    LowerConcat("/", Norm(model));
    assert Lower("/") == "/";
    assert Norm(region) + "/" + Norm(model) == Norm(region) + ("/" + Norm(model));
  }

  // The target of a configured step has an allowance, under its own key.
  lemma {:induction false} StepHasAllowance(c: Config, name: string, step: CascadeStep)
    requires Loadable(c) && name in c.customPolicies && step in c.customPolicies[name]
    ensures var key := Key(Trim(step.targetRegion), Trim(step.targetModel));
      && key in c.allowances && c.allowances[key].Some? && Lower(key) == key && IsPair(key)
  {
    var raw :| Good(raw) && LoadedAs(raw, c);
    var key := Key(Trim(step.targetRegion), Trim(step.targetModel));
    NormOfKey(step.targetRegion, step.targetModel);
    assert GoodStep(raw, NormalKeys(raw.allowances), step);
    var k :| k in raw.allowances && Norm(k) == key;
    assert GoodAllowance(raw, k);
  }

  // Every step's target is listed, up to case and surrounding space.
  lemma {:induction false} AcceptedStepsListed(c: Config, name: string, step: CascadeStep)
    requires Loadable(c) && name in c.customPolicies && step in c.customPolicies[name]
    ensures Mentioned(c.regions, Trim(step.targetRegion)) && Mentioned(c.models, Trim(step.targetModel))
  {
    var raw :| Good(raw) && LoadedAs(raw, c);
    assert GoodStep(raw, NormalKeys(raw.allowances), step);
    hide Good, LoadedAs, NormalKeys;
  }

  // Every step of a cascade engine built from an accepted configuration is
  // known to a limiter built from it; its names are nonempty and contain no '/'.
  lemma {:induction false} AcceptedStepsKnown(c: Config, allowances: map<string, ModelLimit>, table: map<string, seq<CascadeStep>>, name: string, i: nat)
    requires Loadable(c) && Loaded(allowances, c) && Normalised(table, c.customPolicies)
    requires name in table && i < |table[name]|
    ensures Key(table[name][i].targetRegion, table[name][i].targetModel) in allowances
    ensures '/' !in table[name][i].targetRegion && '/' !in table[name][i].targetModel
    ensures table[name][i].targetRegion != "" && table[name][i].targetModel != ""
  {
    var configured :| configured in c.customPolicies && Lower(Trim(configured)) == name && table[name] == Trimmed(c.customPolicies[configured]);
    var step := c.customPolicies[configured][i];
    var (region, model) := (Trim(step.targetRegion), Trim(step.targetModel));
    StepHasAllowance(c, configured, step);
    PairParts(Lower(region), Lower(model));
    LowerChars(region);
    LowerChars(model);
  }

  // Two steps share a bucket only if they name the same target up to case.
  lemma {:induction false} AcceptedTargetsApart(c: Config, allowances: map<string, ModelLimit>, table: map<string, seq<CascadeStep>>, name: string, i: nat, other: string, j: nat)
    requires Loadable(c) && Loaded(allowances, c) && Normalised(table, c.customPolicies)
    requires name in table && i < |table[name]| && other in table && j < |table[other]|
    ensures
      var (a, b) := (table[name][i], table[other][j]);
      Key(a.targetRegion, a.targetModel) == Key(b.targetRegion, b.targetModel) <==>
        (EqualFold(a.targetRegion, b.targetRegion) && EqualFold(a.targetModel, b.targetModel))
  {
    AcceptedStepsKnown(c, allowances, table, name, i);
    AcceptedStepsKnown(c, allowances, table, other, j);
    hide *;
    var (a, b) := (table[name][i], table[other][j]);
    SameKeyIff(a.targetRegion, a.targetModel, b.targetRegion, b.targetModel);
  }
}
