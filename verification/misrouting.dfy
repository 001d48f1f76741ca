// The exception to RerouteAgrees is real: an accepted configuration, a state
// its limiter reaches, and a request whose reroute charges one target and is
// proxied to another.
module Misrouting {
  import opened Prelude
  import opened Text
  import opened Settings
  import opened Quotas
  import opened TokenBuckets
  import opened Limiters
  import opened Cascade
  import CR = CascadeRuns
  import opened Router
  import opened ConfigLoad
  import opened Evaluators

  // A target name of the form model:verb?rest is rendered as a request for the
  // model itself, whose query has swallowed the rest of the name.
  lemma {:induction false} NameBecomesQuery(info: RouteInfo, rest: string)
    requires Clean(info) && info.rawQuery == ""
    ensures
      MutatePath(Some(info), info.model + ":" + info.verb + "?" + rest, info.region)
        == Render(info.(rawQuery := rest + ":" + info.verb))
  {
    var front := info.apiVersion + Pair("projects", info.projectID) + Pair("locations", info.region) + Pair("publishers", info.publisher);
    var name := info.model + ":" + info.verb;
    var query := rest + ":" + info.verb;
    hide Clean;
    assert (name + "?" + rest) + ":" + info.verb == name + "?" + query;
    assert Pair("models", name + "?" + query) == Pair("models", name) + "?" + query;
    assert "/" + (front + (Pair("models", name) + "?" + query)) == "/" + (front + Pair("models", name)) + "?" + query;
  }

  const QUERY_STEP := CascadeStep("m:g?x", "us")
  const QUERY_POLICIES: map<string, seq<CascadeStep>> := map["q" := [QUERY_STEP]]
  const QUERY_LIMIT := ModelLimit(1, 0)

  const QUERY_CONFIG := Config(
    ["p"], ["us"], ["m", "m:g?x"], map["us/m" := Some(QUERY_LIMIT), "us/m:g?x" := Some(QUERY_LIMIT)],
    None, None, QUERY_POLICIES, MIN_POLL_INTERVAL, DEFAULT_POLL_TIMEOUT, MIN_SAFETY_MARGIN_PERCENT, 0)

  const QUERY_ALLOWANCES: map<string, ModelLimit> := map["us/m" := QUERY_LIMIT, "us/m:g?x" := QUERY_LIMIT]

  lemma {:induction false} PairName(location: string, model: string)
    requires '/' !in location && '/' !in model && location != "" && model != ""
    ensures var key := location + "/" + model; IsPair(key) && LocationOf(key) == location && ModelOf(key) == model
  {
    var key := location + ['/'] + model;
    IndexOfFirst(location, '/', model);
    assert key == location + "/" + model;
    assert key[|location| + 1..] == model;
  }

  lemma {:induction false} QueryNames()
    ensures Norm("us") == "us" && Norm("m") == "m" && Norm("m:g?x") == "m:g?x" && Norm("q") == "q"
    ensures Trim("us") == "us" && Trim("m:g?x") == "m:g?x"
    ensures "us" + "/" + "m" == "us/m" && "us" + "/" + "m:g?x" == "us/m:g?x"
  {
  }

  lemma {:induction false} QueryKeys()
    ensures Norm("us/m") == "us/m" && Norm("us/m:g?x") == "us/m:g?x"
    ensures Key("us", "m") == "us/m" && Key("us", "m:g?x") == "us/m:g?x"
  {
    QueryNames();
  }

  lemma {:induction false} QueryPairs()
    ensures IsPair("us/m") && LocationOf("us/m") == "us" && ModelOf("us/m") == "m"
    ensures IsPair("us/m:g?x") && LocationOf("us/m:g?x") == "us" && ModelOf("us/m:g?x") == "m:g?x"
  {
    QueryNames();
    PairName("us", "m");
    PairName("us", "m:g?x");
  }

  // This configuration is accepted as it stands, although a step's model name
  // has a '?'.
  lemma {:induction false} QueryInNameIsAccepted()
    ensures Good(QUERY_CONFIG) && LoadedAs(QUERY_CONFIG, QUERY_CONFIG) && Loadable(QUERY_CONFIG)
    ensures '?' in QUERY_STEP.targetModel
    ensures Loaded(QUERY_ALLOWANCES, QUERY_CONFIG) && Normalised(QUERY_POLICIES, QUERY_CONFIG.customPolicies)
  {
    hide Rekeyed, GoodAllowances, GoodTargets, Loaded, Normalised, NormalKeys;
    assert QUERY_STEP.targetModel[3] == '?';
    QueryAllowancesGood();
    QueryTargetsGood();
    QueryLimiterLoads();
    LoadedIsLoadable(QUERY_CONFIG, QUERY_CONFIG, QUERY_CONFIG);
  }

  lemma {:induction false} QueryAllowancesGood()
    ensures GoodAllowances(QUERY_CONFIG) && Rekeyed(QUERY_CONFIG.allowances, QUERY_CONFIG.allowances)
  {
    QueryKeys();
    QueryPairs();
    QueryNames();
    QueryListed();
    hide Norm, IsPair, LocationOf, ModelOf, Listed;
    assert "us/m" in QUERY_CONFIG.allowances;
  }

  lemma {:induction false} QueryListed()
    ensures Listed(QUERY_CONFIG.regions, "us") && Listed(QUERY_CONFIG.models, "m") && Listed(QUERY_CONFIG.models, "m:g?x")
  {
    QueryNames();
    hide Norm;
    assert "us" in QUERY_CONFIG.regions && "m" == QUERY_CONFIG.models[0] && "m:g?x" == QUERY_CONFIG.models[1];
  }

  lemma {:induction false} QueryTargetsGood()
    ensures GoodTargets(QUERY_CONFIG, NormalKeys(QUERY_CONFIG.allowances))
  {
    QueryKeys();
    QueryNames();
    hide Norm;
    assert "us/m:g?x" in QUERY_CONFIG.allowances;
    assert "us/m:g?x" in NormalKeys(QUERY_CONFIG.allowances);
    QueryListed();
    hide Listed;
  }

  lemma {:induction false} QueryLimiterLoads()
    ensures Loaded(QUERY_ALLOWANCES, QUERY_CONFIG) && Normalised(QUERY_POLICIES, QUERY_CONFIG.customPolicies)
  {
    assert Lower("us/m") == "us/m" && Lower("us/m:g?x") == "us/m:g?x";
    QueryNames();
    assert Trimmed([QUERY_STEP]) == [QUERY_STEP];
    hide Lower, Trim;
    assert "us/m" in QUERY_CONFIG.allowances && "us/m:g?x" in QUERY_CONFIG.allowances && "q" in QUERY_CONFIG.customPolicies;
  }

  // ---------- The request ----------

  // An engine and a limiter of this configuration, with one request admitted on
  // us/m, which is now down to its floor of no requests.
  const QUERY_RULES := Rules(QUERY_POLICIES, 0.7, 30)
  const QUERY_START := NewBucket(1, UNLIMITED_CAPACITY, 0)
  const QUERY_SPENT := Bucket(Dim(1, 0, 0), Dim(UNLIMITED_CAPACITY, UNLIMITED_CAPACITY - 1000, 0))
  const QUERY_STATE := Local(map["us/m" := QUERY_SPENT, "us/m:g?x" := QUERY_START],
                             map["us/m" := Demand(1, 1000), "us/m:g?x" := Demand(0, 0)])

  const QUERY_ROUTE := RouteInfo("v1", "p", "us", "google", "m", "g", "", "h", "")

  function QueryHeaders(): map<string, string> {
    map[][PATH := Render(QUERY_ROUTE)][AUTHORITY := "h"][PRIORITY := "custom"][POLICY := "q"]
  }

  const QUERY_REQUEST := Request("p", "us", "m", Custom, "q", 1000)

  function Midnight(i: nat): int {
    0
  }

  lemma {:induction false} QueryStateIsReached()
    ensures QUERY_START == FullShare(QUERY_LIMIT, 1, 0)
    ensures Apply(QUERY_START, Event(0, TryAcquireAbove(1000, 30))) == (QUERY_SPENT, true)
  {
  }

  lemma {:induction false} QueryHeader()
    ensures Header(QueryHeaders(), PATH) == Render(QUERY_ROUTE) && Header(QueryHeaders(), AUTHORITY) == "h"
    ensures Header(QueryHeaders(), PRIORITY) == "custom" && Header(QueryHeaders(), POLICY) == "q"
    ensures Header(QueryHeaders(), PROMPT_TOKENS) == "" && Header(QueryHeaders(), CONTENT_LENGTH) == ""
  {
    hide Render;
    assert |PATH| == 5 && |AUTHORITY| == 10 && |PRIORITY| == 18 && |POLICY| == 17 && |PROMPT_TOKENS| == 15 && |CONTENT_LENGTH| == 14;
  }

  lemma {:induction false} QueryPriority()
    ensures ParsePriority("custom") == Custom
  {
    assert Underscored(Lower(Trim("custom"))) == "custom";
  }

  lemma {:induction false} QueryParsed()
    ensures Parsed(Header(QueryHeaders(), PATH), "h") == Ok(QUERY_ROUTE.(originalPath := Render(QUERY_ROUTE)))
    ensures Clean(QUERY_ROUTE)
    ensures RequestFor(QUERY_ROUTE.(originalPath := Render(QUERY_ROUTE)), QueryHeaders(), 1000) == QUERY_REQUEST
  {
    QueryHeader();
    QueryPriority();
    assert Hint("") == 0;
    assert Clean(QUERY_ROUTE);
    ParseRendered(QUERY_ROUTE, "h");
    hide Render, Clean, ParsePriority, Hint, Header;
  }

  // The primary is full; the one step of the policy has room.
  lemma {:induction false} QueryDecision()
    ensures WellFormed(QUERY_STATE) && QUERY_STATE.buckets.Keys == QUERY_ALLOWANCES.Keys
    ensures
      var o := DecideOn(QUERY_RULES, QUERY_STATE, None, QUERY_REQUEST, Midnight);
      o.decision == Decision(false, "m:g?x", "us", Rerouted)
  {
    QueryKeys();
    QuerySteps();
    QueryPrimary();
    QueryStep(TryOn(QUERY_RULES, QUERY_STATE, None, "p", "us", "m", 1000, 0).1);
    hide TryOn, Key, StepsFor;
  }

  lemma {:induction false} QuerySteps()
    ensures StepsFor(QUERY_RULES, "q") == [QUERY_STEP]
  {
    QueryNames();
    hide Lower, Trim;
    assert "q" in QUERY_POLICIES;
  }

  lemma {:induction false} QueryPrimary()
    ensures
      var t := TryOn(QUERY_RULES, QUERY_STATE, None, "p", "us", "m", 1000, 0);
      !t.0 && t.1.buckets.Keys == QUERY_STATE.buckets.Keys && t.1.buckets["us/m:g?x"] == QUERY_START
  {
    QueryKeys();
    hide Key;
    assert !Apply(QUERY_SPENT, Above(QUERY_RULES, 1000, 0)).1;
    hide Apply;
    assert |"us/m"| == 4 && |"us/m:g?x"| == 8;
  }

  lemma {:induction false} QueryStep(st: Local)
    requires WellFormed(st) && "us/m:g?x" in st.buckets && st.buckets["us/m:g?x"] == QUERY_START
    ensures Knows(st, None, "p", "us", "m:g?x") && TryOn(QUERY_RULES, st, None, "p", "us", "m:g?x", 1000, 0).0
  {
    QueryKeys();
    hide Key;
    assert Apply(QUERY_START, Above(QUERY_RULES, 1000, 0)).1;
    hide Apply;
  }

  lemma {:induction false} QueryCharged()
    ensures
      var o := DecideOn(QUERY_RULES, QUERY_STATE, None, QUERY_REQUEST, Midnight);
      && WellFormed(QUERY_STATE) && o.decision == Decision(false, "m:g?x", "us", Rerouted)
      && CR.ChargedOnly(QUERY_RULES, QUERY_STATE, o.state, "us", "m:g?x", 1000, 0)
  {
    QueryDecision();
    var i := MovesToStep(QUERY_RULES, QUERY_STATE, None, QUERY_REQUEST, Midnight);
    hide DecideOn, CR.ChargedOnly, WellFormed;
  }

  // The new path asks for us/m again.
  lemma {:induction false} QueryReparsed(info: RouteInfo)
    requires info == QUERY_ROUTE.(originalPath := info.originalPath)
    ensures
      var again := Parsed(MutatePath(Some(info), "m:g?x", "us"), "h");
      again.Ok? && again.info.OrgKey() == "us/m"
  {
    assert Clean(info);
    QueryKeys();
    assert "m:g?x" == info.model + ":" + info.verb + "?" + "x";
    NameBecomesQuery(info, "x");
    ParseRendered(info.(rawQuery := "x" + ":" + info.verb), "h");
    hide Parsed, Render, MutatePath, Key, Clean;
  }

  // The reroute charges us/m:g?x, and the new path is a request for us/m, the
  // very target that had no room.
  lemma {:induction false} RerouteChargesAnotherTarget()
    ensures WellFormed(QUERY_STATE)
    ensures
      var (res, st') := Evaluated(QUERY_RULES, QUERY_STATE, None, QueryHeaders(), 1000, Midnight);
      && res.routeChanged
      && CR.ChargedOnly(QUERY_RULES, QUERY_STATE, st', "us", "m:g?x", 1000, 0)
      && PATH in res.setHeaders && res.setHeaders[PATH].Literal?
      && (var again := Parsed(res.setHeaders[PATH].text, "h");
          again.Ok? && again.info.OrgKey() == "us/m" != Key("us", "m:g?x"))
  {
    hide DecideOn, Parsed, Render, MutatePath, Header, HeadersFor, Clean, CR.ChargedOnly, RequestFor, Key, WellFormed;
    QueryParsed();
    QueryHeader();
    QueryCharged();
    var info := QUERY_ROUTE.(originalPath := Render(QUERY_ROUTE));
    PathHeader(info, QueryHeaders(), Decision(false, "m:g?x", "us", Rerouted));
    QueryReparsed(info);
    QueryKeys();
    assert |"us/m"| == 4 && |"us/m:g?x"| == 8;
  }
}
