// pkg/dataplane/evaluator.go: a request's headers turned into a decision and
// the header changes that carry it out. The cached snapshot and the clock
// readings are parameters.
module Evaluators {
  import opened Prelude
  import opened Text
  import opened Settings
  import opened Quotas
  import opened TokenBuckets
  import opened Limiters
  import opened Cascade
  import CR = CascadeRuns
  import opened Router
  import opened ConfigLoad

  const PRIORITY := "x-request-priority"
  const POLICY := "x-governor-policy"
  const PATH := ":path"
  const PROMPT_TOKENS := "x-prompt-tokens"
  const CONTENT_LENGTH := "content-length"
  const AUTHORITY := ":authority"

  const DECISION := "x-governor-decision"
  const REASON := "x-governor-reason"
  const TARGET_MODEL := "x-governor-target-model"
  const TARGET_REGION := "x-governor-target-region"
  const ORIGINAL_PATH := "x-governor-original-path"
  const RETRY_AFTER := "retry-after"

  const FORWARD := "forward"
  const REROUTE := "reroute"
  const SHED := "shed"
  const BYPASS := "bypass"

  const GOVERNOR_HEADERS: seq<string> := [DECISION, REASON, TARGET_MODEL, TARGET_REGION, ORIGINAL_PATH]

  const RETRY_AFTER_SECONDS := 5
  const BYTES_PER_TOKEN := 4
  const MAX_TOKEN_ESTIMATE := 10_000_000
  const MAX_INT64 := 0x7fff_ffff_ffff_ffff

  function Header(headers: map<string, string>, name: string): string {
    if name in headers then headers[name] else ""
  }

  // ---------- Token estimates ----------

  predicate AllDigits(s: string) {
    forall i | 0 <= i < |s| :: '0' <= s[i] <= '9'
  }

  function Decimal(s: string): nat
    requires AllDigits(s)
  {
    if s == "" then 0 else 10 * Decimal(s[..|s| - 1]) + (s[|s| - 1] as int - '0' as int)
  }

  // A positive 64-bit decimal number, or 0 for anything else.
  function Hint(header: string): (n: int)
    ensures 0 <= n <= MAX_INT64
  {
    var s := Trim(header);
    var digits := if s != "" && (s[0] == '+' || s[0] == '-') then s[1..] else s;
    if digits == "" || !AllDigits(digits) || s[0] == '-' || Decimal(digits) > MAX_INT64 then 0 else Decimal(digits)
  }

  // Two's-complement wrap of a sum of two 64-bit numbers.
  function Wrap64(n: int): int {
    if n > MAX_INT64 then n - 2 * (MAX_INT64 + 1) else n
  }

  function EstimateTokens(headers: map<string, string>, defaultTokens: int): int {
    var prompt := Hint(Header(headers, PROMPT_TOKENS));
    var n := Hint(Header(headers, CONTENT_LENGTH));
    var est := if n > 0 then Max(prompt, GoDiv(Wrap64(n + BYTES_PER_TOKEN - 1), BYTES_PER_TOKEN)) else prompt;
    Min(if est == 0 then defaultTokens else est, MAX_TOKEN_ESTIMATE)
  }

  // A client cannot understate a large body: the estimate covers the stated
  // body length, up to the cap. The code keeps this promise exactly when the
  // rounding up does not leave the 64-bit range, or the other hint (without
  // one, the default) reaches the cap by itself.
  lemma {:induction false} BodyNotUnderstatedIff(headers: map<string, string>, defaultTokens: int)
    requires Hint(Header(headers, CONTENT_LENGTH)) > 0
    ensures
      var n, prompt := Hint(Header(headers, CONTENT_LENGTH)), Hint(Header(headers, PROMPT_TOKENS));
      BYTES_PER_TOKEN * EstimateTokens(headers, defaultTokens) >= Min(n, BYTES_PER_TOKEN * MAX_TOKEN_ESTIMATE) <==>
        (n <= MAX_INT64 - (BYTES_PER_TOKEN - 1)
         || (if prompt > 0 then prompt else defaultTokens) >= MAX_TOKEN_ESTIMATE)
  {
    hide Hint, Header;
  }

  function FormatInt(n: nat): (s: string)
    ensures s != "" && AllDigits(s)
  {
    var digit := [('0' as int + n % 10) as char];
    if n < 10 then digit else FormatInt(n / 10) + digit
  }

  lemma {:induction false} DecimalOfFormat(n: nat)
    ensures Decimal(FormatInt(n)) == n
  {
    var s := FormatInt(n);
    if n >= 10 {
      DecimalOfFormat(n / 10);
      assert s[..|s| - 1] == FormatInt(n / 10);
    }
  }

  lemma {:induction false} HintOfFormat(n: nat)
    requires 0 < n <= MAX_INT64
    ensures Hint(FormatInt(n)) == n
  {
    var s := FormatInt(n);
    DecimalOfFormat(n);
    assert '0' <= s[0] <= '9' && '0' <= s[|s| - 1] <= '9';
    assert Trim(s) == s;
  }

  lemma {:induction false} DecimalNotation()
    ensures Decimal("10") == 10 && FormatInt(5) == "5"
  {
    assert "10"[..1] == "1" && "1"[..0] == "" && "10"[1] == '0';
    assert Decimal("1") == 1;
  }

  // A hint is a positive number that fits 64 bits, written in digits with
  // perhaps a plus sign in front and space around it. Nothing else is one.
  lemma {:induction false} HintIff(header: string, n: int)
    requires n > 0
    ensures Hint(header) == n <==> n <= MAX_INT64 && exists digits | digits != "" && AllDigits(digits) && Decimal(digits) == n ::
      Trim(header) == digits || Trim(header) == "+" + digits
  {
    var s := Trim(header);
    if Hint(header) == n {
      var digits := if s[0] == '+' then s[1..] else s;
      assert s[0] == '+' ==> s == "+" + digits;
    }
    forall digits | digits != "" && AllDigits(digits) && Decimal(digits) == n <= MAX_INT64 && (s == digits || s == "+" + digits)
      ensures Hint(header) == n
    {
      assert '0' <= digits[0] <= '9';
      assert s == "+" + digits ==> s[1..] == digits;
    }
    hide Decimal, Trim;
  }

  // A body length for which it fails: the largest 64-bit number counts as no
  // hint at all.
  lemma {:induction false} BodyUnderstated(defaultTokens: int)
    requires 0 <= defaultTokens < MAX_TOKEN_ESTIMATE
    ensures EstimateTokens(map[CONTENT_LENGTH := FormatInt(MAX_INT64)], defaultTokens) == defaultTokens
  {
    HintOfFormat(MAX_INT64);
    assert Hint("") == 0;
    assert |PROMPT_TOKENS| == 15 && |CONTENT_LENGTH| == 14;
  }

  // ---------- The decision as header changes ----------

  function Underscored(s: string): string {
    seq(|s|, i requires 0 <= i < |s| => if s[i] == '-' then '_' else s[i])
  }

  function ParsePriority(v: string): Priority {
    var name := Underscored(Lower(Trim(v)));
    if name == "critical" then Critical
    else if name == "best_effort" || name == "besteffort" then BestEffort
    else if name == "custom" then Custom
    else Unspecified
  }

  lemma {:induction false} UnderscoredIs(s: string, name: string)
    requires '_' !in name && '-' !in name
    ensures Underscored(s) == name <==> s == name
  {
    if Underscored(s) == name {
      forall i | 0 <= i < |s| ensures s[i] == name[i] {
        assert Underscored(s)[i] == name[i] && name[i] in name;
      }
    }
  }

  // The names a priority header can give, up to case and surrounding space.
  lemma {:induction false} PriorityNames(v: string)
    ensures
      var (p, name) := (ParsePriority(v), Trim(v));
      && (p == Critical <==> EqualFold(name, "critical"))
      && (p == Custom <==> EqualFold(name, "custom"))
      && (p == BestEffort <==> EqualFold(name, "best_effort") || EqualFold(name, "best-effort") || EqualFold(name, "besteffort"))
  {
    var low := Lower(Trim(v));
    UnderscoredIs(low, "critical");
    UnderscoredIs(low, "custom");
    UnderscoredIs(low, "besteffort");
    BestEffortSpellings(low);
    LowerNames();
    assert |"critical"| == 8 && |"custom"| == 6 && |"besteffort"| == 10 && |"best_effort"| == 11;
    hide Underscored, Lower, Trim;
  }

  lemma {:induction false} LowerNames()
    ensures Lower("critical") == "critical" && Lower("custom") == "custom" && Lower("besteffort") == "besteffort"
    ensures Lower("best_effort") == "best_effort" && Lower("best-effort") == "best-effort"
  {
  }

  lemma {:induction false} BestEffortSpellings(s: string)
    ensures Underscored(s) == "best_effort" <==> s == "best_effort" || s == "best-effort"
  {
    if Underscored(s) == "best_effort" {
      assert |s| == 11;
      forall i | 0 <= i < 11 ensures s[i] == "best_effort"[i] || (i == 4 && s[i] == '-') {
        assert Underscored(s)[i] == "best_effort"[i];
      }
      assert s[4] == '_' ==> s == "best_effort";
      assert s[4] == '-' ==> s == "best-effort";
    }
  }

  datatype HeaderValue = Literal(text: string) | Why(reason: Reason) | NotVertex(error: ParseError)

  datatype Result = Result(
    decision: string, shed: bool, retryAfterSeconds: int,
    setHeaders: map<string, HeaderValue>, removeHeaders: seq<string>, routeChanged: bool)

  function RequestFor(info: RouteInfo, headers: map<string, string>, defaultTokens: int): Request {
    Request(info.projectID, info.region, info.model, ParsePriority(Header(headers, PRIORITY)), Header(headers, POLICY),
            EstimateTokens(headers, defaultTokens))
  }

  // The entries of list that are not dropped, in order.
  function Kept(list: seq<string>, drop: set<string>): (r: seq<string>)
    ensures |r| <= |list|
    ensures forall h :: h in r <==> h in list && h !in drop
  {
    if list == [] then []
    else
      var n := |list| - 1;
      assert list == list[..n] + [list[n]];
      Kept(list[..n], drop) + (if list[n] in drop then [] else [list[n]])
  }

  predicate Moves(d: Decision) {
    !d.drop && (d.replaceModel != "" || d.replaceRegion != "")
  }

  function Verdict(d: Decision): string {
    if d.drop then SHED else if Moves(d) then REROUTE else FORWARD
  }

  // The headers a decision sets, in the order in which they are set.
  function Redirected(before: map<string, HeaderValue>, info: RouteInfo, headers: map<string, string>, d: Decision): map<string, HeaderValue> {
    var host := MutateHost(Some(info), d.replaceRegion);
    var moved := before[PATH := Literal(MutatePath(Some(info), d.replaceModel, d.replaceRegion))];
    var sent := if host != "" && host != Header(headers, AUTHORITY) then moved[AUTHORITY := Literal(host)] else moved;
    sent[ORIGINAL_PATH := Literal(Header(headers, PATH))]
        [TARGET_MODEL := Literal(Or(d.replaceModel, info.model))]
        [TARGET_REGION := Literal(Or(d.replaceRegion, info.region))]
  }

  function HeadersFor(info: RouteInfo, headers: map<string, string>, d: Decision): map<string, HeaderValue> {
    var before := map[REASON := Why(d.reason)];
    var routed :=
      if d.drop then before[RETRY_AFTER := Literal(FormatInt(RETRY_AFTER_SECONDS))]
      else if Moves(d) then Redirected(before, info, headers, d)
      else before;
    routed[DECISION := Literal(Verdict(d))]
  }

  function Bypassed(e: ParseError): Result {
    var written := map[DECISION := Literal(BYPASS), REASON := NotVertex(e)];
    Result(BYPASS, false, 0, written, Kept(GOVERNOR_HEADERS, written.Keys), false)
  }

  function Answered(info: RouteInfo, headers: map<string, string>, d: Decision): Result {
    var written := HeadersFor(info, headers, d);
    Result(Verdict(d), d.drop, if d.drop then RETRY_AFTER_SECONDS else 0, written, Kept(GOVERNOR_HEADERS, written.Keys), Moves(d))
  }

  // The result of Evaluate and the limiter state after it.
  function Evaluated(rules: Rules, st: Local, snap: Option<Snapshot>, headers: map<string, string>, defaultTokens: int, clock: nat -> int): (Result, Local)
    requires WellFormed(st)
  {
    match Parsed(Header(headers, PATH), Header(headers, AUTHORITY))
    case Err(e) => (Bypassed(e), st)
    case Ok(info) =>
      var o := DecideOn(rules, st, snap, RequestFor(info, headers, defaultTokens), clock);
      (Answered(info, headers, o.decision), o.state)
  }

  // The inner loop of Without.
  method IsKept(v: string, drop: seq<string>) returns (keep: bool)
    ensures keep <==> v !in drop
  {
    keep := true;
    for j := 0 to |drop|
      invariant keep && v !in drop[..j]
    {
      if v == drop[j] {
        keep := false;
        break;
      }
    }
  }

  // Compacts the first n entries of list in place.
  method Without(list: array<string>, n: nat, drop: seq<string>) returns (m: nat)
    requires n <= list.Length
    modifies list
    ensures m <= n && list[..m] == Kept(old(list[..n]), set d | d in drop)
  {
    hide Kept;
    ghost var was, gone := list[..n], set d | d in drop;
    m := 0;
    NothingKept(gone);
    for i := 0 to n
      invariant m <= i
      invariant list[..m] == Kept(was[..i], gone)
      invariant forall j | i <= j < n :: list[j] == was[j]
    {
      var v := list[i];
      var keep := IsKept(v, drop);
      KeptStep(was, i, gone);
      if keep {
        list[m] := v;
        m := m + 1;
      }
    }
    assert was[..n] == was;
  }

  lemma {:induction false} NothingKept(drop: set<string>)
    ensures Kept([], drop) == []
  {
  }

  lemma {:induction false} KeptStep(list: seq<string>, i: nat, drop: set<string>)
    requires i < |list|
    ensures Kept(list[..i + 1], drop) == Kept(list[..i], drop) + (if list[i] in drop then [] else [list[i]])
  {
    assert list[..i + 1][..i] == list[..i];
  }

  lemma {:induction false} KeptTwice(list: seq<string>, a: set<string>, b: set<string>)
    ensures Kept(Kept(list, a), b) == Kept(list, a + b)
  {
    if list != [] {
      var n := |list| - 1;
      KeptTwice(list[..n], a, b);
      var front := Kept(list[..n], a);
      assert (front + [list[n]])[..|front|] == front;
      assert front + [] == front;
    }
  }

  class Evaluator {
    const engine: CascadeEngine
    var defaultTokens: int

    constructor (engine: CascadeEngine)
      ensures this.engine == engine && defaultTokens == 1000
    {
      this.engine := engine;
      this.defaultTokens := 1000;
    }

    method WithDefaultTokens(n: int)
      modifies this
      ensures defaultTokens == if n > 0 then n else old(defaultTokens)
    {
      if n > 0 {
        defaultTokens := n;
      }
    }

    // How the data plane sets an evaluator up.
    static method ForConfig(engine: CascadeEngine, cfg: Config) returns (e: Evaluator)
      ensures fresh(e) && e.engine == engine && e.defaultTokens == cfg.RequestTokens() > 0
    {
      e := new Evaluator(engine);
      e.WithDefaultTokens(cfg.RequestTokens());
    }

    // Drops every header that is set from the list of headers to remove. The
    // keys come in no particular order.
    method DropSet(list: array<string>, keys: set<string>) returns (n: nat)
      modifies list
      ensures n <= list.Length && list[..n] == Kept(old(list[..]), keys)
    {
      n := list.Length;
      var rest := keys;
      ghost var initial := list[..];
      KeptAll(initial);
      assert keys - rest == {} && list[..n] == initial;
      while rest != {}
        invariant rest <= keys && n <= list.Length
        invariant list[..n] == Kept(initial, keys - rest)
        decreases rest
      {
        var k :| k in rest;
        KeptTwice(initial, keys - rest, set d | d in [k]);
        assert keys - rest + (set d | d in [k]) == keys - (rest - {k});
        rest := rest - {k};
        n := Without(list, n, [k]);
      }
      assert keys - {} == keys;
    }

    // The result for a request that is not a model request.
    method Bypass(e: ParseError) returns (res: Result)
      ensures res == Bypassed(e)
    {
      hide Kept;
      var removeHeaders := new string[5](i requires 0 <= i < 5 => GOVERNOR_HEADERS[i]);
      assert removeHeaders[..] == GOVERNOR_HEADERS;
      var setHeaders: map<string, HeaderValue> := map[];
      setHeaders := setHeaders[DECISION := Literal(BYPASS)];
      setHeaders := setHeaders[REASON := NotVertex(e)];
      assert removeHeaders[..5] == GOVERNOR_HEADERS;
      var n := Without(removeHeaders, 5, [DECISION, REASON]);
      assert setHeaders == map[DECISION := Literal(BYPASS), REASON := NotVertex(e)];
      assert (set d | d in [DECISION, REASON]) == setHeaders.Keys;
      res := Result(BYPASS, false, 0, setHeaders, removeHeaders[..n], false);
    }

    // The result for a decision.
    method Respond(info: RouteInfo, headers: map<string, string>, d: Decision) returns (res: Result)
      ensures res == Answered(info, headers, d)
    {
      hide MutatePath, MutateHost, Kept, Header, FormatInt;
      var removeHeaders := new string[5](i requires 0 <= i < 5 => GOVERNOR_HEADERS[i]);
      assert removeHeaders[..] == GOVERNOR_HEADERS;
      var setHeaders: map<string, HeaderValue> := map[];
      setHeaders := setHeaders[REASON := Why(d.reason)];
      assert setHeaders == map[REASON := Why(d.reason)];
      var decision, retryAfter := FORWARD, 0;
      if d.drop {
        decision, retryAfter := SHED, RETRY_AFTER_SECONDS;
        setHeaders := setHeaders[RETRY_AFTER := Literal(FormatInt(retryAfter))];
      } else if d.replaceModel != "" || d.replaceRegion != "" {
        var newPath, newHost := MutatePath(Some(info), d.replaceModel, d.replaceRegion), MutateHost(Some(info), d.replaceRegion);
        decision := REROUTE;
        setHeaders := setHeaders[PATH := Literal(newPath)];
        if newHost != "" && newHost != Header(headers, AUTHORITY) {
          setHeaders := setHeaders[AUTHORITY := Literal(newHost)];
        }
        setHeaders := setHeaders[ORIGINAL_PATH := Literal(Header(headers, PATH))];
        setHeaders := setHeaders[TARGET_MODEL := Literal(Or(d.replaceModel, info.model))];
        setHeaders := setHeaders[TARGET_REGION := Literal(Or(d.replaceRegion, info.region))];
      }
      setHeaders := setHeaders[DECISION := Literal(decision)];
      var n := DropSet(removeHeaders, setHeaders.Keys);
      res := Result(decision, d.drop, retryAfter, setHeaders, removeHeaders[..n], Moves(d));
    }

    method Evaluate(snap: Option<Snapshot>, headers: map<string, string>, clock: nat -> int) returns (res: Result)
      requires engine.limiter.Valid()
      modifies engine.limiter.buckets.Values, engine.limiter.demand.Values
      ensures (res, engine.limiter.State())
           == Evaluated(engine.TheRules(), old(engine.limiter.State()), snap, headers, old(defaultTokens), clock)
    {
      hide Parsed, DecideOn, Answered, Bypassed, Header, RequestFor;
      var parsed := Parse(Header(headers, PATH), Header(headers, AUTHORITY));
      if parsed.Err? {
        res := Bypass(parsed.error);
        return;
      }
      var d := engine.Decide(snap, RequestFor(parsed.info, headers, defaultTokens), clock);
      res := Respond(parsed.info, headers, d);
    }
  }

  lemma {:induction false} KeptAll(list: seq<string>)
    ensures Kept(list, {}) == list
  {
    if list != [] {
      KeptAll(list[..|list| - 1]);
    }
  }

  // ---------- What the client's headers bring about ----------

  // A request that says "critical", in any case and with any space around it,
  // is neither shed nor rerouted, and its target is charged in full.
  lemma {:induction false} CriticalIsServed(rules: Rules, st: Local, snap: Option<Snapshot>, headers: map<string, string>, defaultTokens: int, clock: nat -> int)
    requires WellFormed(st)
    requires EqualFold(Trim(Header(headers, "x-request-priority")), "critical")
    ensures
      var (res, st') := Evaluated(rules, st, snap, headers, defaultTokens, clock);
      var parsed := Parsed(Header(headers, ":path"), Header(headers, ":authority"));
      && !res.shed && !res.routeChanged && res.decision == (if parsed.Ok? then "forward" else "bypass")
      && st'.buckets ==
           if parsed.Ok? && parsed.info.OrgKey() in st.buckets then
             var k := parsed.info.OrgKey();
             st.buckets[k := Apply(st.buckets[k], Event(clock(0), ForceAcquire(EstimateTokens(headers, defaultTokens)))).0]
           else st.buckets
  {
    hide Header, Parsed, EstimateTokens, ParsePriority, Kept, HeadersFor, DecideOn, Trim;
    PriorityNames(Header(headers, PRIORITY));
    var parsed := Parsed(Header(headers, PATH), Header(headers, AUTHORITY));
    if parsed.Ok? {
      CR.CriticalLedger(rules, st, snap, RequestFor(parsed.info, headers, defaultTokens), clock);
    }
    hide Apply, Key, Knows, EffectiveQuota, EqualFold;
  }

  // A request that says neither "critical" nor "custom", so "best_effort",
  // nothing, or a name nobody knows, is never rerouted. It is shed exactly when
  // it is a model request whose target is known and not available.
  lemma {:induction false} BestEffortIsShedIff(rules: Rules, st: Local, snap: Option<Snapshot>, headers: map<string, string>, defaultTokens: int, clock: nat -> int)
    requires WellFormed(st)
    requires var name := Trim(Header(headers, "x-request-priority"));
      !EqualFold(name, "critical") && !EqualFold(name, "custom")
    ensures
      var res := Evaluated(rules, st, snap, headers, defaultTokens, clock).0;
      var parsed := Parsed(Header(headers, ":path"), Header(headers, ":authority"));
      && !res.routeChanged
      && (res.shed <==>
            && parsed.Ok?
            && Knows(st, snap, parsed.info.projectID, parsed.info.region, parsed.info.model)
            && !CR.Available(rules, st, snap, parsed.info.projectID, parsed.info.region, parsed.info.model,
                             EstimateTokens(headers, defaultTokens), clock(0)))
      && res.decision == (if parsed.Err? then "bypass" else if res.shed then "shed" else "forward")
      && res.retryAfterSeconds == (if res.shed then 5 else 0)
  {
    hide Header, Parsed, EstimateTokens, ParsePriority, Kept, HeadersFor, Trim;
    PriorityNames(Header(headers, PRIORITY));
    hide Knows, SnapshotRoom, Key, Apply, EqualFold, CascadeOn, StepsFor, EffectiveQuota;
  }

  lemma {:induction false} CustomDecision(rules: Rules, st: Local, snap: Option<Snapshot>, r: Request, clock: nat -> int)
    requires WellFormed(st) && CR.Nondecreasing(clock) && r.priority.Custom?
    requires forall s | s in StepsFor(rules, r.policy) :: s.targetModel != ""
    ensures
      var d := DecideOn(rules, st, snap, r, clock).decision;
      var steps := StepsFor(rules, r.policy);
      if !Knows(st, snap, r.project, r.region, r.model)
         || CR.Available(rules, st, snap, r.project, r.region, r.model, r.tokens, clock(0)) then
        !d.drop && !Moves(d)
      else
        && (Moves(d) <==> exists i | 0 <= i < |steps| :: CR.StepAvailable(rules, st, snap, r, steps[i], clock(i + 1)))
        && (d.drop <==> !Moves(d))
  {
    hide Knows, CR.Available, CR.StepAvailable, CR.FirstAvailable, CR.ChargedOnly, CR.OthersUncharged, Key, StepsFor, CascadeOn, TryOn;
    if Knows(st, snap, r.project, r.region, r.model) {
      CR.DecideLedger(rules, st, snap, r, clock);
      var c := CR.FirstAvailable(rules, st, snap, r, StepsFor(rules, r.policy), 0, clock);
      hide DecideOn;
    }
  }

  // A request that says "custom" stays where it is if its target is unknown or
  // available. Otherwise it moves exactly when some step of the policy it names
  // is available, and is shed if none is.
  lemma {:induction false} CustomMovesIff(rules: Rules, st: Local, snap: Option<Snapshot>, headers: map<string, string>, defaultTokens: int, clock: nat -> int)
    requires WellFormed(st) && CR.Nondecreasing(clock)
    requires EqualFold(Trim(Header(headers, "x-request-priority")), "custom")
    requires Parsed(Header(headers, ":path"), Header(headers, ":authority")).Ok?
    requires forall s | s in StepsFor(rules, Header(headers, "x-governor-policy")) :: s.targetModel != ""
    ensures
      var res := Evaluated(rules, st, snap, headers, defaultTokens, clock).0;
      var info := Parsed(Header(headers, ":path"), Header(headers, ":authority")).info;
      var (project, tokens) := (info.projectID, EstimateTokens(headers, defaultTokens));
      var steps := StepsFor(rules, Header(headers, "x-governor-policy"));
      if !Knows(st, snap, project, info.region, info.model)
         || CR.Available(rules, st, snap, project, info.region, info.model, tokens, clock(0)) then
        !res.shed && !res.routeChanged
      else
        && (res.routeChanged <==> exists i | 0 <= i < |steps| ::
              && Knows(st, snap, project, steps[i].targetRegion, steps[i].targetModel)
              && CR.Available(rules, st, snap, project, steps[i].targetRegion, steps[i].targetModel, tokens, clock(i + 1)))
        && (res.shed <==> !res.routeChanged)
  {
    hide Header, Parsed, EstimateTokens, ParsePriority, Kept, HeadersFor, Trim;
    PriorityNames(Header(headers, PRIORITY));
    var info := Parsed(Header(headers, PATH), Header(headers, AUTHORITY)).info;
    CustomDecision(rules, st, snap, RequestFor(info, headers, defaultTokens), clock);
    hide Knows, CR.Available, Key, EqualFold, StepsFor, DecideOn;
  }

  // A policy is found under its name up to case and surrounding space.
  lemma {:induction false} PolicyByName(rules: Rules, configured: map<string, seq<CascadeStep>>, name: string, policy: string)
    requires Normalised(rules.policies, configured)
    requires forall n | n in configured :: Lower(Trim(n)) in rules.policies
    requires forall n, n' | n in configured && n' in configured && EqualFold(Trim(n), Trim(n')) :: n == n'
    requires name in configured
    ensures EqualFold(Trim(policy), Trim(name)) ==> StepsFor(rules, policy) == Trimmed(configured[name])
    ensures (forall n | n in configured :: !EqualFold(Trim(policy), Trim(n))) ==> StepsFor(rules, policy) == []
  {
    hide Lower, Trim, Trimmed;
    var k := Lower(Trim(policy));
    if k in rules.policies {
      var n :| n in configured && Lower(Trim(n)) == k && rules.policies[k] == Trimmed(configured[n]);
      assert EqualFold(Trim(policy), Trim(n));
    }
  }

  // The estimate, in numbers: four bytes to a token, rounded up; the larger of
  // the two hints; the default without any; at most ten million.
  lemma {:induction false} EstimateInNumbers(headers: map<string, string>, defaultTokens: int) returns (fromBody: nat)
    requires Hint(Header(headers, "content-length")) <= MAX_INT64 - 3
    ensures
      var (prompt, length) := (Hint(Header(headers, "x-prompt-tokens")), Hint(Header(headers, "content-length")));
      && 4 * fromBody - 4 < length <= 4 * fromBody
      && EstimateTokens(headers, defaultTokens)
           == Min(if prompt == 0 && length == 0 then defaultTokens else Max(prompt, fromBody), 10_000_000)
  {
    fromBody := (Hint(Header(headers, CONTENT_LENGTH)) + 3) / 4;
    hide Hint, Header;
  }

  // What a reroute writes: the path of the new target, where the request came
  // from, and the host exactly when a public endpoint has to change.
  lemma {:induction false} RerouteHeaders(info: RouteInfo, headers: map<string, string>, model: string, region: string)
    requires model != "" && region != "" && info.host == Header(headers, ":authority")
    ensures
      var written := Answered(info, headers, Decision(false, model, region, Rerouted)).setHeaders;
      && written.Keys == {":path", "x-governor-original-path", "x-governor-target-model", "x-governor-target-region",
                          "x-governor-decision", "x-governor-reason"}
                         + (if IsVertexHost(info.host) && !EqualFold(region, info.region) && HostFor(region) != info.host
                            then {":authority"} else {})
      && written[":path"] == Literal(Render(info.(model := model, region := region)))
      && written["x-governor-original-path"] == Literal(Header(headers, ":path"))
      && written["x-governor-target-model"] == Literal(model) && written["x-governor-target-region"] == Literal(region)
      && written["x-governor-decision"] == Literal("reroute") && written["x-governor-reason"] == Why(Rerouted)
      && (":authority" in written ==> written[":authority"] == Literal(HostFor(region)))
  {
    hide Render, IsVertexHost, Header, FormatInt, Kept, EqualFold, HostFor;
    HostForIs(region);
    assert |PATH| == 5 && |AUTHORITY| == 10 && |DECISION| == 19 && |REASON| == 17;
    assert |TARGET_MODEL| == 23 && |TARGET_REGION| == |ORIGINAL_PATH| == 24;
    assert TARGET_REGION[11] != ORIGINAL_PATH[11];
  }

  // ---------- What upstreams and accounting may rely on ----------

  // Every governor header is either set or removed, and the path is touched
  // exactly when the route changes.
  ghost predicate Owned(res: Result) {
    && (forall h | h in GOVERNOR_HEADERS :: h in res.setHeaders <==> h !in res.removeHeaders)
    && (forall h | h in res.removeHeaders :: h in GOVERNOR_HEADERS)
    && res.setHeaders.Keys <= (set h | h in GOVERNOR_HEADERS) + {PATH, AUTHORITY, RETRY_AFTER}
    && (PATH in res.setHeaders <==> res.routeChanged)
    && (RETRY_AFTER in res.setHeaders <==> res.shed)
  }

  lemma {:induction false} BypassOwned(e: ParseError)
    ensures Owned(Bypassed(e))
  {
    hide Kept;
    assert |PATH| == 5 && |RETRY_AFTER| == 11 && |DECISION| == 19 && |REASON| == 17;
  }

  lemma {:induction false} HeaderKeys(info: RouteInfo, headers: map<string, string>, d: Decision)
    ensures
      var keys := HeadersFor(info, headers, d).Keys;
      && keys <= {REASON, DECISION, PATH, AUTHORITY, RETRY_AFTER, ORIGINAL_PATH, TARGET_MODEL, TARGET_REGION}
      && (PATH in keys <==> Moves(d)) && (RETRY_AFTER in keys <==> d.drop)
  {
    hide MutatePath, MutateHost, Header, FormatInt, Or;
    assert |PATH| == 5 && |RETRY_AFTER| == 11 && |AUTHORITY| == 10 && |DECISION| == 19 && |REASON| == 17;
    assert |TARGET_MODEL| == 23 && |TARGET_REGION| == |ORIGINAL_PATH| == 24;
  }

  lemma {:induction false} AnswerOwned(info: RouteInfo, headers: map<string, string>, d: Decision)
    ensures Owned(Answered(info, headers, d))
  {
    hide Kept, HeadersFor;
    HeaderKeys(info, headers, d);
  }

  // Upstreams can trust the governor's headers: whatever the client sent, each
  // one is either overwritten or removed, never both and never left alone.
  lemma {:induction false} GovernorHeadersAreOwned(rules: Rules, st: Local, snap: Option<Snapshot>, headers: map<string, string>, defaultTokens: int, clock: nat -> int)
    requires WellFormed(st)
    ensures Owned(Evaluated(rules, st, snap, headers, defaultTokens, clock).0)
  {
    var parsed := Parsed(Header(headers, PATH), Header(headers, AUTHORITY));
    if parsed.Err? {
      BypassOwned(parsed.error);
    } else {
      AnswerOwned(parsed.info, headers, DecideOn(rules, st, snap, RequestFor(parsed.info, headers, defaultTokens), clock).decision);
    }
    hide *;
  }

  // Moving a route to a target and parsing the new path gives back the key of
  // that target exactly when the names contain no '?'.
  lemma {:induction false} ReparsedKey(info: RouteInfo, model: string, region: string, host: string)
    requires Clean(info) && model != "" && region != "" && '/' !in model && '/' !in region
    ensures
      var again := Parsed(MutatePath(Some(info), model, region), host);
      (again.Ok? && again.info.OrgKey() == Key(region, model)) <==> ('?' !in model && '?' !in region)
  {
    var moved := Overridden(info, model, region);
    var path := MutatePath(Some(info), model, region);
    if '?' !in model && '?' !in region {
      ParseRendered(moved, host);
    } else if Parsed(path, host).Ok? {
      ParsedIsClean(path, host);
      KeyQueryFree(Parsed(path, host).info.region, Parsed(path, host).info.model);
      KeyQueryFree(region, model);
    }
  }

  lemma {:induction false} KeyQueryFree(region: string, model: string)
    ensures '?' in Key(region, model) <==> '?' in region || '?' in model
  {
    LowerChars(region);
    LowerChars(model);
  }

  // A reroute goes to a step of the named policy.
  lemma {:induction false} MovesToStep(rules: Rules, st: Local, snap: Option<Snapshot>, r: Request, clock: nat -> int)
    returns (c: nat)
    requires WellFormed(st) && CR.Nondecreasing(clock)
    requires Moves(DecideOn(rules, st, snap, r, clock).decision)
    ensures
      var o := DecideOn(rules, st, snap, r, clock);
      var steps := StepsFor(rules, r.policy);
      && c < |steps| && o.decision == Decision(false, steps[c].targetModel, steps[c].targetRegion, Rerouted)
      && CR.ChargedOnly(rules, st, o.state, steps[c].targetRegion, steps[c].targetModel, r.tokens, clock(c + 1))
  {
    if r.priority.Critical? {
      CR.CriticalLedger(rules, st, snap, r, clock);
    }
    CR.DecideLedger(rules, st, snap, r, clock);
    c := CR.FirstAvailable(rules, st, snap, r, StepsFor(rules, r.policy), 0, clock);
    hide CR.ChargedOnly, CR.OthersUncharged;
  }

  // Rerouting agrees with accounting. With an engine and a limiter built from
  // an accepted configuration, a reroute charges a bucket that the limiter
  // has, and parsing the rewritten path gives that bucket's key, so upstream
  // traffic and the ledger name the same target. The one exception, which the
  // configuration check does not exclude, is a target name with a '?'.
  lemma {:induction false} RerouteAgrees(c: Config, allowances: map<string, ModelLimit>, rules: Rules, st: Local, snap: Option<Snapshot>, headers: map<string, string>, defaultTokens: int, clock: nat -> int, host: string)
    returns (step: CascadeStep, now: int)
    requires Loadable(c) && Loaded(allowances, c) && Normalised(rules.policies, c.customPolicies)
    requires WellFormed(st) && st.buckets.Keys == allowances.Keys && CR.Nondecreasing(clock)
    requires Evaluated(rules, st, snap, headers, defaultTokens, clock).0.routeChanged
    ensures
      var (res, st') := Evaluated(rules, st, snap, headers, defaultTokens, clock);
      var key := Key(step.targetRegion, step.targetModel);
      && key in st.buckets
      && CR.ChargedOnly(rules, st, st', step.targetRegion, step.targetModel, EstimateTokens(headers, defaultTokens), now)
      && PATH in res.setHeaders && res.setHeaders[PATH].Literal?
      && (var again := Parsed(res.setHeaders[PATH].text, host);
          (again.Ok? && again.info.OrgKey() == key) <==> ('?' !in step.targetModel && '?' !in step.targetRegion))
  {
    var info := Parsed(Header(headers, PATH), Header(headers, AUTHORITY)).info;
    ParsedIsClean(Header(headers, PATH), Header(headers, AUTHORITY));
    var r := RequestFor(info, headers, defaultTokens);
    var i := MovesToStep(rules, st, snap, r, clock);
    step, now := StepsFor(rules, r.policy)[i], clock(i + 1);
    AcceptedStepsKnown(c, allowances, rules.policies, Lower(Trim(r.policy)), i);
    ReparsedKey(info, step.targetModel, step.targetRegion, host);
    PathHeader(info, headers, DecideOn(rules, st, snap, r, clock).decision);
    hide CR.ChargedOnly, CR.OthersUncharged, MutatePath, Key, DecideOn, Parsed, Clean, EstimateTokens, HeadersFor;
  }

  lemma {:induction false} PathHeader(info: RouteInfo, headers: map<string, string>, d: Decision)
    requires Moves(d)
    ensures
      var written := HeadersFor(info, headers, d);
      PATH in written && written[PATH] == Literal(MutatePath(Some(info), d.replaceModel, d.replaceRegion))
  {
    hide MutatePath, MutateHost, Header, FormatInt, Or;
    assert |PATH| == 5 && |AUTHORITY| == 10 && |DECISION| == 19;
    assert |TARGET_MODEL| == 23 && |TARGET_REGION| == |ORIGINAL_PATH| == 24;
  }
}
