// pkg/router: parsing request paths into a route and rendering a route, with
// overrides, back into a path and a host.
module Router {
  import opened Prelude
  import opened Text

  // verb is the RPC method after the last colon of the model segment.
  datatype RouteInfo = RouteInfo(
    apiVersion: string, projectID: string, region: string, publisher: string,
    model: string, verb: string, rawQuery: string, host: string, originalPath: string)
  {
    function OrgKey(): string {
      Key(region, model)
    }
  }

  datatype ParseError =
    | EmptyPath | NotAIPlatformPath | MissingModel | MissingMethod
    | MissingProject | MissingRegion | UnsupportedPublisher

  datatype ParseResult = Ok(info: RouteInfo) | Err(error: ParseError)

  // ---------- Library string functions ----------

  // Position of the first (or last) occurrence of c, or -1.
  function IndexByte(s: string, c: char): (i: int)
    ensures -1 <= i < |s|
    ensures i == -1 <==> c !in s
    ensures i >= 0 ==> s[i] == c && c !in s[..i]
  {
    if s == "" then -1
    else if s[0] == c then 0
    else
      var i := IndexByte(s[1..], c);
      assert s == [s[0]] + s[1..];
      assert i >= 0 ==> s[..i + 1] == [s[0]] + s[1..][..i];
      if i == -1 then -1 else i + 1
  }

  function LastIndexByte(s: string, c: char): (i: int)
    ensures -1 <= i < |s|
    ensures i == -1 <==> c !in s
    ensures i >= 0 ==> s[i] == c && c !in s[i + 1..]
  {
    if s == "" then -1
    else
      var n := |s| - 1;
      assert s == s[..n] + [s[n]];
      if s[n] == c then n
      else
        var i := LastIndexByte(s[..n], c);
        assert i >= 0 ==> s[i + 1..] == s[..n][i + 1..] + [s[n]];
        i
  }

  function Split(s: string): (r: seq<string>)
    ensures r != []
    decreases |s|
  {
    var i := IndexByte(s, '/');
    if i == -1 then [s] else [s[..i]] + Split(s[i + 1..])
  }

  predicate HasPrefix(s: string, prefix: string) {
    prefix <= s
  }

  predicate HasSuffix(s: string, suffix: string) {
    |suffix| <= |s| && s[|s| - |suffix|..] == suffix
  }

  function TrimSlash(s: string): string {
    if s != "" && s[0] == '/' then s[1..] else s
  }

  // ---------- Parse ----------

  // The value paired with key in segments 1, 3, 5, ... below i: the last one.
  function Field(segments: seq<string>, key: string, i: nat): string
    requires i % 2 == 1 && i <= |segments|
  {
    if i == 1 then ""
    else if segments[i - 2] == key then segments[i - 1]
    else Field(segments, key, i - 2)
  }

  // The end of the pairs that the segment loop visits.
  function PairsEnd(segments: seq<string>): (n: nat)
    requires segments != []
    ensures n % 2 == 1 && n <= |segments|
  {
    if |segments| % 2 == 1 then |segments| else |segments| - 1
  }

  function PathOf(rawPath: string): string {
    var q := IndexByte(rawPath, '?');
    if q == -1 then rawPath else rawPath[..q]
  }

  function QueryOf(rawPath: string): string {
    var q := IndexByte(rawPath, '?');
    if q == -1 then "" else rawPath[q + 1..]
  }

  function Segments(rawPath: string): (r: seq<string>)
    ensures r != []
  {
    Split(TrimSlash(PathOf(rawPath)))
  }

  function Assemble(version: string, project: string, region: string, publisher: string, modelWithMethod: string, rawPath: string, host: string): ParseResult {
    if project == "" then Err(MissingProject)
    else if region == "" then Err(MissingRegion)
    else if modelWithMethod == "" then Err(MissingModel)
    else
      var colon := LastIndexByte(modelWithMethod, ':');
      if colon == -1 then Err(MissingMethod)
      else if colon == 0 then Err(MissingModel)
      else if colon == |modelWithMethod| - 1 then Err(MissingMethod)
      else
        var pub := if publisher == "" then "google" else publisher;
        if !EqualFold(pub, "google") then Err(UnsupportedPublisher)
        else Ok(RouteInfo(version, project, region, pub, modelWithMethod[..colon], modelWithMethod[colon + 1..], QueryOf(rawPath), host, rawPath))
  }

  function Parsed(rawPath: string, host: string): ParseResult {
    var segments := Segments(rawPath);
    if rawPath == "" then Err(EmptyPath)
    else if |segments| < 5 then Err(NotAIPlatformPath)
    else if !HasPrefix(segments[0], "v1") then Err(NotAIPlatformPath)
    else
      var n := PairsEnd(segments);
      Assemble(segments[0], Field(segments, "projects", n), Field(segments, "locations", n),
               Field(segments, "publishers", n), Field(segments, "models", n), rawPath, host)
  }

  // The loop over the segment pairs.
  method Fields(segments: seq<string>) returns (projectID: string, region: string, publisher: string, modelWithMethod: string)
    requires segments != []
    ensures var n := PairsEnd(segments);
      && projectID == Field(segments, "projects", n) && region == Field(segments, "locations", n)
      && publisher == Field(segments, "publishers", n) && modelWithMethod == Field(segments, "models", n)
  {
    projectID, region, publisher, modelWithMethod := "", "", "", "";
    var i := 1;
    while i < |segments|
      invariant i % 2 == 1 && 1 <= i <= |segments|
      invariant projectID == Field(segments, "projects", i) && region == Field(segments, "locations", i)
      invariant publisher == Field(segments, "publishers", i) && modelWithMethod == Field(segments, "models", i)
    {
      if i + 1 >= |segments| {
        break;
      }
      var key, val := segments[i], segments[i + 1];
      if key == "projects" {
        projectID := val;
      } else if key == "locations" {
        region := val;
      } else if key == "publishers" {
        publisher := val;
      } else if key == "models" {
        modelWithMethod := val;
      }
      i := i + 2;
    }
  }

  // The checks on the extracted fields.
  method Check(version: string, projectID: string, region: string, pub: string, modelWithMethod: string, rawPath: string, host: string)
    returns (r: ParseResult)
    ensures r == Assemble(version, projectID, region, pub, modelWithMethod, rawPath, host)
  {
    var publisher := pub;
    if projectID == "" {
      return Err(MissingProject);
    }
    if region == "" {
      return Err(MissingRegion);
    }
    if modelWithMethod == "" {
      return Err(MissingModel);
    }
    var colonIdx := LastIndexByte(modelWithMethod, ':');
    if colonIdx == -1 {
      return Err(MissingMethod);
    }
    var model := modelWithMethod[..colonIdx];
    var verb := modelWithMethod[colonIdx + 1..];
    if model == "" {
      return Err(MissingModel);
    }
    if verb == "" {
      return Err(MissingMethod);
    }
    if publisher == "" {
      publisher := "google";
    }
    if !EqualFold(publisher, "google") {
      return Err(UnsupportedPublisher);
    }
    return Ok(RouteInfo(version, projectID, region, publisher, model, verb, QueryOf(rawPath), host, rawPath));
  }

  method Parse(rawPath: string, host: string) returns (r: ParseResult)
    ensures r == Parsed(rawPath, host)
  {
    if rawPath == "" {
      return Err(EmptyPath);
    }
    var segments := Split(TrimSlash(PathOf(rawPath)));
    if |segments| < 5 {
      return Err(NotAIPlatformPath);
    }
    var apiVersion := segments[0];
    if !HasPrefix(apiVersion, "v1") {
      return Err(NotAIPlatformPath);
    }
    var projectID, region, publisher, modelWithMethod := Fields(segments);
    r := Check(apiVersion, projectID, region, publisher, modelWithMethod, rawPath, host);
  }

  // ---------- Mutate ----------

  function Or(override: string, original: string): string {
    if override != "" then override else original
  }

  function Pair(key: string, value: string): string {
    "/" + key + "/" + value
  }

  function Render(info: RouteInfo): string {
    var path := "/" + (info.apiVersion + Pair("projects", info.projectID) + Pair("locations", info.region)
                       + Pair("publishers", info.publisher) + Pair("models", info.model + ":" + info.verb));
    if info.rawQuery != "" then path + "?" + info.rawQuery else path
  }

  function Overridden(info: RouteInfo, targetModel: string, targetRegion: string): RouteInfo {
    info.(model := Or(targetModel, info.model), region := Or(targetRegion, info.region))
  }

  function MutatePath(info: Option<RouteInfo>, targetModel: string, targetRegion: string): string {
    match info
    case None => ""
    case Some(i) => Render(Overridden(i, targetModel, targetRegion))
  }

  const GLOBAL_LOCATION := "global"
  const VERTEX_DOMAIN := "aiplatform.googleapis.com"

  function HostFor(location: string): string {
    if EqualFold(location, GLOBAL_LOCATION) then VERTEX_DOMAIN
    else Lower(location) + "-" + VERTEX_DOMAIN
  }

  // The lower-case host without a port.
  function HostName(host: string): string {
    var i := LastIndexByte(Lower(host), ':');
    if i != -1 then Lower(host)[..i] else Lower(host)
  }

  predicate IsVertexHost(host: string) {
    HostName(host) == VERTEX_DOMAIN || HasSuffix(HostName(host), "-" + VERTEX_DOMAIN)
  }

  function MutateHost(info: Option<RouteInfo>, targetRegion: string): string {
    match info
    case None => ""
    case Some(i) =>
      if targetRegion == "" || EqualFold(targetRegion, i.region) then i.host
      else if IsVertexHost(i.host) then HostFor(targetRegion)
      else i.host
  }

  // ---------- Splitting and joining ----------

  predicate NoSlash(s: string) {
    '/' !in s
  }

  // Free of the two characters that end a path segment.
  predicate Plain(s: string) {
    '/' !in s && '?' !in s
  }

  function Join(segments: seq<string>): string
    requires segments != []
  {
    var n := |segments| - 1;
    if n == 0 then segments[0] else Join(segments[..n]) + "/" + segments[n]
  }

  lemma {:induction false} IndexOfFirst(a: string, c: char, b: string)
    requires c !in a
    ensures IndexByte(a + [c] + b, c) == |a|
  {
    var s := a + [c] + b;
    var i := IndexByte(s, c);
    assert s[|a|] == c;
    assert forall k | 0 <= k < |a| :: s[k] != c;
    assert forall k | 0 <= k < i :: s[..i][k] == s[k];
  }

  lemma {:induction false} IndexOfLast(a: string, c: char, b: string)
    requires c !in b
    ensures LastIndexByte(a + [c] + b, c) == |a|
  {
    var s := a + [c] + b;
    var i := LastIndexByte(s, c);
    assert s[|a|] == c;
    assert forall k | |a| < k < |s| :: s[k] == b[k - |a| - 1];
    assert forall k | 0 <= i < k < |s| :: s[i + 1..][k - i - 1] == s[k];
  }

  lemma {:induction false} SplitAt(a: string, b: string)
    requires NoSlash(a)
    ensures Split(a + "/" + b) == [a] + Split(b)
  {
    var s := a + ['/'] + b;
    IndexOfFirst(a, '/', b);
    assert s[..|a|] == a && s[|a| + 1..] == b;
  }

  lemma {:induction false} SplitSnoc(a: string, b: string)
    requires NoSlash(b)
    ensures Split(a + "/" + b) == Split(a) + [b]
    decreases |a|
  {
    var i := IndexByte(a, '/');
    if i == -1 {
      SplitAt(a, b);
    } else {
      SplitSnocStep(a, a[..i], a[i + 1..], b);
    }
  }

  lemma {:induction false} SplitSnocStep(a: string, head: string, tail: string, b: string)
    requires NoSlash(b) && NoSlash(head) && a == head + "/" + tail
    ensures Split(a + "/" + b) == Split(a) + [b]
    decreases |a|, 0
  {
    hide Split, IndexByte;
    var whole, rest := a + "/" + b, tail + "/" + b;
    assert whole == head + "/" + rest;
    assert Split(whole) == [head] + Split(rest) by {
      SplitAt(head, rest);
    }
    assert Split(a) == [head] + Split(tail) by {
      SplitAt(head, tail);
    }
    assert Split(rest) == Split(tail) + [b] by {
      SplitSnoc(tail, b);
    }
  }

  lemma {:induction false} JoinPlain(segments: seq<string>)
    requires segments != [] && forall x | x in segments :: Plain(x)
    ensures '?' !in Join(segments)
    decreases |segments|
  {
    var n := |segments| - 1;
    assert Plain(segments[n]);
    if n > 0 {
      JoinPlain(segments[..n]);
    }
  }

  lemma {:induction false} SplitJoin(segments: seq<string>)
    requires segments != [] && forall x | x in segments :: Plain(x)
    ensures Split(Join(segments)) == segments
    decreases |segments|
  {
    var n := |segments| - 1;
    assert Plain(segments[n]);
    if n == 0 {
      assert IndexByte(segments[0], '/') == -1;
    } else {
      hide Split, IndexByte;
      var front := segments[..n];
      assert segments == front + [segments[n]];
      SplitJoin(front);
      SplitSnoc(Join(front), segments[n]);
    }
  }

  lemma {:induction false} SplitPieces(s: string)
    ensures forall x | x in Split(s) :: NoSlash(x) && forall c | c in x :: c in s
    decreases |s|
  {
    var i := IndexByte(s, '/');
    if i != -1 {
      SplitPieces(s[i + 1..]);
    }
  }

  // ---------- Round trips ----------

  // The routes that Parse produces, and that Render can write down faithfully.
  predicate Clean(info: RouteInfo) {
    && HasPrefix(info.apiVersion, "v1") && Plain(info.apiVersion)
    && info.projectID != "" && Plain(info.projectID)
    && info.region != "" && Plain(info.region)
    && EqualFold(info.publisher, "google") && Plain(info.publisher)
    && info.model != "" && Plain(info.model)
    && info.verb != "" && Plain(info.verb) && ':' !in info.verb
  }

  lemma {:induction false} FieldIsSegment(segments: seq<string>, key: string, i: nat)
    requires i % 2 == 1 && i <= |segments|
    ensures Field(segments, key, i) == "" || Field(segments, key, i) in segments
  {
    if i > 1 && segments[i - 2] != key {
      FieldIsSegment(segments, key, i - 2);
    }
  }

  lemma {:induction false} SegmentsPlain(rawPath: string)
    ensures forall x | x in Segments(rawPath) :: Plain(x)
  {
    var path := TrimSlash(PathOf(rawPath));
    SplitPieces(path);
    assert '?' !in PathOf(rawPath);
    assert '?' !in path;
  }

  lemma {:induction false} AssembledIsClean(version: string, project: string, region: string, publisher: string, modelWithMethod: string, rawPath: string, host: string)
    requires HasPrefix(version, "v1") && Plain(version) && Plain(project) && Plain(region) && Plain(publisher) && Plain(modelWithMethod)
    requires Assemble(version, project, region, publisher, modelWithMethod, rawPath, host).Ok?
    ensures Clean(Assemble(version, project, region, publisher, modelWithMethod, rawPath, host).info)
  {
    assert Plain("google");
  }

  lemma {:induction false} ParsedIsClean(rawPath: string, host: string)
    requires Parsed(rawPath, host).Ok?
    ensures Clean(Parsed(rawPath, host).info)
    ensures Parsed(rawPath, host).info.host == host
  {
    var segments := Segments(rawPath);
    var n := PairsEnd(segments);
    SegmentsPlain(rawPath);
    FieldIsSegment(segments, "projects", n);
    FieldIsSegment(segments, "locations", n);
    FieldIsSegment(segments, "publishers", n);
    FieldIsSegment(segments, "models", n);
    assert segments[0] in segments;
    AssembledIsClean(segments[0], Field(segments, "projects", n), Field(segments, "locations", n),
                     Field(segments, "publishers", n), Field(segments, "models", n), rawPath, host);
  }

  // A field is the last value that stands right after its key in one of the
  // segment pairs (1, 2), (3, 4), ...; "" if there is none.
  lemma {:induction false} FieldIsLast(segments: seq<string>, key: string, n: nat) returns (i: nat)
    requires n % 2 == 1 && n <= |segments|
    ensures
      || (Field(segments, key, n) == "" && forall j | 1 <= j < n - 1 && j % 2 == 1 :: segments[j] != key)
      || (&& i % 2 == 1 && 1 <= i < n - 1 && segments[i] == key && Field(segments, key, n) == segments[i + 1]
          && forall j | i < j < n - 1 && j % 2 == 1 :: segments[j] != key)
  {
    i := 0;
    if n > 1 {
      if segments[n - 2] == key {
        i := n - 2;
      } else {
        i := FieldIsLast(segments, key, n - 2);
      }
    }
  }

  // A model name and a verb with a colon between them, the last one.
  ghost predicate NameAndVerb(last: string) {
    exists model, verb | last == model + ":" + verb :: model != "" && verb != "" && ':' !in verb
  }

  // Exactly which paths are model requests, and what is read from them. The
  // model and the verb are split at the last colon; the publisher is Google,
  // by name or by default.
  lemma {:induction false} ParsedIff(rawPath: string, host: string)
    ensures
      var (segments, parsed) := (Segments(rawPath), Parsed(rawPath, host));
      var n := PairsEnd(segments);
      var (project, region) := (Field(segments, "projects", n), Field(segments, "locations", n));
      var (publisher, last) := (Field(segments, "publishers", n), Field(segments, "models", n));
      && (parsed.Ok? <==>
            && rawPath != "" && |segments| >= 5 && "v1" <= segments[0] && project != "" && region != ""
            && NameAndVerb(last)
            && (publisher == "" || EqualFold(publisher, "google")))
      && (parsed.Ok? ==>
            var info := parsed.info;
            && info.apiVersion == segments[0] && info.projectID == project && info.region == region
            && info.publisher == (if publisher == "" then "google" else publisher)
            && info.model + ":" + info.verb == last && ':' !in info.verb
            && info.rawQuery == QueryOf(rawPath) && info.host == host && info.originalPath == rawPath)
  {
    hide Segments, Field, PairsEnd, Lower, Assemble, NameAndVerb;
    var segments := Segments(rawPath);
    var n := PairsEnd(segments);
    AssembledIff(segments[0], Field(segments, "projects", n), Field(segments, "locations", n),
                 Field(segments, "publishers", n), Field(segments, "models", n), rawPath, host);
  }

  lemma {:induction false} AssembledIff(version: string, project: string, region: string, publisher: string, last: string, rawPath: string, host: string)
    ensures
      var r := Assemble(version, project, region, publisher, last, rawPath, host);
      && (r.Ok? <==>
            && project != "" && region != ""
            && NameAndVerb(last)
            && (publisher == "" || EqualFold(publisher, "google")))
      && (r.Ok? ==>
            && r.info.apiVersion == version && r.info.projectID == project && r.info.region == region
            && r.info.publisher == (if publisher == "" then "google" else publisher)
            && r.info.model + ":" + r.info.verb == last && ':' !in r.info.verb
            && r.info.rawQuery == QueryOf(rawPath) && r.info.host == host && r.info.originalPath == rawPath)
  {
    var colon := LastIndexByte(last, ':');
    if colon != -1 {
      assert last == last[..colon] + ":" + last[colon + 1..];
    }
    forall model, verb | last == model + ":" + verb && ':' !in verb ensures colon == |model| && verb == last[colon + 1..] {
      IndexOfLast(model, ':', verb);
      assert last == model + [':'] + verb;
    }
    hide Lower, QueryOf;
  }

  function Pieces(info: RouteInfo): seq<string> {
    [info.apiVersion] + ["projects", info.projectID] + ["locations", info.region]
    + ["publishers", info.publisher] + ["models", info.model + ":" + info.verb]
  }

  lemma {:induction false} JoinPair(segments: seq<string>, key: string, value: string)
    requires segments != []
    ensures Join(segments + [key, value]) == Join(segments) + Pair(key, value)
  {
    var all := segments + [key, value];
    assert all[..|all| - 1] == segments + [key];
    assert (segments + [key])[..|segments|] == segments;
  }

  lemma {:induction false} RenderIsJoin(info: RouteInfo)
    ensures Join(Pieces(info))
         == info.apiVersion + Pair("projects", info.projectID) + Pair("locations", info.region)
            + Pair("publishers", info.publisher) + Pair("models", info.model + ":" + info.verb)
  {
    var p0 := [info.apiVersion];
    var p1 := p0 + ["projects", info.projectID];
    var p2 := p1 + ["locations", info.region];
    var p3 := p2 + ["publishers", info.publisher];
    JoinPair(p0, "projects", info.projectID);
    JoinPair(p1, "locations", info.region);
    JoinPair(p2, "publishers", info.publisher);
    JoinPair(p3, "models", info.model + ":" + info.verb);
    assert Join(p0) == info.apiVersion;
    hide Join, Pair;
  }

  lemma {:induction false} RenderedSegments(info: RouteInfo)
    requires Clean(info)
    ensures Segments(Render(info)) == Pieces(info)
    ensures QueryOf(Render(info)) == info.rawQuery
  {
    hide Join, Split, Pair, Pieces, Clean, Plain, Render, PathOf, QueryOf;
    RenderIs(info);
    var ps := Pieces(info);
    var path := "/" + Join(ps);
    PiecesPlain(info);
    SplitJoin(ps);
    JoinPlain(ps);
    PathAndQuery(path, info.rawQuery);
    assert path[1..] == Join(ps);
  }

  lemma {:induction false} RenderIs(info: RouteInfo)
    ensures
      var path := "/" + Join(Pieces(info));
      Pieces(info) != [] && Render(info) == if info.rawQuery != "" then path + "?" + info.rawQuery else path
  {
    RenderIsJoin(info);
    hide Join, Pair;
  }

  lemma {:induction false} PiecesPlain(info: RouteInfo)
    requires Clean(info)
    ensures forall x | x in Pieces(info) :: Plain(x)
  {
  }

  lemma {:induction false} PathAndQuery(path: string, query: string)
    requires '?' !in path
    ensures var raw := if query != "" then path + "?" + query else path;
      PathOf(raw) == path && QueryOf(raw) == query
  {
    if query != "" {
      IndexOfFirst(path, '?', query);
      var raw := path + ['?'] + query;
      assert raw[..|path|] == path && raw[|path| + 1..] == query;
    }
  }

  // Parsing what was rendered gives the route back.
  lemma {:induction false} ParseRendered(info: RouteInfo, host: string)
    requires Clean(info)
    ensures Parsed(Render(info), host) == Ok(info.(host := host, originalPath := Render(info)))
  {
    RenderedSegments(info);
    PieceFields(info);
    AssemblePieces(info, Render(info), host);
    ParsedFromPieces(info, Render(info), host);
  }

  lemma {:induction false} ParsedFromPieces(info: RouteInfo, rawPath: string, host: string)
    requires HasPrefix(info.apiVersion, "v1") && Segments(rawPath) == Pieces(info)
    ensures var ps := Pieces(info);
      Parsed(rawPath, host) == Assemble(info.apiVersion, Field(ps, "projects", 9), Field(ps, "locations", 9),
                                        Field(ps, "publishers", 9), Field(ps, "models", 9), rawPath, host)
  {
    hide Segments, Pieces, Field, Assemble;
    NinePieces(info);
    EmptyPathHasOnePiece();
  }

  lemma {:induction false} NinePieces(info: RouteInfo)
    ensures |Pieces(info)| == 9 && Pieces(info)[0] == info.apiVersion
  {
  }

  lemma {:induction false} EmptyPathHasOnePiece()
    ensures |Segments("")| == 1
  {
  }

  lemma {:induction false} PieceFields(info: RouteInfo)
    ensures var ps := Pieces(info);
      && Field(ps, "projects", 9) == info.projectID && Field(ps, "locations", 9) == info.region
      && Field(ps, "publishers", 9) == info.publisher && Field(ps, "models", 9) == info.model + ":" + info.verb
  {
    var ps := Pieces(info);
    LastPair(ps, "models", 9);
    forall key | key in {"projects", "locations", "publishers"}
      ensures Field(ps, key, 9) == Field(ps, key, 7)
    {
      assert |key| != |ps[7]|;
      LastPair(ps, key, 9);
    }
    LastPair(ps, "publishers", 7);
    assert |ps[5]| == 10;
    LastPair(ps, "locations", 7);
    LastPair(ps, "locations", 5);
    LastPair(ps, "projects", 7);
    LastPair(ps, "projects", 5);
    LastPair(ps, "projects", 3);
    assert |ps[3]| == 9;
  }

  lemma {:induction false} LastPair(segments: seq<string>, key: string, i: nat)
    requires i % 2 == 1 && 1 < i <= |segments|
    ensures Field(segments, key, i) == if segments[i - 2] == key then segments[i - 1] else Field(segments, key, i - 2)
  {
  }

  lemma {:induction false} AssemblePieces(info: RouteInfo, rawPath: string, host: string)
    requires Clean(info) && QueryOf(rawPath) == info.rawQuery
    ensures Assemble(info.apiVersion, info.projectID, info.region, info.publisher, info.model + ":" + info.verb, rawPath, host)
         == Ok(info.(host := host, originalPath := rawPath))
  {
    var mm := info.model + [':'] + info.verb;
    IndexOfLast(info.model, ':', info.verb);
    assert mm == info.model + ":" + info.verb;
    assert mm[..|info.model|] == info.model && mm[|info.model| + 1..] == info.verb;
    assert info.publisher != "" by {
      assert |Lower(info.publisher)| == |Lower("google")| == 6;
    }
  }

  // Parse and MutatePath undo each other: rendering a parsed route without
  // overrides and parsing it again gives the same route (but for the recorded
  // original path), and the rendered path is a fixed point.
  lemma {:induction false} ParseMutateRoundTrip(rawPath: string, host: string)
    requires Parsed(rawPath, host).Ok?
    ensures
      var info := Parsed(rawPath, host).info;
      var path := MutatePath(Some(info), "", "");
      && Parsed(path, host) == Ok(info.(originalPath := path))
      && MutatePath(Some(Parsed(path, host).info), "", "") == path
  {
    ParsedIsClean(rawPath, host);
    var info := Parsed(rawPath, host).info;
    ParseRendered(info, host);
    assert Overridden(info, "", "") == info;
  }

  // With overrides, re-parsing gives exactly the route with model and region
  // replaced if and only if neither override contains '/' or '?'.
  lemma {:induction false} OverrideRoundTripIff(rawPath: string, host: string, model: string, region: string)
    requires Parsed(rawPath, host).Ok?
    ensures
      var info := Parsed(rawPath, host).info;
      var path := MutatePath(Some(info), model, region);
      Parsed(path, host) == Ok(Overridden(info, model, region).(originalPath := path)) <==> (Plain(model) && Plain(region))
  {
    ParsedIsClean(rawPath, host);
    var info := Parsed(rawPath, host).info;
    var path := MutatePath(Some(info), model, region);
    if Plain(model) && Plain(region) {
      assert Clean(Overridden(info, model, region));
      ParseRendered(Overridden(info, model, region), host);
    } else if Parsed(path, host).Ok? {
      ParsedIsClean(path, host);
    }
  }

  // A host is rewritten only from one public endpoint to another: custom hosts
  // are kept, and a moved request goes to the endpoint of its new location. A
  // location with a ':' can make that endpoint one that is not recognised.
  lemma {:induction false} HostFollowsRegion(info: RouteInfo, region: string)
    ensures
      var moved := IsVertexHost(info.host) && region != "" && !EqualFold(region, info.region);
      && MutateHost(Some(info), region) == (if moved then HostFor(region) else info.host)
      && ((IsVertexHost(MutateHost(Some(info), region)) <==> IsVertexHost(info.host)) <==>
            (moved ==> ':' !in region || IsVertexHost(region)))
  {
    HostForIsVertexIff(region);
    hide IsVertexHost, HostFor;
  }

  // The recognised hosts: the domain, or anything and a dash in front of it, in
  // any case, with or without a port.
  lemma {:induction false} IsVertexHostIff(host: string, port: string)
    requires ':' !in host && ':' !in port
    ensures IsVertexHost(host) <==>
      EqualFold(host, "aiplatform.googleapis.com") || exists front :: EqualFold(host, front + "-aiplatform.googleapis.com")
    ensures IsVertexHost(host + ":" + port) <==> IsVertexHost(host)
  {
    hide Lower, HasSuffix;
    EndpointName();
    PortDropped(host, port);
    SuffixUpToCase(host, "-" + VERTEX_DOMAIN);
    hide VERTEX_DOMAIN;
  }

  lemma {:induction false} SuffixUpToCase(s: string, tail: string)
    requires Lower(tail) == tail
    ensures HasSuffix(Lower(s), tail) <==> exists front :: EqualFold(s, front + tail)
  {
    LowerChars(s);
    if HasSuffix(Lower(s), tail) {
      var front := Lower(s)[..|s| - |tail|];
      assert Lower(s) == front + tail;
      assert EqualFold(s, front + tail);
    }
    forall front | EqualFold(s, front + tail) ensures HasSuffix(Lower(s), tail) {
      LowerConcat(front, tail);
    }
    hide Lower;
  }

  lemma {:induction false} PortDropped(host: string, port: string)
    requires ':' !in host && ':' !in port
    ensures HostName(host) == HostName(host + ":" + port) == Lower(host)
  {
    LowerColon(host);
    LowerColon(port);
    LowerConcat(host + ":", port);
    LowerConcat(host, ":");
    assert Lower(":") == [':'];
    IndexOfLast(Lower(host), ':', Lower(port));
    assert Lower(host + ":" + port) == Lower(host) + [':'] + Lower(port);
    hide Lower;
  }

  lemma {:induction false} LowerColon(s: string)
    ensures ':' in Lower(s) <==> ':' in s
  {
    if ':' in s {
      var i :| 0 <= i < |s| && s[i] == ':';
      assert Lower(s)[i] == ':';
    }
  }

  lemma {:induction false} LastIndexInFront(a: string, b: string, c: char)
    requires c !in b
    ensures LastIndexByte(a + b, c) == LastIndexByte(a, c)
  {
    var i, j := LastIndexByte(a + b, c), LastIndexByte(a, c);
    assert c in a + b <==> c in a;
    if c in a {
      assert (a + b)[j] == c && (a + b)[i] == c;
      assert forall k | j < k < |a| :: a[k] == a[j + 1..][k - j - 1];
      assert forall k | i < k < |a + b| :: (a + b)[k] == (a + b)[i + 1..][k - i - 1];
    }
  }

  // The endpoint of a location: one for "global", in any case, and one with the
  // location in front for every other.
  lemma {:induction false} HostForIs(location: string)
    ensures EqualFold(location, "global") ==> HostFor(location) == "aiplatform.googleapis.com"
    ensures !EqualFold(location, "global") ==>
      EqualFold(HostFor(location), location + "-aiplatform.googleapis.com") && Lower(HostFor(location)) == HostFor(location)
    ensures HostFor(location) != ""
  {
    HostIsLower(location);
    EndpointName();
    var tail := "-" + VERTEX_DOMAIN;
    assert Lower(location) + "-" + VERTEX_DOMAIN == Lower(location) + tail;
    LowerConcat(location, tail);
    hide Lower, VERTEX_DOMAIN;
  }

  lemma {:induction false} EndpointName()
    ensures VERTEX_DOMAIN == "aiplatform.googleapis.com" == Lower(VERTEX_DOMAIN)
    ensures "-" + VERTEX_DOMAIN == "-aiplatform.googleapis.com" == Lower("-" + VERTEX_DOMAIN)
  {
  }

  lemma {:induction false} HostIsLower(region: string)
    ensures Lower(Lower(region) + "-" + VERTEX_DOMAIN) == Lower(region) + "-" + VERTEX_DOMAIN
  {
    assert Lower("-" + VERTEX_DOMAIN) == "-" + VERTEX_DOMAIN;
    LowerChars(region);
    LowerConcat(Lower(region), "-" + VERTEX_DOMAIN);
    assert Lower(region) + "-" + VERTEX_DOMAIN == Lower(region) + ("-" + VERTEX_DOMAIN);
  }

  lemma {:induction false} RegionalName(region: string, tail: string)
    requires ':' !in tail && Lower(Lower(region) + tail) == Lower(region) + tail
    ensures HostName(Lower(region) + tail) == if ':' in region then HostName(region) else Lower(region) + tail
  {
    LowerColon(region);
    LastIndexInFront(Lower(region), tail, ':');
    hide Lower, LastIndexByte;
    var low := Lower(region);
    if ':' in low {
      var i := LastIndexByte(low, ':');
      assert (low + tail)[..i] == low[..i];
    }
  }

  lemma {:induction false} GlobalIsVertex()
    ensures IsVertexHost(VERTEX_DOMAIN) && ':' !in Lower(GLOBAL_LOCATION)
  {
    assert Lower(VERTEX_DOMAIN) == VERTEX_DOMAIN && ':' !in VERTEX_DOMAIN;
  }

  // The endpoint of a location is recognised as one unless the location has a
  // ':', which then counts as the start of a port.
  lemma {:induction false} HostForIsVertexIff(region: string)
    ensures IsVertexHost(HostFor(region)) <==> ':' !in region || IsVertexHost(region)
  {
    GlobalIsVertex();
    LowerColon(region);
    if !EqualFold(region, GLOBAL_LOCATION) {
      var tail := "-" + VERTEX_DOMAIN;
      var h := HostFor(region);
      HostIsLower(region);
      assert h == Lower(region) + tail && ':' !in tail;
      RegionalName(region, tail);
      assert h[|h| - |tail|..] == tail;
    }
    hide Lower, HostName, VERTEX_DOMAIN, GLOBAL_LOCATION;
  }
}
