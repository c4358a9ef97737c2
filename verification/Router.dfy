/** The front door's route table: which service a path belongs to, and what has to be allowed for it. */
module Router {
  import opened Arn
  import opened ChalaNames
  import opened Capability
  import opened FrontDoor
  import opened NacheCompute
  import opened Policy
  import opened Splitting
  import opened Wrappers

  /** How a route names the resource a request acts on; the account is always the caller's. */
  datatype Resource =
    | PathResource(service: string, kind: string, prefix: string)
    | SelfAccountResource(service: string)
    | AccountResource(service: string, kind: string, id: string)

  /** An empty method matches any. */
  datatype Route = Route(service: string, method_: string, prefix: string, action: string, resource: Resource)

  datatype RouteError = NotFound | Invalid

  datatype Target = Target(action: string, resource: string)

  // ---- Prefixes ----

  /** Under the prefix, at a segment boundary. */
  predicate MatchesPrefix(path: string, prefix: string) {
    prefix <= path &&
    (|path| == |prefix| || (prefix != "" && prefix[|prefix| - 1] == '/') || path[|prefix|] == '/')
  }

  /** The segments of a prefix that have to be there; after a final slash anything may follow. */
  function Fixed(prefix: string): (r: seq<string>) {
    var segments := Split(prefix, '/');
    if segments[|segments| - 1] == "" then segments[..|segments| - 1] else segments
  }

  lemma {:induction false} JoinConcat(a: seq<string>, b: seq<string>, sep: char)
    requires a != [] && b != []
    ensures Join(a + b, sep) == Join(a, sep) + [sep] + Join(b, sep)
  {
    if |a| == 1 {
      assert (a + b)[1..] == b;
    } else {
      assert (a + b)[1..] == a[1..] + b;
      JoinConcat(a[1..], b, sep);
    }
  }

  predicate EndsInSlash(s: string) { s != "" && s[|s| - 1] == '/' }

  /** The last segment is empty just after a slash. */
  lemma LastSegment(s: string)
    requires s != ""
    ensures EndsInSlash(s) ==> Split(s, '/') == Split(s[..|s| - 1], '/') + [""]
    ensures !EndsInSlash(s) ==> Split(s, '/')[|Split(s, '/')| - 1] != ""
  {
    hide Split;
    if EndsInSlash(s) {
      assert s == s[..|s| - 1] + ['/'] + "";
      SplitConcat(s[..|s| - 1], "", '/');
      SplitOne("", '/');
    } else {
      var segments := Split(s, '/');
      var last := segments[|segments| - 1];
      JoinSplit(s, '/');
      if last == "" {
        LastEmpty(segments);
      }
    }
  }

  lemma LastEmpty(segments: seq<string>)
    requires segments != [] && segments[|segments| - 1] == ""
    ensures Join(segments, '/') == "" || EndsInSlash(Join(segments, '/'))
  {
    if |segments| > 1 {
      var front := segments[..|segments| - 1];
      assert segments == front + [""];
      JoinOneMore(front, "", '/');
    }
  }

  /** The segments of the prefix are the first segments of the path, and one more if it ends in a slash. */
  predicate Under(path: string, prefix: string) {
    var segments, fixed := Split(path, '/'), Fixed(prefix);
    fixed <= segments && (EndsInSlash(prefix) ==> |fixed| < |segments|)
  }

  lemma FixedIs(prefix: string)
    requires prefix != ""
    ensures EndsInSlash(prefix) ==> Fixed(prefix) == Split(prefix[..|prefix| - 1], '/')
    ensures !EndsInSlash(prefix) ==> Fixed(prefix) == Split(prefix, '/')
  {
    hide Split;
    LastSegment(prefix);
  }

  /** Matching a prefix is matching its segments. */
  lemma MatchesSegments(path: string, prefix: string)
    requires prefix != ""
    ensures MatchesPrefix(path, prefix) <==> Under(path, prefix)
  {
    hide Split, Fixed, MatchesPrefix, Under;
    if MatchesPrefix(path, prefix) {
      MatchingIsUnder(path, prefix);
    }
    if Under(path, prefix) {
      UnderMatches(path, prefix);
    }
  }

  lemma MatchingIsUnder(path: string, prefix: string)
    requires prefix != "" && MatchesPrefix(path, prefix)
    ensures Under(path, prefix)
  {
    hide Split, Fixed;
    FixedIs(prefix);
    if EndsInSlash(prefix) {
      var head, rest := prefix[..|prefix| - 1], path[|prefix|..];
      assert path == head + ['/'] + rest;
      SplitConcat(head, rest, '/');
    } else if |path| > |prefix| {
      var rest := path[|prefix| + 1..];
      assert path == prefix + ['/'] + rest;
      SplitConcat(prefix, rest, '/');
    } else {
      assert path == prefix;
    }
  }

  lemma HeadMatches(path: string, head: string, rest: string, prefix: string)
    requires path == head + ['/'] + rest && (prefix == head || prefix == head + ['/'])
    ensures MatchesPrefix(path, prefix)
  {}

  lemma UnderMatches(path: string, prefix: string)
    requires prefix != "" && Under(path, prefix)
    ensures MatchesPrefix(path, prefix)
  {
    hide Split, Join, Fixed, MatchesPrefix;
    FixedIs(prefix);
    var segments, fixed := Split(path, '/'), Fixed(prefix);
    var rest := segments[|fixed|..];
    JoinSplit(path, '/');
    JoinFixed(prefix);
    if rest == [] {
      assert segments == fixed;
      Itself(path);
    } else {
      assert segments == fixed + rest;
      JoinConcat(fixed, rest, '/');
      HeadMatches(path, Join(fixed, '/'), Join(rest, '/'), prefix);
    }
  }

  lemma Itself(path: string)
    ensures MatchesPrefix(path, path)
  {}

  lemma JoinFixed(prefix: string)
    requires prefix != ""
    ensures Fixed(prefix) != []
    ensures EndsInSlash(prefix) ==> prefix == Join(Fixed(prefix), '/') + ['/']
    ensures !EndsInSlash(prefix) ==> prefix == Join(Fixed(prefix), '/')
  {
    hide Split, Join, Fixed;
    FixedIs(prefix);
    JoinSplit(prefix, '/');
    JoinSplit(prefix[..|prefix| - 1], '/');
    assert EndsInSlash(prefix) ==> prefix == prefix[..|prefix| - 1] + ['/'];
  }

  // ---- The table ----

  predicate Eligible(rt: Route, method_: string, path: string) {
    (rt.method_ == "" || rt.method_ == method_) && MatchesPrefix(path, rt.prefix)
  }

  /** A route is eligible for the methods it names, or any if it names none, and the paths under its prefix. */
  lemma EligibleIff(rt: Route, method_: string, path: string)
    requires rt.prefix != ""
    ensures Eligible(rt, method_, path) <==> (rt.method_ in {"", method_}) && Under(path, rt.prefix)
  {
    hide MatchesPrefix, Under;
    MatchesSegments(path, rt.prefix);
  }

  /** `NewTable` refuses these. */
  predicate IsRoute(rt: Route) { rt.service != "" && rt.prefix != "" && rt.action != "" }

  /** `NewTable`: the first route that is refused, if any. */
  method NewTable(routes: seq<Route>) returns (refused: Option<nat>)
    ensures refused.None? <==> forall rt | rt in routes :: IsRoute(rt)
    ensures refused.Some? ==>
      && refused.value < |routes| && !IsRoute(routes[refused.value])
      && forall i | 0 <= i < refused.value :: IsRoute(routes[i])
  {
    for i := 0 to |routes|
      invariant forall j | 0 <= j < i :: IsRoute(routes[j])
    {
      if routes[i].service == "" || routes[i].prefix == "" || routes[i].action == "" {
        assert routes[i] in routes;
        return Some(i);
      }
    }
    return None;
  }

  /** The route there is for a request: an eligible one with the longest prefix. */
  predicate IsBest(routes: seq<Route>, method_: string, path: string, found: Option<Route>) {
    match found
    case None => forall rt | rt in routes :: !Eligible(rt, method_, path)
    case Some(best) =>
      && best in routes && Eligible(best, method_, path)
      && forall rt | rt in routes && Eligible(rt, method_, path) :: |rt.prefix| <= |best.prefix|
  }

  /** `Match` */
  method Match(routes: seq<Route>, method_: string, path: string) returns (found: Option<Route>)
    ensures IsBest(routes, method_, path, found)
  {
    hide MatchesPrefix;
    var best := -1;
    for i := 0 to |routes|
      invariant -1 <= best < i
      invariant best < 0 ==> forall j | 0 <= j < i :: !Eligible(routes[j], method_, path)
      invariant best >= 0 ==> Eligible(routes[best], method_, path)
      invariant best >= 0 ==> forall j | 0 <= j < i && Eligible(routes[j], method_, path) ::
                                |routes[j].prefix| <= |routes[best].prefix|
    {
      var rt := routes[i];
      if rt.method_ != "" && rt.method_ != method_ {
        continue;
      }
      if !MatchesPrefix(path, rt.prefix) {
        continue;
      }
      if best < 0 || |rt.prefix| > |routes[best].prefix| {
        best := i;
      }
    }
    if best < 0 {
      return None;
    }
    return Some(routes[best]);
  }

  /** No two routes for the same prefix and overlapping methods. */
  predicate Unambiguous(routes: seq<Route>) {
    forall a, b | a in routes && b in routes && a.prefix == b.prefix
                  && (a.method_ == b.method_ || a.method_ == "" || b.method_ == "") :: a == b
  }

  /** Then the answer does not depend on the order of the table. */
  lemma TableOrderIsIrrelevant(routes: seq<Route>, routes': seq<Route>, method_: string, path: string,
                               found: Option<Route>, found': Option<Route>)
    requires Unambiguous(routes) && multiset(routes) == multiset(routes')
    requires IsBest(routes, method_, path, found) && IsBest(routes', method_, path, found')
    ensures found == found'
  {
    forall rt ensures rt in routes <==> rt in routes' {
      assert rt in multiset(routes) <==> rt in multiset(routes');
    }
    if found.Some? && found'.Some? {
      var a, b := found.value, found'.value;
      assert |a.prefix| == |b.prefix|;
      assert a.prefix == path[..|a.prefix|] == b.prefix;
    }
  }

  // ---- The resource ----

  function Name(region: string, service: string, account: string, kind: string, id: string): string {
    Format(Arn(service, region, account, kind, id))
  }

  /** The ARN a route builds. */
  function ResourceOf(r: Resource, region: string, account: string, path: string): Result<string, RouteError> {
    match r
    case PathResource(service, kind, prefix) =>
      var rest := if prefix <= path then path[|prefix|..] else path;
      var id := rest[..IndexOf(rest, '/')];
      if id == "" || ':' in id || '*' in id then Err(Invalid)
      else Ok(Name(region, service, account, kind, id))
    case SelfAccountResource(service) => Ok(Name(region, service, account, "account", account))
    case AccountResource(service, kind, id) => Ok(Name(region, service, account, kind, id))
  }

  /** The segment of a path behind a prefix. */
  function SegmentBehind(path: string, prefix: string): string
    requires prefix <= path
  {
    var rest := path[|prefix|..];
    rest[..IndexOf(rest, '/')]
  }

  /** Only a plain id makes a resource, and the ARN has the caller's account and no more structure than
      one id: nothing in a path can widen what a policy matches. */
  lemma PathResourceIsPlain(r: Resource, region: string, account: string, path: string)
    requires r.PathResource? && r.prefix <= path
    requires IsArn(Arn(r.service, region, account, r.kind, "id"))
    ensures var id, arn := SegmentBehind(path, r.prefix), ResourceOf(r, region, account, path);
      && '/' !in id
      && (arn.Ok? <==> id != "" && ':' !in id && '*' !in id)
      && (arn.Ok? ==> Parse(arn.value) == Result.Ok(Arn(r.service, region, account, r.kind, id)))
  {
    hide Format, Parse;
    var id := SegmentBehind(path, r.prefix);
    if id != "" {
      FormatThenParse(Arn(r.service, region, account, r.kind, id));
    }
  }

  /** `TargetFor` */
  method TargetFor(routes: seq<Route>, region: string, method_: string, path: string, account: string)
    returns (target: Result<Target, RouteError>)
    ensures exists found :: IsBest(routes, method_, path, found) && target == TargetOf(found, region, account, path)
  {
    hide IsBest, ResourceOf;
    var found := Match(routes, method_, path);
    match found
    case None => return Err(NotFound);
    case Some(rt) =>
      var resource := ResourceOf(rt.resource, region, account, path);
      match resource
      case Err(e) => return Err(e);
      case Ok(arn) => return Ok(Target(rt.action, arn));
  }

  function TargetOf(found: Option<Route>, region: string, account: string, path: string): Result<Target, RouteError> {
    match found
    case None => Err(NotFound)
    case Some(rt) =>
      match ResourceOf(rt.resource, region, account, path)
      case Err(e) => Err(e)
      case Ok(arn) => Ok(Target(rt.action, arn))
  }

  // ---- The routes of chala and nache ----

  const INSTANCES := "/chala/2026-09-30/instances"
  const IMAGES := "/chala/2026-09-30/images"
  const CLUSTERS := "/nache/2026-09-30/clusters"

  function Instance(): Resource { PathResource("chala", "instance", INSTANCES + "/") }

  function Cluster(): Resource { PathResource("nache", "cluster", CLUSTERS + "/") }

  function ChalaRoutes(): seq<Route> {
    [Route("chala", "PUT", INSTANCES + "/", "chala:RunInstance", Instance()),
     Route("chala", "GET", INSTANCES + "/", "chala:DescribeInstance", Instance()),
     Route("chala", "DELETE", INSTANCES + "/", "chala:TerminateInstance", Instance()),
     Route("chala", "GET", INSTANCES, "chala:DescribeInstances", SelfAccountResource("chala")),
     Route("chala", "GET", IMAGES, "chala:DescribeImages", SelfAccountResource("chala"))]
  }

  function NacheRoutes(): seq<Route> {
    [Route("nache", "PUT", CLUSTERS + "/", "nache:CreateCacheCluster", Cluster()),
     Route("nache", "GET", CLUSTERS + "/", "nache:DescribeCacheCluster", Cluster()),
     Route("nache", "DELETE", CLUSTERS + "/", "nache:DeleteCacheCluster", Cluster()),
     Route("nache", "GET", CLUSTERS, "nache:ListCacheClusters", SelfAccountResource("nache"))]
  }

  /** Whatever else the front door routes, it routes nothing below these. */
  predicate Elsewhere(others: seq<Route>) {
    forall rt | rt in others :: !("/chala/" <= rt.prefix) && !("/nache/" <= rt.prefix)
  }

  lemma LengthsAndLetters()
    ensures |INSTANCES| == 27 && |IMAGES| == 24 && |CLUSTERS| == 26
    ensures INSTANCES[1] == 'c' && IMAGES[1] == 'c' && CLUSTERS[1] == 'n'
    ensures INSTANCES[19] == 'n' && IMAGES[19] == 'm'
    ensures "/chala/" <= INSTANCES && "/chala/" <= IMAGES && "/nache/" <= CLUSTERS
  {}

  /** Nothing routed elsewhere comes close. */
  lemma OthersAreShorter(others: seq<Route>, rt: Route, path: string)
    requires Elsewhere(others) && rt in others && rt.prefix <= path
    requires "/chala/" <= path || "/nache/" <= path
    ensures |rt.prefix| < 7
  {
    if "/chala/" <= path {
      PrefixesNest("/chala/", rt.prefix, path);
    } else {
      PrefixesNest("/nache/", rt.prefix, path);
    }
  }

  lemma PrefixesNest(a: string, b: string, path: string)
    requires a <= path && b <= path
    ensures |a| <= |b| ==> a <= b
  {}

  lemma NameIsPlain(name: string)
    requires IsInstanceName(name)
    ensures name != "" && '/' !in name && ':' !in name && '*' !in name
  {}

  lemma PathIdIsName(resource: Resource, region: string, account: string, name: string)
    requires IsInstanceName(name) && resource.PathResource?
    ensures ResourceOf(resource, region, account, resource.prefix + name)
         == Ok(Name(region, resource.service, account, resource.kind, name))
  {
    hide Format, IsInstanceName, IndexOf;
    NameIsPlain(name);
    IndexOfNone(name, '/');
    var path := resource.prefix + name;
    assert path[|resource.prefix|..] == name;
    assert name[..|name|] == name;
  }

  /** Below a prefix that ends in a slash, the route of that prefix and the request's method is the best. */
  lemma LongestIsBest(routes: seq<Route>, method_: string, path: string, own: Route, found: Option<Route>)
    requires IsBest(routes, method_, path, found) && own in routes && Eligible(own, method_, path)
    requires forall rt | rt in routes && Eligible(rt, method_, path) :: |rt.prefix| < |own.prefix| || rt == own
    ensures found == Some(own)
  {
    hide Eligible;
  }

  /** The table of the front door, in any order. */
  ghost predicate IsTable(routes: seq<Route>, others: seq<Route>) {
    Elsewhere(others) && multiset(routes) == multiset(others + ChalaRoutes() + NacheRoutes())
  }

  lemma InTable(routes: seq<Route>, others: seq<Route>, rt: Route)
    requires IsTable(routes, others)
    ensures rt in routes <==> rt in others || rt in ChalaRoutes() || rt in NacheRoutes()
  {
    hide ChalaRoutes, NacheRoutes, Elsewhere;
    assert rt in multiset(routes) <==> rt in multiset(others + ChalaRoutes() + NacheRoutes());
  }

  /** What chala's handlers call the operation on one instance. */
  function InstanceAction(method_: string): string {
    if method_ == "PUT" then "chala:RunInstance"
    else if method_ == "GET" then "chala:DescribeInstance"
    else "chala:TerminateInstance"
  }

  /** For a path that names an instance, the front door asks for exactly what chala's Guard will want. */
  lemma InstanceTarget(routes: seq<Route>, others: seq<Route>, region: string, account: string, name: string,
                       method_: string, found: Option<Route>)
    requires IsTable(routes, others) && IsInstanceName(name) && method_ in {"PUT", "GET", "DELETE"}
    requires IsBest(routes, method_, INSTANCES + "/" + name, found)
    ensures TargetOf(found, region, account, INSTANCES + "/" + name)
         == Ok(Target(InstanceAction(method_), Format(Arn("chala", region, account, "instance", name))))
  {
    hide Format, IsInstanceName, INSTANCES, IMAGES, CLUSTERS, IsTable, IsBest, IndexOf;
    LengthsAndLetters();
    var path := INSTANCES + "/" + name;
    var own := Route("chala", method_, INSTANCES + "/", InstanceAction(method_), Instance());
    forall rt | rt in routes && Eligible(rt, method_, path) ensures |rt.prefix| < |own.prefix| || rt == own {
      InTable(routes, others, rt);
      if rt in others {
        InstanceElsewhere(routes, others, rt, name);
      } else {
        InstanceRoutes(rt, method_, name);
      }
    }
    InTable(routes, others, own);
    LongestIsBest(routes, method_, path, own, found);
    PathIdIsName(Instance(), region, account, name);
  }

  lemma InstanceElsewhere(routes: seq<Route>, others: seq<Route>, rt: Route, name: string)
    requires IsTable(routes, others) && rt in others && rt.prefix <= INSTANCES + "/" + name
    ensures |rt.prefix| < 7
  {
    hide INSTANCES, ChalaRoutes, NacheRoutes;
    LengthsAndLetters();
    OthersAreShorter(others, rt, INSTANCES + "/" + name);
  }

  lemma InstanceRoutes(rt: Route, method_: string, name: string)
    requires rt in ChalaRoutes() || rt in NacheRoutes()
    requires method_ in {"PUT", "GET", "DELETE"} && Eligible(rt, method_, INSTANCES + "/" + name)
    ensures |rt.prefix| < 28 || rt == Route("chala", method_, INSTANCES + "/", InstanceAction(method_), Instance())
  {
    hide INSTANCES, IMAGES, CLUSTERS;
    LengthsAndLetters();
    var path := INSTANCES + "/" + name;
    assert path[1] == 'c' && path[19] == 'n';
  }

  function ClusterAction(method_: string): string {
    if method_ == "PUT" then "nache:CreateCacheCluster"
    else if method_ == "GET" then "nache:DescribeCacheCluster"
    else "nache:DeleteCacheCluster"
  }

  lemma ClusterNameIsInstanceName(name: string)
    requires IsClusterName(name)
    ensures IsInstanceName(name)
  {}

  /** And for a path that names a cluster, what nache's Guard will want. */
  lemma ClusterTarget(routes: seq<Route>, others: seq<Route>, region: string, account: string, name: string,
                      method_: string, found: Option<Route>)
    requires IsTable(routes, others) && IsClusterName(name) && method_ in {"PUT", "GET", "DELETE"}
    requires IsBest(routes, method_, CLUSTERS + "/" + name, found)
    ensures TargetOf(found, region, account, CLUSTERS + "/" + name)
         == Ok(Target(ClusterAction(method_), Format(Arn("nache", region, account, "cluster", name))))
  {
    hide Format, IsInstanceName, IsClusterName, INSTANCES, IMAGES, CLUSTERS, IsTable, IsBest, IndexOf;
    LengthsAndLetters();
    var path := CLUSTERS + "/" + name;
    var own := Route("nache", method_, CLUSTERS + "/", ClusterAction(method_), Cluster());
    forall rt | rt in routes && Eligible(rt, method_, path) ensures |rt.prefix| < |own.prefix| || rt == own {
      InTable(routes, others, rt);
      if rt in others {
        NacheElsewhere(routes, others, rt, path);
      } else {
        ClusterRoutes(rt, method_, name);
      }
    }
    InTable(routes, others, own);
    LongestIsBest(routes, method_, path, own, found);
    ClusterNameIsInstanceName(name);
    PathIdIsName(Cluster(), region, account, name);
  }

  lemma NacheElsewhere(routes: seq<Route>, others: seq<Route>, rt: Route, path: string)
    requires IsTable(routes, others) && rt in others && rt.prefix <= path && CLUSTERS <= path
    ensures |rt.prefix| < 7
  {
    hide CLUSTERS, ChalaRoutes, NacheRoutes;
    LengthsAndLetters();
    OthersAreShorter(others, rt, path);
  }

  lemma ClusterRoutes(rt: Route, method_: string, name: string)
    requires rt in ChalaRoutes() || rt in NacheRoutes()
    requires method_ in {"PUT", "GET", "DELETE"} && Eligible(rt, method_, CLUSTERS + "/" + name)
    ensures |rt.prefix| < 27 || rt == Route("nache", method_, CLUSTERS + "/", ClusterAction(method_), Cluster())
  {
    hide INSTANCES, IMAGES, CLUSTERS;
    LengthsAndLetters();
    var path := CLUSTERS + "/" + name;
    assert path[1] == 'n';
  }

  /** For a list, both ask for the account as a whole. */
  lemma ListTarget(routes: seq<Route>, others: seq<Route>, region: string, account: string, path: string,
                   found: Option<Route>)
    requires IsTable(routes, others) && path in {INSTANCES, IMAGES, CLUSTERS}
    requires IsBest(routes, "GET", path, found)
    ensures var service := if path == CLUSTERS then "nache" else "chala";
      var action := if path == CLUSTERS then "nache:ListCacheClusters"
                    else if path == IMAGES then "chala:DescribeImages" else "chala:DescribeInstances";
      TargetOf(found, region, account, path)
        == Ok(Target(action, Format(Arn(service, region, account, "account", account))))
  {
    hide Format, INSTANCES, IMAGES, CLUSTERS, IsTable, IsBest;
    LengthsAndLetters();
    var service := if path == CLUSTERS then "nache" else "chala";
    var action := if path == CLUSTERS then "nache:ListCacheClusters"
                  else if path == IMAGES then "chala:DescribeImages" else "chala:DescribeInstances";
    var own := Route(service, "GET", path, action, SelfAccountResource(service));
    forall rt | rt in routes && Eligible(rt, "GET", path) ensures |rt.prefix| < |own.prefix| || rt == own {
      InTable(routes, others, rt);
      if rt in others {
        ListElsewhere(routes, others, rt, path);
      } else {
        ListRoutes(rt, path);
      }
    }
    InTable(routes, others, own);
    LongestIsBest(routes, "GET", path, own, found);
  }

  lemma ListElsewhere(routes: seq<Route>, others: seq<Route>, rt: Route, path: string)
    requires IsTable(routes, others) && rt in others && rt.prefix <= path && path in {INSTANCES, IMAGES, CLUSTERS}
    ensures |rt.prefix| < 7
  {
    hide INSTANCES, IMAGES, CLUSTERS, ChalaRoutes, NacheRoutes;
    LengthsAndLetters();
    OthersAreShorter(others, rt, path);
  }

  lemma ListRoutes(rt: Route, path: string)
    requires rt in ChalaRoutes() || rt in NacheRoutes()
    requires path in {INSTANCES, IMAGES, CLUSTERS} && Eligible(rt, "GET", path)
    ensures rt.prefix == path && rt.resource.SelfAccountResource?
    ensures rt == if path == CLUSTERS then
                    Route("nache", "GET", path, "nache:ListCacheClusters", SelfAccountResource("nache"))
                  else if path == IMAGES then
                    Route("chala", "GET", path, "chala:DescribeImages", SelfAccountResource("chala"))
                  else Route("chala", "GET", path, "chala:DescribeInstances", SelfAccountResource("chala"))
  {
    hide INSTANCES, IMAGES, CLUSTERS;
    LengthsAndLetters();
    assert path[1] == 'c' || path[1] == 'n';
  }

  /** So a request for an instance that is allowed is served, by exactly one name for the resource on both
      sides. */
  lemma AllowedInstanceIsServed(cfg: FrontDoor.Config, s: FrontDoor.State, step: FrontDoor.Step, guard: Guard,
                                routes: seq<Route>, others: seq<Route>, name: string, method_: string,
                                found: Option<Route>, now: int) returns (c: Capability)
    requires IsTable(routes, others) && IsInstanceName(name) && method_ in {"PUT", "GET", "DELETE"}
    requires IsBest(routes, method_, INSTANCES + "/" + name, found)
    requires guard.service == "chala" && guard.region != "" && ':' !in guard.region && cfg.keyId in guard.keys
    requires IsAccountId(step.principal.account)
    requires Ok(Target(step.action, step.resource))
          == TargetOf(found, guard.region, step.principal.account, INSTANCES + "/" + name)
    requires step.policies.Some?
    requires var d := Authorize(step.principal.arn, step.action, step.resource, step.policies);
      d.Ok? && d.value.verdict == Allowed
    requires now <= step.at + cfg.ttl + guard.skew
    ensures GuardNamed(guard, FrontDoor.After(cfg, s, step).minted, Carries(TokenOf(c, cfg.keyId)),
                       Intent(InstanceAction(method_), "instance", name), now) == Ok(c)
    ensures c.account == step.principal.account
  {
    hide Format, TargetOf, IsTable, IsBest, Authorize, IsAccountId, IsInstanceName, INSTANCES;
    InstanceTarget(routes, others, guard.region, step.principal.account, name, method_, found);
    NameIsPlain(name);
    ArnOf("chala", guard.region, step.principal.account, "instance", name);
    c := GuardIsComplete(cfg, s, guard, Intent(InstanceAction(method_), "instance", name), step, now);
  }

  /** The same for a cluster and nache, … */
  lemma AllowedClusterIsServed(cfg: FrontDoor.Config, s: FrontDoor.State, step: FrontDoor.Step, guard: Guard,
                               routes: seq<Route>, others: seq<Route>, name: string, method_: string,
                               found: Option<Route>, now: int) returns (c: Capability)
    requires IsTable(routes, others) && IsClusterName(name) && method_ in {"PUT", "GET", "DELETE"}
    requires IsBest(routes, method_, CLUSTERS + "/" + name, found)
    requires guard.service == "nache" && guard.region != "" && ':' !in guard.region && cfg.keyId in guard.keys
    requires IsAccountId(step.principal.account)
    requires Ok(Target(step.action, step.resource))
          == TargetOf(found, guard.region, step.principal.account, CLUSTERS + "/" + name)
    requires step.policies.Some?
    requires var d := Authorize(step.principal.arn, step.action, step.resource, step.policies);
      d.Ok? && d.value.verdict == Allowed
    requires now <= step.at + cfg.ttl + guard.skew
    ensures GuardNamed(guard, FrontDoor.After(cfg, s, step).minted, Carries(TokenOf(c, cfg.keyId)),
                       Intent(ClusterAction(method_), "cluster", name), now) == Ok(c)
    ensures c.account == step.principal.account
  {
    hide Format, TargetOf, IsTable, IsBest, Authorize, IsAccountId, IsClusterName, IsInstanceName, CLUSTERS;
    ClusterTarget(routes, others, guard.region, step.principal.account, name, method_, found);
    ClusterNameIsInstanceName(name);
    NameIsPlain(name);
    ArnOf("nache", guard.region, step.principal.account, "cluster", name);
    c := GuardIsComplete(cfg, s, guard, Intent(ClusterAction(method_), "cluster", name), step, now);
  }

  /** … and for the lists of both. */
  lemma AllowedListIsServed(cfg: FrontDoor.Config, s: FrontDoor.State, step: FrontDoor.Step, guard: Guard,
                            routes: seq<Route>, others: seq<Route>, path: string, found: Option<Route>, now: int)
    returns (c: Capability)
    requires IsTable(routes, others) && path in {INSTANCES, IMAGES, CLUSTERS} && IsBest(routes, "GET", path, found)
    requires guard.service == if path == CLUSTERS then "nache" else "chala"
    requires guard.region != "" && ':' !in guard.region && cfg.keyId in guard.keys
    requires IsAccountId(step.principal.account)
    requires Ok(Target(step.action, step.resource)) == TargetOf(found, guard.region, step.principal.account, path)
    requires step.policies.Some?
    requires var d := Authorize(step.principal.arn, step.action, step.resource, step.policies);
      d.Ok? && d.value.verdict == Allowed
    requires now <= step.at + cfg.ttl + guard.skew
    ensures var action := if path == CLUSTERS then "nache:ListCacheClusters"
                          else if path == IMAGES then "chala:DescribeImages" else "chala:DescribeInstances";
      GuardAccount(guard, FrontDoor.After(cfg, s, step).minted, Carries(TokenOf(c, cfg.keyId)), action, now) == Ok(c)
    ensures c.account == step.principal.account
  {
    hide Format, TargetOf, IsTable, IsBest, Authorize, IsAccountId, INSTANCES, IMAGES, CLUSTERS;
    ListTarget(routes, others, guard.region, step.principal.account, path, found);
    AccountIsPlain(step.principal.account);
    ArnOf(guard.service, guard.region, step.principal.account, "account", step.principal.account);
    c := AccountGuardIsComplete(cfg, s, guard, step, now);
  }

  lemma AccountIsPlain(account: string)
    requires IsAccountId(account)
    ensures account != ""
  {}

  lemma ArnOf(service: string, region: string, account: string, kind: string, name: string)
    requires service in {"chala", "nache"} && kind in {"instance", "cluster", "account"}
    requires region != "" && ':' !in region && IsAccountId(account) && name != ""
    ensures IsArn(Arn(service, region, account, kind, name))
  {}
}
