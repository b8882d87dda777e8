/** The smart sort of routes, and why the first matching route is the longest match. */
module RouteOrder {
  import opened Wrappers
  import opened Resources
  import opened Sorting
  import opened PathMatching
  import opened Routes

  // ---------- The comparator ----------

  /** The comparator reads the first path of the first matcher set, and panics if either list is
      empty; a sort of two routes or more compares each of them. */
  predicate Sortable(r: RouteValue) {
    r.matcherSets != [] && (r.matcherSets[0].path.Some? ==> r.matcherSets[0].path.value != [])
  }

  function FirstPath(r: RouteValue): string {
    if Sortable(r) && r.matcherSets[0].path.Some? then r.matcherSets[0].path.value[0] else ""
  }

  predicate Prefixed(path: string) {
    path != "" && path[|path| - 1] == '*'
  }

  predicate RouteLess(x: RouteValue, y: RouteValue) {
    var iPath, jPath := FirstPath(x), FirstPath(y);
    var iPrefixed, jPrefixed := Prefixed(iPath), Prefixed(jPath);
    if iPrefixed == jPrefixed then |jPath| < |iPath|
    else if jPath == "" || iPath == "" then jPath == ""
    else jPrefixed
  }

  /** The comparator sorts into three bands: paths without a star, paths with one, no path. */
  function Band(path: string): nat {
    if Prefixed(path) then 1 else if path == "" then 0 else 2
  }

  lemma RouteLessIsRank(x: RouteValue, y: RouteValue)
    ensures RouteLess(x, y) <==>
            var i, j := FirstPath(x), FirstPath(y);
            Band(i) > Band(j) || (Band(i) == Band(j) && |i| > |j|)
  {
  }

  lemma RouteLessWeak()
    ensures StrictWeakOrder(RouteLess)
  {
    forall x, y ensures RouteLess(x, y) ==> !RouteLess(y, x) {
      RouteLessIsRank(x, y);
      RouteLessIsRank(y, x);
    }
    forall x, y, z | RouteLess(x, z) ensures RouteLess(x, y) || RouteLess(y, z) {
      RouteLessIsRank(x, y);
      RouteLessIsRank(y, z);
      RouteLessIsRank(x, z);
    }
  }

  method SortRoutes(routes: array<RouteValue>)
    requires routes.Length > 1 ==> forall i :: 0 <= i < routes.Length ==> Sortable(routes[i])
    modifies routes
    ensures routes[..] == StableSort(RouteLess, old(routes[..]))
  {
    SliceStable(routes, RouteLess);
  }

  /** IngressSortPlugin.GlobalHandler. */
  method SortIngressRoutes(smartSort: bool, routes: array<RouteValue>)
    requires smartSort && routes.Length > 1 ==> forall i :: 0 <= i < routes.Length ==> Sortable(routes[i])
    modifies routes
    ensures routes[..] == if smartSort then StableSort(RouteLess, old(routes[..])) else old(routes[..])
  {
    if !smartSort { return; }
    SortRoutes(routes);
  }

  /** Every generated route can be sorted: its one matcher set has no path list or a non-empty one. */
  lemma GeneratedSortable(ms: seq<Middleware>, inputs: seq<Input>, i: nat)
    requires OneMatcher(ms) && Generate(ms, inputs).Ok? && i < |inputs|
    ensures |Generate(ms, inputs).value| == |inputs|
    ensures Sortable(Generate(ms, inputs).value[i])
    ensures FirstPath(Generate(ms, inputs).value[i]) ==
            if Patterns(inputs[i].path).Some? then Patterns(inputs[i].path).value[0] else ""
  {
    GeneratedRoutes(ms, inputs, i);
  }

  // ---------- Which route a request takes ----------

  /** Whether a host matcher takes the host of a request. */
  type HostMatch = (string, string) -> bool

  datatype Request = Request(host: string, path: string, https: bool)

  predicate SetAccepts(hostAccepts: HostMatch, m: MatcherSet, req: Request) {
    && (m.protocol == Some("https") ==> req.https)
    && (m.host.Some? ==> hostAccepts(m.host.value, req.host))
    && PathAccepts(m.path, req.path)
  }

  /** A route takes a request if one of its matcher sets does; the first such route wins. */
  predicate RouteAccepts(hostAccepts: HostMatch, r: RouteValue, req: Request) {
    exists i :: 0 <= i < |r.matcherSets| && SetAccepts(hostAccepts, r.matcherSets[i], req)
  }

  function Acceptor(hostAccepts: HostMatch, req: Request): RouteValue -> bool {
    r => RouteAccepts(hostAccepts, r, req)
  }

  /** The i-th generated route takes a request exactly as its rule says: over https unless the redirect is
      disabled, for the rule's host if it has one, and on the rule's path. */
  lemma {:induction false} RouteTakesExactly(ms: seq<Middleware>, inputs: seq<Input>, hostAccepts: HostMatch,
                                             req: Request, i: nat)
    requires OneMatcher(ms) && Generate(ms, inputs).Ok? && i < |inputs| && Rooted(req.path)
    requires var p := inputs[i].path;
             p.pathType == Prefix ==> p.path == "" || (Rooted(p.path) && NoStar(p.path))
    ensures var ing, rule, p := inputs[i].ingress, inputs[i].rule, inputs[i].path;
            var key := "caddy.ingress.kubernetes.io/disable-ssl-redirect";
            var plain := key in ing.annotations && ing.annotations[key] == "true";
            && |Generate(ms, inputs).value| == |inputs|
            && (RouteAccepts(hostAccepts, Generate(ms, inputs).value[i], req) <==>
              && (plain || req.https)
              && (rule.host != "" ==> hostAccepts(rule.host, req.host))
              && RuleTakes(p, req.path))
  {
    GeneratedRoutes(ms, inputs, i);
    PatternsMean(inputs[i].path, req.path);
    var route := Generate(ms, inputs).value[i];
    assert RouteAccepts(hostAccepts, route, req) <==> SetAccepts(hostAccepts, route.matcherSets[0], req);
  }

  /** The rule's path as it is compared: a Prefix path without its trailing slash. */
  function Normal(p: HTTPPath): string {
    if p.pathType == Prefix then TrimSlash(p.path) else p.path
  }

  ghost predicate Starless(inputs: seq<Input>) {
    forall i :: 0 <= i < |inputs| ==> NoStar(inputs[i].path.path)
  }

  lemma NormalRank(p: HTTPPath)
    requires NoStar(p.path)
    ensures var first := if Patterns(p).Some? then Patterns(p).value[0] else "";
            && (Normal(p) != "" ==> first == Normal(p) && Band(first) == 2)
            && (Normal(p) == "" ==> Band(first) < 2)
  {
    if Normal(p) != "" {
      assert Normal(p)[|Normal(p)| - 1] in p.path;
    }
  }

  /** What a pattern fixes of a request path: all of it but the star. */
  function Literal(pattern: string): nat {
    if Prefixed(pattern) then |pattern| - 1 else |pattern|
  }

  /** No route that takes the request fixes more of it than the k-th. */
  ghost predicate FixesMost(hostAccepts: HostMatch, routes: seq<RouteValue>, req: Request, k: nat)
    requires k < |routes|
  {
    forall i :: 0 <= i < |routes| && RouteAccepts(hostAccepts, routes[i], req) ==>
      Literal(FirstPath(routes[i])) <= Literal(FirstPath(routes[k]))
  }

  predicate TakesStarless(hostAccepts: HostMatch, routes: seq<RouteValue>, req: Request, i: nat) {
    i < |routes| && RouteAccepts(hostAccepts, routes[i], req) && Band(FirstPath(routes[i])) == 2
  }

  predicate TakesStarred(hostAccepts: HostMatch, routes: seq<RouteValue>, req: Request, i: nat) {
    i < |routes| && RouteAccepts(hostAccepts, routes[i], req) && Band(FirstPath(routes[i])) == 1
  }

  /** The i-th path has a star and fixes more of the request than every starless one that takes it. */
  ghost predicate Overtakes(hostAccepts: HostMatch, routes: seq<RouteValue>, req: Request, i: nat) {
    && TakesStarred(hostAccepts, routes, req, i)
    && forall s: nat :: TakesStarless(hostAccepts, routes, req, s) ==>
      Literal(FirstPath(routes[s])) < Literal(FirstPath(routes[i]))
  }

  /** A starless path takes the request, and a starred one overtakes all that do. */
  ghost predicate Overtaken(hostAccepts: HostMatch, routes: seq<RouteValue>, req: Request) {
    && (exists s: nat :: TakesStarless(hostAccepts, routes, req, s))
    && (exists i: nat :: Overtakes(hostAccepts, routes, req, i))
  }

  /** A winner by rank fixes most of the request unless a starred path overtakes the starless ones. */
  lemma RankedFixesMost(hostAccepts: HostMatch, routes: seq<RouteValue>, req: Request, k: nat)
    requires k < |routes| && RouteAccepts(hostAccepts, routes[k], req)
    requires forall i :: 0 <= i < |routes| && RouteAccepts(hostAccepts, routes[i], req) ==>
               !RouteLess(routes[i], routes[k])
    ensures FixesMost(hostAccepts, routes, req, k) <==> !Overtaken(hostAccepts, routes, req)
  {
    forall i | 0 <= i < |routes| && RouteAccepts(hostAccepts, routes[i], req)
      ensures var p, q := FirstPath(routes[i]), FirstPath(routes[k]);
              Band(p) < Band(q) || (Band(p) == Band(q) && |p| <= |q|)
    {
      RouteLessIsRank(routes[i], routes[k]);
    }
    if !FixesMost(hostAccepts, routes, req, k) {
      var i: nat :| i < |routes| && RouteAccepts(hostAccepts, routes[i], req)
                    && Literal(FirstPath(routes[i])) > Literal(FirstPath(routes[k]));
      assert TakesStarless(hostAccepts, routes, req, k) && Overtakes(hostAccepts, routes, req, i);
    }
    if Overtaken(hostAccepts, routes, req) {
      var i: nat :| Overtakes(hostAccepts, routes, req, i);
      assert TakesStarless(hostAccepts, routes, req, k);
    }
  }

  /** What wins a request after generation and the smart sort: the route of the k-th input. It came
      before all of those that take the request and are ranked the same. It fixes most of the request
      if and only if no starred path overtakes the starless ones; and where no path has a star, its
      normalised path is at least as long as that of every input whose route takes the request. */
  ghost predicate Winner(hostAccepts: HostMatch, inputs: seq<Input>, routes: seq<RouteValue>, req: Request, k: nat) {
    && |routes| == |inputs| && k < |inputs| && RouteAccepts(hostAccepts, routes[k], req)
    && (forall i :: 0 <= i < k && RouteAccepts(hostAccepts, routes[i], req) ==> RouteLess(routes[k], routes[i]))
    && (FixesMost(hostAccepts, routes, req, k) <==> !Overtaken(hostAccepts, routes, req))
    && (Starless(inputs) ==>
      forall i :: 0 <= i < |inputs| && RouteAccepts(hostAccepts, routes[i], req) ==>
        |Normal(inputs[i].path)| <= |Normal(inputs[k].path)|)
  }

  lemma {:induction false} LongestMatchWins(ms: seq<Middleware>, inputs: seq<Input>, hostAccepts: HostMatch,
                                            req: Request, w: nat)
    returns (k: nat)
    requires OneMatcher(ms) && Generate(ms, inputs).Ok?
    requires IsFirst(Acceptor(hostAccepts, req), StableSort(RouteLess, Generate(ms, inputs).value), w)
    ensures var routes := Generate(ms, inputs).value;
            && Winner(hostAccepts, inputs, routes, req, k) && routes[k] == StableSort(RouteLess, routes)[w]
            && forall i :: 0 <= i < |inputs| && RouteAccepts(hostAccepts, routes[i], req) ==>
                 !RouteLess(routes[i], routes[k])
  {
    var routes := Generate(ms, inputs).value;
    RouteLessWeak();
    k := FirstAfterSort(RouteLess, routes, Acceptor(hostAccepts, req), w);
    GenerateLength(ms, inputs);
    forall i | 0 <= i < |inputs| && RouteAccepts(hostAccepts, routes[i], req) ensures !RouteLess(routes[i], routes[k]) {
      assert Acceptor(hostAccepts, req)(routes[i]);
    }
    RankedFixesMost(hostAccepts, routes, req, k);
    if Starless(inputs) {
      forall i | 0 <= i < |inputs| && RouteAccepts(hostAccepts, routes[i], req)
        ensures |Normal(inputs[i].path)| <= |Normal(inputs[k].path)|
      {
        LongerRanksHigher(ms, inputs, i, k);
      }
    }
  }

  lemma {:induction false} GenerateLength(ms: seq<Middleware>, inputs: seq<Input>)
    requires Generate(ms, inputs).Ok?
    ensures |Generate(ms, inputs).value| == |inputs|
  {
    if inputs != [] { GenerateLength(ms, inputs[..|inputs| - 1]); }
  }

  lemma LongerRanksHigher(ms: seq<Middleware>, inputs: seq<Input>, i: nat, k: nat)
    requires OneMatcher(ms) && Generate(ms, inputs).Ok? && Starless(inputs)
    requires i < |inputs| && k < |inputs| && |Generate(ms, inputs).value| == |inputs|
    requires !RouteLess(Generate(ms, inputs).value[i], Generate(ms, inputs).value[k])
    ensures |Normal(inputs[i].path)| <= |Normal(inputs[k].path)|
  {
    var routes := Generate(ms, inputs).value;
    GeneratedSortable(ms, inputs, i);
    GeneratedSortable(ms, inputs, k);
    NormalRank(inputs[i].path);
    NormalRank(inputs[k].path);
    RouteLessIsRank(routes[i], routes[k]);
  }

  // ---------- Exact against prefix ----------

  predicate Verbatim(p: HTTPPath) {
    p.pathType != Prefix && p.path != ""
  }

  /** An accepting route whose normalised path is the request path itself. */
  predicate Hits(hostAccepts: HostMatch, routes: seq<RouteValue>, req: Request, i: nat)
  {
    i < |routes| && RouteAccepts(hostAccepts, routes[i], req) && FirstPath(routes[i]) == req.path
  }

  lemma AcceptedPath(ms: seq<Middleware>, inputs: seq<Input>, hostAccepts: HostMatch, req: Request, i: nat)
    requires OneMatcher(ms) && Generate(ms, inputs).Ok? && Rooted(req.path)
    requires i < |inputs| && |Generate(ms, inputs).value| == |inputs|
    requires TakesStarless(hostAccepts, Generate(ms, inputs).value, req, i)
    ensures FirstPath(Generate(ms, inputs).value[i]) <= req.path
    ensures Verbatim(inputs[i].path) ==> FirstPath(Generate(ms, inputs).value[i]) == req.path
  {
    GeneratedRoutes(ms, inputs, i);
    var p := inputs[i].path;
    if p.pathType == Prefix {
      var q := TrimSlash(p.path);
      PrefixPatternsAccept(p, req.path);
      if q + "/" <= req.path { assert q == (q + "/")[..|q|] == req.path[..|q|]; }
    } else {
      var patterns := Patterns(p).value;
      var j :| 0 <= j < |patterns| && PatternAccepts(patterns[j], req.path);
    }
  }

  /** When an exact path without a star matches, the winner is the route generated first among those
      for that very path. */
  lemma {:induction false} FirstHitWins(ms: seq<Middleware>, inputs: seq<Input>, hostAccepts: HostMatch, req: Request,
                                        w: nat, e: nat)
    returns (k: nat)
    requires OneMatcher(ms) && Generate(ms, inputs).Ok? && Rooted(req.path)
    requires IsFirst(Acceptor(hostAccepts, req), StableSort(RouteLess, Generate(ms, inputs).value), w)
    requires e < |inputs| && Verbatim(inputs[e].path) && |Generate(ms, inputs).value| == |inputs|
    requires TakesStarless(hostAccepts, Generate(ms, inputs).value, req, e)
    ensures var routes := Generate(ms, inputs).value;
            && Hits(hostAccepts, routes, req, k) && routes[k] == StableSort(RouteLess, routes)[w]
            && (forall i: nat :: i < k ==> !Hits(hostAccepts, routes, req, i))
  {
    var routes := Generate(ms, inputs).value;
    k := LongestMatchWins(ms, inputs, hostAccepts, req, w);
    RouteLessIsRank(routes[e], routes[k]);
    AcceptedPath(ms, inputs, hostAccepts, req, e);
    AcceptedPath(ms, inputs, hostAccepts, req, k);
    assert forall i :: 0 <= i < k && RouteAccepts(hostAccepts, routes[i], req) ==> RouteLess(routes[k], routes[i]);
  }

  /** No Prefix rule for the request path comes ahead of every exact rule for it. */
  ghost predicate ExactAhead(hostAccepts: HostMatch, routes: seq<RouteValue>, inputs: seq<Input>, req: Request)
    requires |routes| == |inputs|
  {
    forall i: nat :: Hits(hostAccepts, routes, req, i) && !Verbatim(inputs[i].path) ==>
      exists j: nat :: j < i && Hits(hostAccepts, routes, req, j) && Verbatim(inputs[j].path)
  }

  /** The smart sort does not put exact paths ahead of prefix paths: the exact rule wins if and only
      if the rules already have it ahead of every Prefix rule for the same path. */
  lemma {:induction false} ExactWinsExactly(ms: seq<Middleware>, inputs: seq<Input>, hostAccepts: HostMatch,
                                            req: Request, w: nat, e: nat)
    returns (k: nat)
    requires OneMatcher(ms) && Generate(ms, inputs).Ok? && Rooted(req.path)
    requires IsFirst(Acceptor(hostAccepts, req), StableSort(RouteLess, Generate(ms, inputs).value), w)
    requires e < |inputs| && Verbatim(inputs[e].path) && |Generate(ms, inputs).value| == |inputs|
    requires TakesStarless(hostAccepts, Generate(ms, inputs).value, req, e)
    ensures k < |inputs| && Generate(ms, inputs).value[k] == StableSort(RouteLess, Generate(ms, inputs).value)[w]
    ensures Verbatim(inputs[k].path) <==> ExactAhead(hostAccepts, Generate(ms, inputs).value, inputs, req)
  {
    k := FirstHitWins(ms, inputs, hostAccepts, req, w, e);
    FirstHitDecides(hostAccepts, Generate(ms, inputs).value, inputs, req, k);
  }

  lemma FirstHitDecides(hostAccepts: HostMatch, routes: seq<RouteValue>, inputs: seq<Input>, req: Request, k: nat)
    requires |routes| == |inputs| && Hits(hostAccepts, routes, req, k)
    requires forall i: nat :: i < k ==> !Hits(hostAccepts, routes, req, i)
    ensures Verbatim(inputs[k].path) <==> ExactAhead(hostAccepts, routes, inputs, req)
  {
    if Verbatim(inputs[k].path) {
      forall i: nat | Hits(hostAccepts, routes, req, i) && !Verbatim(inputs[i].path)
        ensures exists j: nat :: j < i && Hits(hostAccepts, routes, req, j) && Verbatim(inputs[j].path)
      {
        assert k < i;
      }
    }
  }

  lemma MatcherAlone(input: Input)
    ensures Build([Matcher], input) == Ok(RouteValue([], [MatcherFor(input)]))
  {
    var ms: seq<Middleware> := [Matcher];
    assert ms[..0] == [];
    assert Build(ms[..0], input) == Ok(RouteValue([], []));
    assert Handle(ms[0], input, RouteValue([], [])).value.matcherSets == [] + [MatcherFor(input)] ==
           [MatcherFor(input)];
  }

  lemma TwoRoutes(first: Input, second: Input)
    ensures Generate([Matcher], [first, second]) ==
            Ok([RouteValue([], [MatcherFor(first)]), RouteValue([], [MatcherFor(second)])])
  {
    var none: seq<Input> := [];
    var r0, r1 := RouteValue([], [MatcherFor(first)]), RouteValue([], [MatcherFor(second)]);
    MatcherAlone(first);
    MatcherAlone(second);
    GenerateSnoc([Matcher], none, first);
    assert none + [first] == [first] && [] + [r0] == [r0];
    GenerateSnoc([Matcher], [first], second);
    assert [first] + [second] == [first, second] && [r0] + [r1] == [r0, r1];
  }

  /** The input that makes the documented claim fail: a Prefix rule listed before an exact one for
      the same path keeps its place ahead of it. */
  lemma PrefixBeatsExact(ing: Ingress, rule: Rule, path: string)
    requires Rooted(path) && path[|path| - 1] != '/' && NoStar(path)
    ensures var prefix := Input(ing, rule, HTTPPath(path, Prefix, Service("a", 80)));
            var exact := Input(ing, rule, HTTPPath(path, Exact, Service("b", 80)));
            var inputs := [prefix, exact];
            var routes := Generate([Matcher], inputs);
            && routes.Ok? && |routes.value| == 2
            && StableSort(RouteLess, routes.value) == routes.value
            && routes.value[0].matcherSets == [MatcherFor(inputs[0])]
            && MatcherFor(inputs[0]).path == Some([path, path + "/*"])
            && routes.value[1].matcherSets == [MatcherFor(inputs[1])] && MatcherFor(inputs[1]).path == Some([path])
  {
    var prefix := Input(ing, rule, HTTPPath(path, Prefix, Service("a", 80)));
    var exact := Input(ing, rule, HTTPPath(path, Exact, Service("b", 80)));
    var r0, r1 := RouteValue([], [MatcherFor(prefix)]), RouteValue([], [MatcherFor(exact)]);
    TwoRoutes(prefix, exact);
    SortTwo(RouteLess, r0, r1);
  }

  /** The inputs on which longest match fails: a Prefix path, and a longer path below it with a star.
      Whichever is listed first, the Prefix rule wins every request that both take. */
  lemma {:induction false} StarredPathLoses(short: Input, long: Input, rest: string)
    requires short.path.pathType == Prefix && Rooted(short.path.path) && NoStar(short.path.path)
    requires TrimSlash(short.path.path) == short.path.path
    requires long.path.pathType == ImplementationSpecific && long.path.path == short.path.path + "/" + rest + "*"
    ensures var x, y := RouteValue([], [MatcherFor(short)]), RouteValue([], [MatcherFor(long)]);
            && Generate([Matcher], [short, long]) == Ok([x, y]) && Generate([Matcher], [long, short]) == Ok([y, x])
            && StableSort(RouteLess, [x, y]) == [x, y] && StableSort(RouteLess, [y, x]) == [x, y]
            && Literal(FirstPath(x)) < Literal(FirstPath(y))
  {
    var x, y := RouteValue([], [MatcherFor(short)]), RouteValue([], [MatcherFor(long)]);
    TwoRoutes(short, long);
    TwoRoutes(long, short);
    SortTwo(RouteLess, x, y);
    SortTwo(RouteLess, y, x);
    StarRanksLower(x, y, short.path.path, rest);
  }

  lemma StarRanksLower(x: RouteValue, y: RouteValue, short: string, rest: string)
    requires short != "" && NoStar(short) && FirstPath(x) == short && FirstPath(y) == short + "/" + rest + "*"
    ensures RouteLess(x, y) && !RouteLess(y, x) && Literal(FirstPath(x)) < Literal(FirstPath(y))
  {
    assert short[|short| - 1] in short;
    RouteLessIsRank(x, y);
    RouteLessIsRank(y, x);
  }

  /** Every path that starts with the longer one's literal part is taken by both. */
  lemma BothTake(short: HTTPPath, long: HTTPPath, rest: string, path: string)
    requires short.pathType == Prefix && Rooted(short.path) && NoStar(short.path) && TrimSlash(short.path) == short.path
    requires long.pathType == ImplementationSpecific && long.path == short.path + "/" + rest + "*"
    requires short.path + "/" + rest <= path
    ensures PathAccepts(Patterns(short), path) && PathAccepts(Patterns(long), path)
  {
    assert long.path[..|long.path| - 1] == short.path + "/" + rest;
    assert PatternAccepts(Patterns(long).value[0], path);
    var prefix := short.path + "/*";
    assert prefix[..|prefix| - 1] == short.path + "/" == (short.path + "/" + rest)[..|short.path| + 1] ==
           path[..|short.path| + 1];
    assert PatternAccepts(Patterns(short).value[1], path);
  }
}
