/** Routes generated from the ingresses: one per path, folded through the ingress middlewares. */
module Routes {
  import opened Wrappers
  import opened Resources
  import opened Sorting
  import opened PathMatching

  type Handler = string

  /** The matcher modules of a route; JSON encoding is taken as injective. */
  datatype MatcherSet = MatcherSet(protocol: Option<string>, host: Option<string>, path: Option<seq<string>>)

  datatype RouteValue = RouteValue(handlers: seq<Handler>, matcherSets: seq<MatcherSet>)

  /** An error return, or a crash. */
  datatype Failure = Error(message: string) | Panic

  // ---------- One route ----------

  /** What a middleware is given for one path of one rule of one ingress. */
  datatype Input = Input(ingress: Ingress, rule: Rule, path: HTTPPath)

  const DISABLE_SSL_REDIRECT := "caddy.ingress.kubernetes.io/disable-ssl-redirect"

  function Annotation(ing: Ingress, name: string): string {
    if name in ing.annotations then ing.annotations[name] else ""
  }

  function MatcherFor(input: Input): MatcherSet {
    MatcherSet(
      if Annotation(input.ingress, DISABLE_SSL_REDIRECT) != "true" then Some("https") else None,
      if input.rule.host != "" then Some(input.rule.host) else None,
      Patterns(input.path))
  }

  /** The ingress middlewares: the matcher, and those that only append handlers, fail or crash. */
  datatype Middleware = Matcher | Appender(handle: Input -> Result<seq<Handler>, Failure>)

  /** The reverse proxy reads the Service of a path unchecked; the rest is taken as given. */
  function ReverseProxy(proxy: Input -> Result<Handler, string>): Middleware {
    Appender((input: Input) =>
      if input.path.backend.Resource? then Err(Panic)
      else match proxy(input)
           case Ok(handler) => Ok([handler])
           case Err(e) => Err(Error(e)))
  }

  function Handle(m: Middleware, input: Input, r: RouteValue): Result<RouteValue, Failure> {
    match m
    case Matcher => Ok(r.(matcherSets := r.matcherSets + [MatcherFor(input)]))
    case Appender(handle) =>
      match handle(input)
      case Ok(handlers) => Ok(r.(handlers := r.handlers + handlers))
      case Err(e) => Err(e)
  }

  /** The route folded through all middlewares, up to the first error. */
  function Build(ms: seq<Middleware>, input: Input): Result<RouteValue, Failure> {
    if ms == [] then Ok(RouteValue([], []))
    else match Build(ms[..|ms| - 1], input)
         case Ok(r) => Handle(ms[|ms| - 1], input, r)
         case Err(e) => Err(e)
  }

  class Route {
    var handlers: seq<Handler>
    var matcherSets: seq<MatcherSet>

    constructor ()
      ensures handlers == [] && matcherSets == []
    {
      handlers, matcherSets := [], [];
    }

    function Value(): RouteValue
      reads this
    {
      RouteValue(handlers, matcherSets)
    }

    /** MatcherPlugin.IngressHandler: fills the match map and appends it. */
    method MatcherHandler(input: Input)
      modifies this
      ensures Ok(Value()) == Handle(Matcher, input, old(Value()))
    {
      var match_ := MatcherSet(None, None, None);
      if Annotation(input.ingress, DISABLE_SSL_REDIRECT) != "true" {
        match_ := match_.(protocol := Some("https"));
      }
      if input.rule.host != "" {
        match_ := match_.(host := Some(input.rule.host));
      }
      if input.path.path != "" {
        var pathPattern := input.path.path;
        if input.path.pathType == Prefix {
          pathPattern := TrimSlash(pathPattern);
          if pathPattern == "" {
            match_ := match_.(path := Some(["/*"]));
          } else {
            match_ := match_.(path := Some([pathPattern, pathPattern + "/*"]));
          }
        } else {
          match_ := match_.(path := Some([pathPattern]));
        }
      }
      matcherSets := matcherSets + [match_];
    }

    /** One middleware applied to the route. */
    method Apply(m: Middleware, input: Input) returns (err: Option<Failure>)
      modifies this
      ensures err.None? ==> Handle(m, input, old(Value())) == Ok(Value())
      ensures err.Some? ==> Handle(m, input, old(Value())) == Err(err.value)
    {
      if m.Matcher? {
        MatcherHandler(input);
        return None;
      }
      var more := m.handle(input);
      if more.Err? { return Some(more.error); }
      handlers := handlers + more.value;
      return None;
    }
  }

  /** The innermost loop: one route through all middlewares. */
  method BuildRoute(ms: seq<Middleware>, input: Input) returns (r: Result<RouteValue, Failure>)
    ensures r == Build(ms, input)
  {
    var route := new Route();
    for i := 0 to |ms|
      invariant fresh(route)
      invariant Build(ms[..i], input) == Ok(route.Value())
    {
      assert ms[..i + 1][..i] == ms[..i];
      var err := route.Apply(ms[i], input);
      if err.Some? {
        assert Build(ms[..i + 1], input) == Err(err.value);
        BuildStops(ms[..i + 1], ms[i + 1..], input);
        assert ms == ms[..i + 1] + ms[i + 1..];
        return Err(err.value);
      }
    }
    assert ms[..|ms|] == ms;
    return Ok(route.Value());
  }

  lemma {:induction false} BuildStops(ms: seq<Middleware>, rest: seq<Middleware>, input: Input)
    requires Build(ms, input).Err?
    ensures Build(ms + rest, input) == Build(ms, input)
    decreases |rest|
  {
    if rest == [] {
      assert ms + rest == ms;
    } else {
      BuildStops(ms, rest[..|rest| - 1], input);
      assert (ms + rest)[..|ms + rest| - 1] == ms + rest[..|rest| - 1];
    }
  }

  // ---------- All routes ----------

  function PathInputs(ing: Ingress, rule: Rule, paths: seq<HTTPPath>): seq<Input> {
    Map(p => Input(ing, rule, p), paths)
  }

  function RuleInputs(ing: Ingress, rules: seq<Rule>): seq<Input> {
    if rules == [] then []
    else RuleInputs(ing, rules[..|rules| - 1]) + PathInputs(ing, rules[|rules| - 1], rules[|rules| - 1].paths)
  }

  /** Every path of every rule of every ingress, in the order of the nested loops. */
  function Inputs(ings: seq<Ingress>): seq<Input> {
    if ings == [] then []
    else Inputs(ings[..|ings| - 1]) + RuleInputs(ings[|ings| - 1], ings[|ings| - 1].rules)
  }

  /** A route for each input, or the first error. */
  function Generate(ms: seq<Middleware>, inputs: seq<Input>): Result<seq<RouteValue>, Failure> {
    if inputs == [] then Ok([])
    else match Generate(ms, inputs[..|inputs| - 1])
         case Err(e) => Err(e)
         case Ok(routes) =>
           match Build(ms, inputs[|inputs| - 1])
           case Ok(r) => Ok(routes + [r])
           case Err(e) => Err(e)
  }

  lemma GenerateSnoc(ms: seq<Middleware>, inputs: seq<Input>, input: Input)
    ensures Generate(ms, inputs + [input]) ==
            match Generate(ms, inputs)
            case Err(e) => Err(e)
            case Ok(routes) => match Build(ms, input) case Ok(r) => Ok(routes + [r]) case Err(e) => Err(e)
  {
    assert (inputs + [input])[..|inputs|] == inputs;
  }

  lemma GenerateNext(ms: seq<Middleware>, whole: seq<Input>, n: nat)
    requires n < |whole|
    ensures Generate(ms, whole[..n + 1]) ==
            match Generate(ms, whole[..n])
            case Err(e) => Err(e)
            case Ok(routes) => match Build(ms, whole[n]) case Ok(r) => Ok(routes + [r]) case Err(e) => Err(e)
  {
    GenerateSnoc(ms, whole[..n], whole[n]);
    assert whole[..n + 1] == whole[..n] + [whole[n]];
  }

  lemma {:induction false} GenerateStops(ms: seq<Middleware>, inputs: seq<Input>, rest: seq<Input>)
    requires Generate(ms, inputs).Err?
    ensures Generate(ms, inputs + rest) == Generate(ms, inputs)
    decreases |rest|
  {
    if rest == [] {
      assert inputs + rest == inputs;
    } else {
      GenerateStops(ms, inputs, rest[..|rest| - 1]);
      assert inputs + rest == (inputs + rest[..|rest| - 1]) + [rest[|rest| - 1]];
      GenerateSnoc(ms, inputs + rest[..|rest| - 1], rest[|rest| - 1]);
    }
  }

  lemma GenerateStopsAt(ms: seq<Middleware>, part: seq<Input>, whole: seq<Input>)
    requires part <= whole && Generate(ms, part).Err?
    ensures Generate(ms, whole) == Generate(ms, part)
  {
    GenerateStops(ms, part, whole[|part|..]);
    assert whole == part + whole[|part|..];
  }

  /** The loop over the paths of one rule. */
  method RulePaths(ms: seq<Middleware>, ing: Ingress, rule: Rule, ghost before: seq<Input>, routes: seq<RouteValue>)
    returns (r: Result<seq<RouteValue>, Failure>)
    requires Generate(ms, before) == Ok(routes)
    ensures r == Generate(ms, before + PathInputs(ing, rule, rule.paths))
  {
    r := Ok(routes);
    ghost var whole := before + PathInputs(ing, rule, rule.paths);
    PathInputsWhole(ing, rule, before);
    var k := 0;
    while k < |rule.paths|
      invariant 0 <= k <= |rule.paths|
      invariant r == Generate(ms, whole[..|before| + k]) && r.Ok?
    {
      GenerateNext(ms, whole, |before| + k);
      var route := BuildRoute(ms, Input(ing, rule, rule.paths[k]));
      k := k + 1;
      if route.Err? {
        GenerateStopsAt(ms, whole[..|before| + k], whole);
        return Err(route.error);
      }
      r := Ok(r.value + [route.value]);
    }
  }

  lemma PathInputsWhole(ing: Ingress, rule: Rule, before: seq<Input>)
    ensures var whole := before + PathInputs(ing, rule, rule.paths);
            && |whole| == |before| + |rule.paths|
            && whole[..|before|] == before && whole[..|before| + |rule.paths|] == whole
            && forall k :: 0 <= k < |rule.paths| ==> whole[|before| + k] == Input(ing, rule, rule.paths[k])
  {
    MapIndex(p => Input(ing, rule, p), rule.paths);
  }

  /** The loop over the rules of one ingress. */
  method IngressRules(ms: seq<Middleware>, ing: Ingress, ghost before: seq<Input>, routes: seq<RouteValue>)
    returns (r: Result<seq<RouteValue>, Failure>)
    requires Generate(ms, before) == Ok(routes)
    ensures r == Generate(ms, before + RuleInputs(ing, ing.rules))
  {
    r := Ok(routes);
    var j := 0;
    assert before + RuleInputs(ing, ing.rules[..0]) == before;
    while j < |ing.rules|
      invariant 0 <= j <= |ing.rules|
      invariant r == Generate(ms, before + RuleInputs(ing, ing.rules[..j])) && r.Ok?
    {
      NextRule(ing, before, j);
      r := RulePaths(ms, ing, ing.rules[j], before + RuleInputs(ing, ing.rules[..j]), r.value);
      j := j + 1;
      if r.Err? {
        GenerateStopsAt(ms, before + RuleInputs(ing, ing.rules[..j]), before + RuleInputs(ing, ing.rules));
        return;
      }
    }
    assert ing.rules[..|ing.rules|] == ing.rules;
  }

  lemma NextRule(ing: Ingress, before: seq<Input>, j: nat)
    requires j < |ing.rules|
    ensures var next := before + RuleInputs(ing, ing.rules[..j + 1]);
            && before + RuleInputs(ing, ing.rules[..j]) + PathInputs(ing, ing.rules[j], ing.rules[j].paths) == next
            && next <= before + RuleInputs(ing, ing.rules)
  {
    assert ing.rules[..j + 1][..j] == ing.rules[..j];
    RuleInputsPrefix(ing, ing.rules, j + 1);
  }

  lemma {:induction false} RuleInputsPrefix(ing: Ingress, rules: seq<Rule>, j: nat)
    requires j <= |rules|
    ensures RuleInputs(ing, rules[..j]) <= RuleInputs(ing, rules)
    decreases |rules|
  {
    if j == |rules| {
      assert rules[..j] == rules;
    } else {
      RuleInputsPrefix(ing, rules[..|rules| - 1], j);
      assert rules[..|rules| - 1][..j] == rules[..j];
    }
  }

  lemma {:induction false} InputsPrefix(ings: seq<Ingress>, i: nat)
    requires i <= |ings|
    ensures Inputs(ings[..i]) <= Inputs(ings)
    decreases |ings|
  {
    if i == |ings| {
      assert ings[..i] == ings;
    } else {
      InputsPrefix(ings[..|ings| - 1], i);
      assert ings[..|ings| - 1][..i] == ings[..i];
    }
  }

  /** IngressPlugin.GlobalHandler: one route per path, in loop order, or the first error. */
  method GenerateRoutes(ms: seq<Middleware>, ings: seq<Ingress>) returns (r: Result<seq<RouteValue>, Failure>)
    ensures r == Generate(ms, Inputs(ings))
  {
    r := Ok([]);
    var i := 0;
    while i < |ings|
      invariant 0 <= i <= |ings|
      invariant r == Generate(ms, Inputs(ings[..i])) && r.Ok?
    {
      assert ings[..i + 1][..i] == ings[..i];
      r := IngressRules(ms, ings[i], Inputs(ings[..i]), r.value);
      i := i + 1;
      if r.Err? {
        InputsPrefix(ings, i);
        GenerateStopsAt(ms, Inputs(ings[..i]), Inputs(ings));
        return;
      }
    }
    assert ings[..|ings|] == ings;
  }

  // ---------- Every path, in order ----------

  function CountRules(rules: seq<Rule>): nat {
    if rules == [] then 0 else |rules[0].paths| + CountRules(rules[1..])
  }

  function CountPaths(ings: seq<Ingress>): nat {
    if ings == [] then 0 else CountRules(ings[0].rules) + CountPaths(ings[1..])
  }

  lemma {:induction false} CountRulesSnoc(rules: seq<Rule>, rule: Rule)
    ensures CountRules(rules + [rule]) == CountRules(rules) + |rule.paths|
  {
    if rules == [] {
      assert rules + [rule] == [rule] && [rule][1..] == [];
    } else {
      assert (rules + [rule])[1..] == rules[1..] + [rule];
      CountRulesSnoc(rules[1..], rule);
    }
  }

  lemma {:induction false} CountPathsSnoc(ings: seq<Ingress>, ing: Ingress)
    ensures CountPaths(ings + [ing]) == CountPaths(ings) + CountRules(ing.rules)
  {
    if ings == [] {
      assert ings + [ing] == [ing] && [ing][1..] == [];
    } else {
      assert (ings + [ing])[1..] == ings[1..] + [ing];
      CountPathsSnoc(ings[1..], ing);
    }
  }

  lemma {:induction false} RuleInputsCount(ing: Ingress, rules: seq<Rule>)
    ensures |RuleInputs(ing, rules)| == CountRules(rules)
    decreases |rules|
  {
    if rules != [] {
      var n := |rules| - 1;
      RuleInputsCount(ing, rules[..n]);
      MapIndex(p => Input(ing, rules[n], p), rules[n].paths);
      CountRulesSnoc(rules[..n], rules[n]);
      assert rules == rules[..n] + [rules[n]];
    }
  }

  lemma {:induction false} InputsCount(ings: seq<Ingress>)
    ensures |Inputs(ings)| == CountPaths(ings)
    decreases |ings|
  {
    if ings != [] {
      var n := |ings| - 1;
      InputsCount(ings[..n]);
      RuleInputsCount(ings[n], ings[n].rules);
      CountPathsSnoc(ings[..n], ings[n]);
      assert ings == ings[..n] + [ings[n]];
    }
  }

  lemma {:induction false} RuleInputAt(ing: Ingress, rules: seq<Rule>, j: nat, k: nat)
    requires j < |rules| && k < |rules[j].paths|
    ensures var at := CountRules(rules[..j]) + k;
            at < |RuleInputs(ing, rules)| && RuleInputs(ing, rules)[at] == Input(ing, rules[j], rules[j].paths[k])
  {
    var upTo := rules[..j + 1];
    assert upTo[..j] == rules[..j];
    RuleInputsCount(ing, rules[..j]);
    MapIndex(p => Input(ing, rules[j], p), rules[j].paths);
    assert RuleInputs(ing, upTo) == RuleInputs(ing, rules[..j]) + PathInputs(ing, rules[j], rules[j].paths);
    RuleInputsPrefix(ing, rules, j + 1);
  }

  /** The k-th path of the j-th rule of the i-th ingress is there, at its place in the order of the
      nested loops, and nothing else is. */
  lemma {:induction false} InputsExactly(ings: seq<Ingress>, i: nat, j: nat, k: nat)
    requires i < |ings| && j < |ings[i].rules| && k < |ings[i].rules[j].paths|
    ensures var at := CountPaths(ings[..i]) + CountRules(ings[i].rules[..j]) + k;
            at < |Inputs(ings)| && Inputs(ings)[at] == Input(ings[i], ings[i].rules[j], ings[i].rules[j].paths[k])
    ensures |Inputs(ings)| == CountPaths(ings)
  {
    var upTo := ings[..i + 1];
    assert upTo[..i] == ings[..i];
    InputsCount(ings);
    InputsCount(ings[..i]);
    RuleInputAt(ings[i], ings[i].rules, j, k);
    assert Inputs(upTo) == Inputs(ings[..i]) + RuleInputs(ings[i], ings[i].rules);
    InputsPrefix(ings, i + 1);
  }

  // ---------- What a built route carries ----------

  /** What one middleware adds to a route. */
  function Adds(m: Middleware, input: Input): seq<Handler> {
    match m
    case Matcher => []
    case Appender(handle) => (match handle(input) case Ok(handlers) => handlers case Err(_) => [])
  }

  /** The handlers of all middlewares, first to last. */
  function HandlersOf(ms: seq<Middleware>, input: Input): seq<Handler> {
    if ms == [] then [] else Adds(ms[0], input) + HandlersOf(ms[1..], input)
  }

  lemma {:induction false} HandlersSnoc(ms: seq<Middleware>, m: Middleware, input: Input)
    ensures HandlersOf(ms + [m], input) == HandlersOf(ms, input) + Adds(m, input)
  {
    if ms == [] {
      assert ms + [m] == [m] && [m][1..] == [];
    } else {
      assert (ms + [m])[1..] == ms[1..] + [m];
      HandlersSnoc(ms[1..], m, input);
    }
  }

  /** A built route carries the handlers of every middleware, in their order. */
  lemma {:induction false} BuildHandlers(ms: seq<Middleware>, input: Input)
    requires Build(ms, input).Ok?
    ensures Build(ms, input).value.handlers == HandlersOf(ms, input)
  {
    if ms != [] {
      var n := |ms| - 1;
      BuildHandlers(ms[..n], input);
      HandlersSnoc(ms[..n], ms[n], input);
      assert ms == ms[..n] + [ms[n]];
    }
  }

  /** The i-th generated route is the one built for the i-th input, with all its handlers. */
  lemma {:induction false} GeneratedBuilds(ms: seq<Middleware>, inputs: seq<Input>, i: nat)
    requires Generate(ms, inputs).Ok? && i < |inputs|
    ensures |Generate(ms, inputs).value| == |inputs| && Build(ms, inputs[i]) == Ok(Generate(ms, inputs).value[i])
    ensures Generate(ms, inputs).value[i].handlers == HandlersOf(ms, inputs[i])
    decreases |inputs|
  {
    var front := inputs[..|inputs| - 1];
    if |front| > 0 { GeneratedBuilds(ms, front, if i < |front| then i else 0); }
    BuildHandlers(ms, inputs[i]);
  }

  /** The reverse proxy adds one handler for a Service, passes its error on, and crashes on a Resource. */
  lemma ReverseProxyMeans(proxy: Input -> Result<Handler, string>, input: Input)
    ensures var m := ReverseProxy(proxy);
            && (input.path.backend.Resource? ==> MiddlewareFailure(m, input) == Some(Panic))
            && (input.path.backend.Service? && proxy(input).Err? ==>
              MiddlewareFailure(m, input) == Some(Error(proxy(input).error)))
            && (input.path.backend.Service? && proxy(input).Ok? ==>
              MiddlewareFailure(m, input).None? && Adds(m, input) == [proxy(input).value])
  {
  }

  // ---------- When generation fails ----------

  function MiddlewareFailure(m: Middleware, input: Input): Option<Failure> {
    match m
    case Matcher => None
    case Appender(handle) => (match handle(input) case Ok(_) => None case Err(e) => Some(e))
  }

  /** The n-th path is the first with a middleware that fails, and the j-th is the first of its
      middlewares to do so. */
  ghost predicate PathFails(ms: seq<Middleware>, inputs: seq<Input>, n: nat, j: nat, e: Failure) {
    && n < |inputs| && j < |ms| && MiddlewareFailure(ms[j], inputs[n]) == Some(e)
    && (forall i :: 0 <= i < j ==> MiddlewareFailure(ms[i], inputs[n]).None?)
    && (forall m :: 0 <= m < n ==> Clears(ms, inputs[m]))
  }

  /** No middleware fails on the path. */
  ghost predicate Clears(ms: seq<Middleware>, input: Input) {
    forall i :: 0 <= i < |ms| ==> MiddlewareFailure(ms[i], input).None?
  }

  lemma {:induction false} BuildFails(ms: seq<Middleware>, input: Input) returns (j: nat)
    ensures Build(ms, input).Ok? <==> Clears(ms, input)
    ensures Build(ms, input).Err? ==>
              && j < |ms| && MiddlewareFailure(ms[j], input) == Some(Build(ms, input).error)
              && forall i :: 0 <= i < j ==> MiddlewareFailure(ms[i], input).None?
  {
    if ms == [] {
      j := 0;
    } else {
      var n := |ms| - 1;
      j := BuildFails(ms[..n], input);
      if Build(ms[..n], input).Ok? {
        assert forall i :: 0 <= i < n ==> MiddlewareFailure(ms[..n][i], input).None?;
        j := n;
      }
    }
  }

  lemma {:induction false} GenerateFailsAt(ms: seq<Middleware>, inputs: seq<Input>) returns (n: nat, j: nat)
    ensures Generate(ms, inputs).Ok? ==> forall m :: 0 <= m < |inputs| ==> Clears(ms, inputs[m])
    ensures Generate(ms, inputs).Err? ==> PathFails(ms, inputs, n, j, Generate(ms, inputs).error)
  {
    if inputs == [] {
      n, j := 0, 0;
    } else {
      var last := |inputs| - 1;
      n, j := GenerateFailsAt(ms, inputs[..last]);
      if Generate(ms, inputs[..last]).Ok? {
        assert forall m :: 0 <= m < last ==> Clears(ms, inputs[..last][m]);
        n := last;
        j := BuildFails(ms, inputs[last]);
      }
    }
  }

  lemma PathFailsOnce(ms: seq<Middleware>, inputs: seq<Input>, n: nat, j: nat, e: Failure, m: nat, i: nat, f: Failure)
    requires PathFails(ms, inputs, n, j, e) && PathFails(ms, inputs, m, i, f)
    ensures e == f
  {
    assert !Clears(ms, inputs[n]) && !Clears(ms, inputs[m]);
  }

  /** Generation fails with e if and only if the first path on which a middleware fails makes its first
      such middleware fail with e. */
  lemma {:induction false} GenerateFailsExactly(ms: seq<Middleware>, inputs: seq<Input>, e: Failure)
    ensures Generate(ms, inputs) == Err(e) <==> exists n: nat, j: nat :: PathFails(ms, inputs, n, j, e)
    ensures Generate(ms, inputs).Ok? <==> forall m :: 0 <= m < |inputs| ==> Clears(ms, inputs[m])
  {
    var n, j := GenerateFailsAt(ms, inputs);
    if m: nat, i: nat :| PathFails(ms, inputs, m, i, e) {
      assert !Clears(ms, inputs[m]);
      PathFailsOnce(ms, inputs, m, i, e, n, j, Generate(ms, inputs).error);
    }
    if Generate(ms, inputs).Err? {
      assert !Clears(ms, inputs[n]);
    }
  }

  // ---------- What a generated route looks like ----------

  /** The matcher is the k-th middleware, and no other. */
  predicate MatcherAt(ms: seq<Middleware>, k: nat) {
    k < |ms| && ms[k].Matcher? && forall j :: 0 <= j < |ms| && j != k ==> !ms[j].Matcher?
  }

  ghost predicate OneMatcher(ms: seq<Middleware>) {
    exists k: nat :: MatcherAt(ms, k)
  }

  function Matchers(ms: seq<Middleware>, input: Input): seq<MatcherSet> {
    if ms == [] then []
    else Matchers(ms[..|ms| - 1], input) + (if ms[|ms| - 1].Matcher? then [MatcherFor(input)] else [])
  }

  lemma {:induction false} BuildMatchers(ms: seq<Middleware>, input: Input)
    requires Build(ms, input).Ok?
    ensures Build(ms, input).value.matcherSets == Matchers(ms, input)
  {
    if ms != [] { BuildMatchers(ms[..|ms| - 1], input); }
  }

  lemma {:induction false} NoMatchers(ms: seq<Middleware>, input: Input)
    requires forall j :: 0 <= j < |ms| ==> !ms[j].Matcher?
    ensures Matchers(ms, input) == []
  {
    if ms != [] { NoMatchers(ms[..|ms| - 1], input); }
  }

  lemma {:induction false} OneMatcherSet(ms: seq<Middleware>, input: Input, k: nat)
    requires MatcherAt(ms, k)
    ensures Matchers(ms, input) == [MatcherFor(input)]
  {
    if k == |ms| - 1 {
      NoMatchers(ms[..|ms| - 1], input);
    } else {
      OneMatcherSet(ms[..|ms| - 1], input, k);
    }
  }

  /** Each route carries exactly the matcher of its input, in order. */
  lemma {:induction false} GeneratedRoutes(ms: seq<Middleware>, inputs: seq<Input>, i: nat)
    requires OneMatcher(ms) && Generate(ms, inputs).Ok? && i < |inputs|
    ensures |Generate(ms, inputs).value| == |inputs|
    ensures Generate(ms, inputs).value[i].matcherSets == [MatcherFor(inputs[i])]
    decreases |inputs|
  {
    var front := inputs[..|inputs| - 1];
    if |front| > 0 { GeneratedRoutes(ms, front, if i < |front| then i else 0); }
    if i == |inputs| - 1 {
      var k: nat :| MatcherAt(ms, k);
      BuildMatchers(ms, inputs[i]);
      OneMatcherSet(ms, inputs[i], k);
    }
  }
}
