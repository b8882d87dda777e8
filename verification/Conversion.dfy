/** Rendering the store into a Caddy configuration, plugin by plugin. */
module Conversion {
  import opened Wrappers
  import opened Resources
  import opened Sorting
  import opened Routes
  import opened RouteOrder
  import Plugins

  datatype ConfigMapOptions = ConfigMapOptions(smartSort: bool, others: string)

  /** What conversion reads of the store. */
  datatype StoreView = StoreView(ingresses: seq<Ingress>, configMap: Option<ConfigMapOptions>)

  /** The configuration: the routes of the ingress server, and what the other plugins contribute. */
  datatype Config = Config(routes: seq<RouteValue>, contributions: seq<string>)

  /** A global plugin: the route generator, the route sorter, or one that leaves those routes alone. */
  datatype Global = RouteGenerator | RouteSorter | Contributor(contribute: StoreView -> Result<string, Failure>)

  datatype Instance = GlobalPlugin(global: Global) | IngressPlugin(middleware: Middleware)

  /** The ingress middlewares among the plugins, in plugin order. */
  function Middlewares(ps: seq<Instance>): seq<Middleware> {
    if ps == [] then []
    else Middlewares(ps[..|ps| - 1]) + (if ps[|ps| - 1].IngressPlugin? then [ps[|ps| - 1].middleware] else [])
  }

  predicate AllSortable(routes: seq<RouteValue>) {
    forall i :: 0 <= i < |routes| ==> Sortable(routes[i])
  }

  /** The sorter's configuration; ConfigMap options are dereferenced unchecked. */
  function SortedConfig(cfg: Config, configMap: Option<ConfigMapOptions>): Result<Config, Failure> {
    if configMap.None? then Err(Panic)
    else if !configMap.value.smartSort then Ok(cfg)
    else if |cfg.routes| > 1 && !AllSortable(cfg.routes) then Err(Panic)
    else Ok(cfg.(routes := StableSort(RouteLess, cfg.routes)))
  }

  /** The sorter crashes exactly without a ConfigMap, or where smart sort compares a route it cannot read. */
  lemma SorterCrashesExactly(cfg: Config, configMap: Option<ConfigMapOptions>)
    ensures SortedConfig(cfg, configMap) == Err(Panic) <==>
            || configMap.None?
            || (configMap.value.smartSort && |cfg.routes| >= 2 &&
              exists i :: 0 <= i < |cfg.routes| && !Sortable(cfg.routes[i]))
    ensures SortedConfig(cfg, configMap).Err? ==> SortedConfig(cfg, configMap) == Err(Panic)
  {
  }

  /** One plugin applied to the configuration so far. */
  function RunPlugin(p: Instance, ms: seq<Middleware>, cfg: Config, store: StoreView): Result<Config, Failure> {
    match p
    case IngressPlugin(_) => Ok(cfg)
    case GlobalPlugin(RouteGenerator) =>
      (match Generate(ms, Inputs(store.ingresses))
       case Ok(routes) => Ok(cfg.(routes := routes))
       case Err(e) => Err(e))
    case GlobalPlugin(RouteSorter) =>
      SortedConfig(cfg, store.configMap)
    case GlobalPlugin(Contributor(contribute)) =>
      (match contribute(store)
       case Ok(c) => Ok(cfg.(contributions := cfg.contributions + [c]))
       case Err(e) => Err(e))
  }

  /** The configuration after a prefix of the plugins, or the first failure. */
  function Render(ps: seq<Instance>, ms: seq<Middleware>, store: StoreView): Result<Config, Failure> {
    if ps == [] then Ok(Config([], []))
    else match Render(ps[..|ps| - 1], ms, store)
         case Ok(cfg) => RunPlugin(ps[|ps| - 1], ms, cfg, store)
         case Err(e) => Err(e)
  }

  function Convert(ps: seq<Instance>, store: StoreView): Result<Config, Failure> {
    Render(ps, Middlewares(ps), store)
  }

  lemma {:induction false} RenderStops(ps: seq<Instance>, rest: seq<Instance>, ms: seq<Middleware>, store: StoreView)
    requires Render(ps, ms, store).Err?
    ensures Render(ps + rest, ms, store) == Render(ps, ms, store)
    decreases |rest|
  {
    if rest == [] {
      assert ps + rest == ps;
    } else {
      RenderStops(ps, rest[..|rest| - 1], ms, store);
      assert (ps + rest)[..|ps + rest| - 1] == ps + rest[..|rest| - 1];
    }
  }

  /** The GlobalHandler of one plugin. */
  method RunGlobal(p: Global, ms: seq<Middleware>, cfg: Config, store: StoreView) returns (r: Result<Config, Failure>)
    ensures r == RunPlugin(GlobalPlugin(p), ms, cfg, store)
  {
    if p.RouteGenerator? {
      var routes := GenerateRoutes(ms, store.ingresses);
      return if routes.Ok? then Ok(cfg.(routes := routes.value)) else Err(routes.error);
    }
    if p.RouteSorter? {
      r := RunSorter(cfg, store.configMap);
      return;
    }
    var c := p.contribute(store);
    return if c.Ok? then Ok(cfg.(contributions := cfg.contributions + [c.value])) else Err(c.error);
  }

  method RunSorter(cfg: Config, configMap: Option<ConfigMapOptions>) returns (r: Result<Config, Failure>)
    ensures r == SortedConfig(cfg, configMap)
  {
    if configMap.None? { return Err(Panic); }
    var smartSort := configMap.value.smartSort;
    if smartSort && |cfg.routes| > 1 && !AllSortable(cfg.routes) { return Err(Panic); }
    var routes := new RouteValue[|cfg.routes|](i requires 0 <= i < |cfg.routes| => cfg.routes[i]);
    assert routes[..] == cfg.routes;
    SortIngressRoutes(smartSort, routes);
    return Ok(cfg.(routes := routes[..]));
  }

  /** Runs the global plugins in order on one configuration and stops at the first failure. */
  method ConvertToCaddyConfig(ps: seq<Instance>, store: StoreView) returns (r: Result<Config, Failure>)
    ensures r == Convert(ps, store)
  {
    var ms := Middlewares(ps);
    var cfg := Config([], []);
    for i := 0 to |ps|
      invariant Render(ps[..i], ms, store) == Ok(cfg)
    {
      assert ps[..i + 1][..i] == ps[..i];
      if ps[i].GlobalPlugin? {
        var next := RunGlobal(ps[i].global, ms, cfg, store);
        if next.Err? {
          RenderStops(ps[..i + 1], ps[i + 1..], ms, store);
          assert ps == ps[..i + 1] + ps[i + 1..];
          return next;
        }
        cfg := next.value;
      }
    }
    assert ps[..|ps|] == ps;
    return Ok(cfg);
  }

  // ---------- What the plugins contribute ----------

  /** What one plugin adds to the configuration besides routes. */
  function Gives(p: Instance, store: StoreView): seq<string> {
    match p
    case GlobalPlugin(Contributor(contribute)) => (match contribute(store) case Ok(c) => [c] case Err(_) => [])
    case _ => []
  }

  /** The contributions of all plugins, first to last. */
  function AllGives(ps: seq<Instance>, store: StoreView): seq<string> {
    if ps == [] then [] else Gives(ps[0], store) + AllGives(ps[1..], store)
  }

  lemma {:induction false} AllGivesSnoc(ps: seq<Instance>, p: Instance, store: StoreView)
    ensures AllGives(ps + [p], store) == AllGives(ps, store) + Gives(p, store)
  {
    if ps == [] {
      assert ps + [p] == [p] && [p][1..] == [];
    } else {
      assert (ps + [p])[1..] == ps[1..] + [p];
      AllGivesSnoc(ps[1..], p, store);
    }
  }

  lemma {:induction false} RenderGives(ps: seq<Instance>, ms: seq<Middleware>, store: StoreView)
    requires Render(ps, ms, store).Ok?
    ensures Render(ps, ms, store).value.contributions == AllGives(ps, store)
  {
    if ps != [] {
      var n := |ps| - 1;
      RenderGives(ps[..n], ms, store);
      AllGivesSnoc(ps[..n], ps[n], store);
      assert ps == ps[..n] + [ps[n]];
    }
  }

  /** The configuration keeps what every plugin contributes, in plugin order. */
  lemma ContributionsKept(ps: seq<Instance>, store: StoreView)
    requires Convert(ps, store).Ok?
    ensures Convert(ps, store).value.contributions == AllGives(ps, store)
  {
    RenderGives(ps, Middlewares(ps), store);
  }

  /** The middleware of an ingress plugin. */
  function Own(p: Instance): seq<Middleware> {
    if p.IngressPlugin? then [p.middleware] else []
  }

  function OwnAll(ps: seq<Instance>): seq<Middleware> {
    if ps == [] then [] else Own(ps[0]) + OwnAll(ps[1..])
  }

  lemma {:induction false} OwnAllSnoc(ps: seq<Instance>, p: Instance)
    ensures OwnAll(ps + [p]) == OwnAll(ps) + Own(p)
  {
    if ps == [] {
      assert ps + [p] == [p] && [p][1..] == [];
    } else {
      assert (ps + [p])[1..] == ps[1..] + [p];
      OwnAllSnoc(ps[1..], p);
    }
  }

  /** The middlewares are those of the ingress plugins, first to last. */
  lemma {:induction false} MiddlewaresInOrder(ps: seq<Instance>)
    ensures Middlewares(ps) == OwnAll(ps)
  {
    if ps != [] {
      var n := |ps| - 1;
      MiddlewaresInOrder(ps[..n]);
      OwnAllSnoc(ps[..n], ps[n]);
      assert ps == ps[..n] + [ps[n]];
    }
  }

  // ---------- What becomes of the routes ----------

  predicate Generator(p: Instance) { p.GlobalPlugin? && p.global.RouteGenerator? }

  predicate Sorter(p: Instance) { p.GlobalPlugin? && p.global.RouteSorter? }

  /** The generator and the sorter are registered once each, at these positions. */
  predicate PlacedAt(ps: seq<Instance>, gen: nat, sorter: nat) {
    && gen < |ps| && sorter < |ps|
    && (forall j :: 0 <= j < |ps| ==> (Generator(ps[j]) <==> j == gen))
    && (forall j :: 0 <= j < |ps| ==> (Sorter(ps[j]) <==> j == sorter))
  }

  predicate LeavesRoutes(p: Instance) {
    p.IngressPlugin? || p.global.Contributor?
  }

  lemma {:induction false} RoutesStay(ps: seq<Instance>, n: nat, ms: seq<Middleware>, store: StoreView)
    requires n <= |ps| && Render(ps, ms, store).Ok?
    requires forall j :: n <= j < |ps| ==> LeavesRoutes(ps[j])
    ensures Render(ps[..n], ms, store).Ok?
    ensures Render(ps, ms, store).value.routes == Render(ps[..n], ms, store).value.routes
    decreases |ps|
  {
    if n == |ps| {
      assert ps[..n] == ps;
    } else {
      RoutesStay(ps[..|ps| - 1], n, ms, store);
      assert ps[..|ps| - 1][..n] == ps[..n];
    }
  }

  lemma {:induction false} PrefixRenders(ps: seq<Instance>, n: nat, ms: seq<Middleware>, store: StoreView)
    requires n <= |ps| && Render(ps, ms, store).Ok?
    ensures Render(ps[..n], ms, store).Ok?
    decreases |ps|
  {
    if n == |ps| {
      assert ps[..n] == ps;
    } else {
      PrefixRenders(ps[..|ps| - 1], n, ms, store);
      assert ps[..|ps| - 1][..n] == ps[..n];
    }
  }

  /** The state of the routes right after the plugin at position k. */
  lemma AfterPlugin(ps: seq<Instance>, k: nat, ms: seq<Middleware>, store: StoreView)
    requires k < |ps| && Render(ps, ms, store).Ok?
    ensures Render(ps[..k], ms, store).Ok? && Render(ps[..k + 1], ms, store).Ok?
    ensures RunPlugin(ps[k], ms, Render(ps[..k], ms, store).value, store) == Render(ps[..k + 1], ms, store)
  {
    PrefixRenders(ps, k, ms, store);
    PrefixRenders(ps, k + 1, ms, store);
    assert ps[..k + 1][..k] == ps[..k];
  }

  /** The rendered routes are the generated ones, sorted if and only if smart sort is on and the
      sorter runs after the generator. */
  lemma RenderedRoutes(ps: seq<Instance>, store: StoreView, gen: nat, sorter: nat)
    requires PlacedAt(ps, gen, sorter) && Convert(ps, store).Ok?
    ensures Generate(Middlewares(ps), Inputs(store.ingresses)).Ok? && store.configMap.Some?
    ensures var generated := Generate(Middlewares(ps), Inputs(store.ingresses)).value;
            Convert(ps, store).value.routes ==
              if store.configMap.value.smartSort && gen < sorter then StableSort(RouteLess, generated) else generated
  {
    var ms := Middlewares(ps);
    AfterPlugin(ps, gen, ms, store);
    AfterPlugin(ps, sorter, ms, store);
    var generated := Generate(ms, Inputs(store.ingresses)).value;
    assert Render(ps[..gen + 1], ms, store).value.routes == generated;
    if gen < sorter {
      RoutesStay(ps[..sorter], gen + 1, ms, store);
      assert ps[..sorter][..gen + 1] == ps[..gen + 1];
      RoutesStay(ps, sorter + 1, ms, store);
    } else {
      RoutesStay(ps, gen + 1, ms, store);
    }
  }

  /** The shipped sorter runs after the shipped generator, whatever else is registered, if and only
      if the order list does not put the sorter's name after the generator's. */
  lemma SorterRunsLastExactly(order: seq<string>, walk: seq<Plugins.PluginInfo>, i: nat, j: nat)
    requires i < |Plugins.Sequence(order, walk)| && j < |Plugins.Sequence(order, walk)|
    requires Plugins.Sequence(order, walk)[i] == Plugins.PluginInfo("ingress", 0)
    requires Plugins.Sequence(order, walk)[j] == Plugins.PluginInfo("ingress_sort", -2)
    ensures i < j <==> Plugins.OrderIndex(order, "ingress") >= Plugins.OrderIndex(order, "ingress_sort")
  {
    var x, y := Plugins.PluginInfo("ingress", 0), Plugins.PluginInfo("ingress_sort", -2);
    Plugins.RunsEarlierExactly(order, walk, x, y, i, j);
  }

  /** The w-th route is the one generated for the k-th path of the store, which wins the request. */
  ghost predicate LongestMatch(ps: seq<Instance>, store: StoreView, routes: seq<RouteValue>, hostAccepts: HostMatch,
                               req: Request, w: nat, k: nat) {
    var inputs := Inputs(store.ingresses);
    var generated := Generate(Middlewares(ps), inputs);
    && generated.Ok? && Winner(hostAccepts, inputs, generated.value, req, k)
    && w < |routes| && routes[w] == generated.value[k]
  }

  /** In the rendered configuration the first route that takes a request is a longest match among
      the current ingresses. */
  lemma RenderedLongestMatch(ps: seq<Instance>, store: StoreView, gen: nat, sorter: nat,
                             hostAccepts: HostMatch, req: Request, w: nat)
    returns (k: nat)
    requires PlacedAt(ps, gen, sorter) && gen < sorter
    requires Convert(ps, store).Ok? && store.configMap.Some? && store.configMap.value.smartSort
    requires OneMatcher(Middlewares(ps))
    requires IsFirst(Acceptor(hostAccepts, req), Convert(ps, store).value.routes, w)
    ensures LongestMatch(ps, store, Convert(ps, store).value.routes, hostAccepts, req, w, k)
  {
    RenderedRoutes(ps, store, gen, sorter);
    k := LongestMatchWins(Middlewares(ps), Inputs(store.ingresses), hostAccepts, req, w);
  }

  // ---------- When conversion fails ----------

  /** What a plugin fails with on a store, whatever configuration it is given. */
  function PluginFailure(p: Instance, ms: seq<Middleware>, store: StoreView): Option<Failure> {
    match p
    case IngressPlugin(_) => None
    case GlobalPlugin(RouteGenerator) =>
      (match Generate(ms, Inputs(store.ingresses)) case Ok(_) => None case Err(e) => Some(e))
    case GlobalPlugin(RouteSorter) => if store.configMap.None? then Some(Panic) else None
    case GlobalPlugin(Contributor(contribute)) => (match contribute(store) case Ok(_) => None case Err(e) => Some(e))
  }

  lemma GeneratedAllSortable(ms: seq<Middleware>, inputs: seq<Input>)
    requires OneMatcher(ms) && Generate(ms, inputs).Ok?
    ensures AllSortable(Generate(ms, inputs).value)
  {
    GenerateLength(ms, inputs);
    forall i | 0 <= i < |inputs| ensures Sortable(Generate(ms, inputs).value[i]) {
      GeneratedSortable(ms, inputs, i);
    }
  }

  /** Every route that reaches the sort has the path list it reads, so no plugin fails for what an
      earlier one did. */
  lemma PluginFails(p: Instance, ms: seq<Middleware>, cfg: Config, store: StoreView)
    requires OneMatcher(ms) && AllSortable(cfg.routes)
    ensures PluginFailure(p, ms, store).Some? ==> RunPlugin(p, ms, cfg, store) == Err(PluginFailure(p, ms, store).value)
    ensures PluginFailure(p, ms, store).None? ==>
              RunPlugin(p, ms, cfg, store).Ok? && AllSortable(RunPlugin(p, ms, cfg, store).value.routes)
  {
    if Generator(p) {
      if Generate(ms, Inputs(store.ingresses)).Ok? { GeneratedAllSortable(ms, Inputs(store.ingresses)); }
    } else if Sorter(p) {
      var sorted := StableSort(RouteLess, cfg.routes);
      forall i | 0 <= i < |sorted| ensures Sortable(sorted[i]) {
        SortMembers(RouteLess, cfg.routes, sorted[i]);
      }
    }
  }

  /** The first plugin that fails, if any. */
  function FirstFailure(ps: seq<Instance>, ms: seq<Middleware>, store: StoreView): Option<Failure> {
    if ps == [] then None
    else if FirstFailure(ps[..|ps| - 1], ms, store).Some? then FirstFailure(ps[..|ps| - 1], ms, store)
    else PluginFailure(ps[|ps| - 1], ms, store)
  }

  lemma {:induction false} RenderFails(ps: seq<Instance>, ms: seq<Middleware>, store: StoreView)
    requires OneMatcher(ms)
    ensures FirstFailure(ps, ms, store).Some? ==> Render(ps, ms, store) == Err(FirstFailure(ps, ms, store).value)
    ensures FirstFailure(ps, ms, store).None? ==>
              Render(ps, ms, store).Ok? && AllSortable(Render(ps, ms, store).value.routes)
  {
    if ps != [] {
      var front := ps[..|ps| - 1];
      RenderFails(front, ms, store);
      if FirstFailure(front, ms, store).None? {
        PluginFails(ps[|ps| - 1], ms, Render(front, ms, store).value, store);
      }
    }
  }

  /** The plugin at i fails with e, and none before it does. */
  ghost predicate FailsFirst(ps: seq<Instance>, ms: seq<Middleware>, store: StoreView, i: nat, e: Failure) {
    && i < |ps| && PluginFailure(ps[i], ms, store) == Some(e)
    && forall j :: 0 <= j < i ==> PluginFailure(ps[j], ms, store).None?
  }

  lemma {:induction false} FirstFailureAt(ps: seq<Instance>, ms: seq<Middleware>, store: StoreView) returns (i: nat)
    ensures FirstFailure(ps, ms, store).Some? ==> FailsFirst(ps, ms, store, i, FirstFailure(ps, ms, store).value)
    ensures FirstFailure(ps, ms, store).None? ==> forall j :: 0 <= j < |ps| ==> PluginFailure(ps[j], ms, store).None?
  {
    if ps == [] {
      i := 0;
    } else {
      i := FirstFailureAt(ps[..|ps| - 1], ms, store);
      if FirstFailure(ps[..|ps| - 1], ms, store).None? { i := |ps| - 1; }
    }
  }

  /** The same, with the ingress middlewares of the plugins themselves. */
  ghost predicate FirstToFail(ps: seq<Instance>, store: StoreView, i: nat, e: Failure) {
    FailsFirst(ps, Middlewares(ps), store, i, e)
  }

  /** Conversion fails with e if and only if the first plugin to fail on the store fails with e. */
  lemma {:induction false} ConversionFailsExactly(ps: seq<Instance>, store: StoreView, e: Failure)
    requires OneMatcher(Middlewares(ps))
    ensures Convert(ps, store) == Err(e) <==> exists i: nat :: FirstToFail(ps, store, i, e)
    ensures Convert(ps, store).Ok? <==> forall i :: 0 <= i < |ps| ==> PluginFailure(ps[i], Middlewares(ps), store).None?
  {
    var ms := Middlewares(ps);
    RenderFails(ps, ms, store);
    var at := FirstFailureAt(ps, ms, store);
    if i: nat :| FirstToFail(ps, store, i, e) {
      FailsOnce(ps, ms, store, i, e, at);
    } else if Convert(ps, store) == Err(e) {
      assert FirstToFail(ps, store, at, e);
    }
  }

  lemma FailsOnce(ps: seq<Instance>, ms: seq<Middleware>, store: StoreView, i: nat, e: Failure, at: nat)
    requires FailsFirst(ps, ms, store, i, e)
    requires FirstFailure(ps, ms, store).Some? ==> FailsFirst(ps, ms, store, at, FirstFailure(ps, ms, store).value)
    requires FirstFailure(ps, ms, store).None? ==> forall j :: 0 <= j < |ps| ==> PluginFailure(ps[j], ms, store).None?
    ensures FirstFailure(ps, ms, store) == Some(e)
  {
    assert at < i ==> PluginFailure(ps[at], ms, store).None?;
  }

  /** Nothing but a missing ConfigMap makes a plugin fail. */
  ghost predicate Smooth(ps: seq<Instance>, store: StoreView) {
    forall i :: 0 <= i < |ps| && PluginFailure(ps[i], Middlewares(ps), store).Some? ==>
      store.configMap.None? && PluginFailure(ps[i], Middlewares(ps), store) == Some(Panic)
  }

  /** Then conversion crashes if and only if the ConfigMap is absent and the sorter, or another plugin
      that reads it unchecked, is registered. */
  lemma ConversionCrashesExactly(ps: seq<Instance>, store: StoreView)
    requires OneMatcher(Middlewares(ps)) && Smooth(ps, store)
    ensures Convert(ps, store) == Err(Panic) <==>
            && store.configMap.None?
            && exists i :: 0 <= i < |ps| &&
                 (Sorter(ps[i]) || PluginFailure(ps[i], Middlewares(ps), store) == Some(Panic))
    ensures Convert(ps, store) != Err(Panic) ==> Convert(ps, store).Ok?
  {
    RenderFails(ps, Middlewares(ps), store);
    var at := FirstFailureAt(ps, Middlewares(ps), store);
  }

  /** The plugin at r crashes on a store without a ConfigMap, before any other fails without crashing;
      and no plugin crashes on a store that has one. */
  ghost predicate CrashesAt(ps: seq<Instance>, store: StoreView, r: nat) {
    && r < |ps|
    && (store.configMap.None? ==>
      && PluginFailure(ps[r], Middlewares(ps), store) == Some(Panic)
      && forall j :: 0 <= j < r && PluginFailure(ps[j], Middlewares(ps), store).Some? ==>
        PluginFailure(ps[j], Middlewares(ps), store) == Some(Panic))
    && (store.configMap.Some? ==>
      forall j :: 0 <= j < |ps| ==> PluginFailure(ps[j], Middlewares(ps), store) != Some(Panic))
  }

  /** Then conversion crashes if and only if the ConfigMap is absent, whatever else fails. */
  lemma MissingConfigMapCrashes(ps: seq<Instance>, store: StoreView, r: nat)
    requires OneMatcher(Middlewares(ps)) && CrashesAt(ps, store, r)
    ensures Convert(ps, store) == Err(Panic) <==> store.configMap.None?
  {
    RenderFails(ps, Middlewares(ps), store);
    var at := FirstFailureAt(ps, Middlewares(ps), store);
  }

  /** The plugins other than the generator and the sorter do not crash. */
  ghost predicate Harmless(ps: seq<Instance>, store: StoreView) {
    forall i :: 0 <= i < |ps| && ps[i].GlobalPlugin? && ps[i].global.Contributor? ==>
      ps[i].global.contribute(store) != Err(Panic)
  }

  /** With a ConfigMap in the store, conversion crashes only if another plugin does, or a middleware on
      some path. */
  lemma ConversionNeverPanics(ps: seq<Instance>, store: StoreView)
    requires OneMatcher(Middlewares(ps)) && store.configMap.Some? && Harmless(ps, store)
    requires Generate(Middlewares(ps), Inputs(store.ingresses)) != Err(Panic)
    ensures Convert(ps, store) != Err(Panic)
  {
    RenderFails(ps, Middlewares(ps), store);
    var at := FirstFailureAt(ps, Middlewares(ps), store);
  }

  /** The plugins other than the generator and the sorter do not fail at all. */
  ghost predicate Quiescent(ps: seq<Instance>, store: StoreView) {
    forall i :: 0 <= i < |ps| && ps[i].GlobalPlugin? && ps[i].global.Contributor? ==> ps[i].global.contribute(store).Ok?
  }

  /** The j-th middleware crashes on the n-th path, and nothing fails before that. */
  ghost predicate PathCrashes(ps: seq<Instance>, store: StoreView, n: nat, j: nat) {
    PathFails(Middlewares(ps), Inputs(store.ingresses), n, j, Panic)
  }

  /** With a ConfigMap in the store and only the generator to fail, conversion crashes if and only if the
      first path on which a middleware fails makes its first such middleware crash. */
  lemma {:induction false} GenerationCrashesExactly(ps: seq<Instance>, store: StoreView)
    requires OneMatcher(Middlewares(ps)) && store.configMap.Some? && Quiescent(ps, store)
    requires exists i :: 0 <= i < |ps| && Generator(ps[i])
    ensures Convert(ps, store) == Err(Panic) <==> exists n: nat, j: nat :: PathCrashes(ps, store, n, j)
  {
    var ms, inputs := Middlewares(ps), Inputs(store.ingresses);
    RenderFails(ps, ms, store);
    var at := FirstFailureAt(ps, ms, store);
    var gen :| 0 <= gen < |ps| && Generator(ps[gen]);
    assert Generate(ms, inputs) == Err(Panic) <==> Convert(ps, store) == Err(Panic) by {
      if FirstFailure(ps, ms, store).None? { assert PluginFailure(ps[gen], ms, store).None?; }
    }
    GenerateFailsExactly(ms, inputs, Panic);
    if n: nat, j: nat :| PathFails(ms, inputs, n, j, Panic) { assert PathCrashes(ps, store, n, j); }
    if n: nat, j: nat :| PathCrashes(ps, store, n, j) { assert PathFails(ms, inputs, n, j, Panic); }
  }

  /** A path with a Resource backend crashes the reverse proxy, so the store needs no missing ConfigMap
      to crash conversion: one such path is enough. */
  lemma ResourceBackendCrashes(proxy: Input -> Result<Handler, string>, ing: Ingress, rule: Rule, path: HTTPPath,
                               options: ConfigMapOptions)
    requires path.backend.Resource? && rule.paths == [path] && ing.rules == [rule]
    ensures var ps := [IngressPlugin(Matcher), IngressPlugin(ReverseProxy(proxy)), GlobalPlugin(RouteGenerator)];
            Convert(ps, StoreView([ing], Some(options))) == Err(Panic)
  {
    var ps := [IngressPlugin(Matcher), IngressPlugin(ReverseProxy(proxy)), GlobalPlugin(RouteGenerator)];
    var store := StoreView([ing], Some(options));
    OneInput(ing, rule, path);
    ThreePlugins(ps[0], ps[1], ps[2]);
    var ms, input := Middlewares(ps), Input(ing, rule, path);
    assert MatcherAt(ms, 0);
    assert MiddlewareFailure(ms[0], input).None? && MiddlewareFailure(ms[1], input) == Some(Panic);
    assert PathCrashes(ps, store, 0, 1);
    assert Generator(ps[2]);
    GenerationCrashesExactly(ps, store);
  }

  lemma OneInput(ing: Ingress, rule: Rule, path: HTTPPath)
    requires rule.paths == [path] && ing.rules == [rule]
    ensures Inputs([ing]) == [Input(ing, rule, path)]
  {
    var f := p => Input(ing, rule, p);
    MapIndex(f, [path]);
    assert Map(f, [path]) == [Input(ing, rule, path)];
    assert RuleInputs(ing, [rule]) == RuleInputs(ing, [rule][..0]) + PathInputs(ing, rule, [path]);
    assert Inputs([ing]) == Inputs([ing][..0]) + RuleInputs(ing, [rule]);
  }

  lemma ThreePlugins(a: Instance, b: Instance, c: Instance)
    requires a.IngressPlugin? && b.IngressPlugin? && c.GlobalPlugin?
    ensures Middlewares([a, b, c]) == [a.middleware, b.middleware]
  {
    assert [a, b, c][..2] == [a, b] && [a, b][..1] == [a] && [a][..0] == [];
    assert Middlewares([a]) == [a.middleware];
  }

  // ---------- The shipped plugins ----------

  predicate MatcherPlugin(p: Instance) { p.IngressPlugin? && p.middleware.Matcher? }

  /** The generator, the sorter and the matcher are registered under their names, each once. */
  ghost predicate Shipped(registry: map<string, Plugins.PluginInfo>, instances: map<string, Instance>) {
    && registry.Keys == instances.Keys && "ingress.matcher" in registry
    && "ingress" in registry && registry["ingress"] == Plugins.PluginInfo("ingress", 0)
    && "ingress_sort" in registry && registry["ingress_sort"] == Plugins.PluginInfo("ingress_sort", -2)
    && (forall name :: name in registry ==> registry[name].name == name)
    && (forall name :: name in instances ==> (Generator(instances[name]) <==> name == "ingress"))
    && (forall name :: name in instances ==> (Sorter(instances[name]) <==> name == "ingress_sort"))
    && (forall name :: name in instances ==> (MatcherPlugin(instances[name]) <==> name == "ingress.matcher"))
  }

  /** The instances of the given plugins, in their order. */
  ghost predicate InstancesOf(instances: map<string, Instance>, sorted: seq<Plugins.PluginInfo>, ps: seq<Instance>) {
    && |ps| == |sorted|
    && forall i :: 0 <= i < |ps| ==> sorted[i].name in instances && ps[i] == instances[sorted[i].name]
  }

  /** Each name of the registry has one position. */
  lemma PositionOf(order: seq<string>, registry: map<string, Plugins.PluginInfo>, walk: seq<Plugins.PluginInfo>,
                   name: string)
    returns (at: nat)
    requires Plugins.Walks(registry, walk) && name in registry && registry[name].name == name
    ensures var sorted := Plugins.Sequence(order, walk);
            && at < |sorted| && sorted[at] == registry[name]
            && forall i :: 0 <= i < |sorted| ==> (sorted[i].name == name <==> i == at)
  {
    var sorted := Plugins.Sequence(order, walk);
    SortMembers(Plugins.Comparator(order), walk, registry[name]);
    var k :| 0 <= k < |sorted| && sorted[k] == registry[name];
    at := k;
    forall i | 0 <= i < |sorted| && sorted[i].name == name ensures i == at {
      SortMembers(Plugins.Comparator(order), walk, sorted[i]);
      Plugins.RunsOnce(order, registry, walk, i, at);
    }
  }

  lemma {:induction false} MatcherAmong(ps: seq<Instance>, at: nat) returns (k: nat)
    requires at < |ps| && forall i :: 0 <= i < |ps| ==> (MatcherPlugin(ps[i]) <==> i == at)
    ensures MatcherAt(Middlewares(ps), k)
  {
    var front, n := ps[..|ps| - 1], |ps| - 1;
    assert MatcherPlugin(ps[n]) <==> n == at;
    if at < n {
      k := MatcherAmong(front, at);
    } else {
      NoMatcherAmong(front);
      k := |Middlewares(front)|;
    }
  }

  lemma {:induction false} NoMatcherAmong(ps: seq<Instance>)
    requires forall i :: 0 <= i < |ps| ==> !MatcherPlugin(ps[i])
    ensures forall j :: 0 <= j < |Middlewares(ps)| ==> !Middlewares(ps)[j].Matcher?
  {
    if ps != [] {
      assert !MatcherPlugin(ps[|ps| - 1]);
      NoMatcherAmong(ps[..|ps| - 1]);
    }
  }

  /** For every order list and every iteration of the registry map: the generator and the sorter run
      once each, and in that order if and only if the list does not put the sorter's name after the
      generator's. */
  lemma ShippedPlaces(order: seq<string>, registry: map<string, Plugins.PluginInfo>, instances: map<string, Instance>,
                      walk: seq<Plugins.PluginInfo>, ps: seq<Instance>)
    returns (gen: nat, sorter: nat)
    requires Shipped(registry, instances) && Plugins.Walks(registry, walk)
    requires InstancesOf(instances, Plugins.Sequence(order, walk), ps)
    ensures PlacedAt(ps, gen, sorter) && OneMatcher(Middlewares(ps))
    ensures gen < sorter <==> Plugins.OrderIndex(order, "ingress") >= Plugins.OrderIndex(order, "ingress_sort")
  {
    gen := PositionOf(order, registry, walk, "ingress");
    sorter := PositionOf(order, registry, walk, "ingress_sort");
    var matcher := PositionOf(order, registry, walk, "ingress.matcher");
    var k := MatcherAmong(ps, matcher);
    SorterRunsLastExactly(order, walk, gen, sorter);
  }

  /** Longest match, for the plugins of a registry: it needs nothing but smart sort and an order list
      that leaves the sorter after the generator. */
  lemma ShippedLongestMatch(order: seq<string>, registry: map<string, Plugins.PluginInfo>,
                            instances: map<string, Instance>, walk: seq<Plugins.PluginInfo>,
                            ps: seq<Instance>, store: StoreView,
                            hostAccepts: HostMatch, req: Request, w: nat)
    returns (k: nat)
    requires Shipped(registry, instances) && Plugins.Walks(registry, walk)
    requires InstancesOf(instances, Plugins.Sequence(order, walk), ps)
    requires Plugins.OrderIndex(order, "ingress") >= Plugins.OrderIndex(order, "ingress_sort")
    requires Convert(ps, store).Ok? && store.configMap.Some? && store.configMap.value.smartSort
    requires IsFirst(Acceptor(hostAccepts, req), Convert(ps, store).value.routes, w)
    ensures LongestMatch(ps, store, Convert(ps, store).value.routes, hostAccepts, req, w, k)
  {
    var gen, sorter := ShippedPlaces(order, registry, instances, walk, ps);
    k := RenderedLongestMatch(ps, store, gen, sorter, hostAccepts, req, w);
  }

  /** The plugins do not depend on the iteration of the registry map. */
  lemma PluginsDetermined(order: seq<string>, registry: map<string, Plugins.PluginInfo>,
                          instances: map<string, Instance>, one: seq<Plugins.PluginInfo>, ps: seq<Instance>,
                          other: seq<Plugins.PluginInfo>, qs: seq<Instance>)
    requires Plugins.Walks(registry, one) && InstancesOf(instances, Plugins.Sequence(order, one), ps)
    requires Plugins.Walks(registry, other) && InstancesOf(instances, Plugins.Sequence(order, other), qs)
    ensures ps == qs
  {
    Plugins.OrderDeterministic(order, registry, one, other);
  }
}
