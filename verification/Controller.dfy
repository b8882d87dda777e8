/** The controller's work loop: each item changes the store, then Caddy is reloaded unless the
    rendered configuration is the one applied last. */
module Controller {
  import opened Wrappers
  import opened Resources
  import opened Sorting
  import opened Routes
  import opened RouteOrder
  import opened Conversion
  import Plugins
  import IngressStore

  /** Work items, with the outcome of what they do outside the store. */
  datatype Action =
    | IngressAction(event: IngressStore.Event, tlsError: Option<string>)
    | ConfigMapSet(parsed: Result<ConfigMapOptions, string>)
    | ConfigMapDeleted
    | OutsideAction(error: Option<string>)

  /** An item as it is taken from the queue, and whether Caddy accepts the configuration it leads to. */
  datatype Item = Item(action: Action, loads: bool)

  datatype Outcome =
    | HandlerError(message: string)
    | ConvertError(message: string)
    | LoadError
    | Reloaded
    | Skipped
    | Crashed

  predicate ErrorFree(o: Outcome) { o.Reloaded? || o.Skipped? }

  /** The configuration Caddy runs is the environment's; the cache is the controller's. */
  datatype Cache = Cache(lastApplied: Option<Config>, running: Option<Config>)

  /** reloadCaddy, for a given rendering. A configuration Caddy refuses leaves the old one running. */
  function Reload(c: Cache, rendered: Result<Config, Failure>, loads: bool): (Cache, Outcome) {
    match rendered
    case Err(Panic) => (c, Crashed)
    case Err(Error(e)) => (c, ConvertError(e))
    case Ok(cfg) =>
      if c.lastApplied == Some(cfg) then (c, Skipped)
      else if !loads then (c, LoadError)
      else (Cache(Some(cfg), Some(cfg)), Reloaded)
  }

  /** The handler's effect on the ConfigMap options, and its error. */
  function ConfigMapAfter(cm: Option<ConfigMapOptions>, a: Action): Option<ConfigMapOptions> {
    match a
    case ConfigMapSet(Ok(options)) => Some(options)
    case ConfigMapDeleted => None
    case _ => cm
  }

  function HandlerFailure(a: Action): Option<string> {
    match a
    case IngressAction(event, e) => if event.Deleted? then None else e
    case ConfigMapSet(Err(e)) => Some(e)
    case OutsideAction(e) => e
    case _ => None
  }

  // ---------- Whole runs ----------

  /** A run as its items saw it: the store after each handler, and what the item came to. */
  datatype Moment = Moment(view: StoreView, cache: Cache, outcome: Outcome)

  /** One item, given the store its handler leaves. */
  predicate Follows(ps: seq<Instance>, before: Cache, item: Item, m: Moment) {
    if HandlerFailure(item.action).Some? then
      m.cache == before && m.outcome == HandlerError(HandlerFailure(item.action).value)
    else
      (m.cache, m.outcome) == Reload(before, Convert(ps, m.view), item.loads)
  }

  /** The cache an item finds after the given ones. */
  function CacheAfter(ms: seq<Moment>): Cache {
    if ms == [] then Cache(None, None) else ms[|ms| - 1].cache
  }

  /** The ConfigMap options an item finds after the given ones. */
  function ConfigMapOf(start: Option<ConfigMapOptions>, ms: seq<Moment>): Option<ConfigMapOptions> {
    if ms == [] then start else ms[|ms| - 1].view.configMap
  }

  /** The ingress events among the items. */
  function EventsOf(items: seq<Item>): seq<IngressStore.Event> {
    if items == [] then []
    else EventsOf(items[..|items| - 1])
         + (if items[|items| - 1].action.IngressAction? then [items[|items| - 1].action.event] else [])
  }

  /** The store of a moment is what the items made of it. */
  ghost predicate Shows(view: StoreView, before: Option<ConfigMapOptions>, items: seq<Item>)
    requires items != []
  {
    && view.configMap == ConfigMapAfter(before, items[|items| - 1].action)
    && IngressStore.Represents(view.ingresses, EventsOf(items))
  }

  predicate Going(ms: seq<Moment>) {
    ms != [] ==> !ms[|ms| - 1].outcome.Crashed?
  }

  /** The items of a run that starts with the given options; only the last may crash. */
  ghost predicate IsRun(ps: seq<Instance>, start: Option<ConfigMapOptions>, items: seq<Item>, ms: seq<Moment>)
    decreases |ms|
  {
    && |items| == |ms|
    && (ms != [] ==>
      var n := |ms| - 1;
      && IsRun(ps, start, items[..n], ms[..n]) && Going(ms[..n])
      && Follows(ps, CacheAfter(ms[..n]), items[n], ms[n])
      && Shows(ms[n].view, ConfigMapOf(start, ms[..n]), items))
  }

  lemma RunExtends(ps: seq<Instance>, start: Option<ConfigMapOptions>, items: seq<Item>, ms: seq<Moment>, item: Item,
                   m: Moment)
    requires IsRun(ps, start, items, ms) && Going(ms) && Follows(ps, CacheAfter(ms), item, m)
    requires Shows(m.view, ConfigMapOf(start, ms), items + [item])
    ensures IsRun(ps, start, items + [item], ms + [m])
  {
    assert (items + [item])[..|ms|] == items && (ms + [m])[..|ms|] == ms;
  }

  /** The last item that went through without an error. */
  function LastGood(ms: seq<Moment>): Option<Moment> {
    if ms == [] then None
    else if ErrorFree(ms[|ms| - 1].outcome) then Some(ms[|ms| - 1])
    else LastGood(ms[..|ms| - 1])
  }

  lemma ReloadKeepsCache(c: Cache, rendered: Result<Config, Failure>, loads: bool)
    requires c.running == c.lastApplied
    ensures var (d, outcome) := Reload(c, rendered, loads);
            && d.running == d.lastApplied
            && (ErrorFree(outcome) ==> rendered.Ok? && d.running == Some(rendered.value))
            && (!ErrorFree(outcome) ==> d == c)
  {
  }

  /** Over every run of items, failed loads and failed conversions included: what Caddy runs is what
      the cache says, and it is the rendering of the store at the last error-free item, even if
      that item's reload was skipped. */
  lemma {:induction false} ReloadSound(ps: seq<Instance>, start: Option<ConfigMapOptions>, items: seq<Item>,
                                       ms: seq<Moment>)
    requires IsRun(ps, start, items, ms)
    ensures CacheAfter(ms).running == CacheAfter(ms).lastApplied
    ensures LastGood(ms).None? ==> CacheAfter(ms).running == None
    ensures LastGood(ms).Some? ==>
              var rendered := Convert(ps, LastGood(ms).value.view);
              rendered.Ok? && CacheAfter(ms).running == Some(rendered.value)
    decreases |ms|
  {
    if ms != [] {
      var n := |ms| - 1;
      ReloadSound(ps, start, items[..n], ms[..n]);
      ReloadKeepsCache(CacheAfter(ms[..n]), Convert(ps, ms[n].view), items[n].loads);
    }
  }

  /** So after an error-free item, the first running route that takes a request is a longest match
      among the ingresses of that moment. */
  lemma RunningLongestMatch(ps: seq<Instance>, start: Option<ConfigMapOptions>, items: seq<Item>, ms: seq<Moment>,
                            now: Moment, gen: nat, sorter: nat, hostAccepts: HostMatch, req: Request, w: nat)
    returns (k: nat)
    requires IsRun(ps, start, items, ms) && ms != [] && now == ms[|ms| - 1] && ErrorFree(now.outcome)
    requires PlacedAt(ps, gen, sorter) && gen < sorter && OneMatcher(Middlewares(ps))
    requires now.view.configMap.Some? && now.view.configMap.value.smartSort
    requires now.cache.running.Some? ==> IsFirst(Acceptor(hostAccepts, req), now.cache.running.value.routes, w)
    ensures now.cache.running.Some?
    ensures LongestMatch(ps, now.view, now.cache.running.value.routes, hostAccepts, req, w, k)
  {
    ReloadSound(ps, start, items, ms);
    k := RenderedLongestMatch(ps, now.view, gen, sorter, hostAccepts, req, w);
  }

  /** The same for the plugins of a registry, whatever else is registered and however its map is
      iterated, if the order list leaves the sorter after the generator. */
  lemma ShippedRunningLongestMatch(order: seq<string>, registry: map<string, Plugins.PluginInfo>,
                                   instances: map<string, Instance>, walk: seq<Plugins.PluginInfo>,
                                   ps: seq<Instance>, start: Option<ConfigMapOptions>,
                                   items: seq<Item>, ms: seq<Moment>, now: Moment,
                                   hostAccepts: HostMatch, req: Request, w: nat)
    returns (k: nat)
    requires Shipped(registry, instances) && Plugins.Walks(registry, walk)
    requires InstancesOf(instances, Plugins.Sequence(order, walk), ps)
    requires Plugins.OrderIndex(order, "ingress") >= Plugins.OrderIndex(order, "ingress_sort")
    requires IsRun(ps, start, items, ms) && ms != [] && now == ms[|ms| - 1] && ErrorFree(now.outcome)
    requires now.view.configMap.Some? && now.view.configMap.value.smartSort
    requires now.cache.running.Some? ==> IsFirst(Acceptor(hostAccepts, req), now.cache.running.value.routes, w)
    ensures now.cache.running.Some?
    ensures LongestMatch(ps, now.view, now.cache.running.value.routes, hostAccepts, req, w, k)
    ensures IngressStore.Represents(now.view.ingresses, EventsOf(items))
  {
    var gen, sorter := ShippedPlaces(order, registry, instances, walk, ps);
    k := RunningLongestMatch(ps, start, items, ms, now, gen, sorter, hostAccepts, req, w);
  }

  // ---------- What an item comes to ----------

  /** What a handler reports: a failed watch after an added or updated ingress, a ConfigMap that does not
      parse, or an action outside the store that fails; deletions report nothing. */
  lemma HandlerFailsExactly(a: Action, message: string)
    ensures HandlerFailure(a) == Some(message) <==>
            || (exists ing, e :: a == IngressAction(IngressStore.Added(ing), e) && e == Some(message))
            || (exists ing, e :: a == IngressAction(IngressStore.Updated(ing), e) && e == Some(message))
            || a == ConfigMapSet(Err(message))
            || a == OutsideAction(Some(message))
  {
    if a.IngressAction? && HandlerFailure(a) == Some(message) {
      assert a == IngressAction(a.event, a.tlsError);
      if a.event.Added? {
        assert a.event == IngressStore.Added(a.event.ingress);
      } else {
        assert a.event == IngressStore.Updated(a.event.ingress);
      }
    }
  }

  /** Once the handler went through and conversion did, an item is error-free if and only if Caddy takes
      the configuration or already has it; the cache changes exactly when Caddy took a new one. */
  lemma ItemExactly(ps: seq<Instance>, before: Cache, item: Item, m: Moment)
    requires Follows(ps, before, item, m)
    ensures HandlerFailure(item.action).Some? ==>
              m.cache == before && m.outcome == HandlerError(HandlerFailure(item.action).value)
    ensures HandlerFailure(item.action).None? ==>
              && (m.outcome == Crashed <==> Convert(ps, m.view) == Err(Panic))
              && (forall e :: m.outcome == ConvertError(e) <==> Convert(ps, m.view) == Err(Error(e)))
    ensures HandlerFailure(item.action).None? && Convert(ps, m.view).Ok? ==>
              var known := before.lastApplied == Some(Convert(ps, m.view).value);
              && (ErrorFree(m.outcome) <==> item.loads || known)
              && (m.outcome == Skipped <==> known)
              && (m.outcome == Reloaded <==> item.loads && !known)
              && (m.outcome == LoadError <==> !item.loads && !known)
              && (m.outcome == Reloaded ==>
                m.cache == Cache(Some(Convert(ps, m.view).value), Some(Convert(ps, m.view).value)))
    ensures m.outcome != Reloaded ==> m.cache == before
  {
  }

  lemma {:induction false} RunItem(ps: seq<Instance>, start: Option<ConfigMapOptions>, items: seq<Item>,
                                   ms: seq<Moment>, i: nat)
    requires IsRun(ps, start, items, ms) && i < |ms|
    ensures Follows(ps, CacheAfter(ms[..i]), items[i], ms[i])
    ensures Shows(ms[i].view, ConfigMapOf(start, ms[..i]), items[..i + 1])
    decreases |ms|
  {
    var n := |ms| - 1;
    if i < n {
      RunItem(ps, start, items[..n], ms[..n], i);
      assert ms[..n][..i] == ms[..i] && items[..n][..i + 1] == items[..i + 1];
    } else {
      assert items[..i + 1] == items;
    }
  }

  /** The last configuration that Caddy took. */
  function LastTaken(ms: seq<Moment>): Option<Moment> {
    if ms == [] then None
    else if ms[|ms| - 1].outcome == Reloaded then Some(ms[|ms| - 1])
    else LastTaken(ms[..|ms| - 1])
  }

  /** Over every run: an item reloads if and only if its handler and its conversion went through, Caddy
      takes the result, and it is not the one taken last; and Caddy runs the one taken last. */
  lemma {:induction false} ReloadsExactly(ps: seq<Instance>, start: Option<ConfigMapOptions>, items: seq<Item>,
                                          ms: seq<Moment>, i: nat)
    requires IsRun(ps, start, items, ms) && i < |ms|
    ensures var taken := LastTaken(ms[..i]);
            ms[i].outcome == Reloaded <==>
              && HandlerFailure(items[i].action).None? && items[i].loads && Convert(ps, ms[i].view).Ok?
              && (taken.Some? ==> Convert(ps, taken.value.view) != Convert(ps, ms[i].view))
    ensures var taken := LastTaken(ms[..i + 1]);
            && (taken.None? ==> ms[i].cache == Cache(None, None))
            && (taken.Some? ==>
              && Convert(ps, taken.value.view).Ok?
              && ms[i].cache.running == Some(Convert(ps, taken.value.view).value))
  {
    RunItem(ps, start, items, ms, i);
    ItemExactly(ps, CacheAfter(ms[..i]), items[i], ms[i]);
    TakenIsCached(ps, start, items, ms, i);
    assert ms[..i + 1][..i] == ms[..i];
  }

  lemma {:induction false} TakenIsCached(ps: seq<Instance>, start: Option<ConfigMapOptions>, items: seq<Item>,
                                         ms: seq<Moment>, i: nat)
    requires IsRun(ps, start, items, ms) && i <= |ms|
    ensures var taken, cache := LastTaken(ms[..i]), CacheAfter(ms[..i]);
            && (taken.None? ==> cache == Cache(None, None))
            && (taken.Some? ==>
              && Convert(ps, taken.value.view).Ok?
              && cache == Cache(Some(Convert(ps, taken.value.view).value), Some(Convert(ps, taken.value.view).value)))
  {
    if i > 0 {
      TakenIsCached(ps, start, items, ms, i - 1);
      RunItem(ps, start, items, ms, i - 1);
      ItemExactly(ps, CacheAfter(ms[..i - 1]), items[i - 1], ms[i - 1]);
      assert ms[..i][..i - 1] == ms[..i - 1];
    }
  }

  // ---------- The options in force ----------

  /** The options of the latest ConfigMap that parsed, unless it was deleted since; `start` if neither
      happened. */
  function Options(start: Option<ConfigMapOptions>, items: seq<Item>): Option<ConfigMapOptions> {
    if items == [] then start else
    match items[|items| - 1].action
    case ConfigMapSet(Ok(options)) => Some(options)
    case ConfigMapDeleted => None
    case _ => Options(start, items[..|items| - 1])
  }

  /** Every item is converted with the options in force. */
  lemma {:induction false} OptionsInForce(ps: seq<Instance>, start: Option<ConfigMapOptions>, items: seq<Item>,
                                          ms: seq<Moment>, i: nat)
    requires IsRun(ps, start, items, ms) && i < |ms|
    ensures ms[i].view.configMap == Options(start, items[..i + 1])
  {
    RunItem(ps, start, items, ms, i);
    assert items[..i + 1][..i] == items[..i];
    if i > 0 {
      OptionsInForce(ps, start, items, ms, i - 1);
      assert ConfigMapOf(start, ms[..i]) == ms[i - 1].view.configMap;
    }
  }

  /** What the options in force are, without a fold: the item that set them, and no later change. */
  lemma {:induction false} OptionsMean(start: Option<ConfigMapOptions>, items: seq<Item>, k: nat,
                                       options: ConfigMapOptions)
    requires k < |items| && items[k].action == ConfigMapSet(Ok(options))
    requires forall j :: k < j < |items| ==> !items[j].action.ConfigMapDeleted?
    requires forall j :: k < j < |items| && items[j].action.ConfigMapSet? ==> items[j].action.parsed.Err?
    ensures Options(start, items) == Some(options)
    decreases |items|
  {
    var n := |items| - 1;
    if k < n { OptionsMean(start, items[..n], k, options); }
  }

  // ---------- When the worker crashes ----------

  lemma CrashOf(ps: seq<Instance>, before: Cache, item: Item, m: Moment, r: nat)
    requires Follows(ps, before, item, m) && OneMatcher(Middlewares(ps)) && CrashesAt(ps, m.view, r)
    ensures m.outcome.Crashed? <==> m.view.configMap.None? && HandlerFailure(item.action).None?
  {
    MissingConfigMapCrashes(ps, m.view, r);
  }

  /** If some plugin crashes on every store without a ConfigMap, ahead of any error, and none crashes
      otherwise, then the items that crash the controller are exactly those that delete the
      ConfigMap; so the worker stops at the first of them, whatever errors other items lead to. */
  lemma {:induction false} CrashesExactly(ps: seq<Instance>, start: Option<ConfigMapOptions>, items: seq<Item>,
                                          ms: seq<Moment>, r: nat, i: nat)
    requires IsRun(ps, start, items, ms) && start.Some? && OneMatcher(Middlewares(ps)) && i < |ms|
    requires forall j :: 0 <= j < |ms| ==> CrashesAt(ps, ms[j].view, r)
    ensures ms[i].outcome.Crashed? <==> items[i].action.ConfigMapDeleted?
    ensures ms[i].outcome.Crashed? <==> ms[i].view.configMap.None?
    ensures ms[i].outcome.Crashed? ==> i == |ms| - 1
    decreases |ms|
  {
    var n := |ms| - 1;
    assert forall j :: 0 <= j < n ==> ms[..n][j] == ms[j];
    if i < n {
      CrashesExactly(ps, start, items[..n], ms[..n], r, i);
    } else {
      if n > 0 { CrashesExactly(ps, start, items[..n], ms[..n], r, n - 1); }
      CrashOf(ps, CacheAfter(ms[..n]), items[n], ms[n], r);
    }
  }

  lemma EventsSnoc(items: seq<Item>, item: Item)
    ensures EventsOf(items + [item]) == EventsOf(items) + if item.action.IngressAction? then [item.action.event] else []
  {
    assert (items + [item])[..|items|] == items;
  }

  // ---------- The controller ----------

  class CaddyController {
    const plugins: seq<Instance>
    const store: IngressStore.Store
    var configMap: Option<ConfigMapOptions>
    var cache: Cache

    constructor (ps: seq<Instance>, options: ConfigMapOptions)
      ensures plugins == ps && fresh(store) && store.Valid() && store.events == []
      ensures configMap == Some(options) && cache == Cache(None, None)
    {
      plugins := ps;
      store := new IngressStore.Store();
      configMap := Some(options);
      cache := Cache(None, None);
    }

    function View(): StoreView
      reads this, store
    {
      StoreView(store.ingresses, configMap)
    }

    method ReloadCaddy(loads: bool) returns (outcome: Outcome)
      modifies this`cache
      ensures (cache, outcome) == Reload(old(cache), Convert(plugins, View()), loads)
    {
      var r := ConvertToCaddyConfig(plugins, View());
      if r.Err? {
        return if r.error.Panic? then Crashed else ConvertError(r.error.message);
      }
      if cache.lastApplied == Some(r.value) { return Skipped; }
      if !loads { return LoadError; }
      cache := Cache(Some(r.value), Some(r.value));
      return Reloaded;
    }

    /** One item: the handler first, and the reload only if the handler did not fail. */
    method ProcessNextItem(item: Item) returns (outcome: Outcome)
      requires store.Valid()
      modifies this, store
      ensures store.Valid()
      ensures store.events == old(store.events) + if item.action.IngressAction? then [item.action.event] else []
      ensures configMap == ConfigMapAfter(old(configMap), item.action)
      ensures Follows(plugins, old(cache), item, Moment(View(), cache, outcome))
    {
      match item.action {
        case IngressAction(event, _) => store.Handle(event);
        case ConfigMapSet(parsed) => if parsed.Ok? { configMap := Some(parsed.value); }
        case ConfigMapDeleted => configMap := None;
        case OutsideAction(_) =>
      }
      var err := HandlerFailure(item.action);
      if err.Some? { return HandlerError(err.value); }
      outcome := ReloadCaddy(item.loads);
    }

    /** One item, on record. */
    method NextMoment(item: Item) returns (m: Moment)
      requires store.Valid()
      modifies this, store
      ensures store.Valid() && m.view == View() && m.cache == cache
      ensures configMap == ConfigMapAfter(old(configMap), item.action)
      ensures store.events == old(store.events) + if item.action.IngressAction? then [item.action.event] else []
      ensures Follows(plugins, old(cache), item, m)
    {
      var outcome := ProcessNextItem(item);
      m := Moment(View(), cache, outcome);
    }

    /** The worker over the items it is observed for; it stops early only by crashing. */
    method RunWorker(items: seq<Item>) returns (ms: seq<Moment>)
      requires store.Valid() && store.events == [] && cache == Cache(None, None)
      modifies this, store
      ensures |ms| <= |items| && IsRun(plugins, old(configMap), items[..|ms|], ms)
      ensures |ms| < |items| ==> |ms| > 0 && ms[|ms| - 1].outcome == Crashed
      ensures |ms| > 0 ==> ms[|ms| - 1].cache == cache && ms[|ms| - 1].view == View()
      ensures IngressStore.Represents(store.ingresses, EventsOf(items[..|ms|]))
    {
      ms := [];
      var n := 0;
      while n < |items|
        invariant n == |ms| <= |items| && store.Valid() && store.events == EventsOf(items[..n])
        invariant IsRun(plugins, old(configMap), items[..n], ms) && Going(ms)
        invariant cache == CacheAfter(ms) && configMap == ConfigMapOf(old(configMap), ms)
        invariant n > 0 ==> ms[n - 1].view == View()
      {
        var item := items[n];
        var m := NextMoment(item);
        EventsSnoc(items[..n], item);
        RunExtends(plugins, old(configMap), items[..n], ms, item, m);
        assert items[..n + 1] == items[..n] + [item];
        ms := ms + [m];
        n := n + 1;
        if m.outcome.Crashed? { break; }
      }
    }
  }
}
