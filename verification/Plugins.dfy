/** The plugin registry and the order in which plugins run. */
module Plugins {
  import opened Sorting
  import opened Strings

  datatype PluginInfo = PluginInfo(name: string, priority: int)

  // ---------- The comparator ----------

  /** The first position of a name in the order list, -1 if it is not listed. */
  function OrderIndex(order: seq<string>, name: string): (r: int)
    ensures -1 <= r < |order|
    ensures r == -1 <==> name !in order
    ensures r >= 0 ==> order[r] == name && name !in order[..r]
  {
    if order == [] then -1
    else if order[0] == name then 0
    else
      var r := OrderIndex(order[1..], name);
      assert order == [order[0]] + order[1..];
      assert r >= 0 ==> order[..r + 1] == [order[0]] + order[1..][..r];
      if r == -1 then -1 else r + 1
  }

  method GetOrderIndex(order: seq<string>, plugin: string) returns (idx: int)
    ensures idx == OrderIndex(order, plugin)
  {
    for i := 0 to |order|
      invariant plugin !in order[..i]
    {
      if plugin == order[i] {
        var r := OrderIndex(order, plugin);
        assert r <= i;
        return i;
      }
    }
    return -1;
  }

  predicate Listed(order: seq<string>, p: PluginInfo) {
    p.name in order
  }

  predicate RunsBefore(order: seq<string>, x: PluginInfo, y: PluginInfo) {
    var i, j := OrderIndex(order, x.name), OrderIndex(order, y.name);
    if i != j then i > j
    else if x.priority != y.priority then x.priority > y.priority
    else Before(x.name, y.name)
  }

  function Comparator(order: seq<string>): (PluginInfo, PluginInfo) -> bool {
    (x, y) => RunsBefore(order, x, y)
  }

  lemma ComparatorTotal(order: seq<string>)
    ensures StrictTotalOrder(Comparator(order))
  {
    var less := Comparator(order);
    forall x, y ensures (less(x, y) ==> !less(y, x)) && (!less(x, y) && !less(y, x) ==> x == y) {
      BeforeAsymmetric(x.name, y.name);
    }
    forall x, y, z | less(x, z) ensures less(x, y) || less(y, z) {
      if Before(x.name, z.name) { BeforeSplits(x.name, y.name, z.name); }
    }
  }

  function Sequence(order: seq<string>, plugins: seq<PluginInfo>): seq<PluginInfo> {
    StableSort(Comparator(order), plugins)
  }

  // ---------- What the order promises ----------

  /** The sequence visits each registered plugin once. */
  ghost predicate Walks(registry: map<string, PluginInfo>, walk: seq<PluginInfo>) {
    && (forall p :: p in walk <==> p.name in registry && registry[p.name] == p)
    && (forall i, j :: 0 <= i < j < |walk| ==> walk[i] != walk[j])
  }

  lemma {:induction false} CountOnce<T>(s: seq<T>, x: T)
    requires forall i, j :: 0 <= i < j < |s| ==> s[i] != s[j]
    ensures multiset(s)[x] == if x in s then 1 else 0
  {
    if s != [] {
      assert s == s[..|s| - 1] + [s[|s| - 1]];
      CountOnce(s[..|s| - 1], x);
    }
  }

  /** The result does not depend on the order in which the registry map is iterated, and runs each
      registered plugin once. */
  lemma OrderDeterministic(order: seq<string>, registry: map<string, PluginInfo>, one: seq<PluginInfo>,
                           other: seq<PluginInfo>)
    requires Walks(registry, one) && Walks(registry, other)
    ensures Sequence(order, one) == Sequence(order, other)
    ensures multiset(Sequence(order, one)) == multiset(one)
  {
    forall x ensures multiset(one)[x] == multiset(other)[x] {
      CountOnce(one, x);
      CountOnce(other, x);
    }
    ComparatorTotal(order);
    SortForgetsOrder(Comparator(order), one, other);
    SortPermutes(Comparator(order), one);
  }

  /** No plugin has two positions. */
  lemma RunsOnce(order: seq<string>, registry: map<string, PluginInfo>, walk: seq<PluginInfo>, i: nat, j: nat)
    requires Walks(registry, walk) && i < |Sequence(order, walk)| && j < |Sequence(order, walk)|
    requires Sequence(order, walk)[i] == Sequence(order, walk)[j]
    ensures i == j
  {
    var sorted := Sequence(order, walk);
    SortPermutes(Comparator(order), walk);
    CountOnce(walk, sorted[i]);
    if i < j { CountTwice(sorted, i, j); }
    if j < i { CountTwice(sorted, j, i); }
  }

  lemma CountTwice<T>(s: seq<T>, i: nat, j: nat)
    requires i < j < |s| && s[i] == s[j]
    ensures multiset(s)[s[i]] >= 2
  {
    assert s == s[..j] + [s[j]] + s[j + 1..];
    assert s[i] in multiset(s[..j]);
  }

  /** Listed plugins run before unlisted ones; unlisted ones by descending priority, then name. */
  lemma OrderMeaning(order: seq<string>, plugins: seq<PluginInfo>, i: nat, j: nat)
    requires i < j < |Sequence(order, plugins)|
    ensures var x, y := Sequence(order, plugins)[i], Sequence(order, plugins)[j];
            && (Listed(order, y) ==> Listed(order, x))
            && (!Listed(order, x) ==> x.priority >= y.priority)
            && (!Listed(order, x) && x.priority == y.priority ==> x.name == y.name || Before(x.name, y.name))
            && (Listed(order, y) ==> OrderIndex(order, x.name) >= OrderIndex(order, y.name))
  {
    ComparatorTotal(order);
    SortSorts(Comparator(order), plugins);
    var x, y := Sequence(order, plugins)[i], Sequence(order, plugins)[j];
    assert !Comparator(order)(y, x);
    BeforeAsymmetric(x.name, y.name);
  }

  /** What the comment on Plugins promises of the listed ones. */
  ghost predicate InSliceOrder(order: seq<string>, plugins: seq<PluginInfo>) {
    forall i, j :: 0 <= i < j < |plugins| && Listed(order, plugins[i]) && Listed(order, plugins[j]) ==>
      OrderIndex(order, plugins[i].name) <= OrderIndex(order, plugins[j].name)
  }

  ghost predicate AtMostOneListed(order: seq<string>, plugins: seq<PluginInfo>) {
    forall x, y :: x in plugins && y in plugins && Listed(order, x) && Listed(order, y) ==> x.name == y.name
  }

  lemma TwoListedReverse(order: seq<string>, plugins: seq<PluginInfo>, x: PluginInfo, y: PluginInfo)
    requires x in plugins && y in plugins && Listed(order, x) && Listed(order, y)
    requires InSliceOrder(order, Sequence(order, plugins))
    ensures x.name == y.name
  {
    var r := Sequence(order, plugins);
    SortMembers(Comparator(order), plugins, x);
    SortMembers(Comparator(order), plugins, y);
    var i :| 0 <= i < |r| && r[i] == x;
    var j :| 0 <= j < |r| && r[j] == y;
    if i < j { OrderMeaning(order, plugins, i, j); }
    if j < i { OrderMeaning(order, plugins, j, i); }
    assert OrderIndex(order, x.name) == OrderIndex(order, y.name);
  }

  /** Listed plugins run in the order of the list if and only if at most one is registered: with
      two, the code runs the later-listed one first. */
  lemma SliceOrderExactly(order: seq<string>, plugins: seq<PluginInfo>)
    ensures InSliceOrder(order, Sequence(order, plugins)) <==> AtMostOneListed(order, plugins)
  {
    var r := Sequence(order, plugins);
    if InSliceOrder(order, r) {
      forall x, y | x in plugins && y in plugins && Listed(order, x) && Listed(order, y) ensures x.name == y.name {
        TwoListedReverse(order, plugins, x, y);
      }
    }
    if AtMostOneListed(order, plugins) {
      forall i, j | 0 <= i < j < |r| && Listed(order, r[i]) && Listed(order, r[j]) ensures r[i].name == r[j].name {
        SortMembers(Comparator(order), plugins, r[i]);
        SortMembers(Comparator(order), plugins, r[j]);
      }
    }
  }

  /** A concrete order the code reverses. */
  lemma LaterListedRunsFirst()
    ensures !InSliceOrder(["a", "b"], Sequence(["a", "b"], [PluginInfo("a", 0), PluginInfo("b", 0)]))
  {
    var order, plugins := ["a", "b"], [PluginInfo("a", 0), PluginInfo("b", 0)];
    SliceOrderExactly(order, plugins);
    assert PluginInfo("a", 0) in plugins && PluginInfo("b", 0) in plugins;
    assert Listed(order, PluginInfo("a", 0)) && Listed(order, PluginInfo("b", 0));
    assert PluginInfo("a", 0).name[0] != PluginInfo("b", 0).name[0];
  }

  /** One plugin runs before another exactly when the order list does not say otherwise. */
  lemma RunsEarlierExactly(order: seq<string>, plugins: seq<PluginInfo>, x: PluginInfo, y: PluginInfo, i: nat, j: nat)
    requires i < |Sequence(order, plugins)| && j < |Sequence(order, plugins)| && x != y
    requires Sequence(order, plugins)[i] == x && Sequence(order, plugins)[j] == y
    ensures i < j <==> RunsBefore(order, x, y)
  {
    ComparatorTotal(order);
    SortSorts(Comparator(order), plugins);
    var less := Comparator(order);
    assert less(x, y) == RunsBefore(order, x, y) && less(y, x) == RunsBefore(order, y, x);
    if i < j { assert !less(y, x); } else if j < i { assert !less(x, y); }
  }

  // ---------- The registry ----------

  class Registry<Plugin> {
    var plugins: map<string, PluginInfo>
    var instances: map<string, Plugin>

    ghost predicate Valid()
      reads this
    {
      && plugins.Keys == instances.Keys
      && (forall name :: name in plugins ==> plugins[name].name == name)
    }

    constructor ()
      ensures Valid() && plugins == map[]
    {
      plugins, instances := map[], map[];
    }

    /** Panics, with nothing changed, on a name that is taken. */
    method RegisterPlugin(info: PluginInfo, instance: Plugin) returns (panicked: bool)
      requires Valid()
      modifies this
      ensures Valid()
      ensures panicked <==> info.name in old(plugins)
      ensures panicked ==> plugins == old(plugins) && instances == old(instances)
      ensures !panicked ==> plugins == old(plugins)[info.name := info]
      ensures !panicked ==> instances == old(instances)[info.name := instance]
    {
      if info.name in plugins { return true; }
      plugins := plugins[info.name := info];
      instances := instances[info.name := instance];
      return false;
    }

    /** The instances of plugins the registry knows, in the same order. */
    method Instances(sorted: seq<PluginInfo>) returns (r: seq<Plugin>)
      requires Valid() && forall i :: 0 <= i < |sorted| ==> sorted[i].name in plugins
      ensures |r| == |sorted|
      ensures forall i :: 0 <= i < |r| ==> sorted[i].name in instances && r[i] == instances[sorted[i].name]
    {
      r := [];
      for i := 0 to |sorted|
        invariant |r| == i
        invariant forall j :: 0 <= j < i ==> r[j] == instances[sorted[j].name]
      {
        r := r + [instances[sorted[i].name]];
      }
    }

    /** `iteration` is the order in which this call happens to walk the registry map. */
    method Plugins(order: seq<string>, iteration: seq<PluginInfo>) returns (sorted: seq<PluginInfo>, r: seq<Plugin>)
      requires Valid() && Walks(plugins, iteration)
      ensures sorted == Sequence(order, iteration)
      ensures |r| == |sorted|
      ensures forall i :: 0 <= i < |r| ==> sorted[i].name in instances && r[i] == instances[sorted[i].name]
    {
      var sortedPlugins := new PluginInfo[|iteration|](i requires 0 <= i < |iteration| => iteration[i]);
      assert sortedPlugins[..] == iteration;
      SliceStable(sortedPlugins, Comparator(order));
      sorted := sortedPlugins[..];
      forall i | 0 <= i < |sorted| ensures sorted[i].name in plugins {
        SortMembers(Comparator(order), iteration, sorted[i]);
      }
      r := Instances(sorted);
    }
  }
}
