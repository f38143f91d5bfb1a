/** What aggregating cluster metric sinks conserves, and what it does not depend on. */
module MetricLaws {
  import opened Collections
  import opened MetricPlugins
  import opened MetricConfig

  type Sinks = map<string, ClusterMetricSink>

  /** The plugins of all sinks in the order of `keys`. */
  function AllInputs(sinks: Sinks, keys: seq<string>): seq<Plugin> {
    FlatMap(InputsOf, ValuesOf(sinks, keys))
  }

  function AllOutputs(sinks: Sinks, keys: seq<string>): seq<Plugin> {
    FlatMap(OutputsOf, ValuesOf(sinks, keys))
  }

  /** What ranging over the sinks in the order of `keys` collects, whether or not it is then used. */
  function InputTables(defaults: Groups, sinks: Sinks, keys: seq<string>): Groups {
    Aggregate(defaults, AllInputs(sinks, keys))
  }

  function OutputTables(sinks: Sinks, keys: seq<string>): Groups {
    Aggregate(map[], AllOutputs(sinks, keys))
  }

  /**
   Whatever order the sinks are ranged over, each type's list is the default one followed by the sinks' plugins of that
   type in that order, each without its type; outputs have no defaults.
   */
  lemma EveryTypeIsConserved(defaults: Groups, sinks: Sinks, keys: seq<string>, t: string)
    ensures Group(InputTables(defaults, sinks, keys), t) == Group(defaults, t) + TablesOf(t, AllInputs(sinks, keys))
    ensures Group(OutputTables(sinks, keys), t) == TablesOf(t, AllOutputs(sinks, keys))
    ensures t in InputTables(defaults, sinks, keys) <==> t in defaults || TablesOf(t, AllInputs(sinks, keys)) != []
    ensures t in OutputTables(sinks, keys) <==> TablesOf(t, AllOutputs(sinks, keys)) != []
  {
    AggregateMeaning(defaults, AllInputs(sinks, keys));
    AggregateMeaning(map[], AllOutputs(sinks, keys));
    assert AggregatesAt(defaults, AllInputs(sinks, keys), Aggregate(defaults, AllInputs(sinks, keys)), t);
    assert AggregatesAt(map[], AllOutputs(sinks, keys), Aggregate(map[], AllOutputs(sinks, keys)), t);
  }

  /** Over all types together: the default tables and one table for each string-typed input, under its own type. */
  lemma InputsAreConserved(defaults: Groups, sinks: Sinks, keys: seq<string>, defaultTypes: seq<string>, types: seq<string>)
    requires Enumerates(defaultTypes, defaults) && Enumerates(types, InputTables(defaults, sinks, keys))
    ensures var tables := Flatten(InputTables(defaults, sinks, keys), types);
      && multiset(tables) == multiset(Flatten(defaults, defaultTypes)) + multiset(FlatMap(TypedOf, AllInputs(sinks, keys)))
      && |tables| == |Flatten(defaults, defaultTypes)| + |FlatMap(TypedOf, AllInputs(sinks, keys))|
  {
    hide Aggregates, TypedOf, Enumerates, Flatten, Aggregate;
    AggregateMeaning(defaults, AllInputs(sinks, keys));
    AggregationConserves(defaults, AllInputs(sinks, keys), InputTables(defaults, sinks, keys), defaultTypes, types);
  }

  lemma OutputsAreConserved(sinks: Sinks, keys: seq<string>, types: seq<string>)
    requires Enumerates(types, OutputTables(sinks, keys))
    ensures var tables := Flatten(OutputTables(sinks, keys), types);
      && multiset(tables) == multiset(FlatMap(TypedOf, AllOutputs(sinks, keys)))
      && |tables| == |FlatMap(TypedOf, AllOutputs(sinks, keys))|
  {
    hide Aggregates, TypedOf, Enumerates, Flatten, Aggregate;
    AggregateMeaning(map[], AllOutputs(sinks, keys));
    NoneEnumerated(map[]);
    AggregationConserves(map[], AllOutputs(sinks, keys), OutputTables(sinks, keys), [], types);
  }

  /** All of that is rendered if and only if there is a default or a typed input, and a typed output; otherwise none of it is. */
  lemma RenderingIsWholeExactly(defaults: Groups, clusterName: string, sinks: Sinks, keys: seq<string>)
    requires Enumerates(keys, sinks)
    ensures RenderingOf(defaults, clusterName, sinks, keys)
         == if (defaults != map[] || AnyTyped(sinks, InputsOf)) && AnyTyped(sinks, OutputsOf)
            then Tables(GlobalTags(clusterName), InputTables(defaults, sinks, keys), OutputTables(sinks, keys))
            else Discard
  {
    hide Enumerates, AnyTyped, Aggregate;
    EmptyExactlyWithoutTyped(defaults, sinks, keys, InputsOf);
    EmptyExactlyWithoutTyped(map[], sinks, keys, OutputsOf);
  }

  function KubernetesInputs(modifiers: seq<Modifier>): seq<Plugin> {
    if modifiers == [] then []
    else if modifiers[|modifiers| - 1].insecurePort then [map["url" := Str("http://127.0.0.1:10255")]]
    else [map["bearer_token" := Str("/var/run/secrets/kubernetes.io/serviceaccount/token"), "insecure_skip_verify" := Bool(true),
              "url" := Str("https://127.0.0.1:10250")]]
  }

  /** The rendered configuration, type by type: the cluster's tag, the kubernetes input of the last modifier, and the sinks' plugins. */
  lemma RenderedTypes(modifiers: seq<Modifier>, clusterName: string, sinks: Sinks, keys: seq<string>, t: string)
    requires Enumerates(keys, sinks)
    ensures var r := RenderingOf(DefaultsOf(modifiers), clusterName, sinks, keys);
      r == Discard ||
      (&& (clusterName == "" ==> r.globalTags == map[]) && (clusterName != "" ==> r.globalTags == map["cluster_name" := clusterName])
       && Group(r.inputs, t) == (if t == "kubernetes" then KubernetesInputs(modifiers) else []) + TablesOf(t, AllInputs(sinks, keys))
       && Group(r.outputs, t) == TablesOf(t, AllOutputs(sinks, keys)))
  {
    RenderingIsWholeExactly(DefaultsOf(modifiers), clusterName, sinks, keys);
    EveryTypeIsConserved(DefaultsOf(modifiers), sinks, keys, t);
    assert Group(DefaultsOf(modifiers), t) == if t == "kubernetes" then KubernetesInputs(modifiers) else [];
    hide InputTables, OutputTables, TablesOf, AnyTyped;
  }

  lemma NoneEnumerated(none: Groups)
    requires none == map[]
    ensures Enumerates([], none) && Flatten(none, []) == []
  {
  }

  /** Two renderings of the same sinks differ at most in the order of the tables within a type. */
  lemma RenderingsPermute(defaults: Groups, clusterName: string, sinks: Sinks, left: Rendered, right: Rendered)
    requires Shows(defaults, clusterName, sinks, left) && Shows(defaults, clusterName, sinks, right)
    ensures left == Discard <==> right == Discard
    ensures left.Tables? ==>
      && left.globalTags == right.globalTags
      && left.inputs.Keys == right.inputs.Keys && left.outputs.Keys == right.outputs.Keys
      && (forall t :: multiset(Group(left.inputs, t)) == multiset(Group(right.inputs, t)))
      && (forall t :: multiset(Group(left.outputs, t)) == multiset(Group(right.outputs, t)))
  {
    hide Enumerates, Aggregate, Group;
    var a :| Enumerates(a, sinks) && left == RenderingOf(defaults, clusterName, sinks, a);
    var b :| Enumerates(b, sinks) && right == RenderingOf(defaults, clusterName, sinks, b);
    GroupsPermute(defaults, sinks, a, b, InputsOf);
    GroupsPermute(map[], sinks, a, b, OutputsOf);
  }

  lemma GroupsPermute(base: Groups, sinks: Sinks, a: seq<string>, b: seq<string>, plugins: ClusterMetricSink -> seq<Plugin>)
    requires Enumerates(a, sinks) && Enumerates(b, sinks)
    ensures var left := Aggregate(base, FlatMap(plugins, ValuesOf(sinks, a)));
      var right := Aggregate(base, FlatMap(plugins, ValuesOf(sinks, b)));
      && left.Keys == right.Keys && (left == map[] <==> right == map[])
      && forall t :: multiset(Group(left, t)) == multiset(Group(right, t))
  {
    EnumerationsPermute(sinks, a, b);
    FlatMapPermutes(plugins, ValuesOf(sinks, a), ValuesOf(sinks, b));
    AggregateMeaning(base, FlatMap(plugins, ValuesOf(sinks, a)));
    AggregateMeaning(base, FlatMap(plugins, ValuesOf(sinks, b)));
    hide Enumerates, Aggregate, Aggregates, Group;
    var left, right := Aggregate(base, FlatMap(plugins, ValuesOf(sinks, a))), Aggregate(base, FlatMap(plugins, ValuesOf(sinks, b)));
    AggregationPermutes(base, FlatMap(plugins, ValuesOf(sinks, a)), FlatMap(plugins, ValuesOf(sinks, b)), left, right);
    assert left == map[] <==> left.Keys == {};
    assert right == map[] <==> right.Keys == {};
  }

  /** Some sink has an entry that names its type as a string. */
  ghost predicate AnyTyped(sinks: Sinks, plugins: ClusterMetricSink -> seq<Plugin>) {
    exists k, p :: k in sinks && p in plugins(sinks[k]) && TypeOf(p).Some?
  }

  lemma EmptyExactlyWithoutTyped(base: Groups, sinks: Sinks, keys: seq<string>, plugins: ClusterMetricSink -> seq<Plugin>)
    requires Enumerates(keys, sinks)
    ensures Aggregate(base, FlatMap(plugins, ValuesOf(sinks, keys))) == map[] <==> base == map[] && !AnyTyped(sinks, plugins)
  {
    hide Enumerates, TypeOf;
    var all := FlatMap(plugins, ValuesOf(sinks, keys));
    TypedGivesTable(all);
    EmptyExactlyWithoutTables(base, all);
    forall p ensures p in all <==> exists k :: k in sinks && p in plugins(sinks[k]) {
      RangeMember(sinks, keys, plugins, p);
    }
  }

  lemma EmptyExactlyWithoutTables(base: Groups, all: seq<Plugin>)
    ensures Aggregate(base, all) == map[] <==> base == map[] && forall t :: TablesOf(t, all) == []
  {
    var g := Aggregate(base, all);
    AggregateMeaning(base, all);
    hide Aggregate, TablesOf;
    forall t ensures t in g <==> t in base || TablesOf(t, all) != [] {
      assert AggregatesAt(base, all, g, t);
    }
    if base == map[] && forall t :: TablesOf(t, all) == [] {
      assert forall t :: t !in g;
    }
    if g == map[] {
      assert forall t :: t !in g;
      assert forall t :: t !in base;
    }
  }

  /** The discard configuration is used exactly when no input results, or no sink has a typed output. */
  lemma FallsBackExactly(defaults: Groups, clusterName: string, sinks: Sinks, r: Rendered)
    requires Shows(defaults, clusterName, sinks, r)
    ensures r == Discard <==> (defaults == map[] && !AnyTyped(sinks, InputsOf)) || !AnyTyped(sinks, OutputsOf)
  {
    hide Enumerates, AnyTyped, Aggregate;
    var keys :| Enumerates(keys, sinks) && r == RenderingOf(defaults, clusterName, sinks, keys);
    EmptyExactlyWithoutTyped(defaults, sinks, keys, InputsOf);
    EmptyExactlyWithoutTyped(map[], sinks, keys, OutputsOf);
  }
}
