/** The telegraf configuration aggregated from all cluster metric sinks. */
module MetricConfig {
  import opened Collections
  import opened MetricPlugins
  import opened MetricSlices

  /** `revision` stands for everything but name and spec. */
  datatype ClusterMetricSink = ClusterMetricSink(name: string, spec: Spec, revision: string)

  /** The configuration file: the fixed discard configuration, or the encoding of these tables. */
  datatype Rendered = Discard | Tables(globalTags: map<string, string>, inputs: Groups, outputs: Groups)

  datatype Modifier = KubernetesDefault(insecurePort: bool)

  function KubernetesTable(m: Modifier): Plugin {
    if m.insecurePort then map["url" := Str("http://127.0.0.1:10255")]
    else map["bearer_token" := Str("/var/run/secrets/kubernetes.io/serviceaccount/token"), "insecure_skip_verify" := Bool(true),
             "url" := Str("https://127.0.0.1:10250")]
  }

  const KUBERNETES := "kubernetes"

  /** The default inputs: the last modifier decides. */
  function DefaultsOf(modifiers: seq<Modifier>): Groups {
    if modifiers == [] then map[] else map[KUBERNETES := [KubernetesTable(modifiers[|modifiers| - 1])]]
  }

  function GlobalTags(clusterName: string): map<string, string> {
    if clusterName == "" then map[] else map["cluster_name" := clusterName]
  }

  function InputsOf(s: ClusterMetricSink): seq<Plugin> {
    s.spec.inputs
  }

  function OutputsOf(s: ClusterMetricSink): seq<Plugin> {
    s.spec.outputs
  }

  function Encoded(globalTags: map<string, string>, inputs: Groups, outputs: Groups): Rendered {
    if inputs == map[] || outputs == map[] then Discard else Tables(globalTags, inputs, outputs)
  }

  /** What ranging over the sinks in the order of `keys` renders to. */
  function RenderingOf(defaults: Groups, clusterName: string, sinks: map<string, ClusterMetricSink>, keys: seq<string>): Rendered {
    Encoded(GlobalTags(clusterName),
            Aggregate(defaults, FlatMap(InputsOf, ValuesOf(sinks, keys))),
            Aggregate(map[], FlatMap(OutputsOf, ValuesOf(sinks, keys))))
  }

  ghost predicate Shows(defaults: Groups, clusterName: string, sinks: map<string, ClusterMetricSink>, r: Rendered) {
    exists keys :: Enumerates(keys, sinks) && r == RenderingOf(defaults, clusterName, sinks, keys)
  }

  class TelegrafConfig {
    const globalTags: map<string, string>
    const inputs: PluginTables
    const outputs: PluginTables

    /** The two halves share no array that either may write to. */
    ghost predicate Valid()
      reads this, inputs, outputs, inputs.owned, outputs.owned, inputs.shared, outputs.shared
    {
      && inputs != outputs && inputs.Valid() && outputs.Valid()
      && inputs.owned !! outputs.owned && inputs.shared !! outputs.owned && outputs.shared == {}
    }

    constructor (globalTags: map<string, string>, inputs: PluginTables, outputs: PluginTables)
      ensures this.globalTags == globalTags && this.inputs == inputs && this.outputs == outputs
    {
      this.globalTags, this.inputs, this.outputs := globalTags, inputs, outputs;
    }

    method AppendInputsAndOutputs(moreInputs: seq<Plugin>, moreOutputs: seq<Plugin>)
      requires Valid()
      modifies inputs, outputs, inputs.owned, outputs.owned
      ensures Valid() && fresh(inputs.owned - old(inputs.owned)) && fresh(outputs.owned - old(outputs.owned))
      ensures inputs.groups == Aggregate(old(inputs.groups), moreInputs)
      ensures outputs.groups == Aggregate(old(outputs.groups), moreOutputs)
    {
      hide HoldsAll;
      AddAll(inputs, moreInputs);
      AddAll(outputs, moreOutputs);
    }

    method String() returns (r: Rendered)
      requires Valid()
      ensures r == Encoded(globalTags, inputs.groups, outputs.groups)
    {
      var ins := Read(inputs);
      var outs := Read(outputs);
      r := if |ins| == 0 || |outs| == 0 then Discard else Tables(globalTags, ins, outs);
    }
  }

  method AddAll(tables: PluginTables, plugins: seq<Plugin>)
    requires tables.Valid()
    modifies tables, tables.owned
    ensures tables.Valid() && fresh(tables.owned - old(tables.owned))
    ensures tables.groups == Aggregate(old(tables.groups), plugins)
  {
    hide HoldsAll;
    for i := 0 to |plugins|
      invariant tables.Valid() && fresh(tables.owned - old(tables.owned))
      invariant tables.groups == Aggregate(old(tables.groups), plugins[..i])
    {
      assert plugins[..i + 1][..i] == plugins[..i];
      tables.Add(plugins[i]);
    }
    assert plugins[..|plugins|] == plugins;
  }

  method Read(tables: PluginTables) returns (g: Groups)
    requires tables.Valid()
    ensures g == tables.groups
  {
    g := map t | t in tables.slices :: tables.slices[t].backing[..tables.slices[t].len];
  }

  class ClusterConfig {
    const clusterName: string
    var defaultInputs: map<string, Slice>
    var clusterSinks: map<string, ClusterMetricSink>
    ghost var defaults: Groups
    ghost var arrays: set<array<Plugin>>

    /** The default slices hold `defaults` and have no room behind them, so appending never writes to their arrays. */
    ghost predicate Valid()
      reads this, arrays
    {
      HoldsAll(defaultInputs, defaults, {}, arrays)
    }

    constructor (clusterName: string, modifiers: seq<Modifier>)
      ensures Valid() && fresh(arrays) && this.clusterName == clusterName && clusterSinks == map[] && defaults == DefaultsOf(modifiers)
    {
      this.clusterName, defaultInputs, clusterSinks := clusterName, map[], map[];
      defaults, arrays := map[], {};
      new;
      for i := 0 to |modifiers|
        invariant Valid() && fresh(arrays) && clusterSinks == map[] && defaults == DefaultsOf(modifiers[..i])
      {
        Modify(modifiers[i]);
      }
      assert modifiers[..|modifiers|] == modifiers;
    }

    method Modify(m: Modifier)
      requires Valid() && defaults.Keys <= {KUBERNETES}
      modifies this`defaultInputs, this`defaults, this`arrays
      ensures Valid() && fresh(arrays - old(arrays)) && defaults == map[KUBERNETES := [KubernetesTable(m)]]
    {
      hide KubernetesTable;
      var backing := new Plugin[1];
      backing[0] := KubernetesTable(m);
      assert backing[..1] == [KubernetesTable(m)];
      defaultInputs := defaultInputs[KUBERNETES := Slice(backing, 1)];
      defaults, arrays := map[KUBERNETES := [KubernetesTable(m)]], {backing};
      assert defaultInputs.Keys == {KUBERNETES};
      assert Holds(defaultInputs[KUBERNETES], [KubernetesTable(m)], {}, arrays);
    }

    method UpsertSink(cms: ClusterMetricSink)
      modifies this`clusterSinks
      ensures clusterSinks == old(clusterSinks)[cms.name := cms]
    {
      clusterSinks := clusterSinks[cms.name := cms];
    }

    method DeleteSink(cms: ClusterMetricSink)
      modifies this`clusterSinks
      ensures clusterSinks == old(clusterSinks) - {cms.name}
    {
      clusterSinks := clusterSinks - {cms.name};
    }

    /** Renders the sinks. It modifies nothing that existed before, although the copied slices are appended to. */
    method String() returns (r: Rendered)
      requires Valid()
      ensures Valid() && Shows(defaults, clusterName, clusterSinks, r)
    {
      hide HoldsAll;
      var inputs := new PluginTables.CopyInputs(defaultInputs, defaults, arrays);
      var outputs := new PluginTables.Empty();
      var config := new TelegrafConfig(GlobalTags(clusterName), inputs, outputs);
      ghost var keys := AppendSinks(config);
      r := config.String();
    }

    method AppendSinks(config: TelegrafConfig) returns (ghost keys: seq<string>)
      requires config.Valid()
      modifies config.inputs, config.outputs, config.inputs.owned, config.outputs.owned
      ensures config.Valid() && Enumerates(keys, clusterSinks)
      ensures config.inputs.groups == Aggregate(old(config.inputs.groups), FlatMap(InputsOf, ValuesOf(clusterSinks, keys)))
      ensures config.outputs.groups == Aggregate(old(config.outputs.groups), FlatMap(OutputsOf, ValuesOf(clusterSinks, keys)))
    {
      keys := [];
      var todo := clusterSinks.Keys;
      while todo != {}
        invariant config.Valid()
        invariant fresh(config.inputs.owned - old(config.inputs.owned)) && fresh(config.outputs.owned - old(config.outputs.owned))
        invariant Distinct(keys) && todo <= clusterSinks.Keys && forall k :: k in keys <==> k in clusterSinks && k !in todo
        invariant config.inputs.groups == Aggregate(old(config.inputs.groups), FlatMap(InputsOf, ValuesOf(clusterSinks, keys)))
        invariant config.outputs.groups == Aggregate(old(config.outputs.groups), FlatMap(OutputsOf, ValuesOf(clusterSinks, keys)))
        decreases |todo|
      {
        hide TelegrafConfig.Valid, ValuesOf, Aggregate;
        var k :| k in todo;
        var cms := clusterSinks[k];
        config.AppendInputsAndOutputs(cms.spec.inputs, cms.spec.outputs);
        AggregateRange(old(config.inputs.groups), clusterSinks, keys, k, InputsOf);
        AggregateRange(old(config.outputs.groups), clusterSinks, keys, k, OutputsOf);
        todo := todo - {k};
        keys := keys + [k];
      }
    }
  }

  /** Appending the plugins of one more sink. */
  lemma AggregateRange(base: Groups, sinks: map<string, ClusterMetricSink>, keys: seq<string>, k: string, plugins: ClusterMetricSink -> seq<Plugin>)
    requires k in sinks
    ensures Aggregate(base, FlatMap(plugins, ValuesOf(sinks, keys + [k])))
         == Aggregate(Aggregate(base, FlatMap(plugins, ValuesOf(sinks, keys))), plugins(sinks[k]))
  {
    ValuesStep(sinks, keys, k, plugins);
    AggregateAppend(base, FlatMap(plugins, ValuesOf(sinks, keys)), plugins(sinks[k]));
  }
}
