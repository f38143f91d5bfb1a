/** The checking loops metric sinks pass at admission, and what becomes of sinks that passed them. */
module MetricAdmission {
  import opened GoLang
  import opened Collections
  import opened MetricPlugins
  import opened MetricConfig
  import opened MetricLaws

  const NO_TYPE := "Must specify type for each inputs/outputs"
  const NON_STRING_TYPE := "Input/output type must be a string"
  const INCLUDES_KUBERNETES := "Kubernetes input plugin added by default in ClusterMetricSink"

  function TypeError(p: Plugin): Option<string> {
    if TYPE !in p then Some(NO_TYPE)
    else if !p[TYPE].Str? then Some(NON_STRING_TYPE)
    else None
  }

  /** What is wrong with an input: outputs may be of any type, inputs not of the kubernetes one. */
  function InputError(p: Plugin): Option<string> {
    if TypeError(p).Some? then TypeError(p)
    else if p[TYPE].text == KUBERNETES then Some(INCLUDES_KUBERNETES)
    else None
  }

  /** What the messages say is wrong. */
  lemma ErrorsExactly(p: Plugin)
    ensures TypeError(p) == Some("Must specify type for each inputs/outputs") <==> "type" !in p
    ensures TypeError(p) == Some("Input/output type must be a string") <==> "type" in p && !p["type"].Str?
    ensures TypeError(p) == None <==> "type" in p && p["type"].Str?
    ensures InputError(p) == Some("Kubernetes input plugin added by default in ClusterMetricSink") <==> "type" in p && p["type"] == Str("kubernetes")
    ensures InputError(p) == None <==> TypeError(p) == None && p["type"] != Str("kubernetes")
    ensures TypeError(p) != None ==> InputError(p) == TypeError(p)
  {
    assert |NO_TYPE| == 41 && |NON_STRING_TYPE| == 34 && |INCLUDES_KUBERNETES| == 61;
  }

  /** `r` is the error of the first plugin that has one. */
  ghost predicate FirstError(error: Plugin -> Option<string>, plugins: seq<Plugin>, r: Option<string>) {
    if r == None then forall i | 0 <= i < |plugins| :: error(plugins[i]) == None
    else exists i :: 0 <= i < |plugins| && error(plugins[i]) == r && forall j | 0 <= j < i :: error(plugins[j]) == None
  }

  /** The checking loops: the error of the first bad input, or else of the first bad output. */
  method CheckMetricSink(spec: Spec) returns (r: Option<string>)
    ensures FirstError(InputError, spec.inputs, None) ==> FirstError(TypeError, spec.outputs, r)
    ensures !FirstError(InputError, spec.inputs, None) ==> r != None && FirstError(InputError, spec.inputs, r)
  {
    for i := 0 to |spec.inputs|
      invariant forall j | 0 <= j < i :: InputError(spec.inputs[j]) == None
    {
      var input := spec.inputs[i];
      assert InputError(input) != None ==> FirstError(InputError, spec.inputs, InputError(input));
      if TYPE !in input {
        return Some(NO_TYPE);
      }
      if !input[TYPE].Str? {
        return Some(NON_STRING_TYPE);
      }
      if input[TYPE].text == KUBERNETES {
        return Some(INCLUDES_KUBERNETES);
      }
    }
    for i := 0 to |spec.outputs|
      invariant forall j | 0 <= j < i :: TypeError(spec.outputs[j]) == None
    {
      var output := spec.outputs[i];
      assert TypeError(output) != None ==> FirstError(TypeError, spec.outputs, TypeError(output));
      if TYPE !in output {
        return Some(NO_TYPE);
      }
      if !output[TYPE].Str? {
        return Some(NON_STRING_TYPE);
      }
    }
    r := None;
  }

  /** Passed by both loops. */
  ghost predicate Passed(spec: Spec) {
    FirstError(InputError, spec.inputs, None) && FirstError(TypeError, spec.outputs, None)
  }

  ghost predicate AllPassed(sinks: Sinks) {
    forall k | k in sinks :: Passed(sinks[k].spec)
  }

  lemma {:induction false} NoneSkipped(plugins: seq<Plugin>)
    ensures |FlatMap(TypedOf, plugins)| <= |plugins|
    ensures |FlatMap(TypedOf, plugins)| == |plugins| <==> forall p | p in plugins :: TypeError(p) == None
  {
    if plugins != [] {
      NoneSkipped(plugins[1..]);
      assert plugins == [plugins[0]] + plugins[1..];
      assert |TypedOf(plugins[0])| == if TypeError(plugins[0]) == None then 1 else 0;
    }
  }

  /** No sink has a kubernetes input. */
  ghost predicate NoKubernetes(sinks: Sinks) {
    forall k, p | k in sinks && p in sinks[k].spec.inputs :: TypeOf(p) != Some(KUBERNETES)
  }

  /** Aggregation leaves the default kubernetes inputs alone exactly if no sink has an input of that type. */
  lemma KubernetesIsDefaultExactly(defaults: Groups, sinks: Sinks, keys: seq<string>)
    requires Enumerates(keys, sinks)
    ensures Group(InputTables(defaults, sinks, keys), KUBERNETES) == Group(defaults, KUBERNETES) <==> NoKubernetes(sinks)
  {
    var all := AllInputs(sinks, keys);
    EveryTypeIsConserved(defaults, sinks, keys, KUBERNETES);
    NonEmptyTables(KUBERNETES, all);
    forall p ensures p in all <==> exists k :: k in sinks && p in InputsOf(sinks[k]) {
      RangeMember(sinks, keys, InputsOf, p);
    }
    hide TypeOf, TablesOf, Group, AllInputs, InputTables;
  }

  lemma PassedPlugins(sinks: Sinks, keys: seq<string>, p: Plugin)
    requires Enumerates(keys, sinks) && AllPassed(sinks)
    ensures p in AllInputs(sinks, keys) ==> InputError(p) == None
    ensures p in AllOutputs(sinks, keys) ==> TypeError(p) == None
  {
    hide InputError, TypeError;
    RangeMember(sinks, keys, InputsOf, p);
    RangeMember(sinks, keys, OutputsOf, p);
    forall k | k in sinks ensures Passed(sinks[k].spec) {
    }
    if p in AllInputs(sinks, keys) {
      var k :| k in sinks && p in sinks[k].spec.inputs;
      assert FirstError(InputError, sinks[k].spec.inputs, None);
    }
    if p in AllOutputs(sinks, keys) {
      var k :| k in sinks && p in sinks[k].spec.outputs;
      assert FirstError(TypeError, sinks[k].spec.outputs, None);
    }
  }

  lemma PassedEntry(sinks: Sinks, k: string, p: Plugin)
    requires AllPassed(sinks) && k in sinks
    ensures p in sinks[k].spec.inputs ==> TypeOf(p).Some? && TypeOf(p) != Some(KUBERNETES)
    ensures p in sinks[k].spec.outputs ==> TypeOf(p).Some?
  {
    assert Passed(sinks[k].spec);
    assert p in sinks[k].spec.inputs ==> InputError(p) == None;
    assert p in sinks[k].spec.outputs ==> TypeError(p) == None;
  }

  /** Something to read from and, in some sink, something to write to. */
  ghost predicate HasBoth(defaults: Groups, sinks: Sinks) {
    && (defaults != map[] || exists k :: k in sinks && sinks[k].spec.inputs != [])
    && (exists k :: k in sinks && sinks[k].spec.outputs != [])
  }

  lemma EntryMeansTyped(sinks: Sinks, plugins: ClusterMetricSink -> seq<Plugin>)
    requires forall k, p | k in sinks && p in plugins(sinks[k]) :: TypeOf(p).Some?
    ensures AnyTyped(sinks, plugins) <==> exists k :: k in sinks && plugins(sinks[k]) != []
  {
    hide TypeOf;
    if k :| k in sinks && plugins(sinks[k]) != [] {
      var p := plugins(sinks[k])[0];
      assert p in plugins(sinks[k]) && TypeOf(p).Some?;
    }
  }

  /** For admitted sinks any entry is a typed one. */
  lemma AnyEntryIsTyped(defaults: Groups, sinks: Sinks)
    requires AllPassed(sinks)
    ensures HasBoth(defaults, sinks) <==> (defaults != map[] || AnyTyped(sinks, InputsOf)) && AnyTyped(sinks, OutputsOf)
  {
    hide AllPassed, TypeOf, AnyTyped;
    forall k, p | k in sinks && (p in InputsOf(sinks[k]) || p in OutputsOf(sinks[k])) ensures TypeOf(p).Some? {
      PassedEntry(sinks, k, p);
    }
    EntryMeansTyped(sinks, InputsOf);
    EntryMeansTyped(sinks, OutputsOf);
    assert (exists k :: k in sinks && InputsOf(sinks[k]) != []) <==> exists k :: k in sinks && sinks[k].spec.inputs != [];
    assert (exists k :: k in sinks && OutputsOf(sinks[k]) != []) <==> exists k :: k in sinks && sinks[k].spec.outputs != [];
  }

  /** Admitted sinks end up in the discard configuration exactly if there is no input at all, or no output. */
  lemma AdmittedFallBackExactly(defaults: Groups, clusterName: string, sinks: Sinks, r: Rendered)
    requires AllPassed(sinks) && Shows(defaults, clusterName, sinks, r)
    ensures r == Discard <==>
            || (defaults == map[] && forall k | k in sinks :: sinks[k].spec.inputs == [])
            || (forall k | k in sinks :: sinks[k].spec.outputs == [])
  {
    hide AllPassed, Shows, AnyTyped;
    FallsBackExactly(defaults, clusterName, sinks, r);
    AnyEntryIsTyped(defaults, sinks);
  }

  /** The configuration has the default tables and one for each entry of any sink, and only the default kubernetes inputs. */
  ghost predicate Whole(defaults: Groups, sinks: Sinks, keys: seq<string>, r: Rendered) {
    && r.Tables?
    && r.inputs == InputTables(defaults, sinks, keys) && r.outputs == OutputTables(sinks, keys)
    && (forall defaultTypes, types | Enumerates(defaultTypes, defaults) && Enumerates(types, r.inputs) ::
          |Flatten(r.inputs, types)| == |Flatten(defaults, defaultTypes)| + |AllInputs(sinks, keys)|)
    && (forall types | Enumerates(types, r.outputs) :: |Flatten(r.outputs, types)| == |AllOutputs(sinks, keys)|)
    && Group(r.inputs, KUBERNETES) == Group(defaults, KUBERNETES)
  }

  lemma AdmittedTables(defaults: Groups, sinks: Sinks, keys: seq<string>)
    requires Enumerates(keys, sinks) && AllPassed(sinks)
    ensures |FlatMap(TypedOf, AllInputs(sinks, keys))| == |AllInputs(sinks, keys)|
    ensures |FlatMap(TypedOf, AllOutputs(sinks, keys))| == |AllOutputs(sinks, keys)|
    ensures Group(InputTables(defaults, sinks, keys), KUBERNETES) == Group(defaults, KUBERNETES)
  {
    hide Group, AllPassed, Enumerates, AllInputs, AllOutputs, InputTables, TypedOf;
    var inputs, outputs := AllInputs(sinks, keys), AllOutputs(sinks, keys);
    forall p ensures (p in inputs ==> InputError(p) == None) && (p in outputs ==> TypeError(p) == None) {
      PassedPlugins(sinks, keys, p);
    }
    NoneSkipped(inputs);
    NoneSkipped(outputs);
    forall k, p | k in sinks && p in sinks[k].spec.inputs ensures TypeOf(p) != Some(KUBERNETES) {
      PassedEntry(sinks, k, p);
    }
    KubernetesIsDefaultExactly(defaults, sinks, keys);
  }

  /**
   Entries of admitted sinks arrive in the configuration, all of them, if and only if there is something to read from and
   something to write to. Otherwise none does.
   */
  lemma AdmittedSinksArriveExactly(defaults: Groups, clusterName: string, sinks: Sinks, keys: seq<string>)
    requires Enumerates(keys, sinks) && AllPassed(sinks)
    ensures Whole(defaults, sinks, keys, RenderingOf(defaults, clusterName, sinks, keys)) <==> HasBoth(defaults, sinks)
    ensures RenderingOf(defaults, clusterName, sinks, keys) == Discard <==> !HasBoth(defaults, sinks)
  {
    AnyEntryIsTyped(defaults, sinks);
    RenderingIsWholeExactly(defaults, clusterName, sinks, keys);
    hide AllPassed, HasBoth, AnyTyped, InputTables, OutputTables, AllInputs, AllOutputs, Group, Flatten, TypedOf, Enumerates;
    AdmittedTables(defaults, sinks, keys);
    forall defaultTypes, types | Enumerates(defaultTypes, defaults) && Enumerates(types, InputTables(defaults, sinks, keys))
      ensures |Flatten(InputTables(defaults, sinks, keys), types)| == |Flatten(defaults, defaultTypes)| + |AllInputs(sinks, keys)|
    {
      InputsAreConserved(defaults, sinks, keys, defaultTypes, types);
    }
    forall types | Enumerates(types, OutputTables(sinks, keys)) ensures |Flatten(OutputTables(sinks, keys), types)| == |AllOutputs(sinks, keys)| {
      OutputsAreConserved(sinks, keys, types);
    }
  }

  // An admitted sink that never arrives.

  const INPUT_ONLY := ClusterMetricSink("sink", Spec([map[TYPE := Str("cpu")]], []), "")

  /** A sink with an input and no output passes, and nothing of it, nor of the defaults, is ever rendered. */
  lemma InputOnlySinkVanishes(clusterName: string, r: Rendered)
    requires Shows(DefaultsOf([KubernetesDefault(false)]), clusterName, map[INPUT_ONLY.name := INPUT_ONLY], r)
    ensures AllPassed(map[INPUT_ONLY.name := INPUT_ONLY]) && r == Discard
  {
    var sinks := map[INPUT_ONLY.name := INPUT_ONLY];
    assert Passed(INPUT_ONLY.spec) by {
      assert InputError(INPUT_ONLY.spec.inputs[0]) == None;
    }
    assert forall k | k in sinks :: sinks[k].spec.outputs == [];
    AdmittedFallBackExactly(DefaultsOf([KubernetesDefault(false)]), clusterName, sinks, r);
  }
}
