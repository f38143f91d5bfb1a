/** The controller of namespaced metric sinks: four Kubernetes resources for each, through API calls any of which may fail. */
module MetricController {
  import opened MetricPlugins
  import opened MetricSlices
  import opened MetricConfig
  import opened MetricLaws

  datatype MetricSink = MetricSink(apiVersion: string, kind: string, namespace: string, name: string, uid: string, spec: Spec)

  datatype Id = Id(namespace: string, name: string)

  // The cluster.

  datatype Kind = Role | RoleBinding | ConfigMap | Deployment

  datatype Resource = Resource(kind: Kind, namespace: string, name: string)

  datatype Owner = Owner(apiVersion: string, kind: string, name: string, uid: string)

  /** What distinguishes the four: a binding names its role, a deployment the config map it mounts. */
  datatype Body = RoleBody | BindingBody(roleRef: string, subjectNamespace: string) | ConfigMapBody(config: Rendered) | DeploymentBody(configMap: string)

  datatype Object = Object(owner: Owner, app: string, body: Body)

  type Store = map<Resource, Object>

  datatype Call = Create(r: Resource, o: Object) | Update(r: Resource, o: Object) | Delete(r: Resource) | DeletePods(namespace: string, app: string)

  datatype Reply = Done | AlreadyExists | NotFound | Unavailable

  /** A call either takes effect or fails and changes nothing; it can be unavailable at any time. */
  predicate Answers(before: Store, call: Call, reply: Reply, after: Store) {
    if reply == Unavailable then after == before
    else match call
      case Create(r, o) =>
        if r in before then reply == AlreadyExists && after == before else reply == Done && after == before[r := o]
      case Update(r, o) =>
        if r in before then reply == Done && after == before[r := o] else reply == NotFound && after == before
      case Delete(r) =>
        if r in before then reply == Done && after == before - {r} else reply == NotFound && after == before
      case DeletePods(_, _) => reply == Done && after == before
  }

  datatype Step = Step(before: Store, call: Call, reply: Reply, after: Store)

  class Api {
    var store: Store
    ghost var trace: seq<Step>

    constructor ()
      ensures store == map[] && trace == []
    {
      store, trace := map[], [];
    }

    method Invoke(call: Call) returns (reply: Reply)
      modifies this
      ensures Answers(old(store), call, reply, store)
      ensures trace == old(trace) + [Step(old(store), call, reply, store)]
    {
      var available: bool := *;
      ghost var before := store;
      if !available {
        reply := Unavailable;
      } else {
        match call {
          case Create(r, o) =>
            if r in store { reply := AlreadyExists; } else { reply, store := Done, store[r := o]; }
          case Update(r, o) =>
            if r in store { reply, store := Done, store[r := o]; } else { reply := NotFound; }
          case Delete(r) =>
            if r in store { reply, store := Done, store - {r}; } else { reply := NotFound; }
          case DeletePods(_, _) => reply := Done;
        }
      }
      trace := trace + [Step(before, call, reply, store)];
    }
  }

  // The resources of a sink.

  const PREFIX := "telegraf-"

  function AppName(name: string): string {
    PREFIX + name
  }

  function IdOf(ms: MetricSink): Id {
    Id(ms.namespace, ms.name)
  }

  function ResourceOf(kind: Kind, id: Id): Resource {
    Resource(kind, id.namespace, AppName(id.name))
  }

  /** `setDefaultTypeMeta`. */
  function Defaulted(ms: MetricSink): MetricSink {
    ms.(kind := if ms.kind == "" then "MetricSink" else ms.kind,
        apiVersion := if ms.apiVersion == "" then "observability.knative.dev/v1alpha1" else ms.apiVersion)
  }

  function OwnerOf(ms: MetricSink): Owner {
    Owner(ms.apiVersion, ms.kind, ms.name, ms.uid)
  }

  const PROMETHEUS := "prometheus"

  function PrometheusTable(namespace: string): Plugin {
    map["monitor_kubernetes_pods" := Bool(true), "monitor_kubernetes_pods_namespace" := Str(namespace)]
  }

  /** The sink's own configuration: a prometheus input for its namespace, then its own plugins. */
  function MetricSinkConfig(clusterName: string, namespace: string, spec: Spec): Rendered {
    Encoded(GlobalTags(clusterName), Aggregate(map[PROMETHEUS := [PrometheusTable(namespace)]], spec.inputs), Aggregate(map[], spec.outputs))
  }

  function BodyOf(clusterName: string, kind: Kind, ms: MetricSink): Body {
    match kind
    case Role => RoleBody
    case RoleBinding => BindingBody(AppName(ms.name), ms.namespace)
    case ConfigMap => ConfigMapBody(MetricSinkConfig(clusterName, ms.namespace, ms.spec))
    case Deployment => DeploymentBody(AppName(ms.name))
  }

  function ObjectOf(clusterName: string, kind: Kind, ms: MetricSink): Object {
    Object(OwnerOf(ms), AppName(ms.name), BodyOf(clusterName, kind, ms))
  }

  // What each notification asks for.

  datatype Event = Added(sink: MetricSink) | Updated(before: MetricSink, after: MetricSink) | Deleted(sink: MetricSink)

  /** The sink whose resources a handler addresses. */
  function Subject(e: Event): MetricSink {
    if e.Updated? then e.after else e.sink
  }

  function CreateOf(clusterName: string, kind: Kind, ms: MetricSink): Call {
    Create(ResourceOf(kind, IdOf(ms)), ObjectOf(clusterName, kind, Defaulted(ms)))
  }

  function DeleteOf(kind: Kind, ms: MetricSink): Call {
    Delete(ResourceOf(kind, IdOf(ms)))
  }

  /** The calls a handler makes as long as none fails. */
  function Script(clusterName: string, e: Event): seq<Call> {
    match e
    case Added(ms) =>
      [CreateOf(clusterName, Role, ms), CreateOf(clusterName, RoleBinding, ms),
       CreateOf(clusterName, ConfigMap, ms), CreateOf(clusterName, Deployment, ms)]
    case Updated(before, ms) =>
      if before.spec == ms.spec then []
      else [Update(ResourceOf(ConfigMap, IdOf(ms)), ObjectOf(clusterName, ConfigMap, ms)), DeletePods(ms.namespace, AppName(ms.name))]
    case Deleted(ms) =>
      [DeleteOf(ConfigMap, ms), DeleteOf(Deployment, ms), DeleteOf(RoleBinding, ms), DeleteOf(Role, ms)]
  }

  /** The store between the calls: before the first one, or after the `i`-th. */
  function StoreAt(store: Store, steps: seq<Step>, i: nat): Store
    requires i <= |steps|
  {
    if i == 0 then store else steps[i - 1].after
  }

  /** The `i`-th step makes the `i`-th call of the script, in the store its predecessor left. */
  predicate StepFits(script: seq<Call>, store: Store, steps: seq<Step>, i: nat)
    requires i < |steps| <= |script|
  {
    && steps[i].before == StoreAt(store, steps, i) && steps[i].call == script[i]
    && Answers(steps[i].before, steps[i].call, steps[i].reply, steps[i].after)
  }

  /** `steps` carry out `script` from `store` on, up to the first call that fails. */
  ghost predicate Follows(script: seq<Call>, store: Store, steps: seq<Step>, after: Store) {
    && |steps| <= |script| && after == StoreAt(store, steps, |steps|)
    && (forall i | 0 <= i < |steps| :: StepFits(script, store, steps, i))
    && (forall i | 0 <= i < |steps| - 1 :: steps[i].reply == Done)
    && (|steps| < |script| ==> steps != [] && steps[|steps| - 1].reply != Done)
  }

  /** `steps` are the first calls of `script`, all of them done. */
  ghost predicate Underway(script: seq<Call>, store: Store, steps: seq<Step>, now: Store) {
    && |steps| < |script| && now == StoreAt(store, steps, |steps|)
    && (forall i | 0 <= i < |steps| :: StepFits(script, store, steps, i))
    && (forall i | 0 <= i < |steps| :: steps[i].reply == Done)
  }

  lemma OneCallMore(script: seq<Call>, store: Store, steps: seq<Step>, now: Store, step: Step)
    requires Underway(script, store, steps, now)
    requires step.before == now && step.call == script[|steps|] && Answers(now, step.call, step.reply, step.after)
    ensures step.reply == Done && |steps| + 1 < |script| ==> Underway(script, store, steps + [step], step.after)
    ensures step.reply != Done || |steps| + 1 == |script| ==> Follows(script, store, steps + [step], step.after)
  {
    var more := steps + [step];
    assert forall i | 0 <= i < |more| :: StepFits(script, store, more, i) by {
      hide Answers;
      forall i | 0 <= i < |more| ensures StepFits(script, store, more, i) {
        assert i < |steps| ==> StepFits(script, store, steps, i);
      }
    }
    hide StepFits;
  }

  lemma Beginning(script: seq<Call>, store: Store)
    ensures if script == [] then Follows(script, store, [], store) else Underway(script, store, [], store)
  {
  }

  class Controller {
    const api: Api
    const clusterName: string

    constructor (clusterName: string, api: Api)
      ensures this.clusterName == clusterName && this.api == api
    {
      this.clusterName, this.api := clusterName, api;
    }

    /** The next call of a script under way. */
    method Proceed(call: Call, ghost script: seq<Call>, ghost store: Store, ghost steps: seq<Step>) returns (reply: Reply, ghost more: seq<Step>)
      requires Underway(script, store, steps, api.store) && call == script[|steps|]
      modifies api
      ensures |more| == |steps| + 1 && api.trace == old(api.trace) + [more[|steps|]] && more == steps + [more[|steps|]]
      ensures reply == Done && |more| < |script| ==> Underway(script, store, more, api.store)
      ensures reply != Done || |more| == |script| ==> Follows(script, store, more, api.store)
    {
      hide Underway, Follows, Answers;
      ghost var before := api.store;
      reply := api.Invoke(call);
      ghost var step := Step(before, call, reply, api.store);
      OneCallMore(script, store, steps, before, step);
      more := steps + [step];
    }

    method OnAdd(o: MetricSink)
      modifies api
      ensures old(api.trace) <= api.trace
      ensures Follows(Script(clusterName, Added(o)), old(api.store), api.trace[|old(api.trace)|..], api.store)
    {
      hide ObjectOf, ResourceOf, Underway, Follows;
      ghost var script, store := Script(clusterName, Added(o)), api.store;
      Beginning(script, store);
      ghost var steps := [];
      var ms := SetDefaultTypeMeta(o);
      var reply;
      reply, steps := Proceed(Create(ResourceOf(Role, IdOf(ms)), ObjectOf(clusterName, Role, ms)), script, store, steps);
      assert api.trace[|old(api.trace)|..] == steps;
      if reply != Done {
        return;
      }
      reply, steps := Proceed(Create(ResourceOf(RoleBinding, IdOf(ms)), ObjectOf(clusterName, RoleBinding, ms)), script, store, steps);
      assert api.trace[|old(api.trace)|..] == steps;
      if reply != Done {
        return;
      }
      var configMap := ConfigMapObject(ms);
      reply, steps := Proceed(Create(ResourceOf(ConfigMap, IdOf(ms)), configMap), script, store, steps);
      assert api.trace[|old(api.trace)|..] == steps;
      if reply != Done {
        return;
      }
      reply, steps := Proceed(Create(ResourceOf(Deployment, IdOf(ms)), ObjectOf(clusterName, Deployment, ms)), script, store, steps);
      assert api.trace[|old(api.trace)|..] == steps;
    }

    method OnUpdate(before: MetricSink, after: MetricSink)
      modifies api
      ensures old(api.trace) <= api.trace
      ensures Follows(Script(clusterName, Updated(before, after)), old(api.store), api.trace[|old(api.trace)|..], api.store)
    {
      hide ObjectOf, ResourceOf, Underway, Follows;
      ghost var script, store := Script(clusterName, Updated(before, after)), api.store;
      Beginning(script, store);
      if before.spec == after.spec {
        assert api.trace[|old(api.trace)|..] == [];
        return;
      }
      ghost var steps := [];
      var configMap := ConfigMapObject(after);
      var reply;
      reply, steps := Proceed(Update(ResourceOf(ConfigMap, IdOf(after)), configMap), script, store, steps);
      assert api.trace[|old(api.trace)|..] == steps;
      if reply != Done {
        return;
      }
      reply, steps := Proceed(DeletePods(after.namespace, AppName(after.name)), script, store, steps);
      assert api.trace[|old(api.trace)|..] == steps;
    }

    method OnDelete(ms: MetricSink)
      modifies api
      ensures old(api.trace) <= api.trace
      ensures Follows(Script(clusterName, Deleted(ms)), old(api.store), api.trace[|old(api.trace)|..], api.store)
    {
      hide ResourceOf, Underway, Follows;
      ghost var script, store := Script(clusterName, Deleted(ms)), api.store;
      Beginning(script, store);
      ghost var steps := [];
      var reply;
      reply, steps := Proceed(Delete(ResourceOf(ConfigMap, IdOf(ms))), script, store, steps);
      assert api.trace[|old(api.trace)|..] == steps;
      if reply != Done {
        return;
      }
      reply, steps := Proceed(Delete(ResourceOf(Deployment, IdOf(ms))), script, store, steps);
      assert api.trace[|old(api.trace)|..] == steps;
      if reply != Done {
        return;
      }
      reply, steps := Proceed(Delete(ResourceOf(RoleBinding, IdOf(ms))), script, store, steps);
      assert api.trace[|old(api.trace)|..] == steps;
      if reply != Done {
        return;
      }
      reply, steps := Proceed(Delete(ResourceOf(Role, IdOf(ms))), script, store, steps);
      assert api.trace[|old(api.trace)|..] == steps;
    }

    method ConfigMapObject(ms: MetricSink) returns (o: Object)
      ensures o == ObjectOf(clusterName, ConfigMap, ms)
    {
      var config := BuildConfig(clusterName, ms.namespace, ms.spec);
      o := Object(OwnerOf(ms), AppName(ms.name), ConfigMapBody(config));
    }
  }

  method SetDefaultTypeMeta(o: MetricSink) returns (ms: MetricSink)
    ensures ms == Defaulted(o)
  {
    ms := o;
    if ms.kind == "" {
      ms := ms.(kind := "MetricSink");
    }
    if ms.apiVersion == "" {
      ms := ms.(apiVersion := "observability.knative.dev/v1alpha1");
    }
  }

  /** Fills the tables of a fresh configuration in place. */
  method BuildConfig(clusterName: string, namespace: string, spec: Spec) returns (r: Rendered)
    ensures r == MetricSinkConfig(clusterName, namespace, spec) && Configures(clusterName, namespace, spec, r)
  {
    SinkIsConfigured(clusterName, namespace, spec);
    hide HoldsAll, Configures;
    var inputs := new PluginTables.Of(PROMETHEUS, PrometheusTable(namespace));
    var outputs := new PluginTables.Empty();
    var config := new TelegrafConfig(GlobalTags(clusterName), inputs, outputs);
    config.AppendInputsAndOutputs(spec.inputs, spec.outputs);
    r := config.String();
  }

  // What a sink's configuration holds.

  /** The tables of type `t`: for prometheus first the one that watches the pods of the namespace, then the sink's own. */
  predicate ConfiguresType(namespace: string, spec: Spec, inputs: Groups, outputs: Groups, t: string) {
    && Group(inputs, t)
       == (if t == "prometheus"
           then [map["monitor_kubernetes_pods" := Bool(true), "monitor_kubernetes_pods_namespace" := Str(namespace)]]
           else [])
          + TablesOf(t, spec.inputs)
    && Group(outputs, t) == TablesOf(t, spec.outputs)
    && (t in inputs <==> t == "prometheus" || TablesOf(t, spec.inputs) != [])
    && (t in outputs <==> TablesOf(t, spec.outputs) != [])
  }

  /** `r` is the configuration of a sink: the discard one if and only if no output names a type, and all its tables otherwise. */
  ghost predicate Configures(clusterName: string, namespace: string, spec: Spec, r: Rendered) {
    && (r == Discard <==> forall p: Plugin | p in spec.outputs :: "type" !in p || !p["type"].Str?)
    && (r.Tables? ==>
          && (clusterName == "" ==> r.globalTags == map[]) && (clusterName != "" ==> r.globalTags == map["cluster_name" := clusterName])
          && forall t :: ConfiguresType(namespace, spec, r.inputs, r.outputs, t))
  }

  lemma SinkIsConfigured(clusterName: string, namespace: string, spec: Spec)
    ensures Configures(clusterName, namespace, spec, MetricSinkConfig(clusterName, namespace, spec))
  {
    var base: Groups := map[PROMETHEUS := [PrometheusTable(namespace)]];
    var inputs, outputs := Aggregate(base, spec.inputs), Aggregate(map[], spec.outputs);
    AggregateMeaning(base, spec.inputs);
    AggregateMeaning(map[], spec.outputs);
    forall t ensures ConfiguresType(namespace, spec, inputs, outputs, t) {
      assert AggregatesAt(base, spec.inputs, inputs, t) && AggregatesAt(map[], spec.outputs, outputs, t);
    }
    assert PROMETHEUS in base;
    EmptyExactlyWithoutTables(base, spec.inputs);
    EmptyExactlyWithoutTables(map[], spec.outputs);
    TypedGivesTable(spec.outputs);
    hide Aggregate, Aggregates, TablesOf, ConfiguresType;
    assert forall p: Plugin :: TypeOf(p).Some? <==> "type" in p && p["type"].Str?;
  }
}
