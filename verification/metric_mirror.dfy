/** Runs of the metric sink controller in which every call is answered: what the cluster then holds. */
module MetricMirror {
  import opened GoLang
  import opened MetricPlugins
  import opened MetricConfig
  import opened MetricController
  import opened MetricLifecycle

  /** A live sink: the object it was added as, the latest one, and the one its config map was last written from. */
  datatype Record = Record(created: MetricSink, latest: MetricSink, written: MetricSink)

  type Live = map<Id, Record>

  /** Only an addition defaults the type meta of what it writes. */
  function LiveAfter(live: Live, e: Event): Live {
    match e
    case Added(ms) => live[IdOf(ms) := Record(ms, ms, Defaulted(ms))]
    case Updated(before, ms) =>
      if IdOf(ms) !in live then live
      else
        var was := live[IdOf(ms)];
        live[IdOf(ms) := was.(latest := ms, written := if before.spec == ms.spec then was.written else ms)]
    case Deleted(ms) => live - {IdOf(ms)}
  }

  function LiveAfterAll(events: seq<Event>): Live {
    if events == [] then map[] else LiveAfter(LiveAfterAll(events[..|events| - 1]), events[|events| - 1])
  }

  /** What an informer guarantees: it adds what it does not hold, and updates or deletes what it does. */
  predicate FaithfulEvent(live: Live, e: Event) {
    match e
    case Added(ms) => IdOf(ms) !in live
    case Updated(before, ms) => IdOf(before) == IdOf(ms) && IdOf(ms) in live && live[IdOf(ms)].latest.spec == before.spec
    case Deleted(ms) => IdOf(ms) in live
  }

  ghost predicate FaithfulStream(events: seq<Event>) {
    forall n | 0 <= n < |events| :: FaithfulEvent(LiveAfterAll(events[..n]), events[n])
  }

  /** The object a live sink should have: the config map of what was last written, the others as they were created. */
  function ObjectFor(clusterName: string, kind: Kind, record: Record): Object {
    ObjectOf(clusterName, kind, if kind == ConfigMap then record.written else Defaulted(record.created))
  }

  predicate Serves(clusterName: string, store: Store, kind: Kind, id: Id, record: Record) {
    ResourceOf(kind, id) in store && store[ResourceOf(kind, id)] == ObjectFor(clusterName, kind, record)
  }

  /** All of a record is about the same sink, and what was written is the latest spec. */
  predicate Coherent(id: Id, record: Record) {
    IdOf(record.created) == IdOf(record.latest) == IdOf(record.written) == id && record.written.spec == record.latest.spec
  }

  /** The cluster holds the four objects of every live sink, and nothing else. */
  ghost predicate Mirrors(clusterName: string, store: Store, live: Live) {
    && (forall id | id in live :: Coherent(id, live[id]))
    && (forall id, kind | id in live && kind in ALL :: Serves(clusterName, store, kind, id, live[id]))
    && (forall r | r in store :: Backed(live, r))
  }

  /** The resource is one of a live sink's. */
  ghost predicate Backed(live: Live, r: Resource) {
    exists id :: id in live && r == ResourceOf(r.kind, id)
  }

  lemma KindsMirrored(clusterName: string, store: Store, live: Live, id: Id)
    requires Mirrors(clusterName, store, live)
    ensures Has(store, id) == if id in live then ALL else {}
  {
    hide Backed, Has;
    forall kind ensures kind in Has(store, id) <==> id in live {
      EveryKind(kind);
      KindsAreResources(store, id, kind);
      if id in live {
        assert Serves(clusterName, store, kind, id, live[id]);
      } else if ResourceOf(kind, id) in store {
        BackedSinkIsLive(live, id, kind);
      }
    }
    forall kind ensures kind in ALL {
      EveryKind(kind);
    }
  }

  lemma BackedSinkIsLive(live: Live, id: Id, kind: Kind)
    ensures Backed(live, ResourceOf(kind, id)) <==> id in live
  {
    if other :| other in live && ResourceOf(kind, id) == ResourceOf(kind, other) {
      ResourceTellsSink(kind, id, other);
    }
  }

  /** In the right state an available call is done. */
  lemma UndisturbedCallsAreDone(clusterName: string, live: Live, e: Event, store: Store, steps: seq<Step>, after: Store, i: nat)
    requires Follows(Script(clusterName, e), store, steps, after) && Undisturbed(steps) && Ordered(store)
    requires Mirrors(clusterName, store, live) && FaithfulEvent(live, e) && i < |steps|
    ensures steps[i].reply == Done
  {
    hide Mirrors, Ordered, Script, Created, Removed, Has;
    var script, id := Script(clusterName, e), IdOf(Subject(e));
    KindsMirrored(clusterName, store, live, id);
    forall j | 0 <= j < i ensures steps[j].reply == Done {
      assert j < |steps| - 1;
    }
    Progress(clusterName, e, store, steps, after, i);
    ScriptKinds(clusterName, e, i);
    ScriptConcernsSubject(clusterName, e, i);
    assert StepFits(script, store, steps, i);
    DoneByKinds(script, store, steps, i, id);
    hide StepFits, Concerns;
    if !script[i].DeletePods? {
      EveryKind(script[i].r.kind);
    }
  }

  lemma UndisturbedHandlerCompletes(clusterName: string, live: Live, e: Event, store: Store, steps: seq<Step>, after: Store)
    requires Follows(Script(clusterName, e), store, steps, after) && Undisturbed(steps) && Ordered(store)
    requires Mirrors(clusterName, store, live) && FaithfulEvent(live, e)
    ensures |steps| == |Script(clusterName, e)| && forall i | 0 <= i < |steps| :: steps[i].reply == Done
  {
    forall i | 0 <= i < |steps| ensures steps[i].reply == Done {
      UndisturbedCallsAreDone(clusterName, live, e, store, steps, after, i);
    }
    hide Script, Ordered, Mirrors, FaithfulEvent;
  }

  /** What a completed handler leaves for its own sink: an added one's four objects, an updated one's new config map. */
  predicate Left(clusterName: string, e: Event, store: Store, after: Store, kind: Kind) {
    var r := ResourceOf(kind, IdOf(Subject(e)));
    match e
    case Added(ms) => r in after && after[r] == ObjectOf(clusterName, kind, Defaulted(ms))
    case Updated(before, ms) =>
      if before.spec != ms.spec && kind == ConfigMap then r in after && after[r] == ObjectOf(clusterName, ConfigMap, ms)
      else Agree(store, after, r)
    case Deleted(_) => r !in after
  }

  lemma CompletedHandler(clusterName: string, e: Event, store: Store, steps: seq<Step>, after: Store, kind: Kind)
    requires Follows(Script(clusterName, e), store, steps, after)
    requires |steps| == |Script(clusterName, e)| && forall i | 0 <= i < |steps| :: steps[i].reply == Done
    ensures Left(clusterName, e, store, after, kind)
  {
    hide ObjectOf, ResourceOf, Defaulted;
    var script := Script(clusterName, e);
    forall i | 0 <= i < |steps| ensures StepFits(script, store, steps, i) && steps[i].reply == Done {
    }
    if |script| > 0 {
      assert StepFits(script, store, steps, 0) && StepFits(script, store, steps, 1);
    }
    if |script| == 4 {
      assert StepFits(script, store, steps, 2) && StepFits(script, store, steps, 3);
    }
    KindsDiffer(IdOf(Subject(e)));
    match kind {
      case Role =>
      case RoleBinding =>
      case ConfigMap =>
      case Deployment =>
    }
  }

  lemma KindsDiffer(id: Id)
    ensures forall a, b | a != b :: ResourceOf(a, id) != ResourceOf(b, id)
  {
  }

  lemma SubjectServed(clusterName: string, live: Live, e: Event, store: Store, steps: seq<Step>, after: Store, kind: Kind)
    requires Follows(Script(clusterName, e), store, steps, after) && Undisturbed(steps) && Ordered(store)
    requires Mirrors(clusterName, store, live) && FaithfulEvent(live, e) && !e.Deleted? && kind in ALL
    ensures var id := IdOf(Subject(e));
      id in LiveAfter(live, e) && Serves(clusterName, after, kind, id, LiveAfter(live, e)[id])
  {
    UndisturbedHandlerCompletes(clusterName, live, e, store, steps, after);
    hide Script, Ordered, Undisturbed, Follows, Serves, Left, ResourceOf, Mirrors;
    CompletedHandler(clusterName, e, store, steps, after, kind);
    if e.Updated? {
      MirroredSink(clusterName, store, live, IdOf(e.before), kind);
    }
    LeftServes(clusterName, live, e, store, after, kind);
  }

  lemma ServesAfter(clusterName: string, live: Live, e: Event, store: Store, steps: seq<Step>, after: Store, id: Id, kind: Kind)
    requires Follows(Script(clusterName, e), store, steps, after) && Undisturbed(steps) && Ordered(store)
    requires Mirrors(clusterName, store, live) && FaithfulEvent(live, e) && id in LiveAfter(live, e) && kind in ALL
    ensures Serves(clusterName, after, kind, id, LiveAfter(live, e)[id])
  {
    hide Script, Ordered, Undisturbed, Follows, Serves, ResourceOf, Mirrors, FaithfulEvent;
    if id == IdOf(Subject(e)) {
      SubjectServed(clusterName, live, e, store, steps, after, kind);
    } else {
      MirroredSink(clusterName, store, live, id, kind);
      OtherUntouched(clusterName, e, store, steps, after, id, kind);
      AgreementServes(clusterName, store, after, kind, id, live[id]);
    }
  }

  lemma MirroredSink(clusterName: string, store: Store, live: Live, id: Id, kind: Kind)
    requires Mirrors(clusterName, store, live) && kind in ALL && id in live
    ensures Serves(clusterName, store, kind, id, live[id]) && Coherent(id, live[id])
  {
    hide Serves, Backed;
  }

  lemma LeftServes(clusterName: string, live: Live, e: Event, store: Store, after: Store, kind: Kind)
    requires FaithfulEvent(live, e) && !e.Deleted? && Left(clusterName, e, store, after, kind)
    requires e.Updated? ==> Serves(clusterName, store, kind, IdOf(e.after), live[IdOf(e.after)])
    ensures var id := IdOf(Subject(e));
      id in LiveAfter(live, e) && Serves(clusterName, after, kind, id, LiveAfter(live, e)[id])
  {
    hide ObjectOf, ResourceOf;
  }

  lemma AgreementServes(clusterName: string, store: Store, after: Store, kind: Kind, id: Id, record: Record)
    requires Agree(store, after, ResourceOf(kind, id)) && Serves(clusterName, store, kind, id, record)
    ensures Serves(clusterName, after, kind, id, record)
  {
  }

  lemma StaysCoherent(live: Live, e: Event, id: Id)
    requires FaithfulEvent(live, e) && id in LiveAfter(live, e) && (id in live ==> Coherent(id, live[id]))
    ensures Coherent(id, LiveAfter(live, e)[id])
  {
  }

  lemma BackedAfter(clusterName: string, live: Live, e: Event, store: Store, steps: seq<Step>, after: Store, r: Resource)
    requires Follows(Script(clusterName, e), store, steps, after) && Undisturbed(steps) && Ordered(store)
    requires Mirrors(clusterName, store, live) && FaithfulEvent(live, e) && r in after
    ensures Backed(LiveAfter(live, e), r)
  {
    UndisturbedHandlerCompletes(clusterName, live, e, store, steps, after);
    var subject := IdOf(Subject(e));
    if r == ResourceOf(r.kind, subject) {
      hide Script, Ordered, Undisturbed, Serves, ResourceOf, Follows, ObjectOf;
      CompletedHandler(clusterName, e, store, steps, after, r.kind);
      assert !e.Deleted?;
      BackedSinkIsLive(LiveAfter(live, e), subject, r.kind);
    } else {
      hide Script, Ordered, Undisturbed, Serves, ResourceOf, LiveAfter;
      OthersAreUntouched(clusterName, e, store, steps, after, |steps|, r);
      assert r in store && Backed(live, r);
      StillBacked(live, e, r);
    }
  }

  lemma StillBacked(live: Live, e: Event, r: Resource)
    requires Backed(live, r) && r != ResourceOf(r.kind, IdOf(Subject(e)))
    ensures Backed(LiveAfter(live, e), r)
  {
    hide ResourceOf;
    var id :| id in live && r == ResourceOf(r.kind, id);
    assert id in LiveAfter(live, e);
  }

  lemma HandlerMirrors(clusterName: string, live: Live, e: Event, store: Store, steps: seq<Step>, after: Store)
    requires Follows(Script(clusterName, e), store, steps, after) && Undisturbed(steps) && Ordered(store)
    requires Mirrors(clusterName, store, live) && FaithfulEvent(live, e)
    ensures Mirrors(clusterName, after, LiveAfter(live, e))
  {
    forall id | id in LiveAfter(live, e) ensures Coherent(id, LiveAfter(live, e)[id]) {
      StaysCoherent(live, e, id);
    }
    forall id, kind | id in LiveAfter(live, e) && kind in ALL ensures Serves(clusterName, after, kind, id, LiveAfter(live, e)[id]) {
      ServesAfter(clusterName, live, e, store, steps, after, id, kind);
    }
    forall r | r in after ensures Backed(LiveAfter(live, e), r) {
      BackedAfter(clusterName, live, e, store, steps, after, r);
    }
    hide Follows, Ordered, Undisturbed, LiveAfter, Backed, Serves, Coherent;
  }

  /**
   When nothing fails: after any faithful notifications about any number of sinks the cluster holds exactly the four
   objects of each live sink, as they were created but for the config map, which has the configuration of the latest spec.
   */
  lemma {:induction false} ClusterMirrorsSinks(clusterName: string, events: seq<Event>, stores: seq<Store>, handlers: seq<seq<Step>>, n: nat)
    requires RunsFrom(clusterName, map[], events, stores, handlers) && n < |stores|
    requires FaithfulStream(events) && forall m | 0 <= m < |handlers| :: Undisturbed(handlers[m])
    ensures Mirrors(clusterName, stores[n], LiveAfterAll(events[..n]))
  {
    hide Follows, Ordered, Undisturbed, FaithfulEvent, Script;
    if n == 0 {
      assert events[..0] == [];
    } else {
      ClusterMirrorsSinks(clusterName, events, stores, handlers, n - 1);
      EmptyIsOrdered();
      StoresAreOrdered(clusterName, map[], events, stores, handlers, n - 1);
      assert events[..n][..n - 1] == events[..n - 1];
      hide Mirrors;
      HandlerMirrors(clusterName, LiveAfterAll(events[..n - 1]), events[n - 1], stores[n - 1], handlers[n - 1], stores[n]);
    }
  }

  lemma LatestSpecIsConfigured(clusterName: string, store: Store, live: Live, id: Id) returns (r: Rendered)
    requires Mirrors(clusterName, store, live) && id in live
    ensures ResourceOf(ConfigMap, id) in store && store[ResourceOf(ConfigMap, id)].body == ConfigMapBody(r)
    ensures Configures(clusterName, id.namespace, live[id].latest.spec, r)
  {
    hide Configures, ResourceOf, Mirrors, Serves, Coherent, MetricSinkConfig;
    MirroredSink(clusterName, store, live, id, ConfigMap);
    ServedConfig(clusterName, store, id, live[id]);
    r := MetricSinkConfig(clusterName, id.namespace, live[id].latest.spec);
    SinkIsConfigured(clusterName, id.namespace, live[id].latest.spec);
  }

  lemma ServedConfig(clusterName: string, store: Store, id: Id, record: Record)
    requires Serves(clusterName, store, ConfigMap, id, record) && Coherent(id, record)
    ensures ResourceOf(ConfigMap, id) in store
    ensures store[ResourceOf(ConfigMap, id)].body == ConfigMapBody(MetricSinkConfig(clusterName, id.namespace, record.latest.spec))
  {
    hide MetricSinkConfig, ResourceOf;
  }

  /** The owner is the sink `ms`, under its own type if it has one and under the default type if it was given that. */
  predicate OwnedBy(o: Owner, ms: MetricSink, defaulted: bool) {
    && o.name == ms.name && o.uid == ms.uid
    && o.kind == (if defaulted && ms.kind == "" then "MetricSink" else ms.kind)
    && o.apiVersion == (if defaulted && ms.apiVersion == "" then "observability.knative.dev/v1alpha1" else ms.apiVersion)
  }

  /** A live sink's objects: their names, labels and owners, and how they refer to each other. */
  lemma LiveSinkObjects(clusterName: string, store: Store, live: Live, id: Id, kind: Kind)
    requires Mirrors(clusterName, store, live) && id in live
    ensures var r := Resource(kind, id.namespace, "telegraf-" + id.name);
      && r in store && store[r].app == "telegraf-" + id.name
      && (kind != ConfigMap ==> OwnedBy(store[r].owner, live[id].created, true))
      && (kind == ConfigMap ==> OwnedBy(store[r].owner, live[id].written, false))
      && (kind == Role ==> store[r].body == RoleBody)
      && (kind == RoleBinding ==> store[r].body == BindingBody("telegraf-" + id.name, id.namespace))
      && (kind == Deployment ==> store[r].body == DeploymentBody("telegraf-" + id.name))
  {
    hide MetricSinkConfig;
    EveryKind(kind);
    MirroredSink(clusterName, store, live, id, kind);
    hide Mirrors;
  }

  // Restarting the pods.

  /** Pods are deleted in the second call of a handler for a changed spec, once the config map is written, and nowhere else. */
  lemma PodsAreDeletedExactly(clusterName: string, e: Event, store: Store, steps: seq<Step>, after: Store, i: nat)
    requires Follows(Script(clusterName, e), store, steps, after) && i < |steps|
    ensures steps[i].call.DeletePods? <==> e.Updated? && i == 1
    ensures e.Updated? ==> e.before.spec != e.after.spec
    ensures e.Updated? && i == 1 ==>
      && steps[i].call == DeletePods(e.after.namespace, "telegraf-" + e.after.name)
      && var r := Resource(ConfigMap, e.after.namespace, "telegraf-" + e.after.name);
      r in steps[i].before && exists config :: steps[i].before[r].body == ConfigMapBody(config) && Configures(clusterName, e.after.namespace, e.after.spec, config)
  {
    assert StepFits(Script(clusterName, e), store, steps, i);
    if e.Updated? && i == 1 {
      assert StepFits(Script(clusterName, e), store, steps, 0);
      hide MetricSinkConfig, Configures;
      SinkIsConfigured(clusterName, e.after.namespace, e.after.spec);
      assert steps[0].reply == Done;
    }
    hide MetricSinkConfig, Configures;
  }

  /** If every call is answered a change of spec deletes the pods of the sink's own deployment, and an equal spec does nothing. */
  lemma SpecChangeRestartsPods(clusterName: string, live: Live, before: MetricSink, ms: MetricSink, store: Store, steps: seq<Step>, after: Store)
    requires Follows(Script(clusterName, Updated(before, ms)), store, steps, after) && Undisturbed(steps) && Ordered(store)
    requires Mirrors(clusterName, store, live) && FaithfulEvent(live, Updated(before, ms))
    ensures before.spec == ms.spec ==> steps == [] && after == store
    ensures before.spec != ms.spec ==>
      && ResourceOf(Deployment, IdOf(ms)) in store && |steps| == 2 && steps[1].reply == Done
      && steps[1].call == DeletePods(ms.namespace, store[ResourceOf(Deployment, IdOf(ms))].app)
  {
    hide Mirrors, Configures, ObjectOf, ResourceOf, Ordered;
    UndisturbedHandlerCompletes(clusterName, live, Updated(before, ms), store, steps, after);
    LabelOfDeployment(clusterName, store, live, IdOf(ms));
    if before.spec != ms.spec {
      PodsAreDeletedExactly(clusterName, Updated(before, ms), store, steps, after, 1);
    }
  }

  lemma LabelOfDeployment(clusterName: string, store: Store, live: Live, id: Id)
    requires Mirrors(clusterName, store, live) && id in live
    ensures ResourceOf(Deployment, id) in store && store[ResourceOf(Deployment, id)].app == "telegraf-" + id.name
  {
    hide Mirrors;
    LiveSinkObjects(clusterName, store, live, id, Deployment);
  }

  // Who owns the config map.

  /** The event has the config map of `id` written. */
  predicate Writes(e: Event, id: Id) {
    IdOf(Subject(e)) == id && (e.Added? || (e.Updated? && e.before.spec != e.after.spec))
  }

  function WrittenBy(e: Event): MetricSink {
    if e.Added? then Defaulted(e.sink) else Subject(e)
  }

  /** The `m`-th event is the last of the first `n` to write it. */
  ghost predicate LastWriter(events: seq<Event>, n: nat, id: Id, m: nat)
    requires n <= |events|
  {
    m < n && Writes(events[m], id) && forall j | m < j < n :: !Writes(events[j], id)
  }

  lemma {:induction false} LastWriterExists(events: seq<Event>, n: nat, id: Id) returns (m: nat)
    requires FaithfulStream(events) && n <= |events| && id in LiveAfterAll(events[..n])
    ensures LastWriter(events, n, id, m) && LiveAfterAll(events[..n])[id].written == WrittenBy(events[m])
  {
    hide LiveAfter, FaithfulEvent, Writes, WrittenBy;
    assert n > 0;
    var live, e := LiveAfterAll(events[..n - 1]), events[n - 1];
    assert events[..n][..n - 1] == events[..n - 1];
    assert FaithfulEvent(live, e);
    WrittenStep(live, e, id);
    if Writes(e, id) {
      m := n - 1;
    } else {
      m := LastWriterExists(events, n - 1, id);
    }
  }

  lemma WrittenStep(live: Live, e: Event, id: Id)
    requires FaithfulEvent(live, e) && id in LiveAfter(live, e)
    ensures Writes(e, id) ==> LiveAfter(live, e)[id].written == WrittenBy(e)
    ensures !Writes(e, id) ==> id in live && LiveAfter(live, e)[id].written == live[id].written
  {
    hide Defaulted;
  }

  predicate Named(o: Owner) {
    o.apiVersion != "" && o.kind != ""
  }

  /**
   The config map is as the last writing event had it: owned by the defaulted object until the first change of spec, and by
   the object of the last such change from then on. So its owner has a kind and a version if and only if that object had
   them; the other three resources' owners always do.
   */
  lemma OwnersExactly(clusterName: string, events: seq<Event>, stores: seq<Store>, handlers: seq<seq<Step>>, n: nat, id: Id) returns (m: nat)
    requires RunsFrom(clusterName, map[], events, stores, handlers) && n < |stores|
    requires FaithfulStream(events) && forall m | 0 <= m < |handlers| :: Undisturbed(handlers[m])
    requires id in LiveAfterAll(events[..n])
    ensures LastWriter(events, n, id, m)
    ensures forall kind :: ResourceOf(kind, id) in stores[n]
    ensures stores[n][ResourceOf(ConfigMap, id)] == ObjectOf(clusterName, ConfigMap, WrittenBy(events[m]))
    ensures OwnedBy(stores[n][ResourceOf(ConfigMap, id)].owner, Subject(events[m]), events[m].Added?)
    ensures Named(stores[n][ResourceOf(ConfigMap, id)].owner) <==>
            events[m].Added? || (events[m].after.apiVersion != "" && events[m].after.kind != "")
    ensures forall kind | kind != ConfigMap :: Named(stores[n][ResourceOf(kind, id)].owner)
  {
    ClusterMirrorsSinks(clusterName, events, stores, handlers, n);
    hide Follows, Undisturbed, FaithfulEvent, Script, RunsFrom, Mirrors, FaithfulStream, Named;
    m := LastWriterExists(events, n, id);
    var live := LiveAfterAll(events[..n]);
    ServedConfigMap(clusterName, stores[n], live, id, events[m]);
    forall kind | kind != ConfigMap
      ensures ResourceOf(kind, id) in stores[n] && Named(stores[n][ResourceOf(kind, id)].owner)
    {
      ServedOther(clusterName, stores[n], live, id, kind);
    }
  }

  lemma ServedConfigMap(clusterName: string, store: Store, live: Live, id: Id, e: Event)
    requires Mirrors(clusterName, store, live) && id in live && live[id].written == WrittenBy(e) && Writes(e, id)
    ensures var r := ResourceOf(ConfigMap, id);
      && r in store && store[r] == ObjectOf(clusterName, ConfigMap, WrittenBy(e)) && OwnedBy(store[r].owner, Subject(e), e.Added?)
      && (Named(store[r].owner) <==> e.Added? || (e.after.apiVersion != "" && e.after.kind != ""))
  {
    hide Mirrors, BodyOf, ResourceOf, Coherent, Defaulted;
    MirroredSink(clusterName, store, live, id, ConfigMap);
    WriterIsNamed(e, id);
    hide WrittenBy, Writes, Named;
  }

  lemma WriterIsNamed(e: Event, id: Id)
    requires Writes(e, id)
    ensures OwnedBy(OwnerOf(WrittenBy(e)), Subject(e), e.Added?)
    ensures Named(OwnerOf(WrittenBy(e))) <==> e.Added? || (e.after.apiVersion != "" && e.after.kind != "")
  {
  }

  lemma ServedOther(clusterName: string, store: Store, live: Live, id: Id, kind: Kind)
    requires Mirrors(clusterName, store, live) && id in live && kind != ConfigMap
    ensures var r := ResourceOf(kind, id); r in store && Named(store[r].owner)
  {
    hide Mirrors, BodyOf, ResourceOf, Coherent;
    EveryKind(kind);
    MirroredSink(clusterName, store, live, id, kind);
  }

  // Such runs exist.

  lemma AnswerExists(before: Store, call: Call) returns (reply: Reply, after: Store)
    ensures Answers(before, call, reply, after) && reply != Unavailable
  {
    match call {
      case Create(r, o) =>
        if r in before { reply, after := AlreadyExists, before; } else { reply, after := Done, before[r := o]; }
      case Update(r, o) =>
        if r in before { reply, after := Done, before[r := o]; } else { reply, after := NotFound, before; }
      case Delete(r) =>
        if r in before { reply, after := Done, before - {r}; } else { reply, after := NotFound, before; }
      case DeletePods(_, _) => reply, after := Done, before;
    }
  }

  lemma AnsweredHandlerExists(script: seq<Call>, store: Store) returns (steps: seq<Step>, after: Store)
    ensures Follows(script, store, steps, after) && Undisturbed(steps)
  {
    hide Follows, Underway, Answers;
    Beginning(script, store);
    steps, after := [], store;
    while |steps| < |script|
      invariant |steps| <= |script| && Undisturbed(steps)
      invariant if |steps| < |script| then Underway(script, store, steps, after) else Follows(script, store, steps, after)
      decreases |script| - |steps|
    {
      var reply, next := AnswerExists(after, script[|steps|]);
      var step := Step(after, script[|steps|], reply, next);
      OneCallMore(script, store, steps, after, step);
      steps, after := steps + [step], next;
      if reply != Done {
        return;
      }
    }
  }

  /** For any notifications there is a run in which every call is answered. */
  lemma AnsweredRunExists(clusterName: string, events: seq<Event>) returns (stores: seq<Store>, handlers: seq<seq<Step>>)
    ensures RunsFrom(clusterName, map[], events, stores, handlers) && forall m | 0 <= m < |handlers| :: Undisturbed(handlers[m])
  {
    hide Follows, Undisturbed, Script;
    stores, handlers := [map[]], [];
    for n := 0 to |events|
      invariant |stores| == n + 1 && |handlers| == n && stores[0] == map[]
      invariant forall m | 0 <= m < n :: Follows(Script(clusterName, events[m]), stores[m], handlers[m], stores[m + 1])
      invariant forall m | 0 <= m < n :: Undisturbed(handlers[m])
    {
      var steps, after := AnsweredHandlerExists(Script(clusterName, events[n]), stores[n]);
      stores, handlers := stores + [after], handlers + [steps];
    }
  }

  /** An update whose object carries no kind leaves the config map with an owner of no kind, although nothing fails. */
  lemma UpdatedOwnerCanLackKind(clusterName: string, ms: MetricSink, spec: Spec)
    returns (events: seq<Event>, stores: seq<Store>, handlers: seq<seq<Step>>)
    requires spec != ms.spec
    ensures events == [Added(ms), Updated(ms, ms.(kind := "", spec := spec))] && FaithfulStream(events)
    ensures RunsFrom(clusterName, map[], events, stores, handlers) && forall m | 0 <= m < |handlers| :: Undisturbed(handlers[m])
    ensures ResourceOf(ConfigMap, IdOf(ms)) in stores[2] && stores[2][ResourceOf(ConfigMap, IdOf(ms))].owner.kind == ""
  {
    hide Follows, Undisturbed, Script, BodyOf, Defaulted;
    var after := ms.(kind := "", spec := spec);
    events := [Added(ms), Updated(ms, after)];
    assert events[..0] == [] && events[..1] == [Added(ms)] && events[..2] == events && events[..2][..1] == events[..1];
    assert LiveAfterAll(events[..1])[IdOf(ms)] == Record(ms, ms, Defaulted(ms));
    assert FaithfulStream(events);
    stores, handlers := AnsweredRunExists(clusterName, events);
    assert IdOf(ms) in LiveAfterAll(events[..2]);
    var m := OwnersExactly(clusterName, events, stores, handlers, 2, IdOf(ms));
    assert Writes(events[1], IdOf(ms));
    assert m == 1;
  }

  /** The configuration of a sink is the discard one exactly if the sink has no typed output. */
  lemma ConfigFallsBackExactly(clusterName: string, namespace: string, spec: Spec)
    ensures MetricSinkConfig(clusterName, namespace, spec) == Discard <==> forall p | p in spec.outputs :: TypeOf(p) == None
  {
    hide Aggregate, ConfiguresType;
    SinkIsConfigured(clusterName, namespace, spec);
    assert forall p: Plugin :: TypeOf(p) == None <==> "type" !in p || !p["type"].Str?;
  }
}
