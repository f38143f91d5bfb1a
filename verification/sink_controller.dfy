/** The two log sink controllers: what each notification does to the shared registry and what it publishes. */
module SinkControllers {
  import opened Collections
  import opened SinkOrder
  import opened SinkRendering
  import opened SinkConfig

  /** Which informer a notification comes from. */
  datatype Informer = Namespaced | Cluster

  datatype Event = Added(sink: LogSink) | Updated(before: LogSink, after: LogSink) | Deleted(sink: LogSink)

  function KeyOf(who: Informer, s: LogSink): string {
    if who == Namespaced then Key(s) else ClusterKey(s)
  }

  /** Spec-equal updates are skipped. */
  predicate Skipped(e: Event) {
    e.Updated? && e.before.spec == e.after.spec
  }

  /** One of the registry's maps after a notification of its informer. */
  function AfterEvent(who: Informer, m: map<string, LogSink>, e: Event): map<string, LogSink> {
    if Skipped(e) then m
    else match e
      case Added(s) => m[KeyOf(who, s) := s]
      case Updated(_, s) => m[KeyOf(who, s) := s]
      case Deleted(s) => m - {KeyOf(who, s)}
  }

  function AfterEvents(who: Informer, m: map<string, LogSink>, events: seq<Event>): map<string, LogSink> {
    if events == [] then m
    else
      var last := |events| - 1;
      AfterEvent(who, AfterEvents(who, m, events[..last]), events[last])
  }

  /** Where in a stream the additions, deletions and changes of spec are. */
  function ActedOn(events: seq<Event>): set<nat> {
    set i: nat | i < |events| && (events[i].Added? || events[i].Deleted? || events[i].before.spec != events[i].after.spec)
  }

  lemma {:induction false} PublishCountIsActedOn(events: seq<Event>)
    ensures PublishCount(events) == |ActedOn(events)|
    decreases |events|
  {
    if events == [] {
      assert ActedOn(events) == {};
    } else {
      var last := |events| - 1;
      PublishCountIsActedOn(events[..last]);
      ActedOnStep(events);
      hide ActedOn, Skipped;
    }
  }

  lemma ActedOnStep(events: seq<Event>)
    requires events != []
    ensures |ActedOn(events)| == |ActedOn(events[..|events| - 1])| + if Skipped(events[|events| - 1]) then 0 else 1
  {
    var last: nat := |events| - 1;
    var before := ActedOn(events[..last]);
    assert last !in before;
    assert ActedOn(events) == before + if Skipped(events[last]) then {} else {last};
  }

  /** How many notifications of a stream are acted on. */
  function PublishCount(events: seq<Event>): nat {
    if events == [] then 0
    else
      var last := |events| - 1;
      PublishCount(events[..last]) + if Skipped(events[last]) then 0 else 1
  }

  /** The agents' side: every value patched into the config map, and how often the pods were deleted to reload it. */
  class Agents {
    var published: seq<string>
    var reloads: nat

    constructor ()
      ensures published == [] && reloads == 0
    {
      published, reloads := [], 0;
    }

    /** `patchConfig`: errors of either call are logged and otherwise ignored. */
    method PatchConfig(text: string)
      modifies this
      ensures published == old(published) + [text] && reloads == old(reloads) + 1
    {
      published := published + [text];
      reloads := reloads + 1;
    }
  }

  lemma RendersSome(url: UrlParser, reg: Registry, text: string, orders: Orders)
    requires RendersWith(url, reg, text, orders)
    ensures Renders(url, reg, text)
  {
  }

  class Controller {
    const agents: Agents
    const sc: Config

    constructor (agents: Agents, sc: Config)
      ensures this.agents == agents && this.sc == sc
    {
      this.agents, this.sc := agents, sc;
    }

    method OnAdd(d: LogSink)
      modifies sc`sinks, agents
      ensures sc.sinks == AfterEvent(Namespaced, old(sc.sinks), Added(d))
      ensures agents.reloads == old(agents.reloads) + 1 && |agents.published| == |old(agents.published)| + 1
      ensures old(agents.published) < agents.published && Renders(sc.url, sc.Contents(), agents.published[|old(agents.published)|])
    {
      hide Renders, RendersWith;
      sc.UpsertSink(d);
      var text, orders := sc.String();
      RendersSome(sc.url, sc.Contents(), text, orders);
      agents.PatchConfig(text);
    }

    method OnDelete(d: LogSink)
      modifies sc`sinks, agents
      ensures sc.sinks == AfterEvent(Namespaced, old(sc.sinks), Deleted(d))
      ensures agents.reloads == old(agents.reloads) + 1 && |agents.published| == |old(agents.published)| + 1
      ensures old(agents.published) < agents.published && Renders(sc.url, sc.Contents(), agents.published[|old(agents.published)|])
    {
      hide Renders, RendersWith;
      sc.DeleteSink(d);
      var text, orders := sc.String();
      RendersSome(sc.url, sc.Contents(), text, orders);
      agents.PatchConfig(text);
    }

    method OnUpdate(before: LogSink, after: LogSink)
      modifies sc`sinks, agents
      ensures before.spec == after.spec ==>
        sc.sinks == old(sc.sinks) && agents.reloads == old(agents.reloads) && agents.published == old(agents.published)
      ensures before.spec != after.spec ==>
        && sc.sinks == old(sc.sinks)[Key(after) := after] && agents.reloads == old(agents.reloads) + 1 && |agents.published| == |old(agents.published)| + 1
        && old(agents.published) < agents.published && Renders(sc.url, sc.Contents(), agents.published[|old(agents.published)|])
    {
      if before.spec != after.spec {
        OnAdd(after);
      }
    }

    method Deliver(e: Event)
      modifies sc`sinks, agents
      ensures sc.sinks == AfterEvent(Namespaced, old(sc.sinks), e)
      ensures Skipped(e) ==> agents.reloads == old(agents.reloads) && agents.published == old(agents.published)
      ensures !Skipped(e) ==>
        && agents.reloads == old(agents.reloads) + 1 && |agents.published| == |old(agents.published)| + 1
        && old(agents.published) < agents.published && Renders(sc.url, sc.Contents(), agents.published[|old(agents.published)|])
    {
      match e {
        case Added(s) => OnAdd(s);
        case Updated(before, after) => OnUpdate(before, after);
        case Deleted(s) => OnDelete(s);
      }
    }

    /** A whole stream of notifications, with the other controller at rest. */
    method DeliverAll(events: seq<Event>)
      modifies sc`sinks, agents
      ensures sc.sinks == AfterEvents(Namespaced, old(sc.sinks), events)
      ensures agents.reloads == old(agents.reloads) + |ActedOn(events)|
      ensures |agents.published| == |old(agents.published)| + |ActedOn(events)| && old(agents.published) <= agents.published
      ensures ActedOn(events) != {} ==> Renders(sc.url, sc.Contents(), agents.published[|agents.published| - 1])
    {
      hide Renders, Skipped, KeyOf;
      for i := 0 to |events|
        invariant sc.sinks == AfterEvents(Namespaced, old(sc.sinks), events[..i])
        invariant agents.reloads == old(agents.reloads) + PublishCount(events[..i])
        invariant |agents.published| == |old(agents.published)| + PublishCount(events[..i]) && old(agents.published) <= agents.published
        invariant PublishCount(events[..i]) > 0 ==> Renders(sc.url, sc.Contents(), agents.published[|agents.published| - 1])
      {
        assert events[..i + 1][..i] == events[..i];
        Deliver(events[i]);
      }
      assert events[..|events|] == events;
      PublishCountIsActedOn(events);
    }
  }

  class ClusterController {
    const agents: Agents
    const sc: Config

    constructor (agents: Agents, sc: Config)
      ensures this.agents == agents && this.sc == sc
    {
      this.agents, this.sc := agents, sc;
    }

    method OnAdd(d: LogSink)
      modifies sc`clusterSinks, agents
      ensures sc.clusterSinks == AfterEvent(Cluster, old(sc.clusterSinks), Added(d))
      ensures agents.reloads == old(agents.reloads) + 1 && |agents.published| == |old(agents.published)| + 1
      ensures old(agents.published) < agents.published && Renders(sc.url, sc.Contents(), agents.published[|old(agents.published)|])
    {
      hide Renders, RendersWith;
      sc.UpsertClusterSink(d);
      var text, orders := sc.String();
      RendersSome(sc.url, sc.Contents(), text, orders);
      agents.PatchConfig(text);
    }

    method OnDelete(d: LogSink)
      modifies sc`clusterSinks, agents
      ensures sc.clusterSinks == AfterEvent(Cluster, old(sc.clusterSinks), Deleted(d))
      ensures agents.reloads == old(agents.reloads) + 1 && |agents.published| == |old(agents.published)| + 1
      ensures old(agents.published) < agents.published && Renders(sc.url, sc.Contents(), agents.published[|old(agents.published)|])
    {
      hide Renders, RendersWith;
      sc.DeleteClusterSink(d);
      var text, orders := sc.String();
      RendersSome(sc.url, sc.Contents(), text, orders);
      agents.PatchConfig(text);
    }

    method OnUpdate(before: LogSink, after: LogSink)
      modifies sc`clusterSinks, agents
      ensures before.spec == after.spec ==>
        sc.clusterSinks == old(sc.clusterSinks) && agents.reloads == old(agents.reloads) && agents.published == old(agents.published)
      ensures before.spec != after.spec ==>
        && sc.clusterSinks == old(sc.clusterSinks)[ClusterKey(after) := after] && agents.reloads == old(agents.reloads) + 1 && |agents.published| == |old(agents.published)| + 1
        && old(agents.published) < agents.published && Renders(sc.url, sc.Contents(), agents.published[|old(agents.published)|])
    {
      if before.spec != after.spec {
        OnAdd(after);
      }
    }
  }

  // Skipping updates is sound.

  /** What identifies an object to its informer. */
  datatype Id = Id(scope: string, name: string)

  function IdOf(who: Informer, s: LogSink): Id {
    Id(if who == Namespaced then s.meta.namespace else s.meta.clusterName, s.meta.name)
  }

  function KeyText(id: Id): string {
    id.scope + "|" + id.name
  }

  /** The informer's own store after it has delivered `e`: every update lands there. */
  function StoreAfter(who: Informer, store: map<Id, LogSink>, e: Event): map<Id, LogSink> {
    match e
    case Added(s) => store[IdOf(who, s) := s]
    case Updated(_, s) => store[IdOf(who, s) := s]
    case Deleted(s) => store - {IdOf(who, s)}
  }

  function StoreAfterAll(who: Informer, store: map<Id, LogSink>, events: seq<Event>): map<Id, LogSink> {
    if events == [] then store
    else
      var last := |events| - 1;
      StoreAfter(who, StoreAfterAll(who, store, events[..last]), events[last])
  }

  /** What an informer guarantees of a notification; the scope is a Kubernetes name, which holds no `|`. */
  predicate FaithfulEvent(who: Informer, store: map<Id, LogSink>, e: Event) {
    match e
    case Updated(before, after) =>
      var id := IdOf(who, before);
      id == IdOf(who, after) && id in store && store[id] == before
    case _ => '|' !in IdOf(who, e.sink).scope
  }

  ghost predicate FaithfulStream(who: Informer, events: seq<Event>) {
    forall i | 0 <= i < |events| :: FaithfulEvent(who, StoreAfterAll(who, map[], events[..i]), events[i])
  }

  /** The registry's map holds, under the right key, an object with the spec of the one in the store. */
  ghost predicate Agrees(who: Informer, m: map<string, LogSink>, store: map<Id, LogSink>) {
    && (forall id | id in store :: '|' !in id.scope && KeyText(id) in m
                                   && IdOf(who, m[KeyText(id)]) == id && m[KeyText(id)].spec == store[id].spec)
    && (forall k | k in m :: IdOf(who, m[k]) in store && KeyText(IdOf(who, m[k])) == k)
  }

  /** The registry's composite key tells objects apart as long as scopes hold no `|`. */
  lemma KeyIsInjective(a: Id, b: Id)
    requires '|' !in a.scope && '|' !in b.scope && KeyText(a) == KeyText(b)
    ensures a == b
  {
    var t := KeyText(a);
    assert forall i | 0 <= i < |a.scope| :: t[i] == a.scope[i];
    assert forall i | 0 <= i < |b.scope| :: t[i] == b.scope[i];
    assert t[|a.scope|] == '|' && t[|b.scope|] == '|';
    assert t[..|a.scope|] == a.scope && t[..|b.scope|] == b.scope;
    assert t[|a.scope| + 1..] == a.name && t[|b.scope| + 1..] == b.name;
  }

  lemma UpsertKeepsAgreement(who: Informer, m: map<string, LogSink>, store: map<Id, LogSink>, s: LogSink, current: LogSink)
    requires Agrees(who, m, store) && '|' !in IdOf(who, s).scope && IdOf(who, current) == IdOf(who, s) && current.spec == s.spec
    ensures Agrees(who, m[KeyText(IdOf(who, s)) := current], store[IdOf(who, s) := s])
  {
    hide KeyText, IdOf;
    var id := IdOf(who, s);
    forall other | other in store && KeyText(other) == KeyText(id) ensures other == id {
      KeyIsInjective(other, id);
    }
  }

  lemma DeleteKeepsAgreement(who: Informer, m: map<string, LogSink>, store: map<Id, LogSink>, id: Id)
    requires Agrees(who, m, store) && '|' !in id.scope
    ensures Agrees(who, m - {KeyText(id)}, store - {id})
  {
    hide KeyText, IdOf;
    forall other | other in store && KeyText(other) == KeyText(id) ensures other == id {
      KeyIsInjective(other, id);
    }
  }

  lemma EventKeepsAgreement(who: Informer, m: map<string, LogSink>, store: map<Id, LogSink>, e: Event)
    requires Agrees(who, m, store) && FaithfulEvent(who, store, e)
    ensures Agrees(who, AfterEvent(who, m, e), StoreAfter(who, store, e))
  {
    hide KeyText, IdOf, KeyOf;
    var s := if e.Updated? then e.after else e.sink;
    KeyIsKeyText(who, s);
    if e.Deleted? {
      DeleteKeepsAgreement(who, m, store, IdOf(who, s));
    } else if Skipped(e) {
      var k := KeyText(IdOf(who, s));
      UpsertKeepsAgreement(who, m, store, s, m[k]);
      assert m[k := m[k]] == m;
    } else {
      UpsertKeepsAgreement(who, m, store, s, s);
    }
  }

  lemma KeyIsKeyText(who: Informer, s: LogSink)
    ensures KeyOf(who, s) == KeyText(IdOf(who, s))
  {
  }

  /** Over every faithful stream the registry agrees with the informer's store, although spec-equal updates never reach it. */
  lemma {:induction false} SkippingIsSound(who: Informer, events: seq<Event>)
    requires FaithfulStream(who, events)
    ensures Agrees(who, AfterEvents(who, map[], events), StoreAfterAll(who, map[], events))
    decreases |events|
  {
    hide FaithfulEvent;
    if events != [] {
      var last := |events| - 1;
      assert forall i | 0 <= i < last :: events[..last][..i] == events[..i];
      SkippingIsSound(who, events[..last]);
      EventKeepsAgreement(who, AfterEvents(who, map[], events[..last]), StoreAfterAll(who, map[], events[..last]), events[last]);
    }
  }

  /** The store's objects under the registry's keys: what the registry would hold had no update been skipped. */
  ghost predicate MirrorsStore(m: map<string, LogSink>, store: map<Id, LogSink>) {
    && (forall id | id in store :: KeyText(id) in m && m[KeyText(id)] == store[id])
    && (forall k | k in m :: exists id :: id in store && KeyText(id) == k)
  }

  /** Same keys, and under each the same rendered fields. */
  ghost predicate SameFields(who: Informer, a: map<string, LogSink>, b: map<string, LogSink>) {
    && a.Keys == b.Keys
    && forall k | k in a :: a[k].spec == b[k].spec && IdOf(who, a[k]) == IdOf(who, b[k])
  }

  lemma MirrorHasSameFields(who: Informer, m: map<string, LogSink>, full: map<string, LogSink>, events: seq<Event>)
    requires FaithfulStream(who, events)
    requires m == AfterEvents(who, map[], events) && MirrorsStore(full, StoreAfterAll(who, map[], events))
    ensures SameFields(who, m, full)
  {
    hide KeyText, FaithfulStream, AfterEvents, StoreAfterAll;
    var store := StoreAfterAll(who, map[], events);
    SkippingIsSound(who, events);
    StoreIsIndexed(who, events);
    forall k ensures k in m <==> k in full {
      if k in full {
        var id :| id in store && KeyText(id) == k;
      }
    }
    forall k | k in m ensures m[k].spec == full[k].spec && IdOf(who, m[k]) == IdOf(who, full[k]) {
      var id := IdOf(who, m[k]);
      assert full[k] == store[id];
    }
  }

  lemma {:induction false} StoreIsIndexed(who: Informer, events: seq<Event>)
    ensures forall id | id in StoreAfterAll(who, map[], events) :: IdOf(who, StoreAfterAll(who, map[], events)[id]) == id
    decreases |events|
  {
    if events != [] {
      StoreIsIndexed(who, events[..|events| - 1]);
    }
  }

  lemma {:induction false} RangeIgnores<T>(a: map<string, LogSink>, b: map<string, LogSink>, keys: seq<string>, f: LogSink -> seq<T>)
    requires a.Keys == b.Keys && forall k | k in a :: f(a[k]) == f(b[k])
    ensures FlatMap(f, ValuesOf(a, keys)) == FlatMap(f, ValuesOf(b, keys))
  {
    if keys != [] {
      RangeIgnores(a, b, keys[1..], f);
      FlatMapAppend(f, Lookup(a, keys[0]), ValuesOf(a, keys[1..]));
      FlatMapAppend(f, Lookup(b, keys[0]), ValuesOf(b, keys[1..]));
      if keys[0] in a {
        assert [a[keys[0]]][1..] == [] && [b[keys[0]]][1..] == [];
      }
    }
  }

  /** Rendering sees only those fields: the two registries have the same possible texts. */
  lemma SameFieldsRenderAlike(url: UrlParser, a: Registry, b: Registry, text: string)
    requires SameFields(Namespaced, a.sinks, b.sinks) && SameFields(Cluster, a.clusterSinks, b.clusterSinks)
    ensures Renders(url, a, text) <==> Renders(url, b, text)
  {
    hide RendersWith;
    if o :| RendersWith(url, a, text, o) {
      SameFieldsRenderWith(url, a, b, text, o);
    }
    if o :| RendersWith(url, b, text, o) {
      SameFieldsRenderWith(url, b, a, text, o);
    }
  }

  lemma FieldsDecideOutputs(url: UrlParser, who: Informer, s: LogSink, t: LogSink)
    requires s.spec == t.spec && IdOf(who, s) == IdOf(who, t)
    ensures who == Namespaced ==> NamespacedOutput(s) == NamespacedOutput(t) && WebhookText(url, false)(s) == WebhookText(url, false)(t)
    ensures who == Cluster ==> ClusterOutput(s) == ClusterOutput(t) && WebhookText(url, true)(s) == WebhookText(url, true)(t)
  {
    hide HttpText;
  }

  lemma RangesAgree(url: UrlParser, who: Informer, a: map<string, LogSink>, b: map<string, LogSink>, keys: seq<string>)
    requires SameFields(who, a, b)
    ensures Enumerates(keys, a) <==> Enumerates(keys, b)
    ensures who == Namespaced ==>
      && FlatMap(NamespacedOutput, ValuesOf(a, keys)) == FlatMap(NamespacedOutput, ValuesOf(b, keys))
      && FlatMap(WebhookText(url, false), ValuesOf(a, keys)) == FlatMap(WebhookText(url, false), ValuesOf(b, keys))
    ensures who == Cluster ==>
      && FlatMap(ClusterOutput, ValuesOf(a, keys)) == FlatMap(ClusterOutput, ValuesOf(b, keys))
      && FlatMap(WebhookText(url, true), ValuesOf(a, keys)) == FlatMap(WebhookText(url, true), ValuesOf(b, keys))
  {
    hide NamespacedOutput, ClusterOutput, WebhookText, IdOf, Distinct;
    forall k | k in a
      ensures who == Namespaced ==> NamespacedOutput(a[k]) == NamespacedOutput(b[k]) && WebhookText(url, false)(a[k]) == WebhookText(url, false)(b[k])
      ensures who == Cluster ==> ClusterOutput(a[k]) == ClusterOutput(b[k]) && WebhookText(url, true)(a[k]) == WebhookText(url, true)(b[k])
    {
      FieldsDecideOutputs(url, who, a[k], b[k]);
    }
    assert forall k :: k in a <==> k in a.Keys;
    assert forall k :: k in b <==> k in b.Keys;
    if who == Namespaced {
      RangeIgnores(a, b, keys, NamespacedOutput);
      RangeIgnores(a, b, keys, WebhookText(url, false));
    } else {
      RangeIgnores(a, b, keys, ClusterOutput);
      RangeIgnores(a, b, keys, WebhookText(url, true));
    }
  }

  lemma SameFieldsRenderWith(url: UrlParser, a: Registry, b: Registry, text: string, o: Orders)
    requires SameFields(Namespaced, a.sinks, b.sinks) && SameFields(Cluster, a.clusterSinks, b.clusterSinks)
    requires RendersWith(url, a, text, o)
    ensures RendersWith(url, b, text, o)
  {
    assert a == EMPTY_REGISTRY <==> b == EMPTY_REGISTRY by {
      assert forall m: map<string, LogSink> :: m == map[] <==> m.Keys == {};
    }
    RangesAgree(url, Namespaced, a.sinks, b.sinks, o.syslog);
    RangesAgree(url, Namespaced, a.sinks, b.sinks, o.webhook);
    RangesAgree(url, Cluster, a.clusterSinks, b.clusterSinks, o.clusterSyslog);
    RangesAgree(url, Cluster, a.clusterSinks, b.clusterSinks, o.clusterWebhook);
    hide Enumerates, SameFields, SortOf, SyslogPart, NamespacedOutput, ClusterOutput, WebhookText;
  }

  /** What the controllers publish is what they would publish had every update been applied. */
  lemma PublishedAsIfNothingSkipped(url: UrlParser, reg: Registry, full: Registry, events: seq<Event>, clusterEvents: seq<Event>, text: string)
    requires FaithfulStream(Namespaced, events) && FaithfulStream(Cluster, clusterEvents)
    requires reg == Registry(AfterEvents(Namespaced, map[], events), AfterEvents(Cluster, map[], clusterEvents))
    requires MirrorsStore(full.sinks, StoreAfterAll(Namespaced, map[], events))
    requires MirrorsStore(full.clusterSinks, StoreAfterAll(Cluster, map[], clusterEvents))
    ensures Renders(url, reg, text) <==> Renders(url, full, text)
  {
    MirrorHasSameFields(Namespaced, reg.sinks, full.sinks, events);
    MirrorHasSameFields(Cluster, reg.clusterSinks, full.clusterSinks, clusterEvents);
    SameFieldsRenderAlike(url, reg, full, text);
  }
}
