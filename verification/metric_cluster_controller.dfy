/** The controller behind the shared telegraf daemon set: the only writer of the aggregated configuration. */
module MetricClusterController {
  import opened MetricPlugins
  import opened MetricSlices
  import opened MetricConfig
  import opened MetricLaws

  datatype Event = Added(sink: ClusterMetricSink) | Updated(before: ClusterMetricSink, after: ClusterMetricSink) | Deleted(sink: ClusterMetricSink)

  /** Only an update that changes nothing at all is skipped: whole objects are compared. */
  predicate Skipped(e: Event) {
    e.Updated? && e.before == e.after
  }

  function AfterEvent(sinks: Sinks, e: Event): Sinks {
    if Skipped(e) then sinks
    else match e
      case Added(s) => sinks[s.name := s]
      case Updated(_, s) => sinks[s.name := s]
      case Deleted(s) => sinks - {s.name}
  }

  function AfterEvents(sinks: Sinks, events: seq<Event>): Sinks {
    if events == [] then sinks
    else AfterEvent(AfterEvents(sinks, events[..|events| - 1]), events[|events| - 1])
  }

  /** `log` has one rendering for each event that is not skipped, of exactly the sinks that event left. */
  ghost predicate Publishes(defaults: Groups, clusterName: string, sinks: Sinks, events: seq<Event>, log: seq<Rendered>) {
    if events == [] then log == []
    else
      var last := |events| - 1;
      if Skipped(events[last]) then Publishes(defaults, clusterName, sinks, events[..last], log)
      else
        && log != [] && Shows(defaults, clusterName, AfterEvents(sinks, events), log[|log| - 1])
        && Publishes(defaults, clusterName, sinks, events[..last], log[..|log| - 1])
  }

  /** The daemon set's side: the configurations patched into its config map, and how often its pods were deleted. */
  class Telegraf {
    var published: seq<Rendered>
    var reloads: nat

    constructor ()
      ensures published == [] && reloads == 0
    {
      published, reloads := [], 0;
    }

    /** Errors of the patch and of the deletion are logged and otherwise ignored. */
    method Patch(r: Rendered)
      modifies this
      ensures published == old(published) + [r] && reloads == old(reloads) + 1
    {
      published, reloads := published + [r], reloads + 1;
    }
  }

  class ClusterController {
    const telegraf: Telegraf
    const sc: ClusterConfig

    constructor (telegraf: Telegraf, sc: ClusterConfig)
      ensures this.telegraf == telegraf && this.sc == sc
    {
      this.telegraf, this.sc := telegraf, sc;
    }

    method OnAdd(cms: ClusterMetricSink)
      requires sc.Valid()
      modifies sc`clusterSinks, telegraf
      ensures sc.Valid() && sc.clusterSinks == AfterEvent(old(sc.clusterSinks), Added(cms))
      ensures telegraf.reloads == old(telegraf.reloads) + 1 && |telegraf.published| == |old(telegraf.published)| + 1
      ensures old(telegraf.published) < telegraf.published
      ensures Shows(sc.defaults, sc.clusterName, sc.clusterSinks, telegraf.published[|old(telegraf.published)|])
    {
      hide Shows, HoldsAll;
      sc.UpsertSink(cms);
      var text := sc.String();
      telegraf.Patch(text);
    }

    method OnDelete(cms: ClusterMetricSink)
      requires sc.Valid()
      modifies sc`clusterSinks, telegraf
      ensures sc.Valid() && sc.clusterSinks == AfterEvent(old(sc.clusterSinks), Deleted(cms))
      ensures telegraf.reloads == old(telegraf.reloads) + 1 && |telegraf.published| == |old(telegraf.published)| + 1
      ensures old(telegraf.published) < telegraf.published
      ensures Shows(sc.defaults, sc.clusterName, sc.clusterSinks, telegraf.published[|old(telegraf.published)|])
    {
      hide Shows, HoldsAll;
      sc.DeleteSink(cms);
      var text := sc.String();
      telegraf.Patch(text);
    }

    method OnUpdate(before: ClusterMetricSink, after: ClusterMetricSink)
      requires sc.Valid()
      modifies sc`clusterSinks, telegraf
      ensures sc.Valid() && sc.clusterSinks == AfterEvent(old(sc.clusterSinks), Updated(before, after))
      ensures before == after ==> telegraf.reloads == old(telegraf.reloads) && telegraf.published == old(telegraf.published)
      ensures before != after ==>
        && telegraf.reloads == old(telegraf.reloads) + 1 && |telegraf.published| == |old(telegraf.published)| + 1
        && old(telegraf.published) < telegraf.published
        && Shows(sc.defaults, sc.clusterName, sc.clusterSinks, telegraf.published[|old(telegraf.published)|])
    {
      if before != after {
        OnAdd(after);
      }
    }

    method Deliver(e: Event)
      requires sc.Valid()
      modifies sc`clusterSinks, telegraf
      ensures sc.Valid() && sc.clusterSinks == AfterEvent(old(sc.clusterSinks), e)
      ensures Skipped(e) ==> telegraf.reloads == old(telegraf.reloads) && telegraf.published == old(telegraf.published)
      ensures !Skipped(e) ==>
        && telegraf.reloads == old(telegraf.reloads) + 1 && |telegraf.published| == |old(telegraf.published)| + 1
        && old(telegraf.published) < telegraf.published
        && Shows(sc.defaults, sc.clusterName, sc.clusterSinks, telegraf.published[|old(telegraf.published)|])
    {
      match e {
        case Added(s) => OnAdd(s);
        case Updated(before, after) => OnUpdate(before, after);
        case Deleted(s) => OnDelete(s);
      }
    }

    /**
     Any run of notifications: each rendering depends on the sinks of its moment alone. The defaults are not among
     what is modified, so no rendering disturbs a later one.
     */
    method DeliverAll(events: seq<Event>)
      requires sc.Valid()
      modifies sc`clusterSinks, telegraf
      ensures sc.Valid() && sc.clusterSinks == AfterEvents(old(sc.clusterSinks), events)
      ensures old(telegraf.published) <= telegraf.published
      ensures telegraf.reloads - old(telegraf.reloads) == |telegraf.published| - |old(telegraf.published)|
      ensures Publishes(sc.defaults, sc.clusterName, old(sc.clusterSinks), events, telegraf.published[|old(telegraf.published)|..])
    {
      hide Shows, HoldsAll;
      ghost var sinks, log := sc.clusterSinks, telegraf.published;
      for i := 0 to |events|
        invariant sc.Valid() && sc.clusterSinks == AfterEvents(sinks, events[..i])
        invariant log <= telegraf.published
        invariant telegraf.reloads - old(telegraf.reloads) == |telegraf.published| - |log|
        invariant Publishes(sc.defaults, sc.clusterName, sinks, events[..i], telegraf.published[|log|..])
      {
        assert events[..i + 1][..i] == events[..i];
        ghost var soFar := telegraf.published;
        Deliver(events[i]);
        if !Skipped(events[i]) {
          PublishOneMore(log, soFar, telegraf.published);
        }
      }
      assert events[..|events|] == events;
    }
  }

  lemma PublishOneMore(log: seq<Rendered>, soFar: seq<Rendered>, published: seq<Rendered>)
    requires log <= soFar < published && |published| == |soFar| + 1
    ensures published[|log|..] != [] && published[|log|..][|published| - |log| - 1] == published[|soFar|]
    ensures published[|log|..][..|published| - |log| - 1] == soFar[|log|..]
  {
  }

  // The sinks kept are the informer's.

  function StoreAfter(store: Sinks, e: Event): Sinks {
    match e
    case Added(s) => store[s.name := s]
    case Updated(_, s) => store[s.name := s]
    case Deleted(s) => store - {s.name}
  }

  function StoreAfterAll(events: seq<Event>): Sinks {
    if events == [] then map[] else StoreAfter(StoreAfterAll(events[..|events| - 1]), events[|events| - 1])
  }

  /** An informer's update names the object it delivered last under the same name. */
  predicate FaithfulEvent(store: Sinks, e: Event) {
    e.Updated? ==> e.before.name == e.after.name && e.before.name in store && store[e.before.name] == e.before
  }

  ghost predicate FaithfulStream(events: seq<Event>) {
    forall i | 0 <= i < |events| :: FaithfulEvent(StoreAfterAll(events[..i]), events[i])
  }

  /** Skipping loses nothing: the sinks are exactly those in the informer's store. */
  lemma {:induction false} SinksAreTheStore(events: seq<Event>)
    requires FaithfulStream(events)
    ensures AfterEvents(map[], events) == StoreAfterAll(events)
    decreases |events|
  {
    if events != [] {
      var last := |events| - 1;
      assert forall i | 0 <= i < last :: events[..last][..i] == events[..i];
      SinksAreTheStore(events[..last]);
    }
  }
}
