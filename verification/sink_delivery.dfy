/** From the informers' stores to the sections the agents read, through both controllers in any interleaving. */
module SinkDelivery {
  import opened GoLang
  import FlbLexer
  import opened FlbParser
  import opened SinkRendering
  import opened SinkRoundTrip
  import opened SinkControllers
  import opened SinkInterleaving

  /** The notifications `who` has acted on. */
  function EventsOf(actions: seq<Action>, who: Informer): seq<Event> {
    if actions == [] then []
    else
      var a := actions[|actions| - 1];
      EventsOf(actions[..|actions| - 1], who) + if a.Change? && a.who == who then [a.event] else []
  }

  /** A stream without its skipped updates. */
  function Kept(events: seq<Event>): seq<Event> {
    if events == [] then []
    else
      var e := events[|events| - 1];
      Kept(events[..|events| - 1]) + if Skipped(e) then [] else [e]
  }

  lemma AfterOneMore(who: Informer, m: map<string, LogSink>, events: seq<Event>, e: Event)
    ensures AfterEvents(who, m, events + [e]) == AfterEvent(who, AfterEvents(who, m, events), e)
  {
    assert (events + [e])[..|events|] == events;
  }

  lemma {:induction false} SkippedDoNotMatter(who: Informer, m: map<string, LogSink>, events: seq<Event>)
    ensures AfterEvents(who, m, Kept(events)) == AfterEvents(who, m, events)
    decreases |events|
  {
    if events != [] {
      var last := |events| - 1;
      SkippedDoNotMatter(who, m, events[..last]);
      AfterOneMore(who, m, Kept(events[..last]), events[last]);
      assert Kept(events[..last]) + [] == Kept(events[..last]);
    }
  }

  lemma OnePatchPerKept(events: seq<Event>)
    ensures |Kept(events)| == |ActedOn(events)|
  {
    KeptCount(events);
    PublishCountIsActedOn(events);
  }

  lemma {:induction false} KeptCount(events: seq<Event>)
    ensures |Kept(events)| == PublishCount(events)
    decreases |events|
  {
    if events != [] {
      KeptCount(events[..|events| - 1]);
    }
  }

  /** Each controller's map is the one its notifications leave, whatever the other controller does in between. */
  lemma {:induction false} RunAppliesEvents(url: UrlParser, worlds: seq<World>, actions: seq<Action>, n: nat, who: Informer)
    requires Run(url, worlds, actions) && n < |worlds|
    ensures worlds[n].history != []
    ensures Own(Current(worlds[n]), who) == AfterEvents(who, map[], EventsOf(actions[..n], who))
  {
    if n > 0 {
      RunAppliesEvents(url, worlds, actions, n - 1, who);
      assert actions[..n][..n - 1] == actions[..n - 1];
      StepAppliesEvent(url, worlds[n - 1], actions[n - 1], worlds[n], who);
      hide Next, AfterEvent;
      var before := EventsOf(actions[..n - 1], who);
      if actions[n - 1].Change? && actions[n - 1].who == who {
        AfterOneMore(who, map[], before, actions[n - 1].event);
      } else {
        assert before + [] == before;
      }
    }
  }

  lemma StepAppliesEvent(url: UrlParser, w: World, a: Action, after: World, who: Informer)
    requires w.history != [] && Next(url, w, a, after)
    ensures after.history != []
    ensures Own(Current(after), who)
         == if a.Change? && a.who == who then AfterEvent(who, Own(Current(w), who), a.event) else Own(Current(w), who)
  {
    hide Renders, AfterEvent;
  }

  /** A patch is on its way from the change on. */
  function InFlight(phase: Phase): nat {
    if phase == Idle then 0 else 1
  }

  /** Patches made or on their way. */
  function Owed(w: World): nat {
    |w.log| + InFlight(w.namespaced) + InFlight(w.cluster)
  }

  lemma StepOwesOne(url: UrlParser, w: World, a: Action, after: World)
    requires w.history != [] && Next(url, w, a, after)
    ensures Owed(after) == Owed(w) + if a.Change? then 1 else 0
  {
    hide Renders, AfterEvent, WithOwn, Current;
  }

  function Acted(actions: seq<Action>): nat {
    |EventsOf(actions, Namespaced)| + |EventsOf(actions, Cluster)|
  }

  lemma OneMoreActed(actions: seq<Action>, a: Action)
    ensures Acted(actions + [a]) == Acted(actions) + if a.Change? then 1 else 0
  {
    assert (actions + [a])[..|actions|] == actions;
  }

  /** One patch for each notification acted on, made or still to come. */
  lemma {:induction false} PatchesAreCounted(url: UrlParser, worlds: seq<World>, actions: seq<Action>, n: nat)
    requires Run(url, worlds, actions) && n < |worlds|
    ensures Owed(worlds[n]) == Acted(actions[..n])
  {
    if n > 0 {
      hide Next, Owed, Acted;
      PatchesAreCounted(url, worlds, actions, n - 1);
      StepOwesOne(url, worlds[n - 1], actions[n - 1], worlds[n]);
      assert actions[..n] == actions[..n - 1] + [actions[n - 1]];
      OneMoreActed(actions[..n - 1], actions[n - 1]);
    }
  }

  /** `events` are all the notifications of `who`, of which a run has acted on those that are not skipped. */
  ghost predicate Serves(actions: seq<Action>, who: Informer, events: seq<Event>) {
    FaithfulStream(who, events) && EventsOf(actions, who) == Kept(events)
  }

  /** `full` holds what the two informers' stores hold after the two streams. */
  ghost predicate HoldsStores(full: Registry, events: seq<Event>, clusterEvents: seq<Event>) {
    && MirrorsStore(full.sinks, StoreAfterAll(Namespaced, map[], events))
    && MirrorsStore(full.clusterSinks, StoreAfterAll(Cluster, map[], clusterEvents))
  }

  lemma MirrorExists(who: Informer, events: seq<Event>) returns (full: map<string, LogSink>)
    requires FaithfulStream(who, events)
    ensures MirrorsStore(full, StoreAfterAll(who, map[], events))
  {
    hide FaithfulStream, KeyText, IdOf, AfterEvents, StoreAfterAll;
    SkippingIsSound(who, events);
    var m, store := AfterEvents(who, map[], events), StoreAfterAll(who, map[], events);
    full := map k | k in m :: store[IdOf(who, m[k])];
    forall k | k in full ensures exists id :: id in store && KeyText(id) == k {
      assert IdOf(who, m[k]) in store;
    }
  }

  lemma OneMoreAction(actions: seq<Action>, a: Action, who: Informer)
    ensures EventsOf(actions + [a], who) == EventsOf(actions, who) + if a.Change? && a.who == who then [a.event] else []
  {
    assert (actions + [a])[..|actions|] == actions;
  }

  lemma OneMoreStep(url: UrlParser, worlds: seq<World>, actions: seq<Action>, a: Action, after: World)
    requires Run(url, worlds, actions) && worlds[|actions|].history != [] && Next(url, worlds[|actions|], a, after)
    ensures Run(url, worlds + [after], actions + [a])
  {
    hide Next;
    var more, moreActions := worlds + [after], actions + [a];
    forall i | 0 <= i < |moreActions| ensures more[i].history != [] && Next(url, more[i], moreActions[i], more[i + 1]) {
      if i < |actions| {
        assert Next(url, worlds[i], actions[i], worlds[i + 1]);
      }
    }
  }

  /** The actions of one handler. */
  function HandlerActions(who: Informer, e: Event, text: string): seq<Action> {
    [Change(who, e), Render(who, text), Publish(who)]
  }

  lemma OneMoreHandler(actions: seq<Action>, who: Informer, e: Event, text: string)
    ensures EventsOf(actions + HandlerActions(who, e, text), who) == EventsOf(actions, who) + [e]
    ensures EventsOf(actions + HandlerActions(who, e, text), Other(who)) == EventsOf(actions, Other(who))
  {
    var one := actions + [Change(who, e)];
    var two := one + [Render(who, text)];
    forall x ensures EventsOf(two + [Publish(who)], x) == EventsOf(actions, x) + if x == who then [e] else [] {
      OneMoreAction(actions, Change(who, e), x);
      OneMoreAction(one, Render(who, text), x);
      OneMoreAction(two, Publish(who), x);
    }
    assert actions + HandlerActions(who, e, text) == two + [Publish(who)];
  }

  /** At rest one controller may handle one more notification without being disturbed. */
  lemma OneMoreHandled(url: UrlParser, worlds: seq<World>, actions: seq<Action>, who: Informer, e: Event) returns (more: seq<World>, moreActions: seq<Action>)
    requires Run(url, worlds, actions) && Quiet(worlds[|actions|]) && worlds[|actions|].history != []
    ensures Run(url, more, moreActions) && Quiet(more[|moreActions|]) && more[|moreActions|].history != []
    ensures EventsOf(moreActions, who) == EventsOf(actions, who) + if Skipped(e) then [] else [e]
    ensures EventsOf(moreActions, Other(who)) == EventsOf(actions, Other(who))
  {
    hide Next, Renders, AfterEvent, Skipped, Run, EventsOf, WithOwn, Own, Current;
    more, moreActions := worlds, actions;
    if Skipped(e) {
      assert EventsOf(actions, who) + [] == EventsOf(actions, who);
    } else {
      RunLengths(url, worlds, actions);
      var w := worlds[|actions|];
      var text := TextExists(url, WithOwn(Current(w), who, AfterEvent(who, Own(Current(w), who), e)));
      var changed, rendered, after := UndisturbedHandler(url, w, who, e, text);
      OneMoreStep(url, worlds, actions, Change(who, e), changed);
      OneMoreStep(url, worlds + [changed], actions + [Change(who, e)], Render(who, text), rendered);
      OneMoreStep(url, worlds + [changed] + [rendered], actions + [Change(who, e)] + [Render(who, text)], Publish(who), after);
      OneMoreHandler(actions, who, e, text);
      more := worlds + [changed] + [rendered] + [after];
      moreActions := actions + [Change(who, e)] + [Render(who, text)] + [Publish(who)];
      assert moreActions == actions + HandlerActions(who, e, text);
      assert more[|moreActions|] == after;
    }
  }

  lemma RunLengths(url: UrlParser, worlds: seq<World>, actions: seq<Action>)
    requires Run(url, worlds, actions)
    ensures |worlds| == |actions| + 1
  {
  }

  /** Any two streams can be handled to the end. */
  lemma {:induction false} RunExists(url: UrlParser, events: seq<Event>, clusterEvents: seq<Event>) returns (worlds: seq<World>, actions: seq<Action>)
    ensures Run(url, worlds, actions) && Quiet(worlds[|actions|]) && worlds[|actions|].history != []
    ensures EventsOf(actions, Namespaced) == Kept(events) && EventsOf(actions, Cluster) == Kept(clusterEvents)
    decreases |events| + |clusterEvents|
  {
    hide Run, Quiet;
    if events != [] {
      var last := |events| - 1;
      worlds, actions := RunExists(url, events[..last], clusterEvents);
      worlds, actions := OneMoreHandled(url, worlds, actions, Namespaced, events[last]);
    } else if clusterEvents != [] {
      var last := |clusterEvents| - 1;
      worlds, actions := RunExists(url, events, clusterEvents[..last]);
      worlds, actions := OneMoreHandled(url, worlds, actions, Cluster, clusterEvents[last]);
    } else {
      worlds, actions := EmptyRun(url);
    }
  }

  lemma EmptyRun(url: UrlParser) returns (worlds: seq<World>, actions: seq<Action>)
    ensures Run(url, worlds, actions) && Quiet(worlds[|actions|]) && worlds[|actions|].history != [] && actions == []
  {
    worlds, actions := [START], [];
  }

  /** For any two faithful streams there are a run that serves them to the end, and a registry that holds their stores. */
  lemma ServingRunExists(url: UrlParser, events: seq<Event>, clusterEvents: seq<Event>)
    returns (worlds: seq<World>, actions: seq<Action>, full: Registry)
    requires FaithfulStream(Namespaced, events) && FaithfulStream(Cluster, clusterEvents)
    ensures Run(url, worlds, actions) && Quiet(worlds[|actions|])
    ensures Serves(actions, Namespaced, events) && Serves(actions, Cluster, clusterEvents) && HoldsStores(full, events, clusterEvents)
    ensures |worlds[|actions|].log| == |ActedOn(events)| + |ActedOn(clusterEvents)|
  {
    hide FaithfulStream, Next, HoldsStores;
    worlds, actions := RunExists(url, events, clusterEvents);
    full := StoresCanBeHeld(events, clusterEvents);
    PatchesAreCounted(url, worlds, actions, |actions|);
    assert actions[..|actions|] == actions;
    OnePatchPerKept(events);
    OnePatchPerKept(clusterEvents);
  }

  /** There is such a registry for any two faithful streams. */
  lemma StoresCanBeHeld(events: seq<Event>, clusterEvents: seq<Event>) returns (full: Registry)
    requires FaithfulStream(Namespaced, events) && FaithfulStream(Cluster, clusterEvents)
    ensures HoldsStores(full, events, clusterEvents)
  {
    hide FaithfulStream, MirrorsStore;
    var sinks := MirrorExists(Namespaced, events);
    var clusterSinks := MirrorExists(Cluster, clusterEvents);
    full := Registry(sinks, clusterSinks);
  }

  /**
   When both controllers rest after any interleaving, the newest rendering shows the informers' stores, and
   reading it back gives exactly their sinks' sections, provided their fields can be rendered.
   */
  lemma NewestShowsStores(names: FlbLexer.NameRunes, url: UrlParser, worlds: seq<World>, actions: seq<Action>,
                          events: seq<Event>, clusterEvents: seq<Event>, full: Registry) returns (o: Orders)
    requires Run(url, worlds, actions) && Quiet(worlds[|actions|]) && worlds[|actions|].log != []
    requires Serves(actions, Namespaced, events) && Serves(actions, Cluster, clusterEvents) && HoldsStores(full, events, clusterEvents)
    ensures var log := worlds[|actions|].log;
      && |log| == |ActedOn(events)| + |ActedOn(clusterEvents)|
      && RendersWith(url, full, log[NewestOf(log)].text, o)
      && (Parsed(names, "", log[NewestOf(log)].text) == Ok(File("", [UNNAMED] + ExpectedSections(url, full, o))) <==> Renderable(url, full))
  {
    hide Next, RendersWith, Renderable, ExpectedSections, Parsed, FaithfulStream, MirrorsStore;
    var n := |actions|;
    var text := worlds[n].log[NewestOf(worlds[n].log)].text;
    QuietShowsCurrent(url, worlds, actions, n);
    assert actions[..n] == actions;
    RunAppliesEvents(url, worlds, actions, n, Namespaced);
    RunAppliesEvents(url, worlds, actions, n, Cluster);
    PatchesAreCounted(url, worlds, actions, n);
    OnePatchPerKept(events);
    OnePatchPerKept(clusterEvents);
    SkippedDoNotMatter(Namespaced, map[], events);
    SkippedDoNotMatter(Cluster, map[], clusterEvents);
    PublishedAsIfNothingSkipped(url, Current(worlds[n]), full, events, clusterEvents, text);
    o :| RendersWith(url, full, text, o);
    ParseRecoversRegistry(names, url, full, text, o);
  }
}
