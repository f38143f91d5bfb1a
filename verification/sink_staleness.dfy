/** Exactly when the last patch of a run shows the current registry. */
module SinkStaleness {
  import opened GoLang
  import opened Collections
  import FlbLexer
  import opened FlbParser
  import opened SinkOrder
  import opened SinkRendering
  import opened SinkRoundTrip
  import opened SinkControllers
  import opened SinkInterleaving

  // The publisher's own map.

  /** The map behind the last patch of `who`. */
  function LastOwn(log: seq<Publication>, who: Informer): map<string, LogSink> {
    if log == [] then map[]
    else if log[|log| - 1].who == who then log[|log| - 1].own
    else LastOwn(log[..|log| - 1], who)
  }

  /** A controller's map is the one it is about to publish or, at rest, the one it published last. */
  predicate Known(m: map<string, LogSink>, phase: Phase, log: seq<Publication>, who: Informer) {
    m == match phase
         case Idle => LastOwn(log, who)
         case Changed(own) => own
         case Rendered(p) => p.own
  }

  ghost predicate OwnIsKnown(w: World, who: Informer)
    requires w.history != []
  {
    Known(Own(Current(w), who), PhaseOf(w, who), w.log, who)
  }

  lemma LastOwnAfter(log: seq<Publication>, p: Publication, who: Informer)
    ensures LastOwn(log + [p], who) == if p.who == who then p.own else LastOwn(log, who)
  {
    assert (log + [p])[..|log|] == log;
  }

  lemma ActorStaysKnown(url: UrlParser, w: World, a: Action, after: World)
    requires w.history != [] && after.history != [] && OwnIsKnown(w, a.who) && Next(url, w, a, after)
    requires PhaseOf(w, a.who).Rendered? ==> PhaseOf(w, a.who).publication.who == a.who
    ensures OwnIsKnown(after, a.who)
  {
    match a {
      case Change(who, event) => ChangeIsKnown(url, w, who, event, after);
      case Render(who, text) => RenderIsKnown(url, w, who, text, after);
      case Publish(who) => PublishIsKnown(url, w, who, after);
    }
  }

  lemma ChangeIsKnown(url: UrlParser, w: World, who: Informer, event: Event, after: World)
    requires w.history != [] && after.history != [] && Next(url, w, Change(who, event), after)
    ensures OwnIsKnown(after, who)
  {
    hide AfterEvent, LastOwn, Renders;
    var own := AfterEvent(who, Own(Current(w), who), event);
    assert Current(after) == WithOwn(Current(w), who, own);
    assert PhaseOf(after, who) == Changed(own);
  }

  lemma RenderIsKnown(url: UrlParser, w: World, who: Informer, text: string, after: World)
    requires w.history != [] && after.history != [] && Next(url, w, Render(who, text), after) && OwnIsKnown(w, who)
    ensures OwnIsKnown(after, who)
  {
    hide LastOwn, Renders;
    assert Current(after) == Current(w);
    assert PhaseOf(after, who).Rendered? && PhaseOf(after, who).publication.own == PhaseOf(w, who).own;
  }

  lemma PublishIsKnown(url: UrlParser, w: World, who: Informer, after: World)
    requires w.history != [] && after.history != [] && Next(url, w, Publish(who), after) && OwnIsKnown(w, who)
    requires PhaseOf(w, who).Rendered? ==> PhaseOf(w, who).publication.who == who
    ensures OwnIsKnown(after, who)
  {
    var p := PhaseOf(w, who).publication;
    LastOwnAfter(w.log, p, who);
    hide LastOwn;
    assert Current(after) == Current(w) && PhaseOf(after, who) == Idle && after.log == w.log + [p];
  }

  lemma OtherMapStays(url: UrlParser, w: World, a: Action, after: World)
    requires w.history != [] && after.history != [] && Next(url, w, a, after)
    ensures Own(Current(after), Other(a.who)) == Own(Current(w), Other(a.who))
  {
    hide Renders, AfterEvent;
    match a {
      case Change(who, event) =>
        assert Current(after) == WithOwn(Current(w), who, AfterEvent(who, Own(Current(w), who), event));
      case Render(_, _) => assert Current(after) == Current(w);
      case Publish(_) => assert Current(after) == Current(w);
    }
  }

  lemma OtherStaysKnown(url: UrlParser, w: World, a: Action, after: World)
    requires w.history != [] && after.history != [] && OwnIsKnown(w, Other(a.who)) && Next(url, w, a, after)
    requires PhaseOf(w, a.who).Rendered? ==> PhaseOf(w, a.who).publication.who == a.who
    ensures OwnIsKnown(after, Other(a.who))
  {
    hide Next, LastOwn, Own, Current, PhaseOf;
    OtherMapStays(url, w, a, after);
    StepMovesOne(url, w, a, after);
    if after.log != w.log {
      LastOwnAfter(w.log, PhaseOf(w, a.who).publication, Other(a.who));
    }
  }

  lemma StepKeepsOwnKnown(url: UrlParser, w: World, a: Action, after: World, who: Informer)
    requires w.history != [] && after.history != [] && AllTruthful(url, w) && OwnIsKnown(w, who) && Next(url, w, a, after)
    ensures OwnIsKnown(after, who)
  {
    StampsAreOld(url, w);
    hide Next, AllTruthful, OwnIsKnown;
    if a.who == who {
      ActorStaysKnown(url, w, a, after);
    } else {
      OtherStaysKnown(url, w, a, after);
    }
  }

  lemma {:induction false} RunKeepsOwnKnown(url: UrlParser, worlds: seq<World>, actions: seq<Action>, n: nat, who: Informer)
    requires Run(url, worlds, actions) && n < |worlds|
    ensures worlds[n].history != [] && OwnIsKnown(worlds[n], who)
  {
    hide Next, AllTruthful, NewestIsCurrent, NothingLost, NothingTwice, InTurn;
    RunKeepsInv(url, worlds, actions, n);
    if n > 0 {
      hide OwnIsKnown;
      RunKeepsOwnKnown(url, worlds, actions, n - 1, who);
      RunKeepsInv(url, worlds, actions, n - 1);
      StepKeepsOwnKnown(url, worlds[n - 1], actions[n - 1], worlds[n], who);
    }
  }

  /** The state a patch shows. */
  function ShownBy(w: World, p: Publication): Registry
    requires p.stamp < |w.renderings| && w.renderings[p.stamp] < |w.history|
  {
    w.history[w.renderings[p.stamp]]
  }

  /**
   At rest the last patch agrees with the current registry on the publisher's own map, so it shows the current registry
   exactly if the other controller's map is as it was when the patch was rendered.
   */
  lemma LastPatchIsCurrentExactly(url: UrlParser, worlds: seq<World>, actions: seq<Action>, n: nat)
    requires Run(url, worlds, actions) && n < |worlds| && Quiet(worlds[n]) && worlds[n].log != []
    ensures var w := worlds[n]; var p := w.log[|w.log| - 1];
      && w.history != [] && p.stamp < |w.renderings| && w.renderings[p.stamp] < |w.history|
      && Renders(url, ShownBy(w, p), p.text)
      && Own(ShownBy(w, p), p.who) == Own(Current(w), p.who)
      && (ShownBy(w, p) == Current(w) <==> Own(ShownBy(w, p), Other(p.who)) == Own(Current(w), Other(p.who)))
  {
    hide Next, Renders, NewestIsCurrent, NothingLost, NothingTwice, InTurn;
    var w := worlds[n];
    var p := w.log[|w.log| - 1];
    RunKeepsInv(url, worlds, actions, n);
    RunKeepsOwnKnown(url, worlds, actions, n, p.who);
    assert Truthful(url, w, p);
    assert p.who == Namespaced || p.who == Cluster;
  }

  // What that means for the text.

  /** The text of one rendered section. */
  function SectionText(section: Section): string {
    BlockText(section.keyValues) + if section.keyValues != [] && section.keyValues[0].value == "http" then "\n" else ""
  }

  lemma {:induction false} FlatMapThrough<S, T, U>(inner: S -> seq<T>, outer: T -> seq<U>, whole: S -> seq<U>, xs: seq<S>)
    requires forall x | x in xs :: FlatMap(outer, inner(x)) == whole(x)
    ensures FlatMap(outer, FlatMap(inner, xs)) == FlatMap(whole, xs)
  {
    if xs != [] {
      FlatMapThrough(inner, outer, whole, xs[1..]);
      FlatMapAppend(outer, inner(xs[0]), FlatMap(inner, xs[1..]));
    }
  }

  lemma TextOfOne(section: Section)
    ensures FlatMap(SectionText, [section]) == SectionText(section)
  {
    hide SectionText;
    assert [section][1..] == [];
  }

  lemma OutputTextOfSection(o: Output)
    ensures FlatMap(SectionText, SectionOf(o)) == OutputText(o)
  {
    OutputIsBlock(o);
    TextOfOne(OutputSection(o));
    hide BlockText, OutputText, ScopePair, TlsPairs;
    assert OutputSection(o).keyValues[0] == KeyValue("Name", "syslog");
  }

  lemma WebhookTextOfSection(url: UrlParser, isCluster: bool, s: LogSink)
    ensures FlatMap(SectionText, WebhookSection(url, isCluster)(s)) == WebhookText(url, isCluster)(s)
  {
    hide BlockText, MatchOf, PortOf, PathOf, ExtraPairs, ExtrasText;
    if s.spec.kind == "webhook" && url(s.spec.url).Some? {
      var namespace, u := if isCluster then "" else s.meta.namespace, url(s.spec.url).value;
      var section := HttpSection(namespace, u, s.spec.insecureSkipVerify, isCluster);
      HttpIsBlock(url, namespace, s.spec, isCluster);
      TextOfOne(section);
      assert section.keyValues[0] == KeyValue("Name", "http");
    }
  }

  lemma WebhookRangeText(url: UrlParser, isCluster: bool, sinks: seq<LogSink>)
    ensures FlatMap(SectionText, FlatMap(WebhookSection(url, isCluster), sinks)) == FlatMap(WebhookText(url, isCluster), sinks)
  {
    hide SectionText, WebhookSection, WebhookText;
    forall s | s in sinks ensures FlatMap(SectionText, WebhookSection(url, isCluster)(s)) == WebhookText(url, isCluster)(s) {
      WebhookTextOfSection(url, isCluster, s);
    }
    FlatMapThrough(WebhookSection(url, isCluster), SectionText, WebhookText(url, isCluster), sinks);
  }

  lemma OutputsText(outputs: seq<Output>)
    ensures FlatMap(SectionText, FlatMap(SectionOf, outputs)) == FlatMap(OutputText, outputs)
  {
    hide SectionText, SectionOf, OutputText;
    forall o | o in outputs ensures FlatMap(SectionText, SectionOf(o)) == OutputText(o) {
      OutputTextOfSection(o);
    }
    FlatMapThrough(SectionOf, SectionText, OutputText, outputs);
  }

  /** A rendering is the text of its sections: what the agents should read determines what they are sent. */
  lemma SectionsDetermineText(url: UrlParser, reg: Registry, text: string, o: Orders)
    requires RendersWith(url, reg, text, o)
    ensures text == FlatMap(SectionText, ExpectedSections(url, reg, o))
  {
    if reg == EMPTY_REGISTRY {
      NullConfigIsBlock();
      TextOfOne(NullSection());
      hide OrdersOf, BlockText;
      assert NullSection().keyValues[0] == KeyValue("Name", "null");
    } else {
      hide OrdersOf, SectionText, SectionOf, WebhookSection, WebhookText, OutputText;
      OutputsText(o.sorted);
      OutputsText(o.clusterSorted);
      FlatMapAppend(SectionText, FlatMap(SectionOf, o.sorted), FlatMap(SectionOf, o.clusterSorted));
      var f, g := WebhookSection(url, false), WebhookSection(url, true);
      WebhookRangeText(url, false, ValuesOf(reg.sinks, o.webhook));
      WebhookRangeText(url, true, ValuesOf(reg.clusterSinks, o.clusterWebhook));
      FlatMapAppend(SectionText, FlatMap(f, ValuesOf(reg.sinks, o.webhook)), FlatMap(g, ValuesOf(reg.clusterSinks, o.clusterWebhook)));
      FlatMapAppend(SectionText, SyslogSections(o), WebhookSections(url, reg, o));
    }
  }

  lemma OrdersGiveText(url: UrlParser, reg: Registry, o: Orders) returns (text: string)
    requires OrdersOf(reg, o)
    ensures RendersWith(url, reg, text, o)
  {
    hide OrdersOf, SyslogPart, WebhookPart;
    text := if reg == EMPTY_REGISTRY then NULL_CONFIG else SyslogPart(o) + WebhookPart(url, reg, o);
  }

  /** Some order of the registry's sinks gives these sections. */
  ghost predicate Expects(url: UrlParser, reg: Registry, sections: seq<Section>) {
    exists o :: OrdersOf(reg, o) && ExpectedSections(url, reg, o) == sections
  }

  /** For renderable registries a text shows a registry exactly if it reads back as sections that the registry expects. */
  lemma ShowsExactlyExpected(names: FlbLexer.NameRunes, url: UrlParser, reg: Registry, text: string, sections: seq<Section>)
    requires Renderable(url, reg) && Parsed(names, "", text) == Ok(File("", [UNNAMED] + sections))
    requires text == FlatMap(SectionText, sections)
    ensures Renders(url, reg, text) <==> Expects(url, reg, sections)
  {
    hide RendersWith, Renderable, ExpectedSections, Parsed, OrdersOf, SectionText;
    if o :| RendersWith(url, reg, text, o) {
      ParseRecoversRegistry(names, url, reg, text, o);
      RenderingHasOrders(url, reg, text, o);
      assert sections == ([UNNAMED] + sections)[1..] == ([UNNAMED] + ExpectedSections(url, reg, o))[1..] == ExpectedSections(url, reg, o);
    }
    if o :| OrdersOf(reg, o) && ExpectedSections(url, reg, o) == sections {
      var other := OrdersGiveText(url, reg, o);
      SectionsDetermineText(url, reg, other, o);
    }
  }

  /**
   At rest the last patch reads back as sections of the state it shows, and it is stale exactly if no order of the current
   sinks gives these sections; both registries being renderable.
   */
  lemma LastPatchIsStaleExactly(names: FlbLexer.NameRunes, url: UrlParser, worlds: seq<World>, actions: seq<Action>, n: nat)
    returns (sections: seq<Section>)
    requires Run(url, worlds, actions) && n < |worlds| && Quiet(worlds[n]) && worlds[n].log != []
    ensures var w := worlds[n]; var p := w.log[|w.log| - 1];
      && w.history != [] && p.stamp < |w.renderings| && w.renderings[p.stamp] < |w.history|
      && Expects(url, ShownBy(w, p), sections)
      && (Renderable(url, ShownBy(w, p)) ==> Parsed(names, "", p.text) == Ok(File("", [UNNAMED] + sections)))
      && (Renderable(url, ShownBy(w, p)) && Renderable(url, Current(w)) ==>
            (!Renders(url, Current(w), p.text) <==> !Expects(url, Current(w), sections)))
  {
    hide Run, RendersWith, Renderable, ExpectedSections, Parsed, OrdersOf, SectionText;
    var w := worlds[n];
    var p := w.log[|w.log| - 1];
    LastPatchIsCurrentExactly(url, worlds, actions, n);
    var o :| RendersWith(url, ShownBy(w, p), p.text, o);
    sections := ExpectedSections(url, ShownBy(w, p), o);
    RenderingHasOrders(url, ShownBy(w, p), p.text, o);
    ParseRecoversRegistry(names, url, ShownBy(w, p), p.text, o);
    SectionsDetermineText(url, ShownBy(w, p), p.text, o);
    if Renderable(url, ShownBy(w, p)) && Renderable(url, Current(w)) {
      ShowsExactlyExpected(names, url, Current(w), p.text, sections);
    }
  }
}
