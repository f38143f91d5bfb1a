/**
 The two controllers run in their own goroutines. Each handler is three steps: a locked change of its own map,
 a locked rendering of both maps, and an unlocked patch. This module is about every interleaving of those steps.
 */
module SinkInterleaving {
  import FlbLexer
  import opened FlbParser
  import opened SinkRendering
  import opened SinkRoundTrip
  import opened SinkLaws
  import opened SinkControllers

  /**
   One patch: `own` is the publisher's own map right after the event it handled, and `stamp` the place
   of its rendering among all renderings.
   */
  datatype Publication = Publication(who: Informer, text: string, own: map<string, LogSink>, stamp: nat)

  datatype Phase = Idle | Changed(own: map<string, LogSink>) | Rendered(publication: Publication)

  /**
   `history` holds every state the registry has been in, the current one last, and `renderings` the position
   in it that each rendering saw.
   */
  datatype World = World(history: seq<Registry>, renderings: seq<nat>, namespaced: Phase, cluster: Phase, log: seq<Publication>)

  datatype Action = Change(who: Informer, event: Event) | Render(who: Informer, text: string) | Publish(who: Informer)

  const START := World([EMPTY_REGISTRY], [], Idle, Idle, [])

  function PhaseOf(w: World, who: Informer): Phase {
    if who == Namespaced then w.namespaced else w.cluster
  }

  function WithPhase(w: World, who: Informer, phase: Phase): World {
    if who == Namespaced then w.(namespaced := phase) else w.(cluster := phase)
  }

  function Current(w: World): Registry
    requires w.history != []
  {
    w.history[|w.history| - 1]
  }

  function Own(reg: Registry, who: Informer): map<string, LogSink> {
    if who == Namespaced then reg.sinks else reg.clusterSinks
  }

  function WithOwn(reg: Registry, who: Informer, m: map<string, LogSink>): Registry {
    if who == Namespaced then reg.(sinks := m) else reg.(clusterSinks := m)
  }

  /** `after` can follow `w` by the action `a`. A skipped update is no action: its handler returns at once. */
  ghost predicate Next(url: UrlParser, w: World, a: Action, after: World)
    requires w.history != []
  {
    match a
    case Change(who, event) =>
      var own := AfterEvent(who, Own(Current(w), who), event);
      && PhaseOf(w, who) == Idle && !Skipped(event)
      && after == WithPhase(w.(history := w.history + [WithOwn(Current(w), who, own)]), who, Changed(own))
    case Render(who, text) =>
      && PhaseOf(w, who).Changed? && Renders(url, Current(w), text)
      && var p := Publication(who, text, PhaseOf(w, who).own, |w.renderings|);
      after == WithPhase(w.(renderings := w.renderings + [|w.history| - 1]), who, Rendered(p))
    case Publish(who) =>
      && PhaseOf(w, who).Rendered?
      && after == WithPhase(w.(log := w.log + [PhaseOf(w, who).publication]), who, Idle)
  }

  /** A run: the states it passes through and the actions between them. */
  ghost predicate Run(url: UrlParser, worlds: seq<World>, actions: seq<Action>) {
    && |worlds| == |actions| + 1 && worlds[0] == START
    && forall i | 0 <= i < |actions| :: worlds[i].history != [] && Next(url, worlds[i], actions[i], worlds[i + 1])
  }

  // What every step keeps.

  /** The publication shows a state that really held, one in which the publisher's own map was the one its event left. */
  ghost predicate Truthful(url: UrlParser, w: World, p: Publication) {
    && p.stamp < |w.renderings| && w.renderings[p.stamp] < |w.history|
    && Renders(url, w.history[w.renderings[p.stamp]], p.text)
    && Own(w.history[w.renderings[p.stamp]], p.who) == p.own
  }

  ghost predicate PhaseTruthful(url: UrlParser, w: World, who: Informer)
    requires w.history != []
  {
    match PhaseOf(w, who)
    case Idle => true
    case Changed(own) => Own(Current(w), who) == own
    case Rendered(p) => Truthful(url, w, p) && p.who == who
  }

  /** Everything published or about to be is truthful, and nobody else changes a controller's map before it renders. */
  ghost predicate AllTruthful(url: UrlParser, w: World)
    requires w.history != []
  {
    && (forall i | 0 <= i < |w.log| :: Truthful(url, w, w.log[i]))
    && PhaseTruthful(url, w, Namespaced) && PhaseTruthful(url, w, Cluster)
  }

  /** Unless a change is waiting to be rendered, the newest rendering saw the current maps. */
  ghost predicate NewestIsCurrent(w: World) {
    !w.namespaced.Changed? && !w.cluster.Changed? ==>
      if w.renderings == [] then |w.history| == 1 else w.renderings[|w.renderings| - 1] == |w.history| - 1
  }

  predicate Pending(w: World, who: Informer, stamp: nat) {
    PhaseOf(w, who).Rendered? && PhaseOf(w, who).publication.stamp == stamp
  }

  ghost predicate Logged(w: World, stamp: nat) {
    exists i :: 0 <= i < |w.log| && w.log[i].stamp == stamp
  }

  /** Every rendering has been published or is about to be. */
  ghost predicate NothingLost(w: World) {
    forall t | 0 <= t < |w.renderings| :: Logged(w, t) || Pending(w, Namespaced, t) || Pending(w, Cluster, t)
  }

  ghost predicate StampsDistinct(log: seq<Publication>) {
    forall i, j | 0 <= i < j < |log| :: log[i].stamp != log[j].stamp
  }

  /** What is about to be published is not in the log. */
  ghost predicate Unpublished(log: seq<Publication>, phase: Phase) {
    phase.Rendered? ==> forall i | 0 <= i < |log| :: log[i].stamp != phase.publication.stamp
  }

  ghost predicate StampedOnce(log: seq<Publication>, one: Phase, other: Phase) {
    && StampsDistinct(log) && Unpublished(log, one) && Unpublished(log, other)
    && (one.Rendered? && other.Rendered? ==> one.publication.stamp != other.publication.stamp)
  }

  /** No rendering is published twice. */
  ghost predicate NothingTwice(w: World) {
    StampedOnce(w.log, w.namespaced, w.cluster)
  }

  /** Rendered after everything up to the last of `log` by the same controller. */
  ghost predicate NewerThanOwn(log: seq<Publication>, p: Publication) {
    forall i, k | 0 <= k <= i < |log| && log[i].who == p.who :: log[k].stamp < p.stamp
  }

  ghost predicate LogInTurn(log: seq<Publication>) {
    forall j | 0 <= j < |log| :: NewerThanOwn(log[..j], log[j])
  }

  ghost predicate PhaseInTurn(log: seq<Publication>, phase: Phase) {
    phase.Rendered? ==> NewerThanOwn(log, phase.publication)
  }

  /** A controller renders again only after it has published: what was in the log by then is older. */
  ghost predicate InTurn(w: World) {
    LogInTurn(w.log) && PhaseInTurn(w.log, w.namespaced) && PhaseInTurn(w.log, w.cluster)
  }

  ghost predicate Inv(url: UrlParser, w: World) {
    w.history != [] && AllTruthful(url, w) && NewestIsCurrent(w) && NothingLost(w) && NothingTwice(w) && InTurn(w)
  }

  lemma TruthStays(url: UrlParser, w: World, after: World, p: Publication)
    requires Truthful(url, w, p) && w.history <= after.history && w.renderings <= after.renderings
    ensures Truthful(url, after, p)
  {
    hide Renders, Own;
    var h := w.renderings[p.stamp];
    assert after.renderings[p.stamp] == h && after.history[h] == w.history[h];
  }

  lemma StepIsTruthful(url: UrlParser, w: World, a: Action, after: World)
    requires Inv(url, w) && Next(url, w, a, after)
    ensures after.history != [] && AllTruthful(url, after) && NewestIsCurrent(after)
  {
    hide Renders, AfterEvent, NothingLost, NothingTwice, InTurn;
    forall p | Truthful(url, w, p) ensures Truthful(url, after, p) {
      TruthStays(url, w, after, p);
    }
    if a.Render? {
      var p := PhaseOf(after, a.who).publication;
      assert after.renderings[p.stamp] == |w.history| - 1;
    }
  }

  /** Every stamp given out so far is below `n`. */
  ghost predicate StampsBelow(n: nat, log: seq<Publication>, phase: Phase) {
    (forall i | 0 <= i < |log| :: log[i].stamp < n) && (phase.Rendered? ==> phase.publication.stamp < n)
  }

  lemma StampsAreOld(url: UrlParser, w: World)
    requires w.history != [] && AllTruthful(url, w)
    ensures StampsBelow(|w.renderings|, w.log, w.namespaced) && StampsBelow(|w.renderings|, w.log, w.cluster)
    ensures w.namespaced.Rendered? ==> w.namespaced.publication.who == Namespaced
    ensures w.cluster.Rendered? ==> w.cluster.publication.who == Cluster
  {
    hide Renders;
    assert PhaseTruthful(url, w, Namespaced) && PhaseTruthful(url, w, Cluster);
  }

  lemma StepLosesNothing(url: UrlParser, w: World, a: Action, after: World)
    requires w.history != [] && NothingLost(w) && Next(url, w, a, after)
    ensures NothingLost(after)
  {
    hide Renders, AfterEvent, WithOwn;
    forall t | 0 <= t < |after.renderings| ensures Logged(after, t) || Pending(after, Namespaced, t) || Pending(after, Cluster, t) {
      if t == |w.renderings| {
        assert Pending(after, a.who, t);
      } else if Logged(w, t) {
        var i :| 0 <= i < |w.log| && w.log[i].stamp == t;
        assert after.log[i].stamp == t;
      } else if a.Publish? && Pending(w, a.who, t) {
        assert after.log[|w.log|].stamp == t;
      }
    }
  }

  function Other(who: Informer): Informer {
    if who == Namespaced then Cluster else Namespaced
  }

  /** The effect of a step on the log and on the acting controller; the other one does not move. */
  ghost predicate Moves(log: seq<Publication>, own: Phase, newStamp: nat, logAfter: seq<Publication>, ownAfter: Phase) {
    || (own == Idle && logAfter == log && ownAfter.Changed?)
    || (own.Changed? && logAfter == log && ownAfter.Rendered? && ownAfter.publication.stamp == newStamp)
    || (own.Rendered? && logAfter == log + [own.publication] && ownAfter == Idle)
  }

  lemma StepMovesOne(url: UrlParser, w: World, a: Action, after: World)
    requires w.history != [] && Next(url, w, a, after)
    ensures Moves(w.log, PhaseOf(w, a.who), |w.renderings|, after.log, PhaseOf(after, a.who))
    ensures PhaseOf(after, Other(a.who)) == PhaseOf(w, Other(a.who))
  {
    hide Renders, AfterEvent, WithOwn, Current;
  }

  lemma MoveRepeatsNothing(log: seq<Publication>, own: Phase, other: Phase, newStamp: nat, logAfter: seq<Publication>, ownAfter: Phase)
    requires StampedOnce(log, own, other) && Moves(log, own, newStamp, logAfter, ownAfter) && StampsBelow(newStamp, log, other)
    ensures StampedOnce(logAfter, ownAfter, other)
  {
  }

  lemma StepRepeatsNothing(url: UrlParser, w: World, a: Action, after: World)
    requires w.history != [] && AllTruthful(url, w) && NothingTwice(w) && Next(url, w, a, after)
    ensures NothingTwice(after)
  {
    StampsAreOld(url, w);
    StepMovesOne(url, w, a, after);
    assert StampedOnce(w.log, PhaseOf(w, a.who), PhaseOf(w, Other(a.who)));
    hide AllTruthful, Next, StampsDistinct, Unpublished, Moves;
    MoveRepeatsNothing(w.log, PhaseOf(w, a.who), PhaseOf(w, Other(a.who)), |w.renderings|, after.log, PhaseOf(after, a.who));
    assert PhaseOf(after, Other(a.who)) == PhaseOf(w, Other(a.who));
  }

  lemma AppendKeepsNewer(log: seq<Publication>, q: Publication, p: Publication)
    requires NewerThanOwn(log, p) && q.who != p.who
    ensures NewerThanOwn(log + [q], p)
  {
  }

  lemma MoveIsInTurn(log: seq<Publication>, own: Phase, other: Phase, newStamp: nat, logAfter: seq<Publication>, ownAfter: Phase)
    requires LogInTurn(log) && PhaseInTurn(log, own) && PhaseInTurn(log, other)
    requires own.Rendered? && other.Rendered? ==> own.publication.who != other.publication.who
    requires Moves(log, own, newStamp, logAfter, ownAfter) && StampsBelow(newStamp, log, other)
    ensures LogInTurn(logAfter) && PhaseInTurn(logAfter, ownAfter) && PhaseInTurn(logAfter, other)
  {
    if own.Rendered? {
      hide NewerThanOwn;
      forall j | 0 <= j < |logAfter| ensures NewerThanOwn(logAfter[..j], logAfter[j]) {
        assert logAfter[..j] == if j < |log| then log[..j] else log;
      }
      if other.Rendered? {
        AppendKeepsNewer(log, own.publication, other.publication);
      }
    }
  }

  lemma StepIsInTurn(url: UrlParser, w: World, a: Action, after: World)
    requires w.history != [] && AllTruthful(url, w) && InTurn(w) && Next(url, w, a, after)
    ensures InTurn(after)
  {
    StampsAreOld(url, w);
    StepMovesOne(url, w, a, after);
    hide AllTruthful, Next, LogInTurn, PhaseInTurn, Moves;
    MoveIsInTurn(w.log, PhaseOf(w, a.who), PhaseOf(w, Other(a.who)), |w.renderings|, after.log, PhaseOf(after, a.who));
    assert PhaseOf(after, Other(a.who)) == PhaseOf(w, Other(a.who));
  }

  lemma {:induction false} RunKeepsInv(url: UrlParser, worlds: seq<World>, actions: seq<Action>, n: nat)
    requires Run(url, worlds, actions) && n < |worlds|
    ensures Inv(url, worlds[n])
  {
    if n == 0 {
      StartInv(url);
    } else {
      hide Next, AllTruthful, NewestIsCurrent, NothingLost, NothingTwice, InTurn;
      RunKeepsInv(url, worlds, actions, n - 1);
      StepIsTruthful(url, worlds[n - 1], actions[n - 1], worlds[n]);
      StepLosesNothing(url, worlds[n - 1], actions[n - 1], worlds[n]);
      StepRepeatsNothing(url, worlds[n - 1], actions[n - 1], worlds[n]);
      StepIsInTurn(url, worlds[n - 1], actions[n - 1], worlds[n]);
    }
  }

  lemma StartInv(url: UrlParser)
    ensures Inv(url, START)
  {
  }

  // What is published.

  /** In every run, every patch shows a state the registry was really in, with the publisher's map as its own event left it. */
  lemma PublicationsAreTruthful(url: UrlParser, worlds: seq<World>, actions: seq<Action>, n: nat, i: nat)
    requires Run(url, worlds, actions) && n < |worlds| && i < |worlds[n].log|
    ensures var p := worlds[n].log[i];
      exists h :: 0 <= h < |worlds[n].history| && Renders(url, worlds[n].history[h], p.text) && Own(worlds[n].history[h], p.who) == p.own
  {
    hide Next, Renders;
    RunKeepsInv(url, worlds, actions, n);
    assert Truthful(url, worlds[n], worlds[n].log[i]);
  }

  predicate Quiet(w: World) {
    w.namespaced == Idle && w.cluster == Idle
  }

  /** Of three patches in a row, the first is not the newest rendering. */
  lemma OvertakenOnce(w: World, i: nat)
    requires LogInTurn(w.log) && i + 2 < |w.log|
    ensures w.log[i].stamp < w.log[i + 1].stamp || w.log[i].stamp < w.log[i + 2].stamp
  {
    assert NewerThanOwn(w.log[..i + 1], w.log[i + 1]) && NewerThanOwn(w.log[..i + 2], w.log[i + 2]);
    assert w.log[..i + 1][i] == w.log[i] == w.log[..i + 2][i] && w.log[..i + 2][i + 1] == w.log[i + 1];
    var first, second, third := w.log[i].who, w.log[i + 1].who, w.log[i + 2].who;
    assert first == second || first == third || second == third;
  }

  /** The patch the agents should be left with: the last one, or the one before it if the two overtook each other. */
  function NewestOf(log: seq<Publication>): nat
    requires log != []
  {
    var last := |log| - 1;
    if last > 0 && log[last].stamp < log[last - 1].stamp then last - 1 else last
  }

  lemma LargestIsLate(log: seq<Publication>, i: nat)
    requires i < |log| <= i + 2 && StampsDistinct(log)
    requires forall j | 0 <= j < |log| :: log[j].stamp <= log[i].stamp
    ensures NewestOf(log) == i
  {
  }

  /** When both controllers rest, the newest rendering is the last or the last but one in the log. */
  lemma NewestIsLate(url: UrlParser, w: World)
    requires Inv(url, w) && Quiet(w) && w.log != []
    ensures w.log[NewestOf(w.log)].stamp == |w.renderings| - 1
  {
    StampsAreOld(url, w);
    hide Inv, NewestOf, StampsDistinct, LogInTurn;
    assert w.log[0].stamp < |w.renderings|;
    var newest := NewestLogged(url, w);
    if newest + 2 < |w.log| {
      OvertakenOnce(w, newest);
    }
    LargestIsLate(w.log, newest);
  }

  lemma NewestLogged(url: UrlParser, w: World) returns (i: nat)
    requires Inv(url, w) && Quiet(w) && w.renderings != []
    ensures i < |w.log| && w.log[i].stamp == |w.renderings| - 1 && LogInTurn(w.log) && StampsDistinct(w.log)
  {
    hide AllTruthful, LogInTurn, PhaseInTurn, NewestIsCurrent, StampsDistinct;
    assert Logged(w, |w.renderings| - 1);
    i :| 0 <= i < |w.log| && w.log[i].stamp == |w.renderings| - 1;
  }

  /**
   At rest, the current maps are what the last patch shows if the last two patches were made in the order they
   were rendered, and what the patch before it shows if they overtook each other.
   */
  lemma QuietShowsCurrent(url: UrlParser, worlds: seq<World>, actions: seq<Action>, n: nat)
    requires Run(url, worlds, actions) && n < |worlds|
    requires Quiet(worlds[n]) && worlds[n].log != []
    ensures var w := worlds[n]; w.history != [] && Renders(url, Current(w), w.log[NewestOf(w.log)].text)
  {
    hide Next, Renders;
    var w := worlds[n];
    RunKeepsInv(url, worlds, actions, n);
    NewestIsLate(url, w);
    assert Truthful(url, w, w.log[NewestOf(w.log)]);
  }

  // A handler that is left alone.

  /** Three consecutive steps of one controller do what its `Deliver` promises: its map after the event, and a patch of both maps. */
  lemma UndisturbedHandler(url: UrlParser, w: World, who: Informer, e: Event, text: string) returns (changed: World, rendered: World, after: World)
    requires w.history != [] && PhaseOf(w, who) == Idle && !Skipped(e)
    requires Renders(url, WithOwn(Current(w), who, AfterEvent(who, Own(Current(w), who), e)), text)
    ensures Next(url, w, Change(who, e), changed) && changed.history != [] && Next(url, changed, Render(who, text), rendered)
    ensures rendered.history != [] && Next(url, rendered, Publish(who), after) && after.history != []
    ensures Current(after) == WithOwn(Current(w), who, AfterEvent(who, Own(Current(w), who), e))
    ensures |after.log| == |w.log| + 1 && w.log < after.log && after.log[|w.log|].text == text
    ensures PhaseOf(after, who) == Idle && PhaseOf(after, Other(who)) == PhaseOf(w, Other(who))
  {
    hide Renders, AfterEvent;
    var own := AfterEvent(who, Own(Current(w), who), e);
    changed := WithPhase(w.(history := w.history + [WithOwn(Current(w), who, own)]), who, Changed(own));
    rendered := WithPhase(changed.(renderings := w.renderings + [|w.history|]), who, Rendered(Publication(who, text, own, |w.renderings|)));
    after := WithPhase(rendered.(log := w.log + [Publication(who, text, own, |w.renderings|)]), who, Idle);
  }

  // Patches that overtake each other leave the agents with a stale configuration.

  const SINK_A := LogSink(ObjectMeta("a", "ns", "", ""), SinkSpec("syslog", "host", 514, true, "", false))
  const SINK_B := LogSink(ObjectMeta("b", "", "", ""), SinkSpec("syslog", "host", 514, true, "", false))
  const ONE_SINK := Registry(map[Key(SINK_A) := SINK_A], map[])
  const TWO_SINKS := Registry(map[Key(SINK_A) := SINK_A], map[ClusterKey(SINK_B) := SINK_B])

  lemma BothRenderable(url: UrlParser)
    ensures Renderable(url, ONE_SINK) && Renderable(url, TWO_SINKS)
  {
    assert RenderableSink(url, false, SINK_A) && RenderableSink(url, true, SINK_B);
  }

  lemma BothCounted(url: UrlParser, one: Orders, two: Orders)
    requires OrdersOf(ONE_SINK, one) && OrdersOf(TWO_SINKS, two)
    ensures |ExpectedSections(url, ONE_SINK, one)| == 1 && |ExpectedSections(url, TWO_SINKS, two)| == 2
  {
    hide OrdersOf, ExpectedSections;
    assert Key(SINK_A) in ONE_SINK.sinks;
    SectionsAreConserved(url, ONE_SINK, one);
    SectionsAreConserved(url, TWO_SINKS, two);
    assert SyslogKeysOf(ONE_SINK.sinks) == {Key(SINK_A)} && SyslogKeysOf(ONE_SINK.clusterSinks) == {};
    assert SyslogKeysOf(TWO_SINKS.clusterSinks) == {ClusterKey(SINK_B)};
    assert WebhookKeysOf(url, TWO_SINKS.sinks) == {} && WebhookKeysOf(url, TWO_SINKS.clusterSinks) == {};
    assert WebhookKeysOf(url, ONE_SINK.clusterSinks) == {};
  }

  lemma BehindUnnamed(a: seq<Section>, b: seq<Section>)
    ensures [UNNAMED] + a == [UNNAMED] + b ==> |a| == |b|
  {
    assert |[UNNAMED] + a| == 1 + |a| && |[UNNAMED] + b| == 1 + |b|;
  }

  /** The text for one sink is not a text for two: they read back differently. */
  lemma TextsDiffer(names: FlbLexer.NameRunes, url: UrlParser, text: string)
    requires Renders(url, ONE_SINK, text)
    ensures !Renders(url, TWO_SINKS, text)
  {
    hide RendersWith, Renderable, ExpectedSections, Parsed, OrdersOf;
    BothRenderable(url);
    var one :| RendersWith(url, ONE_SINK, text, one);
    ParseRecoversRegistry(names, url, ONE_SINK, text, one);
    if two :| RendersWith(url, TWO_SINKS, text, two) {
      ParseRecoversRegistry(names, url, TWO_SINKS, text, two);
      RenderingHasOrders(url, ONE_SINK, text, one);
      RenderingHasOrders(url, TWO_SINKS, text, two);
      BothCounted(url, one, two);
      BehindUnnamed(ExpectedSections(url, ONE_SINK, one), ExpectedSections(url, TWO_SINKS, two));
    }
  }

  lemma RenderingHasOrders(url: UrlParser, reg: Registry, text: string, o: Orders)
    requires RendersWith(url, reg, text, o)
    ensures OrdersOf(reg, o)
  {
  }

  lemma TextExists(url: UrlParser, reg: Registry) returns (text: string)
    ensures Renders(url, reg, text)
  {
    hide OrdersOf, SyslogPart, WebhookPart;
    var o := OrdersExist(reg);
    text := if reg == EMPTY_REGISTRY then NULL_CONFIG else SyslogPart(o) + WebhookPart(url, reg, o);
    assert RendersWith(url, reg, text, o);
  }

  function StaleActions(one: string, two: string): seq<Action> {
    [Change(Namespaced, Added(SINK_A)), Render(Namespaced, one), Change(Cluster, Added(SINK_B)), Render(Cluster, two),
     Publish(Cluster), Publish(Namespaced)]
  }

  function StaleWorlds(one: string, two: string): seq<World> {
    var p1 := Publication(Namespaced, one, ONE_SINK.sinks, 0);
    var p2 := Publication(Cluster, two, TWO_SINKS.clusterSinks, 1);
    var h1, h2 := [EMPTY_REGISTRY, ONE_SINK], [EMPTY_REGISTRY, ONE_SINK, TWO_SINKS];
    [START, World(h1, [], Changed(p1.own), Idle, []), World(h1, [1], Rendered(p1), Idle, []),
     World(h2, [1], Rendered(p1), Changed(p2.own), []), World(h2, [1, 2], Rendered(p1), Rendered(p2), []),
     World(h2, [1, 2], Rendered(p1), Idle, [p2]), World(h2, [1, 2], Idle, Idle, [p2, p1])]
  }

  lemma StaleSteps(url: UrlParser, one: string, two: string, i: nat)
    requires Renders(url, ONE_SINK, one) && Renders(url, TWO_SINKS, two) && i < 6
    ensures StaleWorlds(one, two)[i].history != [] && Next(url, StaleWorlds(one, two)[i], StaleActions(one, two)[i], StaleWorlds(one, two)[i + 1])
  {
    hide Renders, Key, ClusterKey;
  }

  /**
   Without the order the claim fails: two sinks are added, one through each controller, the rendering that shows
   only one of them is patched last, and both controllers rest with a sink the agents never hear of.
   */
  lemma OvertakingLeavesStaleText(names: FlbLexer.NameRunes, url: UrlParser) returns (worlds: seq<World>, actions: seq<Action>)
    ensures Run(url, worlds, actions)
    ensures var w := worlds[|worlds| - 1];
      && Quiet(w) && w.history != [] && w.log != [] && Current(w) == TWO_SINKS
      && !Renders(url, Current(w), w.log[|w.log| - 1].text)
  {
    hide Renders, Next, Key, ClusterKey;
    var one := TextExists(url, ONE_SINK);
    var two := TextExists(url, TWO_SINKS);
    TextsDiffer(names, url, one);
    worlds, actions := StaleWorlds(one, two), StaleActions(one, two);
    forall i | 0 <= i < |actions| ensures worlds[i].history != [] && Next(url, worlds[i], actions[i], worlds[i + 1]) {
      StaleSteps(url, one, two, i);
    }
  }
}
