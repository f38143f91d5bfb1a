/** What a rendering does not depend on, and what it conserves. */
module SinkLaws {
  import opened Collections
  import opened FlbLexer
  import opened FlbParser
  import opened SinkOrder
  import opened SinkRendering
  import opened SinkRoundTrip

  // Order independence of the syslog part.

  /** Syslog sinks of one map that agree on canonical namespace and name render alike. */
  ghost predicate NoTies(m: map<string, LogSink>, output: LogSink -> seq<Output>) {
    forall k, l, x, y | k in m && l in m && x in output(m[k]) && y in output(m[l]) && SameKey(x, y) :: x == y
  }

  lemma NoTiesIsTieFree(m: map<string, LogSink>, keys: seq<string>, output: LogSink -> seq<Output>)
    requires Enumerates(keys, m)
    ensures NoTies(m, output) <==> TieFree(FlatMap(output, ValuesOf(m, keys)))
  {
    hide Enumerates, SameKey;
    var outputs := FlatMap(output, ValuesOf(m, keys));
    forall x ensures x in outputs <==> exists k :: k in m && x in output(m[k]) {
      RangeMember(m, keys, output, x);
    }
    if TieFree(outputs) {
      forall k, l, x, y | k in m && l in m && x in output(m[k]) && y in output(m[l]) && SameKey(x, y) ensures x == y {
        assert x in outputs && y in outputs;
      }
    }
  }

  lemma OutputsPermute(m: map<string, LogSink>, a: seq<string>, b: seq<string>, output: LogSink -> seq<Output>)
    requires Enumerates(a, m) && Enumerates(b, m)
    ensures multiset(FlatMap(output, ValuesOf(m, a))) == multiset(FlatMap(output, ValuesOf(m, b)))
  {
    EnumerationsPermute(m, a, b);
    FlatMapPermutes(output, ValuesOf(m, a), ValuesOf(m, b));
  }

  /** Distinct syslog sinks have distinct names: what the rendering order rests on. */
  ghost predicate UniquelyNamed(reg: Registry) {
    NoTies(reg.sinks, NamespacedOutput) && NoTies(reg.clusterSinks, ClusterOutput)
  }

  /** With unique names the two sorted lists, and so the syslog text, are the same for every range order and every sort. */
  lemma SyslogIsOrderIndependent(reg: Registry, a: Orders, b: Orders)
    requires UniquelyNamed(reg) && OrdersOf(reg, a) && OrdersOf(reg, b)
    ensures a.sorted == b.sorted && a.clusterSorted == b.clusterSorted && SyslogPart(a) == SyslogPart(b)
    ensures Sorted(a.sorted) && Sorted(a.clusterSorted)
  {
    hide Enumerates, TieFree, NoTies, NamespacedOutput, ClusterOutput;
    NoTiesIsTieFree(reg.sinks, a.syslog, NamespacedOutput);
    NoTiesIsTieFree(reg.clusterSinks, a.clusterSyslog, ClusterOutput);
    OutputsPermute(reg.sinks, a.syslog, b.syslog, NamespacedOutput);
    OutputsPermute(reg.clusterSinks, a.clusterSyslog, b.clusterSyslog, ClusterOutput);
    SortingIsUnique(FlatMap(NamespacedOutput, ValuesOf(reg.sinks, a.syslog)), a.sorted, b.sorted);
    SortingIsUnique(FlatMap(ClusterOutput, ValuesOf(reg.clusterSinks, a.clusterSyslog)), a.clusterSorted, b.clusterSorted);
  }

  lemma {:induction false} SectionsDetermineOutputs(a: seq<Output>, b: seq<Output>)
    requires FlatMap(SectionOf, a) == FlatMap(SectionOf, b)
    ensures a == b
  {
    if a != [] && b != [] {
      assert FlatMap(SectionOf, a)[0] == OutputSection(a[0]) && FlatMap(SectionOf, b)[0] == OutputSection(b[0]);
      OutputSectionInjective(a[0], b[0]);
      assert FlatMap(SectionOf, a)[1..] == FlatMap(SectionOf, a[1..]);
      assert FlatMap(SectionOf, b)[1..] == FlatMap(SectionOf, b[1..]);
      SectionsDetermineOutputs(a[1..], b[1..]);
      assert a == [a[0]] + a[1..] && b == [b[0]] + b[1..];
    }
  }

  lemma OutputSectionInjective(a: Output, b: Output)
    requires OutputSection(a) == OutputSection(b)
    ensures a == b
  {
    var pa, pb := OutputSection(a).keyValues, OutputSection(b).keyValues;
    assert pa[2] == pb[2] && pa[3] == pb[3] && pa[4] == pb[4];
    assert pa[5..] == TlsPairs(a.tls) && pb[5..] == TlsPairs(b.tls);
    if a.tls.Some? && b.tls.Some? {
      assert TlsPairs(a.tls)[0].value == TlsPairs(b.tls)[0].value;
      assert |TlsJson(true)| != |TlsJson(false)|;
    }
  }

  lemma {:induction false} SectionCount(a: seq<Output>)
    ensures |FlatMap(SectionOf, a)| == |a|
  {
    if a != [] {
      SectionCount(a[1..]);
    }
  }

  /** Two renderable texts that agree come from the same sorted lists. */
  lemma TextDeterminesOrder(names: NameRunes, url: UrlParser, reg: Registry, a: Orders, b: Orders)
    requires Renderable(url, reg) && OrdersOf(reg, a) && OrdersOf(reg, b) && SyslogPart(a) == SyslogPart(b)
    ensures a.sorted == b.sorted && a.clusterSorted == b.clusterSorted
  {
    hide Renderable, SyslogPart, Enumerates, NamespacedOutput, ClusterOutput, Sorted, Parsed;
    ReadsSyslogPart(names, url, reg, a);
    ReadsSyslogPart(names, url, reg, b);
    assert SyslogSections(a) == ([UNNAMED] + SyslogSections(a))[1..] == ([UNNAMED] + SyslogSections(b))[1..] == SyslogSections(b);
    OutputsPermute(reg.sinks, a.syslog, b.syslog, NamespacedOutput);
    assert |a.sorted| == |multiset(a.sorted)| == |multiset(b.sorted)| == |b.sorted|;
    SectionCount(a.sorted);
    SectionCount(b.sorted);
    assert FlatMap(SectionOf, a.sorted) == SyslogSections(a)[..|a.sorted|];
    assert FlatMap(SectionOf, b.sorted) == SyslogSections(b)[..|b.sorted|];
    assert FlatMap(SectionOf, a.clusterSorted) == SyslogSections(a)[|a.sorted|..];
    assert FlatMap(SectionOf, b.clusterSorted) == SyslogSections(b)[|b.sorted|..];
    SectionsDetermineOutputs(a.sorted, b.sorted);
    SectionsDetermineOutputs(a.clusterSorted, b.clusterSorted);
  }

  lemma OrdersExist(reg: Registry) returns (o: Orders)
    ensures OrdersOf(reg, o)
  {
    hide Enumerates, Sorted, NamespacedOutput, ClusterOutput;
    var keys := EnumerationExists(reg.sinks);
    var clusterKeys := EnumerationExists(reg.clusterSinks);
    o := Orders(keys, clusterKeys, Sort(FlatMap(NamespacedOutput, ValuesOf(reg.sinks, keys))),
                Sort(FlatMap(ClusterOutput, ValuesOf(reg.clusterSinks, clusterKeys))), keys, clusterKeys);
  }

  lemma TiesGiveTwoTexts(names: NameRunes, url: UrlParser, reg: Registry) returns (a: Orders, b: Orders)
    requires Renderable(url, reg) && !UniquelyNamed(reg)
    ensures OrdersOf(reg, a) && OrdersOf(reg, b) && SyslogPart(a) != SyslogPart(b)
  {
    hide Renderable, SyslogPart, Enumerates, NoTies, NamespacedOutput, ClusterOutput, Sorted, SameKey;
    var o := OrdersExist(reg);
    NoTiesIsTieFree(reg.sinks, o.syslog, NamespacedOutput);
    NoTiesIsTieFree(reg.clusterSinks, o.clusterSyslog, ClusterOutput);
    var outputs := FlatMap(NamespacedOutput, ValuesOf(reg.sinks, o.syslog));
    if !TieFree(outputs) {
      var x, y :| x in outputs && y in outputs && SameKey(x, y) && x != y;
      var s, t := TiesGiveTwoOrders(outputs, x, y);
      a, b := o.(sorted := s), o.(sorted := t);
    } else {
      var clusterOutputs := FlatMap(ClusterOutput, ValuesOf(reg.clusterSinks, o.clusterSyslog));
      var x, y :| x in clusterOutputs && y in clusterOutputs && SameKey(x, y) && x != y;
      var s, t := TiesGiveTwoOrders(clusterOutputs, x, y);
      a, b := o.(clusterSorted := s), o.(clusterSorted := t);
    }
    if SyslogPart(a) == SyslogPart(b) {
      TextDeterminesOrder(names, url, reg, a, b);
    }
  }

  /** For renderable registries unique names are not only enough for a determinate syslog text but necessary. */
  lemma SyslogTextIsDeterminate(names: NameRunes, url: UrlParser, reg: Registry)
    requires Renderable(url, reg)
    ensures UniquelyNamed(reg) <==> forall a, b | OrdersOf(reg, a) && OrdersOf(reg, b) :: SyslogPart(a) == SyslogPart(b)
  {
    hide Renderable, SyslogPart, UniquelyNamed, OrdersOf;
    if UniquelyNamed(reg) {
      forall a, b | OrdersOf(reg, a) && OrdersOf(reg, b) ensures SyslogPart(a) == SyslogPart(b) {
        SyslogIsOrderIndependent(reg, a, b);
      }
    } else {
      var a, b := TiesGiveTwoTexts(names, url, reg);
    }
  }

  // Webhooks are not sorted.

  /** Two renderings list the same namespaced webhook sections and then, from position `n` on, the same cluster ones, each in some order. */
  lemma WebhookSectionsPermute(url: UrlParser, reg: Registry, a: Orders, b: Orders) returns (n: nat)
    requires OrdersOf(reg, a) && OrdersOf(reg, b)
    ensures n <= |WebhookSections(url, reg, a)| && n <= |WebhookSections(url, reg, b)|
    ensures multiset(WebhookSections(url, reg, a)[..n]) == multiset(WebhookSections(url, reg, b)[..n])
    ensures multiset(WebhookSections(url, reg, a)[n..]) == multiset(WebhookSections(url, reg, b)[n..])
    ensures forall s :: s in WebhookSections(url, reg, a)[..n] <==> exists k :: k in reg.sinks && s in WebhookSection(url, false)(reg.sinks[k])
    ensures forall s :: s in WebhookSections(url, reg, a)[n..] <==> exists k :: k in reg.clusterSinks && s in WebhookSection(url, true)(reg.clusterSinks[k])
  {
    WebhookRangePermutes(url, false, reg.sinks, a.webhook, b.webhook);
    WebhookRangePermutes(url, true, reg.clusterSinks, a.clusterWebhook, b.clusterWebhook);
    hide Enumerates, WebhookSection, SortOf;
    var f, g := WebhookSection(url, false), WebhookSection(url, true);
    var a1, a2 := FlatMap(f, ValuesOf(reg.sinks, a.webhook)), FlatMap(g, ValuesOf(reg.clusterSinks, a.clusterWebhook));
    var b1, b2 := FlatMap(f, ValuesOf(reg.sinks, b.webhook)), FlatMap(g, ValuesOf(reg.clusterSinks, b.clusterWebhook));
    n := |a1|;
    assert n == |multiset(a1)| == |b1|;
    assert WebhookSections(url, reg, a)[..n] == a1 && WebhookSections(url, reg, a)[n..] == a2;
    assert WebhookSections(url, reg, b)[..n] == b1 && WebhookSections(url, reg, b)[n..] == b2;
  }

  lemma WebhookRangePermutes(url: UrlParser, isCluster: bool, m: map<string, LogSink>, a: seq<string>, b: seq<string>)
    requires Enumerates(a, m) && Enumerates(b, m)
    ensures var f := WebhookSection(url, isCluster);
      && multiset(FlatMap(f, ValuesOf(m, a))) == multiset(FlatMap(f, ValuesOf(m, b)))
      && (forall s :: s in FlatMap(f, ValuesOf(m, a)) <==> exists k :: k in m && s in f(m[k]))
  {
    hide Enumerates, WebhookSection;
    var f := WebhookSection(url, isCluster);
    EnumerationsPermute(m, a, b);
    FlatMapPermutes(f, ValuesOf(m, a), ValuesOf(m, b));
    forall s ensures s in FlatMap(f, ValuesOf(m, a)) <==> exists k :: k in m && s in f(m[k]) {
      RangeMember(m, a, f, s);
    }
  }

  // Conservation.

  function SyslogKeysOf(m: map<string, LogSink>): set<string> {
    set k | k in m && m[k].spec.kind == "syslog"
  }

  function WebhookKeysOf(url: UrlParser, m: map<string, LogSink>): set<string> {
    set k | k in m && m[k].spec.kind == "webhook" && url(m[k].spec.url).Some?
  }

  lemma CountSyslog(m: map<string, LogSink>, keys: seq<string>)
    requires Enumerates(keys, m)
    ensures |FlatMap(NamespacedOutput, ValuesOf(m, keys))| == |SyslogKeysOf(m)|
    ensures |FlatMap(ClusterOutput, ValuesOf(m, keys))| == |SyslogKeysOf(m)|
  {
    CountAlong(m, keys, NamespacedOutput);
    CountAlong(m, keys, ClusterOutput);
    assert Defined(m, keys, NamespacedOutput) == SyslogKeysOf(m);
    assert Defined(m, keys, ClusterOutput) == SyslogKeysOf(m);
  }

  lemma CountWebhook(url: UrlParser, isCluster: bool, m: map<string, LogSink>, keys: seq<string>)
    requires Enumerates(keys, m)
    ensures |FlatMap(WebhookSection(url, isCluster), ValuesOf(m, keys))| == |WebhookKeysOf(url, m)|
  {
    hide HttpSection;
    CountAlong(m, keys, WebhookSection(url, isCluster));
    assert Defined(m, keys, WebhookSection(url, isCluster)) == WebhookKeysOf(url, m);
  }

  /** One section per syslog sink and per webhook sink with a parsable URL, and nothing else. */
  lemma SectionsAreConserved(url: UrlParser, reg: Registry, o: Orders)
    requires OrdersOf(reg, o) && reg != EMPTY_REGISTRY
    ensures |ExpectedSections(url, reg, o)|
         == |SyslogKeysOf(reg.sinks)| + |SyslogKeysOf(reg.clusterSinks)|
            + |WebhookKeysOf(url, reg.sinks)| + |WebhookKeysOf(url, reg.clusterSinks)|
  {
    hide Enumerates, NamespacedOutput, ClusterOutput, WebhookSection, SyslogKeysOf, WebhookKeysOf, Sorted;
    CountSyslog(reg.sinks, o.syslog);
    CountSyslog(reg.clusterSinks, o.clusterSyslog);
    CountWebhook(url, false, reg.sinks, o.webhook);
    CountWebhook(url, true, reg.clusterSinks, o.clusterWebhook);
    assert |o.sorted| == |multiset(o.sorted)| && |o.clusterSorted| == |multiset(o.clusterSorted)|;
    SectionCount(o.sorted);
    SectionCount(o.clusterSorted);
  }

  lemma {:induction false} SectionAt(a: seq<Output>, i: nat)
    requires i < |a|
    ensures i < |FlatMap(SectionOf, a)| && FlatMap(SectionOf, a)[i] == OutputSection(a[i])
  {
    SectionCount(a);
    if i > 0 {
      SectionAt(a[1..], i - 1);
    }
  }

  /** The section of some namespaced syslog sink, naming its namespace. */
  ghost predicate ScopedToNamespace(reg: Registry, section: Section) {
    exists k :: k in SyslogKeysOf(reg.sinks) && NamespaceScope(reg.sinks[k], section)
  }

  predicate NamespaceScope(s: LogSink, section: Section) {
    && [section] == FlatMap(SectionOf, NamespacedOutput(s))
    && KeyValue("Namespace", CanonicalNamespace(s.meta.namespace)) in section.keyValues
    && forall p | p in section.keyValues :: p.key != "Cluster"
  }

  /** The section of some cluster syslog sink, marked as cluster-wide. */
  ghost predicate ScopedToCluster(reg: Registry, section: Section) {
    exists k :: k in SyslogKeysOf(reg.clusterSinks) && ClusterScope(reg.clusterSinks[k], section)
  }

  predicate ClusterScope(s: LogSink, section: Section) {
    && [section] == FlatMap(SectionOf, ClusterOutput(s))
    && KeyValue("Cluster", "true") in section.keyValues
    && forall p | p in section.keyValues :: p.key != "Namespace"
  }

  lemma SectionOfOne(o: Output)
    ensures FlatMap(SectionOf, [o]) == [OutputSection(o)]
  {
    assert [o][1..] == [];
  }

  lemma OutputIsScoped(s: LogSink)
    requires s.spec.kind == "syslog"
    ensures NamespaceScope(s, OutputSection(NamespacedOutput(s)[0]))
    ensures ClusterScope(s, OutputSection(ClusterOutput(s)[0]))
  {
    var o, c := NamespacedOutput(s)[0], ClusterOutput(s)[0];
    SectionOfOne(o);
    SectionOfOne(c);
    assert OutputSection(o).keyValues[4] == ScopePair(o);
    assert OutputSection(c).keyValues[4] == ScopePair(c);
  }

  lemma SortedIsScoped(reg: Registry, o: Orders, x: Output)
    requires OrdersOf(reg, o)
    ensures x in o.sorted ==> ScopedToNamespace(reg, OutputSection(x))
    ensures x in o.clusterSorted ==> ScopedToCluster(reg, OutputSection(x))
  {
    hide OrdersOf, OutputSection, SyslogOutput, NamespaceScope, ClusterScope;
    OutputsComeFromSinks(reg, o, x);
    if x in o.sorted {
      var k :| k in reg.sinks && x in NamespacedOutput(reg.sinks[k]);
      OutputIsScoped(reg.sinks[k]);
      assert k in SyslogKeysOf(reg.sinks);
    }
    if x in o.clusterSorted {
      var k :| k in reg.clusterSinks && x in ClusterOutput(reg.clusterSinks[k]);
      OutputIsScoped(reg.clusterSinks[k]);
      assert k in SyslogKeysOf(reg.clusterSinks);
    }
  }

  /** The syslog sections: first those of namespaced sinks, then those of cluster sinks. */
  lemma SyslogSectionsAreScoped(reg: Registry, o: Orders, i: nat)
    requires OrdersOf(reg, o) && i < |SyslogSections(o)|
    ensures if i < |SyslogKeysOf(reg.sinks)| then ScopedToNamespace(reg, SyslogSections(o)[i]) else ScopedToCluster(reg, SyslogSections(o)[i])
  {
    hide Enumerates, Sorted, OutputSection, ScopedToNamespace, ScopedToCluster, SyslogKeysOf, NamespacedOutput, ClusterOutput;
    CountSyslog(reg.sinks, o.syslog);
    assert |o.sorted| == |multiset(o.sorted)|;
    SectionCount(o.sorted);
    SectionCount(o.clusterSorted);
    if i < |o.sorted| {
      SectionAt(o.sorted, i);
      SortedIsScoped(reg, o, o.sorted[i]);
    } else {
      SectionAt(o.clusterSorted, i - |o.sorted|);
      SortedIsScoped(reg, o, o.clusterSorted[i - |o.sorted|]);
    }
  }

  // The null configuration.

  /** Not the null configuration: empty, or a block whose `Name` value begins with another letter. */
  predicate Telling(text: string) {
    text == "" || (|text| > 19 && text[19] in {'s', 'h'})
  }

  lemma {:induction false} RangeTells<S>(text: S -> string, xs: seq<S>)
    requires forall x | x in xs :: Telling(text(x))
    ensures Telling(FlatMap(text, xs))
  {
    if xs != [] {
      RangeTells(text, xs[1..]);
    }
  }

  lemma NameTells(h: string, a: string, b: string, c: string, d: string, e: string)
    requires |h| == 10 && |a| > 9 && a[9] in {'s', 'h'}
    ensures Telling(h + a + b + c + d + e)
  {
  }

  lemma OutputsTell(outputs: seq<Output>)
    ensures Telling(FlatMap(OutputText, outputs))
  {
    hide ScopeText, TlsText;
    forall o | o in outputs ensures Telling(OutputText(o)) {
      NameTells("\n[OUTPUT]\n", "    Name syslog\n", "    Match *\n", "    InstanceName " + o.name + "\n", "    Addr " + o.addr + "\n",
                "    " + ScopeText(o) + TlsText(o.tls) + "\n");
    }
    RangeTells(OutputText, outputs);
  }

  lemma WebhookTells(url: UrlParser, isCluster: bool, s: LogSink)
    ensures Telling(WebhookText(url, isCluster)(s))
  {
    hide MatchOf, PortOf, PathOf, ExtrasText;
    if url(s.spec.url).Some? {
      var u := url(s.spec.url).value;
      var h := "\n[OUTPUT]\n" + "    Name http\n";
      assert |h| > 19 && h[19] == 'h';
      NameTells("\n[OUTPUT]\n", "    Name http\n", "    Match " + MatchOf(if isCluster then "" else s.meta.namespace, isCluster) + "\n",
                "    Format json\n", "    Host " + u.hostname + "\n", "    Port " + PortOf(u) + "\n");
    }
  }

  lemma WebhooksTell(url: UrlParser, isCluster: bool, sinks: seq<LogSink>)
    ensures Telling(FlatMap(WebhookText(url, isCluster), sinks))
  {
    hide WebhookText;
    forall s | s in sinks ensures Telling(WebhookText(url, isCluster)(s)) {
      WebhookTells(url, isCluster, s);
    }
    RangeTells(WebhookText(url, isCluster), sinks);
  }

  /** The null configuration is published exactly for an empty registry. */
  lemma NullExactlyWhenEmpty(url: UrlParser, reg: Registry, text: string, o: Orders)
    requires RendersWith(url, reg, text, o)
    ensures text == NULL_CONFIG <==> reg.sinks == map[] && reg.clusterSinks == map[]
  {
    hide OrdersOf, OutputText, WebhookText;
    if reg != EMPTY_REGISTRY {
      OutputsTell(o.sorted);
      OutputsTell(o.clusterSorted);
      WebhooksTell(url, false, ValuesOf(reg.sinks, o.webhook));
      WebhooksTell(url, true, ValuesOf(reg.clusterSinks, o.clusterWebhook));
      assert NULL_CONFIG[19] == 'n';
    }
  }
}
