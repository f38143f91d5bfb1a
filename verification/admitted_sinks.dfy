/** What the agents are told of admitted log sinks. */
module AdmittedSinks {
  import opened GoLang
  import opened Collections
  import FlbLexer
  import opened FlbLanguage
  import opened FlbParser
  import opened FlbParserLaws
  import opened SinkOrder
  import opened SinkRendering
  import opened SinkRoundTrip
  import opened SinkLaws
  import opened SinkControllers
  import opened SinkInterleaving
  import opened SinkStaleness
  import opened Admission

  ghost predicate AllSecure(reg: Registry) {
    && (forall k | k in reg.sinks :: Secure(reg.sinks[k].spec))
    && (forall k | k in reg.clusterSinks :: Secure(reg.clusterSinks[k].spec))
  }

  /** A URL text that begins with https:// parses, if at all, to one with that scheme. */
  ghost predicate KeepsScheme(url: UrlParser) {
    forall text | HTTPS <= text && url(text).Some? :: url(text).value.scheme == "https"
  }

  /** The section has a TLS configuration and an address that ends in a port from 1 to 65535. */
  predicate SecureSyslog(section: Section) {
    && |section.keyValues| > 5 && section.keyValues[5].key == "TLSConfig"
    && section.keyValues[3].key == "Addr" && HasPort(section.keyValues[3].value)
  }

  predicate HasPort(addr: string) {
    exists i | 0 < i < |addr| ::
      addr[i] == ':' && IsDigits(addr[i + 1..]) && 1 <= ParseDecimal(addr[i + 1..]) <= 65535
  }

  /** The section turns TLS on and has a port. */
  predicate SecureWebhook(section: Section) {
    && |section.keyValues| > 6 && section.keyValues[6] == KeyValue("tls", "On")
    && section.keyValues[4].key == "Port" && section.keyValues[4].value != ""
  }

  lemma AddrHasPort(host: string, port: int)
    requires host != "" && 1 <= port <= 65535
    ensures HasPort(host + ":" + FormatInt(port))
  {
    var addr, n := host + ":" + FormatInt(port), |host|;
    DecimalRoundTrip(port);
    hide Decimal, ParseDecimal, IsDigits;
    assert addr[n] == ':' && addr[n + 1..] == Decimal(port);
  }

  lemma SecureOutput(s: LogSink, namespace: string)
    requires s.spec.kind == "syslog" && Secure(s.spec)
    ensures SecureSyslog(OutputSection(SyslogOutput(s, namespace)))
  {
    hide HasPort, Decimal;
    var o := SyslogOutput(s, namespace);
    AddrHasPort(s.spec.host, s.spec.port);
    assert OutputSection(o).keyValues[5] == TlsPairs(o.tls)[0];
  }

  lemma SecureHttp(url: UrlParser, isCluster: bool, s: LogSink, section: Section)
    requires KeepsScheme(url) && Secure(s.spec) && section in WebhookSection(url, isCluster)(s)
    ensures SecureWebhook(section)
  {
    hide MatchOf, PathOf;
    var u := url(s.spec.url).value;
    assert u.scheme == "https";
    var namespace := if isCluster then "" else s.meta.namespace;
    assert HttpSection(namespace, u, s.spec.insecureSkipVerify, isCluster).keyValues[6] == ExtraPairs(u, s.spec.insecureSkipVerify)[0];
  }

  /** Of a registry of admitted sinks every section is encrypted. */
  lemma EverySectionIsSecure(url: UrlParser, reg: Registry, o: Orders, section: Section)
    requires OrdersOf(reg, o) && AllSecure(reg) && KeepsScheme(url) && reg != EMPTY_REGISTRY
    requires section in ExpectedSections(url, reg, o)
    ensures SecureSyslog(section) || SecureWebhook(section)
  {
    hide SecureSyslog, SecureWebhook, OutputSection, WebhookSection, Secure, KeepsScheme, Enumerates, SortOf;
    var f, g := WebhookSection(url, false), WebhookSection(url, true);
    if section in FlatMap(SectionOf, o.sorted) + FlatMap(SectionOf, o.clusterSorted) {
      SyslogSectionIsSecure(reg, o, section);
    } else if section in FlatMap(f, ValuesOf(reg.sinks, o.webhook)) {
      RangeMember(reg.sinks, o.webhook, f, section);
      var k :| k in reg.sinks && section in f(reg.sinks[k]);
      SecureHttp(url, false, reg.sinks[k], section);
    } else {
      RangeMember(reg.clusterSinks, o.clusterWebhook, g, section);
      var k :| k in reg.clusterSinks && section in g(reg.clusterSinks[k]);
      SecureHttp(url, true, reg.clusterSinks[k], section);
    }
  }

  lemma SyslogSectionIsSecure(reg: Registry, o: Orders, section: Section)
    requires OrdersOf(reg, o) && AllSecure(reg) && section in SyslogSections(o)
    ensures SecureSyslog(section)
  {
    hide SecureSyslog, OutputSection, Secure, OrdersOf, SyslogOutput;
    FlatMapMember(SectionOf, o.sorted, section);
    FlatMapMember(SectionOf, o.clusterSorted, section);
    if section in FlatMap(SectionOf, o.sorted) {
      var x :| x in o.sorted && section in SectionOf(x);
      OutputsComeFromSinks(reg, o, x);
      var k :| k in reg.sinks && x in NamespacedOutput(reg.sinks[k]);
      SecureOutput(reg.sinks[k], CanonicalNamespace(reg.sinks[k].meta.namespace));
    } else {
      var x :| x in o.clusterSorted && section in SectionOf(x);
      OutputsComeFromSinks(reg, o, x);
      var k :| k in reg.clusterSinks && x in ClusterOutput(reg.clusterSinks[k]);
      SecureOutput(reg.clusterSinks[k], "");
    }
  }

  // Registries of admitted sinks.

  /** Some accepted request created the sink or updated it to this. */
  ghost predicate Admitted(sink: LogSink) {
    exists r: Review :: r.newObject == Some(sink) && ValidateLogSink(r) == Allowed
  }

  /** All that the informer adds or updates to was admitted. */
  ghost predicate AdmittedStream(events: seq<Event>) {
    forall e | e in events && !e.Deleted? :: Admitted(if e.Updated? then e.after else e.sink)
  }

  lemma AdmittedIsSecure(sink: LogSink)
    requires Admitted(sink)
    ensures Secure(sink.spec)
  {
    var r: Review :| r.newObject == Some(sink) && ValidateLogSink(r) == Allowed;
    AdmitsExactly(r);
  }

  lemma {:induction false} AdmittedStreamIsSecure(who: Informer, events: seq<Event>)
    requires AdmittedStream(events)
    ensures forall k | k in AfterEvents(who, map[], events) :: Secure(AfterEvents(who, map[], events)[k].spec)
    decreases |events|
  {
    if events != [] {
      var last := |events| - 1;
      AdmittedStreamIsSecure(who, events[..last]);
      var e := events[last];
      assert e in events;
      if !e.Deleted? {
        AdmittedIsSecure(if e.Updated? then e.after else e.sink);
      }
      hide Secure, KeyOf, Admitted;
    }
  }

  lemma AdmittedStreamsAreSecure(events: seq<Event>, clusterEvents: seq<Event>, reg: Registry)
    requires AdmittedStream(events) && AdmittedStream(clusterEvents)
    requires reg == Registry(AfterEvents(Namespaced, map[], events), AfterEvents(Cluster, map[], clusterEvents))
    ensures AllSecure(reg)
  {
    AdmittedStreamIsSecure(Namespaced, events);
    AdmittedStreamIsSecure(Cluster, clusterEvents);
    hide AfterEvents, Secure;
  }

  /** The agents read the sinks' own sections, and all of them are encrypted. */
  ghost predicate ReadsSecurely(names: FlbLexer.NameRunes, url: UrlParser, reg: Registry, text: string, o: Orders) {
    && Parsed(names, "", text) == Ok(File("", [UNNAMED] + ExpectedSections(url, reg, o)))
    && forall section | section in ExpectedSections(url, reg, o) :: SecureSyslog(section) || SecureWebhook(section)
  }

  lemma SecureSinksReadExactly(names: FlbLexer.NameRunes, url: UrlParser, reg: Registry, text: string, o: Orders)
    requires RendersWith(url, reg, text, o) && reg != EMPTY_REGISTRY && AllSecure(reg) && KeepsScheme(url)
    ensures ReadsSecurely(names, url, reg, text, o) <==> Renderable(url, reg)
  {
    ParseRecoversRegistry(names, url, reg, text, o);
    hide Parsed, ExpectedSections, Renderable, OrdersOf, SecureSyslog, SecureWebhook, AllSecure, KeepsScheme;
    forall section | section in ExpectedSections(url, reg, o) ensures SecureSyslog(section) || SecureWebhook(section) {
      EverySectionIsSecure(url, reg, o, section);
    }
  }

  /**
   After any two streams of admitted sinks that leave some sink: what the agents read from a rendering is the sinks' own
   sections, all encrypted, if and only if every rendered field is free of newlines and leading blanks. Admission alone
   does not give that.
   */
  lemma AgentsReadSecureSectionsExactly(names: FlbLexer.NameRunes, url: UrlParser, events: seq<Event>, clusterEvents: seq<Event>,
                                        reg: Registry, text: string, o: Orders)
    requires AdmittedStream(events) && AdmittedStream(clusterEvents) && KeepsScheme(url)
    requires reg == Registry(AfterEvents(Namespaced, map[], events), AfterEvents(Cluster, map[], clusterEvents))
    requires RendersWith(url, reg, text, o) && reg != EMPTY_REGISTRY
    ensures ReadsSecurely(names, url, reg, text, o) <==> Renderable(url, reg)
  {
    hide AfterEvents, Secure, RendersWith, Renderable, ReadsSecurely, KeepsScheme, AllSecure, AdmittedStream;
    AdmittedStreamsAreSecure(events, clusterEvents, reg);
    SecureSinksReadExactly(names, url, reg, text, o);
  }

  // An admitted sink that cannot be rendered.

  const SPLIT_HOST := "h\n" + "\n[OUTPUT]\n" + "    Name null\n" + "    Match x"
  const SPLIT_SINK := LogSink(ObjectMeta("a", "ns", "", ""), SinkSpec("syslog", SPLIT_HOST, 514, true, "", false))
  const SPLIT_REGISTRY := Registry(map[SinkRendering.Key(SPLIT_SINK) := SPLIT_SINK], map[])

  const FIRST_PAIRS := [KeyValue("Name", "syslog"), KeyValue("Match", "*"), KeyValue("InstanceName", "a"), KeyValue("Addr", "h")]

  function SecondPairs(): seq<KeyValue> {
    [KeyValue("Name", "null"), KeyValue("Match", "x" + (":" + FormatInt(514))), KeyValue("Namespace", "ns"), KeyValue("TLSConfig", "{}")]
  }

  lemma SplitSinkIsAdmitted()
    ensures Admitted(SPLIT_SINK) && AllSecure(SPLIT_REGISTRY)
  {
    assert ValidateLogSink(Review("CREATE", Some(SPLIT_SINK), None)) == Allowed;
    assert Review("CREATE", Some(SPLIT_SINK), None).newObject == Some(SPLIT_SINK);
  }

  /** The only section that registry expects. */
  lemma SplitRegistryExpects(url: UrlParser, o: Orders)
    requires OrdersOf(SPLIT_REGISTRY, o)
    ensures ExpectedSections(url, SPLIT_REGISTRY, o) == [OutputSection(SyslogOutput(SPLIT_SINK, "ns"))]
  {
    hide OrdersOf, ExpectedSections, OutputSection, SyslogOutput;
    var k := SinkRendering.Key(SPLIT_SINK);
    assert k in SPLIT_REGISTRY.sinks;
    SectionsAreConserved(url, SPLIT_REGISTRY, o);
    assert SyslogKeysOf(SPLIT_REGISTRY.sinks) == {k} && SyslogKeysOf(SPLIT_REGISTRY.clusterSinks) == {};
    assert WebhookKeysOf(url, SPLIT_REGISTRY.sinks) == {} && WebhookKeysOf(url, SPLIT_REGISTRY.clusterSinks) == {};
    SinksAreExpected(url, SPLIT_REGISTRY, o, k, UNNAMED);
  }

  /** Its text is that of two blocks. */
  lemma SplitTextIsTwoBlocks()
    ensures SectionText(OutputSection(SyslogOutput(SPLIT_SINK, "ns"))) == BlockText(FIRST_PAIRS) + BlockText(SecondPairs())
  {
    hide FormatInt, PrintPairs;
    var o := SyslogOutput(SPLIT_SINK, "ns");
    var port := ":" + FormatInt(514);
    var front, back := FIRST_PAIRS[..3], SecondPairs()[2..];
    var host, first, name, other := KeyValue("Addr", SPLIT_HOST + port), KeyValue("Addr", "h"), KeyValue("Name", "null"), KeyValue("Match", "x" + port);
    assert SPLIT_HOST + ":" + FormatInt(514) == SPLIT_HOST + port;
    assert OutputSection(o).keyValues == front + ([host] + back);
    assert FIRST_PAIRS == front + [first] && SecondPairs() == [name, other] + back;
    PrintAppend(front, [host] + back);
    PrintAppend([host], back);
    PrintAppend(front, [first]);
    PrintAppend([name, other], back);
    PrintOne(host);
    PrintOne(first);
    PrintTwo(name, other);
    SplitLine(port);
  }

  lemma SplitLine(port: string)
    ensures Line(KeyValue("Addr", SPLIT_HOST + port))
         == Line(KeyValue("Addr", "h")) + ("\n[" + OUTPUT_NAME + "]\n" + (Line(KeyValue("Name", "null")) + Line(KeyValue("Match", "x" + port))))
  {
    assert "h\n" == "h" + "\n" && "    Name null\n" == Line(KeyValue("Name", "null"));
    assert "    Match x" == INDENT + "Match" + " " + "x" && "\n[OUTPUT]\n" == "\n[" + OUTPUT_NAME + "]\n";
    SplitRegroups(INDENT + "Addr" + " ", "h", "\n", "\n[OUTPUT]\n", "    Name null\n", INDENT + "Match" + " ", "x", port);
  }

  lemma SplitRegroups(addr: string, h: string, end: string, header: string, name: string, other: string, x: string, port: string)
    ensures addr + ((h + end) + header + name + (other + x) + port) + end == addr + h + end + (header + (name + (other + (x + port) + end)))
  {
  }

  lemma BothBlocksPrintable(names: FlbLexer.NameRunes)
    ensures PrintablePairs(names, FIRST_PAIRS) && PrintablePairs(names, SecondPairs())
  {
    hide IsKey, IsWord, IsValue, PrintablePairs, FormatInt;
    SyslogKeys();
    WordIsKey(names, "Name"); WordIsKey(names, "Match"); WordIsKey(names, "InstanceName"); WordIsKey(names, "Addr");
    WordIsKey(names, "Namespace"); WordIsKey(names, "TLSConfig");
    PlainValues();
    SplitValues();
    var a, b := FIRST_PAIRS[..2], FIRST_PAIRS[2..];
    PrintableTwo(names, FIRST_PAIRS[0], FIRST_PAIRS[1]);
    PrintableTwo(names, FIRST_PAIRS[2], FIRST_PAIRS[3]);
    assert a == [FIRST_PAIRS[0], FIRST_PAIRS[1]] && b == [FIRST_PAIRS[2], FIRST_PAIRS[3]] && FIRST_PAIRS == a + b;
    PrintableAppend(names, a, b);
    var second := SecondPairs();
    var c, d := second[..2], second[2..];
    PrintableTwo(names, second[0], second[1]);
    PrintableTwo(names, second[2], second[3]);
    assert c == [second[0], second[1]] && d == [second[2], second[3]] && second == c + d;
    PrintableAppend(names, c, d);
  }

  lemma SplitValues()
    ensures IsValue("a") && IsValue("h") && IsValue("ns") && IsValue("{}") && IsValue("x" + (":" + FormatInt(514)))
  {
    AddrIsValue("x", 514);
    assert "x" + ":" + FormatInt(514) == "x" + (":" + FormatInt(514));
  }

  /**
   Without the condition the claim fails: a sink that is admitted, because only an empty host is refused, whose every
   rendering reads back as two outputs, the first of them without any TLS configuration.
   */
  lemma AdmittedHostCanSplitSection(names: FlbLexer.NameRunes, url: UrlParser, text: string, o: Orders)
    requires RendersWith(url, SPLIT_REGISTRY, text, o)
    ensures Admitted(SPLIT_SINK) && AllSecure(SPLIT_REGISTRY) && !Renderable(url, SPLIT_REGISTRY)
    ensures Parsed(names, "", text) == Ok(File("", [UNNAMED, Section(OUTPUT_NAME, FIRST_PAIRS), Section(OUTPUT_NAME, SecondPairs())]))
    ensures !SecureSyslog(Section(OUTPUT_NAME, FIRST_PAIRS)) && !SecureWebhook(Section(OUTPUT_NAME, FIRST_PAIRS))
  {
    hide RendersWith, Renderable, Parsed, SecondPairs, BlockText, Admitted, AllSecure, Reads;
    SplitSinkIsAdmitted();
    SplitIsUnrenderable(url);
    SplitTextIs(url, text, o);
    TwoBlocksRead(names);
  }

  lemma SplitTextIs(url: UrlParser, text: string, o: Orders)
    requires RendersWith(url, SPLIT_REGISTRY, text, o)
    ensures text == BlockText(FIRST_PAIRS) + BlockText(SecondPairs())
  {
    hide RendersWith, OrdersOf, ExpectedSections, SectionText, BlockText, SecondPairs, OutputSection, SyslogOutput;
    RenderingHasOrders(url, SPLIT_REGISTRY, text, o);
    SectionsDetermineText(url, SPLIT_REGISTRY, text, o);
    SplitRegistryExpects(url, o);
    TextOfOne(OutputSection(SyslogOutput(SPLIT_SINK, "ns")));
    SplitTextIsTwoBlocks();
  }

  lemma TwoBlocksRead(names: FlbLexer.NameRunes)
    ensures Parsed(names, "", BlockText(FIRST_PAIRS) + BlockText(SecondPairs()))
         == Ok(File("", [UNNAMED, Section(OUTPUT_NAME, FIRST_PAIRS), Section(OUTPUT_NAME, SecondPairs())]))
  {
    hide Parsed, SecondPairs, BlockText, PrintablePairs;
    BothBlocksPrintable(names);
    ReadsBlock(names, FIRST_PAIRS);
    ReadsBlock(names, SecondPairs());
    var first, second := [Section(OUTPUT_NAME, FIRST_PAIRS)], [Section(OUTPUT_NAME, SecondPairs())];
    ReadsConcat(names, BlockText(FIRST_PAIRS), first, BlockText(SecondPairs()), second);
    assert [UNNAMED] + (first + second) == [UNNAMED, first[0], second[0]];
  }

  lemma SplitIsUnrenderable(url: UrlParser)
    ensures !Renderable(url, SPLIT_REGISTRY)
  {
    assert SPLIT_HOST[1] == '\n';
    assert !RenderableSyslog(SPLIT_SINK, "ns");
    assert SinkRendering.Key(SPLIT_SINK) in SPLIT_REGISTRY.sinks && !RenderableSink(url, false, SPLIT_SINK);
  }
}
