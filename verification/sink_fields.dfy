/** The sections agents read, said in the fields of the sinks themselves. */
module SinkFields {
  import opened GoLang
  import opened Collections
  import FlbLexer
  import opened FlbParser
  import opened SinkOrder
  import opened SinkRendering
  import opened SinkRoundTrip
  import opened SinkLaws
  import opened SinkInterleaving

  // Syslog sinks.

  /** `addr` is the host, a colon and the port in decimal. */
  predicate IsAddress(addr: string, host: string, port: int) {
    host + ":" <= addr && StandsFor(addr[|host| + 1..], port)
  }

  /**
   The section of a syslog sink: its name, address and scope, and a TLS configuration if and only if TLS is enabled, an
   insecure one if and only if the sink skips verification.
   */
  predicate SyslogFields(s: LogSink, isCluster: bool, section: Section) {
    var pairs := section.keyValues;
    && section.name == "OUTPUT" && |pairs| == (if s.spec.enableTls then 6 else 5)
    && pairs[0] == KeyValue("Name", "syslog") && pairs[1] == KeyValue("Match", "*")
    && pairs[2] == KeyValue("InstanceName", s.meta.name)
    && pairs[3].key == "Addr" && IsAddress(pairs[3].value, s.spec.host, s.spec.port)
    && pairs[4] == (if isCluster then KeyValue("Cluster", "true")
                    else KeyValue("Namespace", if s.meta.namespace == "" then "default" else s.meta.namespace))
    && (s.spec.enableTls ==>
          pairs[5] == KeyValue("TLSConfig", if s.spec.insecureSkipVerify then "{\"insecure_skip_verify\":true}" else "{}"))
  }

  lemma AddressIsWritten(host: string, port: int)
    ensures IsAddress(host + ":" + FormatInt(port), host, port)
  {
    FormatIntStandsForIt(port);
    hide StandsFor, FormatInt;
    assert (host + ":" + FormatInt(port))[|host| + 1..] == FormatInt(port);
  }

  lemma SyslogHasFields(s: LogSink, isCluster: bool)
    requires s.spec.kind == "syslog"
    ensures SyslogFields(s, isCluster, OutputSection((if isCluster then ClusterOutput(s) else NamespacedOutput(s))[0]))
  {
    hide IsAddress, FormatInt;
    AddressIsWritten(s.spec.host, s.spec.port);
    var o := (if isCluster then ClusterOutput(s) else NamespacedOutput(s))[0];
    assert OutputSection(o).keyValues[5..] == TlsPairs(o.tls);
  }

  // Webhook sinks.

  /** The section of a webhook sink whose URL has the parts `u`. */
  predicate WebhookFields(s: LogSink, u: Url, isCluster: bool, section: Section) {
    var pairs := section.keyValues;
    && section.name == "OUTPUT"
    && |pairs| == (if u.scheme != "https" then 6 else if s.spec.insecureSkipVerify then 8 else 7)
    && pairs[0] == KeyValue("Name", "http")
    && pairs[1] == KeyValue("Match", if isCluster then "*" else "*_" + s.meta.namespace + "_*")
    && pairs[2] == KeyValue("Format", "json") && pairs[3] == KeyValue("Host", u.hostname)
    && pairs[4].key == "Port" && pairs[5] == KeyValue("URI", if u.path == "" then "/" else u.path)
    && (u.port != "" ==> pairs[4].value == u.port)
    && (u.port == "" && u.scheme == "https" ==> pairs[4].value == "443")
    && (u.port == "" && u.scheme == "http" ==> pairs[4].value == "80")
    && (u.port == "" && u.scheme !in {"https", "http"} ==> pairs[4].value == "")
    && (u.scheme == "https" ==> pairs[6] == KeyValue("tls", "On"))
    && (u.scheme == "https" && s.spec.insecureSkipVerify ==> pairs[7] == KeyValue("tls.verify", "Off"))
  }

  lemma WebhookHasFields(url: UrlParser, isCluster: bool, s: LogSink)
    requires s.spec.kind == "webhook" && url(s.spec.url).Some?
    ensures |WebhookSection(url, isCluster)(s)| == 1 && WebhookFields(s, url(s.spec.url).value, isCluster, WebhookSection(url, isCluster)(s)[0])
  {
    var u := url(s.spec.url).value;
    var section := WebhookSection(url, isCluster)(s)[0];
    assert section.keyValues[6..] == ExtraPairs(u, s.spec.insecureSkipVerify);
  }

  // A registry's sections.

  predicate FieldsOf(url: UrlParser, s: LogSink, isCluster: bool, section: Section) {
    || (s.spec.kind == "syslog" && SyslogFields(s, isCluster, section))
    || (s.spec.kind == "webhook" && url(s.spec.url).Some? && WebhookFields(s, url(s.spec.url).value, isCluster, section))
  }

  /** All sections are of such sinks of one map and one type, and all those have their section there. */
  ghost predicate AreSectionsOf(url: UrlParser, m: map<string, LogSink>, isCluster: bool, kind: string, sections: seq<Section>) {
    && (forall section | section in sections :: exists k :: k in m && m[k].spec.kind == kind && FieldsOf(url, m[k], isCluster, section))
    && (forall k | k in m && m[k].spec.kind == kind && (kind == "webhook" ==> url(m[k].spec.url).Some?) ::
          exists section :: section in sections && FieldsOf(url, m[k], isCluster, section))
  }

  /** `x` comes before `y` as a string of bytes: it is a proper prefix, or smaller where they first differ. */
  ghost predicate Before(x: string, y: string) {
    exists n :: 0 <= n <= |x| && n < |y| && x[..n] == y[..n] && (n == |x| || x[n] < y[n])
  }

  /** By namespace and then by name; of cluster sinks, which all have the same scope, by name. */
  ghost predicate InOrder(sections: seq<Section>) {
    forall i, j | 0 <= i < j < |sections| :: NotAfter(sections[i], sections[j])
  }

  ghost predicate NotAfter(x: Section, y: Section) {
    && |x.keyValues| > 4 && |y.keyValues| > 4
    && !Before(y.keyValues[4].value, x.keyValues[4].value)
    && (x.keyValues[4] == y.keyValues[4] ==> !Before(y.keyValues[2].value, x.keyValues[2].value))
  }

  lemma SortedIsInOrder(outputs: seq<Output>)
    requires Sorted(outputs)
    requires (forall o | o in outputs :: o.namespace != "") || (forall o | o in outputs :: o.namespace == "")
    ensures InOrder(FlatMap(SectionOf, outputs))
  {
    var sections := FlatMap(SectionOf, outputs);
    SectionCount(outputs);
    hide OutputSection, StringLess, Sorted, NotAfter;
    forall i, j | 0 <= i < j < |sections| ensures NotAfter(sections[i], sections[j]) {
      SectionAt(outputs, i);
      SectionAt(outputs, j);
      NotLessIsNotAfter(outputs[i], outputs[j]) by {
        SortedAt(outputs, i, j);
      }
    }
  }

  lemma SortedAt(outputs: seq<Output>, i: nat, j: nat)
    requires Sorted(outputs) && i < j < |outputs|
    ensures !Less(outputs[j], outputs[i])
  {
  }

  lemma NotLessIsNotAfter(x: Output, y: Output)
    requires !Less(y, x) && (x.namespace == "" <==> y.namespace == "")
    ensures NotAfter(OutputSection(x), OutputSection(y))
  {
    StringLessExactly(y.namespace, x.namespace);
    StringLessExactly(y.name, x.name);
    StringLessExactly("true", "true");
    StringLessTotal(x.namespace, y.namespace);
    StringLessAsymmetricOrNot("true");
    hide StringLess, TlsPairs;
    var a, b := OutputSection(x).keyValues, OutputSection(y).keyValues;
    assert a[4] == ScopePair(x) && b[4] == ScopePair(y) && a[2].value == x.name && b[2].value == y.name;
  }

  lemma StringLessAsymmetricOrNot(a: string)
    ensures !StringLess(a, a)
  {
    if StringLess(a, a) {
      StringLessAsymmetric(a, a);
    }
  }

  /** The sections read are, in this order, those of namespaced and of cluster syslog sinks, and of namespaced and of cluster webhook sinks. */
  ghost predicate InGroups(url: UrlParser, reg: Registry, a: seq<Section>, b: seq<Section>, c: seq<Section>, d: seq<Section>) {
    && AreSectionsOf(url, reg.sinks, false, "syslog", a) && AreSectionsOf(url, reg.clusterSinks, true, "syslog", b)
    && AreSectionsOf(url, reg.sinks, false, "webhook", c) && AreSectionsOf(url, reg.clusterSinks, true, "webhook", d)
    && |a| == |SyslogKeysOf(reg.sinks)| && |b| == |SyslogKeysOf(reg.clusterSinks)|
    && |c| == |WebhookKeysOf(url, reg.sinks)| && |d| == |WebhookKeysOf(url, reg.clusterSinks)|
    && InOrder(a) && InOrder(b)
  }

  lemma SyslogSectionsOf(url: UrlParser, reg: Registry, o: Orders)
    requires OrdersOf(reg, o)
    ensures AreSectionsOf(url, reg.sinks, false, "syslog", FlatMap(SectionOf, o.sorted))
    ensures AreSectionsOf(url, reg.clusterSinks, true, "syslog", FlatMap(SectionOf, o.clusterSorted))
  {
    hide OrdersOf, OutputSection, SyslogOutput, SyslogFields, WebhookFields;
    forall x ensures x in o.sorted <==> exists k :: k in reg.sinks && x in NamespacedOutput(reg.sinks[k]) {
      OutputsComeFromSinks(reg, o, x);
    }
    forall x ensures x in o.clusterSorted <==> exists k :: k in reg.clusterSinks && x in ClusterOutput(reg.clusterSinks[k]) {
      OutputsComeFromSinks(reg, o, x);
    }
    SortedSectionsOf(url, reg.sinks, false, o.sorted);
    SortedSectionsOf(url, reg.clusterSinks, true, o.clusterSorted);
  }

  function OutputOf(isCluster: bool): LogSink -> seq<Output> {
    (s: LogSink) => if isCluster then ClusterOutput(s) else NamespacedOutput(s)
  }

  lemma SortedSectionsOf(url: UrlParser, m: map<string, LogSink>, isCluster: bool, sorted: seq<Output>)
    requires forall x :: x in sorted <==> exists k :: k in m && x in OutputOf(isCluster)(m[k])
    ensures AreSectionsOf(url, m, isCluster, "syslog", FlatMap(SectionOf, sorted))
  {
    hide OutputSection, SyslogOutput, SyslogFields, WebhookFields;
    var sections := FlatMap(SectionOf, sorted);
    forall section | section in sections
      ensures exists k :: k in m && m[k].spec.kind == "syslog" && FieldsOf(url, m[k], isCluster, section)
    {
      FlatMapMember(SectionOf, sorted, section);
      var x :| x in sorted && section in SectionOf(x);
      var k :| k in m && x in OutputOf(isCluster)(m[k]);
      SyslogHasFields(m[k], isCluster);
    }
    forall k | k in m && m[k].spec.kind == "syslog"
      ensures exists section :: section in sections && FieldsOf(url, m[k], isCluster, section)
    {
      var x := OutputOf(isCluster)(m[k])[0];
      SyslogHasFields(m[k], isCluster);
      assert x in sorted && OutputSection(x) in SectionOf(x);
      FlatMapMember(SectionOf, sorted, OutputSection(x));
    }
  }

  lemma WebhookSectionsOf(url: UrlParser, isCluster: bool, m: map<string, LogSink>, keys: seq<string>)
    requires Enumerates(keys, m)
    ensures AreSectionsOf(url, m, isCluster, "webhook", FlatMap(WebhookSection(url, isCluster), ValuesOf(m, keys)))
  {
    hide Enumerates, WebhookFields, SyslogFields;
    var f := WebhookSection(url, isCluster);
    var sections := FlatMap(f, ValuesOf(m, keys));
    forall section | section in sections
      ensures exists k :: k in m && m[k].spec.kind == "webhook" && FieldsOf(url, m[k], isCluster, section)
    {
      RangeMember(m, keys, f, section);
      var k :| k in m && section in f(m[k]);
      WebhookHasFields(url, isCluster, m[k]);
    }
    forall k | k in m && m[k].spec.kind == "webhook" && url(m[k].spec.url).Some?
      ensures exists section :: section in sections && FieldsOf(url, m[k], isCluster, section)
    {
      WebhookHasFields(url, isCluster, m[k]);
      RangeMember(m, keys, f, f(m[k])[0]);
    }
  }

  lemma GroupSizes(url: UrlParser, reg: Registry, o: Orders)
    requires OrdersOf(reg, o)
    ensures |FlatMap(SectionOf, o.sorted)| == |SyslogKeysOf(reg.sinks)|
    ensures |FlatMap(SectionOf, o.clusterSorted)| == |SyslogKeysOf(reg.clusterSinks)|
    ensures |FlatMap(WebhookSection(url, false), ValuesOf(reg.sinks, o.webhook))| == |WebhookKeysOf(url, reg.sinks)|
    ensures |FlatMap(WebhookSection(url, true), ValuesOf(reg.clusterSinks, o.clusterWebhook))| == |WebhookKeysOf(url, reg.clusterSinks)|
  {
    hide Enumerates, NamespacedOutput, ClusterOutput, WebhookSection, SyslogKeysOf, WebhookKeysOf, Sorted;
    CountSyslog(reg.sinks, o.syslog);
    CountSyslog(reg.clusterSinks, o.clusterSyslog);
    CountWebhook(url, false, reg.sinks, o.webhook);
    CountWebhook(url, true, reg.clusterSinks, o.clusterWebhook);
    assert |o.sorted| == |multiset(o.sorted)| && |o.clusterSorted| == |multiset(o.clusterSorted)|;
    SectionCount(o.sorted);
    SectionCount(o.clusterSorted);
  }

  lemma SyslogSectionsInOrder(reg: Registry, o: Orders)
    requires OrdersOf(reg, o)
    ensures InOrder(FlatMap(SectionOf, o.sorted)) && InOrder(FlatMap(SectionOf, o.clusterSorted))
  {
    hide Sorted, InOrder, SectionOf, Enumerates;
    forall x ensures (x in o.sorted ==> x.namespace != "") && (x in o.clusterSorted ==> x.namespace == "") {
      OutputsComeFromSinks(reg, o, x);
    }
    SortedIsInOrder(o.sorted);
    SortedIsInOrder(o.clusterSorted);
  }

  lemma GroupsExist(url: UrlParser, reg: Registry, o: Orders)
    returns (a: seq<Section>, b: seq<Section>, c: seq<Section>, d: seq<Section>)
    requires OrdersOf(reg, o) && reg != EMPTY_REGISTRY
    ensures InGroups(url, reg, a, b, c, d) && ExpectedSections(url, reg, o) == (a + b) + (c + d)
  {
    SyslogSectionsOf(url, reg, o);
    SyslogSectionsInOrder(reg, o);
    GroupSizes(url, reg, o);
    WebhookSectionsOf(url, false, reg.sinks, o.webhook);
    WebhookSectionsOf(url, true, reg.clusterSinks, o.clusterWebhook);
    hide AreSectionsOf, InOrder, SectionOf, WebhookSection, SyslogKeysOf, WebhookKeysOf, OrdersOf;
    a, b := FlatMap(SectionOf, o.sorted), FlatMap(SectionOf, o.clusterSorted);
    c := FlatMap(WebhookSection(url, false), ValuesOf(reg.sinks, o.webhook));
    d := FlatMap(WebhookSection(url, true), ValuesOf(reg.clusterSinks, o.clusterWebhook));
  }

  /** What the agents read of a renderable registry, sink by sink. */
  lemma AgentsReadFields(names: FlbLexer.NameRunes, url: UrlParser, reg: Registry, text: string, o: Orders)
    returns (a: seq<Section>, b: seq<Section>, c: seq<Section>, d: seq<Section>)
    requires RendersWith(url, reg, text, o) && Renderable(url, reg) && reg != EMPTY_REGISTRY
    ensures Parsed(names, "", text) == Ok(File("", [Section("", [])] + a + b + c + d)) && InGroups(url, reg, a, b, c, d)
  {
    hide Parsed, Renderable, InGroups, ExpectedSections, OrdersOf, RendersWith;
    ParseRecoversRegistry(names, url, reg, text, o);
    RenderingHasOrders(url, reg, text, o);
    a, b, c, d := GroupsExist(url, reg, o);
    assert [UNNAMED] + ((a + b) + (c + d)) == [Section("", [])] + a + b + c + d;
  }

  /** And of an empty one. */
  lemma AgentsReadNull(names: FlbLexer.NameRunes, url: UrlParser, text: string)
    requires Renders(url, EMPTY_REGISTRY, text)
    ensures Parsed(names, "", text) == Ok(File("", [Section("", []), Section("OUTPUT", [KeyValue("Name", "null"), KeyValue("Match", "*")])]))
  {
    hide Parsed, RendersWith;
    var o :| RendersWith(url, EMPTY_REGISTRY, text, o);
    ParseRecoversRegistry(names, url, EMPTY_REGISTRY, text, o);
    assert [UNNAMED] + [NullSection()] == [Section("", []), NullSection()];
  }
}
