/** Parsing what a registry renders to recovers one section per rendered sink. */
module SinkRoundTrip {
  import opened GoLang
  import opened Collections
  import opened Utf8
  import opened FlbLexer
  import opened FlbLanguage
  import opened FlbParser
  import opened FlbParserLaws
  import opened SinkOrder
  import opened SinkRendering

  // The sections a registry should be read back as.

  const OUTPUT_NAME := "OUTPUT"

  function NullSection(): Section {
    Section(OUTPUT_NAME, [KeyValue("Name", "null"), KeyValue("Match", "*")])
  }

  function ScopePair(o: Output): KeyValue {
    if o.namespace != "" then KeyValue("Namespace", o.namespace) else KeyValue("Cluster", "true")
  }

  function TlsPairs(tls: Option<bool>): seq<KeyValue> {
    match tls
    case None => []
    case Some(skip) => [KeyValue("TLSConfig", TlsJson(skip))]
  }

  function OutputSection(o: Output): Section {
    Section(OUTPUT_NAME,
            [KeyValue("Name", "syslog"), KeyValue("Match", "*"), KeyValue("InstanceName", o.name), KeyValue("Addr", o.addr), ScopePair(o)]
            + TlsPairs(o.tls))
  }

  function ExtraPairs(u: Url, skip: bool): seq<KeyValue> {
    if u.scheme != "https" then []
    else if skip then [KeyValue("tls", "On"), KeyValue("tls.verify", "Off")]
    else [KeyValue("tls", "On")]
  }

  function HttpSection(namespace: string, u: Url, skip: bool, isCluster: bool): Section {
    Section(OUTPUT_NAME,
            [KeyValue("Name", "http"), KeyValue("Match", MatchOf(namespace, isCluster)), KeyValue("Format", "json"),
             KeyValue("Host", u.hostname), KeyValue("Port", PortOf(u)), KeyValue("URI", PathOf(u))]
            + ExtraPairs(u, skip))
  }

  /** A webhook sink's section: none for other types and for a URL that does not parse. */
  function WebhookSection(url: UrlParser, isCluster: bool): LogSink -> seq<Section> {
    (s: LogSink) =>
      if s.spec.kind == "webhook" && url(s.spec.url).Some? then
        [HttpSection(if isCluster then "" else s.meta.namespace, url(s.spec.url).value, s.spec.insecureSkipVerify, isCluster)]
      else []
  }

  function SectionOf(o: Output): seq<Section> {
    [OutputSection(o)]
  }

  function SyslogSections(o: Orders): seq<Section> {
    FlatMap(SectionOf, o.sorted) + FlatMap(SectionOf, o.clusterSorted)
  }

  function WebhookSections(url: UrlParser, reg: Registry, o: Orders): seq<Section> {
    FlatMap(WebhookSection(url, false), ValuesOf(reg.sinks, o.webhook))
    + FlatMap(WebhookSection(url, true), ValuesOf(reg.clusterSinks, o.clusterWebhook))
  }

  /** The sections behind the leading unnamed one. */
  function ExpectedSections(url: UrlParser, reg: Registry, o: Orders): seq<Section> {
    if reg == EMPTY_REGISTRY then [NullSection()] else SyslogSections(o) + WebhookSections(url, reg, o)
  }

  // Reading a text back.

  predicate Reads(names: NameRunes, text: string, sections: seq<Section>) {
    Parsed(names, "", text) == Ok(File("", [UNNAMED] + sections))
  }

  lemma ReadsConcat(names: NameRunes, a: string, sa: seq<Section>, b: string, sb: seq<Section>)
    requires Reads(names, a, sa) && Reads(names, b, sb)
    ensures Reads(names, a + b, sa + sb)
  {
    hide Parsed;
    ParseConcatenates(names, "", a, b);
    var last := ([UNNAMED] + sa)[|sa|];
    assert last.keyValues + [] == last.keyValues;
    assert [UNNAMED] + sa == ([UNNAMED] + sa)[..|sa|] + [last];
    assert Join([UNNAMED] + sa, [UNNAMED] + sb) == [UNNAMED] + (sa + sb);
  }

  lemma ReadsNothing(names: NameRunes)
    ensures Reads(names, "", []) && Reads(names, "\n", [])
  {
    EndParses(names, UNNAMED);
    assert "\n" == "\n" + "";
    LexNewLineCase(names, "");
    LineRead(UNNAMED, Lex(names, "\n"));
    assert ([LINE_TOKEN] + Lex(names, ""))[1..] == Lex(names, "");
    assert [UNNAMED] + [] == [UNNAMED];
  }

  /** Concatenated texts read back as the concatenated sections. */
  lemma {:induction false} ReadsRange<S>(names: NameRunes, text: S -> string, sections: S -> seq<Section>, xs: seq<S>)
    requires forall x | x in xs :: Reads(names, text(x), sections(x))
    ensures Reads(names, FlatMap(text, xs), FlatMap(sections, xs))
  {
    hide Reads;
    if xs == [] {
      ReadsNothing(names);
    } else {
      ReadsRange(names, text, sections, xs[1..]);
      ReadsConcat(names, text(xs[0]), sections(xs[0]), FlatMap(text, xs[1..]), FlatMap(sections, xs[1..]));
    }
  }

  lemma {:induction false} AsciiSpan(runes: set<int>, v: string)
    requires forall i | 0 <= i < |v| :: IsAscii(v[i]) && v[i] as int in runes
    ensures SpanOf(runes, v) == |v|
  {
    if v != "" {
      AsciiDecodesToItself(v);
      AsciiSpan(runes, v[1..]);
    }
  }

  const INDENT := "    "

  /** One output block: a header line and indented pairs. */
  function BlockText(pairs: seq<KeyValue>): string {
    "\n[" + OUTPUT_NAME + "]\n" + PrintPairs(INDENT, pairs)
  }

  lemma ReadsBlock(names: NameRunes, pairs: seq<KeyValue>)
    requires PrintablePairs(names, pairs)
    ensures Reads(names, BlockText(pairs), [Section(OUTPUT_NAME, pairs)])
  {
    hide Lex, SpanOf;
    AsciiSpan(names, OUTPUT_NAME);
    var body := PrintPairs(INDENT, pairs);
    assert BlockText(pairs) == "\n" + ("[" + OUTPUT_NAME + "]\n" + body);
    LexNewLineCase(names, "[" + OUTPUT_NAME + "]\n" + body);
    HeaderParses(names, UNNAMED, OUTPUT_NAME, body);
    assert body == body + "";
    PairsParse(names, INDENT, Section(OUTPUT_NAME, []), pairs, "");
    assert [] + pairs == pairs;
    EndParses(names, Section(OUTPUT_NAME, pairs));
    LineRead(UNNAMED, Lex(names, BlockText(pairs)));
    assert ([LINE_TOKEN] + Lex(names, "[" + OUTPUT_NAME + "]\n" + body))[1..] == Lex(names, "[" + OUTPUT_NAME + "]\n" + body);
  }

  lemma EndParses(names: NameRunes, current: Section)
    ensures Sections(current, Lex(names, "")) == Ok([current])
  {
  }

  // The templates are blocks.

  predicate IsWord(v: string) {
    v != "" && forall i | 0 <= i < |v| :: '0' <= v[i] <= '9' || 'A' <= v[i] <= 'Z' || 'a' <= v[i] <= 'z' || v[i] == '.'
  }

  lemma WordIsKey(names: NameRunes, v: string)
    requires IsWord(v)
    ensures IsKey(names, v)
  {
    AsciiSpan(KeyRunes(names), v);
  }

  lemma SyslogKeys()
    ensures IsWord("Name") && IsWord("Match") && IsWord("InstanceName") && IsWord("Addr")
    ensures IsWord("Namespace") && IsWord("Cluster") && IsWord("TLSConfig")
  {
  }

  lemma WebhookKeys()
    ensures IsWord("Name") && IsWord("Match") && IsWord("Format") && IsWord("Host") && IsWord("Port") && IsWord("URI")
    ensures IsWord("tls") && IsWord("tls.verify")
  {
  }

  function Line(p: KeyValue): string {
    INDENT + p.key + " " + p.value + "\n"
  }

  lemma PrintTwo(a: KeyValue, b: KeyValue)
    ensures PrintPairs(INDENT, [a, b]) == Line(a) + Line(b)
  {
    assert [a, b][1..] == [b] && [b][1..] == [];
    assert PrintPairs(INDENT, [b]) == Line(b) + PrintPairs(INDENT, []);
    assert PrintPairs(INDENT, [a, b]) == Line(a) + PrintPairs(INDENT, [b]);
  }

  lemma PrintOne(a: KeyValue)
    ensures PrintPairs(INDENT, [a]) == Line(a)
  {
    assert [a][1..] == [];
  }

  lemma {:induction false} PrintAppend(a: seq<KeyValue>, b: seq<KeyValue>)
    ensures PrintPairs(INDENT, a + b) == PrintPairs(INDENT, a) + PrintPairs(INDENT, b)
  {
    if a == [] {
      assert a + b == b;
    } else {
      assert (a + b)[1..] == a[1..] + b;
      PrintAppend(a[1..], b);
    }
  }

  lemma NullConfigIsBlock()
    ensures NULL_CONFIG == BlockText(NullSection().keyValues)
  {
    hide PrintPairs;
    PrintTwo(KeyValue("Name", "null"), KeyValue("Match", "*"));
    assert "    Name null\n" == Line(KeyValue("Name", "null")) && "    Match *\n" == Line(KeyValue("Match", "*"));
  }

  lemma TlsLine(tls: Option<bool>)
    ensures TlsText(tls) + "\n" == "\n" + PrintPairs(INDENT, TlsPairs(tls))
  {
    if tls.Some? {
      PrintOne(KeyValue("TLSConfig", TlsJson(tls.value)));
      assert "\n" + (INDENT + "TLSConfig" + " ") == "\n    TLSConfig ";
    }
  }

  lemma ScopeLine(o: Output)
    ensures "    " + ScopeText(o) + "\n" == Line(ScopePair(o))
  {
    assert "Namespace " == "Namespace" + " " && "Cluster true" == "Cluster" + " " + "true";
  }

  /** The last two lines of a syslog block. */
  lemma ScopeLines(o: Output)
    ensures "    " + ScopeText(o) + TlsText(o.tls) + "\n" == Line(ScopePair(o)) + PrintPairs(INDENT, TlsPairs(o.tls))
  {
    hide ScopeText, TlsText, Line, PrintPairs, ScopePair, TlsPairs;
    ScopeLine(o);
    TlsLine(o.tls);
    var scope, more := "    " + ScopeText(o), PrintPairs(INDENT, TlsPairs(o.tls));
    assert scope + TlsText(o.tls) + "\n" == scope + (TlsText(o.tls) + "\n");
    assert scope + ("\n" + more) == scope + "\n" + more;
  }

  lemma OutputPrints(o: Output)
    ensures PrintPairs(INDENT, OutputSection(o).keyValues)
         == Line(KeyValue("Name", "syslog")) + Line(KeyValue("Match", "*"))
            + (Line(KeyValue("InstanceName", o.name)) + Line(KeyValue("Addr", o.addr))
               + (Line(ScopePair(o)) + PrintPairs(INDENT, TlsPairs(o.tls))))
  {
    hide Line, PrintPairs;
    var a, b, c := [KeyValue("Name", "syslog"), KeyValue("Match", "*")], [KeyValue("InstanceName", o.name), KeyValue("Addr", o.addr)], [ScopePair(o)];
    assert OutputSection(o).keyValues == a + (b + (c + TlsPairs(o.tls)));
    PrintAppend(a, b + (c + TlsPairs(o.tls)));
    PrintAppend(b, c + TlsPairs(o.tls));
    PrintAppend(c, TlsPairs(o.tls));
    PrintTwo(a[0], a[1]);
    PrintTwo(b[0], b[1]);
    PrintOne(c[0]);
  }

  lemma Regroup(h: string, a: string, b: string, c: string, d: string, e: string)
    ensures h + a + b + c + d + e == h + (a + b + (c + d + e))
  {
  }

  lemma NameLines(o: Output)
    ensures "    InstanceName " + o.name + "\n" == Line(KeyValue("InstanceName", o.name))
    ensures "    Addr " + o.addr + "\n" == Line(KeyValue("Addr", o.addr))
  {
    assert "    InstanceName " == INDENT + "InstanceName" + " " && "    Addr " == INDENT + "Addr" + " ";
  }

  lemma FixedLines()
    ensures "    Name syslog\n" == Line(KeyValue("Name", "syslog")) && "    Match *\n" == Line(KeyValue("Match", "*"))
    ensures "\n[OUTPUT]\n" == "\n[" + OUTPUT_NAME + "]\n"
  {
  }

  lemma OutputIsBlock(o: Output)
    ensures OutputText(o) == BlockText(OutputSection(o).keyValues)
  {
    hide PrintPairs, ScopeText, TlsText, Line, OutputSection, ScopePair, TlsPairs;
    OutputPrints(o);
    ScopeLines(o);
    NameLines(o);
    FixedLines();
    Regroup("\n[OUTPUT]\n", "    Name syslog\n", "    Match *\n", "    InstanceName " + o.name + "\n", "    Addr " + o.addr + "\n",
            "    " + ScopeText(o) + TlsText(o.tls) + "\n");
  }

  lemma ExtraLines(u: Url, skip: bool)
    ensures ExtrasText(u, skip) == PrintPairs(INDENT, ExtraPairs(u, skip))
  {
    if u.scheme == "https" {
      PrintOne(KeyValue("tls", "On"));
      PrintTwo(KeyValue("tls", "On"), KeyValue("tls.verify", "Off"));
    }
  }

  lemma HttpPrints(namespace: string, u: Url, skip: bool, isCluster: bool)
    ensures PrintPairs(INDENT, HttpSection(namespace, u, skip, isCluster).keyValues)
         == Line(KeyValue("Name", "http")) + Line(KeyValue("Match", MatchOf(namespace, isCluster)))
            + (Line(KeyValue("Format", "json")) + Line(KeyValue("Host", u.hostname))
               + (Line(KeyValue("Port", PortOf(u))) + Line(KeyValue("URI", PathOf(u))) + PrintPairs(INDENT, ExtraPairs(u, skip))))
  {
    hide Line, PrintPairs;
    var a := [KeyValue("Name", "http"), KeyValue("Match", MatchOf(namespace, isCluster))];
    var b := [KeyValue("Format", "json"), KeyValue("Host", u.hostname)];
    var c := [KeyValue("Port", PortOf(u)), KeyValue("URI", PathOf(u))];
    var d := ExtraPairs(u, skip);
    assert HttpSection(namespace, u, skip, isCluster).keyValues == a + (b + (c + d));
    PrintAppend(a, b + (c + d));
    PrintAppend(b, c + d);
    PrintAppend(c, d);
    PrintTwo(a[0], a[1]);
    PrintTwo(b[0], b[1]);
    PrintTwo(c[0], c[1]);
  }

  lemma RegroupMore(h: string, a: string, b: string, c: string, d: string, e: string, f: string, g: string, i: string)
    ensures h + a + b + c + d + e + f + (g + i) == h + (a + b + (c + d + (e + f + g))) + i
  {
  }

  lemma HttpLines(m: string, host: string, port: string, path: string)
    ensures "    Name http\n" == Line(KeyValue("Name", "http")) && "    Format json\n" == Line(KeyValue("Format", "json"))
    ensures "    Match " + m + "\n" == Line(KeyValue("Match", m)) && "    Host " + host + "\n" == Line(KeyValue("Host", host))
    ensures "    Port " + port + "\n" == Line(KeyValue("Port", port)) && "    URI " + path + "\n" == Line(KeyValue("URI", path))
  {
    assert "    Match " == INDENT + "Match" + " " && "    Host " == INDENT + "Host" + " ";
    assert "    Port " == INDENT + "Port" + " " && "    URI " == INDENT + "URI" + " ";
  }

  lemma HttpIsBlock(url: UrlParser, namespace: string, spec: SinkSpec, isCluster: bool)
    requires url(spec.url).Some?
    ensures HttpText(url, namespace, spec, isCluster)
         == BlockText(HttpSection(namespace, url(spec.url).value, spec.insecureSkipVerify, isCluster).keyValues) + "\n"
  {
    hide PrintPairs, Line, MatchOf, PortOf, PathOf, ExtrasText, HttpSection;
    var u := url(spec.url).value;
    HttpPrints(namespace, u, spec.insecureSkipVerify, isCluster);
    ExtraLines(u, spec.insecureSkipVerify);
    HttpLines(MatchOf(namespace, isCluster), u.hostname, PortOf(u), PathOf(u));
    RegroupMore("\n[OUTPUT]\n", Line(KeyValue("Name", "http")), Line(KeyValue("Match", MatchOf(namespace, isCluster))),
                Line(KeyValue("Format", "json")), Line(KeyValue("Host", u.hostname)), Line(KeyValue("Port", PortOf(u))),
                Line(KeyValue("URI", PathOf(u))), ExtrasText(u, spec.insecureSkipVerify), "\n");
    assert "\n[OUTPUT]\n" == "\n[" + OUTPUT_NAME + "]\n";
  }

  // Which registries are read back.

  /** The fields a syslog sink puts into its block. */
  predicate RenderableSyslog(s: LogSink, namespace: string) {
    IsValue(s.meta.name) && IsValue(s.spec.host) && IsValue(namespace)
  }

  predicate RenderableWebhook(namespace: string, u: Url) {
    '\n' !in namespace && IsValue(u.hostname) && IsValue(u.port) && IsValue(u.path)
  }

  /** No field that the sink renders holds a newline or begins with a blank (behind the `*_` of a match, a blank does no harm). */
  predicate RenderableSink(url: UrlParser, isCluster: bool, s: LogSink) {
    && (s.spec.kind == "syslog" ==> RenderableSyslog(s, if isCluster then "" else CanonicalNamespace(s.meta.namespace)))
    && (s.spec.kind == "webhook" && url(s.spec.url).Some? ==>
          RenderableWebhook(if isCluster then "" else s.meta.namespace, url(s.spec.url).value))
  }

  ghost predicate Renderable(url: UrlParser, reg: Registry) {
    && (forall k | k in reg.sinks :: RenderableSink(url, false, reg.sinks[k]))
    && (forall k | k in reg.clusterSinks :: RenderableSink(url, true, reg.clusterSinks[k]))
  }

  predicate Fits(names: NameRunes, p: KeyValue) {
    IsKey(names, p.key) && IsValue(p.value)
  }

  lemma PrintableAppend(names: NameRunes, a: seq<KeyValue>, b: seq<KeyValue>)
    ensures PrintablePairs(names, a + b) <==> PrintablePairs(names, a) && PrintablePairs(names, b)
  {
    hide IsKey, IsValue;
    assert forall p :: p in a + b <==> p in a || p in b;
  }

  lemma PrintableTwo(names: NameRunes, p: KeyValue, q: KeyValue)
    ensures PrintablePairs(names, [p, q]) <==> Fits(names, p) && Fits(names, q)
    ensures PrintablePairs(names, [p]) <==> Fits(names, p)
  {
    hide IsKey, IsValue;
    assert p in [p] && p in [p, q] && q in [p, q];
  }

  lemma PlainValues()
    ensures IsValue("syslog") && IsValue("*") && IsValue("true") && IsValue("http") && IsValue("json") && IsValue("On") && IsValue("Off")
    ensures IsValue("443") && IsValue("80") && IsValue("/") && IsValue("") && IsValue("null")
  {
  }

  lemma TlsPrintable(names: NameRunes, tls: Option<bool>)
    ensures PrintablePairs(names, TlsPairs(tls))
  {
    hide IsKey, IsWord, IsValue, TlsJson, PrintablePairs;
    if tls.Some? {
      SyslogKeys();
      WordIsKey(names, "TLSConfig");
      JsonIsValue(tls.value);
      PrintableTwo(names, TlsPairs(tls)[0], TlsPairs(tls)[0]);
    } else {
      NothingPrintable(names);
    }
  }

  lemma JsonIsValue(skip: bool)
    ensures IsValue(TlsJson(skip))
  {
  }

  lemma NothingPrintable(names: NameRunes)
    ensures PrintablePairs(names, [])
  {
  }

  lemma ScopeFits(names: NameRunes, o: Output)
    ensures Fits(names, ScopePair(o)) <==> IsValue(o.namespace)
  {
    hide IsKey, IsWord;
    SyslogKeys();
    WordIsKey(names, "Namespace");
    WordIsKey(names, "Cluster");
    PlainValues();
  }

  lemma OutputPrintable(names: NameRunes, s: LogSink, namespace: string)
    ensures PrintablePairs(names, OutputSection(SyslogOutput(s, namespace)).keyValues) <==> RenderableSyslog(s, namespace)
  {
    hide IsKey, IsWord, IsValue, PrintablePairs, ScopePair, TlsPairs, FormatInt;
    SyslogKeys();
    WordIsKey(names, "Name"); WordIsKey(names, "Match"); WordIsKey(names, "InstanceName"); WordIsKey(names, "Addr");
    PlainValues();
    var o := SyslogOutput(s, namespace);
    var a, b, c := [KeyValue("Name", "syslog"), KeyValue("Match", "*")], [KeyValue("InstanceName", o.name), KeyValue("Addr", o.addr)], [ScopePair(o)];
    assert OutputSection(o).keyValues == a + (b + (c + TlsPairs(o.tls)));
    PrintableAppend(names, a, b + (c + TlsPairs(o.tls)));
    PrintableAppend(names, b, c + TlsPairs(o.tls));
    PrintableAppend(names, c, TlsPairs(o.tls));
    PrintableTwo(names, a[0], a[1]);
    PrintableTwo(names, b[0], b[1]);
    PrintableTwo(names, c[0], c[0]);
    ScopeFits(names, o);
    TlsPrintable(names, o.tls);
    AddrIsValue(s.spec.host, s.spec.port);
  }

  lemma AddrIsValue(host: string, port: int)
    ensures IsValue(host + ":" + FormatInt(port)) <==> IsValue(host)
  {
    var addr := host + ":" + FormatInt(port);
    assert '\n' !in FormatInt(port);
    assert '\n' in addr <==> '\n' in host;
    assert addr[0] == if host == "" then ':' else host[0];
  }

  lemma ExtrasPrintable(names: NameRunes, u: Url, skip: bool)
    ensures PrintablePairs(names, ExtraPairs(u, skip))
  {
    hide IsKey, IsWord, IsValue;
    WebhookKeys();
    WordIsKey(names, "tls"); WordIsKey(names, "tls.verify");
    PlainValues();
    PrintableTwo(names, KeyValue("tls", "On"), KeyValue("tls.verify", "Off"));
  }

  lemma HttpValues(namespace: string, u: Url, isCluster: bool)
    requires isCluster ==> namespace == ""
    ensures IsValue(MatchOf(namespace, isCluster)) <==> '\n' !in namespace
    ensures IsValue(PortOf(u)) <==> IsValue(u.port)
    ensures IsValue(PathOf(u)) <==> IsValue(u.path)
  {
    var m := MatchOf(namespace, isCluster);
    assert m[0] == '*';
    assert '\n' in m <==> '\n' in namespace;
  }

  lemma HttpPrintable(names: NameRunes, namespace: string, u: Url, skip: bool, isCluster: bool)
    requires isCluster ==> namespace == ""
    ensures PrintablePairs(names, HttpSection(namespace, u, skip, isCluster).keyValues) <==> RenderableWebhook(namespace, u)
  {
    hide IsKey, IsWord, IsValue, PrintablePairs, MatchOf, PortOf, PathOf, ExtraPairs;
    WebhookKeys();
    WordIsKey(names, "Name"); WordIsKey(names, "Match"); WordIsKey(names, "Format"); WordIsKey(names, "Host");
    WordIsKey(names, "Port"); WordIsKey(names, "URI");
    PlainValues();
    var a := [KeyValue("Name", "http"), KeyValue("Match", MatchOf(namespace, isCluster))];
    var b := [KeyValue("Format", "json"), KeyValue("Host", u.hostname)];
    var c := [KeyValue("Port", PortOf(u)), KeyValue("URI", PathOf(u))];
    var d := ExtraPairs(u, skip);
    assert HttpSection(namespace, u, skip, isCluster).keyValues == a + (b + (c + d));
    PrintableAppend(names, a, b + (c + d));
    PrintableAppend(names, b, c + d);
    PrintableAppend(names, c, d);
    PrintableTwo(names, a[0], a[1]);
    PrintableTwo(names, b[0], b[1]);
    PrintableTwo(names, c[0], c[1]);
    HttpValues(namespace, u, isCluster);
    ExtrasPrintable(names, u, skip);
  }

  // The round trip.

  lemma ReadsOutput(names: NameRunes, s: LogSink, namespace: string)
    requires RenderableSyslog(s, namespace)
    ensures Reads(names, OutputText(SyslogOutput(s, namespace)), [OutputSection(SyslogOutput(s, namespace))])
  {
    hide Reads, OutputText, BlockText;
    OutputPrintable(names, s, namespace);
    OutputIsBlock(SyslogOutput(s, namespace));
    ReadsSection(names, OutputSection(SyslogOutput(s, namespace)));
  }

  lemma ReadsSection(names: NameRunes, section: Section)
    requires section.name == OUTPUT_NAME && PrintablePairs(names, section.keyValues)
    ensures Reads(names, BlockText(section.keyValues), [section])
  {
    hide Reads, BlockText;
    ReadsBlock(names, section.keyValues);
    assert Section(OUTPUT_NAME, section.keyValues) == section;
  }

  /** Every sorted output is a syslog sink of the registry, and the other way round. */
  lemma OutputsComeFromSinks(reg: Registry, o: Orders, x: Output)
    requires OrdersOf(reg, o)
    ensures x in o.sorted <==> exists k :: k in reg.sinks && x in NamespacedOutput(reg.sinks[k])
    ensures x in o.clusterSorted <==> exists k :: k in reg.clusterSinks && x in ClusterOutput(reg.clusterSinks[k])
  {
    hide Enumerates, NamespacedOutput, ClusterOutput;
    RangeMember(reg.sinks, o.syslog, NamespacedOutput, x);
    RangeMember(reg.clusterSinks, o.clusterSyslog, ClusterOutput, x);
    assert x in o.sorted <==> x in multiset(o.sorted);
    assert x in o.clusterSorted <==> x in multiset(o.clusterSorted);
  }

  lemma ReadsSyslogPart(names: NameRunes, url: UrlParser, reg: Registry, o: Orders)
    requires OrdersOf(reg, o) && Renderable(url, reg)
    ensures Reads(names, SyslogPart(o), SyslogSections(o))
  {
    hide Reads, OutputText, OutputSection, OrdersOf, RenderableSyslog;
    forall x | x in o.sorted ensures Reads(names, OutputText(x), SectionOf(x)) {
      OutputsComeFromSinks(reg, o, x);
      var k :| k in reg.sinks && x in NamespacedOutput(reg.sinks[k]);
      ReadsOutput(names, reg.sinks[k], CanonicalNamespace(reg.sinks[k].meta.namespace));
    }
    forall x | x in o.clusterSorted ensures Reads(names, OutputText(x), SectionOf(x)) {
      OutputsComeFromSinks(reg, o, x);
      var k :| k in reg.clusterSinks && x in ClusterOutput(reg.clusterSinks[k]);
      ReadsOutput(names, reg.clusterSinks[k], "");
    }
    ReadsRange(names, OutputText, SectionOf, o.sorted);
    ReadsRange(names, OutputText, SectionOf, o.clusterSorted);
    ReadsConcat(names, FlatMap(OutputText, o.sorted), FlatMap(SectionOf, o.sorted),
                FlatMap(OutputText, o.clusterSorted), FlatMap(SectionOf, o.clusterSorted));
  }

  lemma ReadsWebhook(names: NameRunes, url: UrlParser, isCluster: bool, s: LogSink)
    requires RenderableSink(url, isCluster, s)
    ensures Reads(names, WebhookText(url, isCluster)(s), WebhookSection(url, isCluster)(s))
  {
    hide Reads, HttpSection, BlockText, PrintPairs, PrintablePairs, RenderableWebhook;
    ReadsNothing(names);
    if s.spec.kind == "webhook" && url(s.spec.url).Some? {
      var namespace, u := if isCluster then "" else s.meta.namespace, url(s.spec.url).value;
      var section := HttpSection(namespace, u, s.spec.insecureSkipVerify, isCluster);
      HttpPrintable(names, namespace, u, s.spec.insecureSkipVerify, isCluster);
      HttpIsBlock(url, namespace, s.spec, isCluster);
      HttpName(namespace, u, s.spec.insecureSkipVerify, isCluster);
      ReadsSection(names, section);
      ReadsConcat(names, BlockText(section.keyValues), [section], "\n", []);
      assert [section] + [] == [section];
    }
  }

  lemma HttpName(namespace: string, u: Url, skip: bool, isCluster: bool)
    ensures HttpSection(namespace, u, skip, isCluster).name == OUTPUT_NAME
  {
  }

  lemma ReadsWebhookRange(names: NameRunes, url: UrlParser, isCluster: bool, m: map<string, LogSink>, keys: seq<string>)
    requires Enumerates(keys, m) && forall k | k in m :: RenderableSink(url, isCluster, m[k])
    ensures Reads(names, FlatMap(WebhookText(url, isCluster), ValuesOf(m, keys)), FlatMap(WebhookSection(url, isCluster), ValuesOf(m, keys)))
  {
    hide Reads, WebhookText, WebhookSection, RenderableSink;
    forall s | s in ValuesOf(m, keys) ensures Reads(names, WebhookText(url, isCluster)(s), WebhookSection(url, isCluster)(s)) {
      ValuesMember(m, keys, s);
      ReadsWebhook(names, url, isCluster, s);
    }
    ReadsRange(names, WebhookText(url, isCluster), WebhookSection(url, isCluster), ValuesOf(m, keys));
  }

  lemma ReadsWebhookPart(names: NameRunes, url: UrlParser, reg: Registry, o: Orders)
    requires OrdersOf(reg, o) && Renderable(url, reg)
    ensures Reads(names, WebhookPart(url, reg, o), WebhookSections(url, reg, o))
  {
    hide Reads, WebhookText, WebhookSection, RenderableSink, SortOf;
    ReadsWebhookRange(names, url, false, reg.sinks, o.webhook);
    ReadsWebhookRange(names, url, true, reg.clusterSinks, o.clusterWebhook);
    ReadsConcat(names, FlatMap(WebhookText(url, false), ValuesOf(reg.sinks, o.webhook)),
                FlatMap(WebhookSection(url, false), ValuesOf(reg.sinks, o.webhook)),
                FlatMap(WebhookText(url, true), ValuesOf(reg.clusterSinks, o.clusterWebhook)),
                FlatMap(WebhookSection(url, true), ValuesOf(reg.clusterSinks, o.clusterWebhook)));
  }

  lemma RenderableIsRead(names: NameRunes, url: UrlParser, reg: Registry, text: string, o: Orders)
    requires RendersWith(url, reg, text, o) && Renderable(url, reg)
    ensures Reads(names, text, ExpectedSections(url, reg, o))
  {
    hide Reads, Renderable, OrdersOf, SyslogPart, WebhookPart, SyslogSections, WebhookSections, BlockText, PrintablePairs;
    if reg == EMPTY_REGISTRY {
      NullPrintable(names);
      NullConfigIsBlock();
      ReadsSection(names, NullSection());
    } else {
      ReadsSyslogPart(names, url, reg, o);
      ReadsWebhookPart(names, url, reg, o);
      ReadsConcat(names, SyslogPart(o), SyslogSections(o), WebhookPart(url, reg, o), WebhookSections(url, reg, o));
    }
  }

  lemma NullPrintable(names: NameRunes)
    ensures PrintablePairs(names, NullSection().keyValues)
  {
    hide IsKey, IsWord, IsValue, PrintablePairs;
    SyslogKeys();
    WordIsKey(names, "Name"); WordIsKey(names, "Match");
    PlainValues();
    PrintableTwo(names, KeyValue("Name", "null"), KeyValue("Match", "*"));
  }

  /** Each sink's section is among the expected ones. */
  lemma SinksAreExpected(url: UrlParser, reg: Registry, o: Orders, k: string, section: Section)
    requires OrdersOf(reg, o)
    ensures k in reg.sinks && reg.sinks[k].spec.kind == "syslog" ==>
      OutputSection(SyslogOutput(reg.sinks[k], CanonicalNamespace(reg.sinks[k].meta.namespace))) in ExpectedSections(url, reg, o)
    ensures k in reg.clusterSinks && reg.clusterSinks[k].spec.kind == "syslog" ==>
      OutputSection(SyslogOutput(reg.clusterSinks[k], "")) in ExpectedSections(url, reg, o)
    ensures k in reg.sinks && section in WebhookSection(url, false)(reg.sinks[k]) ==> section in ExpectedSections(url, reg, o)
    ensures k in reg.clusterSinks && section in WebhookSection(url, true)(reg.clusterSinks[k]) ==> section in ExpectedSections(url, reg, o)
  {
    hide OutputSection, SyslogOutput, WebhookSection, Enumerates, SortOf;
    if k in reg.sinks {
      var s := reg.sinks[k];
      var x := SyslogOutput(s, CanonicalNamespace(s.meta.namespace));
      OutputsComeFromSinks(reg, o, x);
      FlatMapMember(SectionOf, o.sorted, OutputSection(x));
      assert s.spec.kind == "syslog" ==> x in NamespacedOutput(s);
      assert OutputSection(x) in SectionOf(x);
      RangeMember(reg.sinks, o.webhook, WebhookSection(url, false), section);
    }
    if k in reg.clusterSinks {
      var s := reg.clusterSinks[k];
      var x := SyslogOutput(s, "");
      OutputsComeFromSinks(reg, o, x);
      FlatMapMember(SectionOf, o.clusterSorted, OutputSection(x));
      assert s.spec.kind == "syslog" ==> x in ClusterOutput(s);
      assert OutputSection(x) in SectionOf(x);
      RangeMember(reg.clusterSinks, o.clusterWebhook, WebhookSection(url, true), section);
    }
  }

  /** A sink whose sections can all be printed has only renderable fields. */
  lemma PrintableSinkIsRenderable(names: NameRunes, url: UrlParser, isCluster: bool, s: LogSink)
    requires s.spec.kind == "syslog" ==>
      PrintablePairs(names, OutputSection(SyslogOutput(s, if isCluster then "" else CanonicalNamespace(s.meta.namespace))).keyValues)
    requires forall section | section in WebhookSection(url, isCluster)(s) :: PrintablePairs(names, section.keyValues)
    ensures RenderableSink(url, isCluster, s)
  {
    hide PrintablePairs, OutputSection, HttpSection, RenderableSyslog, RenderableWebhook;
    if s.spec.kind == "syslog" {
      OutputPrintable(names, s, if isCluster then "" else CanonicalNamespace(s.meta.namespace));
    }
    if s.spec.kind == "webhook" && url(s.spec.url).Some? {
      var namespace, u := if isCluster then "" else s.meta.namespace, url(s.spec.url).value;
      assert HttpSection(namespace, u, s.spec.insecureSkipVerify, isCluster) in WebhookSection(url, isCluster)(s);
      HttpPrintable(names, namespace, u, s.spec.insecureSkipVerify, isCluster);
    }
  }

  lemma ReadIsRenderable(names: NameRunes, url: UrlParser, reg: Registry, text: string, o: Orders)
    requires RendersWith(url, reg, text, o) && Reads(names, text, ExpectedSections(url, reg, o))
    ensures Renderable(url, reg)
  {
    hide Parsed, ExpectedSections, OutputSection, WebhookSection, RenderableSink, PrintablePairs, OrdersOf;
    var expected := ExpectedSections(url, reg, o);
    ParsedIsPrintable(names, "", text);
    assert forall s | s in expected :: s in [UNNAMED] + expected;
    forall k | k in reg.sinks ensures RenderableSink(url, false, reg.sinks[k]) {
      forall section | section in WebhookSection(url, false)(reg.sinks[k]) ensures PrintablePairs(names, section.keyValues) {
        SinksAreExpected(url, reg, o, k, section);
      }
      SinksAreExpected(url, reg, o, k, UNNAMED);
      PrintableSinkIsRenderable(names, url, false, reg.sinks[k]);
    }
    forall k | k in reg.clusterSinks ensures RenderableSink(url, true, reg.clusterSinks[k]) {
      forall section | section in WebhookSection(url, true)(reg.clusterSinks[k]) ensures PrintablePairs(names, section.keyValues) {
        SinksAreExpected(url, reg, o, k, section);
      }
      SinksAreExpected(url, reg, o, k, UNNAMED);
      PrintableSinkIsRenderable(names, url, true, reg.clusterSinks[k]);
    }
  }

  /**
   The round trip: parsing what a registry renders to gives the unnamed section and then exactly the sections
   of its sinks, if and only if no rendered field holds a newline or begins with a blank.
   */
  lemma ParseRecoversRegistry(names: NameRunes, url: UrlParser, reg: Registry, text: string, o: Orders)
    requires RendersWith(url, reg, text, o)
    ensures Parsed(names, "", text) == Ok(File("", [UNNAMED] + ExpectedSections(url, reg, o))) <==> Renderable(url, reg)
  {
    hide RendersWith, ExpectedSections, Renderable, Parsed;
    if Renderable(url, reg) {
      RenderableIsRead(names, url, reg, text, o);
    }
    if Reads(names, text, ExpectedSections(url, reg, o)) {
      ReadIsRenderable(names, url, reg, text, o);
    }
  }
}
