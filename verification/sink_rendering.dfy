/** Log sinks and the Fluent Bit configuration text they render to. */
module SinkRendering {
  import opened GoLang
  import opened Collections
  import opened SinkOrder

  datatype SinkSpec = SinkSpec(kind: string, host: string, port: int, enableTls: bool, url: string, insecureSkipVerify: bool)

  /** `revision` stands for the metadata nothing here reads. */
  datatype ObjectMeta = ObjectMeta(name: string, namespace: string, clusterName: string, revision: string)

  /** A LogSink or a ClusterLogSink: the two resources have the same fields. */
  datatype LogSink = LogSink(meta: ObjectMeta, spec: SinkSpec)

  /** The components of a parsed URL, and the parser itself: any total function from text to components or failure. */
  datatype Url = Url(scheme: string, hostname: string, port: string, path: string)

  type UrlParser = string -> Option<Url>

  /** The two maps behind `Config`. */
  datatype Registry = Registry(sinks: map<string, LogSink>, clusterSinks: map<string, LogSink>)

  const EMPTY_REGISTRY := Registry(map[], map[])

  const NULL_CONFIG := "\n[OUTPUT]\n" + ("    Name null\n" + "    Match *\n")

  function Key(s: LogSink): string {
    s.meta.namespace + "|" + s.meta.name
  }

  function ClusterKey(s: LogSink): string {
    s.meta.clusterName + "|" + s.meta.name
  }

  function CanonicalNamespace(ns: string): string {
    if ns == "" then "default" else ns
  }

  // Syslog.

  function SyslogOutput(s: LogSink, namespace: string): Output {
    Output(s.spec.host + ":" + FormatInt(s.spec.port), namespace,
           if s.spec.enableTls then Some(s.spec.insecureSkipVerify) else None, s.meta.name)
  }

  /** The output of a namespaced sink: none unless it is a syslog sink. */
  function NamespacedOutput(s: LogSink): seq<Output> {
    if s.spec.kind == "syslog" then [SyslogOutput(s, CanonicalNamespace(s.meta.namespace))] else []
  }

  function ClusterOutput(s: LogSink): seq<Output> {
    if s.spec.kind == "syslog" then [SyslogOutput(s, "")] else []
  }

  function TlsText(tls: Option<bool>): string {
    match tls
    case None => ""
    case Some(skip) => "\n    TLSConfig " + TlsJson(skip)
  }

  /** `json.Marshal` of the tls record, whose only field is omitted when false. */
  function TlsJson(skip: bool): string {
    if skip then "{\"insecure_skip_verify\":true}" else "{}"
  }

  function ScopeText(o: Output): string {
    if o.namespace != "" then "Namespace " + o.namespace else "Cluster true"
  }

  function OutputText(o: Output): string {
    "\n[OUTPUT]\n"
    + "    Name syslog\n"
    + "    Match *\n"
    + ("    InstanceName " + o.name + "\n")
    + ("    Addr " + o.addr + "\n")
    + ("    " + ScopeText(o) + TlsText(o.tls) + "\n")
  }

  // Webhooks.

  function PortOf(u: Url): string {
    if u.port != "" then u.port
    else if u.scheme == "https" then "443"
    else if u.scheme == "http" then "80"
    else ""
  }

  function PathOf(u: Url): string {
    if u.path == "" then "/" else u.path
  }

  function MatchOf(namespace: string, isCluster: bool): string {
    if isCluster then "*" else "*_" + namespace + "_*"
  }

  function ExtrasText(u: Url, skip: bool): string {
    if u.scheme == "https" then
      "    tls On\n" + if skip then "    tls.verify Off\n" else ""
    else ""
  }

  /** `buildHTTPConfig`: nothing for a URL that does not parse. */
  function HttpText(url: UrlParser, namespace: string, spec: SinkSpec, isCluster: bool): string {
    match url(spec.url)
    case None => ""
    case Some(u) =>
      "\n[OUTPUT]\n"
      + "    Name http\n"
      + ("    Match " + MatchOf(namespace, isCluster) + "\n")
      + "    Format json\n"
      + ("    Host " + u.hostname + "\n")
      + ("    Port " + PortOf(u) + "\n")
      + ("    URI " + PathOf(u) + "\n")
      + (ExtrasText(u, spec.insecureSkipVerify) + "\n")
  }

  /** What one sink of a range adds to the webhook part. */
  function WebhookText(url: UrlParser, isCluster: bool): LogSink -> string {
    (s: LogSink) =>
      if s.spec.kind == "webhook" then HttpText(url, if isCluster then "" else s.meta.namespace, s.spec, isCluster) else ""
  }

  // Rendering a registry.

  /** The choices one rendering makes: the order of each of its four map ranges, and of elements that tie when sorting. */
  datatype Orders = Orders(syslog: seq<string>, clusterSyslog: seq<string>, sorted: seq<Output>, clusterSorted: seq<Output>,
                           webhook: seq<string>, clusterWebhook: seq<string>)

  ghost predicate OrdersOf(reg: Registry, o: Orders) {
    && Enumerates(o.syslog, reg.sinks) && Enumerates(o.clusterSyslog, reg.clusterSinks)
    && Enumerates(o.webhook, reg.sinks) && Enumerates(o.clusterWebhook, reg.clusterSinks)
    && SortOf(o.sorted, FlatMap(NamespacedOutput, ValuesOf(reg.sinks, o.syslog)))
    && SortOf(o.clusterSorted, FlatMap(ClusterOutput, ValuesOf(reg.clusterSinks, o.clusterSyslog)))
  }

  function SyslogPart(o: Orders): string {
    FlatMap(OutputText, o.sorted) + FlatMap(OutputText, o.clusterSorted)
  }

  function WebhookPart(url: UrlParser, reg: Registry, o: Orders): string {
    FlatMap(WebhookText(url, false), ValuesOf(reg.sinks, o.webhook))
    + FlatMap(WebhookText(url, true), ValuesOf(reg.clusterSinks, o.clusterWebhook))
  }

  /** `text` is what `Config.String` returns for `reg` when its ranges and its sort choose `o`. */
  ghost predicate RendersWith(url: UrlParser, reg: Registry, text: string, o: Orders) {
    && OrdersOf(reg, o)
    && text == if reg == EMPTY_REGISTRY then NULL_CONFIG else SyslogPart(o) + WebhookPart(url, reg, o)
  }

  ghost predicate Renders(url: UrlParser, reg: Registry, text: string) {
    exists o :: RendersWith(url, reg, text, o)
  }
}
