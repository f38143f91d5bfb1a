# Verified model of the sink controllers

The repository turns sink custom resources into the configuration of monitoring agents. Log sinks become a Fluent Bit
configuration, which the repository can also read back; metric sinks become telegraf configurations. This project models
the path from a resource to the text an agent gets, and the reader that undoes it, and proves what that path keeps.

1. **Fluent Bit lexer and parser** (`utf8.dfy`, `lex.dfy`, `lex_language.dfy`, `lex_spelling.dfy`, `parse.dfy`,
   `parse_laws.dfy`). The lexer is a class with the mutable cursor, token list and state of the Go `Lexer`; each state
   function is a method proved against one move of a transition function, and `Run` against a recursive definition of
   the token list. The parser keeps the flags of the original loop and is proved against a grammar. Main results: the
   token language and the range of the parser are known exactly, lexing is lossless, parsing is a homomorphism for
   concatenation and inverts printing.
2. **Log sinks** (`sink_order.dfy`, `sink_rendering.dfy`, `sink_config.dfy`, `sink_round_trip.dfy`, `sink_fields.dfy`,
   `sink_laws.dfy`, `sink_controller.dfy`, `sink_interleaving.dfy`, `sink_delivery.dfy`, `sink_staleness.dfy`). The
   registry is a class with the two maps. Rendering may range over a map in any order and sort with any sort that
   sorts. Main results: parsing a rendering recovers the registry if and only if no rendered field holds a newline or
   begins with a blank; for such registries the syslog text is determinate if and only if names do not collide; over
   every interleaving of the two controllers' steps each patch shows a state that really held, and at rest the newest
   rendering shows what the informers hold. The last patch need not be that one, as a concrete run shows; when it is
   current is stated exactly.
3. **Metric sinks** (`metric_plugins.dfy`, `metric_slices.dfy`, `metric_config.dfy`, `metric_laws.dfy`,
   `metric_cluster_controller.dfy`, `metric_controller.dfy`, `metric_lifecycle.dfy`, `metric_mirror.dfy`). Go slices
   are modelled on the heap, with an `append` that writes into a shared array when there is room, so that rendering
   could disturb the defaults and is proved not to. The controller of namespaced sinks makes Kubernetes API calls of
   which any may fail. Main results: aggregation conserves every table, and exactly when its result is rendered;
   resource order holds between any two calls of any run, without failures the cluster mirrors the sinks object by
   object, and exactly which failures leave a sink in a state that no later handler changes (garbage collection
   through owner references is outside the model).
4. **Admission** (`admission.dfy`, `admitted_sinks.dfy`, `metric_admission.dfy`). The rules for log sinks and the
   checking loops for metric sinks, and what they imply for the rendered configurations, exactly.

`golang.dfy` and `collections.dfy` hold what is needed of Go strings, numbers and map iteration.

Where the model had to decide:

- Go strings are byte sequences, held here in a `string` with one byte per character; runes are decoded as in section 3
  of RFC 3629, and an invalid byte decodes to U+FFFD with width 1. The code points that count as letters or numbers are a
  parameter, of which only the ASCII part is fixed.
- `url.Parse` is any total function from text to failure or the components of section 3 of RFC 3986.
- A failing or refused patch or pod deletion is only logged by the log sink controllers, so the model records what was
  sent.
- `reflect.DeepEqual` on values is equality.
- `OnUpdate` in `pkg/metric/controller.go` does not default the type meta as `OnAdd` does, so an updated config map can name
  an owner with an empty kind. The model keeps this; `MetricMirror.UpdatedOwnerCanLackKind` gives the input and
  `MetricMirror.OwnersExactly` says when it happens.
- The tests of `pkg/sink` check by example that the parser recovers the intended sections. For arbitrary field values that
  is false; `AdmittedSinks.AdmittedHostCanSplitSection` gives an input and `SinkRoundTrip.ParseRecoversRegistry` says when it
  is true.
- Both kinds of log sink go through admission (`config/401-validator-webhook-config.yaml:38-40`).

## Model

| member | source | states |
|---|---|---|
| `Utf8.DecodeInvertsEncode` | pkg/sink/flbconfig/lex.go:94-103 | the decoder the lexer reads runes through inverts the encoding of section 3 of RFC 3629, whatever follows |
| `Utf8.DecodedIsEncoded` | pkg/sink/flbconfig/lex.go:94-103 | and accepts nothing but such encodings: overlong forms, surrogates and cut-off sequences are errors |
| `FlbLexer.Lexer.Run` | pkg/sink/flbconfig/lex.go:72-76 | the state loop ends on every input and has appended exactly the tokens the rest of the input stands for, with the cursor inside the input |
| `FlbLexer.Lexer.CallState` | pkg/sink/flbconfig/lex.go:54-76 | whatever state function is called makes the one move specified for its state, including those that consume nothing |
| `FlbLexer.Lexer.LexStart` | pkg/sink/flbconfig/lex.go:109-124 | dispatches on the next rune without consuming it |
| `FlbLexer.Lexer.LexKeyWhiteSpace` | pkg/sink/flbconfig/lex.go:137-149 | its unchecked advance skips a blank, because it is only entered in front of one |
| `FlbLexer.Lexer.LexSection` | pkg/sink/flbconfig/lex.go:163-182 | emits the longest run of letters and numbers before a right bracket, or the error with the cursor where it stopped |
| `FlbLexer.Lexer.LexRightBracket` | pkg/sink/flbconfig/lex.go:184-188 | its unchecked advance consumes a right bracket |
| `FlbLexer.Lexer.LexKey` | pkg/sink/flbconfig/lex.go:190-209 | emits the longest run of key runes if it is not empty and a blank follows it |
| `FlbLexer.Lexer.LexValue` | pkg/sink/flbconfig/lex.go:211-225 | emits everything up to the newline, or an error if there is none |
| `FlbLexer.AdvanceKeepsPending` | pkg/sink/flbconfig/lex.go:109-225 | every move of every state emits exactly the part of the specified token list that it takes off the rest of the input |
| `FlbLanguage.TokenLanguageIsExact` | pkg/sink/flbconfig/lex.go:109-225 | a token list is the lexing of some input if and only if it is lines, headers and pairs followed by one end or error, with names, keys and values of their shape |
| `FlbLanguage.UnlexLexes` | pkg/sink/flbconfig/lex.go:109-225 | writing out any token list of the language and lexing it gives that list back |
| `FlbLanguage.LexingIsLossless` | pkg/sink/flbconfig/lex.go:78-98 | tokens and blank gaps between them rebuild the input, or for an erroneous one a prefix of it |
| `FlbLanguage.LexConcatenates` | pkg/sink/flbconfig/lex.go:109-225 | behind a complete input the lexer starts afresh |
| `FlbSpelling.KeysExactly` | pkg/sink/flbconfig/lex.go:190-209 | some input yields a key if and only if the key is a non-empty string of encoded letters, numbers and dots |
| `FlbSpelling.NamesExactly` | pkg/sink/flbconfig/lex.go:163-182 | some input yields a section name if and only if the name is a string, empty or not, of encoded letters and numbers |
| `FlbSpelling.BadKeysAreReported` | pkg/sink/flbconfig/lex.go:190-209 | behind any text that parses, a line whose key goes on with a rune that is neither part of a key nor a blank is reported as an invalid key, and one that just stops as an unexpected end |
| `FlbSpelling.BadHeadersAreReported` | pkg/sink/flbconfig/lex.go:163-182 | behind any text that parses, a header whose name goes on with anything but a right bracket is reported as missing it, and one that just stops as an unexpected end |
| `FlbSpelling.UnderscoreIsInvalid` | pkg/sink/flbconfig/lex.go:197-205 | a key with an underscore, which is neither a letter nor a number, is invalid |
| `FlbParser.FlagsFollowGrammar` | pkg/sink/flbconfig/parse.go:51-110 | on a lexed stream the flag-driven token loop computes the grammar's sections or error, from any resting point |
| `FlbParser.GuardsNeverFire` | pkg/sink/flbconfig/parse.go:65-110 | parsing any input, no step of the loop is stopped by a guard against a token out of place, and the loop never runs out of tokens to reach its final return |
| `FlbParser.Parse` | pkg/sink/flbconfig/parse.go:35-111 | lexing and the imperative loop together compute the grammar's result |
| `FlbParserLaws.ParseSucceedsExactly` | pkg/sink/flbconfig/parse.go:51-108 | parsing succeeds if and only if there is no error token and every right bracket is followed by a newline, and which error is reported otherwise |
| `FlbParserLaws.ParseConcatenates` | pkg/sink/flbconfig/parse.go:51-108 | parsing a concatenation behind a parsable text joins the sections, the first of the second text continuing the last of the first, or gives the second text's error |
| `FlbParserLaws.ParseUndoesPrint` | pkg/sink/flbconfig/parse.go:35-111 | parsing inverts a plain printer on every printable file |
| `FlbParserLaws.ParsedIsPrintable` | pkg/sink/flbconfig/parse.go:69-106 | whatever was parsed can be printed, so printing and parsing again changes nothing |
| `FlbParserLaws.ParserRange` | pkg/sink/flbconfig/parse.go:35-111 | the files the parser can return are exactly the printable ones |
| `GoLang.DecimalRoundTrip` | pkg/sink/config.go:121-132 | the decimal form of a port stands for that port |
| `SinkOrder.SortingIsDeterminate` | pkg/sink/config.go:134-139 | a list has only one sorting if and only if elements that tie are equal |
| `SinkConfig.Config.UpsertSink` | pkg/sink/config.go:60-64 | sets the sink under namespace and name and leaves everything else |
| `SinkConfig.Config.UpsertClusterSink` | pkg/sink/config.go:66-70 | the same in the cluster map |
| `SinkConfig.Config.DeleteSink` | pkg/sink/config.go:72-76 | removes that key and nothing else |
| `SinkConfig.Config.DeleteClusterSink` | pkg/sink/config.go:78-82 | the same in the cluster map |
| `SinkConfig.Config.String` | pkg/sink/config.go:84-91 | returns a rendering of the current maps for some order of each range and some sort |
| `SinkConfig.Config.SyslogConfig` | pkg/sink/config.go:114-168 | the outputs of all namespaced syslog sinks, sorted, and then those of the cluster ones |
| `SinkConfig.Config.WebhookConfig` | pkg/sink/config.go:93-112 | the blocks of all namespaced webhook sinks and then those of the cluster ones |
| `SinkConfig.SinkListString` | pkg/sink/config.go:170-206 | the blocks of a sink list in its order |
| `SinkRoundTrip.ParseRecoversRegistry` | pkg/sink/config.go:84-272 | parsing a rendering gives the unnamed section and then exactly the sections of the rendered sinks, keys in template order, if and only if no rendered field holds a newline or begins with a blank |
| `SinkRoundTrip.OutputIsBlock` | pkg/sink/config.go:189-224 | a syslog sink's block is its section printed, with the TLS line only if TLS is enabled |
| `SinkRoundTrip.HttpIsBlock` | pkg/sink/config.go:226-272 | a webhook sink's block is its section printed, with default port and path and the TLS lines of its scheme |
| `SinkRoundTrip.SinksAreExpected` | pkg/sink/config.go:93-168 | every syslog sink's and every parsable webhook sink's section is among the expected ones |
| `SinkFields.AgentsReadFields` | pkg/sink/config.go:84-272 | the agents read, in this order, the sections of the namespaced and of the cluster syslog sinks and of the namespaced and of the cluster webhook sinks, one for each and said in the sinks' own fields; the syslog ones are ordered byte by byte by namespace and then by name |
| `SinkFields.SyslogHasFields` | pkg/sink/config.go:114-224 | a syslog sink's section has its name, its host and port in decimal, its namespace (or `default`) or the cluster mark, and a TLS configuration if and only if TLS is enabled, insecure if and only if verification is skipped |
| `SinkFields.WebhookHasFields` | pkg/sink/config.go:226-272 | a webhook sink's section has the host of its URL, its port or that of its scheme, its path or a slash, the match of its scope, and TLS settings if and only if the scheme is https |
| `SinkFields.AgentsReadNull` | pkg/sink/config.go:30-34 | of an empty registry they read the null output |
| `SinkLaws.SyslogIsOrderIndependent` | pkg/sink/config.go:114-168 | if canonical namespace and name tell syslog sinks apart, every range order and every sort give the same text |
| `SinkLaws.SyslogTextIsDeterminate` | pkg/sink/config.go:134-161 | for renderable registries that condition is also necessary |
| `SinkLaws.WebhookSectionsPermute` | pkg/sink/config.go:93-112 | two renderings have the same namespaced webhook sections and behind them the same cluster ones, each up to order |
| `SinkLaws.SectionsAreConserved` | pkg/sink/config.go:84-168 | a registry that is not empty has one section for each syslog sink and each webhook sink whose URL parses, and no other |
| `SinkLaws.SyslogSectionsAreScoped` | pkg/sink/config.go:189-206 | the first sections carry the namespace of a namespaced sink, the rest the cluster mark, and never both |
| `SinkLaws.NullExactlyWhenEmpty` | pkg/sink/config.go:84-91 | the null configuration is rendered if and only if both maps are empty |
| `SinkControllers.Controller.OnAdd` | pkg/sink/controller.go:42-58 | upserts, renders both maps, patches once and deletes the pods once |
| `SinkControllers.Controller.OnDelete` | pkg/sink/controller.go:60-76 | the same with a deletion |
| `SinkControllers.Controller.OnUpdate` | pkg/sink/controller.go:101-113 | does nothing at all for an equal spec, and what an addition does otherwise |
| `SinkControllers.Controller.DeliverAll` | pkg/sink/controller.go:42-113 | a stream of notifications makes as many patches as it has places with an addition, a deletion or an update whose specs differ, the last one rendering the final maps |
| `SinkControllers.ClusterController.OnAdd` | pkg/sink/cluster_controller.go:38-54 | upserts in the cluster map, renders both maps, patches once |
| `SinkControllers.ClusterController.OnDelete` | pkg/sink/cluster_controller.go:56-72 | the same with a deletion |
| `SinkControllers.ClusterController.OnUpdate` | pkg/sink/cluster_controller.go:74-86 | does nothing at all for an equal spec |
| `SinkControllers.KeyIsInjective` | pkg/sink/config.go:281-287 | the composite key tells objects apart as long as the namespace or cluster name holds no bar |
| `SinkControllers.SkippingIsSound` | pkg/sink/controller.go:101-113 | over every faithful stream the registry's map agrees with the informer's store on keys and specs |
| `SinkControllers.SameFieldsRenderAlike` | pkg/sink/config.go:84-272 | registries that agree on keys, names and specs have the same renderings |
| `SinkControllers.PublishedAsIfNothingSkipped` | pkg/sink/controller.go:101-113 | the possible texts are those of a registry to which every update had been applied |
| `SinkInterleaving.UndisturbedHandler` | pkg/sink/controller.go:42-58 | a handler that nothing interrupts is the change, rendering and patch steps of the interleaving model in a row |
| `SinkInterleaving.RunKeepsInv` | pkg/sink/config.go:60-91 | in every interleaving no rendering is lost, patched twice or patched out of its controller's order, and without a pending change the newest one saw the current maps |
| `SinkInterleaving.PublicationsAreTruthful` | pkg/sink/controller.go:42-76 | every patch renders a state the registry was in, one in which the publisher's map was as its own event left it |
| `SinkInterleaving.NewestIsLate` | pkg/sink/controller.go:42-76 | at rest the newest rendering is the last or the last but one patch |
| `SinkInterleaving.QuietShowsCurrent` | pkg/sink/controller.go:42-76 | at rest the patch rendered last, which is the last one or the one before it, shows the current maps |
| `SinkStaleness.LastPatchIsCurrentExactly` | pkg/sink/controller.go:42-76 | at rest the last patch agrees with the current registry on its publisher's own map, and shows the current registry if and only if the other controller's map is as it was at that rendering |
| `SinkStaleness.LastPatchIsStaleExactly` | pkg/sink/controller.go:42-76 | for renderable registries the last patch's text is stale if and only if no order of the current sinks gives the sections it reads back as |
| `SinkStaleness.SectionsDetermineText` | pkg/sink/config.go:84-272 | a rendering is a function of the sections it should be read back as |
| `SinkInterleaving.OvertakingLeavesStaleText` | pkg/sink/controller.go:42-76 | a run after which both controllers rest and the last patch does not render the current maps |
| `SinkDelivery.RunAppliesEvents` | pkg/sink/config.go:60-82 | in every interleaving each map is the one its own controller's notifications leave |
| `SinkDelivery.PatchesAreCounted` | pkg/sink/controller.go:42-113 | in every interleaving there is one patch, made or on its way, for each notification acted on |
| `SinkDelivery.NewestShowsStores` | cmd/sink-controller/main.go:81-103 | at rest after any interleaving of two faithful streams the newest rendering shows both informers' stores, reading it back gives their sections if and only if the fields are renderable, and the patches number the additions, deletions and spec changes |
| `SinkDelivery.ServingRunExists` | cmd/sink-controller/main.go:81-103 | for any two faithful streams there are a run that acts on both to the end, with one patch for each addition, deletion and spec change, and a registry that holds the informers' stores |
| `MetricSlices.Append` | pkg/metric/cluster_config.go:111-140 | `append` on the heap: in place if there is room, in a new array otherwise |
| `MetricSlices.PluginTables.CopyInputs` | pkg/metric/cluster_config.go:101-109 | the copy holds the very slices of the original |
| `MetricSlices.PluginTables.Add` | pkg/metric/cluster_config.go:112-123 | appends a plugin without its type to the list of its type, skips one without a string type, and writes to no shared array |
| `MetricConfig.TelegrafConfig.AppendInputsAndOutputs` | pkg/metric/cluster_config.go:111-140 | both loops aggregate their plugins in order, without touching each other's tables |
| `MetricConfig.TelegrafConfig.String` | pkg/metric/cluster_config.go:42-56 | the discard configuration if one half is empty, the tables otherwise |
| `MetricConfig.ClusterConfig.constructor` | pkg/metric/cluster_config.go:87-99 | no sinks, and the default inputs of the last modifier |
| `MetricConfig.ClusterConfig.String` | pkg/metric/cluster_config.go:142-159 | renders the current sinks in some order and modifies nothing that existed before |
| `MetricPlugins.AggregatesExactly` | pkg/metric/cluster_config.go:111-140 | appending one by one gives the one grouping in which every type has its base list followed by the plugins of that type in order, and in which there are no other types |
| `MetricPlugins.TablesExactly` | pkg/metric/cluster_config.go:112-123 | a plugin contributes to a type if and only if its `type` is that string, and then a table with all its other settings |
| `MetricPlugins.AggregationConserves` | pkg/metric/cluster_config.go:111-140 | over all types the tables are those of the base and one for each string-typed plugin, as multisets and in number |
| `MetricPlugins.AggregationPermutes` | pkg/metric/cluster_config.go:148-156 | another order of plugins gives the same types and permuted lists |
| `MetricLaws.EveryTypeIsConserved` | pkg/metric/cluster_config.go:142-157 | ranging over the sinks collects for each type its defaults and then the sinks' plugins of that type, for inputs and outputs |
| `MetricLaws.InputsAreConserved` | pkg/metric/cluster_config.go:142-157 | the collected inputs are, type and all, the defaults and one for each string-typed entry |
| `MetricLaws.OutputsAreConserved` | pkg/metric/cluster_config.go:142-157 | the collected outputs are, type and all, one for each string-typed entry |
| `MetricLaws.RenderingIsWholeExactly` | pkg/metric/cluster_config.go:42-56 | all that was collected is rendered if there is a default or a typed input, and a typed output; nothing of it otherwise |
| `MetricLaws.RenderedTypes` | pkg/metric/cluster_config.go:67-159 | a rendered configuration has the cluster's name as its tag if there is one, the kubernetes input for the secure or the insecure port, and for each type the sinks' plugins |
| `MetricLaws.RenderingsPermute` | pkg/metric/cluster_config.go:142-159 | two renderings of the same sinks differ at most in the order within a type |
| `MetricLaws.FallsBackExactly` | pkg/metric/cluster_config.go:42-56 | the discard configuration appears if and only if there is neither a default nor a typed input, or no typed output |
| `MetricClusterController.ClusterController.OnUpdate` | pkg/metric/cluster_controller.go:145-149 | only an update that changes nothing is skipped |
| `MetricClusterController.ClusterController.DeliverAll` | pkg/metric/cluster_controller.go:71-149 | over any run each rendering is of the sinks of its moment, with the same defaults throughout |
| `MetricClusterController.SinksAreTheStore` | pkg/metric/cluster_controller.go:145-149 | over every faithful stream the sinks kept are exactly those in the informer's store |
| `MetricController.Controller.OnAdd` | pkg/metric/controller.go:68-99 | creates role, role binding, config map and deployment in that order and stops at the first failure |
| `MetricController.Controller.OnUpdate` | pkg/metric/controller.go:101-131 | for a changed spec updates the config map and then deletes the pods, stopping at a failure |
| `MetricController.Controller.OnDelete` | pkg/metric/controller.go:133-163 | deletes config map, deployment, role binding and role in that order and stops at the first failure |
| `MetricController.BuildConfig` | pkg/metric/controller.go:301-316 | fills the tables in place so that each type has the sink's own plugins of that type in order, prometheus the one watching the namespace's pods in front, and nothing else; the discard configuration results if and only if no output names a type |
| `MetricLifecycle.OthersAreUntouched` | pkg/metric/controller.go:68-188 | no call of a handler touches a resource of another sink |
| `MetricLifecycle.EveryMomentIsOrdered` | pkg/metric/controller.go:68-163 | between any two calls of any run with any failures, config map and deployment imply role binding, which implies role, and the references between them resolve |
| `MetricLifecycle.CreatedRoleMeansNoCollision` | pkg/metric/controller.go:68-99 | once the role is created, the handler's later creations can only fail by being unavailable |
| `MetricLifecycle.StuckForever` | pkg/metric/controller.go:68-163 | no later handler ever changes a resource of a sink with a role and no config map |
| `MetricLifecycle.StuckMeansFinal` | pkg/metric/controller.go:68-163 | and such sinks are the only ones of which that is true: in any other state some handler changes one of its resources |
| `MetricLifecycle.StuckExactlyAfter` | pkg/metric/controller.go:68-163 | whatever resources exist, as long as their order holds, a handler leaves its sink so if and only if it found it so, or is an addition that stops in its second or third call or a deletion that stops behind its first |
| `MetricLifecycle.StuckExactlyInRun` | pkg/metric/controller.go:68-163 | in any run from an empty cluster a sink is stuck if and only if one of its handlers so far stopped there |
| `MetricLifecycle.AnsweredHandlerSticksExactly` | pkg/metric/controller.go:133-163 | if no call is unavailable this happens if and only if a sink is deleted whose config map exists and whose deployment does not |
| `MetricLifecycle.DeploymentLacksConfigMapExactly` | pkg/metric/controller.go:133-163 | a handler leaves a deployment without its config map if and only if it found it so, or is a deletion that stops at an existing deployment |
| `MetricLifecycle.DeploymentCanLackConfigMap` | pkg/metric/controller.go:133-163 | which one failed call brings about |
| `MetricLifecycle.DeliverAll` | pkg/metric/controller.go:68-163 | the controller's methods, called for any notifications, make the runs the lemmas are about |
| `MetricMirror.ClusterMirrorsSinks` | pkg/metric/controller.go:68-188 | if no call is unavailable the cluster holds exactly the four objects of each live sink, whole: three as they were created, and the config map of the object it was last written from, which has the latest spec |
| `MetricMirror.LatestSpecIsConfigured` | pkg/metric/controller.go:165-184 | so every live sink's config map holds, type by type, the plugins of its latest spec, although updates with an equal spec are skipped |
| `MetricMirror.LiveSinkObjects` | pkg/metric/controller.go:165-316 | every live sink's objects have its name behind `telegraf-` as name and label, its own name and uid as owner, and refer to each other |
| `MetricMirror.PodsAreDeletedExactly` | pkg/metric/controller.go:101-131 | whatever fails, pods are deleted only by an update, only after the config map holds the new spec's configuration, and only those of that sink |
| `MetricMirror.SpecChangeRestartsPods` | pkg/metric/controller.go:101-131 | if no call is unavailable a change of spec deletes the pods with the label of the sink's deployment, and an equal spec does nothing |
| `MetricMirror.OwnersExactly` | pkg/metric/controller.go:101-116 | the config map is that of the last addition or change of spec and is owned by its object, under the default type only in the case of an addition, so its owner has a kind and a version if and only if that object had or was given them; the other owners always have |
| `MetricMirror.UpdatedOwnerCanLackKind` | pkg/metric/controller.go:116-116 | an update whose object has no kind leaves a config map whose owner has none, although nothing fails |
| `MetricMirror.AnsweredRunExists` | pkg/metric/controller.go:68-163 | for any notifications there is a run in which no call is unavailable |
| `MetricMirror.ConfigFallsBackExactly` | pkg/metric/controller.go:301-316 | a sink's own configuration is the discard one if and only if it has no typed output |
| `Admission.AdmitsExactly` | pkg/webhook/server.go:190-233 | a log sink is admitted if and only if it is a TLS syslog sink with a host and a port from 1 to 65535 or a webhook sink with an https URL, and an update keeps the type |
| `Admission.ReviewsExactly` | pkg/webhook/server.go:190-206 | which reviews get no verdict, and that an update is denied for changing the type before anything else is looked at |
| `Admission.DenialsExactly` | pkg/webhook/server.go:208-228 | which message a denied sink gets, by its type and what is wrong with it |
| `Admission.FourRepairsSuffice` | pkg/webhook/server.go:208-228 | denials are enough to go by: changing only the field each one names, to what an admitted sink of the type has, leads to admission in at most four rounds |
| `Admission.FourRepairsCanBeNeeded` | pkg/webhook/server.go:208-228 | a sink of no type with every other field wrong needs all four |
| `Admission.UpdatableExactly` | pkg/webhook/server.go:198-228 | some update of a sink can be admitted if and only if the sink is of one of the two types |
| `Admission.TypeNeverChanges` | pkg/webhook/server.go:198-206 | along any chain of accepted requests the type stays that of the first, and every version is secure |
| `AdmittedSinks.AdmittedStreamIsSecure` | pkg/sink/controller.go:42-113 | if every sink an informer adds or updates to was accepted, the registry holds only TLS syslog sinks with a proper port and https webhooks |
| `AdmittedSinks.EverySectionIsSecure` | pkg/sink/config.go:114-272 | every section that should be read back from such a registry, if it is not empty, has a TLS configuration and a port from 1 to 65535, or TLS on and a port |
| `AdmittedSinks.AgentsReadSecureSectionsExactly` | pkg/sink/config.go:84-272 | of registries of accepted sinks, at least one, the agents read the sinks' own sections, all encrypted, if and only if no rendered field holds a newline or begins with a blank |
| `AdmittedSinks.AdmittedHostCanSplitSection` | pkg/webhook/server.go:213-215 | admission does not give that: a host with newlines in it is admitted and is read back as two outputs, the first without TLS |
| `MetricAdmission.CheckMetricSink` | pkg/webhook/server.go:240-260 | the loops report the error of the first bad input, or else of the first bad output, or none |
| `MetricAdmission.ErrorsExactly` | pkg/webhook/server.go:240-260 | which message a bad entry gets: no type, a type that is no string, or, for an input, the kubernetes type |
| `MetricAdmission.KubernetesIsDefaultExactly` | pkg/webhook/server.go:248-250 | the collected kubernetes inputs are the default ones if and only if no sink has an input of that type |
| `MetricAdmission.NoneSkipped` | pkg/metric/cluster_config.go:111-140 | aggregation skips no entry of a list if and only if every entry has a string type |
| `MetricAdmission.AdmittedSinksArriveExactly` | pkg/metric/cluster_config.go:42-56 | of admitted sinks every entry arrives, with exactly the default kubernetes inputs, if and only if some sink has an output and there is a default or some sink has an input; otherwise the discard configuration is rendered |
| `MetricAdmission.AdmittedFallBackExactly` | pkg/metric/cluster_config.go:42-56 | every rendering of admitted sinks is the discard configuration if and only if there is no input at all or no sink has an output |
| `MetricAdmission.InputOnlySinkVanishes` | pkg/webhook/server.go:240-260 | a sink with an input and no output passes the loops, and every rendering of it is the discard configuration, without the kubernetes defaults |

## Left out

- Line and column numbers, and the text of log messages: nothing depends on them.
- Letters and numbers: which code points are letters and numbers is a parameter; the Unicode tables are not part of this model.
- URLs: `url.Parse` is an arbitrary total function; percent-decoding and validation are not modelled.
- `SinkOrder.Sort`: `sort.Slice` is any sorted permutation; the model's own insertion sort is only one of them.
- `AdmittedSinks.EverySectionIsSecure`: assumes that a URL text beginning with https:// parses, if it does, to that scheme.
- `MetricConfig.TelegrafConfig.String`: yields the tables, not their TOML text; an encoder failure, which gives an empty text, is not modelled.
- `MetricAdmission.CheckMetricSink`: only the two loops; running `telegraf --test` on the result is not part of this model.
- Handlers: one handler in flight for each controller, as each informer delivers its notifications one after the other.
- `SinkControllers.Agents.PatchConfig`: records what is sent; whether the API server accepts it is not modelled, as the code only logs failures.
- `MetricController.Api.Invoke`: a call that fails has no effect, and nobody else changes the four resources; garbage collection through owner references is not modelled.
- `MetricMirror.UpdatedOwnerCanLackKind`: takes it that the API server accepts an owner reference without a kind. One that refuses it is the reply `Unavailable` of the model, after which the config map keeps the old spec until a later update is accepted.
- `MetricController.Controller.OnAdd`: `setDefaultTypeMeta` writes into the informer's cached object; the model computes a defaulted copy.
- `MetricController.ObjectOf`: of a pod template only the mounted config map is kept; labels, rules and images that no code reads are dropped.
- Pointer sharing between informer caches and the log sink registry: sinks are stored as values.
- Tombstones and objects of another type in notifications: the handlers ignore them.
- JSON encoding of patches, except the two forms of the TLS configuration.
- The event forwarder, the generated clients, the command-line programs and the HTTP server: they would only add easy members.
