# kubernetes-metrics-api in Dafny

This project models the core of kubernetes-metrics-api, a small HTTP service.
The service lists the objects of a Kubernetes cluster and answers with a JSON
snapshot of counts. It also keeps a set of Prometheus gauges up to date. The
model covers these parts:

- **The snapshot pass** of `internal/handlers` (`Handlers`, `HandlerProperties`, `PassProperties`).
  - The pass makes five listings, in the order nodes, pods, namespaces, deployments, services.
  - Each listing is an input of type `Result<seq<T>, string>`.
  - The pass folds the listings into a `ClusterMetrics` body: five counts and a phase → count map.
  - It rewrites sixteen gauges, stage by stage. A labelled family is a `map<seq<string>, real>`: `Reset` empties it, `Set` overwrites one tuple, `Inc` adds one.
  - The first failed listing answers 500 with the error text. Gauges written by earlier stages keep their new values.
- **The collector catalogue** of `internal/metrics` (`Registry`).
  - It has sixteen names and their label lists.
  - A process-wide registry binds each name to its first owner.
  - Registration ignores refusals, so a second construction is harmless.
- **The bearer check** of `internal/middleware` (`Middleware`), built on Go's `strings.Split` and `strings.ToLower`, modelled in `Text`.
- **Start-up configuration** of `internal/config` (`Config`): the port default and the trimmed, non-empty token (`strings.TrimSpace` is in `Text`).
- **How `cmd/main.go` wires them** (`Server`): the configured token guards the protected routes.
- **The single-file program `main.go`**, which the internal packages replaced (`LegacyMain`, `LegacyMetrics`). It has:
  - a gate with three refusal messages;
  - a JSON handler with four listings and a node-status family labelled by (name, status);
  - a refresh that carries on past a failed listing;
  - `MustRegister` at start-up;
  - a start-up token check. This check has the defect listed under Findings.

The pass is taken apart in two steps:

- `PassProperties.PassRead` reduces a pass, whichever listing it stopped at, to each stage run alone on the collectors it owns.
- The `HandlerProperties` lemmas relate each stage to a definition written independently of it:
  - `CountIn` and `CountPhase` count pods;
  - `Total` sums container quantities;
  - `RestartKey` and `DeploymentListed` say which tuples a family should hold.

Elsewhere:

- `AuthorizedIff` describes the accepted headers.
- `TrimSpaceUnique` characterises the trimmed string.

## Model

| member | source | states |
|---|---|---|
| Http.Error | internal/middleware/auth.go:17 | `http.Error` answers with the given status and a body of the message followed by one newline |
| Cluster.ReadyScan | internal/handlers/handlers.go:54-60 | the condition scan stops at the first Ready/True condition and no earlier condition is Ready/True |
| Cluster.IsReadyIff | internal/handlers/handlers.go:54-60 | a node is ready exactly when some condition of it has type Ready and status True, wherever it sits |
| Gauges.Reset | internal/handlers/handlers.go:52 | a reset family holds no series |
| Gauges.Inc | internal/handlers/handlers.go:82 | `Inc` creates a missing tuple at zero and adds one to it; every other series is unchanged |
| Gauges.LastWriteSpec | internal/handlers/handlers.go:61-63 | a tuple has a last write exactly when some write names it, and a write that no later write overrides is the one kept |
| Gauges.Apply | internal/handlers/handlers.go:61-63 | after a sequence of `Set` calls, a tuple is present iff it was present or written; a written tuple holds its last written value, any other its old value |
| Gauges.ApplyArity | internal/handlers/handlers.go:61-63 | writes whose tuples have the family's label count keep every tuple at that count |
| Gauges.ApplyIdempotent | internal/handlers/handlers.go:61-63 | repeating the same sequence of `Set` calls changes nothing |
| Gauges.IncAll | internal/handlers/handlers.go:79-82 | after a sequence of `Inc` calls every tuple is its old value plus the number of times it was named, and exactly the named tuples are added |
| Gauges.IncAllArity | internal/handlers/handlers.go:79-82 | increments of tuples of the family's label count keep every tuple at that count |
| Registry.Position | internal/metrics/prometheus.go:50-55 | every field of the struct appears in the registration list |
| Registry.NameIdentifiesField | internal/metrics/prometheus.go:32-47 | each field's exported name reads back as that field, so no two fields share a name |
| Registry.NamesDiffer | internal/metrics/prometheus.go:32-47 | two different fields have different exported names |
| Registry.CatalogueDistinct | internal/metrics/prometheus.go:31-55 | the constructor registers sixteen collectors, one per field, with sixteen distinct names |
| Registry.LabelArities | internal/metrics/prometheus.go:32-47 | the five counts have no label; node families have `node`; PodStatus has `namespace, phase`; deployment families have `namespace, deployment`; restarts have three labels; namespace resource families have `namespace` |
| Registry.Register | internal/metrics/prometheus.go:57 | a taken name is refused with its current owner and the registry is unchanged; a free name is bound to the new collector |
| Registry.RegisterAll | internal/metrics/prometheus.go:56-58 | registering a list with refusals dropped binds exactly the old names and the list's names, and never rebinds an old name |
| Registry.RegisterAllOwner | internal/metrics/prometheus.go:56-58 | a collector whose name was free, and not taken by an earlier one in the list, ends up owning it |
| Registry.Collectors | internal/metrics/prometheus.go:31-55 | the constructor builds sixteen collectors; each field's collector sits at that field's place in the registration list, and no two share a name, so no collector of one call is refused because of another of the same call |
| Registry.NewPrometheusMetrics | internal/metrics/prometheus.go:30-61 | every field of the returned struct is set; afterwards all sixteen names are registered, old owners are kept, and free names go to the new collectors |
| Registry.CatalogueNamesBound | internal/metrics/prometheus.go:50-58 | construction binds exactly the previously bound names plus the sixteen catalogue names |
| Registry.CatalogueOwners | internal/metrics/prometheus.go:50-58 | construction keeps every existing owner and gives each free catalogue name to the new collector |
| Registry.ConstructTwice | internal/metrics/prometheus.go:56-58 | constructing twice succeeds; the second struct is fully set, the registry is left as the first call made it, and each name stays with the first call's collector |
| Registry.SecondRegistrationKeeps | internal/metrics/prometheus.go:57 | constructing against a registry that holds every catalogue name leaves it unchanged |
| Handlers.FirstFailure | internal/handlers/handlers.go:46-143 | the first kind, in listing order, whose listing failed, or none when all succeeded |
| Handlers.MetricsJSONHandler | internal/handlers/handlers.go:41-148 | the pass answers JSON iff no listing fails; otherwise 500 with the first failed listing's error text; on success each count is its listing's length and the timestamp is the supplied clock reading |
| HandlerProperties.NodeKeyedWrites | internal/handlers/handlers.go:53-63 | node-keyed writes name exactly the one-label tuples of listed node names; the last node of a name gives the kept value |
| HandlerProperties.NodeReadyExact | internal/handlers/handlers.go:52-61 | after the node stage NodeReady holds exactly the listed node names, worth 1 for a ready node and 0 otherwise |
| HandlerProperties.NodeKeyedApply | internal/handlers/handlers.go:62-63 | node-keyed writes on a family that is not reset add the listed names and keep every other series |
| HandlerProperties.CpuAllocatableNeverPruned | internal/handlers/handlers.go:62 | CPUAllocatable gains the listed nodes at millicores / 1000, and keeps the series of nodes no longer listed |
| HandlerProperties.MemoryAllocatableNeverPruned | internal/handlers/handlers.go:63 | MemoryAllocatable gains the listed nodes at their byte count, and keeps the series of nodes no longer listed |
| HandlerProperties.TallyCounts | internal/handlers/handlers.go:74-81 | the phase map has a key exactly for the phases some pod is in, and each value is the number of pods in that phase |
| HandlerProperties.SumValuesRemove | internal/handlers/handlers.go:74 | the sum of a map's values does not depend on the key taken out first |
| HandlerProperties.TallySumsToPodCount | internal/handlers/handlers.go:74-81 | the values of the phase map add up to the number of pods |
| HandlerProperties.PhaseKeysCount | internal/handlers/handlers.go:82 | the number of increments of (ns, phase) is the number of pods of `ns` in `phase` |
| HandlerProperties.PhaseCountValues | internal/handlers/handlers.go:72-82 | after reset and increments, PodStatus{ns, phase} is the number of pods of `ns` in `phase` |
| HandlerProperties.PhaseCountKeys | internal/handlers/handlers.go:72-82 | after reset and increments, PodStatus has a series exactly for the (namespace, phase) pairs some pod has |
| HandlerProperties.PodStatusCounts | internal/handlers/handlers.go:72-82 | after the pod stage PodStatus counts the pods per (namespace, phase) and holds no other series |
| HandlerProperties.RestartWritesMembers | internal/handlers/handlers.go:83-85 | the pod loop writes exactly one restart count per (pod, container status) pair |
| HandlerProperties.RestartKeyWritten | internal/handlers/handlers.go:83-85 | a (namespace, pod, container) tuple is a restart key iff some write of the loop names it |
| HandlerProperties.RestartFamily | internal/handlers/handlers.go:73-85 | restart writes on an empty family give exactly the restart keys, each holding its last written count |
| HandlerProperties.RestartsExact | internal/handlers/handlers.go:73-85 | after the pod stage ContainerRestarts holds exactly the (namespace, pod, container) tuples of the listed statuses, each with the last written count |
| HandlerProperties.AddContainersSpec | internal/handlers/handlers.go:86-99 | folding one pod's containers adds to its namespace's entry the sum of the declared quantities, creates the entry only if some container declares the resource, and leaves other namespaces alone |
| HandlerProperties.SumsSpec | internal/handlers/handlers.go:75-100 | a namespace has an entry in a resource map iff one of its containers declares the resource, and the entry is the total over all its pods' containers |
| HandlerProperties.SumsKeys | internal/handlers/handlers.go:75-100 | the entries of a resource map are exactly the namespaces with a declaring container |
| HandlerProperties.SumsTotals | internal/handlers/handlers.go:75-100 | each entry of a resource map is the namespace's total of declared quantities |
| HandlerProperties.ContainerTotalZero | internal/handlers/handlers.go:87-98 | containers that declare nothing contribute nothing |
| HandlerProperties.ZeroWithoutDeclaration | internal/handlers/handlers.go:87-98 | a namespace none of whose containers declares the resource totals zero |
| HandlerProperties.NamespaceFamilySpec | internal/handlers/handlers.go:101-116 | a family set from a map has one single-label series per entry, holding the entry's value |
| HandlerProperties.NamespaceResources | internal/handlers/handlers.go:75-116 | after the pod stage each resource family has a series for a namespace iff a container of it declares the resource, worth the namespace's total |
| HandlerProperties.PairKeyedWrites | internal/handlers/handlers.go:133-136 | deployment-keyed writes on an empty family give exactly the listed (namespace, name) pairs, the last deployment of a pair giving the value |
| HandlerProperties.DeploymentsExact | internal/handlers/handlers.go:131-136 | after the deployment stage both deployment families hold exactly the listed (namespace, name) pairs, with that deployment's desired and available replicas |
| PassProperties.StageFrame | internal/handlers/handlers.go:46-143 | a stage leaves every collector owned by another stage as it found it |
| PassProperties.StageLocal | internal/handlers/handlers.go:46-143 | what a stage writes into its collector depends only on the listing and that collector's old value |
| PassProperties.StageIdempotent | internal/handlers/handlers.go:46-143 | running a stage twice on the same listing is the same as running it once |
| PassProperties.StopsAtNodes | internal/handlers/handlers.go:46-50 | a failed node listing leaves every gauge unchanged |
| PassProperties.StopsAtPods | internal/handlers/handlers.go:66-70 | a failed pod listing leaves the gauges as the node stage alone would |
| PassProperties.StopsAtNamespaces | internal/handlers/handlers.go:118-122 | a failed namespace listing leaves the gauges as the node and pod stages left them |
| PassProperties.StopsAtDeployments | internal/handlers/handlers.go:125-129 | a failed deployment listing leaves the gauges as the first three stages left them |
| PassProperties.StopsAtServices | internal/handlers/handlers.go:138-142 | a failed service listing leaves the gauges as the first four stages left them |
| PassProperties.RunsToEnd | internal/handlers/handlers.go:46-143 | a pass whose listings all succeed runs the five stages in order |
| PassProperties.RepliesOnSuccess | internal/handlers/handlers.go:145 | a pass whose listings all succeed answers the five counts, the phase tally and the clock reading |
| PassProperties.Extend | internal/handlers/handlers.go:46-143 | running the next stage extends by one the prefix of stages a collector reflects |
| PassProperties.PassRead | internal/handlers/handlers.go:46-143 | after any pass, a collector whose stage completed holds what that stage alone writes from the old value, and any other collector keeps its old value |
| PassProperties.PassStaged | internal/handlers/handlers.go:46-143 | the same for all sixteen collectors at once |
| PassProperties.SecondPassRead | internal/handlers/handlers.go:46-143 | a collector two passes over the same listings both leave as staged is unchanged by the second |
| PassProperties.PassIdempotent | internal/handlers/handlers.go:46-143 | a second scrape of an unchanged cluster leaves every gauge as the first left it, whether the first succeeded or stopped |
| PassProperties.ReplyIgnoresGauges | internal/handlers/handlers.go:46-148 | the answer depends only on the listings and the clock: the same error, or the same snapshot with the new timestamp |
| PassProperties.PhasesSumToPodCount | internal/handlers/handlers.go:71-81 | in a successful answer the phase tallies add up to the pod count, and each phase counts exactly its pods |
| PassProperties.PodStatusPruned | internal/handlers/handlers.go:72-82 | once the pod stage ran, PodStatus holds only pairs some listed pod has, each with its pod count; pairs of departed pods are dropped |
| PassProperties.StageShaped | internal/metrics/prometheus.go:37-47 | a stage writes into its families only tuples of the declared label count |
| PassProperties.PassWellShaped | internal/metrics/prometheus.go:37-47 | a pass keeps every family at its declared label count |
| PassProperties.FreshWellShaped | internal/metrics/prometheus.go:31-48 | freshly built collectors are well shaped |
| PassProperties.PassNodeReady | internal/handlers/handlers.go:52-61 | once the node stage ran, NodeReady holds exactly the readiness writes of the listed nodes, whatever it held before |
| PassProperties.PassPodStatus | internal/handlers/handlers.go:72-82 | once the pod stage ran, PodStatus holds exactly the increments of the listed pods, whatever it held before |
| PassProperties.EmptyCluster | internal/handlers/handlers_test.go:116-123 | an empty cluster answers zero counts and an empty phase map, and fresh collectors stay as they were |
| PassProperties.OneOfEachReply | internal/handlers/handlers_test.go:86-168 | one ready node, one running pod, one namespace and one service answer counts 1, 1, 0, 1, 1 and phases {Running: 1} |
| PassProperties.OneOfEachNodeReady | internal/handlers/handlers_test.go:86-97 | in that scenario NodeReady is {node1: 1} |
| PassProperties.OneOfEachPodStatus | internal/handlers/handlers_test.go:98-104 | in that scenario PodStatus is {(default, Running): 1} |
| Middleware.AuthMiddleware | internal/middleware/auth.go:13-20 | the wrapped handler runs iff the header is accepted, and its answer is returned; otherwise 401 "unauthorized\n" |
| Middleware.AuthorizedIff | internal/middleware/auth.go:13-15 | a header is accepted exactly when it is a case variant of "bearer", one space and the expected token, and the token has no space |
| Middleware.AuthorizedShape | internal/middleware/auth.go:14-15 | an accepted header is a spelling of the scheme, one space and the token |
| Middleware.ShapeAuthorized | internal/middleware/auth.go:14-15 | a spelling of the scheme, one space and a space-free token is accepted |
| Middleware.AcceptsBearerToken | internal/middleware/auth.go:14-15 | "Bearer " and "bearer " followed by a space-free token are accepted |
| Middleware.TokenWithSpaceNeverAccepted | internal/middleware/auth.go:14-15 | a configured token containing a space can never be presented |
| Middleware.RejectsMissingHeader | internal/middleware/auth.go:13-15 | an absent header splits into one part and is refused |
| Middleware.RejectsWithoutSpace | internal/middleware/auth.go:14-15 | a header without a space is one part and is refused |
| Middleware.SchemeOnlyHeader | internal/middleware/auth.go:14-15 | a scheme followed by a single space carries the empty token and is accepted only for an empty expected token |
| Middleware.EmptyTokenHeader | internal/middleware/auth_test.go:55-61 | "Bearer " is accepted iff the expected token is empty |
| Middleware.RejectsDoubleSpace | internal/middleware/auth.go:14-15 | two spaces between scheme and token give three parts and are refused |
| Middleware.TokenAfterScheme | internal/middleware/auth.go:14-15 | since the scheme has a fixed length, two headers with scheme spellings are equal only with the same token |
| Middleware.RejectsOtherToken | internal/middleware/auth_test.go:41-47 | "Bearer " followed by a token other than the expected one is refused |
| Middleware.TestValidToken | internal/middleware/auth_test.go:27-33 | the test's valid header runs the wrapped handler and returns its answer |
| Middleware.TestRejected | internal/middleware/auth_test.go:34-61 | the test's four rejected headers each get 401 "unauthorized\n" |
| Config.MissingTokenText | internal/config/config.go:25-43 | a blank token variable makes `New` fail, and the error's text is "EXPECTED_AUTH_TOKEN não definido" |
| Config.New | internal/config/config.go:18-38 | fails with ErrMissingAuthToken iff the token variable is only white space; otherwise the port is PORT or "8080" and the token is non-empty with no white space at either end |
| Config.TokenIsTrimmed | internal/config/config.go:24 | the stored token is a slice of the variable with only white space cut from each end |
| Config.TokenStable | internal/config/config.go:24-27 | feeding the stored token back in gives the same configuration |
| Config.PaddingIgnored | internal/config/config.go:24 | white space added around the variable does not change the configuration |
| Server.Protected | cmd/main.go:35-40 | a protected route either returns the handler's answer or a 401 |
| Server.ConfiguredTokenUsable | cmd/main.go:20-35 | a started server can be passed with some header iff the configured token has no space |
| Server.RefusesEmptyBearer | cmd/main.go:20-35 | a started server never lets "Bearer " through |
| Text.Split | internal/middleware/auth.go:14 | the number of parts is the number of separators plus one, no part contains the separator, and joining the parts gives the input back |
| Text.SplitNoSeparator | internal/middleware/auth.go:14 | a string without the separator splits into itself |
| Text.SplitAfterFirstPart | internal/middleware/auth.go:14 | a separator-free prefix and a separator split off as the first part |
| Text.SplitJoin | internal/middleware/auth.go:14 | splitting undoes joining when no part contains the separator |
| Text.SplitTwoParts | internal/middleware/auth.go:14-15 | there are exactly two parts iff the string is two separator-free strings around one separator |
| Text.ToLower | internal/middleware/auth.go:15 | lower-casing keeps the length and maps every character through the ASCII lower-case map |
| Text.LowerEqualsWord | internal/middleware/auth.go:15 | the lower-cased string equals a lower-case word iff it spells that word with each letter in either case |
| Text.LowerCharInverse | internal/middleware/auth.go:15 | a character lower-cases to a small letter iff it is that letter or its capital |
| Text.LeadingSpace | internal/config/config.go:24 | counts the white space the string starts with, stopping at the first other character |
| Text.TrailingSpace | internal/config/config.go:24 | finds where the white space the string ends with begins |
| Text.TrimSpace | internal/config/config.go:24 | the trimmed string is no longer than its input and neither starts nor ends with white space |
| Text.TrimSpaceEmpty | internal/config/config.go:24-25 | trimming gives the empty string exactly when the input is only white space |
| Text.TrimSpaceBounds | internal/config/config.go:24 | the trimmed string is a slice of the input whose cut-off parts are white space |
| Text.TrimSpaceOfTrimmed | internal/config/config.go:24 | a string with neither end white space is its own trimmed form |
| Text.TrimSpaceIdempotent | internal/config/config.go:24 | trimming twice trims nothing more |
| Text.TrimSpaceUnique | internal/config/config.go:24 | any slice with white-space cut-offs and non-space ends is the trimmed string |
| Text.TrimSpaceOfPieces | internal/config/config.go:24 | white space, a middle with non-space ends, and white space trims to the middle |
| Text.TrimSpacePieces | internal/config/config.go:24 | every string is white space, its trimmed form, and white space |
| Text.TrimSpacePadded | internal/config/config.go:24 | white space added on both sides is trimmed away |
| LegacyMain.Authenticate | main.go:141-168 | the handler runs iff the header is present, well formed and carries the expected token; otherwise 401 with the message for the first check that failed: missing, malformed, or wrong token |
| LegacyMain.SameAcceptance | main.go:141-168 | the program's gate and the middleware package let exactly the same requests through, both refusing with 401 |
| LegacyMain.RefusalMessages | main.go:144-163 | every refusal is a 401 with exactly one of the three messages |
| LegacyMain.LegacyStartupToken | main.go:303-309 | as written: start-up exits only on an empty variable, and the stored token is empty iff the variable is only white space |
| LegacyMain.BlankTokenOpensGate | main.go:303-309 | as written: the variable " " starts the server with the empty token, and "Bearer " is then let in |
| LegacyMain.StartupToken | main.go:303-309 | corrected: start-up refuses exactly the all-white-space variables, and the stored token is non-empty with no white space at either end |
| LegacyMain.StartupTokenMatchesConfig | internal/config/config.go:24-27 | the corrected read refuses and stores exactly what the configuration package does |
| LegacyMain.StartedServerRefusesEmptyBearer | main.go:303-309 | corrected: a server that started never lets "Bearer " in |
| LegacyMain.ReadsDifferOnlyOnBlank | main.go:303-309 | the as-written and corrected reads differ exactly on non-empty variables of only white space |
| LegacyMain.ListenAddress | main.go:386-395 | the address is ":" followed by a non-empty port, which is PORT itself when PORT is set |
| LegacyMain.ListenAddressMatchesConfig | cmd/main.go:72 | the program and the configuration package listen on the same port, "8080" when PORT is empty |
| LegacyMetrics.Status | main.go:221-229 | the status is "Ready" exactly for a ready node and "NotReady" otherwise |
| LegacyMetrics.MetricsJSON | main.go:203-284 | answers JSON iff all four listings succeed; otherwise 500 with the first failed kind's message and the error text; on success the counts are the listing lengths and the nodes appear in listing order with their status |
| LegacyMetrics.Refresh | main.go:332-377 | every answered listing sets its count, and an answered node listing resets and rewrites the node-status family (described by `NodeStatusExact`), whatever the other listings did; a failed listing leaves its own gauges unchanged |
| LegacyMetrics.HandlerIsRefreshOfReached | main.go:332-377 | the JSON handler leaves the gauges exactly as a refresh over the listings it reached before stopping |
| LegacyMetrics.RefreshAgreesWithHandler | main.go:336-375 | with every listing answered, a refresh and a JSON request leave the same gauges |
| LegacyMetrics.RefreshToleratesWhatHandlerDoesNot | main.go:336-361 | after a failed node listing the refresh still updates the pod count, while the JSON handler changes nothing |
| LegacyMetrics.RefreshIdempotent | main.go:332-377 | refreshing twice from the same listings changes nothing more |
| LegacyMetrics.NodeStatusExact | main.go:216-240 | after the node stage the status family holds exactly the (name, status) pairs of the listed nodes, worth 1 iff the status is "Ready" |
| LegacyMetrics.StatusKey | main.go:239 | a status series is written exactly for the (name, status) pairs of the listing |
| LegacyMetrics.LastIndex | main.go:220-240 | a tuple that was written has a last write, whose value it keeps |
| LegacyMetrics.JsonAgreesWithGauges | main.go:216-276 | every node entry of the body names a series of the status family, worth 1 iff its status is "Ready", and the node gauge equals the body's node count |
| LegacyMetrics.SuccessfulPass | main.go:216-276 | a successful pass lists every node in the body and leaves the node gauges as the node stage writes them |
| LegacyMetrics.InfosInFamily | main.go:230-239 | each node's body entry and its status series carry the same name and status |
| LegacyMetrics.MustRegisterAll | main.go:99-104 | `MustRegister` succeeds iff every name is free and distinct from the earlier ones, and then binds them as plain registration does |
| LegacyMetrics.InitPrometheusOnce | main.go:99-104 | start-up registration succeeds on a registry without the names, and a second run fails |

## Left out

- Kubernetes client I/O (`internal/k8s`, `initKubeClient`, kubeconfig loading): listings are inputs, each one either objects or an error message.
- Context timeouts, logging (`slog`, `LoggingMiddleware`, `loggingMiddleware`), the `Logger` field of the configuration, and the unused flag parse of `config.New`.
- The clock: `time.Now()` is the `now` parameter of the handlers.
- JSON encoding, the `Content-Type` header and the encoder's error path (main.go:279-282); the Prometheus exposition format and `promhttp`.
- `HealthCheckHandler`, `healthCheckHandler`, the Swagger routes and the HTML page of `cmd/main.go`: these are plumbing.
- Concurrency: the refresh goroutine of main.go runs concurrently with the exposition handler. Only its sequential body is modelled (`LegacyMetrics.Refresh`). The client library's locking is not modelled.
- `float64`: gauge values are exact `real`s. CPU is millicores / 1000 and memory is bytes, with no rounding.
- `resource.Quantity`: parsing, `MilliValue`/`Value` and `String()` are not modelled. Quantities are integers, and `LegacyMetrics.NodeInfo` keeps the allocatable numbers rather than their formatted strings.
- Prometheus label validation and the panic `WithLabelValues` raises on a wrong label count. The model only proves that every write has the declared count (`PassProperties.PassWellShaped`).
- Handlers.MetricsJSONHandler: requires that every deployment of a reached deployment listing has `spec.replicas` set. The source dereferences it unchecked and would panic (handlers.go:134).
- Text.ToLower: maps only ASCII capitals, while Go's `strings.ToLower` covers all of Unicode. This is weaker only for non-ASCII headers, which can never equal "bearer" in either model.
- Text.TrimSpace: the white-space set is `unicode.IsSpace` (the Latin-1 spaces plus Unicode White_Space). Invalid UTF-8 is not modelled, because strings are sequences of characters.
- The distinction between a nil map and an empty one: `podPhases` is always a map, which matches the source's `map[string]int{}`.
- Helpers that only compute have no row of their own. The lemmas named with each one below state what it computes:
  - Handlers.BoolToFloat (handlers.go:156-161): stated by `HandlerProperties.NodeReadyExact` (1 for a ready node, 0 otherwise).
  - Handlers.NodeStage (handlers.go:51-64): stated by `HandlerProperties.NodeReadyExact`, `CpuAllocatableNeverPruned` and `MemoryAllocatableNeverPruned`.
  - Handlers.PodStage (handlers.go:71-116): stated by `HandlerProperties.PodStatusCounts`, `RestartsExact` and `NamespaceResources`.
  - Handlers.NamespaceStage, Handlers.ServiceStage (handlers.go:118-123, 138-143): each sets one count. `PassProperties.RepliesOnSuccess` and `PassRead` state the counts and when the stages run.
  - Handlers.DeploymentStage (handlers.go:125-136): stated by `HandlerProperties.DeploymentsExact`.
  - Handlers.Tally (handlers.go:74-81): stated by `HandlerProperties.TallyCounts` and `TallySumsToPodCount`.
  - Handlers.ReadyWrites, Handlers.Sums and the other write sequences: stated by the stage lemmas above.
  - LegacyMetrics.NodeUpdate (main.go:216-240): stated by `LegacyMetrics.NodeStatusExact`.
  - Config.Error (config.go:43): its text is stated by `Config.MissingTokenText`.

## Findings

| source | as written | input that shows it | evidently intended | confidence | as-written member | corrected member |
|---|---|---|---|---|---|---|
| main.go:303-309 | the token variable is checked for emptiness and only then trimmed, so a variable of only white space passes the check and the server starts with the empty token | EXPECTED_AUTH_TOKEN=" " (one space): the server starts with the empty token, and `authMiddleware` called with the header "Bearer " lets it in. Over HTTP/1.x the header parser drops the trailing space, so such a request arrives as "Bearer" and is refused; the defect is the start-up accepting a blank token | trim first and refuse an empty result, as `internal/config/config.go:24-27` does | not executed | LegacyMain.LegacyStartupToken, LegacyMain.BlankTokenOpensGate | LegacyMain.StartupToken, LegacyMain.StartedServerRefusesEmptyBearer |
