# kgateway listener translation, AI prompt templates and gateway extensions in Dafny

This project models three pieces of kgateway, the Kubernetes Gateway-API
implementation that programs Envoy, and proves properties of them.

1. **Gateway listener translation** (`gateway_listener_translator.go`).
   - Validated Gateway-API listeners are merged by port into merged listeners (`listener~{port}`): one shared plaintext HTTP filter chain, one chain per HTTPS listener, one chain per TCP/TLS listener.
   - Each merged listener is translated into a listener IR.
   - HTTP chains bucket route rules by hostname, pick for each host the matching parent listener with the longest hostname, stably sort the rules, de-duplicate virtual hosts by sanitized name and sort them by name.
   - HTTPS chains also resolve their TLS certificate. A failure emits `ResolvedRefs=False` and `Programmed=False` listener conditions and drops the chain.
   - TCP/TLS chains use the earliest-created route only. They report `Accepted` and backend errors on its parent refs. When all TCP chains of a port fail, the whole port is marked not programmed.
2. **AI traffic-policy templates** (`ai_policy.go`).
   - The JSON-looking prefix and suffix checks.
   - The field-default templates: override or `{{ default(field, value) }}`, with the invalid-JSON error.
   - The prompt-enrichment body `[prepends, {{ join(messages, ", ") }}, appends]`, stored under `messages`.
3. **Gateway-extension configuration** (`gateway_extension.go`).
   - The enum conversions.
   - The guard ladder of gRPC service resolution.
   - The retry-policy and rate-limit filter builders.
   - The error-aware equality and validation of the extension IR.
   - The extension builder.

Status reporting is an append-only list of `Event`s returned next to each IR (`Chains.Translated`). Collaborators whose code is not part of this model are parameters:
- the route-rule translator is the `translated` rules of a `RouteInfo`;
- `SanitizeForEnvoy`, the secret query and the TLS-secret validator are functions in `Gateway.Env`;
- `GenerateRouteKey` is the listener's `routeKey`;
- `ProcessBackendError` is a `BackendError` event;
- `json.Marshal` and `json.Valid` are functions in `AiPolicy.Json`;
- the backend index is `GatewayExtension.Backends`;
- the protobuf validators are `GatewayExtension.Validators`.

Files:
- `common.dfy`: Option/Result, Go string helpers, decimal printing.
- `gateway.dfy`: input and IR datatypes, condition vocabulary.
- `hosts.dfy`: `isHostContained`.
- `merge.dfy`: listener merging.
- `rulesort.dfy`: stable rule sort and string order.
- `vhosts.dfy`: buckets, best parent, virtual hosts.
- `chains.dfy`: per-chain translation and TLS.
- `translate.dfy`: `TranslateListener` and `TranslateListeners`, as written and corrected.
- `ai_policy.dfy`: AI traffic-policy templates.
- `gateway_extension.dfy`: gateway-extension configuration.

## Model

| member | source | states |
|---|---|---|
| Hosts.IsHostContained | internal/kgateway/translator/listener/gateway_listener_translator.go:558-569 | An absent listener hostname accepts every host. A non-wildcard hostname accepts exactly itself. A host different from the listener hostname is only ever accepted through a wildcard. |
| Hosts.WildcardContainment | internal/kgateway/translator/listener/gateway_listener_translator.go:558-569 | `*.sfx` accepts exactly the literal `*.sfx` and the hosts that end in `.sfx`, whatever precedes the dot (nothing, or several labels). |
| Hosts.WildcardAcceptsSubdomain | internal/kgateway/translator/listener/gateway_listener_translator.go:558-569 | Every `x.sfx` is accepted by `*.sfx`. |
| Hosts.ApexNotInWildcard | internal/kgateway/translator/listener/gateway_listener_translator.go:558-569 | No apex domain `sfx` is contained in its own wildcard `*.sfx`. |
| Common.NatToStringInjective | internal/kgateway/translator/listener/gateway_listener_translator.go:851-854 | Decimal rendering of port numbers (`%d`) is injective, via the round trip `ParseDecimal(NatToString(n)) == n`. |
| Common.ParseNatToString | internal/kgateway/translator/listener/gateway_listener_translator.go:851-854 | Reading back the decimal rendering of a number gives the number. |
| Common.Utf8Length | internal/kgateway/translator/listener/gateway_listener_translator.go:609-612 | Go's `len` of a hostname is its UTF-8 byte count: at least the character count, and equal to it for an ASCII hostname. |
| Merge.ListenerNameInjective | internal/kgateway/translator/listener/gateway_listener_translator.go:851-854 | Two ports with the same `listener~{port}` name are the same port. |
| Merge.AppendListener | internal/kgateway/translator/listener/gateway_listener_translator.go:104-284 | Fails iff the protocol is unsupported, with `unsupported protocol: …`. A new port appends one merged listener named after the port, whose first listener and reporter are this listener, and keeps the others. That listener holds exactly this listener's chain in the list its protocol selects. An existing port changes only its merged listener, keeping its name, first listener and reporter. An HTTP listener joins the one shared chain (creating it if absent). An HTTPS listener appends its own chain to the HTTPS chains, and a TCP or TLS listener appends its own chain to the TCP chains; the other lists are kept. |
| Merge.MergeMatchesGroups | internal/kgateway/translator/listener/gateway_listener_translator.go:63-94 | The merge fold yields one merged listener per distinct supported port, in first-seen order. Each equals the reference built from the group of same-port listeners in input order. |
| Merge.ChainCounts | internal/kgateway/translator/listener/gateway_listener_translator.go:130-284 | Each merged listener is named `listener~{port}`. It has an HTTP chain iff an HTTP listener uses the port, with one parent per HTTP listener. It has one HTTPS chain per HTTPS listener and one TCP chain per TCP or TLS listener on the port. |
| Merge.PortsUnique | internal/kgateway/translator/listener/gateway_listener_translator.go:130-284 | No two merged listeners share a port. |
| Merge.QueryErrorIgnored | internal/kgateway/translator/listener/gateway_listener_translator.go:78-91 | The route query's error never changes the merge; only the listeners and their routes matter. |
| RuleSort.StableSort | internal/kgateway/translator/listener/gateway_listener_translator.go:621-622 | `sort.Stable` of a host's rules: the result is ordered by key, is a permutation, and rules with equal keys keep their relative order. |
| RuleSort.SortedUnique | internal/kgateway/translator/listener/gateway_listener_translator.go:621-622 | Two key-ordered sequences with the same rules of each key in the same order are equal, so the stable sort is uniquely determined. |
| RuleSort.StableSortIdempotent | internal/kgateway/translator/listener/gateway_listener_translator.go:621-622 | Sorting an already sorted bucket changes nothing. |
| RuleSort.StrLessTransitive | internal/kgateway/translator/listener/gateway_listener_translator.go:639-641 | The `<` order on virtual-host names is transitive. |
| RuleSort.StrLessTotal | internal/kgateway/translator/listener/gateway_listener_translator.go:639-641 | Any two distinct names are ordered one way or the other. |
| RuleSort.StrLessIrreflexive | internal/kgateway/translator/listener/gateway_listener_translator.go:639-641 | No name is below itself. |
| Vhosts.BucketsSpec | internal/kgateway/translator/listener/gateway_listener_translator.go:760-787 | `buildRoutesPerHost` puts under every host exactly the rules the reference assigns it: route by route, one copy per occurrence of the host among the route's hostnames, or `*`. A bucket exists iff the host collects some rule. |
| Vhosts.RulesForNonEmpty | internal/kgateway/translator/listener/gateway_listener_translator.go:772-784 | A host collects rules iff some route with translated rules declares it, or declares no hostname and the host is `*`. |
| Vhosts.TranslationEvents | internal/kgateway/translator/listener/gateway_listener_translator.go:766-775 | The route-rule translator is called once per route, in route order, whether or not the route yields rules. |
| Vhosts.BestFrom | internal/kgateway/translator/listener/gateway_listener_translator.go:603-619 | The parent scan finds no parent iff none matches the host. Otherwise it returns a matching parent with the longest hostname, and every earlier matching parent is strictly shorter (the first longest wins). |
| Vhosts.BestParentIff | internal/kgateway/translator/listener/gateway_listener_translator.go:603-619 | The scan returns parent `k` exactly when `k` is the best matching parent. |
| Vhosts.VirtualHostsSpec | internal/kgateway/translator/listener/gateway_listener_translator.go:621-641 | The vhosts are in strictly increasing name order. They are exactly the vhosts of the buckets that are the first to produce their sanitized name. |
| Vhosts.VirtualHostsCount | internal/kgateway/translator/listener/gateway_listener_translator.go:624-628 | When no two buckets share a vhost name, every bucket yields a vhost. |
| Vhosts.VhostsOfRoutesSorted | internal/kgateway/translator/listener/gateway_listener_translator.go:621-641 | The vhosts built from a chain's routes are in strictly increasing name order. |
| Vhosts.VhostsOfRoutesContent | internal/kgateway/translator/listener/gateway_listener_translator.go:578-641 | Each vhost belongs to a host that collects rules and is named `sanitize(parent~host)`. It holds the stably sorted rules of that host and the policies and listener of the host's best matching parent, or none if no parent matches. |
| Vhosts.VhostsOfRoutesCover | internal/kgateway/translator/listener/gateway_listener_translator.go:621-641 | Every host with rules is covered by a vhost of its name. |
| Vhosts.VhostsOfRoutes | internal/kgateway/translator/listener/gateway_listener_translator.go:578-641 | Ordering, content and coverage of a chain's vhosts together, in the form the chain lemmas use. |
| Vhosts.VhostsOfRoutesInjective | internal/kgateway/translator/listener/gateway_listener_translator.go:839-845 | With an injective sanitizer, a vhost exists for a host iff the host collects rules. |
| Vhosts.VhostsOfRoutesHostCovered | internal/kgateway/translator/listener/gateway_listener_translator.go:839-845 | With an injective sanitizer, every host that collects rules has a vhost with that very hostname. |
| Vhosts.VhostNameInjective | internal/kgateway/translator/listener/gateway_listener_translator.go:839-845 | With an injective sanitizer, `makeVhostName` is injective in the host. |
| Chains.TranslateHttpFilterChain | internal/kgateway/translator/listener/gateway_listener_translator.go:578-658 | The plaintext chain is named after the merged listener and has no SNI, no TLS and no chain policies. The route translator is called once per route of every parent, parent by parent. |
| Chains.HttpChainVhosts | internal/kgateway/translator/listener/gateway_listener_translator.go:578-658 | The plaintext chain's vhosts have the `VhostsOfRoutes` properties over the routes of all parents. |
| Chains.TranslateSslConfig | internal/kgateway/translator/listener/gateway_listener_translator.go:789-836 | No bundle iff there is no TLS block or the mode is not `Terminate`. A bundle needs exactly one certificate ref, a found and valid secret, and its bytes come from `tls.key`, `tls.crt` and `ca.crt` (empty when missing). A failure is the one-ref error, the lookup error or the validation error, by the first failing step. |
| Chains.TlsFailureEvents | internal/kgateway/translator/listener/gateway_listener_translator.go:716-743 | A TLS failure sets `ResolvedRefs=False` and then `Programmed=False` (reason `Invalid`) on the reporter. The reason is `RefNotPermitted` iff the ReferenceGrant is missing, and `InvalidCertificateRef` for every other error. The message is `Reference not permitted by ReferenceGrant.` for a missing grant, the error's own text for an invalid TLS secret, `Secret ns/name not found.` for a missing secret, and `Invalid certificate ref.` otherwise. |
| Chains.TranslateHttpsFilterChain | internal/kgateway/translator/listener/gateway_listener_translator.go:668-758 | The chain survives iff its TLS does not fail. Routes are translated first. A surviving chain keeps its route key as name, its hostname as SNI, its policies and its bundle. A failing chain adds exactly the two failure conditions. |
| Chains.HttpsChainVhosts | internal/kgateway/translator/listener/gateway_listener_translator.go:677-700 | The vhosts of an HTTPS chain are name-ordered and hold the sorted rules of their host. They carry no policies and no parent listener. |
| Chains.Earliest | internal/kgateway/translator/listener/gateway_listener_translator.go:421-423 | `slices.MinFunc` picks the first route with the smallest creation time, and that index is unique. |
| Chains.EarliestOrderIndependent | internal/kgateway/translator/listener/gateway_listener_translator.go:421-423 | Reordering the routes does not change the creation time picked. With distinct creation times it does not change the route picked either. |
| Chains.BackendEventsSpec | internal/kgateway/translator/listener/gateway_listener_translator.go:456-470 | There is one backend error per parent ref for every backend with an error or with no resolved object. Each error is about the picked route and carries the backend's error, or `not found`. |
| Chains.TranslateTcpFilterChain | internal/kgateway/translator/listener/gateway_listener_translator.go:406-532 | An IR is produced iff the earliest route is a TCP or TLS route with exactly one rule and at least one backend. It is named `{parent}-{ns}.{name}-rule-0` and keeps every backend, failing ones included. SNI is set only for TLS. A rejected route reports nothing. An accepted route reports `Accepted=True` on each of its parent refs, in order, followed by its backend failures. |
| Chains.TcpChainEvents | internal/kgateway/translator/listener/gateway_listener_translator.go:406-532 | A TCP chain reports only on routes, never on a listener. |
| Translate.HttpsChainOutcome | internal/kgateway/translator/listener/gateway_listener_translator.go:330-348 | In the HTTPS loop, a chain yields an IR named by its route key iff its TLS resolves. |
| Translate.HttpsChainsKept | internal/kgateway/translator/listener/gateway_listener_translator.go:330-348 | The HTTPS loop keeps exactly the chains whose TLS resolves, in order, by name. |
| Translate.HttpsFailuresReported | internal/kgateway/translator/listener/gateway_listener_translator.go:330-348 | Each failing HTTPS chain's two failure conditions are among the loop's events. |
| Translate.HttpsListenerEventsSourced | internal/kgateway/translator/listener/gateway_listener_translator.go:330-348 | Every listener condition of the HTTPS loop is a failure condition of some failing chain. |
| Translate.HttpsFailuresOnOwnListener | internal/kgateway/translator/listener/gateway_listener_translator.go:330-348 | With per-chain reporters, each failing HTTPS listener receives its own failure conditions. Every listener condition goes to a failing HTTPS listener. |
| Translate.HttpsReportedOnFirstListener | internal/kgateway/translator/listener/gateway_listener_translator.go:330-340 | As written, the failure of the second HTTPS listener on a port lands on the first listener, and the second listener gets nothing. |
| Translate.TcpChainsSpec | internal/kgateway/translator/listener/gateway_listener_translator.go:350-356 | One TCP IR per producing chain, and no listener condition from the TCP loop. |
| Translate.TranslateListenerWith | internal/kgateway/translator/listener/gateway_listener_translator.go:313-389 | For either reporting (as written, or the corrected per-listener one), the listener IR carries the merged listener's name, port and policy ancestor. It binds `::` under IPv6 and `0.0.0.0` otherwise. |
| Translate.TranslateListenerHttpFirst | internal/kgateway/translator/listener/gateway_listener_translator.go:319-328 | When the port has a plaintext chain, it is the first HTTP chain, named after the merged listener and without SNI domains; the other HTTP chains are the HTTPS ones. |
| Translate.TranslateListenerHttpsOrder | internal/kgateway/translator/listener/gateway_listener_translator.go:330-348 | After the plaintext chain come exactly the HTTPS chains whose TLS resolves, in listener order, each named by its route key. |
| Translate.TranslateListenerTcpCount | internal/kgateway/translator/listener/gateway_listener_translator.go:350-356 | The listener IR holds one TCP IR per TCP/TLS chain that produces one. |
| Translate.TranslateListenerEscalates | internal/kgateway/translator/listener/gateway_listener_translator.go:358-371 | When the port has TCP/TLS chains and none produced an IR, every one of their listeners gets `Programmed=False`, reason `Invalid`, message `TCP/TLS listener has no valid backends or routes`. |
| Translate.TranslateListenerConditions | internal/kgateway/translator/listener/gateway_listener_translator.go:313-389 | Otherwise the only listener conditions raised are the TLS failure conditions of HTTPS listeners whose TLS does not resolve. As written they are all reported on the listener that created the port (line 339); with the corrected reporting each lands on its own listener. |
| Translate.TranslateListenersSpec | internal/kgateway/translator/listener/gateway_listener_translator.go:41-61 | For either reporting, there is one listener IR per distinct supported port, in first-seen order, named `listener~{port}` and bound to that port. No two IRs share a name or a port. |
| AiPolicy.HasJsonPrefix | internal/kgateway/extensions2/plugins/trafficpolicy/ai_policy.go:287-290 | True iff the value starts with `{` or `[`. |
| AiPolicy.HasJsonSuffix | internal/kgateway/extensions2/plugins/trafficpolicy/ai_policy.go:292-294 | True iff the value ends with `}` or `]`. |
| AiPolicy.TrimSpace | internal/kgateway/extensions2/plugins/trafficpolicy/ai_policy.go:243 | The trimmed value is a slice of the input with only white space cut on either side. It is empty or begins and ends with a non-space. A value without white space is unchanged. |
| AiPolicy.ToLower | internal/kgateway/extensions2/plugins/trafficpolicy/ai_policy.go:318-324 | Lower-casing keeps the length, maps each character, leaves no upper-case ASCII letter, and is a fixed point of a second application. |
| AiPolicy.InsertedValueValid | internal/kgateway/extensions2/plugins/trafficpolicy/ai_policy.go:243-270 | For an accepted default whose marshalled form is valid JSON, the inserted value is valid JSON. It is the raw value when the trimmed value opens an object or array, and the marshalled value otherwise. |
| AiPolicy.TrimSpaceStartsAt | internal/kgateway/extensions2/plugins/trafficpolicy/ai_policy.go:243 | When the first non-space character of a value is at position k, the trimmed value is non-empty and starts with that character. |
| AiPolicy.ObjectLikeMustBeValid | internal/kgateway/extensions2/plugins/trafficpolicy/ai_policy.go:243-253 | Leading white space does not hide JSON: a value whose first non-space character is `{` or `[` is rejected iff it is not valid JSON. |
| AiPolicy.ApplyDefaults | internal/kgateway/extensions2/plugins/trafficpolicy/ai_policy.go:234-236 | An empty defaults list leaves the templates unchanged. |
| AiPolicy.ApplyDefaultsFails | internal/kgateway/extensions2/plugins/trafficpolicy/ai_policy.go:237-253 | Defaults fail iff some default's trimmed value looks like JSON (by prefix or suffix) but is not valid JSON. |
| AiPolicy.ApplyDefaultsFirstError | internal/kgateway/extensions2/plugins/trafficpolicy/ai_policy.go:237-253 | When some default is rejected, the run fails with `field F contains invalid JSON string: V` for the first rejected default; every default before it is accepted. |
| AiPolicy.ApplyDefaultsStoresAt | internal/kgateway/extensions2/plugins/trafficpolicy/ai_policy.go:237-282 | Without a rejected default, the run succeeds, and a given key holds the template of the last default naming it, else the caller's value, else is absent. |
| AiPolicy.ApplyDefaultsStores | internal/kgateway/extensions2/plugins/trafficpolicy/ai_policy.go:237-282 | Without a rejected default, each field holds the template of its last default, other keys are untouched, and no other key appears. |
| AiPolicy.ApplyPromptEnrichment | internal/kgateway/extensions2/plugins/trafficpolicy/ai_policy.go:296-360 | No enrichment leaves the templates unchanged. An enrichment sets `messages` to the body and changes no other key. |
| AiPolicy.PromptBodyShape | internal/kgateway/extensions2/plugins/trafficpolicy/ai_policy.go:313-349 | The body is `[`, then the comma-joined list of the prepend entries, the join expression and the append entries, then `]`. So every prepend entry is followed by a comma, the append entries carry no trailing comma, and a comma follows the join expression iff there are appends. |
| AiPolicy.ChunksJoin | internal/kgateway/extensions2/plugins/trafficpolicy/ai_policy.go:317-347 | The builder's chunks (comma after every prepend, comma between appends, comma before appends iff any) concatenate to the comma-join of the whole list, for any strings. |
| AiPolicy.PromptBodyExample | internal/kgateway/extensions2/plugins/trafficpolicy/ai_policy.go:32 | One prepend message with role `SYSTEM` and one append message give `[{"content":"hi","role":"system"},{{ join(messages, ", ") }},{"content":"bye","role":"user"}]`. |
| GatewayExtension.ConvertXrl | internal/kgateway/extensions2/plugins/trafficpolicy/gateway_extension.go:260-269 | Total: only draft 03 enables the headers; `Off` and every other value give `OFF`. |
| GatewayExtension.ConvertRca | internal/kgateway/extensions2/plugins/trafficpolicy/gateway_extension.go:271-282 | Total: `Clear` maps to `CLEAR` and `Retain` to `RETAIN`; every other value maps to `DEFAULT`. |
| GatewayExtension.ToUint32 | internal/kgateway/extensions2/plugins/trafficpolicy/gateway_extension.go:229 | The `uint32` conversion lands in range and is congruent to the input modulo 2^32. |
| GatewayExtension.BuildGrpcRetryPolicy | internal/kgateway/extensions2/plugins/trafficpolicy/gateway_extension.go:223-240 | No policy gives none. Otherwise the retry count is the attempts, as a `uint32`. A backoff is present iff given, with its base interval. A maximum interval is present iff both the backoff and its maximum are given. |
| GatewayExtension.ResolveExtGrpcService | internal/kgateway/extensions2/plugins/trafficpolicy/gateway_extension.go:169-221 | Succeeds iff the service and its backend reference are given and the lookup finds a backend with a cluster. The errors are `grpcService not provided`, `backend not provided`, the lookup's error, or `backend not found`, in that order. On success the authority defaults to empty, the timeout is set iff a request timeout is given, and the retry policy is the built one. |
| GatewayExtension.BuildRateLimitFilter | internal/kgateway/extensions2/plugins/trafficpolicy/gateway_extension.go:243-258 | Copies the domain and the timeout and uses the resolved service. It fails closed iff the provider does not fail open, and enables the rate-limit headers iff draft 03 is chosen. |
| GatewayExtension.Equals | internal/kgateway/extensions2/plugins/trafficpolicy/gateway_extension.go:47-76 | Two extension IRs are equal iff they agree on everything but the name, with errors compared by presence and message. |
| GatewayExtension.Validate | internal/kgateway/extensions2/plugins/trafficpolicy/gateway_extension.go:79-100 | An IR carrying an error always validates. Otherwise the result is valid iff every present configuration is valid. When several fail, the error is the first in the order ext-authz, ext-proc, rate limit. |
| GatewayExtension.TranslateGatewayExtension | internal/kgateway/extensions2/plugins/trafficpolicy/gateway_extension.go:102-167 | Name, type and weight are copied, and at most the configuration of the extension's own type is set, never next to an error. For a rate-limit extension: a missing block gives `rate limit extension missing configuration`, a resolution failure gives `ratelimit: <error>`, and otherwise the filter is built from the resolved service. The filter is present iff the block is present and resolvable. Ext-authz and ext-proc resolution failures are prefixed `failed to resolve … backend: `. |

## Left out

- `validateGateway` is not part of this model: the listeners are taken as already validated, and `getListenerPortNumber` is the identity.
- The route-rule translator, `SanitizeForEnvoy`, `GenerateRouteKey`, the secret query, the ReferenceGrant check, TLS-secret validation and `ProcessBackendError` are not part of this model. Their results are inputs, functions or events.
- Metrics, logging, `krt.HandlerContext` and `context.Context` are runtime plumbing with no effect on the results.
- Go map iteration order is not modelled: the host buckets are visited in first-seen order. The set of vhosts and their contents do not depend on this, except which host wins when two hosts sanitize to the same name (`Vhosts.VhostsOfRoutesCover` only promises a vhost of that name).
- Errors that match several categories at once (a wrapped error that is both a missing ReferenceGrant and not found) are not modelled: each TLS error is one `SslError`.
- The listener IR's attached policies are always empty in the source and are not represented. Neither is the TLS mode of TCP chains beyond SNI.
- Durations are integers. The rate-limit timeout is always present, as the CRD defaults it.
- Vhosts.VhostsOfRoutesCover: when the sanitizer maps two hosts to one name, it states coverage by name only, because which host wins depends on map order.
- AiPolicy.ToLower: lower-cases ASCII letters only, whereas Go's `strings.ToLower` also maps non-ASCII letters.
- AiPolicy.PromptBodyShape: states that the join expression is one element of the joined list. It does not say the text occurs exactly once, because message content is inserted without escaping and may itself contain that text.
- AiPolicy.ApplyDefaults: `json.Marshal` of a string cannot fail, so its error branch is not modelled. The templates written before a rejected default are not visible, since the error aborts the policy.
- `applyPromptGuard`, `processAITrafficPolicy` and `hashUnique` are not part of this model: secret resolution, JSON marshalling and reflection-based hashing.
- `buildCompositeExtProcFilter` and the ext-authz filter fields are not part of this model: they are protobuf construction, given by `BuildEnv`. Protobuf validation (`ValidateAll`) is given by `Validators`.
- GatewayExtension.TranslateGatewayExtension: requires the ext-authz block for an ext-authz extension and the ext-proc block for an ext-proc extension. The source dereferences these blocks unchecked (gateway_extension.go lines 112 and 141) and panics without them; the panic is not modelled.
- AiPolicy.ApplyDefaults: always stores the template. The source reads the `MergeJsonKeys` key map before its type test (ai_policy.go lines 271-272), so it panics whenever the body transformation is not `MergeJsonKeys`; the store itself happens only under that type test (lines 274-281). The template built by `initTransformationTemplate` (ai_policy.go lines 196-206) always has a `MergeJsonKeys` body, so only that case is modelled.
- `SortableRoutes.Less` is not modelled as a comparator. Each rule carries an integer `order` rank standing for its position in that order, and the sort is stable on the rank.
- The deployer, Helm, service-entry plugin and test-harness files are not part of this model: they are I/O and wiring.

## Findings

| source | as written | input that shows it | evidently intended | confidence | as-written member | corrected member |
|---|---|---|---|---|---|---|
| internal/kgateway/translator/listener/gateway_listener_translator.go:330-340 | Every HTTPS chain of a merged listener reports its TLS failure on `ml.listenerReporter`, the reporter of the first listener that created the port. `appendHttpsListener` keeps no reporter per chain (lines 181-187). | Port 443 with HTTPS listener `a` (no TLS to terminate) then HTTPS listener `b` (mode `Terminate`, no certificate refs). `b`'s `ResolvedRefs=False` and `Programmed=False` are set on `a`, and `b` gets no condition. | Each HTTPS listener's TLS failure is reported on that listener. | medium; not executed | Translate.HttpsReportedOnFirstListener | Translate.HttpsFailuresOnOwnListener |

`Translate.TranslateListener` and `Translate.TranslateListeners` follow the code as written: every HTTPS failure is reported on the listener that created the port. `Translate.TranslateListenerCorrected` and `Translate.TranslateListenersCorrected` report each failure on its own listener (`Translate.HttpsChains`). Both are instances of `Translate.TranslateListenerWith`, and the listener lemmas hold for both.
