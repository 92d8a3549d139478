/** Gateway-extension translation for traffic policies: the enum
    conversions, the gRPC service resolution with its guard checks, the
    retry-policy and rate-limit filter builders, the extension IR with its
    error-aware equality and validation, and the extension builder.
    Protobuf messages other than the ones built here are kept abstract and
    compared by content; durations are integers. */
module GatewayExtension {
  import opened Common

  /** A Go `int32`. */
  type Int32 = x: int | -0x8000_0000 <= x < 0x8000_0000

  const TwoTo32: int := 0x1_0000_0000

  // ---------------------------------------------------------------------
  // Enum conversions.

  /** The `XRateLimitHeaders` setting of a rate-limit provider. */
  datatype XRateLimitHeaders = DraftV03 | XrlOff | OtherXrl(raw: string)

  /** Envoy's `RateLimit.XRateLimitHeadersRFCVersion`. */
  datatype XrlVersion = XrlDisabled | XrlDraftVersion03

  /** `convertXRL`: only draft 03 enables the headers. */
  function ConvertXrl(x: XRateLimitHeaders): (r: XrlVersion)
    ensures r == XrlDraftVersion03 <==> x == DraftV03
    ensures r == XrlDisabled <==> x != DraftV03
  {
    match x
    case DraftV03 => XrlDraftVersion03
    case XrlOff => XrlDisabled
    case OtherXrl(_) => XrlDisabled
  }

  /** The `RouteCacheAction` setting of an ext-proc provider. */
  datatype RouteCacheAction = Clear | Retain | FromResponse | OtherAction(raw: string)

  /** Envoy's `ExternalProcessor.RouteCacheAction`. */
  datatype EnvoyRouteCacheAction = CacheDefault | CacheClear | CacheRetain

  /** `convertRCA`: clear and retain map to themselves, everything else to
      the default. */
  function ConvertRca(a: RouteCacheAction): (r: EnvoyRouteCacheAction)
    ensures r == CacheClear <==> a == Clear
    ensures r == CacheRetain <==> a == Retain
    ensures r == CacheDefault <==> !(a == Clear || a == Retain)
  {
    match a
    case Clear => CacheClear
    case Retain => CacheRetain
    case FromResponse => CacheDefault
    case OtherAction(_) => CacheDefault
  }

  // ---------------------------------------------------------------------
  // Retry policy.

  datatype Backoff = Backoff(baseInterval: int, maxInterval: Option<int>)

  /** The `GRPCRetryPolicy` of an extension's gRPC service. */
  datatype RetryPolicy = RetryPolicy(attempts: Int32, backoff: Option<Backoff>)

  /** Envoy's `RetryPolicy`; `numRetries` is a `uint32`. */
  datatype EnvoyRetryPolicy = EnvoyRetryPolicy(numRetries: nat, backOff: Option<Backoff>)

  /** The `uint32` conversion of an `int32`. */
  function ToUint32(x: Int32): (r: nat)
    ensures r < TwoTo32
    ensures (r - x) % TwoTo32 == 0
  {
    if x >= 0 then x else x + TwoTo32
  }

  /** `buildGRPCRetryPolicy`: no policy stays none; otherwise the attempts
      become the retry count and the backoff is carried over, with a
      maximum interval only when both the backoff and its maximum are set. */
  function BuildGrpcRetryPolicy(p: Option<RetryPolicy>): (r: Option<EnvoyRetryPolicy>)
    ensures r.None? <==> p.None?
    ensures r.Some? ==> r.value.numRetries == ToUint32(p.value.attempts)
    ensures r.Some? && p.value.attempts >= 0 ==> r.value.numRetries == p.value.attempts
    ensures r.Some? ==> (r.value.backOff.Some? <==> p.value.backoff.Some?)
    ensures r.Some? && r.value.backOff.Some? ==>
              r.value.backOff.value.baseInterval == p.value.backoff.value.baseInterval &&
              (r.value.backOff.value.maxInterval.Some? <==> p.value.backoff.value.maxInterval.Some?) &&
              r.value.backOff.value.maxInterval == p.value.backoff.value.maxInterval
  {
    match p
    case None => None
    case Some(q) =>
      var backOff :=
        match q.backoff
        case None => None
        case Some(b) => Some(Backoff(b.baseInterval, b.maxInterval));
      Some(EnvoyRetryPolicy(ToUint32(q.attempts), backOff))
  }

  // ---------------------------------------------------------------------
  // gRPC service resolution.

  /** A backend object reference, kept abstract. */
  type BackendRef = string

  /** A resolved backend object and the Envoy cluster it names. */
  datatype BackendObject = BackendObject(clusterName: string)

  /** The outcome of a backend lookup: a backend (possibly none) or an
      error. */
  datatype BackendLookup = LookupOk(backend: Option<BackendObject>) | LookupFailed(err: string)

  /** The backend index: lookups with and without the ReferenceGrant
      check, from the extension's own namespace. */
  datatype Backends = Backends(
    getFromRef: BackendRef -> BackendLookup,
    getWithoutRefGrant: BackendRef -> BackendLookup)

  /** The `ExtGrpcService` of an extension provider. */
  datatype ExtGrpcService = ExtGrpcService(
    backendRef: Option<BackendRef>,
    authority: Option<string>,
    requestTimeout: Option<int>,
    retry: Option<RetryPolicy>)

  /** Envoy's `GrpcService` with an Envoy-gRPC target. */
  datatype GrpcService = GrpcService(
    clusterName: string,
    authority: string,
    retryPolicy: Option<EnvoyRetryPolicy>,
    timeout: Option<int>)

  const GrpcServiceNotProvided := "grpcService not provided"
  const BackendNotProvided := "backend not provided"
  const BackendNotFound := "backend not found"

  function Lookup(backends: Backends, disableRefValidation: bool, ref: BackendRef): BackendLookup {
    if disableRefValidation then backends.getWithoutRefGrant(ref) else backends.getFromRef(ref)
  }

  /** The cluster a lookup names: empty when it found no backend. */
  function ClusterOf(l: BackendLookup): string
    requires l.LookupOk?
  {
    if l.backend.Some? then l.backend.value.clusterName else ""
  }

  /** Reference: a service resolves exactly when it names a backend
      reference whose lookup succeeds with a backend that has a cluster. */
  predicate Resolvable(backends: Backends, disableRefValidation: bool, svc: Option<ExtGrpcService>) {
    svc.Some? && svc.value.backendRef.Some? &&
    var l := Lookup(backends, disableRefValidation, svc.value.backendRef.value);
    l.LookupOk? && l.backend.Some? && l.backend.value.clusterName != ""
  }

  /** `ResolveExtGrpcService`: the guard ladder (no service, no backend
      reference, the lookup error, no cluster), then the Envoy service for
      the resolved cluster. */
  function ResolveExtGrpcService(backends: Backends, disableRefValidation: bool, svc: Option<ExtGrpcService>)
    : (r: Result<GrpcService>)
    ensures r.Success? <==> Resolvable(backends, disableRefValidation, svc)
    ensures svc.None? ==> r == Failure(GrpcServiceNotProvided)
    ensures svc.Some? && svc.value.backendRef.None? ==> r == Failure(BackendNotProvided)
    ensures svc.Some? && svc.value.backendRef.Some? ==>
              var l := Lookup(backends, disableRefValidation, svc.value.backendRef.value);
              (l.LookupFailed? ==> r == Failure(l.err)) &&
              (l.LookupOk? && ClusterOf(l) == "" ==> r == Failure(BackendNotFound)) &&
              (l.LookupOk? && ClusterOf(l) != "" ==> r.Success? && r.value.clusterName == ClusterOf(l))
    ensures r.Success? ==>
              r.value.clusterName != "" &&
              r.value.authority == (if svc.value.authority.Some? then svc.value.authority.value else "") &&
              (r.value.timeout.Some? <==> svc.value.requestTimeout.Some?) &&
              r.value.timeout == svc.value.requestTimeout &&
              r.value.retryPolicy == BuildGrpcRetryPolicy(svc.value.retry)
  {
    if svc.None? then Failure(GrpcServiceNotProvided)
    else if svc.value.backendRef.None? then Failure(BackendNotProvided)
    else
      var l := Lookup(backends, disableRefValidation, svc.value.backendRef.value);
      if l.LookupFailed? then Failure(l.err)
      else
        var clusterName := ClusterOf(l);
        if clusterName == "" then Failure(BackendNotFound)
        else
          var authority := if svc.value.authority.Some? then svc.value.authority.value else "";
          var timeout := if svc.value.requestTimeout.Some? then Some(svc.value.requestTimeout.value) else None;
          Success(GrpcService(clusterName, authority, BuildGrpcRetryPolicy(svc.value.retry), timeout))
  }

  // ---------------------------------------------------------------------
  // Rate-limit filter.

  /** The `RateLimitProvider` of a rate-limit extension. */
  datatype RateLimitProvider = RateLimitProvider(
    grpcService: Option<ExtGrpcService>,
    domain: string,
    failOpen: bool,
    timeout: int,
    xRateLimitHeaders: XRateLimitHeaders)

  /** Envoy's rate-limit filter configuration; the transport API version
      is always v3 and is not represented. */
  datatype RateLimitFilter = RateLimitFilter(
    domain: string,
    failureModeDeny: bool,
    service: GrpcService,
    enableXRateLimitHeaders: XrlVersion,
    timeout: int)

  /** `buildRateLimitFilter`: the provider's domain and timeout, the
      resolved service, failing closed exactly when the provider does not
      fail open. */
  function BuildRateLimitFilter(svc: GrpcService, p: RateLimitProvider): (r: RateLimitFilter)
    ensures r.domain == p.domain && r.timeout == p.timeout && r.service == svc
    ensures r.failureModeDeny <==> !p.failOpen
    ensures r.enableXRateLimitHeaders == XrlDraftVersion03 <==> p.xRateLimitHeaders == DraftV03
  {
    RateLimitFilter(p.domain, !p.failOpen, svc, ConvertXrl(p.xRateLimitHeaders), p.timeout)
  }

  // ---------------------------------------------------------------------
  // Extension IR.

  datatype ExtType = ExtAuthType | ExtProcType | RateLimitType | OtherExtType(raw: string)

  /** Ext-authz and ext-proc filter configurations, protobuf messages kept
      abstract and compared by content. */
  type ExtAuthConfig = string
  type ExtProcConfig = string

  /** `TrafficPolicyGatewayExtensionIR`; an error is represented by its
      message. */
  datatype ExtensionIR = ExtensionIR(
    name: string,
    extType: ExtType,
    extAuth: Option<ExtAuthConfig>,
    extProc: Option<ExtProcConfig>,
    rateLimit: Option<RateLimitFilter>,
    precedenceWeight: Int32,
    err: Option<string>)

  /** `Equals`, field by field as the source compares: the name is not
      compared, configurations by content, errors by presence and then by
      message. */
  function Equals(a: ExtensionIR, b: ExtensionIR): (r: bool)
    ensures r <==> a.(name := b.name) == b
  {
    if a.extType != b.extType then false
    else if a.extAuth != b.extAuth then false
    else if a.extProc != b.extProc then false
    else if a.rateLimit != b.rateLimit then false
    else if a.precedenceWeight != b.precedenceWeight then false
    else if a.err.None? && b.err.Some? then false
    else if a.err.Some? && b.err.None? then false
    else if a.err.Some? && b.err.Some? && a.err.value != b.err.value then false
    else true
  }

  /** The protobuf validators of the three configurations (`None` = valid). */
  datatype Validators = Validators(
    extAuth: ExtAuthConfig -> Option<string>,
    extProc: ExtProcConfig -> Option<string>,
    rateLimit: RateLimitFilter -> Option<string>)

  /** `Validate`: an IR carrying an error is not validated; otherwise the
      first failing configuration, ext-authz then ext-proc then rate limit. */
  function Validate(v: Validators, e: ExtensionIR): (r: Option<string>)
    ensures e.err.Some? ==> r.None?
    ensures r.None? && e.err.None? ==>
              (e.extAuth.Some? ==> v.extAuth(e.extAuth.value).None?) &&
              (e.extProc.Some? ==> v.extProc(e.extProc.value).None?) &&
              (e.rateLimit.Some? ==> v.rateLimit(e.rateLimit.value).None?)
    ensures r.Some? ==>
              (e.extAuth.Some? && r == v.extAuth(e.extAuth.value)) ||
              (e.extProc.Some? && r == v.extProc(e.extProc.value)) ||
              (e.rateLimit.Some? && r == v.rateLimit(e.rateLimit.value))
    ensures e.err.None? && e.extAuth.Some? && v.extAuth(e.extAuth.value).Some? ==>
              r == v.extAuth(e.extAuth.value)
    ensures e.err.None? && e.extProc.Some? && v.extProc(e.extProc.value).Some? &&
            (e.extAuth.None? || v.extAuth(e.extAuth.value).None?) ==>
              r == v.extProc(e.extProc.value)
    ensures e.err.None? && e.rateLimit.Some? && v.rateLimit(e.rateLimit.value).Some? &&
            (e.extAuth.None? || v.extAuth(e.extAuth.value).None?) &&
            (e.extProc.None? || v.extProc(e.extProc.value).None?) ==>
              r == v.rateLimit(e.rateLimit.value)
  {
    if e.err.Some? then None
    else if e.extAuth.Some? && v.extAuth(e.extAuth.value).Some? then v.extAuth(e.extAuth.value)
    else if e.extProc.Some? && v.extProc(e.extProc.value).Some? then v.extProc(e.extProc.value)
    else if e.rateLimit.Some? && v.rateLimit(e.rateLimit.value).Some? then v.rateLimit(e.rateLimit.value)
    else None
  }

  // ---------------------------------------------------------------------
  // The extension builder.

  datatype ExtAuthProvider = ExtAuthProvider(grpcService: Option<ExtGrpcService>, settings: string)
  datatype ExtProcProvider = ExtProcProvider(grpcService: Option<ExtGrpcService>, settings: string)

  /** A `GatewayExtension` resource with the provider blocks it carries. */
  datatype GatewayExtensionResource = GatewayExtensionResource(
    name: string,
    namespace: string,
    extType: ExtType,
    precedenceWeight: Int32,
    extAuth: Option<ExtAuthProvider>,
    extProc: Option<ExtProcProvider>,
    rateLimit: Option<RateLimitProvider>)

  /** The builder's collaborators: the resource-name function, the backend
      index, and the construction of the ext-authz and ext-proc filters
      from a provider and its resolved service. */
  datatype BuildEnv = BuildEnv(
    resourceName: (string, string) -> string,
    backends: Backends,
    buildExtAuth: (ExtAuthProvider, GrpcService) -> ExtAuthConfig,
    buildExtProc: (ExtProcProvider, GrpcService) -> ExtProcConfig)

  const ExtAuthResolvePrefix := "failed to resolve ExtAuth backend: "
  const ExtProcResolvePrefix := "failed to resolve ExtProc backend: "
  const RateLimitMissingConfig := "rate limit extension missing configuration"
  const RateLimitResolvePrefix := "ratelimit: "

  /** `TranslateGatewayExtensionBuilder`. The source dereferences the
      ext-authz and ext-proc blocks of extensions of those types, so they
      must be present; a missing rate-limit block is an error of its own. */
  function TranslateGatewayExtension(env: BuildEnv, g: GatewayExtensionResource): (r: ExtensionIR)
    requires g.extType == ExtAuthType ==> g.extAuth.Some?
    requires g.extType == ExtProcType ==> g.extProc.Some?
    ensures r.name == env.resourceName(g.name, g.namespace)
    ensures r.extType == g.extType && r.precedenceWeight == g.precedenceWeight
    ensures r.extAuth.Some? ==> g.extType == ExtAuthType
    ensures r.extProc.Some? ==> g.extType == ExtProcType
    ensures r.rateLimit.Some? ==> g.extType == RateLimitType
    ensures r.err.Some? ==> r.extAuth.None? && r.extProc.None? && r.rateLimit.None?
    ensures g.extType.OtherExtType? ==> r.err.None? && r.extAuth.None? && r.extProc.None? && r.rateLimit.None?
    ensures g.extType == RateLimitType ==>
              (r.rateLimit.Some? <==> g.rateLimit.Some? && Resolvable(env.backends, false, g.rateLimit.value.grpcService))
    ensures g.extType == RateLimitType && g.rateLimit.None? ==> r.err == Some(RateLimitMissingConfig)
    ensures g.extType == RateLimitType && g.rateLimit.Some? ==>
              var s := ResolveExtGrpcService(env.backends, false, g.rateLimit.value.grpcService);
              (s.Failure? ==> r.err == Some(RateLimitResolvePrefix + s.error)) &&
              (s.Success? ==> r.err.None? && r.rateLimit == Some(BuildRateLimitFilter(s.value, g.rateLimit.value)))
    ensures g.extType == ExtAuthType ==>
              var s := ResolveExtGrpcService(env.backends, false, g.extAuth.value.grpcService);
              (s.Failure? ==> r.err == Some(ExtAuthResolvePrefix + s.error)) &&
              (s.Success? ==> r.err.None? && r.extAuth == Some(env.buildExtAuth(g.extAuth.value, s.value)))
    ensures g.extType == ExtProcType ==>
              var s := ResolveExtGrpcService(env.backends, false, g.extProc.value.grpcService);
              (s.Failure? ==> r.err == Some(ExtProcResolvePrefix + s.error)) &&
              (s.Success? ==> r.err.None? && r.extProc == Some(env.buildExtProc(g.extProc.value, s.value)))
  {
    var p := ExtensionIR(env.resourceName(g.name, g.namespace), g.extType, None, None, None, g.precedenceWeight, None);
    match g.extType
    case ExtAuthType =>
      var s := ResolveExtGrpcService(env.backends, false, g.extAuth.value.grpcService);
      if s.Failure? then p.(err := Some(ExtAuthResolvePrefix + s.error))
      else p.(extAuth := Some(env.buildExtAuth(g.extAuth.value, s.value)))
    case ExtProcType =>
      var s := ResolveExtGrpcService(env.backends, false, g.extProc.value.grpcService);
      if s.Failure? then p.(err := Some(ExtProcResolvePrefix + s.error))
      else p.(extProc := Some(env.buildExtProc(g.extProc.value, s.value)))
    case RateLimitType =>
      if g.rateLimit.None? then p.(err := Some(RateLimitMissingConfig))
      else
        var s := ResolveExtGrpcService(env.backends, false, g.rateLimit.value.grpcService);
        if s.Failure? then p.(err := Some(RateLimitResolvePrefix + s.error))
        else p.(rateLimit := Some(BuildRateLimitFilter(s.value, g.rateLimit.value)))
    case OtherExtType(_) => p
  }
}
