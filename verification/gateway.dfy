/** Inputs and outputs of listener translation: Gateway-API listeners,
    the routes bound to them, the listener IR produced per port, and the
    status conditions emitted along the way. */
module Gateway {
  import opened Common

  /** Listener protocols; `Other` is any value the translator does not know
      (including the unset protocol). */
  datatype Protocol = HTTP | HTTPS | TCP | TLS | OtherProtocol(raw: string)

  /** A valid Gateway-API port number (the CRD bounds it to 1..65535). */
  type PortNumber = p: int | 1 <= p <= 65535 witness 1

  datatype TlsMode = Terminate | Passthrough | OtherMode(raw: string)

  /** A certificate reference of a listener's TLS block. */
  datatype CertRef = CertRef(namespace: Option<string>, name: string)

  /** A listener's TLS block; a missing block is defaulted to an empty one
      (no mode, no certificate references) when chains are built. */
  datatype TlsConfig = TlsConfig(mode: Option<TlsMode>, certRefs: seq<CertRef>)

  const EmptyTls := TlsConfig(None, [])

  /** Policies attached to a listener, kept abstract. */
  type Policy = string

  /** The reporter of one Gateway-API listener: its parent (Gateway or
      ListenerSet) and its section name. */
  datatype ListenerId = ListenerId(parent: string, name: string)

  /** One validated Gateway-API listener. `routeKey` is what
      `query.GenerateRouteKey(parent, name)` produces for it. */
  datatype Listener = Listener(
    parent: string,
    name: string,
    routeKey: string,
    protocol: Protocol,
    port: PortNumber,
    hostname: Option<string>,
    tls: Option<TlsConfig>,
    policies: seq<Policy>,
    ancestorRef: string)
  {
    function Reporter(): ListenerId { ListenerId(parent, name) }
  }

  /** A route rule as produced by the route-rule translator, with the
      sort key that the route-ordering comparator assigns it. */
  datatype RouteRule = RouteRule(id: string, order: int)

  /** One backend reference of a TCP/TLS route: its resolution error, and
      whether a backend object was resolved. */
  datatype Backend = Backend(name: string, err: Option<string>, resolved: bool)

  /** The route object behind a RouteInfo. TCP and TLS routes expose the
      number of rules in their spec, their parent refs and their backends. */
  datatype RouteObject =
    | HttpRouteObject
    | TcpRouteObject(ruleCount: nat, parentRefs: seq<string>, backends: seq<Backend>)
    | TlsRouteObject(ruleCount: nat, parentRefs: seq<string>, backends: seq<Backend>)
    | OtherRouteObject

  datatype RouteId = RouteId(namespace: string, name: string)

  /** A route bound to one listener under `parentRef`. `hostnames` is what
      `RouteInfo.Hostnames()` returns and `translated` is what the route-rule
      translator produces for it; both are given, not computed here. */
  datatype RouteInfo = RouteInfo(
    id: RouteId,
    creation: int,
    parentRef: string,
    hostnames: seq<string>,
    translated: seq<RouteRule>,
    obj: RouteObject)

  /** The route-binding query result for one listener; `err` is observed
      but never reported. */
  datatype ListenerRoutes = ListenerRoutes(routes: seq<RouteInfo>, err: Option<string>)

  /** A resolved TLS bundle: key, certificate chain, optional CA bytes. */
  datatype TlsBundle = TlsBundle(privateKey: seq<bv8>, certChain: seq<bv8>, ca: seq<bv8>)

  datatype VirtualHost = VirtualHost(
    name: string,
    hostname: string,
    rules: seq<RouteRule>,
    policies: seq<Policy>,
    parentRef: Option<Listener>)

  datatype HttpChainIR = HttpChainIR(
    name: string,
    sniDomains: seq<string>,
    tls: Option<TlsBundle>,
    policies: seq<Policy>,
    vhosts: seq<VirtualHost>)

  datatype TcpIR = TcpIR(name: string, sniDomains: seq<string>, backends: seq<Backend>)

  datatype ListenerIR = ListenerIR(
    name: string,
    bindAddress: string,
    bindPort: PortNumber,
    httpChains: seq<HttpChainIR>,
    tcpChains: seq<TcpIR>,
    ancestorRef: string)

  /** Gateway-API condition vocabulary used by the translator. */
  const Programmed := "Programmed"
  const ResolvedRefs := "ResolvedRefs"
  const Accepted := "Accepted"
  const ReasonInvalid := "Invalid"
  const ReasonRefNotPermitted := "RefNotPermitted"
  const ReasonInvalidCertificateRef := "InvalidCertificateRef"
  const ReasonAccepted := "Accepted"
  const ReasonUnsupportedValue := "UnsupportedValue"

  const TcpTlsListenerNoBackendsMessage := "TCP/TLS listener has no valid backends or routes"

  datatype Condition = Condition(kind: string, status: bool, reason: string, message: string)

  /** The append-only stream of status side effects. `RulesTranslated`
      marks a call into the route-rule translator (whose own conditions are
      not part of this model); `BackendError` is a call of
      `query.ProcessBackendError` on one parent-ref reporter. */
  datatype Event =
    | ListenerStatus(listener: ListenerId, cond: Condition)
    | RouteStatus(route: RouteId, parentRef: string, cond: Condition)
    | BackendError(route: RouteId, parentRef: string, err: string)
    | RulesTranslated(route: RouteId, parentRef: string)

  /** Typed failures of TLS secret resolution and validation. */
  datatype SslError =
    | MissingReferenceGrant
    | SecretNotFound(namespace: string, name: string)
    | InvalidTlsSecret(text: string)
    | OtherSslError(text: string)

  datatype Secret = Secret(namespace: string, name: string, data: map<string, seq<bv8>>)

  datatype SecretLookup = SecretFound(secret: Secret) | SecretFailed(err: SslError)

  /** The collaborators of one translation pass: the name sanitizer, the
      secret query (gateway namespace, reference) and the TLS secret
      validator (`None` = well-formed). */
  datatype Env = Env(
    sanitize: string -> string,
    lookupSecret: (string, CertRef) -> SecretLookup,
    validateSecret: Secret -> Option<SslError>)
}
