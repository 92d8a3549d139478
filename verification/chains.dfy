/** Translation of one filter chain of a merged listener: the shared
    plaintext HTTP chain (`translateHttpFilterChain`), an HTTPS chain with
    its TLS bundle (`translateHttpsFilterChain`, `translateSslConfig`), and
    a TCP or TLS-passthrough chain (`translateTcpFilterChain`). */
module Chains {
  import opened Common
  import opened Gateway
  import opened RuleSort
  import opened Merge
  import opened Vhosts

  /** A translated value and the status side effects emitted on the way. */
  datatype Translated<T> = Translated(value: T, events: seq<Event>)

  // ---------------------------------------------------------------------
  // Plaintext HTTP.

  /** The routes of all parents, parent by parent. */
  function ChainRoutes(ps: seq<HttpParent>): seq<RouteInfo> {
    if |ps| == 0 then []
    else ChainRoutes(ps[..|ps| - 1]) + ps[|ps| - 1].routes
  }

  /** The one plaintext chain of a port: named after the merged listener,
      no SNI, no TLS and no chain-level policies; its vhosts inherit the
      policies of the most specific parent listener matching their host. */
  function TranslateHttpFilterChain(env: Env, c: HttpChain, parentName: string)
    : (r: Translated<HttpChainIR>)
    ensures r.value.name == parentName
    ensures r.value.sniDomains == [] && r.value.tls.None? && r.value.policies == []
    ensures |r.events| == |ChainRoutes(c.parents)|
    ensures forall i :: 0 <= i < |r.events| ==>
              r.events[i] == RulesTranslated(ChainRoutes(c.parents)[i].id, ChainRoutes(c.parents)[i].parentRef)
  {
    var routes := ChainRoutes(c.parents);
    var ctx := VhostContext(parentName, env.sanitize, c.parents);
    Translated(HttpChainIR(parentName, [], None, [], VirtualHosts(ctx, BuildRoutesPerHost(routes))),
               TranslationEvents(routes))
  }

  /** The vhosts of the plaintext chain, stated against the routes of all
      its parents. */
  lemma HttpChainVhosts(env: Env, c: HttpChain, parentName: string)
    ensures var vs := TranslateHttpFilterChain(env, c, parentName).value.vhosts;
            forall i, j :: 0 <= i < j < |vs| ==> StrLess(vs[i].name, vs[j].name)
    ensures forall v :: v in TranslateHttpFilterChain(env, c, parentName).value.vhosts ==>
              && RulesFor(ChainRoutes(c.parents), v.hostname) != []
              && v.name == env.sanitize(parentName + "~" + v.hostname)
              && v.rules == StableSort(RulesFor(ChainRoutes(c.parents), v.hostname))
              && Attributed(v.hostname, c.parents, v)
    ensures forall h :: RulesFor(ChainRoutes(c.parents), h) != [] ==>
              exists v :: v in TranslateHttpFilterChain(env, c, parentName).value.vhosts &&
                          v.name == env.sanitize(parentName + "~" + h)
  {
    var ctx := VhostContext(parentName, env.sanitize, c.parents);
    var routes := ChainRoutes(c.parents);
    VhostsOfRoutes(ctx, routes);
    assert TranslateHttpFilterChain(env, c, parentName).value.vhosts == VirtualHosts(ctx, BuildRoutesPerHost(routes));
  }

  // ---------------------------------------------------------------------
  // TLS configuration of an HTTPS chain.

  /** `translateSslConfig`'s outcome: no TLS to terminate, a bundle, or an
      error. */
  datatype SslOutcome = NoTls | Bundle(bundle: TlsBundle) | SslFailed(err: SslError)

  /** Keys of a Kubernetes TLS secret. */
  const TlsCertKey := "tls.crt"
  const TlsPrivateKeyKey := "tls.key"
  const RootCaKey := "ca.crt"

  const OneCertRefMessage := "only one certificate ref is supported for now"

  /** A Go map read: a missing key yields the zero value. */
  function DataOrEmpty(data: map<string, seq<bv8>>, key: string): seq<bv8> {
    if key in data then data[key] else []
  }

  /** Only a `Terminate` TLS block yields a bundle; it needs exactly one
      certificate reference, a secret the query can resolve from the
      gateway namespace, and secret data the validator accepts. */
  function TranslateSslConfig(env: Env, gatewayNamespace: string, tls: Option<TlsConfig>)
    : (r: SslOutcome)
    ensures r.NoTls? <==> tls.None? || tls.value.mode != Some(Terminate)
    ensures r.Bundle? ==>
              && |tls.value.certRefs| == 1
              && var lookup := env.lookupSecret(gatewayNamespace, tls.value.certRefs[0]);
              && lookup.SecretFound?
              && env.validateSecret(lookup.secret).None?
              && r.bundle == TlsBundle(DataOrEmpty(lookup.secret.data, TlsPrivateKeyKey),
                                       DataOrEmpty(lookup.secret.data, TlsCertKey),
                                       DataOrEmpty(lookup.secret.data, RootCaKey))
    ensures r.SslFailed? ==>
              if |tls.value.certRefs| != 1 then r.err == OtherSslError(OneCertRefMessage)
              else
                var lookup := env.lookupSecret(gatewayNamespace, tls.value.certRefs[0]);
                lookup == SecretFailed(r.err) ||
                (lookup.SecretFound? && env.validateSecret(lookup.secret) == Some(r.err))
  {
    if tls.None? || tls.value.mode != Some(Terminate) then NoTls
    else if |tls.value.certRefs| != 1 then SslFailed(OtherSslError(OneCertRefMessage))
    else match env.lookupSecret(gatewayNamespace, tls.value.certRefs[0])
      case SecretFailed(e) => SslFailed(e)
      case SecretFound(secret) =>
        match env.validateSecret(secret)
        case Some(e) => SslFailed(e)
        case None =>
          Bundle(TlsBundle(DataOrEmpty(secret.data, TlsPrivateKeyKey),
                           DataOrEmpty(secret.data, TlsCertKey),
                           DataOrEmpty(secret.data, RootCaKey)))
  }

  /** The listener condition reason for a TLS failure. */
  function TlsFailureReason(e: SslError): string {
    if e == MissingReferenceGrant then ReasonRefNotPermitted else ReasonInvalidCertificateRef
  }

  /** The listener condition message for a TLS failure. */
  function TlsFailureMessage(e: SslError): string {
    match e
    case MissingReferenceGrant => "Reference not permitted by ReferenceGrant."
    case InvalidTlsSecret(text) => text
    case SecretNotFound(ns, name) => "Secret " + ns + "/" + name + " not found."
    case OtherSslError(_) => "Invalid certificate ref."
  }

  /** ResolvedRefs=False, then Programmed=False, on the reporter, with one
      message. Only a missing reference grant is reported as not
      permitted; a missing secret names the secret. */
  function TlsFailureEvents(reporter: ListenerId, e: SslError): (ev: seq<Event>)
    ensures |ev| == 2
    ensures forall i :: 0 <= i < 2 ==>
              ev[i].ListenerStatus? && ev[i].listener == reporter &&
              !ev[i].cond.status && ev[i].cond.message == TlsFailureMessage(e)
    ensures ev[0].cond.kind == ResolvedRefs && ev[1].cond.kind == Programmed
    ensures ev[1].cond.reason == ReasonInvalid
    ensures ev[0].cond.reason == ReasonRefNotPermitted <==> e.MissingReferenceGrant?
    ensures !e.MissingReferenceGrant? ==> ev[0].cond.reason == ReasonInvalidCertificateRef
    ensures e.SecretNotFound? ==> ev[0].cond.message == "Secret " + e.namespace + "/" + e.name + " not found."
    ensures e.MissingReferenceGrant? ==> ev[0].cond.message == "Reference not permitted by ReferenceGrant."
    ensures e.InvalidTlsSecret? ==> ev[0].cond.message == e.text
    ensures e.OtherSslError? ==> ev[0].cond.message == "Invalid certificate ref."
  {
    [ListenerStatus(reporter, Condition(ResolvedRefs, false, TlsFailureReason(e), TlsFailureMessage(e))),
     ListenerStatus(reporter, Condition(Programmed, false, ReasonInvalid, TlsFailureMessage(e)))]
  }

  // ---------------------------------------------------------------------
  // HTTPS.

  function SniOf(sni: Option<string>): seq<string> {
    if sni.Some? then [sni.value] else []
  }

  /** `translateHttpsFilterChain`: routes are translated first (so their
      errors are reported even when TLS fails); a TLS failure drops the
      chain and reports on `reporter`. The vhosts carry no policies and no
      parent listener. */
  function TranslateHttpsFilterChain(env: Env, c: HttpsChain, gatewayNamespace: string, reporter: ListenerId)
    : (r: Translated<Option<HttpChainIR>>)
    ensures var ssl := TranslateSslConfig(env, gatewayNamespace, Some(c.tls));
            && (r.value.None? <==> ssl.SslFailed?)
            && (r.value.Some? ==>
                  && r.value.value.name == c.routeKey
                  && r.value.value.sniDomains == SniOf(c.sni)
                  && r.value.value.policies == c.policies
                  && r.value.value.tls == (if ssl.Bundle? then Some(ssl.bundle) else None))
            && |r.events| == |c.routes| + (if ssl.SslFailed? then 2 else 0)
            && r.events[..|c.routes|] == TranslationEvents(c.routes)
            && (ssl.SslFailed? ==> r.events[|c.routes|..] == TlsFailureEvents(reporter, ssl.err))
  {
    var routes := TranslationEvents(c.routes);
    var ctx := VhostContext(c.routeKey, env.sanitize, []);
    var vhosts := VirtualHosts(ctx, BuildRoutesPerHost(c.routes));
    match TranslateSslConfig(env, gatewayNamespace, Some(c.tls))
    case SslFailed(e) =>
      var ev := routes + TlsFailureEvents(reporter, e);
      assert ev[..|c.routes|] == routes;
      Translated(None, ev)
    case NoTls =>
      assert routes[..|c.routes|] == routes;
      Translated(Some(HttpChainIR(c.routeKey, SniOf(c.sni), None, c.policies, vhosts)), routes)
    case Bundle(b) =>
      assert routes[..|c.routes|] == routes;
      Translated(Some(HttpChainIR(c.routeKey, SniOf(c.sni), Some(b), c.policies, vhosts)), routes)
  }

  /** The vhosts of an HTTPS chain: ordered by name, each holding all the
      rules of its host stably sorted, with no policies and no parent
      listener; every host that collects rules is covered. */
  lemma HttpsChainVhosts(env: Env, c: HttpsChain, gatewayNamespace: string, reporter: ListenerId)
    requires TranslateHttpsFilterChain(env, c, gatewayNamespace, reporter).value.Some?
    ensures var vs := TranslateHttpsFilterChain(env, c, gatewayNamespace, reporter).value.value.vhosts;
            forall i, j :: 0 <= i < j < |vs| ==> StrLess(vs[i].name, vs[j].name)
    ensures forall v :: v in TranslateHttpsFilterChain(env, c, gatewayNamespace, reporter).value.value.vhosts ==>
              && RulesFor(c.routes, v.hostname) != []
              && v.name == env.sanitize(c.routeKey + "~" + v.hostname)
              && v.rules == StableSort(RulesFor(c.routes, v.hostname))
              && v.policies == [] && v.parentRef.None?
    ensures forall h :: RulesFor(c.routes, h) != [] ==>
              exists v :: v in TranslateHttpsFilterChain(env, c, gatewayNamespace, reporter).value.value.vhosts &&
                          v.name == env.sanitize(c.routeKey + "~" + h)
  {
    var ctx := VhostContext(c.routeKey, env.sanitize, []);
    VhostsOfRoutes(ctx, c.routes);
    assert TranslateHttpsFilterChain(env, c, gatewayNamespace, reporter).value.value.vhosts ==
           VirtualHosts(ctx, BuildRoutesPerHost(c.routes));
  }

  // ---------------------------------------------------------------------
  // TCP and TLS passthrough.

  /** `k` is the route `slices.MinFunc` picks by creation time: an earliest
      one, and the first among equally early ones. */
  predicate IsEarliest(routes: seq<RouteInfo>, k: nat) {
    && k < |routes|
    && (forall j :: 0 <= j < |routes| ==> routes[k].creation <= routes[j].creation)
    && (forall j :: 0 <= j < k ==> routes[j].creation > routes[k].creation)
  }

  /** The scan of `slices.MinFunc`: the minimum so far is replaced only by
      a strictly earlier route. */
  function MinFrom(routes: seq<RouteInfo>, i: nat, best: nat): (r: nat)
    requires best < i <= |routes|
    requires forall j :: 0 <= j < i ==> routes[best].creation <= routes[j].creation
    requires forall j :: 0 <= j < best ==> routes[j].creation > routes[best].creation
    ensures IsEarliest(routes, r)
    decreases |routes| - i
  {
    if i == |routes| then best
    else if routes[i].creation < routes[best].creation then MinFrom(routes, i + 1, i)
    else MinFrom(routes, i + 1, best)
  }

  function Earliest(routes: seq<RouteInfo>): (r: nat)
    requires |routes| > 0
    ensures IsEarliest(routes, r)
    ensures forall k :: IsEarliest(routes, k) ==> k == r
  {
    MinFrom(routes, 1, 0)
  }

  /** Reordering the routes never changes the creation time picked, and
      with distinct creation times it never changes the route picked. */
  lemma EarliestOrderIndependent(a: seq<RouteInfo>, b: seq<RouteInfo>)
    requires |a| > 0 && multiset(a) == multiset(b)
    ensures |b| > 0
    ensures a[Earliest(a)].creation == b[Earliest(b)].creation
    ensures (forall i, j :: 0 <= i < j < |a| ==> a[i].creation != a[j].creation) ==>
              a[Earliest(a)] == b[Earliest(b)]
  {
    assert a[0] in multiset(b);
    var x := a[Earliest(a)];
    assert x in multiset(a);
    var p :| 0 <= p < |b| && b[p] == x;
    var y := b[Earliest(b)];
    assert y in multiset(b);
    var q :| 0 <= q < |a| && a[q] == y;
    assert y.creation <= x.creation && x.creation <= y.creation;
    if (forall i, j :: 0 <= i < j < |a| ==> a[i].creation != a[j].creation) {
      assert a[q].creation == a[Earliest(a)].creation;
    }
  }

  /** The condition set on every parent ref of an accepted route. */
  const AcceptedCondition := Condition(Accepted, true, ReasonAccepted, "")

  /** `Accepted=True` on each parent ref of a route, in order. */
  function AcceptedEvents(id: RouteId, parentRefs: seq<string>): seq<Event> {
    seq(|parentRefs|, i requires 0 <= i < |parentRefs| => RouteStatus(id, parentRefs[i], AcceptedCondition))
  }

  /** A backend with an error, or with no resolved object, is reported
      with its error or with `not found`. */
  function BackendFailure(b: Backend): Option<string> {
    if b.err.Some? then b.err
    else if !b.resolved then Some("not found")
    else None
  }

  /** `ProcessBackendError` on every parent ref, for every failing backend
      in order. */
  function BackendEvents(id: RouteId, parentRefs: seq<string>, backends: seq<Backend>): seq<Event> {
    if |backends| == 0 then []
    else
      var b := backends[|backends| - 1];
      BackendEvents(id, parentRefs, backends[..|backends| - 1]) +
        match BackendFailure(b)
        case None => []
        case Some(err) =>
          seq(|parentRefs|, i requires 0 <= i < |parentRefs| => BackendError(id, parentRefs[i], err))
  }

  function FailingCount(backends: seq<Backend>): nat {
    if |backends| == 0 then 0
    else FailingCount(backends[..|backends| - 1]) + (if BackendFailure(backends[|backends| - 1]).Some? then 1 else 0)
  }

  /** One backend error per parent ref per failing backend, each about the
      route, one of its parent refs and a failing backend's message. */
  lemma {:induction false} BackendEventsSpec(id: RouteId, parentRefs: seq<string>, backends: seq<Backend>)
    ensures |BackendEvents(id, parentRefs, backends)| == |parentRefs| * FailingCount(backends)
    ensures forall e :: e in BackendEvents(id, parentRefs, backends) ==>
              && e.BackendError? && e.route == id && e.parentRef in parentRefs
              && exists b :: b in backends && BackendFailure(b) == Some(e.err)
  {
    if |backends| > 0 {
      var init := backends[..|backends| - 1];
      var b := backends[|backends| - 1];
      BackendEventsSpec(id, parentRefs, init);
      var n := FailingCount(init);
      if BackendFailure(b).Some? {
        assert |parentRefs| * (n + 1) == |parentRefs| * n + |parentRefs|;
      }
      forall e | e in BackendEvents(id, parentRefs, backends)
        ensures exists b' :: b' in backends && BackendFailure(b') == Some(e.err)
      {
        if e in BackendEvents(id, parentRefs, init) {
          var b' :| b' in init && BackendFailure(b') == Some(e.err);
          assert b' in backends;
        } else {
          assert b in backends;
        }
      }
    }
  }

  /** `{parentName}-{namespace}.{name}-rule-0`. */
  function TcpChainName(parentName: string, id: RouteId): string {
    parentName + "-" + id.namespace + "." + id.name + "-rule-0"
  }

  /** The chain of the picked TCP or TLS route: only a route with exactly
      one rule is accepted (nothing is reported otherwise); its parent refs
      are marked Accepted, failing backends are reported, and every backend
      is kept. No backends at all means no chain. */
  function RouteChain(ri: RouteInfo, ruleCount: nat, parentRefs: seq<string>, backends: seq<Backend>,
                      parentName: string, sni: seq<string>): Translated<Option<TcpIR>>
  {
    if ruleCount != 1 then Translated(None, [])
    else
      var ev := AcceptedEvents(ri.id, parentRefs) + BackendEvents(ri.id, parentRefs, backends);
      if |backends| == 0 then Translated(None, ev)
      else Translated(Some(TcpIR(TcpChainName(parentName, ri.id), sni, backends)), ev)
  }

  /** A chain whose route is a TCP or TLS route with exactly one rule. */
  predicate Accepts(c: TcpChain) {
    && |c.routes| > 0
    && var o := c.routes[Earliest(c.routes)].obj;
    && (o.TcpRouteObject? || o.TlsRouteObject?)
    && o.ruleCount == 1
  }

  /** `translateTcpFilterChain`: only the earliest-created route is used. */
  function TranslateTcpFilterChain(c: TcpChain, parentName: string): (r: Translated<Option<TcpIR>>)
    ensures r.value.Some? <==> Accepts(c) && |c.routes[Earliest(c.routes)].obj.backends| > 0
    ensures r.value.Some? ==>
              var ri := c.routes[Earliest(c.routes)];
              && r.value.value.name == TcpChainName(parentName, ri.id)
              && r.value.value.backends == ri.obj.backends
              && r.value.value.sniDomains == (if ri.obj.TlsRouteObject? then SniOf(c.sni) else [])
    ensures !Accepts(c) ==> r.events == []
    ensures Accepts(c) ==>
              var ri := c.routes[Earliest(c.routes)];
              r.events == AcceptedEvents(ri.id, ri.obj.parentRefs) +
                          BackendEvents(ri.id, ri.obj.parentRefs, ri.obj.backends)
  {
    if |c.routes| == 0 then Translated(None, [])
    else
      var ri := c.routes[Earliest(c.routes)];
      match ri.obj
      case TcpRouteObject(n, refs, backends) => RouteChain(ri, n, refs, backends, parentName, [])
      case TlsRouteObject(n, refs, backends) => RouteChain(ri, n, refs, backends, parentName, SniOf(c.sni))
      case HttpRouteObject => Translated(None, [])
      case OtherRouteObject => Translated(None, [])
  }

  /** A TCP chain reports only on routes, never on a listener. */
  lemma TcpChainEvents(c: TcpChain, parentName: string)
    ensures forall e :: e in TranslateTcpFilterChain(c, parentName).events ==> !e.ListenerStatus?
  {
    if Accepts(c) {
      var ri := c.routes[Earliest(c.routes)];
      BackendEventsSpec(ri.id, ri.obj.parentRefs, ri.obj.backends);
    }
  }
}
