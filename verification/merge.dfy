/** Grouping Gateway-API listeners by port into merged listeners
    (`mergeGWListeners`, `AppendListener` and the per-protocol append
    functions of the listener translator). */
module Merge {
  import opened Common
  import opened Gateway

  /** One plaintext listener's contribution to the shared HTTP chain. */
  datatype HttpParent = HttpParent(
    routeKey: string,
    listener: Listener,
    routes: seq<RouteInfo>,
    policies: seq<Policy>)

  /** The single plaintext chain of a port. */
  datatype HttpChain = HttpChain(parents: seq<HttpParent>)

  /** One HTTPS listener's chain, never shared. `reporter` is the reporter
      of the listener the chain was built from. */
  datatype HttpsChain = HttpsChain(
    routeKey: string,
    sni: Option<string>,
    tls: TlsConfig,
    routes: seq<RouteInfo>,
    policies: seq<Policy>,
    reporter: ListenerId)

  /** One TCP or TLS listener's chain, never shared. TCP chains carry no TLS
      block and no SNI domain. */
  datatype TcpChain = TcpChain(
    routeKey: string,
    routes: seq<RouteInfo>,
    tls: Option<TlsConfig>,
    sni: Option<string>,
    reporter: ListenerId)

  /** All listeners sharing one port. `first` is the listener that created
      it and `reporter` that listener's reporter. */
  datatype MergedListener = MergedListener(
    name: string,
    port: PortNumber,
    http: Option<HttpChain>,
    https: seq<HttpsChain>,
    tcp: seq<TcpChain>,
    reporter: ListenerId,
    first: Listener)

  /** One validated listener and the route-binding result found for it
      (absent when the query had none). */
  datatype ListenerEntry = ListenerEntry(listener: Listener, result: Option<ListenerRoutes>)

  /** `GenerateListenerNameFromPort`: `listener~{port}`. */
  function ListenerName(port: PortNumber): string {
    "listener~" + NatToString(port)
  }

  /** Distinct ports give distinct listener names. */
  lemma ListenerNameInjective(p: PortNumber, q: PortNumber)
    requires ListenerName(p) == ListenerName(q)
    ensures p == q
  {
    var pre := "listener~";
    assert ListenerName(p)[|pre|..] == NatToString(p);
    assert ListenerName(q)[|pre|..] == NatToString(q);
    NatToStringInjective(p, q);
  }

  predicate Supported(l: Listener) {
    !l.protocol.OtherProtocol?
  }

  function RoutesOf(e: ListenerEntry): seq<RouteInfo> {
    if e.result.Some? then e.result.value.routes else []
  }

  function ParentOf(l: Listener, routes: seq<RouteInfo>): HttpParent {
    HttpParent(l.routeKey, l, routes, l.policies)
  }

  function HttpsChainOf(l: Listener, routes: seq<RouteInfo>): HttpsChain {
    HttpsChain(l.routeKey, l.hostname, if l.tls.Some? then l.tls.value else EmptyTls,
               routes, l.policies, l.Reporter())
  }

  /** The chain of a TCP listener (no TLS, no SNI) or of a TLS listener
      (its TLS block defaulted to an empty one, its hostname as SNI). */
  function TcpChainOf(l: Listener, routes: seq<RouteInfo>): TcpChain
    requires l.protocol == TCP || l.protocol == TLS
  {
    if l.protocol == TCP then TcpChain(l.routeKey, routes, None, None, l.Reporter())
    else TcpChain(l.routeKey, routes, Some(if l.tls.Some? then l.tls.value else EmptyTls),
                  l.hostname, l.Reporter())
  }

  /** Index of the first merged listener on `port`. */
  function FindPort(ms: seq<MergedListener>, port: PortNumber): (r: Option<nat>)
    ensures r.Some? ==> r.value < |ms| && ms[r.value].port == port &&
                        forall j :: 0 <= j < r.value ==> ms[j].port != port
    ensures r.None? ==> forall j :: 0 <= j < |ms| ==> ms[j].port != port
  {
    if |ms| == 0 then None
    else if ms[0].port == port then Some(0)
    else match FindPort(ms[1..], port)
      case None => None
      case Some(k) => Some(k + 1)
  }

  /** A fresh merged listener for the first listener seen on its port. */
  function NewMerged(l: Listener, routes: seq<RouteInfo>): MergedListener
    requires Supported(l)
  {
    MergedListener(
      ListenerName(l.port), l.port,
      if l.protocol == HTTP then Some(HttpChain([ParentOf(l, routes)])) else None,
      if l.protocol == HTTPS then [HttpsChainOf(l, routes)] else [],
      if l.protocol == TCP || l.protocol == TLS then [TcpChainOf(l, routes)] else [],
      l.Reporter(), l)
  }

  /** Adding a listener to the merged listener already on its port: an HTTP
      listener joins the one shared chain (creating it if absent); any other
      listener adds a chain of its own. */
  function AddToMerged(m: MergedListener, l: Listener, routes: seq<RouteInfo>): MergedListener
    requires Supported(l)
  {
    match l.protocol
    case HTTP =>
      m.(http := Some(HttpChain(
        (if m.http.Some? then m.http.value.parents else []) + [ParentOf(l, routes)])))
    case HTTPS => m.(https := m.https + [HttpsChainOf(l, routes)])
    case TCP => m.(tcp := m.tcp + [TcpChainOf(l, routes)])
    case TLS => m.(tcp := m.tcp + [TcpChainOf(l, routes)])
    case OtherProtocol(_) => m
  }

  /** `MergedListeners.AppendListener`: dispatch on protocol; an unknown
      protocol is an error and changes nothing. */
  function AppendListener(ms: seq<MergedListener>, l: Listener, routes: seq<RouteInfo>)
    : (r: Result<seq<MergedListener>>)
    ensures r.Failure? <==> l.protocol.OtherProtocol?
    ensures r.Failure? ==> r.error == "unsupported protocol: " + l.protocol.raw
    ensures r.Success? && FindPort(ms, l.port).None? ==>
              |r.value| == |ms| + 1 && r.value[..|ms|] == ms &&
              r.value[|ms|].port == l.port && r.value[|ms|].name == ListenerName(l.port) &&
              r.value[|ms|].first == l && r.value[|ms|].reporter == l.Reporter()
    ensures r.Success? && FindPort(ms, l.port).None? ==>
              var n := r.value[|ms|];
              && (n.http.Some? <==> l.protocol == HTTP)
              && (l.protocol == HTTP ==> n.http.value.parents == [ParentOf(l, routes)])
              && n.https == (if l.protocol == HTTPS then [HttpsChainOf(l, routes)] else [])
              && n.tcp == (if l.protocol == TCP || l.protocol == TLS then [TcpChainOf(l, routes)] else [])
    ensures r.Success? && FindPort(ms, l.port).Some? ==>
              |r.value| == |ms| &&
              (forall j :: 0 <= j < |ms| && j != FindPort(ms, l.port).value ==>
                 r.value[j] == ms[j]) &&
              r.value[FindPort(ms, l.port).value].port == l.port
    ensures r.Success? && FindPort(ms, l.port).Some? ==>
              var i := FindPort(ms, l.port).value;
              if l.protocol == HTTP then
                && r.value[i].http.Some?
                && r.value[i].http.value.parents ==
                     (if ms[i].http.Some? then ms[i].http.value.parents else []) + [ParentOf(l, routes)]
                && r.value[i].https == ms[i].https && r.value[i].tcp == ms[i].tcp
              else
                && r.value[i].http == ms[i].http
                && r.value[i].https ==
                     ms[i].https + (if l.protocol == HTTPS then [HttpsChainOf(l, routes)] else [])
                && r.value[i].tcp ==
                     ms[i].tcp + (if l.protocol == TCP || l.protocol == TLS then [TcpChainOf(l, routes)] else [])
    ensures r.Success? && FindPort(ms, l.port).Some? ==>
              var i := FindPort(ms, l.port).value;
              r.value[i].name == ms[i].name && r.value[i].first == ms[i].first &&
              r.value[i].reporter == ms[i].reporter
  {
    if l.protocol.OtherProtocol? then Failure("unsupported protocol: " + l.protocol.raw)
    else match FindPort(ms, l.port)
      case None => Success(ms + [NewMerged(l, routes)])
      case Some(i) => Success(ms[i := AddToMerged(ms[i], l, routes)])
  }

  /** `mergeGWListeners`: fold `AppendListener` over the listeners in input
      order; errors are dropped, and so is the route query's error. */
  function MergeListeners(es: seq<ListenerEntry>): seq<MergedListener> {
    if |es| == 0 then []
    else
      var ms := MergeListeners(es[..|es| - 1]);
      var e := es[|es| - 1];
      match AppendListener(ms, e.listener, RoutesOf(e))
      case Success(ms') => ms'
      case Failure(_) => ms
  }

  // ---------------------------------------------------------------------
  // Reference definition: one merged listener per distinct port, built
  // from the group of supported listeners on that port.

  /** Distinct ports of the supported listeners, in first-seen order. */
  function Ports(es: seq<ListenerEntry>): seq<PortNumber> {
    if |es| == 0 then []
    else
      var ps := Ports(es[..|es| - 1]);
      var l := es[|es| - 1].listener;
      if Supported(l) && l.port !in ps then ps + [l.port] else ps
  }

  /** The supported listeners on `port`, in input order. */
  function Group(es: seq<ListenerEntry>, port: PortNumber): seq<ListenerEntry> {
    if |es| == 0 then []
    else
      var g := Group(es[..|es| - 1], port);
      var l := es[|es| - 1].listener;
      if Supported(l) && l.port == port then g + [es[|es| - 1]] else g
  }

  function HttpParents(g: seq<ListenerEntry>): seq<HttpParent> {
    if |g| == 0 then []
    else
      var e := g[|g| - 1];
      HttpParents(g[..|g| - 1]) +
        (if e.listener.protocol == HTTP then [ParentOf(e.listener, RoutesOf(e))] else [])
  }

  function GroupHttpsChains(g: seq<ListenerEntry>): seq<HttpsChain> {
    if |g| == 0 then []
    else
      var e := g[|g| - 1];
      GroupHttpsChains(g[..|g| - 1]) +
        (if e.listener.protocol == HTTPS then [HttpsChainOf(e.listener, RoutesOf(e))] else [])
  }

  function GroupTcpChains(g: seq<ListenerEntry>): seq<TcpChain> {
    if |g| == 0 then []
    else
      var e := g[|g| - 1];
      GroupTcpChains(g[..|g| - 1]) +
        (if e.listener.protocol == TCP || e.listener.protocol == TLS
         then [TcpChainOf(e.listener, RoutesOf(e))] else [])
  }

  /** The merged listener a non-empty same-port group should produce. */
  function FromGroup(g: seq<ListenerEntry>): MergedListener
    requires |g| > 0
  {
    var l := g[0].listener;
    var ps := HttpParents(g);
    MergedListener(ListenerName(l.port), l.port,
                   if |ps| == 0 then None else Some(HttpChain(ps)),
                   GroupHttpsChains(g), GroupTcpChains(g), l.Reporter(), l)
  }

  predicate SamePortSupported(g: seq<ListenerEntry>, port: PortNumber) {
    forall k :: 0 <= k < |g| ==> Supported(g[k].listener) && g[k].listener.port == port
  }

  lemma GroupShape(es: seq<ListenerEntry>, port: PortNumber)
    ensures SamePortSupported(Group(es, port), port)
  {
  }

  lemma FromSingleton(e: ListenerEntry)
    requires Supported(e.listener)
    ensures FromGroup([e]) == NewMerged(e.listener, RoutesOf(e))
  {
    var g := [e];
    assert g[..0] == [];
    assert HttpParents(g) == if e.listener.protocol == HTTP then [ParentOf(e.listener, RoutesOf(e))] else [];
    assert GroupHttpsChains(g) == if e.listener.protocol == HTTPS then [HttpsChainOf(e.listener, RoutesOf(e))] else [];
    assert GroupTcpChains(g) == if e.listener.protocol == TCP || e.listener.protocol == TLS then [TcpChainOf(e.listener, RoutesOf(e))] else [];
  }

  /** Growing a group by one listener is what `AddToMerged` does. */
  lemma FromGroupSnoc(g: seq<ListenerEntry>, e: ListenerEntry)
    requires |g| > 0 && Supported(e.listener)
    requires e.listener.port == g[0].listener.port
    ensures FromGroup(g + [e]) == AddToMerged(FromGroup(g), e.listener, RoutesOf(e))
  {
    var g' := g + [e];
    assert g'[..|g'| - 1] == g;
    assert g'[0] == g[0];
    var l := e.listener;
    var m := FromGroup(g);
    assert HttpParents(g') == HttpParents(g) + (if l.protocol == HTTP then [ParentOf(l, RoutesOf(e))] else []);
    assert GroupHttpsChains(g') == GroupHttpsChains(g) + (if l.protocol == HTTPS then [HttpsChainOf(l, RoutesOf(e))] else []);
    assert GroupTcpChains(g') == GroupTcpChains(g) + (if l.protocol == TCP || l.protocol == TLS then [TcpChainOf(l, RoutesOf(e))] else []);
    var m' := AddToMerged(m, l, RoutesOf(e));
    if l.protocol == HTTP {
      assert m'.http == Some(HttpChain(HttpParents(g')));
    } else {
      assert HttpParents(g') == HttpParents(g);
    }
  }

  lemma PortsGroups(es: seq<ListenerEntry>)
    ensures forall p :: p in Ports(es) <==> |Group(es, p)| > 0
    ensures forall i, j :: 0 <= i < j < |Ports(es)| ==> Ports(es)[i] != Ports(es)[j]
  {
    if |es| > 0 {
      PortsGroups(es[..|es| - 1]);
    }
  }

  /** One merged listener per distinct supported port, in first-seen
      order, each equal to the reference built from its port's group. */
  predicate MergedAsGroups(es: seq<ListenerEntry>) {
    && |MergeListeners(es)| == |Ports(es)|
    && (forall i :: 0 <= i < |Ports(es)| ==> |Group(es, Ports(es)[i])| > 0)
    && (forall i :: 0 <= i < |Ports(es)| ==>
          MergeListeners(es)[i].port == Ports(es)[i] &&
          MergeListeners(es)[i] == FromGroup(Group(es, Ports(es)[i])))
  }

  /** The step of the fold for a listener on a port not seen before. */
  lemma {:induction false} MergeStepNewPort(es: seq<ListenerEntry>)
    requires |es| > 0 && Supported(es[|es| - 1].listener)
    requires MergedAsGroups(es[..|es| - 1])
    requires FindPort(MergeListeners(es[..|es| - 1]), es[|es| - 1].listener.port).None?
    ensures MergedAsGroups(es)
  {
    var init := es[..|es| - 1];
    var e := es[|es| - 1];
    var l := e.listener;
    var ms := MergeListeners(init);
    var ps := Ports(init);
    assert l.port !in ps by {
      assert forall j :: 0 <= j < |ms| ==> ms[j].port == ps[j];
    }
    var ms' := MergeListeners(es);
    var ps' := Ports(es);
    assert ps' == ps + [l.port];
    assert ms' == ms + [NewMerged(l, RoutesOf(e))];
    forall i | 0 <= i < |ps'|
      ensures |Group(es, ps'[i])| > 0 && ms'[i].port == ps'[i] && ms'[i] == FromGroup(Group(es, ps'[i]))
    {
      if i < |ps| {
        assert ps'[i] == ps[i] && ms'[i] == ms[i];
        assert Group(es, ps[i]) == Group(init, ps[i]);
      } else {
        PortsGroups(init);
        assert Group(es, l.port) == [e];
        FromSingleton(e);
      }
    }
  }

  /** The step of the fold for a listener joining a port already seen. */
  lemma {:induction false} MergeStepKnownPort(es: seq<ListenerEntry>)
    requires |es| > 0 && Supported(es[|es| - 1].listener)
    requires MergedAsGroups(es[..|es| - 1])
    requires FindPort(MergeListeners(es[..|es| - 1]), es[|es| - 1].listener.port).Some?
    ensures MergedAsGroups(es)
  {
    var init := es[..|es| - 1];
    var e := es[|es| - 1];
    var l := e.listener;
    var ms := MergeListeners(init);
    var ps := Ports(init);
    var i := FindPort(ms, l.port).value;
    assert ps[i] == l.port;
    assert Ports(es) == ps;
    assert MergeListeners(es) == ms[i := AddToMerged(ms[i], l, RoutesOf(e))];
    forall p | p != l.port ensures Group(es, p) == Group(init, p) { }
    assert Group(es, l.port) == Group(init, l.port) + [e];
    PortsGroups(init);
    GroupShape(init, l.port);
    FromGroupSnoc(Group(init, l.port), e);
  }

  /** The fold builds exactly one merged listener per distinct supported
      port, in first-seen order, each equal to the reference built from the
      group of listeners on that port. */
  lemma {:induction false} MergeMatchesGroups(es: seq<ListenerEntry>)
    ensures |MergeListeners(es)| == |Ports(es)|
    ensures forall i :: 0 <= i < |Ports(es)| ==> |Group(es, Ports(es)[i])| > 0
    ensures forall i :: 0 <= i < |Ports(es)| ==>
              MergeListeners(es)[i].port == Ports(es)[i] &&
              MergeListeners(es)[i] == FromGroup(Group(es, Ports(es)[i]))
  {
    if |es| == 0 {
      return;
    }
    var init := es[..|es| - 1];
    var l := es[|es| - 1].listener;
    MergeMatchesGroups(init);
    if !Supported(l) {
      assert Ports(es) == Ports(init);
      assert MergeListeners(es) == MergeListeners(init);
      forall p ensures Group(es, p) == Group(init, p) { }
    } else if FindPort(MergeListeners(init), l.port).None? {
      MergeStepNewPort(es);
    } else {
      MergeStepKnownPort(es);
    }
  }

  // ---------------------------------------------------------------------
  // Counting view of the same result.

  /** Number of listeners with the given port and protocol. */
  function CountOn(es: seq<ListenerEntry>, port: PortNumber, proto: Protocol): nat {
    if |es| == 0 then 0
    else
      var l := es[|es| - 1].listener;
      CountOn(es[..|es| - 1], port, proto) + (if l.port == port && l.protocol == proto then 1 else 0)
  }

  lemma {:induction false} GroupCounts(es: seq<ListenerEntry>, port: PortNumber)
    ensures |HttpParents(Group(es, port))| == CountOn(es, port, HTTP)
    ensures |GroupHttpsChains(Group(es, port))| == CountOn(es, port, HTTPS)
    ensures |GroupTcpChains(Group(es, port))| == CountOn(es, port, TCP) + CountOn(es, port, TLS)
  {
    if |es| > 0 {
      var init := es[..|es| - 1];
      var e := es[|es| - 1];
      GroupCounts(init, port);
      var g := Group(init, port);
      if Supported(e.listener) && e.listener.port == port {
        var g' := g + [e];
        assert g'[..|g'| - 1] == g;
      }
    }
  }

  /** For every merged listener: the HTTP chain exists iff some HTTP listener
      is on its port, and then has one parent per such listener; there is one
      HTTPS chain per HTTPS listener and one TCP chain per TCP or TLS
      listener on the port; the name is `listener~{port}`. */
  lemma ChainCounts(es: seq<ListenerEntry>, i: nat)
    requires i < |MergeListeners(es)|
    ensures var m := MergeListeners(es)[i];
            && m.name == ListenerName(m.port)
            && (m.http.Some? <==> CountOn(es, m.port, HTTP) > 0)
            && (m.http.Some? ==> |m.http.value.parents| == CountOn(es, m.port, HTTP))
            && |m.https| == CountOn(es, m.port, HTTPS)
            && |m.tcp| == CountOn(es, m.port, TCP) + CountOn(es, m.port, TLS)
  {
    MergeMatchesGroups(es);
    GroupCounts(es, Ports(es)[i]);
  }

  /** No two merged listeners share a port. */
  lemma PortsUnique(es: seq<ListenerEntry>)
    ensures forall i, j :: 0 <= i < j < |MergeListeners(es)| ==>
              MergeListeners(es)[i].port != MergeListeners(es)[j].port
  {
    MergeMatchesGroups(es);
    PortsGroups(es);
  }

  /** The route query's error never changes the merge. */
  lemma {:induction false} QueryErrorIgnored(es: seq<ListenerEntry>, es': seq<ListenerEntry>)
    requires |es| == |es'|
    requires forall k :: 0 <= k < |es| ==> es[k].listener == es'[k].listener && RoutesOf(es[k]) == RoutesOf(es'[k])
    ensures MergeListeners(es) == MergeListeners(es')
  {
    if |es| > 0 {
      QueryErrorIgnored(es[..|es| - 1], es'[..|es'| - 1]);
    }
  }
}
