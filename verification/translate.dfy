/** Translation of merged listeners into listener IR
    (`MergedListener.TranslateListener`, `translateListeners` and the
    entry point `TranslateListeners`). */
module Translate {
  import opened Common
  import opened Gateway
  import opened Merge
  import opened Vhosts
  import opened Chains

  // ---------------------------------------------------------------------
  // HTTPS chains of one merged listener.

  /** The TLS error of an HTTPS chain, if any. */
  predicate SslOk(env: Env, ns: string, c: HttpsChain) {
    !TranslateSslConfig(env, ns, Some(c.tls)).SslFailed?
  }

  function SslErr(env: Env, ns: string, c: HttpsChain): SslError
    requires !SslOk(env, ns, c)
  {
    TranslateSslConfig(env, ns, Some(c.tls)).err
  }

  /** Where a failing HTTPS chain's conditions go: the shared reporter when
      one is given, else the chain's own listener. */
  function ReporterOf(shared: Option<ListenerId>, c: HttpsChain): ListenerId {
    if shared.Some? then shared.value else c.reporter
  }

  /** The loop over HTTPS chains: a chain whose TLS fails is logged and
      skipped; the others are kept in order. */
  function HttpsChainsWith(env: Env, chains: seq<HttpsChain>, ns: string, shared: Option<ListenerId>)
    : Translated<seq<HttpChainIR>>
  {
    if |chains| == 0 then Translated([], [])
    else
      var prev := HttpsChainsWith(env, chains[..|chains| - 1], ns, shared);
      var c := chains[|chains| - 1];
      var t := TranslateHttpsFilterChain(env, c, ns, ReporterOf(shared, c));
      Translated(prev.value + (if t.value.Some? then [t.value.value] else []), prev.events + t.events)
  }

  /** The HTTPS loop as written: every failure is reported on the merged
      listener's reporter, i.e. on the first listener of the port. */
  function HttpsChainsAsWritten(env: Env, m: MergedListener, ns: string): Translated<seq<HttpChainIR>> {
    HttpsChainsWith(env, m.https, ns, Some(m.reporter))
  }

  /** The HTTPS loop with each failure reported on the failing chain's own
      listener. */
  function HttpsChains(env: Env, m: MergedListener, ns: string): Translated<seq<HttpChainIR>> {
    HttpsChainsWith(env, m.https, ns, None)
  }

  /** Reference: the route keys of the chains whose TLS resolves. */
  function SurvivingKeys(env: Env, ns: string, chains: seq<HttpsChain>): seq<string> {
    if |chains| == 0 then []
    else
      var c := chains[|chains| - 1];
      SurvivingKeys(env, ns, chains[..|chains| - 1]) + (if SslOk(env, ns, c) then [c.routeKey] else [])
  }

  /** One HTTPS chain: it survives exactly when its TLS resolves, and its
      only listener conditions are the two failure conditions. */
  lemma HttpsChainOutcome(env: Env, c: HttpsChain, ns: string, rep: ListenerId)
    ensures var t := TranslateHttpsFilterChain(env, c, ns, rep);
            && (t.value.Some? <==> SslOk(env, ns, c))
            && (t.value.Some? ==> t.value.value.name == c.routeKey)
            && (!SslOk(env, ns, c) ==>
                  forall e :: e in TlsFailureEvents(rep, SslErr(env, ns, c)) ==> e in t.events)
            && (forall e :: e in t.events && e.ListenerStatus? ==>
                  !SslOk(env, ns, c) && e in TlsFailureEvents(rep, SslErr(env, ns, c)))
  {
    var t := TranslateHttpsFilterChain(env, c, ns, rep);
    var n := |c.routes|;
    var pre := TranslationEvents(c.routes);
    assert t.events == t.events[..n] + t.events[n..];
    assert forall e :: e in pre ==> e.RulesTranslated?;
    if SslOk(env, ns, c) {
      assert t.events[n..] == [];
    }
  }

  /** The HTTPS loop keeps exactly the chains whose TLS resolves, in
      order. */
  lemma {:induction false} HttpsChainsKept(env: Env, chains: seq<HttpsChain>, ns: string, shared: Option<ListenerId>)
    ensures var r := HttpsChainsWith(env, chains, ns, shared);
            && |r.value| == |SurvivingKeys(env, ns, chains)|
            && (forall i :: 0 <= i < |r.value| ==> r.value[i].name == SurvivingKeys(env, ns, chains)[i])
  {
    if |chains| > 0 {
      var c := chains[|chains| - 1];
      HttpsChainsKept(env, chains[..|chains| - 1], ns, shared);
      HttpsChainOutcome(env, c, ns, ReporterOf(shared, c));
    }
  }

  /** If `c`'s TLS fails, both failure conditions are among `events`. */
  predicate FailureReported(env: Env, ns: string, shared: Option<ListenerId>, c: HttpsChain, events: seq<Event>) {
    !SslOk(env, ns, c) ==>
      forall e :: e in TlsFailureEvents(ReporterOf(shared, c), SslErr(env, ns, c)) ==> e in events
  }

  lemma FailureReportedStep(env: Env, ns: string, shared: Option<ListenerId>, init: seq<HttpsChain>,
                            c: HttpsChain, xs: seq<Event>, ys: seq<Event>)
    requires forall j :: 0 <= j < |init| ==> FailureReported(env, ns, shared, init[j], xs)
    requires FailureReported(env, ns, shared, c, ys)
    ensures forall j :: 0 <= j < |init + [c]| ==> FailureReported(env, ns, shared, (init + [c])[j], xs + ys)
  {
    forall j | 0 <= j < |init + [c]|
      ensures FailureReported(env, ns, shared, (init + [c])[j], xs + ys)
    {
      if j < |init| {
        assert FailureReported(env, ns, shared, init[j], xs);
      }
    }
  }

  /** Each failing HTTPS chain reports both failure conditions on its
      reporter. */
  lemma {:induction false} HttpsFailuresReported(env: Env, chains: seq<HttpsChain>, ns: string, shared: Option<ListenerId>)
    ensures forall j :: 0 <= j < |chains| ==>
              FailureReported(env, ns, shared, chains[j], HttpsChainsWith(env, chains, ns, shared).events)
  {
    if |chains| > 0 {
      var init := chains[..|chains| - 1];
      var c := chains[|chains| - 1];
      HttpsFailuresReported(env, init, ns, shared);
      HttpsChainOutcome(env, c, ns, ReporterOf(shared, c));
      var r := HttpsChainsWith(env, chains, ns, shared);
      var prev := HttpsChainsWith(env, init, ns, shared);
      var t := TranslateHttpsFilterChain(env, c, ns, ReporterOf(shared, c));
      assert r.events == prev.events + t.events;
      assert FailureReported(env, ns, shared, c, t.events);
      assert chains == init + [c];
      FailureReportedStep(env, ns, shared, init, c, prev.events, t.events);
    }
  }

  /** Every listener condition of the HTTPS loop is a failure condition of
      a failing chain. */
  lemma {:induction false} HttpsListenerEventsSourced(env: Env, chains: seq<HttpsChain>, ns: string, shared: Option<ListenerId>)
    ensures forall e :: e in HttpsChainsWith(env, chains, ns, shared).events && e.ListenerStatus? ==>
              exists j :: 0 <= j < |chains| && !SslOk(env, ns, chains[j]) &&
                          e in TlsFailureEvents(ReporterOf(shared, chains[j]), SslErr(env, ns, chains[j]))
  {
    if |chains| > 0 {
      var init := chains[..|chains| - 1];
      var c := chains[|chains| - 1];
      HttpsListenerEventsSourced(env, init, ns, shared);
      HttpsChainOutcome(env, c, ns, ReporterOf(shared, c));
      var r := HttpsChainsWith(env, chains, ns, shared);
      var prev := HttpsChainsWith(env, init, ns, shared);
      var t := TranslateHttpsFilterChain(env, c, ns, ReporterOf(shared, c));
      assert r.events == prev.events + t.events;
      forall e | e in r.events && e.ListenerStatus?
        ensures exists j :: 0 <= j < |chains| && !SslOk(env, ns, chains[j]) &&
                            e in TlsFailureEvents(ReporterOf(shared, chains[j]), SslErr(env, ns, chains[j]))
      {
        if e in prev.events {
          var j :| 0 <= j < |init| && !SslOk(env, ns, init[j]) &&
                   e in TlsFailureEvents(ReporterOf(shared, init[j]), SslErr(env, ns, init[j]));
          assert chains[j] == init[j];
        } else {
          assert chains[|chains| - 1] == c;
        }
      }
    }
  }

  /** With per-chain reporting, each failing HTTPS listener is told about
      its own failure, and no listener is told about another's. */
  lemma HttpsFailuresOnOwnListener(env: Env, m: MergedListener, ns: string)
    ensures forall j :: 0 <= j < |m.https| && !SslOk(env, ns, m.https[j]) ==>
              forall e :: e in TlsFailureEvents(m.https[j].reporter, SslErr(env, ns, m.https[j])) ==>
                e in HttpsChains(env, m, ns).events
    ensures forall e :: e in HttpsChains(env, m, ns).events && e.ListenerStatus? ==>
              exists j :: 0 <= j < |m.https| && !SslOk(env, ns, m.https[j]) &&
                          e.listener == m.https[j].reporter
  {
    HttpsFailuresReported(env, m.https, ns, None);
    HttpsListenerEventsSourced(env, m.https, ns, None);
  }

  /** Two HTTPS listeners share port 443; the first has no TLS to
      terminate, the second terminates TLS without a certificate
      reference. As written, the second listener's failure is reported on
      the first listener, and the second listener is told nothing. */
  lemma HttpsReportedOnFirstListener(env: Env)
    ensures var a := ListenerId("gw", "a");
            var b := ListenerId("gw", "b");
            var m := HttpsPortExample(a, b);
            var asWritten := HttpsChainsAsWritten(env, m, "ns").events;
            && (exists e :: e in asWritten && e.ListenerStatus? && e.listener == a)
            && (forall e :: e in asWritten && e.ListenerStatus? ==> e.listener != b)
            && (exists e :: e in HttpsChains(env, m, "ns").events && e.ListenerStatus? && e.listener == b)
  {
    var a := ListenerId("gw", "a");
    var b := ListenerId("gw", "b");
    var m := HttpsPortExample(a, b);
    var c0 := m.https[0];
    var c1 := m.https[1];
    var err := OtherSslError(OneCertRefMessage);
    assert TranslateSslConfig(env, "ns", Some(c0.tls)) == NoTls;
    assert TranslateSslConfig(env, "ns", Some(c1.tls)) == SslFailed(err);
    assert m.https[..1] == [c0];
    assert [c0][..0] == [];
    forall rep: ListenerId
      ensures HttpsChainsWith(env, m.https, "ns", Some(rep)).events == TlsFailureEvents(rep, err)
    {
      assert TranslateHttpsFilterChain(env, c0, "ns", rep).events == [];
      var t1 := TranslateHttpsFilterChain(env, c1, "ns", rep).events;
      assert t1 == t1[0..];
      assert HttpsChainsWith(env, [c0], "ns", Some(rep)).events == [];
    }
    assert TranslateHttpsFilterChain(env, c0, "ns", c0.reporter).events == [];
    var t1 := TranslateHttpsFilterChain(env, c1, "ns", b).events;
    assert t1 == t1[0..];
    assert HttpsChainsWith(env, [c0], "ns", None).events == [];
    assert HttpsChains(env, m, "ns").events == TlsFailureEvents(b, err);
    assert TlsFailureEvents(a, err)[0] in HttpsChainsAsWritten(env, m, "ns").events;
    assert TlsFailureEvents(b, err)[0] in HttpsChains(env, m, "ns").events;
  }

  function HttpsPortExample(a: ListenerId, b: ListenerId): MergedListener {
    var first := Listener(a.parent, a.name, "gw/a", HTTPS, 443, None, None, [], "gw");
    MergedListener(
      ListenerName(443), 443, None,
      [HttpsChain("gw/a", None, EmptyTls, [], [], a),
       HttpsChain("gw/b", None, TlsConfig(Some(Terminate), []), [], [], b)],
      [], a, first)
  }

  // ---------------------------------------------------------------------
  // TCP chains of one merged listener.

  function TcpChains(chains: seq<TcpChain>, parentName: string): Translated<seq<TcpIR>> {
    if |chains| == 0 then Translated([], [])
    else
      var prev := TcpChains(chains[..|chains| - 1], parentName);
      var t := TranslateTcpFilterChain(chains[|chains| - 1], parentName);
      Translated(prev.value + (if t.value.Some? then [t.value.value] else []), prev.events + t.events)
  }

  /** Number of TCP chains that produce an IR. */
  function ProducingCount(chains: seq<TcpChain>, parentName: string): nat {
    if |chains| == 0 then 0
    else ProducingCount(chains[..|chains| - 1], parentName) +
           (if TranslateTcpFilterChain(chains[|chains| - 1], parentName).value.Some? then 1 else 0)
  }

  /** One IR per producing chain, and no listener condition. */
  lemma {:induction false} TcpChainsSpec(chains: seq<TcpChain>, parentName: string)
    ensures |TcpChains(chains, parentName).value| == ProducingCount(chains, parentName)
    ensures forall e :: e in TcpChains(chains, parentName).events ==> !e.ListenerStatus?
  {
    if |chains| > 0 {
      TcpChainsSpec(chains[..|chains| - 1], parentName);
      TcpChainEvents(chains[|chains| - 1], parentName);
    }
  }

  /** The condition set on every TCP/TLS listener of a port when none of
      their chains produced an IR. */
  const NoBackendsCondition := Condition(Programmed, false, ReasonInvalid, TcpTlsListenerNoBackendsMessage)

  /** The no-backends condition on the listener of each TCP/TLS chain. */
  function Escalation(chains: seq<TcpChain>): seq<Event> {
    seq(|chains|, i requires 0 <= i < |chains| => ListenerStatus(chains[i].reporter, NoBackendsCondition))
  }

  // ---------------------------------------------------------------------
  // One merged listener.

  function BindAddress(ipv6: bool): string {
    if ipv6 then "::" else "0.0.0.0"
  }

  function HttpPart(env: Env, m: MergedListener): Translated<seq<HttpChainIR>> {
    if m.http.None? then Translated([], [])
    else
      var t := TranslateHttpFilterChain(env, m.http.value, m.name);
      Translated([t.value], t.events)
  }

  /** Where the HTTPS loop reports a chain's TLS failure. `SharedReporter`
      is the code as written: the merged listener's reporter, that of the
      first listener of the port. `OwnReporter` is the corrected loop: the
      failing chain's own listener. */
  datatype Reporting = SharedReporter | OwnReporter

  function SharedFor(mode: Reporting, m: MergedListener): Option<ListenerId> {
    if mode == SharedReporter then Some(m.reporter) else None
  }

  function HttpsPart(env: Env, m: MergedListener, ns: string, mode: Reporting): Translated<seq<HttpChainIR>> {
    HttpsChainsWith(env, m.https, ns, SharedFor(mode, m))
  }

  /** `TranslateListener` with a choice of HTTPS failure reporter: the
      plaintext chain first, then the HTTPS chains that resolve, then the
      TCP chains that produce an IR; when the port has TCP/TLS listeners and
      none produced an IR, each of them is marked not programmed. */
  function TranslateListenerWith(env: Env, m: MergedListener, ns: string, ipv6: bool, mode: Reporting)
    : (r: Translated<ListenerIR>)
    ensures r.value.name == m.name && r.value.bindPort == m.port
    ensures r.value.bindAddress == (if ipv6 then "::" else "0.0.0.0")
    ensures r.value.ancestorRef == m.first.ancestorRef
  {
    var http := HttpPart(env, m);
    var https := HttpsPart(env, m, ns, mode);
    var tcp := TcpChains(m.tcp, m.name);
    var esc := if |m.tcp| > 0 && |tcp.value| == 0 then Escalation(m.tcp) else [];
    Translated(
      ListenerIR(m.name, BindAddress(ipv6), m.port, http.value + https.value, tcp.value, m.first.ancestorRef),
      http.events + https.events + tcp.events + esc)
  }

  /** `TranslateListener` as written: HTTPS failures go to the first
      listener of the port. */
  function TranslateListener(env: Env, m: MergedListener, ns: string, ipv6: bool): Translated<ListenerIR> {
    TranslateListenerWith(env, m, ns, ipv6, SharedReporter)
  }

  /** `TranslateListener` with each HTTPS failure reported on the failing
      listener. */
  function TranslateListenerCorrected(env: Env, m: MergedListener, ns: string, ipv6: bool): Translated<ListenerIR> {
    TranslateListenerWith(env, m, ns, ipv6, OwnReporter)
  }

  /** The plaintext chain, when the port has one, comes first and is named
      after the port, without SNI domains. */
  lemma {:induction false} TranslateListenerHttpFirst(env: Env, m: MergedListener, ns: string, ipv6: bool, mode: Reporting)
    ensures var ir := TranslateListenerWith(env, m, ns, ipv6, mode).value;
            |ir.httpChains| == (if m.http.Some? then 1 else 0) + |HttpsPart(env, m, ns, mode).value| &&
            (m.http.Some? ==> ir.httpChains[0].name == m.name && ir.httpChains[0].sniDomains == [])
  {
    var ir := TranslateListenerWith(env, m, ns, ipv6, mode).value;
    var hv := HttpPart(env, m).value;
    assert ir.httpChains == hv + HttpsPart(env, m, ns, mode).value;
    if m.http.Some? {
      assert ir.httpChains[0] == hv[0];
    }
  }

  /** After the plaintext chain come the HTTPS chains whose TLS resolves,
      in listener order, whichever reporter is used. */
  lemma {:induction false} TranslateListenerHttpsOrder(env: Env, m: MergedListener, ns: string, ipv6: bool, mode: Reporting)
    ensures var ir := TranslateListenerWith(env, m, ns, ipv6, mode).value;
            var h := if m.http.Some? then 1 else 0;
            |ir.httpChains| == h + |SurvivingKeys(env, ns, m.https)| &&
            forall i :: 0 <= i < |SurvivingKeys(env, ns, m.https)| ==>
              ir.httpChains[h + i].name == SurvivingKeys(env, ns, m.https)[i]
  {
    var hv := HttpPart(env, m).value;
    var sv := HttpsPart(env, m, ns, mode).value;
    HttpsChainsKept(env, m.https, ns, SharedFor(mode, m));
    assert TranslateListenerWith(env, m, ns, ipv6, mode).value.httpChains == hv + sv;
    assert |hv| == (if m.http.Some? then 1 else 0);
    NamesAfter(hv, sv, SurvivingKeys(env, ns, m.https));
  }

  lemma {:induction false} NamesAfter(hv: seq<HttpChainIR>, sv: seq<HttpChainIR>, keys: seq<string>)
    requires |sv| == |keys| && forall i :: 0 <= i < |sv| ==> sv[i].name == keys[i]
    ensures |hv + sv| == |hv| + |keys|
    ensures forall i :: 0 <= i < |keys| ==> (hv + sv)[|hv| + i].name == keys[i]
  {
    forall i | 0 <= i < |keys| ensures (hv + sv)[|hv| + i].name == keys[i] {
      assert (hv + sv)[|hv| + i] == sv[i];
    }
  }

  /** One TCP IR per TCP/TLS chain that produces one. */
  lemma {:induction false} TranslateListenerTcpCount(env: Env, m: MergedListener, ns: string, ipv6: bool, mode: Reporting)
    ensures |TranslateListenerWith(env, m, ns, ipv6, mode).value.tcpChains| == ProducingCount(m.tcp, m.name)
  {
    TcpChainsSpec(m.tcp, m.name);
  }

  /** When the port has TCP/TLS listeners and none produced an IR, every one
      of them is marked not programmed. */
  lemma {:induction false} TranslateListenerEscalates(env: Env, m: MergedListener, ns: string, ipv6: bool, mode: Reporting)
    ensures var t := TranslateListenerWith(env, m, ns, ipv6, mode);
            |m.tcp| > 0 && |t.value.tcpChains| == 0 ==>
              forall i :: 0 <= i < |m.tcp| ==> ListenerStatus(m.tcp[i].reporter, NoBackendsCondition) in t.events
  {
    var t := TranslateListenerWith(env, m, ns, ipv6, mode);
    var tcp := TcpChains(m.tcp, m.name);
    if |m.tcp| > 0 && |tcp.value| == 0 {
      var esc := Escalation(m.tcp);
      assert t.events == HttpPart(env, m).events + HttpsPart(env, m, ns, mode).events + tcp.events + esc;
      forall i | 0 <= i < |m.tcp|
        ensures ListenerStatus(m.tcp[i].reporter, NoBackendsCondition) in t.events
      {
        assert esc[i] in t.events;
      }
    }
  }

  /** Without the escalation, the only listener conditions are the TLS
      failure conditions of HTTPS listeners whose TLS did not resolve,
      reported on the chosen reporter: as written, every one of them lands
      on the first listener of the port. */
  lemma {:induction false} TranslateListenerConditions(env: Env, m: MergedListener, ns: string, ipv6: bool, mode: Reporting)
    ensures var t := TranslateListenerWith(env, m, ns, ipv6, mode);
            |m.tcp| == 0 || |t.value.tcpChains| > 0 ==>
              forall e :: e in t.events && e.ListenerStatus? ==>
                exists j :: 0 <= j < |m.https| && !SslOk(env, ns, m.https[j]) &&
                            e in TlsFailureEvents(ReporterOf(SharedFor(mode, m), m.https[j]), SslErr(env, ns, m.https[j]))
    ensures var t := TranslateListenerWith(env, m, ns, ipv6, mode);
            mode == SharedReporter && (|m.tcp| == 0 || |t.value.tcpChains| > 0) ==>
              forall e :: e in t.events && e.ListenerStatus? ==> e.listener == m.reporter
  {
    var http := HttpPart(env, m);
    var https := HttpsPart(env, m, ns, mode);
    var tcp := TcpChains(m.tcp, m.name);
    var t := TranslateListenerWith(env, m, ns, ipv6, mode);
    if |m.tcp| == 0 || |tcp.value| > 0 {
      HttpsListenerEventsSourced(env, m.https, ns, SharedFor(mode, m));
      TcpChainsSpec(m.tcp, m.name);
      assert t.events == http.events + https.events + tcp.events;
      forall e | e in t.events && e.ListenerStatus?
        ensures exists j :: 0 <= j < |m.https| && !SslOk(env, ns, m.https[j]) &&
                            e in TlsFailureEvents(ReporterOf(SharedFor(mode, m), m.https[j]), SslErr(env, ns, m.https[j]))
      {
        assert forall k :: 0 <= k < |http.events| ==> http.events[k].RulesTranslated?;
        assert e in https.events;
      }
    }
  }

  // ---------------------------------------------------------------------
  // All listeners of a gateway.

  /** The events of translating the merged listeners in order. */
  function MergedEvents(env: Env, ms: seq<MergedListener>, ns: string, ipv6: bool, mode: Reporting): seq<Event> {
    if |ms| == 0 then []
    else MergedEvents(env, ms[..|ms| - 1], ns, ipv6, mode) + TranslateListenerWith(env, ms[|ms| - 1], ns, ipv6, mode).events
  }

  /** `translateListeners`: one listener IR per merged listener, in order. */
  function TranslateMerged(env: Env, ms: seq<MergedListener>, ns: string, ipv6: bool, mode: Reporting)
    : Translated<seq<ListenerIR>>
  {
    Translated(seq(|ms|, i requires 0 <= i < |ms| => TranslateListenerWith(env, ms[i], ns, ipv6, mode).value),
               MergedEvents(env, ms, ns, ipv6, mode))
  }

  function TranslateListenersWith(env: Env, es: seq<ListenerEntry>, ns: string, ipv6: bool, mode: Reporting)
    : Translated<seq<ListenerIR>>
  {
    TranslateMerged(env, MergeListeners(es), ns, ipv6, mode)
  }

  /** `TranslateListeners` as written, over the validated listeners of a
      gateway and their route-binding results. */
  function TranslateListeners(env: Env, es: seq<ListenerEntry>, ns: string, ipv6: bool)
    : Translated<seq<ListenerIR>>
  {
    TranslateListenersWith(env, es, ns, ipv6, SharedReporter)
  }

  /** `TranslateListeners` with each HTTPS failure reported on the failing
      listener. */
  function TranslateListenersCorrected(env: Env, es: seq<ListenerEntry>, ns: string, ipv6: bool)
    : Translated<seq<ListenerIR>>
  {
    TranslateListenersWith(env, es, ns, ipv6, OwnReporter)
  }

  /** One listener IR per distinct port of a supported listener, in
      first-seen order, each named `listener~{port}` and bound to it; so
      no two IRs share a name or a port. */
  lemma TranslateListenersSpec(env: Env, es: seq<ListenerEntry>, ns: string, ipv6: bool, mode: Reporting)
    ensures var irs := TranslateListenersWith(env, es, ns, ipv6, mode).value;
            && |irs| == |Ports(es)|
            && (forall i :: 0 <= i < |irs| ==>
                  irs[i].bindPort == Ports(es)[i] && irs[i].name == ListenerName(Ports(es)[i]))
            && (forall i, j :: 0 <= i < j < |irs| ==> irs[i].name != irs[j].name && irs[i].bindPort != irs[j].bindPort)
  {
    var ms := MergeListeners(es);
    MergedShape(es);
    var irs := TranslateListenersWith(env, es, ns, ipv6, mode).value;
    assert forall i :: 0 <= i < |ms| ==> irs[i] == TranslateListenerWith(env, ms[i], ns, ipv6, mode).value;
    forall i, j | 0 <= i < j < |irs|
      ensures irs[i].name != irs[j].name
    {
      if irs[i].name == irs[j].name {
        ListenerNameInjective(Ports(es)[i], Ports(es)[j]);
      }
    }
  }

  /** The merged listeners line up with the distinct ports. */
  lemma MergedShape(es: seq<ListenerEntry>)
    ensures |MergeListeners(es)| == |Ports(es)|
    ensures forall i :: 0 <= i < |Ports(es)| ==>
              MergeListeners(es)[i].port == Ports(es)[i] &&
              MergeListeners(es)[i].name == ListenerName(Ports(es)[i])
    ensures forall i, j :: 0 <= i < j < |Ports(es)| ==> Ports(es)[i] != Ports(es)[j]
  {
    MergeMatchesGroups(es);
    PortsGroups(es);
    forall i | 0 <= i < |Ports(es)|
      ensures MergeListeners(es)[i].name == ListenerName(Ports(es)[i])
    {
      ChainCounts(es, i);
    }
  }
}
