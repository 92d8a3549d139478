/** Virtual-host construction shared by the HTTP and HTTPS chains:
    bucketing translated rules by hostname (`buildRoutesPerHost`), choosing
    the listener whose policies a host inherits, naming (`makeVhostName`),
    de-duplicating and sorting the virtual hosts. */
module Vhosts {
  import opened Common
  import opened Gateway
  import opened Hosts
  import opened RuleSort
  import opened Merge

  // ---------------------------------------------------------------------
  // Host buckets (the `routesByHost` map, kept as a list of distinct hosts
  // in first-seen order).

  datatype Bucket = Bucket(host: string, rules: seq<RouteRule>)

  predicate DistinctHosts(bs: seq<Bucket>) {
    forall i, j :: 0 <= i < j < |bs| ==> bs[i].host != bs[j].host
  }

  predicate NonEmptyBuckets(bs: seq<Bucket>) {
    forall i :: 0 <= i < |bs| ==> |bs[i].rules| > 0
  }

  predicate WellFormed(bs: seq<Bucket>) {
    DistinctHosts(bs) && NonEmptyBuckets(bs)
  }

  function FindHost(bs: seq<Bucket>, h: string): (r: Option<nat>)
    ensures r.Some? ==> r.value < |bs| && bs[r.value].host == h
    ensures r.None? ==> forall i :: 0 <= i < |bs| ==> bs[i].host != h
  {
    if |bs| == 0 then None
    else if bs[0].host == h then Some(0)
    else match FindHost(bs[1..], h)
      case None => None
      case Some(k) => Some(k + 1)
  }

  /** The rules bucketed under `h` (none when there is no bucket). */
  function Lookup(bs: seq<Bucket>, h: string): seq<RouteRule> {
    match FindHost(bs, h)
    case None => []
    case Some(i) => bs[i].rules
  }

  lemma LookupUnique(bs: seq<Bucket>, i: nat)
    requires DistinctHosts(bs) && i < |bs|
    ensures Lookup(bs, bs[i].host) == bs[i].rules
  {
  }

  /** `routesByHost[h] = append(routesByHost[h], rules...)`. */
  function AddRules(bs: seq<Bucket>, h: string, rules: seq<RouteRule>): (r: seq<Bucket>)
    requires WellFormed(bs) && |rules| > 0
    ensures WellFormed(r)
    ensures forall h' :: Lookup(r, h') == Lookup(bs, h') + (if h' == h then rules else [])
    ensures forall h' :: FindHost(r, h').Some? <==> FindHost(bs, h').Some? || h' == h
  {
    match FindHost(bs, h)
    case Some(i) =>
      var r := bs[i := Bucket(h, bs[i].rules + rules)];
      forall h' ensures FindHost(r, h') == FindHost(bs, h') {
        FindHostUpdate(bs, i, Bucket(h, bs[i].rules + rules), h');
      }
      r
    case None =>
      var r := bs + [Bucket(h, rules)];
      assert forall h' :: h' != h ==> FindHost(r, h') == FindHost(bs, h') by {
        forall h' | h' != h ensures FindHost(r, h') == FindHost(bs, h') {
          FindHostAppend(bs, Bucket(h, rules), h');
        }
      }
      FindHostAppend(bs, Bucket(h, rules), h);
      r
  }

  lemma {:induction false} FindHostUpdate(bs: seq<Bucket>, i: nat, b: Bucket, h: string)
    requires i < |bs| && b.host == bs[i].host
    ensures FindHost(bs[i := b], h) == FindHost(bs, h)
  {
    if i > 0 {
      assert bs[i := b][1..] == bs[1..][i - 1 := b];
      FindHostUpdate(bs[1..], i - 1, b, h);
    }
  }

  lemma {:induction false} FindHostAppend(bs: seq<Bucket>, b: Bucket, h: string)
    ensures FindHost(bs + [b], h) ==
              if FindHost(bs, h).Some? then FindHost(bs, h)
              else if b.host == h then Some(|bs|) else None
  {
    if |bs| > 0 {
      assert (bs + [b])[1..] == bs[1..] + [b];
      FindHostAppend(bs[1..], b, h);
    }
  }

  /** The hosts a route is bucketed under: its hostnames, or `*`. */
  function EffectiveHosts(ri: RouteInfo): seq<string> {
    if |ri.hostnames| == 0 then ["*"] else ri.hostnames
  }

  function AddUnderHosts(bs: seq<Bucket>, hosts: seq<string>, rules: seq<RouteRule>): (r: seq<Bucket>)
    requires WellFormed(bs) && |rules| > 0
    ensures WellFormed(r)
  {
    if |hosts| == 0 then bs
    else AddRules(AddUnderHosts(bs, hosts[..|hosts| - 1], rules), hosts[|hosts| - 1], rules)
  }

  /** One iteration of `buildRoutesPerHost`: a route whose translation gave
      no rules is skipped. */
  function AddRoute(bs: seq<Bucket>, ri: RouteInfo): (r: seq<Bucket>)
    requires WellFormed(bs)
    ensures WellFormed(r)
  {
    if |ri.translated| == 0 then bs
    else AddUnderHosts(bs, EffectiveHosts(ri), ri.translated)
  }

  /** `buildRoutesPerHost` from an empty map. */
  function BuildRoutesPerHost(routes: seq<RouteInfo>): (r: seq<Bucket>)
    ensures WellFormed(r)
  {
    if |routes| == 0 then []
    else AddRoute(BuildRoutesPerHost(routes[..|routes| - 1]), routes[|routes| - 1])
  }

  /** The route translator is called once per route, in order, whether or
      not its rules end up in a virtual host. */
  function TranslationEvents(routes: seq<RouteInfo>): (r: seq<Event>)
    ensures |r| == |routes|
    ensures forall i :: 0 <= i < |routes| ==> r[i] == RulesTranslated(routes[i].id, routes[i].parentRef)
  {
    if |routes| == 0 then []
    else TranslationEvents(routes[..|routes| - 1]) +
           [RulesTranslated(routes[|routes| - 1].id, routes[|routes| - 1].parentRef)]
  }

  // Reference: the rules a host should collect, route by route.

  /** One copy of `rules` per occurrence of `h` in `hosts`. */
  function HostHits(hosts: seq<string>, h: string, rules: seq<RouteRule>): seq<RouteRule> {
    if |hosts| == 0 then []
    else HostHits(hosts[..|hosts| - 1], h, rules) + (if hosts[|hosts| - 1] == h then rules else [])
  }

  function Contribution(ri: RouteInfo, h: string): seq<RouteRule> {
    if |ri.translated| == 0 then [] else HostHits(EffectiveHosts(ri), h, ri.translated)
  }

  /** All rules host `h` collects from `routes`, in route order. */
  function RulesFor(routes: seq<RouteInfo>, h: string): seq<RouteRule> {
    if |routes| == 0 then []
    else RulesFor(routes[..|routes| - 1], h) + Contribution(routes[|routes| - 1], h)
  }

  lemma {:induction false} AddUnderHostsSpec(bs: seq<Bucket>, hosts: seq<string>, rules: seq<RouteRule>)
    requires WellFormed(bs) && |rules| > 0
    ensures forall h :: Lookup(AddUnderHosts(bs, hosts, rules), h) == Lookup(bs, h) + HostHits(hosts, h, rules)
    ensures forall h :: FindHost(AddUnderHosts(bs, hosts, rules), h).Some? <==>
              FindHost(bs, h).Some? || h in hosts
  {
    if |hosts| > 0 {
      var init := hosts[..|hosts| - 1];
      AddUnderHostsSpec(bs, init, rules);
      assert forall h :: h in hosts <==> h in init || h == hosts[|hosts| - 1] by {
        assert hosts == init + [hosts[|hosts| - 1]];
      }
    }
  }

  lemma WellFormedLookup(bs: seq<Bucket>, h: string)
    requires WellFormed(bs)
    ensures FindHost(bs, h).Some? <==> Lookup(bs, h) != []
  {
  }

  lemma HostHitsEmpty(hosts: seq<string>, h: string, rules: seq<RouteRule>)
    requires |rules| > 0
    ensures HostHits(hosts, h, rules) != [] <==> h in hosts
  {
    if |hosts| > 0 {
      var init := hosts[..|hosts| - 1];
      HostHitsEmpty(init, h, rules);
      assert hosts == init + [hosts[|hosts| - 1]];
    }
  }

  /** The bucket of every host holds exactly the rules the reference
      assigns it, and a bucket exists exactly for the hosts that collect
      some rule. */
  lemma {:induction false} BucketsSpec(routes: seq<RouteInfo>)
    ensures forall h :: Lookup(BuildRoutesPerHost(routes), h) == RulesFor(routes, h)
    ensures forall h :: FindHost(BuildRoutesPerHost(routes), h).Some? <==> RulesFor(routes, h) != []
  {
    if |routes| > 0 {
      var init := routes[..|routes| - 1];
      var ri := routes[|routes| - 1];
      BucketsSpec(init);
      var bs := BuildRoutesPerHost(init);
      if |ri.translated| > 0 {
        AddUnderHostsSpec(bs, EffectiveHosts(ri), ri.translated);
      }
      forall h ensures FindHost(BuildRoutesPerHost(routes), h).Some? <==> RulesFor(routes, h) != [] {
        WellFormedLookup(BuildRoutesPerHost(routes), h);
      }
    }
  }

  /** A host collects rules iff some route with translated rules declares
      it, or declares no hostname and the host is `*`. */
  lemma {:induction false} RulesForNonEmpty(routes: seq<RouteInfo>, h: string)
    ensures RulesFor(routes, h) != [] <==>
              exists i :: 0 <= i < |routes| && |routes[i].translated| > 0 && h in EffectiveHosts(routes[i])
  {
    if |routes| > 0 {
      var init := routes[..|routes| - 1];
      var ri := routes[|routes| - 1];
      RulesForNonEmpty(init, h);
      if |ri.translated| > 0 {
        HostHitsEmpty(EffectiveHosts(ri), h, ri.translated);
      }
      if exists i :: 0 <= i < |routes| && |routes[i].translated| > 0 && h in EffectiveHosts(routes[i]) {
        var i :| 0 <= i < |routes| && |routes[i].translated| > 0 && h in EffectiveHosts(routes[i]);
        if i < |routes| - 1 {
          assert init[i] == routes[i];
        }
      }
      if exists i :: 0 <= i < |init| && |init[i].translated| > 0 && h in EffectiveHosts(init[i]) {
        var i :| 0 <= i < |init| && |init[i].translated| > 0 && h in EffectiveHosts(init[i]);
        assert routes[i] == init[i];
      }
    }
  }

  // ---------------------------------------------------------------------
  // Policy attribution: the matching parent with the longest hostname.

  /** Go `len` of a listener hostname; an absent hostname counts 0. */
  function HostLen(l: Listener): nat {
    if l.hostname.None? then 0 else Utf8Length(l.hostname.value)
  }

  predicate Matches(host: string, ps: seq<HttpParent>, j: nat)
    requires j < |ps|
  {
    IsHostContained(host, ps[j].listener.hostname)
  }

  /** `k` is the parent a host's vhost takes its policies from: it matches,
      no matching parent has a longer hostname, and every earlier matching
      parent has a strictly shorter one. */
  predicate IsBestParent(host: string, ps: seq<HttpParent>, k: nat) {
    && k < |ps| && Matches(host, ps, k)
    && (forall j :: 0 <= j < |ps| && Matches(host, ps, j) ==> HostLen(ps[j].listener) <= HostLen(ps[k].listener))
    && (forall j :: 0 <= j < k && Matches(host, ps, j) ==> HostLen(ps[j].listener) < HostLen(ps[k].listener))
  }

  /** State of the scan after the first `i` parents: `maxLen` starts at -1
      and `best` is the current winner. */
  predicate ScanState(host: string, ps: seq<HttpParent>, i: nat, best: Option<nat>, maxLen: int) {
    && i <= |ps|
    && (best.None? <==> maxLen == -1)
    && (best.None? ==> forall j :: 0 <= j < i ==> !Matches(host, ps, j))
    && (best.Some? ==>
          && best.value < i && Matches(host, ps, best.value)
          && maxLen == HostLen(ps[best.value].listener)
          && (forall j :: 0 <= j < i && Matches(host, ps, j) ==> HostLen(ps[j].listener) <= maxLen)
          && (forall j :: 0 <= j < best.value && Matches(host, ps, j) ==> HostLen(ps[j].listener) < maxLen))
  }

  /** One step of the scan keeps `ScanState`, whichever branch it takes. */
  lemma {:induction false} ScanStep(host: string, ps: seq<HttpParent>, i: nat, best: Option<nat>, maxLen: int)
    requires ScanState(host, ps, i, best, maxLen) && i < |ps|
    ensures Matches(host, ps, i) && HostLen(ps[i].listener) > maxLen ==>
              ScanState(host, ps, i + 1, Some(i), HostLen(ps[i].listener))
    ensures !(Matches(host, ps, i) && HostLen(ps[i].listener) > maxLen) ==>
              ScanState(host, ps, i + 1, best, maxLen)
  {
    var len := HostLen(ps[i].listener);
    if Matches(host, ps, i) && len > maxLen {
      forall j | 0 <= j < i + 1 && Matches(host, ps, j) ensures HostLen(ps[j].listener) <= len {
      }
    } else if best.Some? {
      forall j | 0 <= j < i + 1 && Matches(host, ps, j) ensures HostLen(ps[j].listener) <= maxLen {
      }
    }
  }

  /** The loop over parents in `translateHttpFilterChain`: a matching parent
      replaces the winner only when its hostname is strictly longer. */
  function BestFrom(host: string, ps: seq<HttpParent>, i: nat, best: Option<nat>, maxLen: int): (r: Option<nat>)
    requires ScanState(host, ps, i, best, maxLen)
    ensures r.None? <==> forall j :: 0 <= j < |ps| ==> !Matches(host, ps, j)
    ensures r.Some? ==> IsBestParent(host, ps, r.value)
    decreases |ps| - i
  {
    if i == |ps| then best
    else
      ScanStep(host, ps, i, best, maxLen);
      if Matches(host, ps, i) && HostLen(ps[i].listener) > maxLen then
        BestFrom(host, ps, i + 1, Some(i), HostLen(ps[i].listener))
      else
        BestFrom(host, ps, i + 1, best, maxLen)
  }

  function BestParent(host: string, ps: seq<HttpParent>): Option<nat> {
    BestFrom(host, ps, 0, None, -1)
  }

  /** The winner is unique, so the scan returns `k` exactly when `k` is the
      best parent. */
  lemma BestParentIff(host: string, ps: seq<HttpParent>, k: nat)
    ensures BestParent(host, ps) == Some(k) <==> IsBestParent(host, ps, k)
  {
    if IsBestParent(host, ps, k) {
      var r := BestParent(host, ps);
      assert r.Some?;
    }
  }

  // ---------------------------------------------------------------------
  // Virtual hosts.

  /** What one chain needs to turn buckets into virtual hosts: the chain's
      name, the name sanitizer, and the parents whose policies are matched
      (none for an HTTPS chain). */
  datatype VhostContext = VhostContext(parentName: string, sanitize: string -> string, parents: seq<HttpParent>)

  /** `makeVhostName`: the sanitized `{parentName}~{host}`. */
  function VhostName(ctx: VhostContext, host: string): string {
    ctx.sanitize(ctx.parentName + "~" + host)
  }

  /** The virtual host a bucket yields: sorted rules, and the policies and
      listener of the best matching parent (empty when none matches). */
  function VhostFor(ctx: VhostContext, b: Bucket): VirtualHost {
    var best := BestParent(b.host, ctx.parents);
    VirtualHost(
      VhostName(ctx, b.host), b.host, StableSort(b.rules),
      if best.Some? then ctx.parents[best.value].policies else [],
      if best.Some? then Some(ctx.parents[best.value].listener) else None)
  }

  /** Bucket `k` is the first one whose vhost name is its name. */
  predicate FirstWithName(ctx: VhostContext, bs: seq<Bucket>, k: nat)
    requires k < |bs|
  {
    forall j :: 0 <= j < k ==> VhostName(ctx, bs[j].host) != VhostName(ctx, bs[k].host)
  }

  predicate NamesDistinct(vs: seq<VirtualHost>) {
    forall i, j :: 0 <= i < j < |vs| ==> vs[i].name != vs[j].name
  }

  /** The bucket loop: a vhost whose name was already produced is dropped. */
  function BuildVhosts(ctx: VhostContext, bs: seq<Bucket>, seen: set<string>): seq<VirtualHost> {
    if |bs| == 0 then []
    else
      var v := VhostFor(ctx, bs[0]);
      if v.name in seen then BuildVhosts(ctx, bs[1..], seen)
      else [v] + BuildVhosts(ctx, bs[1..], seen + {v.name})
  }

  /** Bucket `k` yields `v` in a scan that has already produced `seen`. */
  predicate Yields(ctx: VhostContext, bs: seq<Bucket>, seen: set<string>, k: nat, v: VirtualHost) {
    && k < |bs| && FirstWithName(ctx, bs, k)
    && VhostName(ctx, bs[k].host) !in seen && v == VhostFor(ctx, bs[k])
  }

  /** Being first with a name in the tail, and differing from the head. */
  lemma FirstWithNameShift(ctx: VhostContext, bs: seq<Bucket>, k: nat)
    requires k + 1 < |bs|
    ensures FirstWithName(ctx, bs, k + 1) <==>
              FirstWithName(ctx, bs[1..], k) && VhostName(ctx, bs[0].host) != VhostName(ctx, bs[k + 1].host)
  {
    var tail := bs[1..];
    assert forall j :: 0 <= j <= k ==> tail[j] == bs[j + 1];
    if FirstWithName(ctx, tail, k) && VhostName(ctx, bs[0].host) != VhostName(ctx, bs[k + 1].host) {
      forall j | 0 <= j < k + 1 ensures VhostName(ctx, bs[j].host) != VhostName(ctx, bs[k + 1].host) {
        if j > 0 {
          assert bs[j] == tail[j - 1];
        }
      }
    }
  }

  lemma {:induction false} BuildVhostsNames(ctx: VhostContext, bs: seq<Bucket>, seen: set<string>)
    ensures NamesDistinct(BuildVhosts(ctx, bs, seen))
    ensures forall v :: v in BuildVhosts(ctx, bs, seen) ==> v.name !in seen
  {
    if |bs| > 0 {
      var v := VhostFor(ctx, bs[0]);
      var seen' := if v.name in seen then seen else seen + {v.name};
      BuildVhostsNames(ctx, bs[1..], seen');
    }
  }

  lemma {:induction false} BuildVhostsSound(ctx: VhostContext, bs: seq<Bucket>, seen: set<string>, w: VirtualHost)
    requires w in BuildVhosts(ctx, bs, seen)
    ensures exists k: nat :: Yields(ctx, bs, seen, k, w)
  {
    var v := VhostFor(ctx, bs[0]);
    var tail := bs[1..];
    var built := BuildVhosts(ctx, bs, seen);
    if v.name in seen {
      var rest := BuildVhosts(ctx, tail, seen);
      assert built == rest;
      BuildVhostsSound(ctx, tail, seen, w);
      var k: nat :| Yields(ctx, tail, seen, k, w);
      FirstWithNameShift(ctx, bs, k);
      assert Yields(ctx, bs, seen, k + 1, w);
    } else {
      var rest := BuildVhosts(ctx, tail, seen + {v.name});
      assert built == [v] + rest;
      if w == v {
        assert Yields(ctx, bs, seen, 0, w);
      } else {
        assert w in rest;
        BuildVhostsSound(ctx, tail, seen + {v.name}, w);
        var k: nat :| Yields(ctx, tail, seen + {v.name}, k, w);
        FirstWithNameShift(ctx, bs, k);
        assert Yields(ctx, bs, seen, k + 1, w);
      }
    }
  }

  lemma {:induction false} BuildVhostsComplete(ctx: VhostContext, bs: seq<Bucket>, seen: set<string>, k: nat, w: VirtualHost)
    requires Yields(ctx, bs, seen, k, w)
    ensures w in BuildVhosts(ctx, bs, seen)
  {
    var v := VhostFor(ctx, bs[0]);
    var tail := bs[1..];
    var seen' := if v.name in seen then seen else seen + {v.name};
    if k > 0 {
      FirstWithNameShift(ctx, bs, k - 1);
      assert Yields(ctx, tail, seen', k - 1, w);
      BuildVhostsComplete(ctx, tail, seen', k - 1, w);
    }
  }

  /** Puts `v` before the first vhost whose name is not smaller. */
  function InsertVhost(v: VirtualHost, s: seq<VirtualHost>): (r: seq<VirtualHost>)
    ensures multiset(r) == multiset(s) + multiset{v}
  {
    if |s| == 0 then [v]
    else if StrLeq(v.name, s[0].name) then [v] + s
    else
      assert s == [s[0]] + s[1..];
      [s[0]] + InsertVhost(v, s[1..])
  }

  predicate SortedByName(s: seq<VirtualHost>) {
    forall i, j :: 0 <= i < j < |s| ==> StrLeq(s[i].name, s[j].name)
  }

  lemma {:induction false} InsertVhostSorted(v: VirtualHost, s: seq<VirtualHost>)
    requires SortedByName(s)
    ensures SortedByName(InsertVhost(v, s))
  {
    if |s| == 0 {
      return;
    }
    if StrLeq(v.name, s[0].name) {
      forall j | 0 <= j < |s| ensures StrLeq(v.name, s[j].name) {
        StrLeqTransitive(v.name, s[0].name, s[j].name);
      }
    } else {
      StrLessTotal(v.name, s[0].name);
      InsertVhostSorted(v, s[1..]);
      var t := InsertVhost(v, s[1..]);
      forall j | 0 <= j < |t| ensures StrLeq(s[0].name, t[j].name) {
        assert t[j] in multiset(t);
        if t[j] != v {
          assert t[j] in multiset(s[1..]);
          var q :| 0 <= q < |s[1..]| && s[1..][q] == t[j];
          assert s[q + 1] == t[j];
        }
      }
    }
  }

  /** `sort.Slice` by name, as an insertion sort. */
  function SortVhosts(s: seq<VirtualHost>): (r: seq<VirtualHost>)
    ensures SortedByName(r)
    ensures multiset(r) == multiset(s)
  {
    if |s| == 0 then []
    else
      var t := SortVhosts(s[1..]);
      InsertVhostSorted(s[0], t);
      assert s == [s[0]] + s[1..];
      InsertVhost(s[0], t)
  }

  lemma {:induction false} TwoCopies(s: seq<VirtualHost>, x: VirtualHost)
    requires multiset(s)[x] >= 2
    ensures exists p, q :: 0 <= p < q < |s| && s[p] == x && s[q] == x
  {
    var init := s[..|s| - 1];
    assert s == init + [s[|s| - 1]];
    if s[|s| - 1] == x {
      assert x in multiset(init);
      var p :| 0 <= p < |init| && init[p] == x;
      assert s[p] == x;
    } else {
      TwoCopies(init, x);
      var p, q :| 0 <= p < q < |init| && init[p] == x && init[q] == x;
      assert s[p] == x && s[q] == x;
    }
  }

  lemma DistinctNamesPermutation(a: seq<VirtualHost>, b: seq<VirtualHost>)
    requires multiset(a) == multiset(b) && NamesDistinct(a)
    ensures NamesDistinct(b)
  {
    forall i, j | 0 <= i < j < |b| ensures b[i].name != b[j].name {
      if b[i].name == b[j].name {
        assert b[i] in multiset(a) && b[j] in multiset(a);
        var p :| 0 <= p < |a| && a[p] == b[i];
        var q :| 0 <= q < |a| && a[q] == b[j];
        if b[i] == b[j] {
          assert b == b[..j] + b[j..];
          assert multiset(b) == multiset(b[..j]) + multiset(b[j..]);
          assert b[i] in multiset(b[..j]) by { assert b[..j][i] == b[i]; }
          assert b[j] in multiset(b[j..]) by { assert b[j..][0] == b[j]; }
          TwoCopies(a, b[i]);
        }
      }
    }
  }

  /** The virtual hosts of a chain: built bucket by bucket, then sorted. */
  function VirtualHosts(ctx: VhostContext, bs: seq<Bucket>): seq<VirtualHost> {
    SortVhosts(BuildVhosts(ctx, bs, {}))
  }

  /** The vhosts are in strictly increasing name order (so names are
      unique), and they are exactly the vhosts of the buckets that are the
      first to produce their name. */
  lemma VirtualHostsSpec(ctx: VhostContext, bs: seq<Bucket>)
    ensures var vs := VirtualHosts(ctx, bs);
            forall i, j :: 0 <= i < j < |vs| ==> StrLess(vs[i].name, vs[j].name)
    ensures forall v :: v in VirtualHosts(ctx, bs) <==> exists k: nat :: Yields(ctx, bs, {}, k, v)
  {
    var built := BuildVhosts(ctx, bs, {});
    var vs := VirtualHosts(ctx, bs);
    BuildVhostsNames(ctx, bs, {});
    DistinctNamesPermutation(built, vs);
    forall v ensures v in vs <==> exists k: nat :: Yields(ctx, bs, {}, k, v) {
      assert v in vs <==> v in multiset(vs);
      assert v in built <==> v in multiset(built);
      if v in built {
        BuildVhostsSound(ctx, bs, {}, v);
      }
      if exists k: nat :: Yields(ctx, bs, {}, k, v) {
        var k: nat :| Yields(ctx, bs, {}, k, v);
        BuildVhostsComplete(ctx, bs, {}, k, v);
      }
    }
  }

  /** When no two buckets sanitize to the same name, every bucket yields a
      vhost of its own. */
  lemma {:induction false} VirtualHostsCount(ctx: VhostContext, bs: seq<Bucket>)
    requires forall i, j :: 0 <= i < j < |bs| ==> VhostName(ctx, bs[i].host) != VhostName(ctx, bs[j].host)
    ensures |VirtualHosts(ctx, bs)| == |bs|
  {
    BuildAllWhenInjective(ctx, bs, {});
    assert |multiset(VirtualHosts(ctx, bs))| == |multiset(BuildVhosts(ctx, bs, {}))|;
  }

  lemma {:induction false} BuildAllWhenInjective(ctx: VhostContext, bs: seq<Bucket>, seen: set<string>)
    requires forall i, j :: 0 <= i < j < |bs| ==> VhostName(ctx, bs[i].host) != VhostName(ctx, bs[j].host)
    requires forall i :: 0 <= i < |bs| ==> VhostName(ctx, bs[i].host) !in seen
    ensures |BuildVhosts(ctx, bs, seen)| == |bs|
  {
    if |bs| > 0 {
      var v := VhostFor(ctx, bs[0]);
      var tail := bs[1..];
      assert forall i :: 0 <= i < |tail| ==> tail[i] == bs[i + 1];
      BuildAllWhenInjective(ctx, tail, seen + {v.name});
    }
  }

  // ---------------------------------------------------------------------
  // The virtual hosts of a list of routes.

  /** Some bucket at or before `k` is the first to produce `k`'s name. */
  lemma {:induction false} FirstOfName(ctx: VhostContext, bs: seq<Bucket>, k: nat)
    requires k < |bs|
    ensures exists k0: nat :: k0 <= k && FirstWithName(ctx, bs, k0) &&
                             VhostName(ctx, bs[k0].host) == VhostName(ctx, bs[k].host)
    decreases k
  {
    if !FirstWithName(ctx, bs, k) {
      var j :| 0 <= j < k && VhostName(ctx, bs[j].host) == VhostName(ctx, bs[k].host);
      FirstOfName(ctx, bs, j);
    }
  }

  /** The policies and listener a vhost for `host` inherits: those of the
      best matching parent, or nothing when no parent matches. */
  predicate Attributed(host: string, ps: seq<HttpParent>, v: VirtualHost) {
    || ((forall j :: 0 <= j < |ps| ==> !Matches(host, ps, j)) && v.policies == [] && v.parentRef.None?)
    || (exists k: nat :: k < |ps| && IsBestParent(host, ps, k) &&
          v.policies == ps[k].policies && v.parentRef == Some(ps[k].listener))
  }

  /** The vhosts built from `routes` are in strictly increasing name order. */
  lemma VhostsOfRoutesSorted(ctx: VhostContext, routes: seq<RouteInfo>)
    ensures var vs := VirtualHosts(ctx, BuildRoutesPerHost(routes));
            forall i, j :: 0 <= i < j < |vs| ==> StrLess(vs[i].name, vs[j].name)
  {
    VirtualHostsSpec(ctx, BuildRoutesPerHost(routes));
  }

  /** Each vhost built from `routes` belongs to a host that collects rules,
      carries that host's sanitized name, all of its rules stably sorted,
      and the policies of its best matching parent. */
  lemma VhostsOfRoutesContent(ctx: VhostContext, routes: seq<RouteInfo>)
    ensures forall v :: v in VirtualHosts(ctx, BuildRoutesPerHost(routes)) ==>
              && RulesFor(routes, v.hostname) != []
              && v.name == VhostName(ctx, v.hostname)
              && v.rules == StableSort(RulesFor(routes, v.hostname))
              && Attributed(v.hostname, ctx.parents, v)
  {
    var bs := BuildRoutesPerHost(routes);
    var vs := VirtualHosts(ctx, bs);
    BucketsSpec(routes);
    VirtualHostsSpec(ctx, bs);
    forall v | v in vs
      ensures && RulesFor(routes, v.hostname) != []
              && v.name == VhostName(ctx, v.hostname)
              && v.rules == StableSort(RulesFor(routes, v.hostname))
              && Attributed(v.hostname, ctx.parents, v)
    {
      var k: nat :| Yields(ctx, bs, {}, k, v);
      LookupUnique(bs, k);
      var best := BestParent(bs[k].host, ctx.parents);
      if best.Some? {
        assert IsBestParent(v.hostname, ctx.parents, best.value);
      }
    }
  }

  /** Every host that collects rules is covered by a vhost of its name. */
  lemma VhostsOfRoutesCover(ctx: VhostContext, routes: seq<RouteInfo>)
    ensures forall h :: RulesFor(routes, h) != [] ==>
              exists v :: v in VirtualHosts(ctx, BuildRoutesPerHost(routes)) && v.name == VhostName(ctx, h)
  {
    var bs := BuildRoutesPerHost(routes);
    var vs := VirtualHosts(ctx, bs);
    BucketsSpec(routes);
    VirtualHostsSpec(ctx, bs);
    forall h | RulesFor(routes, h) != []
      ensures exists v :: v in vs && v.name == VhostName(ctx, h)
    {
      var k := FindHost(bs, h).value;
      FirstOfName(ctx, bs, k);
      var k0: nat :| k0 <= k && FirstWithName(ctx, bs, k0) &&
                     VhostName(ctx, bs[k0].host) == VhostName(ctx, bs[k].host);
      assert Yields(ctx, bs, {}, k0, VhostFor(ctx, bs[k0]));
    }
  }

  /** The vhosts built from `routes`: the three properties above together. */
  lemma VhostsOfRoutes(ctx: VhostContext, routes: seq<RouteInfo>)
    ensures var vs := VirtualHosts(ctx, BuildRoutesPerHost(routes));
            forall i, j :: 0 <= i < j < |vs| ==> StrLess(vs[i].name, vs[j].name)
    ensures forall v :: v in VirtualHosts(ctx, BuildRoutesPerHost(routes)) ==>
              && RulesFor(routes, v.hostname) != []
              && v.name == VhostName(ctx, v.hostname)
              && v.rules == StableSort(RulesFor(routes, v.hostname))
              && Attributed(v.hostname, ctx.parents, v)
    ensures forall h :: RulesFor(routes, h) != [] ==>
              exists v :: v in VirtualHosts(ctx, BuildRoutesPerHost(routes)) && v.name == VhostName(ctx, h)
  {
    VhostsOfRoutesSorted(ctx, routes);
    VhostsOfRoutesContent(ctx, routes);
    VhostsOfRoutesCover(ctx, routes);
  }

  /** The sanitizer maps distinct names to distinct names. */
  ghost predicate InjectiveSanitizer(ctx: VhostContext) {
    forall a, b :: ctx.sanitize(a) == ctx.sanitize(b) ==> a == b
  }

  /** With an injective sanitizer, every host that collects rules has a
      vhost of its own. */
  lemma VhostsOfRoutesHostCovered(ctx: VhostContext, routes: seq<RouteInfo>, h: string)
    requires InjectiveSanitizer(ctx)
    requires RulesFor(routes, h) != []
    ensures exists v :: v in VirtualHosts(ctx, BuildRoutesPerHost(routes)) && v.hostname == h
  {
    var vs := VirtualHosts(ctx, BuildRoutesPerHost(routes));
    VhostsOfRoutesCover(ctx, routes);
    var v :| v in vs && v.name == VhostName(ctx, h);
    VhostsOfRoutesContent(ctx, routes);
    assert v.name == VhostName(ctx, v.hostname);
    VhostNameInjective(ctx, v.hostname, h);
    assert v in vs && v.hostname == h;
  }

  /** With an injective sanitizer, distinct hosts get distinct names, so a
      vhost exists for a host exactly when the host collects rules. */
  lemma VhostsOfRoutesInjective(ctx: VhostContext, routes: seq<RouteInfo>)
    requires InjectiveSanitizer(ctx)
    ensures forall h :: RulesFor(routes, h) != [] <==>
              exists v :: v in VirtualHosts(ctx, BuildRoutesPerHost(routes)) && v.hostname == h
  {
    VhostsOfRoutesContent(ctx, routes);
    forall h | RulesFor(routes, h) != []
      ensures exists v :: v in VirtualHosts(ctx, BuildRoutesPerHost(routes)) && v.hostname == h
    {
      VhostsOfRoutesHostCovered(ctx, routes, h);
    }
  }

  lemma VhostNameInjective(ctx: VhostContext, a: string, b: string)
    requires InjectiveSanitizer(ctx)
    requires VhostName(ctx, a) == VhostName(ctx, b)
    ensures a == b
  {
    var pre := ctx.parentName + "~";
    assert pre + a == pre + b;
    assert (pre + a)[|pre|..] == a;
    assert (pre + b)[|pre|..] == b;
  }
}
