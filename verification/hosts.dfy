/** Matching a route hostname against a Gateway listener hostname
    (`isHostContained` in the listener translator). */
module Hosts {
  import opened Common

  /** A listener hostname with a leading `*.` label matches every host
      ending in the rest of it. */
  predicate IsWildcard(listenerHost: string) {
    StartsWith(listenerHost, "*.")
  }

  /** Does the listener hostname (absent = any) accept `host`? An absent
      listener hostname accepts everything; `*.sfx` accepts any host
      ending in `.sfx`; otherwise the two must be equal. */
  function IsHostContained(host: string, listenerHost: Option<string>): (r: bool)
    ensures listenerHost.None? ==> r
    ensures listenerHost.Some? && !IsWildcard(listenerHost.value) ==>
              (r <==> host == listenerHost.value)
    ensures r && listenerHost.Some? && host != listenerHost.value ==>
              IsWildcard(listenerHost.value)
  {
    match listenerHost
    case None => true
    case Some(lh) =>
      if IsWildcard(lh) && EndsWith(host, lh[1..]) then true
      else host == lh
  }

  /** `*.sfx` accepts exactly the hosts of the form `x.sfx` (any `x`,
      including the empty one and ones with dots) and the literal `*.sfx`. */
  lemma WildcardContainment(host: string, sfx: string)
    ensures IsHostContained(host, Some("*." + sfx)) <==>
              (host == "*." + sfx ||
               (|host| > |sfx| && host[|host| - |sfx| - 1..] == "." + sfx))
  {
    var lh := "*." + sfx;
    assert lh[..2] == "*.";
    assert lh[1..] == "." + sfx;
  }

  /** Every `x.sfx` is accepted by `*.sfx`. */
  lemma WildcardAcceptsSubdomain(x: string, sfx: string)
    ensures IsHostContained(x + "." + sfx, Some("*." + sfx))
  {
    var h := x + "." + sfx;
    WildcardContainment(h, sfx);
    assert h[|h| - |sfx| - 1..] == "." + sfx;
  }

  /** No apex domain is accepted by its own wildcard: `sfx` is not
      contained in `*.sfx`. */
  lemma {:induction false} ApexNotInWildcard(sfx: string)
    ensures !IsHostContained(sfx, Some("*." + sfx))
  {
    WildcardContainment(sfx, sfx);
  }
}
