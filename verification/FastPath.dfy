// The proxy's request path: a setup cache and a proxy cache in front of "parse
// the host, ensure a tunnel, build a proxy". What Ensure answers, and when,
// comes with each call.
module FastPath {
  import opened Text
  import opened TunnelKeys
  import opened Hosts
  import opened Requests

  const SETUP_LIFETIME := 5 * 60_000  // milliseconds

  datatype ProxyKey = ProxyKey(service: string, namespace: string, grpc: bool)
  datatype Address = Address(ip: string, port: int)
  datatype Setup = Setup(addr: Address, expiry: int)
  datatype Backend = Backend(addr: Address, grpc: bool)
  datatype Caches = Caches(setup: map<ProxyKey, Setup>, proxies: map<ProxyKey, Backend>)

  datatype Outcome =
    | Fast(backend: Backend)
    | Regular(target: Target, backend: Backend)
    | Preflight
    | LocalRefused
    | BadHost
    | NoTunnel(target: Target)

  /** One request: when it arrives, what Ensure answers if it is asked, and when
      the answer is stored. */
  datatype Call = Call(request: Request, now: int, answer: Option<Address>, stored: int)

  function FastKey(r: Request): Option<ProxyKey> {
    var p := FastParts(r.host);
    if p.None? then None else Some(ProxyKey(p.value.0, p.value.1, FastGRPC(r)))
  }

  function RegularKey(r: Request): ProxyKey
    requires ParseHost(r.host).Some?
  {
    var t := TargetOf(r);
    ProxyKey(t.service, t.namespace, RegularGRPC(r))
  }

  /** tryFastPath: a proxy to serve from, and the caches without an expired pair. */
  function TryFast(s: Caches, r: Request, now: int): (Caches, Option<Backend>) {
    var k := FastKey(r);
    if k.None? || k.value !in s.setup then (s, None)
    else if now > s.setup[k.value].expiry then
      (Caches(s.setup - {k.value}, s.proxies - {k.value}), None)
    else if k.value !in s.proxies then (s, None)
    else (s, Some(s.proxies[k.value]))
  }

  /** handleProxyRegular. */
  function HandleRegular(s: Caches, c: Call): (Caches, Outcome) {
    var r := c.request;
    if r.options then (s, Preflight)
    else if IsLocal(r) then (s, LocalRefused)
    else if ParseHost(r.host).None? then (s, BadHost)
    else if c.answer.None? then (s, NoTunnel(TargetOf(r)))
    else
      var k := RegularKey(r);
      var backend := if k in s.proxies then s.proxies[k] else Backend(c.answer.value, k.grpc);
      (Caches(s.setup[k := Setup(c.answer.value, c.stored + SETUP_LIFETIME)], s.proxies[k := backend]),
       Regular(TargetOf(r), backend))
  }

  /** HandleProxy. */
  function Handle(s: Caches, c: Call): (Caches, Outcome) {
    var (s1, hit) := TryFast(s, c.request, c.now);
    if hit.Some? then (s1, Fast(hit.value)) else HandleRegular(s1, c)
  }

  // Whole runs of requests, one after the other.

  /** The caches after the first n calls. */
  function After(calls: seq<Call>, n: nat): Caches
    requires n <= |calls|
  {
    if n == 0 then Caches(map[], map[]) else Handle(After(calls, n - 1), calls[n - 1]).0
  }

  function OutcomeAt(calls: seq<Call>, i: nat): Outcome
    requires i < |calls|
  {
    Handle(After(calls, i), calls[i]).1
  }

  /** One request is over before the next arrives. */
  predicate Sequential(calls: seq<Call>) {
    && (forall i :: 0 <= i < |calls| ==> calls[i].now <= calls[i].stored)
    && (forall i, j :: 0 <= i < j < |calls| ==> calls[i].stored <= calls[j].now)
  }

  /** The two caches have the same keys and, key by key, the same address. */
  predicate Agree(s: Caches) {
    && s.setup.Keys == s.proxies.Keys
    && forall k :: k in s.setup ==>
         s.proxies[k] == Backend(s.setup[k].addr, k.grpc)
  }

  /** Call j went through the regular path, was answered, and stored `e` under `k`. */
  predicate Stored(calls: seq<Call>, j: nat, k: ProxyKey, e: Setup) {
    && j < |calls|
    && Acceptable(calls[j].request)
    && k == RegularKey(calls[j].request)
    && calls[j].answer == Some(e.addr)
    && e.expiry == calls[j].stored + SETUP_LIFETIME
    && OutcomeAt(calls, j) == Regular(TargetOf(calls[j].request), Backend(e.addr, k.grpc))
  }

  /** A tunnel was found or made, the key of the regular path stays the fast one. */
  lemma KeysCoincide(r: Request)
    requires Classified(r) && ParseHost(r.host).Some?
    ensures FastKey(r) == Some(RegularKey(r))
  {
    FastPartsAgree(r.host);
  }

  /** One request keeps the caches in agreement exactly when it is not a regular
      request that finds an older proxy with another address under its key. */
  lemma AgreeKeptIff(s: Caches, c: Call)
    requires Agree(s)
    ensures var (s1, hit) := TryFast(s, c.request, c.now);
            Agree(Handle(s, c).0) <==>
            hit.Some? || !Acceptable(c.request) || c.answer.None? ||
            var k := RegularKey(c.request);
            k in s1.proxies ==> s1.proxies[k] == Backend(c.answer.value, k.grpc)
  {
    var (s1, hit) := TryFast(s, c.request, c.now);
    assert Agree(s1);
    if hit.None? && Acceptable(c.request) && c.answer.Some? {
      var k, s2 := RegularKey(c.request), Handle(s, c).0;
      assert k in s2.setup && s2.setup[k].addr == c.answer.value;
    }
  }

  /** When the classifiers agree a regular request never finds an older proxy. */
  lemma NoOlderProxy(s: Caches, c: Call)
    requires Agree(s) && Classified(c.request) && ParseHost(c.request.host).Some?
    requires TryFast(s, c.request, c.now).1.None?
    ensures RegularKey(c.request) !in TryFast(s, c.request, c.now).0.proxies
  {
    KeysCoincide(c.request);
  }

  lemma {:induction false} RunAgrees(calls: seq<Call>, n: nat)
    requires n <= |calls|
    requires forall i :: 0 <= i < n ==> Classified(calls[i].request)
    ensures Agree(After(calls, n))
  {
    if n > 0 {
      RunAgrees(calls, n - 1);
      var s, c := After(calls, n - 1), calls[n - 1];
      AgreeKeptIff(s, c);
      if ParseHost(c.request.host).Some? && TryFast(s, c.request, c.now).1.None? {
        NoOlderProxy(s, c);
      }
    }
  }

  /** What one request adds to the setup cache. */
  lemma SetupAdds(s: Caches, c: Call, k: ProxyKey)
    requires Agree(s) && Classified(c.request)
    requires k in Handle(s, c).0.setup
    ensures var s', o := Handle(s, c).0, Handle(s, c).1;
            || (k in s.setup && s'.setup[k] == s.setup[k])
            || (&& Acceptable(c.request) && k == RegularKey(c.request)
                && c.answer == Some(s'.setup[k].addr)
                && s'.setup[k].expiry == c.stored + SETUP_LIFETIME
                && o == Regular(TargetOf(c.request), Backend(s'.setup[k].addr, k.grpc)))
  {
    if ParseHost(c.request.host).Some? && TryFast(s, c.request, c.now).1.None? {
      NoOlderProxy(s, c);
    }
  }

  predicate Holds(s: Caches, k: ProxyKey, e: Setup) {
    k in s.setup && s.setup[k] == e
  }

  lemma LastCallStored(calls: seq<Call>, n: nat, k: ProxyKey, e: Setup)
    requires n < |calls|
    requires Agree(After(calls, n)) && Classified(calls[n].request)
    requires Holds(After(calls, n + 1), k, e)
    ensures Holds(After(calls, n), k, e) || Stored(calls, n, k, e)
  {
    SetupAdds(After(calls, n), calls[n], k);
  }

  /** Whatever is in the setup cache, some regular request stored it. */
  lemma {:induction false} SetupAccounted(calls: seq<Call>, n: nat, k: ProxyKey, e: Setup) returns (j: nat)
    requires n <= |calls|
    requires forall i :: 0 <= i < n ==> Classified(calls[i].request)
    requires Holds(After(calls, n), k, e)
    ensures j < n && Stored(calls, j, k, e)
  {
    if n == 0 {
      assert false;
    }
    j := n - 1;
    RunAgrees(calls, j);
    LastCallStored(calls, j, k, e);
    if Holds(After(calls, j), k, e) {
      j := SetupAccounted(calls, j, k, e);
    }
  }

  /** The fast path serves exactly the proxy of a live pair under its key. */
  lemma FastHit(s: Caches, c: Call)
    requires Agree(s)
    ensures Handle(s, c).1.Fast? <==>
              FastKey(c.request).Some? && FastKey(c.request).value in s.setup
              && c.now <= s.setup[FastKey(c.request).value].expiry
    ensures Handle(s, c).1.Fast? ==>
              Handle(s, c).1.backend ==
              Backend(s.setup[FastKey(c.request).value].addr, FastGRPC(c.request))
  {
  }

  /** Which of its answers the regular path gives, and that it changes nothing unless
      it has a tunnel to serve. */
  lemma RegularOutcomes(s: Caches, c: Call)
    ensures var (s', o) := HandleRegular(s, c);
            && (o == Preflight <==> c.request.options)
            && (o == LocalRefused <==> !c.request.options && IsLocal(c.request))
            && (o == BadHost <==> !c.request.options && !IsLocal(c.request) && ParseHost(c.request.host).None?)
            && (o.NoTunnel? <==> Acceptable(c.request) && c.answer.None?)
            && (o.Regular? <==> Acceptable(c.request) && c.answer.Some?)
            && (o.NoTunnel? || o.Regular? ==> o.target == TargetOf(c.request))
            && (!o.Regular? ==> s' == s)
  {
  }

  /** The fast path answers what the regular path would accept exactly for
      acceptable requests; to the rest it gives a tunnel they would be refused. */
  lemma FastOutcomeWouldBeRefusedIff(s: Caches, c: Call)
    requires TryFast(s, c.request, c.now).1.Some?
    ensures Handle(s, c).1 == Fast(TryFast(s, c.request, c.now).1.value)
    ensures HandleRegular(s, c).1 in {Preflight, LocalRefused, BadHost} <==> !Acceptable(c.request)
  {
    RegularOutcomes(s, c);
  }

  /** Every cached address was handed out by Ensure, and the fast path serves
      only what the regular path stored at most five minutes earlier, for a
      request whose host gives the same service and namespace. */
  lemma FastAgreesWithRegular(calls: seq<Call>, i: nat) returns (j: nat)
    requires i < |calls| && Sequential(calls)
    requires forall n :: 0 <= n <= i ==> Classified(calls[n].request)
    requires OutcomeAt(calls, i).Fast?
    ensures j < i && Acceptable(calls[j].request)
    ensures var b, t := OutcomeAt(calls, i).backend, TargetOf(calls[j].request);
            && calls[j].answer == Some(b.addr)
            && OutcomeAt(calls, j) == Regular(t, b)
            && FastParts(calls[i].request.host) == Some((t.service, t.namespace))
            && b.grpc == RegularGRPC(calls[i].request)
    ensures ParseHost(calls[i].request.host).Some? ==>
              ParseHost(calls[i].request.host) == ParseHost(calls[j].request.host)
    ensures calls[j].stored <= calls[i].now <= calls[j].stored + SETUP_LIFETIME
    ensures HandleRegular(After(calls, i), calls[i]).1 in {Preflight, LocalRefused, BadHost}
            <==> !Acceptable(calls[i].request)
  {
    var r := calls[i].request;
    FastOutcomeWouldBeRefusedIff(After(calls, i), calls[i]);
    RunAgrees(calls, i);
    FastHit(After(calls, i), calls[i]);
    var k := FastKey(r).value;
    j := SetupAccounted(calls, i, k, After(calls, i).setup[k]);
    FastPartsAgree(r.host);
  }

  /** A pair stays while it has not expired, whatever else is asked for. */
  lemma PairStays(s: Caches, c: Call, k: ProxyKey, e: Setup)
    requires Agree(s) && Classified(c.request) && Holds(s, k, e) && c.now <= e.expiry
    ensures Holds(Handle(s, c).0, k, e)
  {
    if ParseHost(c.request.host).Some? {
      KeysCoincide(c.request);
    }
  }

  lemma {:induction false} PairStaysUntil(calls: seq<Call>, m: nat, n: nat, k: ProxyKey, e: Setup)
    requires m <= n <= |calls| && forall i :: 0 <= i < n ==> Classified(calls[i].request)
    requires Holds(After(calls, m), k, e) && forall i :: m <= i < n ==> calls[i].now <= e.expiry
    ensures Holds(After(calls, n), k, e)
  {
    if m < n {
      PairStaysUntil(calls, m, n - 1, k, e);
      RunAgrees(calls, n - 1);
      PairStays(After(calls, n - 1), calls[n - 1], k, e);
    }
  }

  /** Call j was answered the regular way, was stored under request n's key, and that
      at most five minutes before request n. */
  predicate StoredFor(calls: seq<Call>, j: nat, n: nat)
    requires n < |calls|
  {
    && j < n && OutcomeAt(calls, j).Regular?
    && FastKey(calls[n].request) == Some(RegularKey(calls[j].request))
    && calls[n].now <= calls[j].stored + SETUP_LIFETIME
  }

  lemma StoredIsHeld(calls: seq<Call>, j: nat)
    requires j < |calls| && OutcomeAt(calls, j).Regular?
    ensures Acceptable(calls[j].request) && calls[j].answer.Some?
    ensures Holds(After(calls, j + 1), RegularKey(calls[j].request),
                  Setup(calls[j].answer.value, calls[j].stored + SETUP_LIFETIME))
  {
  }

  lemma HitWasStored(calls: seq<Call>, n: nat) returns (j: nat)
    requires n < |calls| && OutcomeAt(calls, n).Fast?
    requires forall i :: 0 <= i <= n ==> Classified(calls[i].request)
    ensures StoredFor(calls, j, n)
  {
    RunAgrees(calls, n);
    FastHit(After(calls, n), calls[n]);
    var k := FastKey(calls[n].request).value;
    j := SetupAccounted(calls, n, k, After(calls, n).setup[k]);
  }

  lemma StoredIsHit(calls: seq<Call>, j: nat, n: nat)
    requires n < |calls| && StoredFor(calls, j, n) && Sequential(calls)
    requires forall i :: 0 <= i <= n ==> Classified(calls[i].request)
    ensures OutcomeAt(calls, n).Fast?
  {
    var k, e := RegularKey(calls[j].request), Setup(calls[j].answer.value, calls[j].stored + SETUP_LIFETIME);
    StoredIsHeld(calls, j);
    forall i | j < i < n
      ensures calls[i].now <= e.expiry
    {
      assert calls[i].now <= calls[i].stored <= calls[n].now;
    }
    PairStaysUntil(calls, j + 1, n, k, e);
    RunAgrees(calls, n);
    FastHit(After(calls, n), calls[n]);
  }

  /** Over every run a request takes the fast path exactly when some request of the
      same service, namespace and kind was stored at most five minutes before it. */
  lemma FastExactly(calls: seq<Call>, n: nat)
    requires n < |calls| && Sequential(calls)
    requires forall i :: 0 <= i <= n ==> Classified(calls[i].request)
    ensures OutcomeAt(calls, n).Fast? <==> exists j: nat :: StoredFor(calls, j, n)
  {
    if OutcomeAt(calls, n).Fast? {
      var j := HitWasStored(calls, n);
    }
    if j: nat :| StoredFor(calls, j, n) {
      StoredIsHit(calls, j, n);
    }
  }

  /** The port is not part of the key: over any run a fast answer comes from the
      tunnel of the caller's own target exactly when it prefers the same port as
      the request that stored it, or neither prefers any. */
  lemma FastServesOwnTargetIff(calls: seq<Call>, i: nat) returns (j: nat)
    requires i < |calls| && Sequential(calls)
    requires forall n :: 0 <= n <= i ==> Classified(calls[n].request)
    requires OutcomeAt(calls, i).Fast? && ParseHost(calls[i].request.host).Some?
    ensures j < i && Acceptable(calls[j].request)
    ensures OutcomeAt(calls, j) == Regular(TargetOf(calls[j].request), OutcomeAt(calls, i).backend)
    ensures var mine, other := calls[i].request, calls[j].request;
            Normal(TargetOf(mine)) == Normal(TargetOf(other)) <==>
            || PreferredPort(mine) == PreferredPort(other)
            || (PreferredPort(mine) <= 0 && PreferredPort(other) <= 0)
  {
    j := FastAgreesWithRegular(calls, i);
  }

  /** A regular request is served by a proxy to the address it was just given. */
  lemma RegularServesFreshAddress(calls: seq<Call>, i: nat)
    requires i < |calls| && OutcomeAt(calls, i).Regular?
    requires forall n :: 0 <= n <= i ==> Classified(calls[n].request)
    ensures var o := OutcomeAt(calls, i);
            && calls[i].answer == Some(o.backend.addr)
            && o.target == TargetOf(calls[i].request)
            && o.backend.grpc == RegularGRPC(calls[i].request)
  {
    RunAgrees(calls, i);
    NoOlderProxy(After(calls, i), calls[i]);
  }

  /** Why the classifiers have to agree: two requests for one acceptable host,
      answered with different addresses, leave the caches in agreement if and
      only if they do; if not, the second is served from the first address. */
  lemma ClassifiersMustAgree(r: Request, a: Address, b: Address)
    requires Acceptable(r) && a != b
    ensures var calls := [Call(r, 0, Some(a), 0), Call(r, 0, Some(b), 0)];
            && (Agree(After(calls, 2)) <==> Classified(r))
            && (!Classified(r) ==> OutcomeAt(calls, 1) == Regular(TargetOf(r), Backend(a, RegularGRPC(r))))
  {
    var calls := [Call(r, 0, Some(a), 0), Call(r, 0, Some(b), 0)];
    assert After(calls, 0) == Caches(map[], map[]);
    FirstRequest(calls[0]);
    FastPartsAgree(r.host);
    var s := After(calls, 1);
    assert s == Handle(After(calls, 0), calls[0]).0;
    AgreeKeptIff(s, calls[1]);
    assert After(calls, 2) == Handle(s, calls[1]).0;
  }

  /** The first request for a host goes the regular way and is stored. */
  lemma FirstRequest(c: Call)
    requires Acceptable(c.request) && c.answer.Some?
    ensures var k := RegularKey(c.request);
            Handle(Caches(map[], map[]), c) ==
            (Caches(map[k := Setup(c.answer.value, c.stored + SETUP_LIFETIME)],
                    map[k := Backend(c.answer.value, k.grpc)]),
             Regular(TargetOf(c.request), Backend(c.answer.value, k.grpc)))
  {
  }

  /** A second request within five minutes of the first one's store is served from
      the first one's tunnel, whatever port it names. */
  lemma PortIsIgnored(r: Request, r2: Request, a: Address, b: Option<Address>, stored: nat, later: nat)
    requires Acceptable(r) && Classified(r) && FastKey(r) == FastKey(r2)
    requires later <= stored + SETUP_LIFETIME
    ensures OutcomeAt([Call(r, 0, Some(a), stored), Call(r2, later, b, later)], 1)
            == Fast(Backend(a, RegularGRPC(r)))
  {
    var calls := [Call(r, 0, Some(a), stored), Call(r2, later, b, later)];
    assert After(calls, 0) == Caches(map[], map[]);
    FirstRequest(calls[0]);
    assert After(calls, 1) == Handle(After(calls, 0), calls[0]).0;
    KeysCoincide(r);
  }

  /** The proxy with its two caches. */
  class Proxy {
    var setupCache: map<ProxyKey, Setup>
    var proxyCache: map<ProxyKey, Backend>

    constructor ()
      ensures View() == Caches(map[], map[])
    {
      setupCache, proxyCache := map[], map[];
    }

    function View(): Caches
      reads this
    {
      Caches(setupCache, proxyCache)
    }

    method TryFastPath(r: Request, now: int) returns (hit: Option<Backend>)
      modifies this
      ensures (View(), hit) == TryFast(old(View()), r, now)
    {
      var parts := SplitN(r.host, '.', 3);
      if |parts| < 2 {
        return None;
      }
      var key := ProxyKey(parts[0], parts[1], FastGRPC(r));
      if key in setupCache {
        hit := TryUseCachedSetup(setupCache[key], key, now);
        return;
      }
      return None;
    }

    method TryUseCachedSetup(entry: Setup, key: ProxyKey, now: int) returns (hit: Option<Backend>)
      modifies this
      ensures if now > entry.expiry then
                View() == Caches(old(setupCache) - {key}, old(proxyCache) - {key}) && hit == None
              else
                && View() == old(View())
                && hit == if key in proxyCache then Some(proxyCache[key]) else None
    {
      if now > entry.expiry {
        setupCache := setupCache - {key};
        proxyCache := proxyCache - {key};
        return None;
      }
      return if key in proxyCache then Some(proxyCache[key]) else None;
    }

    method GetOrCreateCachedProxy(key: ProxyKey, addr: Address) returns (b: Backend)
      modifies this`proxyCache
      ensures b == if key in old(proxyCache) then old(proxyCache)[key] else Backend(addr, key.grpc)
      ensures proxyCache == old(proxyCache)[key := b]
    {
      if key in proxyCache {
        return proxyCache[key];
      }
      b := Backend(addr, key.grpc);
      proxyCache := proxyCache[key := b];
    }

    method HandleProxyRegular(c: Call) returns (o: Outcome)
      modifies this
      ensures (View(), o) == HandleRegular(old(View()), c)
    {
      var r := c.request;
      if r.options {
        return Preflight;
      }
      if IsLocal(r) {
        return LocalRefused;
      }
      var parsed := ParseHost(r.host);
      if parsed.None? {
        return BadHost;
      }
      var target := Target(parsed.value.0, parsed.value.1, PreferredPort(r));
      if c.answer.None? {
        return NoTunnel(target);
      }
      var key := ProxyKey(target.service, target.namespace, RegularGRPC(r));
      var backend := GetOrCreateCachedProxy(key, c.answer.value);
      setupCache := setupCache[key := Setup(c.answer.value, c.stored + SETUP_LIFETIME)];
      return Regular(target, backend);
    }

    method HandleProxy(c: Call) returns (o: Outcome)
      modifies this
      ensures (View(), o) == Handle(old(View()), c)
      ensures old(Agree(View())) && Classified(c.request) ==> Agree(View())
    {
      var hit := TryFastPath(c.request, c.now);
      if hit.Some? {
        o := Fast(hit.value);
      } else {
        o := HandleProxyRegular(c);
      }
      if old(Agree(View())) && Classified(c.request) {
        AgreeKeptIff(old(View()), c);
        if ParseHost(c.request.host).Some? && hit.None? {
          NoOlderProxy(old(View()), c);
        }
      }
    }
  }
}
