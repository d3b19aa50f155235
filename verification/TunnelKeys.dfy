// The text key under which a port-forward is cached, and when two requests
// share one.
module TunnelKeys {
  import opened Text

  /** What a caller asks for; `port` not positive means no preference. */
  datatype Target = Target(service: string, namespace: string, port: int)

  /** The request as the cache sees it: every non-positive port is the same. */
  function Normal(t: Target): Target {
    if t.port > 0 then t else t.(port := 0)
  }

  /** "service.namespace:port", or "service.namespace" without a preference. */
  function Key(t: Target): string {
    if t.port > 0 then t.service + "." + t.namespace + ":" + Dec(t.port)
    else t.service + "." + t.namespace
  }

  /** The namespace part of the key with the port text glued on. */
  function Tail(t: Target): string {
    if t.port > 0 then t.namespace + ":" + Dec(t.port) else t.namespace
  }

  lemma KeyTail(t: Target)
    ensures Key(t) == t.service + ['.'] + Tail(t)
  {
    if t.port > 0 {
      assert Key(t) == t.service + "." + (t.namespace + ":" + Dec(t.port));
    }
  }

  lemma DecHasNoColon(n: int)
    ensures ':' !in Dec(n)
  {
  }

  /** What every service taken from a host name satisfies. */
  predicate DotFree(t: Target) {
    '.' !in t.service
  }

  /** Request a, without a preference, spells b's port inside its namespace text. */
  predicate SpellsPortOf(a: Target, b: Target) {
    a.port <= 0 < b.port && a.namespace == Tail(b)
  }

  /** The exact collisions between requests whose service has no dot: the requests
      are the same, or one names its port inside the namespace text. */
  lemma KeyCollisions(a: Target, b: Target)
    requires DotFree(a) && DotFree(b)
    ensures Key(a) == Key(b) <==>
            && a.service == b.service
            && (Normal(a) == Normal(b) || SpellsPortOf(a, b) || SpellsPortOf(b, a))
  {
    KeyTail(a);
    KeyTail(b);
    if Key(a) == Key(b) {
      SplitOnceUnique(a.service, Tail(a), b.service, Tail(b), '.');
      if a.port > 0 && b.port > 0 {
        DecHasNoColon(a.port);
        DecHasNoColon(b.port);
        SplitLastUnique(a.namespace, Dec(a.port), b.namespace, Dec(b.port), ':');
        DecInjective(a.port, b.port);
      }
    }
  }

  /** Names as Kubernetes allows them, as far as the key is concerned. Host text
      need not satisfy this: nothing keeps a colon out of the namespace part. */
  predicate Plain(t: Target) {
    DotFree(t) && ':' !in t.namespace
  }

  lemma PlainSpellsNoPort(a: Target, b: Target)
    requires Plain(a)
    ensures !SpellsPortOf(a, b)
  {
    if b.port > 0 {
      assert Tail(b)[|b.namespace|] == ':';
    }
  }

  /** The key tells plainly named requests apart. */
  lemma KeyInjective(a: Target, b: Target)
    requires Plain(a) && Plain(b)
    ensures Key(a) == Key(b) <==> Normal(a) == Normal(b)
  {
    KeyCollisions(a, b);
    PlainSpellsNoPort(a, b);
    PlainSpellsNoPort(b, a);
  }

  /** Dots in services would make different services share a key. No caller passes
      such a name, as every service comes from text split at its dots; a colon in
      the namespace, which callers do pass, is the case in SpellsPortOf. */
  lemma DottedServiceCollides()
    ensures var a, b := Target("a.b", "c", 0), Target("a", "b.c", 0);
            Key(a) == Key(b) && Normal(a) != Normal(b)
  {
    var a, b := Target("a.b", "c", 0), Target("a", "b.c", 0);
    assert Key(a) == "a.b.c" && Key(b) == "a.b.c";
  }
}
