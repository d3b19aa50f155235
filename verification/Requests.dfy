// A request as routing looks at it: how it is classified, which port it prefers,
// and whether it is one for the cluster.
module Requests {
  import opened Text
  import opened TunnelKeys
  import opened Hosts

  /** A request, as far as routing looks at it; absent headers are "". */
  datatype Request = Request(
    host: string, options: bool,
    contentType: string, userAgent: string, grpcEncoding: string, grpcAcceptEncoding: string,
    originalPort: string, forwardedPort: string)

  /** How the fast path tells gRPC. */
  predicate FastGRPC(r: Request) {
    Contains(r.contentType, "grpc") || Contains(r.userAgent, "grpc")
  }

  /** How the regular path tells gRPC. */
  predicate RegularGRPC(r: Request) {
    || HasPrefix(r.contentType, "application/grpc")
    || r.grpcEncoding != ""
    || r.grpcAcceptEncoding != ""
    || Contains(r.userAgent, "grpc")
  }

  predicate Classified(r: Request) {
    FastGRPC(r) == RegularGRPC(r)
  }

  lemma GRPCTypeSaysSo(contentType: string)
    requires HasPrefix(contentType, "application/grpc")
    ensures Contains(contentType, "grpc")
  {
    assert contentType[12..16] == "application/grpc"[12..16] == "grpc";
    assert At(contentType, "grpc", 12);
  }

  /** The two ways disagree exactly when the user agent does not settle it and the
      content type mentions gRPC other than at its beginning, with no gRPC encoding
      named, or does not mention it, with one named. */
  lemma ClassifiersDisagreeIff(r: Request)
    ensures Contains(r.userAgent, "grpc") ==> FastGRPC(r) && RegularGRPC(r)
    ensures var mentions, encoded := Contains(r.contentType, "grpc"), r.grpcEncoding != "" || r.grpcAcceptEncoding != "";
            FastGRPC(r) != RegularGRPC(r) <==>
            && !Contains(r.userAgent, "grpc")
            && (if mentions then !HasPrefix(r.contentType, "application/grpc") && !encoded else encoded)
  {
    if HasPrefix(r.contentType, "application/grpc") {
      GRPCTypeSaysSo(r.contentType);
    }
  }

  /** extractOriginalPort. */
  function PreferredPort(r: Request): int {
    if r.originalPort != "" && Atoi(r.originalPort).Some? then Atoi(r.originalPort).value
    else if r.forwardedPort != "" && Atoi(r.forwardedPort).Some? then Atoi(r.forwardedPort).value
    else
      var i := LastIndexOf(r.host, ':');
      if i == -1 then 0
      else
        var p := Atoi(r.host[i + 1..]);
        if p.Some? && 0 < p.value < 65536 then p.value else 0
  }

  /** No header names a port. */
  predicate NoPortHeader(r: Request) {
    Atoi(r.originalPort).None? && Atoi(r.forwardedPort).None?
  }

  /** Without a port in a header the text behind the host's last colon counts, if it
      is a number in the TCP range; */
  lemma PortBehindHost(r: Request, host: string, text: string)
    requires NoPortHeader(r) && r.host == host + ":" + text && ':' !in text
    ensures PreferredPort(r) == var p := Atoi(text); if p.Some? && 0 < p.value < 65536 then p.value else 0
  {
    LastIndexOfCut(host, ':', text);
    assert r.host[|host| + 1..] == text;
  }

  /** and without a colon no port is preferred. */
  lemma NoPortNoPreference(r: Request)
    requires NoPortHeader(r) && ':' !in r.host
    ensures PreferredPort(r) == 0
  {
  }

  /** A port printed behind the host is read back exactly when it is a TCP port. */
  lemma HostPortReadsBack(r: Request, host: string, p: int)
    requires NoPortHeader(r) && r.host == host + ":" + Dec(p)
    ensures PreferredPort(r) == if 0 < p < 65536 then p else 0
  {
    AtoiDec(p);
    PortBehindHost(r, host, Dec(p));
  }

  /** A port in a header wins over the host's and is taken as it is, in range or not. */
  lemma HeaderPortWins(r: Request, p: int)
    requires -MAX_INT64 - 1 <= p <= MAX_INT64
    requires r.originalPort == Dec(p) || (Atoi(r.originalPort).None? && r.forwardedPort == Dec(p))
    ensures PreferredPort(r) == p
  {
    AtoiDec(p);
  }

  predicate LocalName(host: string) {
    || host in {"localhost", "127.0.0.1", "::1", ""}
    || HasPrefix(host, "127.")
    || (!Contains(host, ".svc.cluster.local") && !Contains(host, ".svc.") && |Split(host, '.')| == 4)
  }

  /** isLocalRequest. */
  predicate IsLocal(r: Request) {
    LocalName(r.host[..IndexOf(r.host, ':')])
  }

  /** Whether the regular path gets as far as asking for a tunnel. */
  predicate Acceptable(r: Request) {
    !r.options && !IsLocal(r) && ParseHost(r.host).Some?
  }

  function TargetOf(r: Request): Target
    requires ParseHost(r.host).Some?
  {
    var (service, namespace) := ParseHost(r.host).value;
    Target(service, namespace, PreferredPort(r))
  }

  /** What a host has before its first colon, label by label. */
  predicate Labelled(r: Request, labels: seq<string>) {
    && |labels| >= 1 && (forall l :: l in labels ==> '.' !in l && ':' !in l)
    && r.host[..IndexOf(r.host, ':')] == Join(labels, '.')
  }

  /** A name mentions w between two separators, with or without what `domain` has
      behind that, exactly when w is an inner label of it. */
  lemma InnerDomainIff(labels: seq<string>, c: char, w: string, inner: string, domain: string)
    requires |labels| >= 1 && c !in w && forall l :: l in labels ==> c !in l
    requires inner == [c] + w + [c] && HasPrefix(domain, inner)
    ensures var host := Join(labels, c);
            Contains(host, domain) || Contains(host, inner) <==>
            exists i :: 0 < i < |labels| - 1 && labels[i] == w
  {
    var host := Join(labels, c);
    InnerLabelIff(labels, c, w);
    assert domain == inner + domain[|inner|..];
    if Contains(host, domain) {
      ContainsLess(host, inner, domain[|inner|..]);
    }
  }

  lemma ServiceTexts()
    ensures ".svc." == ['.'] + "svc" + ['.'] && HasPrefix(".svc.cluster.local", ".svc.")
  {
  }

  lemma ServiceDomainIff(labels: seq<string>)
    requires |labels| >= 1 && forall l :: l in labels ==> '.' !in l
    ensures var host := Join(labels, '.');
            Contains(host, ".svc.cluster.local") || Contains(host, ".svc.") <==>
            exists i :: 0 < i < |labels| - 1 && labels[i] == "svc"
  {
    ServiceTexts();
    InnerDomainIff(labels, '.', "svc", ".svc.", ".svc.cluster.local");
  }

  /** A request is local exactly when its host, without a port, is empty or
      "localhost", or begins with the label "127", or has four labels of which neither
      inner one is "svc", as an IPv4 address has. */
  lemma LocalIff(r: Request, labels: seq<string>)
    requires Labelled(r, labels)
    ensures IsLocal(r) <==>
            || labels == [""] || labels == ["localhost"]
            || (|labels| >= 2 && labels[0] == "127")
            || (|labels| == 4 && labels[1] != "svc" && labels[2] != "svc")
  {
    var host := Join(labels, '.');
    JoinKeepsOut(labels, '.', ':');
    assert "::1"[0] == ':';
    OneLabelIff(labels, '.', "");
    OneLabelIff(labels, '.', "localhost");
    assert "127" + ['.'] == "127.";
    FirstLabelIff(labels, '.', "127");
    assert HasPrefix("127.0.0.1", "127.");
    ServiceDomainIff(labels);
    SplitJoin(labels, '.');
  }

  /** Hosts printed from a service and a namespace are not taken for local,
      unless the service is a loopback number. */
  lemma ClusterHostIsNotLocal(r: Request, s: string, n: string)
    requires r.host == ClusterHost(s, n) && ':' !in s && ':' !in n
    ensures IsLocal(r) <==> HasPrefix(r.host, "127.")
  {
    var host := r.host;
    var suffix := ".svc.cluster.local";
    assert host == s + "." + n + suffix;
    assert host[..IndexOf(host, ':')] == host;
    assert At(host, suffix, |s| + 1 + |n|);
    assert |host| >= 19;
  }

  lemma NoNumber(p: nat, rest: string)
    requires '.' in rest
    ensures Atoi(Dec(p) + rest).None?
  {
    var text := Dec(p) + rest;
    assert Dec(p)[0] in Dec(p) && text[0] == Dec(p)[0];
    assert '.' in text;
    DecParts(p);
  }

  lemma Loopback(s: string, n: string)
    requires '.' !in s
    ensures HasPrefix(s + "." + n, "127.") ==> s == "127"
  {
    var host := s + "." + n;
    assert host[|s|] == '.';
    assert forall i :: 0 <= i < |s| ==> host[i] == s[i] != '.';
    if HasPrefix(host, "127.") {
      assert host[0] == '1' && host[1] == '2' && host[2] == '7' && host[3] == '.';
      assert |s| == 3;
      assert s == "127";
    }
  }

  lemma TwoLabelsAreNotLocal(s: string, n: string)
    requires '.' !in s && '.' !in n && s != "127"
    ensures !LocalName(s + "." + n)
  {
    var host := s + "." + n;
    Loopback(s, n);
    SplitAtFirst(s, '.', n);
    SplitNoSeparator(n, '.');
    assert |Split(host, '.')| == 2;
    assert host[|s|] == '.' && '.' in host;
  }

  lemma ColonHost(s: string, n: string, port: string)
    ensures ClusterHost(s, n + ":" + port) == s + "." + n + ":" + (port + ".svc.cluster.local")
  {
    assert s + "." + (n + ":" + port) == s + "." + n + ":" + port;
  }

  lemma PortInNamespace(s: string, n: string, p: nat)
    requires '.' !in s && p > 0
    ensures var a, b := Target(s, n + ":" + Dec(p), 0), Target(s, n, p);
            SpellsPortOf(a, b) && Key(a) == Key(b) && Normal(a) != Normal(b)
  {
    KeyCollisions(Target(s, n + ":" + Dec(p), 0), Target(s, n, p));
  }

  /** A host may carry a port behind its namespace: the regular path takes it for a
      request without a preferred port. */
  lemma ColonHostIsAcceptable(r: Request, s: string, n: string, p: nat)
    requires '.' !in s && '.' !in n && ':' !in s && ':' !in n && s != "127"
    requires !r.options && NoPortHeader(r) && r.host == ClusterHost(s, n + ":" + Dec(p))
    ensures Acceptable(r) && TargetOf(r) == Target(s, n + ":" + Dec(p), 0)
  {
    var front, text := s + "." + n, Dec(p) + ".svc.cluster.local";
    assert '.' !in Dec(p) && ':' !in Dec(p);
    ClusterHostParses(s, n + ":" + Dec(p));
    ColonHost(s, n, Dec(p));
    LastIndexOfCut(front, ':', text);
    IndexOfCut(front, ':', text);
    assert r.host == front + [':'] + text;
    assert r.host[|front| + 1..] == text && r.host[..|front|] == front;
    NoNumber(p, ".svc.cluster.local");
    TwoLabelsAreNotLocal(s, n);
  }

  lemma ClusterHostIsServed(r: Request, s: string, n: string)
    requires '.' !in s && '.' !in n && ':' !in s && ':' !in n && s != "127"
    requires !r.options && r.host == ClusterHost(s, n)
    ensures Acceptable(r) && TargetOf(r) == Target(s, n, PreferredPort(r))
  {
    ClusterHostIsNotLocal(r, s, n);
    Loopback(s, n + ".svc.cluster.local");
    assert r.host == s + "." + (n + ".svc.cluster.local");
    ClusterHostParses(s, n);
  }

  lemma HeaderHostIsAcceptable(r: Request, s: string, n: string, p: nat)
    requires '.' !in s && '.' !in n && ':' !in s && ':' !in n && s != "127" && p <= MAX_INT64
    requires !r.options && r.originalPort == Dec(p) && r.host == ClusterHost(s, n)
    ensures Acceptable(r) && TargetOf(r) == Target(s, n, p)
  {
    ClusterHostIsServed(r, s, n);
    HeaderPortWins(r, p);
  }

  /** The ordinary request, without any port, asks for the service by itself. */
  lemma PlainHostIsAcceptable(r: Request, s: string, n: string)
    requires '.' !in s && '.' !in n && ':' !in s && ':' !in n && s != "127"
    requires !r.options && NoPortHeader(r) && r.host == ClusterHost(s, n)
    ensures Acceptable(r) && TargetOf(r) == Target(s, n, 0)
  {
    ClusterHostIsServed(r, s, n);
    ClusterHostHasNoColon(s, n);
    NoPortNoPreference(r);
  }

  lemma ClusterHostHasNoColon(s: string, n: string)
    requires ':' !in s && ':' !in n
    ensures ':' !in ClusterHost(s, n)
  {
  }

  /** It shares its key with the request that asks for that port by header. */
  lemma ColonHostSharesKey(r: Request, r2: Request, s: string, n: string, p: nat)
    requires '.' !in s && '.' !in n && ':' !in s && ':' !in n && s != "127" && 0 < p <= MAX_INT64
    requires !r.options && NoPortHeader(r) && r.host == ClusterHost(s, n + ":" + Dec(p))
    requires !r2.options && r2.originalPort == Dec(p) && r2.host == ClusterHost(s, n)
    ensures Acceptable(r) && Acceptable(r2)
    ensures TargetOf(r) == Target(s, n + ":" + Dec(p), 0) && TargetOf(r2) == Target(s, n, p)
    ensures SpellsPortOf(TargetOf(r), TargetOf(r2))
    ensures Key(TargetOf(r)) == Key(TargetOf(r2)) && Normal(TargetOf(r)) != Normal(TargetOf(r2))
  {
    ColonHostIsAcceptable(r, s, n, p);
    HeaderHostIsAcceptable(r2, s, n, p);
    PortInNamespace(s, n, p);
  }

  lemma EightyText()
    ensures Dec(80) == "80"
  {
    assert DecNat(80) == DecNat(8) + [Digit(0)];
  }

  lemma ExampleColonHost()
    ensures ClusterHost("db", "prod" + ":" + "80") == "db.prod:80.svc.cluster.local"
  {
    assert "db" + "." + ("prod" + ":" + "80") == "db.prod:80";
  }

  lemma ExampleHost()
    ensures ClusterHost("db", "prod") == "db.prod.svc.cluster.local"
  {
    assert "db" + "." + "prod" == "db.prod";
  }

  /** Two hosts an HTTP client can send, of which the first is answered with the
      tunnel of the second. */
  lemma ColonHostExample() returns (r: Request, r2: Request)
    ensures r.host == "db.prod:80.svc.cluster.local" && Acceptable(r)
    ensures r2.host == "db.prod.svc.cluster.local" && r2.originalPort == "80" && Acceptable(r2)
    ensures Key(TargetOf(r)) == Key(TargetOf(r2)) && Normal(TargetOf(r)) != Normal(TargetOf(r2))
  {
    r := Request("db.prod:80.svc.cluster.local", false, "", "", "", "", "", "");
    r2 := Request("db.prod.svc.cluster.local", false, "", "", "", "", "80", "");
    EightyText();
    ExampleColonHost();
    ExampleHost();
    ColonHostSharesKey(r, r2, "db", "prod", 80);
  }

  /** A request with only Grpc-Encoding set is one the classifiers disagree on. */
  lemma MisclassifiedExample() returns (r: Request)
    ensures Acceptable(r) && !Classified(r) && r.grpcEncoding == "gzip"
  {
    r := Request(ClusterHost("db", "prod"), false, "", "", "gzip", "", "", "");
    AcceptableWithLetter(r, "db", "prod");
    OnlyEncodingMisclassifies(r);
  }

  /** Whatever else it asks for, a request is classified differently when a gRPC
      encoding is all that it says of gRPC. */
  lemma OnlyEncodingMisclassifies(r: Request)
    requires !Contains(r.contentType, "grpc") && !Contains(r.userAgent, "grpc")
    requires r.grpcEncoding != "" || r.grpcAcceptEncoding != ""
    ensures !Classified(r)
  {
  }

  lemma AcceptableWithLetter(r: Request, s: string, n: string)
    requires r.host == ClusterHost(s, n) && !r.options && s != "" && s[0] != '1'
    requires '.' !in s && '.' !in n && ':' !in s && ':' !in n
    ensures Acceptable(r)
  {
    ClusterHostIsNotLocal(r, s, n);
    assert r.host[0] == s[0];
    ClusterHostParses(s, n);
  }
}
