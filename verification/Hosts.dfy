// Where a service and a namespace come from: the Host header of a request, or
// the X-Kube-Service header of a peeked TCP stream.
module Hosts {
  import opened Text

  /** ParseHost: service and namespace of "service.namespace.svc.x.y...". */
  function ParseHost(host: string): (r: Option<(string, string)>) {
    var parts := Split(host, '.');
    if |parts| < 5 || parts[2] != "svc" then None else Some((parts[0], parts[1]))
  }

  /** It accepts exactly the hosts that are printed from a service, a namespace,
      "svc" and at least two more labels, and gives the first two back. */
  lemma ParseHostExact(host: string, service: string, namespace: string)
    ensures ParseHost(host) == Some((service, namespace)) <==>
            && '.' !in service && '.' !in namespace
            && exists tail: seq<string> {:trigger |tail|} ::
                 && |tail| >= 2 && (forall p :: p in tail ==> '.' !in p)
                 && host == Join([service, namespace, "svc"] + tail, '.')
  {
    if ParseHost(host) == Some((service, namespace)) {
      var parts := Split(host, '.');
      JoinSplit(host, '.');
      assert parts == [service, namespace, "svc"] + parts[3..];
      assert |parts[3..]| >= 2;
    }
    if '.' !in service && '.' !in namespace {
      forall tail: seq<string> | |tail| >= 2 && (forall p :: p in tail ==> '.' !in p)
                                 && host == Join([service, namespace, "svc"] + tail, '.')
        ensures ParseHost(host) == Some((service, namespace))
      {
        SplitJoin([service, namespace, "svc"] + tail, '.');
      }
    }
  }

  /** The service and namespace the fast path reads off a host. */
  function FastParts(host: string): Option<(string, string)> {
    var parts := SplitN(host, '.', 3);
    if |parts| < 2 then None else Some((parts[0], parts[1]))
  }

  lemma CutAtFirst(s: string, c: char)
    ensures var i := IndexOf(s, c);
            if i == |s| then c !in s && Split(s, c) == [s]
            else c in s && Split(s, c) == [s[..i]] + Split(s[i + 1..], c)
  {
    var i := IndexOf(s, c);
    if i == |s| {
      assert s[..i] == s;
      SplitNoSeparator(s, c);
    } else {
      assert s == s[..i] + [c] + s[i + 1..];
      SplitAtFirst(s[..i], c, s[i + 1..]);
    }
  }

  /** On every host the regular path accepts the two readings agree; on the others
      the fast path still reads the first two labels of any host with a dot. */
  lemma FastPartsAgree(host: string)
    ensures ParseHost(host).Some? ==> FastParts(host) == ParseHost(host)
    ensures FastParts(host).Some? <==> '.' in host
    ensures '.' in host ==> |Split(host, '.')| >= 2 && FastParts(host) == Some((Split(host, '.')[0], Split(host, '.')[1]))
  {
    CutAtFirst(host, '.');
    var i := IndexOf(host, '.');
    if i < |host| {
      CutAtFirst(host[i + 1..], '.');
    }
  }

  /** What stands between the first `header` and the first `end` after it, for an
      end that cannot begin inside the header. */
  function LineAfter(peek: string, header: string, end: string): Option<string>
    requires end != "" && end[0] !in header
  {
    var idx := Index(peek, header);
    if idx == -1 then None
    else
      var lineEnd := Index(peek[idx..], end);
      if lineEnd == -1 then None
      else
        EndsAfterHeader(peek, header, end, idx);
        Some(peek[idx + |header|..idx + lineEnd])
  }

  lemma EndsAfterHeader(peek: string, header: string, end: string, idx: int)
    requires end != "" && end[0] !in header && At(peek, header, idx)
    ensures var lineEnd := Index(peek[idx..], end);
            lineEnd == -1 || |header| <= lineEnd <= |peek| - idx
  {
    var rest := peek[idx..];
    var lineEnd := Index(rest, end);
    assert forall i :: 0 <= i < |header| ==> rest[i] == peek[idx..idx + |header|][i] == header[i];
    if lineEnd >= 0 {
      assert rest[lineEnd] == rest[lineEnd..lineEnd + |end|][0] == end[0];
    }
  }

  const HEADER := "X-Kube-Service:"
  const LINE_END := "\r\n"

  lemma HeaderHasNoLineEnd()
    ensures LINE_END[0] !in HEADER
  {
  }

  /** The pair a header value names. */
  function PairOf(value: string, namespace: string): (string, string) {
    var parts := Split(TrimSpace(value), '.');
    (parts[0], if |parts| >= 2 then parts[1] else namespace)
  }

  /** parseXKubeService: the pair named by the header line, each half falling
      back to the one given. */
  function ParseXKubeService(peek: string, service: string, namespace: string): (string, string) {
    HeaderHasNoLineEnd();
    var line := LineAfter(peek, HEADER, LINE_END);
    if line.None? then (service, namespace) else PairOf(line.value, namespace)
  }

  /** The slice bounds are right: the line cannot end inside the header name. */
  lemma LineEndsAfterHeader(peek: string, idx: int)
    requires At(peek, HEADER, idx)
    ensures var lineEnd := Index(peek[idx..], LINE_END);
            lineEnd == -1 || |HEADER| <= lineEnd <= |peek| - idx
  {
    HeaderHasNoLineEnd();
    EndsAfterHeader(peek, HEADER, LINE_END, idx);
  }

  lemma AtDrop(s: string, idx: nat, sub: string, j: int)
    requires idx <= |s| && j >= 0
    ensures At(s[idx..], sub, j) == At(s, sub, idx + j)
  {
    if idx + j <= |s| - |sub| {
      var here, there := s[idx..][j..j + |sub|], s[idx + j..idx + j + |sub|];
      assert forall i :: 0 <= i < |sub| ==> here[i] == s[idx + j + i] == there[i];
      assert here == there;
    }
  }

  lemma IndexIs(s: string, sub: string, i: nat)
    requires At(s, sub, i) && forall j :: 0 <= j < i ==> !At(s, sub, j)
    ensures Index(s, sub) == i
  {
    IndexIsFirst(s, sub, i);
  }

  /** In the rest of the text from idx on, the first line end is where it is in the whole. */
  lemma IndexInRest(s: string, idx: nat, sub: string, end: nat)
    requires idx <= end && At(s, sub, end) && forall j :: idx <= j < end ==> !At(s, sub, j)
    ensures idx <= |s| && Index(s[idx..], sub) == end - idx
  {
    AtDrop(s, idx, sub, end - idx);
    forall j | 0 <= j < end - idx
      ensures !At(s[idx..], sub, j)
    {
      AtDrop(s, idx, sub, j);
    }
    IndexIs(s[idx..], sub, end - idx);
  }

  lemma LineIsBetween(peek: string, header: string, end: string, idx: nat, at: nat)
    requires end != "" && end[0] !in header
    requires At(peek, header, idx) && forall j :: 0 <= j < idx ==> !At(peek, header, j)
    requires idx <= at && At(peek, end, at) && forall j :: idx <= j < at ==> !At(peek, end, j)
    ensures idx + |header| <= at <= |peek|
    ensures LineAfter(peek, header, end) == Some(peek[idx + |header|..at])
  {
    IndexIs(peek, header, idx);
    IndexInRest(peek, idx, end, at);
    EndsAfterHeader(peek, header, end, idx);
  }

  /** The header is read off its first occurrence, up to the first line end after it. */
  lemma FirstHeaderLineIsRead(peek: string, idx: nat, end: nat, service: string, namespace: string)
    requires At(peek, HEADER, idx) && forall j :: 0 <= j < idx ==> !At(peek, HEADER, j)
    requires idx <= end && At(peek, LINE_END, end) && forall j :: idx <= j < end ==> !At(peek, LINE_END, j)
    ensures idx + |HEADER| <= end <= |peek|
    ensures ParseXKubeService(peek, service, namespace) == PairOf(peek[idx + |HEADER|..end], namespace)
  {
    HeaderHasNoLineEnd();
    LineIsBetween(peek, HEADER, LINE_END, idx, end);
  }

  lemma ValueIsRead(left: string, labels: seq<string>, right: string, namespace: string)
    requires |labels| >= 1 && (forall l :: l in labels ==> '.' !in l) && AllSpaces(left) && AllSpaces(right)
    requires var core := Join(labels, '.'); core != "" ==> !IsSpace(core[0]) && !IsSpace(core[|core| - 1])
    ensures PairOf(left + Join(labels, '.') + right, namespace)
            == (labels[0], if |labels| >= 2 then labels[1] else namespace)
  {
    TrimSpaceExact(left, Join(labels, '.'), right);
    SplitJoin(labels, '.');
  }

  /** Behind the first header, up to the first line end, the first label is the service
      and the second, if there is one, the namespace; the spaces around them do not count. */
  lemma HeaderLabelsAreRead(peek: string, idx: nat, end: nat, left: string, labels: seq<string>, right: string,
                            service: string, namespace: string)
    requires At(peek, HEADER, idx) && forall j :: 0 <= j < idx ==> !At(peek, HEADER, j)
    requires idx + |HEADER| <= end && At(peek, LINE_END, end) && forall j :: idx <= j < end ==> !At(peek, LINE_END, j)
    requires |labels| >= 1 && (forall l :: l in labels ==> '.' !in l) && AllSpaces(left) && AllSpaces(right)
    requires var core := Join(labels, '.'); core != "" ==> !IsSpace(core[0]) && !IsSpace(core[|core| - 1])
    requires peek[idx + |HEADER|..end] == left + Join(labels, '.') + right
    ensures ParseXKubeService(peek, service, namespace) == (labels[0], if |labels| >= 2 then labels[1] else namespace)
  {
    FirstHeaderLineIsRead(peek, idx, end, service, namespace);
    ValueIsRead(left, labels, right, namespace);
  }

  lemma NotFound(s: string, sub: string)
    requires forall j :: 0 <= j <= |s| ==> !At(s, sub, j)
    ensures Index(s, sub) == -1
  {
  }

  lemma NoLineNoValue(peek: string, header: string, end: string, idx: nat)
    requires end != "" && end[0] !in header
    requires At(peek, header, idx) && forall j :: 0 <= j < idx ==> !At(peek, header, j)
    requires forall j :: idx <= j <= |peek| ==> !At(peek, end, j)
    ensures LineAfter(peek, header, end).None?
  {
    IndexIs(peek, header, idx);
    forall j | 0 <= j <= |peek| - idx
      ensures !At(peek[idx..], end, j)
    {
      AtDrop(peek, idx, end, j);
    }
    NotFound(peek[idx..], end);
  }

  /** Without a header, or without a line end behind the first one, the given pair stays. */
  lemma NoHeaderLineNoChange(peek: string, idx: nat, service: string, namespace: string)
    requires || (forall j :: 0 <= j <= |peek| ==> !At(peek, HEADER, j))
             || (&& At(peek, HEADER, idx) && (forall j :: 0 <= j < idx ==> !At(peek, HEADER, j))
                 && forall j :: idx <= j <= |peek| ==> !At(peek, LINE_END, j))
    ensures ParseXKubeService(peek, service, namespace) == (service, namespace)
  {
    HeaderHasNoLineEnd();
    if At(peek, HEADER, idx) {
      NoLineNoValue(peek, HEADER, LINE_END, idx);
    } else {
      NotFound(peek, HEADER);
    }
  }

  /** The host a service and a namespace are printed as. */
  function ClusterHost(service: string, namespace: string): string {
    service + "." + namespace + ".svc.cluster.local"
  }

  lemma ClusterHostParses(s: string, n: string)
    requires '.' !in s && '.' !in n
    ensures ParseHost(ClusterHost(s, n)) == Some((s, n))
  {
    var parts := [s, n, "svc", "cluster", "local"];
    ClusterHostIsJoin(s, n);
    assert forall p :: p in parts ==> '.' !in p;
    SplitJoin(parts, '.');
  }

  /** Whatever a stream starts with, printing the extracted pair as a host and
      parsing it gives the same pair, so validation never rejects it. */
  lemma HeaderRoundTrip(peek: string, service: string, namespace: string)
    requires '.' !in service && '.' !in namespace
    ensures var (s, n) := ParseXKubeService(peek, service, namespace);
            ParseHost(ClusterHost(s, n)) == Some((s, n))
  {
    var (s, n) := ParseXKubeService(peek, service, namespace);
    ClusterHostParses(s, n);
  }

  lemma ClusterHostIsJoin(s: string, n: string)
    ensures ClusterHost(s, n) == Join([s, n, "svc", "cluster", "local"], '.')
  {
    var p := [s, n, "svc", "cluster", "local"];
    assert p[1..] == [n, "svc", "cluster", "local"];
    assert p[1..][1..] == ["svc", "cluster", "local"];
    assert p[1..][1..][1..] == ["cluster", "local"];
    assert p[1..][1..][1..][1..] == ["local"];
    assert Join(["cluster", "local"], '.') == "cluster.local";
    assert Join(["svc", "cluster", "local"], '.') == "svc.cluster.local";
    assert Join(p[1..], '.') == n + ".svc.cluster.local";
  }
}
