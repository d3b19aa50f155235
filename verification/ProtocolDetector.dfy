// What a connection speaks, judged by its first 256 bytes, and the forwarding of
// a connection that was judged.
module ProtocolDetector {
  import opened Text
  import opened Forwarding

  datatype Protocol = HTTP | GRPC | TCP | UDP

  const METHODS: seq<string> :=
    ["GET", "POST", "PUT", "DELETE", "HEAD", "OPTIONS", "PATCH", "CONNECT", "TRACE"]

  const TLS_HANDSHAKE: Byte := 0x16

  function Ascii(s: string): (b: Bytes)
    ensures |b| == |s|
  {
    seq(|s|, i requires 0 <= i < |s| => (s[i] as int % 256) as Byte)
  }

  predicate LooksLikeHTTP(b: Bytes) {
    || (exists m :: m in METHODS && Ascii(m + " ") <= b)
    || Ascii("PRI * HTTP/2.0") <= b
    || (b != [] && b[0] == TLS_HANDSHAKE)
  }

  /** detectProtocol. */
  function Detect(peek: Bytes): Protocol {
    if LooksLikeHTTP(peek) then HTTP else TCP
  }

  /** What the detector decides about a connection. */
  function Detected(r: Reader): Protocol
    requires |r.held| <= PEEK_SIZE
  {
    var err := PeekError(r);
    if err.Some? && err.value != EOF then TCP else Detect(Peek(r).held)
  }

  lemma AsciiConcat(a: string, b: string)
    ensures Ascii(a + b) == Ascii(a) + Ascii(b)
  {
  }

  /** A request line with any of the methods, an HTTP/2 preface and a TLS record are
      taken for HTTP, whatever follows; */
  lemma OpeningsAreHTTP(i: nat, rest: string, more: Bytes)
    requires i < |METHODS|
    ensures LooksLikeHTTP(Ascii(METHODS[i] + " " + rest))
    ensures LooksLikeHTTP(Ascii("PRI * HTTP/2.0" + rest))
    ensures LooksLikeHTTP([TLS_HANDSHAKE] + more)
  {
    AsciiConcat(METHODS[i] + " ", rest);
    AsciiConcat("PRI * HTTP/2.0", rest);
  }

  /** and nothing is that does not begin like one of them. */
  lemma HTTPBeginsSo(b: Bytes)
    requires LooksLikeHTTP(b)
    ensures b != []
    ensures || b[0] == TLS_HANDSHAKE || b[0] == 'P' as int as Byte
            || exists i :: 0 <= i < |METHODS| && b[0] == Ascii(METHODS[i] + " ")[0]
  {
    MethodsAreNotEmpty();
    assert Ascii("PRI * HTTP/2.0")[0] == 'P' as int as Byte;
    if m :| m in METHODS && Ascii(m + " ") <= b {
      var i :| 0 <= i < |METHODS| && METHODS[i] == m;
      assert b[0] == Ascii(METHODS[i] + " ")[0];
    }
  }

  lemma MethodsAreNotEmpty()
    ensures forall i :: 0 <= i < |METHODS| ==> METHODS[i] != ""
  {
  }

  lemma ShortMethods()
    ensures forall m :: m in METHODS ==> |m| <= 7
  {
  }

  /** The verdict rests on the first few bytes, so a 256-byte window decides it. */
  lemma WindowDecides(content: Bytes)
    requires |content| >= PEEK_SIZE
    ensures LooksLikeHTTP(content[..PEEK_SIZE]) == LooksLikeHTTP(content)
  {
    ShortMethods();
    forall m | m in METHODS
      ensures Ascii(m + " ") <= content[..PEEK_SIZE] <==> Ascii(m + " ") <= content
    {
      PrefixOfWindow(Ascii(m + " "), content);
    }
    PrefixOfWindow(Ascii("PRI * HTTP/2.0"), content);
  }

  lemma PrefixOfWindow(prefix: Bytes, content: Bytes)
    requires |prefix| <= PEEK_SIZE <= |content|
    ensures prefix <= content[..PEEK_SIZE] <==> prefix <= content
  {
  }

  /** The first error a connection reports. */
  function FirstError(s: Source): Error {
    FirstErrorOf(s.chunks, s.final)
  }

  function FirstErrorOf(chunks: seq<Chunk>, final: Error): Error {
    if chunks == [] then final
    else if chunks[0].err.Some? then chunks[0].err.value
    else FirstErrorOf(chunks[1..], final)
  }

  lemma ReadsFirstError(s: Source, size: nat)
    ensures var g := ReadConn(s, size);
            if g.err.Some? then g.err.value == FirstError(s) else FirstError(g.rest) == FirstError(s)
  {
    if s.chunks != [] && |s.chunks[0].data| > size {
      assert ReadConn(s, size).rest.chunks[1..] == s.chunks[1..];
    }
  }

  lemma {:induction false} FillUpReportsFirstError(r: Reader)
    requires |r.held| <= PEEK_SIZE && r.pending.None? && NoEmptyReads(r.source.chunks)
    ensures FillUp(r).pending.Some? ==> FillUp(r).pending.value == FirstError(r.source)
    decreases Size(r.source.chunks)
  {
    if |r.held| < PEEK_SIZE {
      ReadsFirstError(r.source, PEEK_SIZE - |r.held|);
      ReadMoreFills(r);
      var f := Fill(r, MAX_EMPTY_READS);
      assert f == ReadMore(r);
      if f.pending.None? {
        FillUpReportsFirstError(f);
      }
    }
  }

  /** What a filled buffer holds of a connection: all bytes before its first
      error if there is room for them, else the first 256 of them. */
  lemma FilledWindow(source: Source)
    requires NoEmptyReads(source.chunks)
    ensures var f, sent := FillUp(Reader([], None, source)), Through(source.chunks);
            if |sent| < PEEK_SIZE then f.held == sent && f.pending == Some(FirstError(source))
            else f.held == sent[..PEEK_SIZE]
  {
    var r := Reader([], None, source);
    FillUpFills(r);
    FillUpReportsFirstError(r);
    assert DueFrom(r) == Through(source.chunks);
    if FillUp(r).pending.None? {
      FullWindow(r, FillUp(r));
    }
  }

  lemma FullWindow(r: Reader, f: Reader)
    requires ErrorAhead(r, f) && f.pending.None? && |f.held| == PEEK_SIZE
    ensures |DueFrom(r)| >= PEEK_SIZE && f.held == DueFrom(r)[..PEEK_SIZE]
  {
    assert f.(pending := None) == f;
    assert f.held <= DueFrom(f);
  }

  /** Over every chunking a connection is taken for HTTP exactly when the bytes
      before its first error begin like HTTP, and that error is the end of input
      or lies beyond the first 256 bytes; everything else is TCP. */
  lemma DetectionIgnoresChunking(source: Source)
    requires NoEmptyReads(source.chunks)
    ensures var sent := Through(source.chunks);
            Detected(Reader([], None, source)) ==
            if (|sent| >= PEEK_SIZE || FirstError(source) == EOF) && LooksLikeHTTP(sent) then HTTP else TCP
  {
    var sent := Through(source.chunks);
    FilledWindow(source);
    if |sent| >= PEEK_SIZE {
      WindowDecides(sent);
    }
  }

  lemma NothingIsTCP()
    ensures Detect([]) == TCP
  {
    MethodsAreNotEmpty();
  }

  lemma DetectedNow(r: Reader, held: Bytes, err: Option<Error>)
    requires |r.held| <= PEEK_SIZE && held == Peek(r).held && err == PeekError(r)
    ensures Detected(r) == if (err.Some? && err.value != EOF) || held == [] then TCP else Detect(held)
  {
    NothingIsTCP();
  }

  /** DetectFromConnection. */
  method DetectFromConnection(conn: Conn) returns (protocol: Protocol, br: BufReader)
    modifies conn`incoming
    ensures br.conn == conn && fresh(br) && fresh(br.buf) && br.Valid()
    ensures br.View() == old(Peek(Reader([], None, conn.In())))
    ensures protocol == old(Detected(Reader([], None, conn.In())))
  {
    ghost var r := Reader([], None, conn.In());
    br := new BufReader(conn);
    var n, err := br.PeekBuffer();
    DetectedNow(r, br.View().held, err);
    if err.Some? && err.value != EOF {
      return TCP, br;
    }
    if n == 0 {
      return TCP, br;
    }
    protocol := Detect(br.buf[br.r..br.r + n]);
  }

  /** A detected client connection copied to a new target connection. */
  method ForwardClient(client: Conn, target: Conn, buf: array<Byte>) returns (protocol: Protocol, end: End)
    requires client != target && target.delivered == [] && buf.Length == TCP_BUFFER_SIZE
    modifies client`incoming, target`delivered, target`plan, buf
    ensures target.delivered <= old(Content(client.incoming))
    ensures end.ReadEnd? ==> target.delivered + Content(client.incoming) == old(Content(client.incoming))
    ensures end.ReadEnd? && old(ErrorsLast(client.incoming)) ==>
              target.delivered == old(Content(client.incoming))
  {
    ghost var source, plan := client.In(), target.plan;
    var br;
    protocol, br := DetectFromConnection(client);
    ghost var k, hand;
    end, k, hand := Copy(target, br, buf);
    assert Steps(Accepted(source, plan), k) == Pipe(br.View(), hand, target.Out(), Some(end));
    ForwardingIsPrefix(source, plan, true, k);
    if end.ReadEnd? && ErrorsLast(source.chunks) {
      EverythingArrives(source, plan, true, k);
    }
  }
}
