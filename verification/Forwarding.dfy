// Forwarding a connection byte for byte after its protocol was detected: the
// detector peeks through a buffered reader, and two copy loops then move bytes
// in both directions.
module Forwarding {
  import opened Text

  newtype Byte = b: int | 0 <= b < 256

  type Bytes = seq<Byte>

  const PEEK_SIZE: nat := 256
  const TCP_BUFFER_SIZE: nat := 32 * 1024
  const MAX_EMPTY_READS: nat := 100

  datatype Error = EOF | NoProgress | Broken(code: int)

  /** What one read of a connection finds: bytes, and possibly an error with them. */
  datatype Chunk = Chunk(data: Bytes, err: Option<Error>)

  /** The future reads of a connection; after the last chunk every read fails with `final`. */
  datatype Source = Source(chunks: seq<Chunk>, final: Error)

  function Content(chunks: seq<Chunk>): Bytes {
    if chunks == [] then [] else chunks[0].data + Content(chunks[1..])
  }

  /** The bytes up to and including the first read that reports an error. */
  function Through(chunks: seq<Chunk>): Bytes {
    if chunks == [] then []
    else if chunks[0].err.Some? then chunks[0].data
    else chunks[0].data + Through(chunks[1..])
  }

  /** The reads after the first one that reports an error. */
  function AfterError(chunks: seq<Chunk>): seq<Chunk> {
    if chunks == [] then []
    else if chunks[0].err.Some? then chunks[1..]
    else AfterError(chunks[1..])
  }

  function Size(chunks: seq<Chunk>): nat {
    if chunks == [] then 0 else 1 + |chunks[0].data| + Size(chunks[1..])
  }

  datatype Got = Got(data: Bytes, err: Option<Error>, rest: Source)

  /** One read of a connection into `size` bytes: a chunk that does not fit is
      cut, and its error waits for its last part. */
  function ReadConn(s: Source, size: nat): (g: Got)
    ensures g.data + Content(g.rest.chunks) == Content(s.chunks)
    ensures |g.data| <= size && g.rest.final == s.final
    ensures size > 0 && g.err.None? ==> Size(g.rest.chunks) < Size(s.chunks)
  {
    if s.chunks == [] then Got([], Some(s.final), s)
    else
      var c, rest := s.chunks[0], s.chunks[1..];
      if |c.data| <= size then Got(c.data, c.err, s.(chunks := rest))
      else
        var cut := [Chunk(c.data[size..], c.err)] + rest;
        assert cut[1..] == rest;
        assert c.data[..size] + (c.data[size..] + Content(rest)) == c.data + Content(rest);
        Got(c.data[..size], None, s.(chunks := cut))
  }

  /** A `bufio.Reader` over a connection. */
  datatype Reader = Reader(held: Bytes, pending: Option<Error>, source: Source)

  function Unread(r: Reader): Bytes {
    r.held + Content(r.source.chunks)
  }

  /** One read into the free part of the buffer. */
  function ReadMore(r: Reader): (f: Reader)
    requires |r.held| < PEEK_SIZE && r.pending.None?
    ensures |r.held| <= |f.held| <= PEEK_SIZE && Unread(f) == Unread(r)
    ensures f.pending.None? ==> Size(f.source.chunks) < Size(r.source.chunks)
  {
    var g := ReadConn(r.source, PEEK_SIZE - |r.held|);
    assert r.held + g.data + Content(g.rest.chunks) == r.held + (g.data + Content(g.rest.chunks));
    Reader(r.held + g.data, g.err, g.rest)
  }

  /** `fill`: read until something arrives, at most `tries` times. */
  function Fill(r: Reader, tries: nat): (f: Reader)
    requires |r.held| < PEEK_SIZE && r.pending.None?
    ensures |f.held| <= PEEK_SIZE && Unread(f) == Unread(r)
    ensures f.pending.None? ==> Size(f.source.chunks) < Size(r.source.chunks)
    decreases tries
  {
    if tries == 0 then r.(pending := Some(NoProgress))
    else
      var read := ReadMore(r);
      if read.pending.Some? || |read.held| > |r.held| then read else Fill(read, tries - 1)
  }

  function FillUp(r: Reader): (f: Reader)
    requires |r.held| <= PEEK_SIZE
    ensures |f.held| <= PEEK_SIZE && Unread(f) == Unread(r)
    ensures |f.held| == PEEK_SIZE || f.pending.Some?
    decreases if r.pending.Some? then 0 else 1, Size(r.source.chunks)
  {
    if |r.held| < PEEK_SIZE && r.pending.None? then FillUp(Fill(r, MAX_EMPTY_READS)) else r
  }

  /** `Peek(256)`: a peek that falls short reports the pending error and forgets it. */
  function Peek(r: Reader): Reader
    requires |r.held| <= PEEK_SIZE
  {
    var f := FillUp(r);
    if |f.held| < PEEK_SIZE then f.(pending := None) else f
  }

  /** The error a peek reports. */
  function PeekError(r: Reader): Option<Error>
    requires |r.held| <= PEEK_SIZE
  {
    if |FillUp(r).held| < PEEK_SIZE then FillUp(r).pending else None
  }

  datatype BufGot = BufGot(data: Bytes, err: Option<Error>, rest: Reader)

  function Take(r: Reader, size: nat): BufGot {
    var n := if |r.held| <= size then |r.held| else size;
    BufGot(r.held[..n], None, r.(held := r.held[n..]))
  }

  /** `Read` of the buffered reader into `size` bytes. */
  function ReadBuffered(r: Reader, size: nat): (g: BufGot)
    requires size > 0
    ensures g.data + Unread(g.rest) == Unread(r) && |g.data| <= size
    ensures g.err.Some? ==> g.rest.held == [] && g.rest.pending.None?
    ensures g.err.None? ==> Left(g.rest) < Left(r)
  {
    if r.held != [] then
      assert Take(r, size).data + Take(r, size).rest.held == r.held;
      Take(r, size)
    else if r.pending.Some? then BufGot([], r.pending, r.(pending := None))
    else if size >= PEEK_SIZE then
      var g := ReadConn(r.source, size);
      BufGot(g.data, g.err, Reader([], None, g.rest))
    else
      var g := ReadConn(r.source, PEEK_SIZE);
      if g.data == [] then BufGot([], g.err, Reader([], None, g.rest))
      else
        var filled := Reader(g.data, g.err, g.rest);
        assert Take(filled, size).data + Take(filled, size).rest.held == g.data;
        Take(filled, size)
  }

  /** Bounds the number of reads still possible. */
  function Left(r: Reader): nat {
    |r.held| + 2 * Size(r.source.chunks) + if r.pending.Some? then 1 else 0
  }

  /** How a writer treats one write: at most `limit` bytes go out, and it may
      report an error even so. A short write always reports one. */
  datatype WritePlan = WritePlan(limit: nat, fails: bool)

  /** A writer: what it has delivered, and how the coming writes go; after the
      planned ones every write succeeds. */
  datatype Sink = Sink(delivered: Bytes, plan: seq<WritePlan>)

  datatype Put = Put(n: nat, failed: bool, rest: Sink)

  function WriteOut(s: Sink, data: Bytes): (w: Put)
    ensures w.n <= |data| && w.rest.delivered == s.delivered + data[..w.n]
    ensures w.n < |data| ==> w.failed
  {
    if s.plan == [] then
      assert data[..|data|] == data;
      Put(|data|, false, s.(delivered := s.delivered + data))
    else
      var n := if s.plan[0].limit < |data| then s.plan[0].limit else |data|;
      Put(n, n < |data| || s.plan[0].fails, Sink(s.delivered + data[..n], s.plan[1..]))
  }

  /** A chunk read but not yet (wholly) written. */
  datatype Hand = Hand(data: Bytes, err: Option<Error>)

  datatype End = ReadEnd(err: Error) | WriteEnd

  /** One copy loop in progress. */
  datatype Pipe = Pipe(reader: Reader, hand: Option<Hand>, sink: Sink, end: Option<End>)

  /** What a copy loop does between two scheduling points: a read or a write. */
  function Step(p: Pipe): Pipe {
    if p.end.Some? then p
    else if p.hand.None? then
      var g := ReadBuffered(p.reader, TCP_BUFFER_SIZE);
      p.(reader := g.rest, hand := Some(Hand(g.data, g.err)))
    else
      var h := p.hand.value;
      var w := WriteOut(p.sink, h.data);
      if h.data != [] && w.failed then
        p.(sink := w.rest, hand := Some(Hand(h.data[w.n..], h.err)), end := Some(WriteEnd))
      else
        Pipe(p.reader, None, if h.data == [] then p.sink else w.rest,
             if h.err.Some? then Some(ReadEnd(h.err.value)) else None)
  }

  function Steps(p: Pipe, k: nat): Pipe {
    if k == 0 then p else Step(Steps(p, k - 1))
  }

  function InHand(p: Pipe): Bytes {
    if p.hand.Some? then p.hand.value.data else []
  }

  /** All bytes of a direction, in order: delivered, in hand, buffered, unread. */
  function All(p: Pipe): Bytes {
    p.sink.delivered + (InHand(p) + Unread(p.reader))
  }

  /** Once an error was read, the buffer is empty; after a read end nothing is in hand. */
  predicate Drained(p: Pipe) {
    && (p.hand.Some? && p.hand.value.err.Some? ==> p.reader.held == [] && p.reader.pending.None?)
    && (p.end.Some? && p.end.value.ReadEnd? ==> p.hand.None? && p.reader.held == [])
  }

  lemma Assoc(a: Bytes, b: Bytes, c: Bytes)
    ensures a + (b + c) == (a + b) + c
  {
  }

  lemma ReadConserves(p: Pipe)
    requires p.end.None? && p.hand.None?
    ensures Drained(Step(p)) && All(Step(p)) == All(p)
  {
    var g := ReadBuffered(p.reader, TCP_BUFFER_SIZE);
    assert [] + Unread(p.reader) == Unread(p.reader);
  }

  lemma WriteConserves(p: Pipe)
    requires Drained(p) && p.end.None? && p.hand.Some?
    ensures Drained(Step(p)) && All(Step(p)) == All(p)
  {
    var h := p.hand.value;
    var w := WriteOut(p.sink, h.data);
    var unread := Unread(p.reader);
    assert [] + unread == unread;
    if h.data != [] && w.failed {
      assert h.data == h.data[..w.n] + h.data[w.n..];
      Assoc(h.data[..w.n], h.data[w.n..], unread);
      Assoc(p.sink.delivered, h.data[..w.n], h.data[w.n..] + unread);
    } else if h.data != [] {
      assert h.data[..w.n] == h.data;
      Assoc(p.sink.delivered, h.data, unread);
    }
  }

  lemma StepConserves(p: Pipe)
    requires Drained(p)
    ensures Drained(Step(p)) && All(Step(p)) == All(p)
  {
    if p.end.None? {
      if p.hand.None? {
        ReadConserves(p);
      } else {
        WriteConserves(p);
      }
    }
  }

  lemma {:induction false} StepsConserve(p: Pipe, k: nat)
    requires Drained(p)
    ensures Drained(Steps(p, k)) && All(Steps(p, k)) == All(p)
  {
    if k > 0 {
      StepsConserve(p, k - 1);
      StepConserves(Steps(p, k - 1));
    }
  }

  /** A freshly accepted connection, after the detector peeked at it. */
  function Accepted(source: Source, plan: seq<WritePlan>): Pipe {
    Pipe(Peek(Reader([], None, source)), None, Sink([], plan), None)
  }

  /** The reverse direction reads the raw connection. */
  function Raw(source: Source, plan: seq<WritePlan>): Pipe {
    Pipe(Reader([], None, source), None, Sink([], plan), None)
  }

  /** However reads are chunked and writes cut, what was delivered is a prefix
      of what was sent, peeked bytes included, and when copying ends on a read
      error every byte taken off the connection was delivered. */
  lemma ForwardingIsPrefix(source: Source, plan: seq<WritePlan>, peeked: bool, k: nat)
    ensures var p := Steps(if peeked then Accepted(source, plan) else Raw(source, plan), k);
            && p.sink.delivered <= Content(source.chunks)
            && (p.end.Some? && p.end.value.ReadEnd? ==>
                  p.sink.delivered + Content(p.reader.source.chunks) == Content(source.chunks))
  {
    var start := if peeked then Accepted(source, plan) else Raw(source, plan);
    var p := Steps(start, k);
    assert Unread(Reader([], None, source)) == Content(source.chunks);
    assert All(start) == Content(source.chunks);
    StepsConserve(start, k);
    assert p.sink.delivered <= All(p);
  }

  // When copying ends, and how.

  /** Bounds the steps to the end of a copy loop. */
  function ToGo(p: Pipe): nat {
    if p.end.Some? then 0
    else if p.hand.None? then 2 * Left(p.reader) + 3
    else if p.hand.value.err.None? then 2 * Left(p.reader) + 4
    else 1
  }

  lemma StepGoesOn(p: Pipe)
    ensures p.end.None? ==> ToGo(Step(p)) < ToGo(p)
  {
  }

  /** However the writes go, a copy loop ends: it needs no more steps than what is
      left to read allows. */
  lemma {:induction false} CopyEnds(p: Pipe, k: nat)
    ensures ToGo(Steps(p, k)) == 0 || ToGo(Steps(p, k)) + k <= ToGo(p)
    ensures k >= ToGo(p) ==> Steps(p, k).end.Some?
  {
    if k > 0 {
      CopyEnds(p, k - 1);
      StepGoesOn(Steps(p, k - 1));
    }
  }

  /** How the copy loop has fared with the planned writes: all those made so far went
      through, but for the last when the loop ended on it, which then failed or was
      cut short. */
  predicate Fared(plan: seq<WritePlan>, p: Pipe) {
    && |p.sink.plan| <= |plan|
    && var made := |plan| - |p.sink.plan|;
       && p.sink.plan == plan[made..]
       && (forall i :: 0 <= i < made - 1 ==> !plan[i].fails)
       && if p.end == Some(WriteEnd) then made > 0 && p.hand.Some? && (plan[made - 1].fails || p.hand.value.data != [])
          else made > 0 ==> !plan[made - 1].fails
  }

  lemma FaredStep(plan: seq<WritePlan>, p: Pipe)
    requires Fared(plan, p)
    ensures Fared(plan, Step(p))
  {
    var made := |plan| - |p.sink.plan|;
    if p.sink.plan != [] {
      assert p.sink.plan[0] == plan[made];
      assert p.sink.plan[1..] == plan[made + 1..];
    }
  }

  /** A copy loop ends on a write exactly when that write fails or is cut short. */
  lemma {:induction false} EndsOnFailedWrite(p: Pipe, k: nat)
    requires p.end.None?
    ensures Fared(p.sink.plan, Steps(p, k))
  {
    if k > 0 {
      EndsOnFailedWrite(p, k - 1);
      FaredStep(p.sink.plan, Steps(p, k - 1));
    }
  }

  /** No write will fail or be cut short. */
  predicate WritesSucceed(plan: seq<WritePlan>) {
    forall w :: w in plan ==> !w.fails && w.limit >= TCP_BUFFER_SIZE
  }

  predicate Unhindered(p: Pipe) {
    WritesSucceed(p.sink.plan) && p.end != Some(WriteEnd) && |InHand(p)| <= TCP_BUFFER_SIZE
  }

  lemma UnhinderedStep(p: Pipe)
    requires Unhindered(p)
    ensures Unhindered(Step(p))
  {
    if p.sink.plan != [] {
      assert p.sink.plan[0] in p.sink.plan;
      assert forall w :: w in p.sink.plan[1..] ==> w in p.sink.plan;
    }
  }

  lemma {:induction false} UnhinderedSteps(p: Pipe, k: nat)
    requires Unhindered(p)
    ensures Unhindered(Steps(p, k))
  {
    if k > 0 {
      UnhinderedSteps(p, k - 1);
      UnhinderedStep(Steps(p, k - 1));
    }
  }

  /** When no write fails, copying a connection runs until a read error ends it. */
  lemma CopyRunsToReadEnd(source: Source, plan: seq<WritePlan>, peeked: bool, k: nat)
    requires WritesSucceed(plan)
    requires k >= ToGo(if peeked then Accepted(source, plan) else Raw(source, plan))
    ensures var end := Steps(if peeked then Accepted(source, plan) else Raw(source, plan), k).end;
            end.Some? && end.value.ReadEnd?
  {
    var start := if peeked then Accepted(source, plan) else Raw(source, plan);
    CopyEnds(start, k);
    UnhinderedSteps(start, k);
  }

  // How far copying gets when every write succeeds.

  /** The bytes a copy loop will have delivered when it next ends on a read error. */
  function Due(p: Pipe): Bytes {
    p.sink.delivered + (InHand(p) +
      if p.end.Some? || (p.hand.Some? && p.hand.value.err.Some?) then [] else DueFrom(p.reader))
  }

  function DueFrom(r: Reader): Bytes {
    r.held + if r.pending.Some? then [] else Through(r.source.chunks)
  }

  lemma ConnDue(s: Source, size: nat)
    ensures var g := ReadConn(s, size);
            Through(s.chunks) == g.data + if g.err.Some? then [] else Through(g.rest.chunks)
  {
    if s.chunks != [] {
      var c, rest := s.chunks[0], s.chunks[1..];
      if |c.data| > size {
        var g := ReadConn(s, size);
        assert g.rest.chunks[1..] == rest;
        assert c.data == g.data + c.data[size..];
        Assoc(g.data, c.data[size..], Through(rest));
      }
    }
  }

  lemma TakeDue(r: Reader, size: nat)
    ensures DueFrom(r) == Take(r, size).data + DueFrom(Take(r, size).rest)
  {
    var g := Take(r, size);
    assert r.held == g.data + g.rest.held;
    Assoc(g.data, g.rest.held, if r.pending.Some? then [] else Through(r.source.chunks));
  }

  lemma NothingHeldDue(r: Reader)
    requires r.held == []
    ensures DueFrom(r) == if r.pending.Some? then [] else Through(r.source.chunks)
  {
  }

  lemma ReadDue(r: Reader, size: nat)
    requires size > 0
    ensures var g := ReadBuffered(r, size);
            DueFrom(r) == g.data + if g.err.Some? then [] else DueFrom(g.rest)
  {
    if r.held != [] {
      TakeDue(r, size);
    } else {
      NothingHeldDue(r);
      if r.pending.None? && size >= PEEK_SIZE {
        ConnDue(r.source, size);
        NothingHeldDue(ReadBuffered(r, size).rest);
      } else if r.pending.None? {
        ConnDue(r.source, PEEK_SIZE);
        var got := ReadConn(r.source, PEEK_SIZE);
        if got.data == [] {
          NothingHeldDue(Reader([], None, got.rest));
        } else {
          TakeDue(Reader(got.data, got.err, got.rest), size);
        }
      }
    }
  }

  lemma StepDue(p: Pipe)
    requires Drained(p) && Step(p).end != Some(WriteEnd)
    ensures Due(Step(p)) == Due(p)
  {
    if p.end.None? && p.hand.None? {
      ReadDue(p.reader, TCP_BUFFER_SIZE);
    }
  }

  lemma {:induction false} StepsDue(p: Pipe, k: nat)
    requires Drained(p) && Steps(p, k).end != Some(WriteEnd)
    ensures Due(Steps(p, k)) == Due(p)
  {
    if k > 0 {
      StepsConserve(p, k - 1);
      StepsDue(p, k - 1);
      StepDue(Steps(p, k - 1));
    }
  }

  /** No read comes back with neither bytes nor an error. */
  predicate NoEmptyReads(chunks: seq<Chunk>) {
    forall c :: c in chunks ==> c.data != [] || c.err.Some?
  }

  /** Filling used up the first error of r's connection. */
  predicate ErrorReached(r: Reader, f: Reader) {
    f.pending.Some? && f.held == DueFrom(r) && f.source.chunks == AfterError(r.source.chunks)
  }

  /** Filling did not get as far as that error. */
  predicate ErrorAhead(r: Reader, f: Reader) {
    && DueFrom(f.(pending := None)) == DueFrom(r)
    && AfterError(f.source.chunks) == AfterError(r.source.chunks)
  }

  predicate Filled(r: Reader, f: Reader) {
    && (ErrorReached(r, f) || ErrorAhead(r, f))
    && (f.pending.None? ==> ErrorAhead(r, f))
    && (f.pending.Some? && |f.held| >= PEEK_SIZE ==> ErrorReached(r, f))
  }

  lemma ReadAhead(s: Source, size: nat)
    requires size > 0
    ensures var g := ReadConn(s, size);
            && (g.err.Some? ==> g.rest.chunks == AfterError(s.chunks))
            && (g.err.None? ==> AfterError(g.rest.chunks) == AfterError(s.chunks))
            && (NoEmptyReads(s.chunks) ==> NoEmptyReads(g.rest.chunks) && (g.err.Some? || g.data != []))
  {
    if s.chunks != [] && |s.chunks[0].data| > size {
      var g := ReadConn(s, size);
      assert g.rest.chunks[1..] == s.chunks[1..];
      assert s.chunks[0] in s.chunks;
    }
  }

  lemma ReadMoreFills(r: Reader)
    requires |r.held| < PEEK_SIZE && r.pending.None?
    ensures var f := ReadMore(r);
            && if f.pending.Some? then ErrorReached(r, f) else ErrorAhead(r, f) && DueFrom(f) == DueFrom(r)
    ensures var f := ReadMore(r);
            NoEmptyReads(r.source.chunks) ==>
              NoEmptyReads(f.source.chunks) && (f.pending.Some? || |f.held| > |r.held|)
  {
    var room := PEEK_SIZE - |r.held|;
    var g := ReadConn(r.source, room);
    ConnDue(r.source, room);
    ReadAhead(r.source, room);
    Assoc(r.held, g.data, if g.err.Some? then [] else Through(g.rest.chunks));
    assert g.data + [] == g.data;
  }

  lemma NoProgressFills(r: Reader)
    requires |r.held| < PEEK_SIZE && r.pending.None?
    ensures Filled(r, r.(pending := Some(NoProgress)))
  {
    assert r.(pending := Some(NoProgress)).(pending := None) == r;
  }

  lemma OneReadFills(r: Reader)
    requires |r.held| < PEEK_SIZE && r.pending.None?
    ensures Filled(r, ReadMore(r))
    ensures ReadMore(r).pending.None? ==> ErrorAhead(r, ReadMore(r))
  {
    ReadMoreFills(r);
    var read := ReadMore(r);
    if read.pending.None? {
      assert read.(pending := None) == read;
    }
  }

  lemma {:induction false} FillFills(r: Reader, tries: nat)
    requires |r.held| < PEEK_SIZE && r.pending.None?
    ensures Filled(r, Fill(r, tries))
    decreases tries
  {
    if tries == 0 {
      NoProgressFills(r);
    } else {
      var read := ReadMore(r);
      OneReadFills(r);
      if read.pending.None? && |read.held| == |r.held| {
        FillFills(read, tries - 1);
        FilledAgain(r, read, Fill(read, tries - 1));
      }
    }
  }

  lemma FilledAgain(r: Reader, read: Reader, f: Reader)
    requires read.pending.None? && ErrorAhead(r, read) && Filled(read, f)
    ensures Filled(r, f)
  {
    assert read.(pending := None) == read;
  }

  lemma FillReadsOnce(r: Reader, tries: nat)
    requires |r.held| < PEEK_SIZE && r.pending.None?
    requires tries > 0 && NoEmptyReads(r.source.chunks)
    ensures var f := Fill(r, tries);
            NoEmptyReads(f.source.chunks) && (f.pending.Some? ==> ErrorReached(r, f))
  {
    ReadMoreFills(r);
  }

  lemma {:induction false} FillUpFills(r: Reader)
    requires |r.held| <= PEEK_SIZE && r.pending.None?
    ensures Filled(r, FillUp(r))
    ensures NoEmptyReads(r.source.chunks) && FillUp(r).pending.Some? ==> ErrorReached(r, FillUp(r))
    decreases Size(r.source.chunks)
  {
    if |r.held| < PEEK_SIZE {
      var f := Fill(r, MAX_EMPTY_READS);
      FillFills(r, MAX_EMPTY_READS);
      if NoEmptyReads(r.source.chunks) {
        FillReadsOnce(r, MAX_EMPTY_READS);
      }
      if f.pending.None? {
        FillUpFills(f);
        FilledAgain(r, f, FillUp(f));
        assert f.(pending := None) == f;
      }
    }
  }

  /** A peek changes what copying will deliver only by dropping one error that
      came with fewer than 256 bytes before it; when no read is empty, that is
      exactly when it does. */
  lemma PeekDropsShortError(r: Reader)
    requires |r.held| <= PEEK_SIZE && r.pending.None?
    ensures
      || DueFrom(Peek(r)) == DueFrom(r)
      || (|DueFrom(r)| < PEEK_SIZE
          && DueFrom(Peek(r)) == DueFrom(r) + Through(AfterError(r.source.chunks)))
    ensures NoEmptyReads(r.source.chunks) ==>
              DueFrom(Peek(r)) == DueFrom(r) + if |DueFrom(r)| < PEEK_SIZE
                                               then Through(AfterError(r.source.chunks)) else []
  {
    var f := FillUp(r);
    FillUpFills(r);
    if |f.held| < PEEK_SIZE {
      assert f.pending.Some?;
    } else if f.pending.None? {
      assert f.(pending := None) == f;
      assert |DueFrom(f)| >= |f.held|;
    }
  }

  /** Where copying a freshly detected connection ends when no write fails: with
      the first read error, unless that came within the first 256 bytes, when
      the detector has swallowed it and copying ends with the second one. */
  lemma CopyStopsAt(source: Source, plan: seq<WritePlan>, k: nat)
    requires NoEmptyReads(source.chunks)
    requires var end := Steps(Accepted(source, plan), k).end; end.Some? && end.value.ReadEnd?
    ensures Steps(Accepted(source, plan), k).sink.delivered
            == Through(source.chunks)
               + if |Through(source.chunks)| < PEEK_SIZE then Through(AfterError(source.chunks)) else []
  {
    var p := Accepted(source, plan);
    var unpeeked := Reader([], None, source);
    StepsConserve(p, k);
    StepsDue(p, k);
    assert [] + Through(source.chunks) == Through(source.chunks);
    PeekDropsShortError(unpeeked);
    assert Due(p) == DueFrom(p.reader);
  }

  /** The reverse direction ends with the first read error. */
  lemma RawCopyStopsAt(source: Source, plan: seq<WritePlan>, k: nat)
    requires var end := Steps(Raw(source, plan), k).end; end.Some? && end.value.ReadEnd?
    ensures Steps(Raw(source, plan), k).sink.delivered == Through(source.chunks)
  {
    StepsConserve(Raw(source, plan), k);
    StepsDue(Raw(source, plan), k);
    assert Due(Raw(source, plan)) == Through(source.chunks);
  }

  /** Errors come only with or after the last bytes, as on a connection whose
      first error is final. */
  predicate ErrorsLast(chunks: seq<Chunk>) {
    forall i :: 0 <= i < |chunks| && chunks[i].err.Some? ==> i == |chunks| - 1
  }

  lemma {:induction false} ErrorsLastThrough(chunks: seq<Chunk>)
    requires ErrorsLast(chunks)
    ensures Through(chunks) == Content(chunks) && AfterError(chunks) == []
  {
    if chunks != [] {
      if chunks[0].err.Some? {
        assert chunks[1..] == [];
      } else {
        ErrorsLastThrough(chunks[1..]);
      }
    }
  }

  /** Then every byte sent arrives, also those read together with the error. */
  lemma EverythingArrives(source: Source, plan: seq<WritePlan>, peeked: bool, k: nat)
    requires ErrorsLast(source.chunks)
    requires var end := Steps(if peeked then Accepted(source, plan) else Raw(source, plan), k).end;
             end.Some? && end.value.ReadEnd?
    ensures Steps(if peeked then Accepted(source, plan) else Raw(source, plan), k).sink.delivered
            == Content(source.chunks)
  {
    ErrorsLastThrough(source.chunks);
    if peeked {
      var p := Accepted(source, plan);
      StepsConserve(p, k);
      StepsDue(p, k);
      PeekDropsShortError(Reader([], None, source));
      assert Due(p) == DueFrom(p.reader);
      assert DueFrom(Reader([], None, source)) == Content(source.chunks);
      assert Content(source.chunks) + Through([]) == Content(source.chunks);
    } else {
      RawCopyStopsAt(source, plan, k);
    }
  }

  // Two directions at once.

  /** Both loops run; the schedule says which one moves next. */
  function Interleave(out: Pipe, back: Pipe, schedule: seq<bool>): (Pipe, Pipe) {
    if schedule == [] then (out, back)
    else
      var (o, b) := Interleave(out, back, schedule[..|schedule| - 1]);
      if schedule[|schedule| - 1] then (Step(o), b) else (o, Step(b))
  }

  function Turns(schedule: seq<bool>, who: bool): nat {
    if schedule == [] then 0
    else Turns(schedule[..|schedule| - 1], who) + if schedule[|schedule| - 1] == who then 1 else 0
  }

  lemma {:induction false} InterleaveIsIndependent(out: Pipe, back: Pipe, schedule: seq<bool>)
    ensures Interleave(out, back, schedule)
            == (Steps(out, Turns(schedule, true)), Steps(back, Turns(schedule, false)))
  {
    if schedule != [] {
      InterleaveIsIndependent(out, back, schedule[..|schedule| - 1]);
    }
  }

  /** Under every schedule of the two loops, each side has received a prefix of
      what the other sent, from its first byte. */
  lemma BothDirectionsArePrefixes(client: Source, target: Source,
                                  toTarget: seq<WritePlan>, toClient: seq<WritePlan>, schedule: seq<bool>)
    ensures var (out, back) := Interleave(Accepted(client, toTarget), Raw(target, toClient), schedule);
            && out.sink.delivered <= Content(client.chunks)
            && back.sink.delivered <= Content(target.chunks)
            && (out.end.Some? && out.end.value.ReadEnd? ==>
                  out.sink.delivered + Content(out.reader.source.chunks) == Content(client.chunks))
            && (back.end.Some? && back.end.value.ReadEnd? ==>
                  back.sink.delivered + Content(back.reader.source.chunks) == Content(target.chunks))
  {
    InterleaveIsIndependent(Accepted(client, toTarget), Raw(target, toClient), schedule);
    ForwardingIsPrefix(client, toTarget, true, Turns(schedule, true));
    ForwardingIsPrefix(target, toClient, false, Turns(schedule, false));
  }

  // The code.

  /** A network connection: what it will yet send us, and what we sent it. */
  class Conn {
    var incoming: seq<Chunk>
    const final: Error
    var delivered: Bytes
    var plan: seq<WritePlan>

    constructor (source: Source, plan: seq<WritePlan>)
      ensures In() == source && Out() == Sink([], plan)
    {
      incoming, final := source.chunks, source.final;
      delivered, this.plan := [], plan;
    }

    function In(): Source
      reads this
    {
      Source(incoming, final)
    }

    function Out(): Sink
      reads this
    {
      Sink(delivered, plan)
    }

    /** One read into p[lo..]. */
    method Read(p: array<Byte>, lo: nat) returns (n: nat, err: Option<Error>)
      requires lo < p.Length
      modifies this`incoming, p
      ensures lo + n <= p.Length && p[..lo] == old(p[..lo])
      ensures Got(p[lo..lo + n], err, In()) == old(ReadConn(In(), p.Length - lo))
    {
      ghost var g := ReadConn(In(), p.Length - lo);
      if incoming == [] {
        return 0, Some(final);
      }
      var c := incoming[0];
      n := if |c.data| <= p.Length - lo then |c.data| else p.Length - lo;
      forall i | 0 <= i < n {
        p[lo + i] := c.data[i];
      }
      if n == |c.data| {
        incoming, err := incoming[1..], c.err;
      } else {
        incoming, err := [Chunk(c.data[n..], c.err)] + incoming[1..], None;
      }
      assert p[lo..lo + n] == g.data;
    }

    /** One write of p[..size]. */
    method Write(p: array<Byte>, size: nat) returns (n: nat, failed: bool)
      requires size <= p.Length
      modifies this`delivered, this`plan
      ensures Put(n, failed, Out()) == old(WriteOut(Out(), p[..size]))
    {
      n, failed := size, false;
      if plan != [] {
        n := if plan[0].limit < size then plan[0].limit else size;
        failed := n < size || plan[0].fails;
        plan := plan[1..];
      }
      delivered := delivered + p[..n];
      assert p[..n] == p[..size][..n];
    }
  }

  lemma JoinSlices(buf: array<Byte>, w: nat, n: nat)
    requires w + n <= buf.Length
    ensures buf[..w + n] == buf[..w] + buf[w..w + n]
  {
  }

  /** A `bufio.Reader` of 256 bytes over a connection. */
  class BufReader {
    const conn: Conn
    const buf: array<Byte>
    var r: nat
    var w: nat
    var err: Option<Error>

    ghost predicate Valid()
      reads this
    {
      buf.Length == PEEK_SIZE && r <= w <= PEEK_SIZE
    }

    ghost function View(): Reader
      reads this, buf, conn
      requires Valid()
    {
      Reader(buf[r..w], err, conn.In())
    }

    constructor (conn: Conn)
      ensures Valid() && fresh(buf) && this.conn == conn
      ensures View() == Reader([], None, conn.In())
    {
      this.conn := conn;
      buf := new Byte[PEEK_SIZE];
      r, w, err := 0, 0, None;
    }

    method Slide()
      requires Valid()
      modifies this, buf
      ensures Valid() && r == 0 && View() == old(View())
    {
      if r > 0 {
        forall i | 0 <= i < w - r {
          buf[i] := buf[r + i];
        }
        w, r := w - r, 0;
      }
    }

    /** One read into the free part of the buffer. */
    method FillOnce() returns (n: nat)
      requires Valid() && r == 0 && w < PEEK_SIZE && err.None?
      modifies this`w, this`err, buf, conn`incoming
      ensures Valid() && View() == old(ReadMore(View()))
      ensures n == |View().held| - old(|View().held|)
    {
      ghost var before := View();
      ghost var g := ReadConn(before.source, PEEK_SIZE - |before.held|);
      assert g == ReadConn(conn.In(), buf.Length - w);
      n, err := conn.Read(buf, w);
      assert Got(buf[w..w + n], err, conn.In()) == g;
      JoinSlices(buf, w, n);
      w := w + n;
      assert View() == Reader(before.held + g.data, g.err, g.rest);
    }

    /** One round of fill's loop. */
    method FillRound(tries: nat) returns (done: bool)
      requires Valid() && r == 0 && w < PEEK_SIZE && err.None? && tries > 0
      modifies this`w, this`err, buf, conn`incoming
      ensures Valid()
      ensures if done then View() == old(Fill(View(), tries))
              else w < PEEK_SIZE && err.None? && Fill(View(), tries - 1) == old(Fill(View(), tries))
    {
      var n := FillOnce();
      done := err.Some? || n > 0;
    }

    method FillTries(tries: nat)
      requires Valid() && r == 0 && w < PEEK_SIZE && err.None?
      modifies this`w, this`err, buf, conn`incoming
      ensures Valid() && View() == old(Fill(View(), tries))
    {
      var i := tries;
      ghost var filled := Fill(View(), tries);
      while i > 0
        invariant Valid() && r == 0 && w < PEEK_SIZE && err.None?
        invariant Fill(View(), i) == filled
      {
        var done := FillRound(i);
        if done {
          return;
        }
        i := i - 1;
      }
      err := Some(NoProgress);
    }

    method FillBuffer()
      requires Valid() && w - r < PEEK_SIZE && err.None?
      modifies this, buf, conn`incoming
      ensures Valid() && View() == old(Fill(View(), MAX_EMPTY_READS))
    {
      Slide();
      FillTries(MAX_EMPTY_READS);
    }

    /** The bytes are buf[r..r + n]. */
    method PeekBuffer() returns (n: nat, e: Option<Error>)
      requires Valid()
      modifies this, buf, conn`incoming
      ensures Valid() && View() == old(Peek(View()))
      ensures n == |View().held| && e == old(PeekError(View()))
    {
      while w - r < PEEK_SIZE && err.None?
        invariant Valid()
        invariant FillUp(View()) == old(FillUp(View()))
        decreases if err.Some? then 0 else 1, Size(conn.incoming)
      {
        FillBuffer();
      }
      n, e := w - r, None;
      if n < PEEK_SIZE {
        e, err := err, None;
      }
    }

    /** Hand out buffered bytes. */
    method TakeBuffered(p: array<Byte>) returns (n: nat)
      requires Valid() && p != buf
      modifies this`r, p
      ensures Valid() && n <= p.Length
      ensures BufGot(p[..n], None, View()) == old(Take(View(), p.Length))
    {
      ghost var held := buf[r..w];
      n := if w - r <= p.Length then w - r else p.Length;
      forall i | 0 <= i < n {
        p[i] := buf[r + i];
      }
      r := r + n;
      assert p[..n] == held[..n] && buf[r..w] == held[n..];
    }

    /** An empty buffer is refilled by a single read. */
    method Refill()
      requires Valid() && r == w && err.None?
      modifies this, buf, conn`incoming
      ensures Valid()
      ensures var g := old(ReadConn(conn.In(), PEEK_SIZE)); View() == Reader(g.data, g.err, g.rest)
    {
      r, w := 0, 0;
      var n := FillOnce();
    }

    method Read(p: array<Byte>) returns (n: nat, e: Option<Error>)
      requires Valid() && p != buf && p.Length > 0
      modifies this, buf, conn`incoming, p
      ensures Valid() && n <= p.Length
      ensures BufGot(p[..n], e, View()) == old(ReadBuffered(View(), p.Length))
    {
      if r == w {
        if err.Some? {
          n, e, err := 0, err, None;
          return;
        }
        if p.Length >= buf.Length {
          n, e := conn.Read(p, 0);
          assert p[..n] == p[0..0 + n];
          return;
        }
        Refill();
        if r == w {
          n, e, err := 0, err, None;
          return;
        }
      }
      n := TakeBuffered(p);
      e := None;
    }
  }

  /** One round of the copy loop: a read step and a write step. */
  method CopyRound(dst: Conn, src: BufReader, buf: array<Byte>) returns (end: Option<End>, ghost hand: Option<Hand>)
    requires src.Valid() && buf != src.buf && buf.Length == TCP_BUFFER_SIZE && dst != src.conn
    modifies dst`delivered, dst`plan, src, src.buf, src.conn`incoming, buf
    ensures src.Valid()
    ensures Pipe(src.View(), hand, dst.Out(), end)
            == Step(Step(old(Pipe(src.View(), None, dst.Out(), None))))
    ensures end.None? ==> hand == None && Left(src.View()) < old(Left(src.View()))
  {
    ghost var start := Pipe(src.View(), None, dst.Out(), None);
    var n, err := src.Read(buf);
    hand := Some(Hand(buf[..n], err));
    assert Step(start) == Pipe(src.View(), hand, dst.Out(), None);
    if n > 0 {
      var w, failed := dst.Write(buf, n);
      if failed {
        hand := Some(Hand(buf[..n][w..], err));
        return Some(WriteEnd), hand;
      }
    }
    hand := None;
    end := if err.Some? then Some(ReadEnd(err.value)) else None;
  }

  /** The copy loop, with a buffer that may hold anything left by its last user. */
  method Copy(dst: Conn, src: BufReader, buf: array<Byte>) returns (end: End, ghost k: nat, ghost hand: Option<Hand>)
    requires src.Valid() && buf != src.buf && buf.Length == TCP_BUFFER_SIZE && dst != src.conn
    modifies dst`delivered, dst`plan, src, src.buf, src.conn`incoming, buf
    ensures src.Valid()
    ensures Pipe(src.View(), hand, dst.Out(), Some(end))
            == Steps(old(Pipe(src.View(), None, dst.Out(), None)), k)
  {
    k, hand := 0, None;
    ghost var start := Pipe(src.View(), None, dst.Out(), None);
    while true
      invariant src.Valid()
      invariant Steps(start, k) == Pipe(src.View(), None, dst.Out(), None)
      decreases Left(src.View())
    {
      var over;
      over, hand := CopyRound(dst, src, buf);
      assert Steps(start, k + 2) == Step(Steps(start, k + 1));
      k := k + 2;
      if over.Some? {
        return over.value, k, hand;
      }
    }
  }
}
