// Retrying a proxied request with capped exponential backoff. Times and delays
// are int64 nanoseconds.
module Retry {
  import opened Text

  const MILLISECOND := 1_000_000
  const SECOND := 1000 * MILLISECOND
  const TWO_64 := 0x1_0000_0000_0000_0000

  /** int64 arithmetic wraps around. */
  function Wrap(n: int): (r: int)
    ensures -MAX_INT64 - 1 <= r <= MAX_INT64
    ensures -MAX_INT64 - 1 <= n <= MAX_INT64 ==> r == n
  {
    var m := n % TWO_64;
    if m > MAX_INT64 then m - TWO_64 else m
  }

  function Pow2(k: nat): (p: int)
    ensures p >= 1
  {
    if k == 0 then 1 else 2 * Pow2(k - 1)
  }

  /** The delay before attempt k + 1: base * 2^k as the code computes it, at most a second. */
  function Delay(base: int, k: nat): (d: int)
    ensures d <= SECOND
  {
    var grown := Wrap(base * Wrap(Pow2(k)));
    if grown < SECOND then grown else SECOND
  }

  /** The delay meant: no wrap-around. */
  function Backoff(base: int, k: nat): int {
    var grown := base * Pow2(k);
    if grown < SECOND then grown else SECOND
  }

  lemma {:induction false} Pow2Monotone(j: nat, k: nat)
    requires j <= k
    ensures Pow2(j) <= Pow2(k)
  {
    if j < k {
      Pow2Monotone(j, k - 1);
    }
  }

  lemma {:induction false} Pow2Sum(j: nat, k: nat)
    ensures Pow2(j + k) == Pow2(j) * Pow2(k)
  {
    if j > 0 {
      Pow2Sum(j - 1, k);
    }
  }

  lemma ProductMonotone(a: int, b: int, c: int, d: int)
    requires 0 <= a <= c && 0 <= b <= d
    ensures 0 <= a * b <= c * d
  {
  }

  /** The code's delay is the one meant whenever base * 2^k fits int64. */
  lemma DelayIsBackoff(base: int, k: nat)
    requires base >= 1 && base * Pow2(k) <= MAX_INT64
    ensures Delay(base, k) == Backoff(base, k)
  {
    ProductMonotone(1, Pow2(k), base, Pow2(k));
  }

  lemma BackoffGrows(base: int, k: nat)
    requires base >= 1
    ensures 0 < Backoff(base, k) <= Backoff(base, k + 1)
  {
    var p := Pow2(k);
    ProductMonotone(1, 1, base, p);
    assert base * (2 * p) == 2 * (base * p);
  }

  datatype Config = Config(maxRetries: int, retryDelay: int)

  /** The configuration a validated transport runs with. */
  function Validated(c: Config): Config {
    Config(
      if c.maxRetries < 0 then 0 else if c.maxRetries > 10 then 10 else c.maxRetries,
      if c.retryDelay < 25 * MILLISECOND then 25 * MILLISECOND
      else if c.retryDelay > 2 * SECOND then 2 * SECOND else c.retryDelay)
  }

  method ValidateProxyConfig(proxy: Config) returns (v: Config)
    ensures v == Validated(proxy)
  {
    v := proxy;
    if v.maxRetries < 0 {
      v := v.(maxRetries := 0);
    }
    if v.maxRetries > 10 {
      v := v.(maxRetries := 10);
    }
    if v.retryDelay < 25 * MILLISECOND {
      v := v.(retryDelay := 25 * MILLISECOND);
    }
    if v.retryDelay > 2 * SECOND {
      v := v.(retryDelay := 2 * SECOND);
    }
  }

  /** Under a validated configuration no delay the transport can use wraps
      around: they are the meant ones, from 25 ms up to 1 s, never shrinking. */
  lemma ClampsPreventOverflow(c: Config, k: nat)
    requires k < Validated(c).maxRetries
    ensures var base := Validated(c).retryDelay;
            && base * Pow2(k) <= MAX_INT64
            && Delay(base, k) == Backoff(base, k)
            && 25 * MILLISECOND <= Delay(base, k) <= SECOND
            && (k + 1 < Validated(c).maxRetries ==> Delay(base, k) <= Delay(base, k + 1))
  {
    var base := Validated(c).retryDelay;
    SmallPow2(k);
    ProductMonotone(base, Pow2(k), 2 * SECOND, 512);
    ProductMonotone(base, 1, base, Pow2(k));
    DelayIsBackoff(base, k);
    if k + 1 < Validated(c).maxRetries {
      SmallPow2(k + 1);
      ProductMonotone(base, Pow2(k + 1), 2 * SECOND, 512);
      DelayIsBackoff(base, k + 1);
      BackoffGrows(base, k);
    }
  }

  lemma SmallPow2(k: nat)
    requires k <= 9
    ensures Pow2(k) <= 512
  {
    Pow2Monotone(k, 9);
    assert Pow2(9) == 512;
  }

  lemma ValidatedIsIdempotent(c: Config)
    ensures Validated(Validated(c)) == Validated(c)
    ensures 0 <= Validated(c).maxRetries <= 10
    ensures 25 * MILLISECOND <= Validated(c).retryDelay <= 2 * SECOND
    ensures Validated(c) == c <==>
            0 <= c.maxRetries <= 10 && 25 * MILLISECOND <= c.retryDelay <= 2 * SECOND
  {
  }

  function Distance(a: int, b: int): nat {
    if a < b then b - a else a - b
  }

  predicate InRange(c: Config) {
    0 <= c.maxRetries <= 10 && 25 * MILLISECOND <= c.retryDelay <= 2 * SECOND
  }

  /** Validation moves each value into its range by as little as it takes. */
  lemma ValidatedIsNearest(c: Config, d: Config)
    requires InRange(d)
    ensures InRange(Validated(c))
    ensures Distance(c.maxRetries, Validated(c).maxRetries) <= Distance(c.maxRetries, d.maxRetries)
    ensures Distance(c.retryDelay, Validated(c).retryDelay) <= Distance(c.retryDelay, d.retryDelay)
  {
  }

  lemma TwoToThe34()
    ensures Pow2(34) == 17_179_869_184
  {
    Pow2Sum(17, 17);
    Pow2Sum(8, 9);
    assert Pow2(8) == 256 && Pow2(9) == 512;
  }

  lemma WrapDouble(n: int)
    requires n <= MAX_INT64 < 2 * n
    ensures Wrap(2 * n) == 2 * n - TWO_64 < 0
  {
  }

  /** The first product that does not fit int64 wraps to a negative delay. */
  lemma FirstWrapIsNegative(base: int, k: nat)
    requires base >= 1 && base * Pow2(k) <= MAX_INT64 < base * Pow2(k + 1)
    ensures Delay(base, k + 1) < 0
  {
    var p := Pow2(k);
    DoubleProduct(base, p);
    WrapDouble(base * p);
    if 2 * p > MAX_INT64 {
      if base >= 2 {
        ProductMonotone(2, p, base, p);
      }
      WrapDouble(p);
    }
  }

  lemma DoubleProduct(base: int, p: int)
    ensures base * (2 * p) == 2 * (base * p)
  {
  }

  lemma ProductGrows(base: int, j: nat, k: nat)
    requires base >= 1 && j <= k
    ensures base * Pow2(j) <= base * Pow2(k)
  {
    Pow2Monotone(j, k);
    ProductMonotone(base, Pow2(j), base, Pow2(k));
  }

  lemma {:induction false} FirstWrap(base: int, n: nat) returns (k: nat)
    requires 1 <= base <= MAX_INT64 < base * Pow2(n)
    ensures k < n && base * Pow2(k) <= MAX_INT64 < base * Pow2(k + 1)
  {
    assert Pow2(0) == 1 && base * 1 == base;
    assert n > 0;
    if base * Pow2(n - 1) <= MAX_INT64 {
      k := n - 1;
    } else {
      k := FirstWrap(base, n - 1);
    }
  }

  /** The first n delays are the ones meant exactly when base * 2^(n - 1) fits int64. */
  lemma NoDelayWrapsIff(base: int, n: nat)
    requires 1 <= base <= MAX_INT64 && n >= 1
    ensures (forall k :: 0 <= k < n ==> Delay(base, k) == Backoff(base, k)) <==> base * Pow2(n - 1) <= MAX_INT64
  {
    if base * Pow2(n - 1) <= MAX_INT64 {
      forall k | 0 <= k < n
        ensures Delay(base, k) == Backoff(base, k)
      {
        ProductGrows(base, k, n - 1);
        DelayIsBackoff(base, k);
      }
    } else {
      var k := FirstWrap(base, n - 1);
      FirstWrapIsNegative(base, k);
      BackoffGrows(base, k + 1);
      assert Delay(base, k + 1) != Backoff(base, k + 1);
    }
  }

  /** A failing input: the 35th delay of a one-second base wraps to a negative
      duration, so the transport does not wait at all. */
  lemma UnclampedDelayWraps()
    ensures Delay(SECOND, 34) < 0 < Backoff(SECOND, 34)
  {
    TwoToThe34();
  }

  // The transport.

  datatype Err = Err(text: string, canceled: bool, deadlineExceeded: bool)

  const RETRYABLE: seq<string> := [
    "connection refused", "connection reset", "network is unreachable", "no route to host",
    "timeout", "dial tcp", "connect: connection refused", "EOF", "broken pipe", "i/o timeout",
    "connection timed out", "temporary failure", "malformed HTTP response",
    "http2: client connection lost", "stream error", "HTTP/1.x transport connection broken"]

  /** isRetryableError. */
  predicate IsRetryable(e: Err) {
    exists i | 0 <= i < |RETRYABLE| :: Contains(e.text, RETRYABLE[i])
  }

  /** handleError lets the loop go on. */
  predicate Retries(e: Err) {
    !e.canceled && !e.deadlineExceeded && IsRetryable(e)
  }

  type Response = int

  /** What the wrapped transport does with one attempt, and how long it takes. */
  datatype Attempt = Answered(response: Response, took: nat) | Failed(err: Err, took: nat)

  /** The outside world: the server, how late each wait wakes up, and which
      branch a select takes when both are ready. */
  datatype World = World(server: nat -> Attempt, lag: nat -> nat, timerWins: nat -> bool)

  datatype Transport = Transport(maxRetries: int, baseDelay: int, isGRPC: bool)

  /** What the loop needs to know: its limits, and after which failures it goes on. */
  datatype Loop = Loop(maxRetries: int, baseDelay: int, goesOn: Err -> bool)

  datatype Failure = FromServer(err: Err) | OutOfTime

  /** A finished call: what is returned, when attempts started, how long it meant to wait. */
  datatype Outcome = Outcome(response: Option<Response>, failure: Option<Failure>,
                             starts: seq<int>, waits: seq<int>)

  function Prepend(starts: seq<int>, waits: seq<int>, o: Outcome): Outcome {
    o.(starts := starts + o.starts, waits := waits + o.waits)
  }

  lemma PrependTwice(s1: seq<int>, w1: seq<int>, s2: seq<int>, w2: seq<int>, o: Outcome)
    ensures Prepend(s1, w1, Prepend(s2, w2, o)) == Prepend(s1 + s2, w1 + w2, o)
  {
    assert s1 + (s2 + o.starts) == (s1 + s2) + o.starts;
    assert w1 + (w2 + o.waits) == (w1 + w2) + o.waits;
  }

  /** When the wait before attempt k + 1, begun at `now`, wakes up. */
  function WakesAt(loop: Loop, w: World, deadline: int, k: nat, now: int): (at: int)
    ensures at >= now
  {
    var delay := if Delay(loop.baseDelay, k) > 0 then Delay(loop.baseDelay, k) else 0;
    var expiry := if deadline > now then deadline else now;
    (if now + delay <= expiry then now + delay else expiry) + w.lag(k)
  }

  /** Whether the select in waitBeforeRetry takes the timer branch. */
  predicate TimerTaken(loop: Loop, w: World, deadline: int, k: nat, now: int) {
    var at := WakesAt(loop, w, deadline, k, now);
    at >= now + Delay(loop.baseDelay, k) && (at < deadline || w.timerWins(k))
  }

  /** What the loop does from attempt k on. */
  function Run(loop: Loop, w: World, deadline: int, k: nat, now: int, last: Option<Failure>): Outcome
    decreases loop.maxRetries + 1 - k
  {
    if k > loop.maxRetries then Outcome(None, last, [], [])
    else if now >= deadline then Outcome(None, Some(OutOfTime), [], [])
    else
      var a := w.server(k);
      var after := now + a.took;
      if a.Answered? then Outcome(Some(a.response), None, [now], [])
      else
        var failure := Some(FromServer(a.err));
        if !loop.goesOn(a.err) || k == loop.maxRetries then Outcome(None, failure, [now], [])
        else
          var delay := Delay(loop.baseDelay, k);
          if !TimerTaken(loop, w, deadline, k, after) then Outcome(None, Some(OutOfTime), [now], [delay])
          else
            Prepend([now], [delay], Run(loop, w, deadline, k + 1, WakesAt(loop, w, deadline, k, after), failure))
  }

  /** The transport's loop goes on after the failures handleError lets through. */
  function LoopOf(t: Transport): Loop {
    Loop(t.maxRetries, t.baseDelay, Retries)
  }

  /** The whole call: gRPC gets a single attempt. */
  function Call(t: Transport, w: World, deadline: int, now: int): Outcome {
    if t.isGRPC then
      var a := w.server(0);
      if a.Answered? then Outcome(Some(a.response), None, [now], [])
      else Outcome(None, Some(FromServer(a.err)), [now], [])
    else Run(LoopOf(t), w, deadline, 0, now, None)
  }

  /** One round of the loop: it ends the call, or it says when the next round
      starts, with which failure in hand and after which wait. */
  method TryOnce(loop: Loop, w: World, deadline: int, attempt: nat, clock: int, ghost last: Option<Failure>)
    returns (done: Option<Outcome>, wake: int, failure: Option<Failure>, delays: seq<int>)
    requires attempt <= loop.maxRetries
    ensures Run(loop, w, deadline, attempt, clock, last) ==
            if done.Some? then done.value
            else Prepend([clock], delays, Run(loop, w, deadline, attempt + 1, wake, failure))
  {
    wake, failure, delays := clock, None, [];
    if clock >= deadline {
      done := Some(Outcome(None, Some(OutOfTime), [], []));
      return;
    }
    var a := w.server(attempt);
    if a.Answered? {
      done := Some(Outcome(Some(a.response), None, [clock], []));
      return;
    }
    failure, wake := Some(FromServer(a.err)), clock + a.took;
    if !loop.goesOn(a.err) {
      done := Some(Outcome(None, failure, [clock], []));
      return;
    }
    if attempt < loop.maxRetries {
      delays := [Delay(loop.baseDelay, attempt)];
      if !TimerTaken(loop, w, deadline, attempt, wake) {
        done := Some(Outcome(None, Some(OutOfTime), [clock], delays));
        return;
      }
      wake := WakesAt(loop, w, deadline, attempt, wake);
    }
    done := None;
  }

  lemma NoMoreAttempts(loop: Loop, w: World, deadline: int, k: nat, now: int, last: Option<Failure>)
    requires k > loop.maxRetries
    ensures Run(loop, w, deadline, k, now, last) == Outcome(None, last, [], [])
  {
  }

  /** The loop over attempts. */
  method RetryLoop(loop: Loop, w: World, deadline: int, now: int) returns (out: Outcome)
    ensures out == Run(loop, w, deadline, 0, now, None)
  {
    var last: Option<Failure> := None;
    var clock, attempt := now, 0;
    var starts, waits: seq<int> := [], [];
    while attempt <= loop.maxRetries
      invariant 0 <= attempt
      invariant Run(loop, w, deadline, 0, now, None)
                == Prepend(starts, waits, Run(loop, w, deadline, attempt, clock, last))
      decreases loop.maxRetries + 1 - attempt
    {
      var done, wake, failure, delays := TryOnce(loop, w, deadline, attempt, clock, last);
      if done.Some? {
        return Prepend(starts, waits, done.value);
      }
      PrependTwice(starts, waits, [clock], delays, Run(loop, w, deadline, attempt + 1, wake, failure));
      starts, waits := starts + [clock], waits + delays;
      clock, last, attempt := wake, failure, attempt + 1;
    }
    NoMoreAttempts(loop, w, deadline, attempt, clock, last);
    return Outcome(None, last, starts, waits);
  }

  /** RoundTrip. */
  method RoundTrip(t: Transport, w: World, deadline: int, now: int) returns (out: Outcome)
    ensures out == Call(t, w, deadline, now)
  {
    if t.isGRPC {
      var a := w.server(0);
      out := if a.Answered? then Outcome(Some(a.response), None, [now], [])
             else Outcome(None, Some(FromServer(a.err)), [now], []);
    } else {
      out := RetryLoop(LoopOf(t), w, deadline, now);
    }
  }

  // What every call keeps.

  /** Start i was followed by a retryable failure, the full delay and start i + 1,
      which comes later than that by at most the lag of the wake-up. */
  predicate GapAt(loop: Loop, w: World, k: nat, starts: seq<int>, waits: seq<int>, i: nat)
    requires i + 1 < |starts| && i < |waits|
  {
    var a := w.server(k + i);
    var wait := if waits[i] > 0 then waits[i] else 0;
    && a.Failed? && loop.goesOn(a.err)
    && starts[i] + a.took + wait <= starts[i + 1] <= starts[i] + a.took + wait + w.lag(k + i)
  }

  /** The attempts and waits of a run from attempt k on, begun at `now`. */
  ghost predicate WellPaced(loop: Loop, w: World, deadline: int, k: nat, now: int,
                            starts: seq<int>, waits: seq<int>) {
    && (|starts| <= if k <= loop.maxRetries then loop.maxRetries + 1 - k else 0)
    && (|waits| <= if k <= loop.maxRetries then loop.maxRetries - k else 0)
    && |waits| <= |starts| <= |waits| + 1
    && (starts != [] ==> starts[0] == now)
    && (forall i :: 0 <= i < |starts| ==> now <= starts[i] < deadline)
    && (forall i :: 0 <= i < |waits| ==> waits[i] == Delay(loop.baseDelay, k + i))
    && (forall i :: 0 <= i < |starts| - 1 ==> GapAt(loop, w, k, starts, waits, i))
  }

  lemma {:induction false} RunIsPaced(loop: Loop, w: World, deadline: int, k: nat, now: int, last: Option<Failure>)
    ensures var o := Run(loop, w, deadline, k, now, last);
            WellPaced(loop, w, deadline, k, now, o.starts, o.waits)
    decreases loop.maxRetries + 1 - k
  {
    var o := Run(loop, w, deadline, k, now, last);
    if |o.starts| + |o.waits| > 2 {
      var after := now + w.server(k).took;
      var wake := WakesAt(loop, w, deadline, k, after);
      var failure := Some(FromServer(w.server(k).err));
      RunIsPaced(loop, w, deadline, k + 1, wake, failure);
      var rest := Run(loop, w, deadline, k + 1, wake, failure);
      PacedPrepend(loop, w, deadline, k, now, rest.starts, rest.waits);
    }
  }

  lemma PacedPrepend(loop: Loop, w: World, deadline: int, k: nat, now: int, starts: seq<int>, waits: seq<int>)
    requires k < loop.maxRetries && now < deadline && w.server(k).Failed? && loop.goesOn(w.server(k).err)
    requires var after := now + w.server(k).took;
             && TimerTaken(loop, w, deadline, k, after)
             && WellPaced(loop, w, deadline, k + 1, WakesAt(loop, w, deadline, k, after), starts, waits)
    ensures WellPaced(loop, w, deadline, k, now, [now] + starts, [Delay(loop.baseDelay, k)] + waits)
  {
    var allStarts, allWaits := [now] + starts, [Delay(loop.baseDelay, k)] + waits;
    forall i | 0 <= i < |allWaits|
      ensures allWaits[i] == Delay(loop.baseDelay, k + i)
    {
      if i > 0 {
        assert waits[i - 1] == Delay(loop.baseDelay, k + 1 + (i - 1));
      }
    }
    forall i | 0 <= i < |allStarts| - 1
      ensures GapAt(loop, w, k, allStarts, allWaits, i)
    {
      if i > 0 {
        assert GapAt(loop, w, k + 1, starts, waits, i - 1);
        assert k + 1 + (i - 1) == k + i;
      }
    }
  }

  /** When a run that got no further stops: at its beginning, or as its last wait wakes up. */
  function OutAt(w: World, loop: Loop, deadline: int, k: nat, now: int, starts: seq<int>): int {
    var n := |starts|;
    if n == 0 then now else WakesAt(loop, w, deadline, k + n - 1, starts[n - 1] + w.server(k + n - 1).took)
  }

  /** How a run from attempt k on, begun at `now`, may end. */
  ghost predicate EndsWell(loop: Loop, w: World, deadline: int, k: nat, now: int, o: Outcome) {
    var n := |o.starts|;
    && (o.response.Some? <==> o.failure.None?)
    && (o.response.Some? ==> n > 0 && w.server(k + n - 1).Answered?
                             && w.server(k + n - 1).response == o.response.value)
    && (o.failure.Some? && o.failure.value.FromServer? ==>
          && n > 0 && w.server(k + n - 1).Failed? && w.server(k + n - 1).err == o.failure.value.err
          && (loop.goesOn(o.failure.value.err) ==> k + n == loop.maxRetries + 1))
    && (o.failure == Some(OutOfTime) ==> |o.waits| == n && OutAt(w, loop, deadline, k, now, o.starts) >= deadline)
  }

  lemma EndsWellPrepend(loop: Loop, w: World, deadline: int, k: nat, now: int, wake: int, delay: int, rest: Outcome)
    requires k < loop.maxRetries && wake == WakesAt(loop, w, deadline, k, now + w.server(k).took)
    requires EndsWell(loop, w, deadline, k + 1, wake, rest)
    ensures EndsWell(loop, w, deadline, k, now, Prepend([now], [delay], rest))
  {
    var o, n := Prepend([now], [delay], rest), |rest.starts|;
    assert |o.starts| == 1 + n && |o.waits| == 1 + |rest.waits|;
    assert k + 1 + n - 1 == k + (1 + n) - 1;
    assert n > 0 ==> o.starts[n] == rest.starts[n - 1];
  }

  lemma {:induction false} RunEndsWell(loop: Loop, w: World, deadline: int, k: nat, now: int, last: Option<Failure>)
    requires k <= loop.maxRetries
    ensures EndsWell(loop, w, deadline, k, now, Run(loop, w, deadline, k, now, last))
    decreases loop.maxRetries + 1 - k
  {
    if now < deadline && w.server(k).Failed? && loop.goesOn(w.server(k).err) && k < loop.maxRetries {
      var after := now + w.server(k).took;
      if TimerTaken(loop, w, deadline, k, after) {
        var wake := WakesAt(loop, w, deadline, k, after);
        var failure := Some(FromServer(w.server(k).err));
        RunEndsWell(loop, w, deadline, k + 1, wake, failure);
        var rest := Run(loop, w, deadline, k + 1, wake, failure);
        EndsWellPrepend(loop, w, deadline, k, now, wake, Delay(loop.baseDelay, k), rest);
      } else {
        GivesUpOnlyAfterDeadline(loop, w, deadline, k, after);
      }
    }
  }

  /** A wait is given up only once the deadline has passed, and lasts no longer than
      that but for the lag; if the delay is over as well by then, either may win. */
  lemma GivesUpOnlyAfterDeadline(loop: Loop, w: World, deadline: int, k: nat, now: int)
    ensures TimerTaken(loop, w, deadline, k, now) || WakesAt(loop, w, deadline, k, now) >= deadline
    ensures WakesAt(loop, w, deadline, k, now) <= (if deadline > now then deadline else now) + w.lag(k)
    ensures var at := WakesAt(loop, w, deadline, k, now);
            at >= deadline && at >= now + Delay(loop.baseDelay, k) ==>
              (TimerTaken(loop, w, deadline, k, now) <==> w.timerWins(k))
  {
  }

  /** A call returns a response or an error, never both and never neither,
      exactly when it may try at least once. */
  lemma NeverNothingIff(t: Transport, w: World, deadline: int, now: int)
    ensures var o := Call(t, w, deadline, now);
            && !(o.response.Some? && o.failure.Some?)
            && (o.response.Some? || o.failure.Some? <==> t.isGRPC || t.maxRetries >= 0)
  {
    if !t.isGRPC && t.maxRetries >= 0 {
      RunEndsWell(LoopOf(t), w, deadline, 0, now, None);
    }
  }

  /** A gRPC call makes one attempt; any other makes at most maxRetries + 1, all
      before the deadline, each after a retryable failure and the full delay. */
  lemma AttemptsAreBounded(t: Transport, w: World, deadline: int, now: int)
    ensures var o := Call(t, w, deadline, now);
            && (t.isGRPC ==> o.starts == [now] && o.waits == [])
            && (!t.isGRPC ==> WellPaced(LoopOf(t), w, deadline, 0, now, o.starts, o.waits))
            && (!t.isGRPC && t.maxRetries >= 0 ==> EndsWell(LoopOf(t), w, deadline, 0, now, o))
            && (t.isGRPC ==>
                  if w.server(0).Answered? then o.response == Some(w.server(0).response) && o.failure.None?
                  else o.response.None? && o.failure == Some(FromServer(w.server(0).err)))
  {
    if !t.isGRPC {
      RunIsPaced(LoopOf(t), w, deadline, 0, now, None);
      if t.maxRetries >= 0 {
        RunEndsWell(LoopOf(t), w, deadline, 0, now, None);
      }
    }
  }

  /** The failure may pass: the call was neither cancelled nor out of time, and the
      text has one of the patterns of a lost connection in it. */
  predicate MayPass(e: Err) {
    !e.canceled && !e.deadlineExceeded && exists i | 0 <= i < |RETRYABLE| :: Contains(e.text, RETRYABLE[i])
  }

  lemma MayPassIsRetries(e: Err)
    ensures Retries(e) == MayPass(e)
  {
  }

  /** Every attempt but the last failed in a way that may pass, and a call that gives
      up on a failure with attempts left does so as that one may not. */
  lemma RetriesExactly(t: Transport, w: World, deadline: int, now: int)
    requires !t.isGRPC && t.maxRetries >= 0
    ensures var o := Call(t, w, deadline, now);
            && (forall i :: 0 <= i < |o.starts| - 1 ==> w.server(i).Failed? && MayPass(w.server(i).err))
            && (o.failure.Some? && o.failure.value.FromServer? && |o.starts| <= t.maxRetries ==>
                  !MayPass(o.failure.value.err))
  {
    var o := Call(t, w, deadline, now);
    AttemptsAreBounded(t, w, deadline, now);
    forall i | 0 <= i < |o.starts| - 1
      ensures w.server(i).Failed? && MayPass(w.server(i).err)
    {
      assert GapAt(LoopOf(t), w, 0, o.starts, o.waits, i);
      MayPassIsRetries(w.server(i).err);
    }
    if o.failure.Some? && o.failure.value.FromServer? {
      MayPassIsRetries(o.failure.value.err);
    }
  }

  function Sum(s: seq<int>): int {
    if s == [] then 0 else s[0] + Sum(s[1..])
  }

  lemma {:induction false} SumBound(s: seq<int>, bound: int)
    requires forall i :: 0 <= i < |s| ==> 0 <= s[i] <= bound
    ensures 0 <= Sum(s) <= |s| * bound
  {
    if s != [] {
      SumBound(s[1..], bound);
    }
  }

  lemma BackoffWaits(c: Config, waits: seq<int>)
    requires |waits| <= Validated(c).maxRetries
    requires forall i :: 0 <= i < |waits| ==> waits[i] == Delay(Validated(c).retryDelay, i)
    ensures forall i :: 0 <= i < |waits| ==> waits[i] == Backoff(Validated(c).retryDelay, i)
    ensures forall i :: 0 <= i < |waits| - 1 ==> waits[i] <= waits[i + 1]
    ensures Sum(waits) <= |waits| * SECOND
  {
    forall i | 0 <= i < |waits|
      ensures waits[i] == Backoff(Validated(c).retryDelay, i) && 0 <= waits[i] <= SECOND
      ensures i < |waits| - 1 ==> waits[i] <= waits[i + 1]
    {
      ClampsPreventOverflow(c, i);
    }
    SumBound(waits, SECOND);
  }

  /** Under a validated configuration the waits are the meant backoff, they never
      shrink, and together they last at most maxRetries seconds. */
  lemma WaitsAreBoundedBackoff(c: Config, w: World, deadline: int, now: int)
    ensures var v := Validated(c);
            var waits := Call(Transport(v.maxRetries, v.retryDelay, false), w, deadline, now).waits;
            && (forall i :: 0 <= i < |waits| ==> waits[i] == Backoff(v.retryDelay, i))
            && (forall i :: 0 <= i < |waits| - 1 ==> waits[i] <= waits[i + 1])
            && Sum(waits) <= v.maxRetries * SECOND
  {
    var v := Validated(c);
    var t := Transport(v.maxRetries, v.retryDelay, false);
    var waits := Call(t, w, deadline, now).waits;
    RunIsPaced(LoopOf(t), w, deadline, 0, now, None);
    assert |waits| <= v.maxRetries;
    BackoffWaits(c, waits);
    ProductMonotone(|waits|, SECOND, v.maxRetries, SECOND);
  }

  // Protocol fallback.

  datatype Protocol = HTTP11 | H2C

  datatype Fallback = Fallback(isGRPC: bool, maxRetries: int, baseDelay: int, disabled: bool)

  predicate Mismatch(f: Failure) {
    f.FromServer?
    && (Contains(f.err.text, "malformed HTTP response")
        || Contains(f.err.text, "HTTP/1.x transport connection broken"))
  }

  /** protocolFallbackTransport.RoundTrip: enabled or not, the call is made over
      one protocol only, h2c for gRPC and HTTP/1.1 otherwise. */
  method FallbackRoundTrip(f: Fallback, worlds: Protocol -> World, deadline: int, now: int) returns (out: Outcome)
    ensures out == Call(Transport(f.maxRetries, f.baseDelay, f.isGRPC),
                        worlds(if f.isGRPC then H2C else HTTP11), deadline, now)
  {
    var t := Transport(f.maxRetries, f.baseDelay, f.isGRPC);
    if f.disabled {
      out := RoundTrip(t, worlds(if f.isGRPC then H2C else HTTP11), deadline, now);
      return;
    }
    out := Outcome(None, None, [], []);
    var protocols := if f.isGRPC then [H2C] else [HTTP11];
    for i := 0 to |protocols|
      invariant i > 0 ==> out == Call(t, worlds(protocols[i - 1]), deadline, now)
    {
      out := RoundTrip(t, worlds(protocols[i]), deadline, now);
      if out.failure.None? {
        return;
      }
      if !Mismatch(out.failure.value) {
        return;
      }
    }
  }
}
