// The request caches on top of the tunnels: when the address the fast path
// serves is still that of a tunnel that was not cancelled. The fast path asks
// neither the cache nor the monitor, so a tunnel can go while it is served.
module FastTunnels {
  import opened Text
  import opened TunnelKeys
  import opened FastPath
  import opened Requests
  import T = Tunnels
  import opened TunnelLife
  import opened TunnelOwners
  import opened Watchers
  import H = Health

  // Requests served beside a run of the tunnels.

  /** Where call i meets the run: a fast answer meets a state, a regular one the
      step by which Ensure answered it, between its arrival and its store. */
  predicate MeetsAt(c: H.Config, states: seq<T.State>, steps: seq<T.Step>, calls: seq<Call>, i: nat, a: nat)
    requires i < |calls|
  {
    var o := OutcomeAt(calls, i);
    && a < |states|
    && (o.Fast? ==> states[a].now == calls[i].now)
    && (o.Regular? && calls[i].answer.Some? ==>
          && a < |steps| && T.Enabled(c, states[a], steps[a])
          && calls[i].now <= states[a].now <= calls[i].stored
          && T.Answer(c, states[a], steps[a])
             == Some((o.target, calls[i].answer.value.ip, calls[i].answer.value.port)))
  }

  /** The calls meet the run one after the other, a regular one before the next. */
  ghost predicate Served(c: H.Config, states: seq<T.State>, steps: seq<T.Step>, calls: seq<Call>, at: seq<nat>) {
    && |at| == |calls|
    && (forall i :: 0 <= i < |calls| ==> MeetsAt(c, states, steps, calls, i, at[i]))
    && (forall i, j :: 0 <= i < j < |calls| && OutcomeAt(calls, i).Regular? ==> at[i] < at[j])
  }

  /** The tunnel behind a fast answer: at state `a`, right after Ensure answered
      the regular request j, it was cached under `key` with context x, touched
      at `used`, and had the address that is served to request i later. */
  ghost predicate Behind(states: seq<T.State>, calls: seq<Call>, at: seq<nat>, i: nat, j: nat,
                         a: nat, key: string, x: nat, used: int)
    requires i < |calls| == |at|
  {
    && j < i && OutcomeAt(calls, i).Fast? && Acceptable(calls[j].request)
    && key == Key(TargetOf(calls[j].request))
    && a == at[j] + 1 && a <= at[i] < |states|
    && T.Holds(states[a], key, x)
    && (var session, addr := states[a].sessions[key], OutcomeAt(calls, i).backend.addr;
        session.ip == addr.ip && session.port == addr.port && session.lastUsed == used)
    && calls[j].stored <= calls[i].now == states[at[i]].now <= calls[j].stored + SETUP_LIFETIME
    && used <= states[a].now <= calls[j].stored
  }

  /** Every fast answer has such a tunnel behind it. */
  lemma FastAnswerHasTunnel(c: H.Config, states: seq<T.State>, steps: seq<T.Step>,
                            calls: seq<Call>, at: seq<nat>, i: nat)
    returns (j: nat, a: nat, key: string, x: nat, used: int)
    requires T.IsRun(c, states, steps) && Served(c, states, steps, calls, at)
    requires i < |calls| && Sequential(calls) && OutcomeAt(calls, i).Fast?
    requires forall n :: 0 <= n <= i ==> Classified(calls[n].request)
    ensures Behind(states, calls, at, i, j, a, key, x, used)
  {
    j := FastAgreesWithRegular(calls, i);
    assert MeetsAt(c, states, steps, calls, i, at[i]);
    assert MeetsAt(c, states, steps, calls, j, at[j]);
    a, key := at[j] + 1, Key(TargetOf(calls[j].request));
    T.AnswersAreLive(c, states, steps, at[j]);
    x, used := states[a].sessions[key].ctx, states[a].sessions[key].lastUsed;
    AnswerTakesNoTime(c, states[at[j]], steps[at[j]]);
    LastUseGrows(c, states, steps, a, a, key);
  }

  lemma AnswerTakesNoTime(c: H.Config, s: T.State, step: T.Step)
    requires T.Enabled(c, s, step) && T.Answer(c, s, step).Some?
    ensures T.Next(c, s, step).now == s.now
  {
  }

  /** A fast answer is the address of an uncancelled tunnel exactly when no step
      has dropped that tunnel since Ensure answered the request that stored it;
      and then it is still the one cached under that request's key. */
  lemma FastAnswerIsLiveIff(c: H.Config, states: seq<T.State>, steps: seq<T.Step>, calls: seq<Call>, at: seq<nat>,
                            i: nat, j: nat, a: nat, key: string, x: nat, used: int)
    requires T.IsRun(c, states, steps) && i < |calls| == |at|
    requires Behind(states, calls, at, i, j, a, key, x, used)
    ensures x in states[at[i]].live <==> Undropped(states, steps, a, at[i], key)
    ensures x in states[at[i]].live ==> T.Holds(states[at[i]], key, x)
  {
    LivesUntilDropped(c, states, steps, a, at[i], key, x);
    T.OwnedRun(c, states, steps, at[i]);
  }

  /** The idle rule can drop the tunnel cached at state a before a request served at
      state n only if the answer was stored later than the tunnel was touched: a
      request served within five minutes of the last Ensure is safe from the
      watchers. For a fast answer a, n and `stored` are those of `Behind`. */
  lemma IdleRuleNeedsGap(c: H.Config, states: seq<T.State>, steps: seq<T.Step>,
                         a: nat, m: nat, n: nat, key: string, stored: int)
    requires T.IsRun(c, states, steps) && a <= m < n < |states|
    requires key in states[a].sessions && states[n].now <= stored + SETUP_LIFETIME
    requires steps[m].Tick? && Drops(states[m], steps[m], key)
    ensures states[a].sessions[key].lastUsed + T.IDLE_TIMEOUT < states[m].now <= states[n].now
    ensures states[a].sessions[key].lastUsed < stored
  {
    LastUseGrows(c, states, steps, a, m, key);
    TimeMovesOn(c, states, steps, m, n);
  }

  // And with any gap the idle rule alone can do it.

  /** n minutes with a tick of watcher 0 at the end of each. */
  function Minutes(n: nat): seq<T.Step> {
    if n == 0 then [] else Minutes(n - 1) + [T.Advance(T.MINUTE), T.Tick(0)]
  }

  /** Watcher 0 looks after `key`, and its next tick is a minute away. */
  predicate Minded(s: T.State, key: string) {
    && s.lock == T.Free && key in s.sessions
    && s.watchers.Keys == {0} && s.watchers[0].key == key && s.watchers[0].next == s.now + T.MINUTE
    && s.sessions[key].lastUsed <= s.watchers[0].started
  }

  lemma QuietMinute(c: H.Config, s: T.State, key: string) returns (s': T.State)
    requires Minded(s, key) && s.now + T.MINUTE - s.sessions[key].lastUsed <= T.IDLE_TIMEOUT
    ensures T.Path(c, s, [T.Advance(T.MINUTE), T.Tick(0)], s')
    ensures Punctual(c, s, [T.Advance(T.MINUTE), T.Tick(0)], 0)
    ensures Minded(s', key) && s'.sessions == s.sessions && s'.now == s.now + T.MINUTE
  {
    T.TwoSteps(c, s, T.Advance(T.MINUTE), T.Tick(0));
    PunctualTwo(c, s, T.Advance(T.MINUTE), T.Tick(0), 0);
    s' := T.Next(c, T.Next(c, s, T.Advance(T.MINUTE)), T.Tick(0));
  }

  lemma {:induction false} QuietMinutes(c: H.Config, s: T.State, key: string, n: nat) returns (s': T.State)
    requires Minded(s, key) && s.now + n * T.MINUTE - s.sessions[key].lastUsed <= T.IDLE_TIMEOUT
    ensures T.Path(c, s, Minutes(n), s') && Punctual(c, s, Minutes(n), 0)
    ensures Minded(s', key) && s'.sessions == s.sessions && s'.now == s.now + n * T.MINUTE
  {
    if n == 0 {
      s' := s;
    } else {
      var s1 := QuietMinutes(c, s, key, n - 1);
      s' := QuietMinute(c, s1, key);
      T.PathConcat(c, s, Minutes(n - 1), s1, [T.Advance(T.MINUTE), T.Tick(0)], s');
      PunctualConcat(c, s, Minutes(n - 1), s1, [T.Advance(T.MINUTE), T.Tick(0)], 0);
    }
  }

  /** A path in three parts is a run that passes where the parts meet. */
  lemma RunThrough(c: H.Config, s0: T.State, p: seq<T.Step>, s1: T.State, q: seq<T.Step>, s2: T.State,
                   r: seq<T.Step>, s3: T.State)
    returns (states: seq<T.State>)
    requires T.Init(s0) && T.Path(c, s0, p, s1) && T.Path(c, s1, q, s2) && T.Path(c, s0, p + (q + r), s3)
    ensures T.IsRun(c, states, p + (q + r)) && states[0] == s0
    ensures states[|p|] == s1 && states[|p| + |q|] == s2 && states[|p| + |q| + |r|] == s3
  {
    var steps := p + (q + r);
    states := T.PathIsRun(c, s0, steps, s3);
    assert steps[0..0 + |p|] == p;
    T.RunFollowsPath(c, states, steps, 0, p, s1);
    assert steps[|p|..|p| + |q|] == q;
    T.RunFollowsPath(c, states, steps, |p|, q, s2);
  }

  /** A tunnel for t, set up at time 0 and answered at time d. */
  lemma SetUpOnce(c: H.Config, t: Target, ip: string, port: int, d: nat) returns (s0: T.State, s5: T.State)
    ensures T.Init(s0) && T.Path(c, s0, FirstSteps(t, ip, port, d), s5)
    ensures d <= T.SETTLE_TIME ==> Punctual(c, s0, FirstSteps(t, ip, port, d), 0)
    ensures s5.lock == T.Settling(t, 0) && s5.now == d && s5.watchers == map[]
    ensures s5.sessions == map[Key(t) := T.Session(ip, port, 0, 0, t, 0)]
  {
    s0 := T.State(map[], T.Free, {}, 0, map[], H.Empty(), 0);
    var s3 := Inserted(c, s0, t, ip, port);
    s5 := Answered(c, s3, t, d);
    var p, q := [T.Look(t), T.SetupStarts(ip, port), T.Insert], [T.Register, T.Advance(d)];
    T.PathConcat(c, s0, p, s3, q, s5);
    assert p + q == FirstSteps(t, ip, port, d);
    if d <= T.SETTLE_TIME {
      PunctualConcat(c, s0, p, s3, q, 0);
    }
  }

  lemma Inserted(c: H.Config, s0: T.State, t: Target, ip: string, port: int) returns (s3: T.State)
    requires T.Init(s0) && s0.now == 0 && s0.nextCtx == 0
    ensures T.Path(c, s0, [T.Look(t), T.SetupStarts(ip, port), T.Insert], s3)
    ensures Punctual(c, s0, [T.Look(t), T.SetupStarts(ip, port), T.Insert], 0)
    ensures s3.lock == T.Registering(t, 0) && s3.now == 0 && s3.watchers == map[]
    ensures s3.sessions == map[Key(t) := T.Session(ip, port, 0, 0, t, 0)]
  {
    var s1 := T.Next(c, s0, T.Look(t));
    s3 := T.Next(c, T.Next(c, s1, T.SetupStarts(ip, port)), T.Insert);
    T.ThreeSteps(c, s0, T.Look(t), T.SetupStarts(ip, port), T.Insert);
    PunctualTwo(c, s1, T.SetupStarts(ip, port), T.Insert, 0);
    assert [T.Look(t), T.SetupStarts(ip, port), T.Insert][1..] == [T.SetupStarts(ip, port), T.Insert];
  }

  lemma Answered(c: H.Config, s3: T.State, t: Target, d: nat) returns (s5: T.State)
    requires s3.lock == T.Registering(t, 0) && s3.now == 0 && s3.watchers == map[]
    requires s3.sessions.Keys == {Key(t)} && s3.sessions[Key(t)].born == 0
    ensures T.Path(c, s3, [T.Register, T.Advance(d)], s5)
    ensures d <= T.SETTLE_TIME ==> Punctual(c, s3, [T.Register, T.Advance(d)], 0)
    ensures s5.lock == T.Settling(t, 0) && s5.now == d && s5.watchers == map[] && s5.sessions == s3.sessions
  {
    s5 := T.Next(c, T.Next(c, s3, T.Register), T.Advance(d));
    T.TwoSteps(c, s3, T.Register, T.Advance(d));
    if d <= T.SETTLE_TIME {
      PunctualTwo(c, s3, T.Register, T.Advance(d), 0);
    }
  }

  /** The tick of a further minute that takes the tunnel past its idle time. */
  lemma LastMinute(c: H.Config, s7: T.State, key: string) returns (s8: T.State, s9: T.State)
    requires Minded(s7, key) && s7.now <= s7.sessions[key].lastUsed + T.IDLE_TIMEOUT < s7.now + T.MINUTE
    ensures T.Path(c, s7, [T.Advance(T.MINUTE)], s8) && Punctual(c, s7, [T.Advance(T.MINUTE)], 0)
    ensures T.Enabled(c, s8, T.Tick(0)) && Drops(s8, T.Tick(0), key) && s9 == T.Next(c, s8, T.Tick(0))
    ensures s7.sessions[key].ctx !in s9.live && s9.now == s7.now + T.MINUTE
  {
    s8 := T.Next(c, s7, T.Advance(T.MINUTE));
    s9 := T.Next(c, s8, T.Tick(0));
    T.OneStep(c, s7, T.Advance(T.MINUTE));
    PunctualStep(c, s7, T.Advance(T.MINUTE), 0);
  }

  /** Five minutes after the answer the tick finds the tunnel idle for longer. */
  lemma IdleAfterFive(c: H.Config, t: Target, s5: T.State, d: nat) returns (s8: T.State, s9: T.State)
    requires 0 < d <= T.MINUTE && s5.lock == T.Settling(t, 0) && s5.now == d && s5.watchers == map[]
    requires Key(t) in s5.sessions && s5.sessions[Key(t)].lastUsed == 0 && s5.sessions[Key(t)].ctx == 0
    ensures T.Path(c, s5, MiddleSteps(), s8) && Punctual(c, s5, MiddleSteps(), 0)
    ensures T.Enabled(c, s8, T.Tick(0)) && Drops(s8, T.Tick(0), Key(t)) && s9 == T.Next(c, s8, T.Tick(0))
    ensures 0 !in s9.live && s9.now == d + T.IDLE_TIMEOUT
  {
    var s6 := T.Next(c, s5, T.Spawn);
    T.OneStep(c, s5, T.Spawn);
    PunctualStep(c, s5, T.Spawn, 0);
    var s7 := QuietMinutes(c, s6, Key(t), 4);
    s8, s9 := LastMinute(c, s7, Key(t));
    T.PathConcat(c, s6, Minutes(4), s7, [T.Advance(T.MINUTE)], s8);
    T.PathConcat(c, s5, [T.Spawn], s6, Minutes(4) + [T.Advance(T.MINUTE)], s8);
    PunctualConcat(c, s6, Minutes(4), s7, [T.Advance(T.MINUTE)], 0);
    PunctualConcat(c, s5, [T.Spawn], s6, Minutes(4) + [T.Advance(T.MINUTE)], 0);
  }

  /** The run below up to the answer, from there to the last tick, and as a whole:
      one Ensure, and five minutes with their ticks. */
  function FirstSteps(t: Target, ip: string, port: int, d: nat): seq<T.Step> {
    [T.Look(t), T.SetupStarts(ip, port), T.Insert, T.Register, T.Advance(d)]
  }

  function MiddleSteps(): seq<T.Step> {
    [T.Spawn] + (Minutes(4) + [T.Advance(T.MINUTE)])
  }

  function IdleSteps(t: Target, ip: string, port: int, d: nat): seq<T.Step> {
    FirstSteps(t, ip, port, d) + (MiddleSteps() + [T.Tick(0)])
  }

  lemma IdlePath(c: H.Config, t: Target, ip: string, port: int, d: nat)
    returns (s0: T.State, s5: T.State, s8: T.State, s9: T.State)
    requires 0 < d <= T.MINUTE
    ensures T.Init(s0) && T.Path(c, s0, IdleSteps(t, ip, port, d), s9)
    ensures T.Path(c, s0, FirstSteps(t, ip, port, d), s5) && T.Path(c, s5, MiddleSteps(), s8)
    ensures d <= T.SETTLE_TIME ==> Punctual(c, s0, IdleSteps(t, ip, port, d), 0)
    ensures s5.lock == T.Settling(t, 0) && s5.now == d
    ensures s5.sessions == map[Key(t) := T.Session(ip, port, 0, 0, t, 0)]
    ensures Drops(s8, T.Tick(0), Key(t)) && s9.now == d + T.IDLE_TIMEOUT && 0 !in s9.live
  {
    s0, s5 := SetUpOnce(c, t, ip, port, d);
    s8, s9 := IdleAfterFive(c, t, s5, d);
    T.PathSnoc(c, s5, MiddleSteps(), s8, T.Tick(0));
    T.PathConcat(c, s0, FirstSteps(t, ip, port, d), s5, MiddleSteps() + [T.Tick(0)], s9);
    if d <= T.SETTLE_TIME {
      PunctualStep(c, s8, T.Tick(0), 0);
      PunctualConcat(c, s5, MiddleSteps(), s8, [T.Tick(0)], 0);
      PunctualConcat(c, s0, FirstSteps(t, ip, port, d), s5, MiddleSteps() + [T.Tick(0)], 0);
    }
  }

  lemma IdleRun(c: H.Config, t: Target, ip: string, port: int, d: nat) returns (states: seq<T.State>)
    requires 0 < d <= T.MINUTE
    ensures var steps := IdleSteps(t, ip, port, d);
            && T.IsRun(c, states, steps) && (d <= T.SETTLE_TIME ==> RunOnTime(states, steps, 0))
            && states[5].lock == T.Settling(t, 0) && states[5].now == d && Key(t) in states[5].sessions
            && states[5].sessions[Key(t)] == T.Session(ip, port, 0, 0, t, 0)
            && Drops(states[|steps| - 1], T.Tick(0), Key(t))
            && states[|steps|].now == d + T.IDLE_TIMEOUT && 0 !in states[|steps|].live
  {
    var s0, s5, s8, s9 := IdlePath(c, t, ip, port, d);
    states := RunThrough(c, s0, FirstSteps(t, ip, port, d), s5, MiddleSteps(), s8, [T.Tick(0)], s9);
    if d <= T.SETTLE_TIME {
      assert IdleSteps(t, ip, port, d)[0..] == IdleSteps(t, ip, port, d);
      PunctualRun(c, states, IdleSteps(t, ip, port, d), 0, 0);
    }
  }

  /** The two requests of that run, the second as the entry is about to expire. */
  function IdleCalls(r: Request, addr: Address, d: nat): seq<Call> {
    [Call(r, 0, Some(addr), d), Call(r, d + SETUP_LIFETIME, None, d + SETUP_LIFETIME)]
  }

  lemma IdleOutcomes(r: Request, addr: Address, d: nat)
    requires Acceptable(r) && Classified(r)
    ensures var calls := IdleCalls(r, addr, d);
            && Sequential(calls)
            && OutcomeAt(calls, 0) == Regular(TargetOf(r), Backend(addr, RegularGRPC(r)))
            && OutcomeAt(calls, 1) == Fast(Backend(addr, RegularGRPC(r)))
  {
    PortIsIgnored(r, r, addr, None, d, d + SETUP_LIFETIME);
    assert After(IdleCalls(r, addr, d), 0) == Caches(map[], map[]);
    FirstRequest(IdleCalls(r, addr, d)[0]);
  }

  /** Whenever the answer is stored later than the touch, if only by a moment,
      the idle rule alone can cancel the tunnel while the fast path still serves
      its address: one Ensure, its watcher's ticks each taken when due, and the
      same request again as the setup entry is about to expire. For a gap that the
      validation of a new tunnel can take, the whole run is on time. */
  lemma IdleRuleCanKill(c: H.Config, r: Request, addr: Address, d: nat)
    returns (states: seq<T.State>, calls: seq<Call>, at: seq<nat>)
    requires Acceptable(r) && Classified(r) && 0 < d <= T.MINUTE
    ensures var steps := IdleSteps(TargetOf(r), addr.ip, addr.port, d);
            && T.IsRun(c, states, steps) && Served(c, states, steps, calls, at) && Sequential(calls)
            && |calls| == 2 && calls[1].request == r && OutcomeAt(calls, 1) == Fast(Backend(addr, RegularGRPC(r)))
            && Behind(states, calls, at, 1, 0, 6, Key(TargetOf(r)), 0, 0)
            && 0 !in states[at[1]].live
            && (d <= T.SETTLE_TIME ==> RunOnTime(states, steps, 0))
  {
    var t := TargetOf(r);
    var steps := IdleSteps(t, addr.ip, addr.port, d);
    states := IdleRun(c, t, addr.ip, addr.port, d);
    calls, at := IdleCalls(r, addr, d), [5, |steps|];
    IdleOutcomes(r, addr, d);
    assert steps[5] == T.Spawn;
    assert states[6] == T.Next(c, states[5], T.Spawn);
  }

  /** A request whose host carries a port behind the namespace is acceptable and can
      be answered with the tunnel of another target. */
  lemma ColonHostIsCrossServed(c: H.Config)
    returns (r: Request, r2: Request, states: seq<T.State>, steps: seq<T.Step>)
    ensures r.host == "db.prod:80.svc.cluster.local" && Acceptable(r)
    ensures r2.host == "db.prod.svc.cluster.local" && r2.originalPort == "80" && Acceptable(r2)
    ensures |steps| == 7 && Serves(c, states, steps, 6, TargetOf(r), TargetOf(r2))
    ensures Normal(TargetOf(r)) != Normal(TargetOf(r2))
  {
    r, r2 := ColonHostExample();
    states, steps := SharedKeyIsServed(c, TargetOf(r), TargetOf(r2), "127.0.0.1", 4000);
  }
}
