// The port-forward cache, its watchers and the health monitor as one step
// system. A step is one section run under the cache's lock or the monitor's
// lock; `Lock` says how far the holder of the cache's lock has got, so monitor
// steps interleave inside every cache operation.
module Tunnels {
  import opened Text
  import opened TunnelKeys
  import H = Health

  const MINUTE := 60_000
  const IDLE_TIMEOUT := 5 * MINUTE
  const MAX_LIFETIME := 24 * 60 * MINUTE

  /** Three dials of at most 200 ms, each followed by a 500 ms sleep. */
  const SETTLE_TIME := 3 * (200 + 500)

  /** A cached tunnel. `ctx` is the context its Cancel function cancels;
      `owner` and `born` (when it was inserted) are history. */
  datatype Session = Session(
    ip: string, port: int, ctx: nat, lastUsed: int, owner: Target, born: int)

  /** An autoExpire goroutine: all it knows of the cache is a key. */
  datatype Watcher = Watcher(key: string, started: int, next: int)

  datatype Lock =
    | Free
    | Asking(target: Target, fixed: Option<bool>)  // has the monitor's answer, not looked at it yet
    | Validating(target: Target)                // unhealthy: dialling the cached address
    | Forgetting(key: string, next: Option<Target>)  // removed, monitor not told yet
    | SettingUp(target: Target)                 // no tunnel, nothing created yet
    | Waiting(target: Target, ip: string, port: int, ctx: nat)  // created, not cached yet
    | Registering(target: Target, ctx: nat)     // cached, monitor not told yet
    | Settling(target: Target, ctx: nat)        // validatePortForward
    | Stopping(left: set<string>)               // keys Stop has not reached yet

  datatype State = State(
    sessions: map<string, Session>,
    lock: Lock,
    live: set<nat>,              // contexts created and not cancelled
    nextCtx: nat,
    watchers: map<nat, Watcher>, // named after the context they were started for
    mon: H.Monitor,
    now: int)                    // milliseconds

  datatype Step =
    | Look(target: Target)
    | Judge(healthy: bool)
    | Dial(ok: bool)
    | Forget
    | SetupFails
    | SetupStarts(ip: string, port: int)
    | Insert
    | Register
    | Spawn
    | Tick(watcher: nat)
    | Lifetime(watcher: nat)
    | Callback(key: string)
    | Invalidate(key: string)
    | ForceRefresh(service: string, namespace: string)
    | StopBegin
    | StopOne(key: string)
    | StopEnd
    | Round
    | Finish(check: H.Check, ok: bool)
    | Expunge(key: string)
    | Serve(key: string, success: bool)
    | Advance(delta: nat)

  predicate Init(s: State) {
    s.sessions == map[] && s.lock == Free && s.live == {} && s.watchers == map[] && s.mon == H.Empty()
  }

  predicate Enabled(c: H.Config, s: State, step: Step) {
    match step
    case Look(_) => s.lock == Free
    case Judge(healthy) =>
      && s.lock.Asking? && Key(s.lock.target) in s.sessions
      && (s.lock.fixed.Some? ==> healthy == s.lock.fixed.value)
    case Dial(_) => s.lock.Validating? && Key(s.lock.target) in s.sessions
    case Forget => s.lock.Forgetting?
    case SetupFails => s.lock.SettingUp?
    case SetupStarts(_, _) => s.lock.SettingUp?
    case Insert => s.lock.Waiting?
    case Register => s.lock.Registering? && Key(s.lock.target) in s.sessions
    case Spawn => s.lock.Settling? && Key(s.lock.target) in s.sessions
    case Tick(w) => s.lock == Free && w in s.watchers && s.now >= s.watchers[w].next
    case Lifetime(w) => s.lock == Free && w in s.watchers && s.now >= s.watchers[w].started + MAX_LIFETIME
    case Callback(k) => s.lock == Free && k in s.mon.callbacks
    case Invalidate(_) => s.lock == Free
    case ForceRefresh(_, _) => s.lock == Free
    case StopBegin => s.lock == Free
    case StopOne(k) => s.lock.Stopping? && k in s.lock.left && k in s.sessions
    case StopEnd => s.lock == Stopping({})
    case Round => c.enabled
    case Finish(chk, _) => chk in s.mon.inflight
    case Expunge(k) => k in s.mon.doomed
    case Serve(_, _) => true
    case Advance(_) => true
  }

  /** Cancel the tunnel under `key`, remove it, and go on to tell the monitor. */
  function Drop(s: State, key: string, next: Option<Target>): State
    requires key in s.sessions
  {
    s.(live := s.live - {s.sessions[key].ctx},
       sessions := s.sessions - {key},
       lock := Forgetting(key, next))
  }

  function DropIfCached(s: State, key: string): State {
    if key in s.sessions then Drop(s, key, None) else s
  }

  /** The monitor answers with a status of its own when it is off or has no
      entry. Otherwise it hands out the entry itself, which other goroutines may
      change before the cache looks at the flag. */
  function FixedAnswer(c: H.Config, m: H.Monitor, key: string): Option<bool> {
    if !c.enabled then Some(true) else if key !in m.entries then Some(false) else None
  }

  function Next(c: H.Config, s: State, step: Step): State
    requires Enabled(c, s, step)
  {
    match step
    case Look(t) =>
      var k := Key(t);
      if k !in s.sessions then s.(lock := SettingUp(t))
      else
        s.(sessions := s.sessions[k := s.sessions[k].(lastUsed := s.now)],
           lock := Asking(t, FixedAnswer(c, s.mon, k)),
           mon := H.Ask(c, s.mon, k, s.now))
    case Judge(healthy) => s.(lock := if healthy then Free else Validating(s.lock.target))
    case Dial(ok) =>
      if ok then s.(lock := Free) else Drop(s, Key(s.lock.target), Some(s.lock.target))
    case Forget =>
      s.(mon := H.Unregister(c, s.mon, s.lock.key, s.now),
         lock := if s.lock.next.None? then Free else SettingUp(s.lock.next.value))
    case SetupFails => s.(lock := Free)
    case SetupStarts(ip, port) =>
      s.(lock := Waiting(s.lock.target, ip, port, s.nextCtx),
         live := s.live + {s.nextCtx},
         nextCtx := s.nextCtx + 1)
    case Insert =>
      var l := s.lock;
      s.(sessions := s.sessions[Key(l.target) := Session(l.ip, l.port, l.ctx, s.now, l.target, s.now)],
         lock := Registering(l.target, l.ctx))
    case Register =>
      var k := Key(s.lock.target);
      s.(mon := H.Register(c, s.mon, k, s.sessions[k].ip, s.sessions[k].port, s.now),
         lock := Settling(s.lock.target, s.lock.ctx))
    case Spawn =>
      s.(watchers := s.watchers[s.lock.ctx := Watcher(Key(s.lock.target), s.now, s.now + MINUTE)],
         lock := Free)
    case Tick(w) =>
      var k := s.watchers[w].key;
      if k !in s.sessions then s.(watchers := s.watchers - {w})
      else if s.now - s.sessions[k].lastUsed > IDLE_TIMEOUT then
        Drop(s, k, None).(watchers := s.watchers - {w})
      else s.(watchers := s.watchers[w := s.watchers[w].(next := s.watchers[w].next + MINUTE)])
    case Lifetime(w) => DropIfCached(s, s.watchers[w].key).(watchers := s.watchers - {w})
    case Callback(k) => DropIfCached(s.(mon := s.mon.(callbacks := s.mon.callbacks - multiset{k})), k)
    case Invalidate(k) => DropIfCached(s, k)
    case ForceRefresh(service, namespace) =>
      var k := Key(Target(service, namespace, 0));
      if k !in s.sessions then s
      else s.(live := s.live - {s.sessions[k].ctx}, sessions := s.sessions - {k})
    case StopBegin => s.(lock := Stopping(s.sessions.Keys))
    case StopOne(k) =>
      s.(live := s.live - {s.sessions[k].ctx},
         mon := H.Unregister(c, s.mon, k, s.now),
         lock := Stopping(s.lock.left - {k}))
    case StopEnd => s.(sessions := map[], lock := Free)
    case Round => s.(mon := H.StartRound(s.mon))
    case Finish(chk, ok) => s.(mon := H.Finish(c, s.mon, chk, ok, s.now))
    case Expunge(k) => s.(mon := H.Expunge(c, s.mon, k, s.now))
    case Serve(k, success) => s.(mon := H.Serve(c, s.mon, k, success, s.now))
    case Advance(delta) => s.(now := s.now + delta)
  }

  /** Steps by which a tunnel leaves the cache other than inside Ensure or Stop. */
  predicate Removal(step: Step) {
    step.Tick? || step.Lifetime? || step.Callback? || step.Invalidate?
  }

  /** The key a removal step is about. */
  function RemovedKey(s: State, step: Step): string
    requires Removal(step)
    requires step.Tick? || step.Lifetime? ==> step.watcher in s.watchers
  {
    match step
    case Tick(w) => s.watchers[w].key
    case Lifetime(w) => s.watchers[w].key
    case Callback(k) => k
    case Invalidate(k) => k
    case _ => ""
  }

  /** All a removal step does to the cache is to drop its key, or nothing; and only a
      tick can leave a cached tunnel alone. */
  lemma RemovalDrops(c: H.Config, s: State, step: Step)
    requires Enabled(c, s, step) && Removal(step)
    ensures var s', k := Next(c, s, step), RemovedKey(s, step);
            && s'.now == s.now && s'.nextCtx == s.nextCtx && s'.mon.entries == s.mon.entries
            && (|| (s'.sessions == s.sessions && s'.live == s.live && s'.lock == s.lock)
                || (&& k in s.sessions
                    && s'.sessions == s.sessions - {k}
                    && s'.live == s.live - {s.sessions[k].ctx}
                    && s'.lock == Forgetting(k, None)))
            && (!step.Tick? ==> k !in s'.sessions)
  {
  }

  /** Steps that leave the cache alone. */
  predicate Background(step: Step) {
    step.Round? || step.Finish? || step.Expunge? || step.Serve? || step.Advance?
  }

  lemma BackgroundKeepsCache(c: H.Config, s: State, step: Step)
    requires Enabled(c, s, step) && Background(step)
    ensures var s' := Next(c, s, step); s' == s.(mon := s'.mon, now := s'.now)
  {
  }

  /** The address a step hands back to the caller of Ensure, and for which target. */
  function Answer(c: H.Config, s: State, step: Step): Option<(Target, string, int)>
    requires Enabled(c, s, step)
  {
    match step
    case Judge(healthy) =>
      var k := Key(s.lock.target);
      if healthy then Some((s.lock.target, s.sessions[k].ip, s.sessions[k].port)) else None
    case Dial(ok) =>
      var k := Key(s.lock.target);
      if ok then Some((s.lock.target, s.sessions[k].ip, s.sessions[k].port)) else None
    case Spawn =>
      var k := Key(s.lock.target);
      Some((s.lock.target, s.sessions[k].ip, s.sessions[k].port))
    case _ => None
  }

  /** A run: any interleaving of enabled steps from an initial state. */
  ghost predicate IsRun(c: H.Config, states: seq<State>, steps: seq<Step>) {
    && |states| == |steps| + 1
    && Init(states[0])
    && forall i :: 0 <= i < |steps| ==>
         Enabled(c, states[i], steps[i]) && states[i + 1] == Next(c, states[i], steps[i])
  }

  /** The steps, taken one after the other, lead from s to s'. */
  predicate Path(c: H.Config, s: State, steps: seq<Step>, s': State)
    decreases |steps|
  {
    if steps == [] then s == s'
    else Enabled(c, s, steps[0]) && Path(c, Next(c, s, steps[0]), steps[1..], s')
  }

  lemma {:induction false} PathConcat(
    c: H.Config, s: State, steps1: seq<Step>, s1: State, steps2: seq<Step>, s2: State)
    requires Path(c, s, steps1, s1) && Path(c, s1, steps2, s2)
    ensures Path(c, s, steps1 + steps2, s2)
    decreases |steps1|
  {
    if steps1 == [] {
      assert steps1 + steps2 == steps2;
    } else {
      PathConcat(c, Next(c, s, steps1[0]), steps1[1..], s1, steps2, s2);
      assert (steps1 + steps2)[1..] == steps1[1..] + steps2;
    }
  }

  lemma PathSnoc(c: H.Config, s: State, steps: seq<Step>, s1: State, step: Step)
    requires Path(c, s, steps, s1) && Enabled(c, s1, step)
    ensures Path(c, s, steps + [step], Next(c, s1, step))
  {
    assert Path(c, s1, [step], Next(c, s1, step)) by {
      assert [step][1..] == [];
    }
    PathConcat(c, s, steps, s1, [step], Next(c, s1, step));
  }

  lemma OneStep(c: H.Config, s: State, a: Step)
    requires Enabled(c, s, a)
    ensures Path(c, s, [a], Next(c, s, a))
  {
    assert [a][1..] == [];
  }

  lemma TwoSteps(c: H.Config, s: State, a: Step, b: Step)
    requires Enabled(c, s, a) && Enabled(c, Next(c, s, a), b)
    ensures Path(c, s, [a, b], Next(c, Next(c, s, a), b))
  {
    OneStep(c, Next(c, s, a), b);
    assert [a, b][1..] == [b];
  }

  lemma ThreeSteps(c: H.Config, s: State, a: Step, b: Step, d: Step)
    requires Enabled(c, s, a)
    requires var s1 := Next(c, s, a); Enabled(c, s1, b) && Enabled(c, Next(c, s1, b), d)
    ensures Path(c, s, [a, b, d], Next(c, Next(c, Next(c, s, a), b), d))
  {
    TwoSteps(c, Next(c, s, a), b, d);
    assert [a, b, d][1..] == [b, d];
  }

  /** A path from an initial state is a run that ends where the path does. */
  lemma {:induction false} PathIsRun(c: H.Config, s: State, steps: seq<Step>, s': State)
    returns (states: seq<State>)
    requires Path(c, s, steps, s')
    ensures |states| == |steps| + 1 && states[0] == s && states[|steps|] == s'
    ensures forall i :: 0 <= i < |steps| ==>
              Enabled(c, states[i], steps[i]) && states[i + 1] == Next(c, states[i], steps[i])
    ensures Init(s) ==> IsRun(c, states, steps)
    decreases |steps|
  {
    if steps == [] {
      states := [s];
    } else {
      var rest := PathIsRun(c, Next(c, s, steps[0]), steps[1..], s');
      states := [s] + rest;
      forall i | 0 <= i < |steps|
        ensures Enabled(c, states[i], steps[i]) && states[i + 1] == Next(c, states[i], steps[i])
      {
        assert i > 0 ==> states[i] == rest[i - 1] && steps[i] == steps[1..][i - 1];
      }
    }
  }

  lemma FourSteps(c: H.Config, s: State, a: Step, b: Step, d: Step, e: Step)
    requires Enabled(c, s, a)
    requires var s1 := Next(c, s, a);
             && Enabled(c, s1, b)
             && var s2 := Next(c, s1, b);
                Enabled(c, s2, d) && Enabled(c, Next(c, s2, d), e)
    ensures Path(c, s, [a, b, d, e], Next(c, Next(c, Next(c, Next(c, s, a), b), d), e))
  {
    ThreeSteps(c, Next(c, s, a), b, d, e);
    assert [a, b, d, e][1..] == [b, d, e];
  }

  /** A run goes where a path of its first steps goes. */
  lemma {:induction false} RunFollowsPath(
    c: H.Config, states: seq<State>, steps: seq<Step>, a: nat, p: seq<Step>, s': State)
    requires |states| == |steps| + 1 && a + |p| <= |steps| && steps[a..a + |p|] == p
    requires forall i :: 0 <= i < |steps| ==>
               Enabled(c, states[i], steps[i]) && states[i + 1] == Next(c, states[i], steps[i])
    requires Path(c, states[a], p, s')
    ensures states[a + |p|] == s'
    decreases |p|
  {
    if p != [] {
      assert steps[a] == p[0];
      assert steps[a + 1..a + 1 + |p[1..]|] == p[1..];
      RunFollowsPath(c, states, steps, a + 1, p[1..], s');
    }
  }

  /** The steps by which a successful setup is cached and watched. */
  lemma SetupPath(c: H.Config, s0: State, s1: State, s2: State, s3: State, s4: State, s5: State, s6: State,
                  ip: string, port: int, setupTime: nat, settleTime: nat)
    requires s0.lock.SettingUp?
    requires s1 == Next(c, s0, Advance(setupTime)) && s2 == Next(c, s1, SetupStarts(ip, port))
    requires s3 == Next(c, s2, Insert) && s4 == Next(c, s3, Register)
    requires s5 == Next(c, s4, Advance(settleTime)) && s6 == Next(c, s5, Spawn)
    ensures Path(c, s0, [Advance(setupTime), SetupStarts(ip, port), Insert, Register, Advance(settleTime), Spawn], s6)
  {
    ThreeSteps(c, s0, Advance(setupTime), SetupStarts(ip, port), Insert);
    ThreeSteps(c, s3, Register, Advance(settleTime), Spawn);
    var first, second := [Advance(setupTime), SetupStarts(ip, port), Insert], [Register, Advance(settleTime), Spawn];
    PathConcat(c, s0, first, s3, second, s6);
    assert first + second
        == [Advance(setupTime), SetupStarts(ip, port), Insert, Register, Advance(settleTime), Spawn];
  }

  /** A first Ensure for an uncached target, and where it leaves the table. */
  lemma EnsurePath(c: H.Config, s: State, t: Target, ip: string, port: int) returns (s': State)
    requires s.lock == Free && Key(t) !in s.sessions
    ensures Path(c, s, [Look(t), SetupStarts(ip, port), Insert, Register, Spawn], s')
    ensures Key(t) in s'.sessions && s'.lock == Free
    ensures s'.sessions[Key(t)].ip == ip && s'.sessions[Key(t)].port == port && s'.sessions[Key(t)].owner == t
    ensures c.enabled ==>
              && Key(t) in s'.mon.entries
              && var e := s'.mon.entries[Key(t)];
                 if Key(t) in s.mon.entries then e == s.mon.entries[Key(t)] else e.ip == ip && e.port == port
  {
    var s1 := Next(c, s, Look(t));
    var s2 := Next(c, s1, SetupStarts(ip, port));
    var s3 := Next(c, s2, Insert);
    var s4 := Next(c, s3, Register);
    s' := Next(c, s4, Spawn);
    TwoSteps(c, s, Look(t), SetupStarts(ip, port));
    ThreeSteps(c, s2, Insert, Register, Spawn);
    PathConcat(c, s, [Look(t), SetupStarts(ip, port)], s2, [Insert, Register, Spawn], s');
    assert [Look(t), SetupStarts(ip, port)] + [Insert, Register, Spawn]
        == [Look(t), SetupStarts(ip, port), Insert, Register, Spawn];
  }

  // Tunnels are owned.

  /** The context the lock holder has created and not cached yet. */
  function Pending(l: Lock): set<nat> {
    if l.Waiting? then {l.ctx} else {}
  }

  /** Keys whose tunnel has not been cancelled by a Stop in progress. */
  predicate Kept(s: State, key: string) {
    key in s.sessions && (s.lock.Stopping? ==> key in s.lock.left)
  }

  predicate LockMakesSense(s: State) {
    match s.lock
    case Free => true
    case Asking(t, _) => Key(t) in s.sessions
    case Validating(t) => Key(t) in s.sessions
    case Forgetting(k, next) => k !in s.sessions && (next.Some? ==> Key(next.value) == k)
    case SettingUp(t) => Key(t) !in s.sessions
    case Waiting(t, _, _, ctx) =>
      && Key(t) !in s.sessions && ctx < s.nextCtx
      && forall k :: k in s.sessions ==> s.sessions[k].ctx != ctx
    case Registering(t, ctx) => Key(t) in s.sessions && s.sessions[Key(t)].ctx == ctx
    case Settling(t, ctx) => Key(t) in s.sessions && s.sessions[Key(t)].ctx == ctx
    case Stopping(left) => left <= s.sessions.Keys
  }

  /** Every cached tunnel has a context of its own and sits under its own key. */
  ghost predicate SessionsDistinct(s: State) {
    && (forall k :: k in s.sessions ==> s.sessions[k].ctx < s.nextCtx && Key(s.sessions[k].owner) == k)
    && (forall j, k :: j in s.sessions && k in s.sessions && s.sessions[j].ctx == s.sessions[k].ctx ==> j == k)
  }

  ghost predicate Shaped(s: State) {
    LockMakesSense(s) && SessionsDistinct(s)
  }

  predicate Holds(s: State, key: string, x: nat) {
    Kept(s, key) && s.sessions[key].ctx == x
  }

  ghost predicate LiveExact(s: State) {
    forall x :: x in s.live <==> x in Pending(s.lock) || exists k :: Holds(s, k, x)
  }

  ghost predicate Owned(s: State) {
    Shaped(s) && LiveExact(s)
  }

  lemma LockStep(c: H.Config, s: State, step: Step)
    requires Shaped(s) && Enabled(c, s, step)
    ensures LockMakesSense(Next(c, s, step))
  {
    if Background(step) {
      BackgroundKeepsCache(c, s, step);
    } else if Removal(step) {
      RemovalDrops(c, s, step);
    }
  }

  /** Where the context of a tunnel cached after a step comes from. */
  lemma ContextSource(c: H.Config, s: State, step: Step, k: string)
    requires Shaped(s) && Enabled(c, s, step) && k in Next(c, s, step).sessions
    ensures var x := Next(c, s, step).sessions[k];
            && x.ctx < Next(c, s, step).nextCtx && Key(x.owner) == k
            && if k in s.sessions then x.ctx == s.sessions[k].ctx
               else step == Insert && k == Key(s.lock.target) && x.ctx == s.lock.ctx
  {
    if Background(step) {
      BackgroundKeepsCache(c, s, step);
    } else if Removal(step) {
      RemovalDrops(c, s, step);
    }
  }

  lemma DistinctStep(c: H.Config, s: State, step: Step)
    requires Shaped(s) && Enabled(c, s, step)
    ensures SessionsDistinct(Next(c, s, step))
  {
    var after, next := Next(c, s, step).sessions, Next(c, s, step).nextCtx;
    forall k | k in after
      ensures after[k].ctx < next && Key(after[k].owner) == k
      ensures if k in s.sessions then after[k].ctx == s.sessions[k].ctx
              else step == Insert && k == Key(s.lock.target) && after[k].ctx == s.lock.ctx
    {
      ContextSource(c, s, step, k);
    }
  }

  lemma HolderStaysInCall(c: H.Config, s: State, step: Step, key: string, x: nat)
    requires Shaped(s) && Enabled(c, s, step) && Holds(s, key, x) && !Removal(step) && !Background(step)
    requires x in Next(c, s, step).live
    ensures Holds(Next(c, s, step), key, x)
  {
  }

  /** A live context keeps its holder. */
  lemma HolderStays(c: H.Config, s: State, step: Step, key: string, x: nat)
    requires Owned(s) && Enabled(c, s, step) && Holds(s, key, x)
    requires x in Next(c, s, step).live
    ensures Holds(Next(c, s, step), key, x)
  {
    if Background(step) {
      BackgroundKeepsCache(c, s, step);
    } else if Removal(step) {
      RemovalDrops(c, s, step);
    } else {
      HolderStaysInCall(c, s, step, key, x);
    }
  }

  lemma LiveHasHolder(c: H.Config, s: State, step: Step, x: nat)
    requires Owned(s) && Enabled(c, s, step)
    requires x in Next(c, s, step).live
    ensures var s' := Next(c, s, step);
            x in Pending(s'.lock) || exists k :: Holds(s', k, x)
  {
    var s' := Next(c, s, step);
    if k :| Holds(s, k, x) {
      HolderStays(c, s, step, k, x);
    } else if step == Insert {
      assert Holds(s', Key(s.lock.target), x);
    } else if Removal(step) {
      RemovalDrops(c, s, step);
    }
  }

  /** Outside removals a tunnel is held after a step if it was before, or was just inserted. */
  lemma HeldBefore(c: H.Config, s: State, step: Step, key: string, x: nat)
    requires Enabled(c, s, step) && !Removal(step) && Holds(Next(c, s, step), key, x)
    ensures Holds(s, key, x) || (step == Insert && x == s.lock.ctx)
  {
    if Background(step) {
      BackgroundKeepsCache(c, s, step);
    }
  }

  lemma StaysLive(c: H.Config, s: State, step: Step, key: string, x: nat)
    requires Shaped(s) && Enabled(c, s, step) && !Removal(step)
    requires Holds(s, key, x) && x in s.live && Holds(Next(c, s, step), key, x)
    ensures x in Next(c, s, step).live
  {
    if Background(step) {
      BackgroundKeepsCache(c, s, step);
    }
  }

  lemma HolderIsLive(c: H.Config, s: State, step: Step, key: string, x: nat)
    requires Owned(s) && Enabled(c, s, step)
    requires Holds(Next(c, s, step), key, x)
    ensures x in Next(c, s, step).live
  {
    if Removal(step) {
      RemovalDrops(c, s, step);
      assert Holds(s, key, x);
    } else {
      HeldBefore(c, s, step, key, x);
      if Holds(s, key, x) {
        assert x in s.live;
        StaysLive(c, s, step, key, x);
      }
    }
  }

  lemma OwnedStep(c: H.Config, s: State, step: Step)
    requires Owned(s) && Enabled(c, s, step)
    ensures Owned(Next(c, s, step))
  {
    var s' := Next(c, s, step);
    LockStep(c, s, step);
    DistinctStep(c, s, step);
    forall x
      ensures x in s'.live <==> x in Pending(s'.lock) || exists k :: Holds(s', k, x)
    {
      if x in s'.live {
        LiveHasHolder(c, s, step, x);
      }
      if k :| Holds(s', k, x) {
        HolderIsLive(c, s, step, k, x);
      }
    }
  }

  lemma {:induction false} OwnedPath(c: H.Config, s: State, steps: seq<Step>, s': State)
    requires Owned(s) && Path(c, s, steps, s')
    ensures Owned(s')
    decreases |steps|
  {
    if steps != [] {
      OwnedStep(c, s, steps[0]);
      OwnedPath(c, Next(c, s, steps[0]), steps[1..], s');
    }
  }

  lemma {:induction false} OwnedRun(c: H.Config, states: seq<State>, steps: seq<Step>, i: nat)
    requires IsRun(c, states, steps) && i < |states|
    ensures Owned(states[i])
  {
    if i > 0 {
      OwnedRun(c, states, steps, i - 1);
      OwnedStep(c, states[i - 1], steps[i - 1]);
    }
  }

  /** No tunnel is leaked, overwritten or cancelled while cached: between
      operations the uncancelled contexts are exactly those of the cached
      tunnels, one each, whatever interleaving of steps led there. */
  lemma TunnelsAreOwned(c: H.Config, states: seq<State>, steps: seq<Step>, i: nat)
    requires IsRun(c, states, steps) && i < |states| && states[i].lock == Free
    ensures var s := states[i];
            && s.live == (set k | k in s.sessions :: s.sessions[k].ctx)
            && |s.live| == |s.sessions|
  {
    OwnedRun(c, states, steps, i);
    var s := states[i];
    var ctxs := set k | k in s.sessions :: s.sessions[k].ctx;
    forall x | x in s.live
      ensures x in ctxs
    {
      var k :| Holds(s, k, x);
    }
    forall x | x in ctxs
      ensures x in s.live
    {
      var k :| k in s.sessions && s.sessions[k].ctx == x;
      assert Holds(s, k, x);
    }
    CountContexts(s.sessions);
  }

  lemma {:induction false} CountContexts(sessions: map<string, Session>)
    requires forall j, k :: j in sessions && k in sessions && sessions[j].ctx == sessions[k].ctx ==> j == k
    ensures |set k | k in sessions :: sessions[k].ctx| == |sessions|
  {
    var ctxs := set k | k in sessions :: sessions[k].ctx;
    if sessions == map[] {
      assert ctxs == {};
    } else {
      var j :| j in sessions;
      var rest := sessions - {j};
      CountContexts(rest);
      var restCtxs := set k | k in rest :: rest[k].ctx;
      assert sessions[j].ctx !in restCtxs;
      forall x | x in ctxs
        ensures x in restCtxs + {sessions[j].ctx}
      {
        var k :| k in sessions && sessions[k].ctx == x;
        assert k == j || k in rest;
      }
      assert ctxs == restCtxs + {sessions[j].ctx};
      assert rest.Keys == sessions.Keys - {j};
    }
  }

  /** The tunnel under k after a step was there before, or was just inserted. */
  lemma SameTunnel(c: H.Config, s: State, step: Step, k: string)
    requires Enabled(c, s, step) && k in Next(c, s, step).sessions
    ensures var s' := Next(c, s, step);
            || (step == Insert && k == Key(s.lock.target))
            || (k in s.sessions && s'.sessions[k] == s.sessions[k].(lastUsed := s'.sessions[k].lastUsed)
                && (s'.sessions[k].lastUsed == s.sessions[k].lastUsed || s'.sessions[k].lastUsed == s.now))
  {
    if Removal(step) {
      RemovalDrops(c, s, step);
    }
  }

  /** A cached tunnel is never replaced in place: the entry under a key keeps
      its context until a step that removes it cancels that context. */
  lemma NeverOverwritten(c: H.Config, s: State, step: Step, key: string)
    requires Owned(s) && Enabled(c, s, step) && key in s.sessions
    ensures var s' := Next(c, s, step);
            || (key in s'.sessions && s'.sessions[key] == s.sessions[key].(lastUsed := s'.sessions[key].lastUsed))
            || (key !in s'.sessions && s.sessions[key].ctx !in s'.live)
  {
    OwnedStep(c, s, step);
    var x, s' := s.sessions[key].ctx, Next(c, s, step);
    if key in s'.sessions {
      SameTunnel(c, s, step, key);
    } else if Removal(step) {
      RemovalDrops(c, s, step);
    } else if step == StopEnd {
      assert forall k :: !Holds(s, k, x);
    }
  }

  /** Every address Ensure returns belongs to an uncancelled cached tunnel that
      sits under the caller's key. */
  lemma AnswersAreLive(c: H.Config, states: seq<State>, steps: seq<Step>, i: nat)
    requires IsRun(c, states, steps) && i < |steps|
    requires Answer(c, states[i], steps[i]).Some?
    ensures var (t, ip, port) := Answer(c, states[i], steps[i]).value;
            var s := states[i + 1];
            && Key(t) in s.sessions
            && (ip, port) == (s.sessions[Key(t)].ip, s.sessions[Key(t)].port)
            && s.sessions[Key(t)].ctx in s.live
            && s.lock == Free
  {
    OwnedRun(c, states, steps, i + 1);
    var (t, ip, port) := Answer(c, states[i], steps[i]).value;
    assert Holds(states[i + 1], Key(t), states[i + 1].sessions[Key(t)].ctx);
  }

  /** Ensure answers in just those steps by which a call that found or made a tunnel
      gives the lock back, and answers its own caller. */
  lemma AnswerEndsCall(c: H.Config, s: State, step: Step)
    requires Enabled(c, s, step)
    ensures Answer(c, s, step).Some? <==>
            (s.lock.Asking? || s.lock.Validating? || s.lock.Settling?) && Next(c, s, step).lock == Free
    ensures Answer(c, s, step).Some? ==> Answer(c, s, step).value.0 == s.lock.target
  {
    if Background(step) {
      BackgroundKeepsCache(c, s, step);
    }
  }

  /** Over every run a cached tunnel is judged on what the monitor said when it was
      looked up: one that is off vouches for every tunnel, one that did not know the
      key for none, and otherwise either may have happened to its entry since. */
  lemma {:induction false} JudgedAsAsked(c: H.Config, states: seq<State>, steps: seq<Step>, n: nat) returns (i: nat)
    requires IsRun(c, states, steps) && n < |states| && states[n].lock.Asking?
    ensures i < n && steps[i] == Look(states[n].lock.target)
    ensures var k := Key(states[n].lock.target);
            && (Enabled(c, states[n], Judge(true)) <==> !c.enabled || k in states[i].mon.entries)
            && (Enabled(c, states[n], Judge(false)) <==> c.enabled)
  {
    if n == 0 {
      assert false;
    }
    OwnedRun(c, states, steps, n);
    i := n - 1;
    if !steps[i].Look? {
      AskingStays(c, states[i], steps[i]);
      i := JudgedAsAsked(c, states, steps, i);
    }
  }

  lemma AskingStays(c: H.Config, s: State, step: Step)
    requires Enabled(c, s, step) && Next(c, s, step).lock.Asking? && !step.Look?
    ensures s.lock == Next(c, s, step).lock && s.sessions == Next(c, s, step).sessions
  {
    if Background(step) {
      BackgroundKeepsCache(c, s, step);
    } else if Removal(step) {
      RemovalDrops(c, s, step);
    }
  }
}
