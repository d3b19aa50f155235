// The port-forward cache as an object beside its monitor. Every method is
// shown to be a path of the step system in Tunnels, so what holds of all runs
// there holds of any sequence of these calls. Dials, the cluster lookup and
// the time that passes are parameters.
module TunnelCache {
  import opened Text
  import opened TunnelKeys
  import T = Tunnels
  import H = Health
  import MonitorAddresses
  import Watchers
  import opened HealthMonitor

  /** The steps of tryReusePortForward: how far it gets depends on whether the
      target is cached, on the monitor's verdict and on the dial. */
  function ReuseScript(t: Target, cached: bool, verdict: bool, dial: bool): seq<T.Step> {
    if !cached then [T.Look(t)]
    else if verdict then [T.Look(t), T.Judge(true)]
    else if dial then [T.Look(t), T.Judge(false), T.Dial(true)]
    else [T.Look(t), T.Judge(false), T.Dial(false), T.Forget]
  }

  function EnsureScript(t: Target, cached: bool, verdict: bool, dial: bool,
                        setup: Option<(string, int)>, setupTime: nat, settleTime: nat): seq<T.Step>
  {
    ReuseScript(t, cached, verdict, dial)
    + if cached && (verdict || dial) then [] else SetupScript(setup, setupTime, settleTime)
  }

  function SetupScript(setup: Option<(string, int)>, setupTime: nat, settleTime: nat): seq<T.Step> {
    if setup.None? then [T.Advance(setupTime), T.SetupFails]
    else [T.Advance(setupTime), T.SetupStarts(setup.value.0, setup.value.1), T.Insert, T.Register,
          T.Advance(settleTime), T.Spawn]
  }

  /** Any sequence of calls, with steps of the monitor and of time between them,
      is a path; so at its end the cache owns exactly the uncancelled tunnels,
      each of them watched, and without a forced refresh the monitor has no
      address but theirs. */
  lemma CallsKeepPromises(c: H.Config, s0: T.State, steps: seq<T.Step>, s: T.State)
    requires T.Init(s0) && T.Path(c, s0, steps, s) && s.lock == T.Free
    ensures s.live == (set k | k in s.sessions :: s.sessions[k].ctx) && |s.live| == |s.sessions|
    ensures forall k :: k in s.sessions ==>
              s.sessions[k].ctx in s.watchers && s.watchers[s.sessions[k].ctx].key == k
    ensures (forall step :: step in steps ==> !step.ForceRefresh?) ==>
              forall k :: k in s.mon.entries ==>
                H.Blank(s.mon.entries[k]) || MonitorAddresses.MatchesSession(s, k, s.mon.entries[k])
  {
    var states := T.PathIsRun(c, s0, steps, s);
    T.TunnelsAreOwned(c, states, steps, |steps|);
    forall k | k in s.sessions
      ensures s.sessions[k].ctx in s.watchers && s.watchers[s.sessions[k].ctx].key == k
    {
      Watchers.CachedIsWatched(c, states, steps, |steps|, k);
    }
    if forall step :: step in steps ==> !step.ForceRefresh? {
      forall k | k in s.mon.entries
        ensures H.Blank(s.mon.entries[k]) || MonitorAddresses.MatchesSession(s, k, s.mon.entries[k])
      {
        MonitorAddresses.MonitorHoldsNoDeadAddress(c, states, steps, |steps|, k);
      }
    }
  }

  class Cache {
    const monitor: Monitor
    var sessions: map<string, T.Session>
    var lock: T.Lock
    var live: set<nat>
    var nextCtx: nat
    var watchers: map<nat, T.Watcher>
    var now: int

    constructor (monitor: Monitor, now: int)
      requires monitor.View() == H.Empty()
      ensures this.monitor == monitor && T.Init(View()) && T.Owned(View()) && this.now == now
    {
      this.monitor := monitor;
      this.now := now;
      sessions, watchers := map[], map[];
      lock, live, nextCtx := T.Free, {}, 0;
    }

    function View(): T.State
      reads this, monitor
    {
      T.State(sessions, lock, live, nextCtx, watchers, monitor.View(), now)
    }

    ghost predicate Follows(s: T.State, steps: seq<T.Step>)
      reads this, monitor
    {
      T.Path(monitor.config, s, steps, View())
    }

    lemma KeepOwned(s: T.State, steps: seq<T.Step>)
      requires Follows(s, steps)
      ensures T.Owned(s) ==> T.Owned(View())
    {
      if T.Owned(s) {
        T.OwnedPath(monitor.config, s, steps, View());
      }
    }

    /** Time passes while an operation waits. */
    method Wait(delta: nat)
      modifies this`now
      ensures View() == T.Next(monitor.config, old(View()), T.Advance(delta))
    {
      now := now + delta;
    }

    /** tryReusePortForward up to the monitor's answer. */
    method Look(t: Target) returns (healthy: bool)
      requires lock == T.Free
      modifies this`sessions, this`lock, monitor
      ensures View() == T.Next(monitor.config, old(View()), T.Look(t))
      ensures Key(t) in old(sessions) ==>
                && healthy == H.Verdict(monitor.config, old(monitor.View()), Key(t), now)
                && T.Enabled(monitor.config, View(), T.Judge(healthy))
    {
      var key := Key(t);
      if key !in sessions {
        lock := T.SettingUp(t);
        return false;
      }
      sessions := sessions[key := sessions[key].(lastUsed := now)];
      lock := T.Asking(t, T.FixedAnswer(monitor.config, monitor.View(), key));
      healthy := monitor.IsHealthy(key, now);
    }

    /** Cancels and removes a tunnel; the monitor is told next. */
    method Remove(key: string, next: Option<Target>)
      requires key in sessions
      modifies this`sessions, this`lock, this`live
      ensures View() == T.Drop(old(View()), key, next)
    {
      live := live - {sessions[key].ctx};
      sessions := sessions - {key};
      lock := T.Forgetting(key, next);
    }

    method TellMonitor()
      requires lock.Forgetting?
      modifies this`lock, monitor
      ensures View() == T.Next(monitor.config, old(View()), T.Forget)
    {
      monitor.UnregisterService(lock.key, now);
      lock := if lock.next.None? then T.Free else T.SettingUp(lock.next.value);
    }

    /** The context exists and the tunnel is starting. */
    method StartTunnel(ip: string, port: int)
      requires lock.SettingUp?
      modifies this`lock, this`live, this`nextCtx
      ensures View() == T.Next(monitor.config, old(View()), T.SetupStarts(ip, port))
    {
      lock := T.Waiting(lock.target, ip, port, nextCtx);
      live := live + {nextCtx};
      nextCtx := nextCtx + 1;
    }

    method InsertSession()
      requires lock.Waiting?
      modifies this`lock, this`sessions
      ensures View() == T.Next(monitor.config, old(View()), T.Insert)
    {
      var session := T.Session(lock.ip, lock.port, lock.ctx, now, lock.target, now);
      sessions := sessions[Key(lock.target) := session];
      lock := T.Registering(lock.target, lock.ctx);
    }

    method RegisterSession()
      requires lock.Registering? && Key(lock.target) in sessions
      modifies this`lock, monitor
      ensures View() == T.Next(monitor.config, old(View()), T.Register)
    {
      var key := Key(lock.target);
      monitor.RegisterService(key, sessions[key].ip, sessions[key].port, now);
      lock := T.Settling(lock.target, lock.ctx);
    }

    /** `go autoExpire(key)`, and the lock is given back. */
    method SpawnWatcher()
      requires lock.Settling? && Key(lock.target) in sessions
      modifies this`lock, this`watchers
      ensures View() == T.Next(monitor.config, old(View()), T.Spawn)
    {
      watchers := watchers[lock.ctx := T.Watcher(Key(lock.target), now, now + T.MINUTE)];
      lock := T.Free;
    }

    /** A started tunnel is cached, registered, validated and watched. */
    method Activate(settleTime: nat) returns (ghost s3: T.State, ghost s4: T.State, ghost s5: T.State)
      requires lock.Waiting?
      modifies this, monitor
      ensures s3 == T.Next(monitor.config, old(View()), T.Insert)
      ensures s4 == T.Next(monitor.config, s3, T.Register)
      ensures s5 == T.Next(monitor.config, s4, T.Advance(settleTime))
      ensures View() == T.Next(monitor.config, s5, T.Spawn)
      ensures lock == T.Free
      ensures var l := old(lock);
              var k := Key(l.target);
              k in sessions && sessions[k].ip == l.ip && sessions[k].port == l.port
    {
      InsertSession();
      s3 := View();
      RegisterSession();
      s4 := View();
      Wait(settleTime);
      s5 := View();
      SpawnWatcher();
    }

    /** Ensure from setupPortForwardWithHint on. */
    method SetUp(setup: Option<(string, int)>, setupTime: nat, settleTime: nat)
      requires lock.SettingUp?
      modifies this, monitor
      ensures Follows(old(View()), SetupScript(setup, setupTime, settleTime))
      ensures lock == T.Free
      ensures setup.None? ==> sessions == old(sessions)
      ensures setup.Some? ==>
                var k := Key(old(lock).target);
                k in sessions && (sessions[k].ip, sessions[k].port) == setup.value
    {
      ghost var c, s0 := monitor.config, View();
      Wait(setupTime);
      ghost var s1 := View();
      if setup.None? {
        lock := T.Free;
        T.TwoSteps(c, s0, T.Advance(setupTime), T.SetupFails);
        return;
      }
      StartTunnel(setup.value.0, setup.value.1);
      ghost var s2 := View();
      ghost var s3, s4, s5 := Activate(settleTime);
      T.SetupPath(c, s0, s1, s2, s3, s4, s5, View(), setup.value.0, setup.value.1, setupTime, settleTime);
    }

    /** tryReusePortForward: done, or a tunnel has to be set up. */
    method TryReuse(t: Target, dial: bool) returns (r: Option<(string, int)>)
      requires lock == T.Free
      modifies this, monitor
      ensures Follows(old(View()),
                      ReuseScript(t, old(Key(t) in sessions),
                                  old(H.Verdict(monitor.config, monitor.View(), Key(t), now)), dial))
      ensures r.Some? <==> old(Key(t) in sessions
                               && (H.Verdict(monitor.config, monitor.View(), Key(t), now) || dial))
      ensures if r.Some? then
                lock == T.Free && Key(t) in sessions && r.value == (sessions[Key(t)].ip, sessions[Key(t)].port)
              else
                lock == T.SettingUp(t) && Key(t) !in sessions
    {
      ghost var c, s0 := monitor.config, View();
      var key := Key(t);
      var healthy := Look(t);
      if key !in sessions {
        T.OneStep(c, s0, T.Look(t));
        return None;
      }
      r := Some((sessions[key].ip, sessions[key].port));
      if healthy {
        lock := T.Free;
        T.TwoSteps(c, s0, T.Look(t), T.Judge(true));
        return;
      }
      lock := T.Validating(t);
      if dial {
        lock := T.Free;
        T.ThreeSteps(c, s0, T.Look(t), T.Judge(false), T.Dial(true));
        return;
      }
      Remove(key, Some(t));
      TellMonitor();
      T.FourSteps(c, s0, T.Look(t), T.Judge(false), T.Dial(false), T.Forget);
      return None;
    }

    /** EnsurePortForwardWithHint with nothing running beside it. */
    method EnsurePortForward(t: Target, dial: bool, setup: Option<(string, int)>,
                             setupTime: nat, settleTime: nat)
      returns (r: Option<(string, int)>)
      requires T.Owned(View()) && lock == T.Free
      modifies this, monitor
      ensures T.Owned(View()) && lock == T.Free
      ensures Follows(old(View()),
                      EnsureScript(t, old(Key(t) in sessions),
                                   old(H.Verdict(monitor.config, monitor.View(), Key(t), now)),
                                   dial, setup, setupTime, settleTime))
      ensures r.Some? ==> Key(t) in sessions && r.value == (sessions[Key(t)].ip, sessions[Key(t)].port)
      ensures r.None? ==> setup.None? && Key(t) !in sessions
    {
      ghost var c, s0 := monitor.config, View();
      ghost var script := ReuseScript(t, Key(t) in sessions, H.Verdict(c, monitor.View(), Key(t), now), dial);
      r := TryReuse(t, dial);
      if r.None? {
        ghost var s1 := View();
        SetUp(setup, setupTime, settleTime);
        T.PathConcat(c, s0, script, s1, SetupScript(setup, setupTime, settleTime), View());
        script := script + SetupScript(setup, setupTime, settleTime);
        r := setup;
      }
      T.OwnedPath(c, s0, script, View());
      assert ReuseScript(t, true, true, dial) + [] == ReuseScript(t, true, true, dial);
      assert ReuseScript(t, true, false, dial) + [] == ReuseScript(t, true, false, dial);
    }

    /** checkAndExpireIdleSession, run by one of the key's watchers. */
    method CheckAndExpireIdleSession(w: nat) returns (exits: bool)
      requires lock == T.Free && w in watchers && now >= watchers[w].next
      modifies this, monitor
      ensures lock == T.Free && exits == (w !in watchers)
      ensures old(T.Owned(View())) ==> T.Owned(View())
      ensures var s := T.Next(monitor.config, old(View()), T.Tick(w));
              Follows(old(View()), if s.lock == T.Free then [T.Tick(w)] else [T.Tick(w), T.Forget])
    {
      ghost var c, s0 := monitor.config, View();
      var key := watchers[w].key;
      if key in sessions && now - sessions[key].lastUsed <= T.IDLE_TIMEOUT {
        watchers := watchers[w := watchers[w].(next := watchers[w].next + T.MINUTE)];
        T.OneStep(c, s0, T.Tick(w));
        KeepOwned(s0, [T.Tick(w)]);
        return false;
      }
      watchers := watchers - {w};
      if key in sessions {
        Remove(key, None);
        TellMonitor();
        T.TwoSteps(c, s0, T.Tick(w), T.Forget);
        KeepOwned(s0, [T.Tick(w), T.Forget]);
      } else {
        T.OneStep(c, s0, T.Tick(w));
        KeepOwned(s0, [T.Tick(w)]);
      }
      return true;
    }

    /** cleanupSession, as the 24-hour timer of a watcher runs it. */
    method ExpireLifetime(w: nat)
      requires lock == T.Free && w in watchers && now >= watchers[w].started + T.MAX_LIFETIME
      modifies this, monitor
      ensures lock == T.Free && w !in watchers && watchers == old(watchers) - {w}
      ensures old(watchers[w].key) !in sessions
      ensures old(T.Owned(View())) ==> T.Owned(View())
      ensures Follows(old(View()), [T.Lifetime(w)] + (if old(watchers[w].key in sessions) then [T.Forget] else []))
    {
      ghost var c, s0 := monitor.config, View();
      var key := watchers[w].key;
      watchers := watchers - {w};
      if key in sessions {
        Remove(key, None);
        TellMonitor();
        T.TwoSteps(c, s0, T.Lifetime(w), T.Forget);
        assert [T.Lifetime(w)] + [T.Forget] == [T.Lifetime(w), T.Forget];
        KeepOwned(s0, [T.Lifetime(w), T.Forget]);
      } else {
        T.OneStep(c, s0, T.Lifetime(w));
        assert [T.Lifetime(w)] + [] == [T.Lifetime(w)];
        KeepOwned(s0, [T.Lifetime(w)]);
      }
    }

    method InvalidateSession(key: string)
      requires lock == T.Free
      modifies this, monitor
      ensures lock == T.Free && key !in sessions
      ensures old(T.Owned(View())) ==> T.Owned(View())
      ensures Follows(old(View()), [T.Invalidate(key)] + (if old(key in sessions) then [T.Forget] else []))
    {
      ghost var c, s0 := monitor.config, View();
      if key in sessions {
        Remove(key, None);
        TellMonitor();
        T.TwoSteps(c, s0, T.Invalidate(key), T.Forget);
        assert [T.Invalidate(key)] + [T.Forget] == [T.Invalidate(key), T.Forget];
        KeepOwned(s0, [T.Invalidate(key), T.Forget]);
      } else {
        T.OneStep(c, s0, T.Invalidate(key));
        assert [T.Invalidate(key)] + [] == [T.Invalidate(key)];
        KeepOwned(s0, [T.Invalidate(key)]);
      }
    }

    /** Cancels and removes, and leaves the monitor's entry alone. */
    method ForceRefreshPortForward(service: string, namespace: string)
      requires lock == T.Free
      modifies this`sessions, this`live
      ensures View() == T.Next(monitor.config, old(View()), T.ForceRefresh(service, namespace))
      ensures old(T.Owned(View())) ==> T.Owned(View())
    {
      ghost var s0 := View();
      var key := Key(Target(service, namespace, 0));
      if key in sessions {
        live := live - {sessions[key].ctx};
        sessions := sessions - {key};
      }
      if T.Owned(s0) {
        T.OwnedStep(monitor.config, s0, T.ForceRefresh(service, namespace));
      }
    }

    method StopSession(key: string)
      requires lock.Stopping? && key in lock.left && key in sessions
      modifies this`live, this`lock, monitor
      ensures View() == T.Next(monitor.config, old(View()), T.StopOne(key))
    {
      live := live - {sessions[key].ctx};
      monitor.UnregisterService(key, now);
      lock := T.Stopping(lock.left - {key});
    }

    /** Stop up to the point where the sessions map is replaced. */
    method StopAll(ghost s0: T.State) returns (ghost steps: seq<T.Step>)
      requires lock == T.Stopping(sessions.Keys) && Follows(s0, [T.StopBegin])
      modifies this`live, this`lock, monitor
      ensures lock == T.Stopping({})
      ensures Follows(s0, steps)
      ensures |steps| == |sessions| + 1 && steps[0] == T.StopBegin
    {
      var left := sessions.Keys;
      steps := [T.StopBegin];
      while left != {}
        invariant lock == T.Stopping(left) && left <= sessions.Keys
        invariant Follows(s0, steps)
        invariant |steps| == |sessions| - |left| + 1 && steps[0] == T.StopBegin
        decreases left
      {
        var key :| key in left;
        ghost var s := View();
        StopSession(key);
        left := left - {key};
        T.PathSnoc(monitor.config, s0, steps, s, T.StopOne(key));
        steps := steps + [T.StopOne(key)];
      }
    }

    /** Stop: every tunnel is cancelled and unregistered, in any order, and the
        cache is emptied at the end. */
    method Stop() returns (ghost steps: seq<T.Step>)
      requires T.Owned(View()) && lock == T.Free
      modifies this, monitor
      ensures T.Owned(View()) && lock == T.Free && sessions == map[] && live == {}
      ensures Follows(old(View()), steps)
      ensures |steps| == |old(sessions)| + 2 && steps[0] == T.StopBegin && steps[|steps| - 1] == T.StopEnd
    {
      ghost var c, s0 := monitor.config, View();
      lock := T.Stopping(sessions.Keys);
      T.OneStep(c, s0, T.StopBegin);
      steps := StopAll(s0);
      ghost var s := View();
      sessions := map[];
      lock := T.Free;
      T.PathSnoc(c, s0, steps, s, T.StopEnd);
      steps := steps + [T.StopEnd];
      T.OwnedPath(c, s0, steps, View());
      assert forall x, k :: !T.Holds(View(), k, x);
    }
  }
}
