// What becomes of one tunnel over a run: how long it lives, when it was last asked
// for, and whether the monitor watches it.
module TunnelLife {
  import opened Text
  import opened TunnelKeys
  import T = Tunnels
  import H = Health

  /** The step cancels the tunnel cached under `key`. */
  predicate Drops(s: T.State, step: T.Step, key: string) {
    && key in s.sessions
    && match step
       case Dial(ok) => !ok && s.lock.Validating? && Key(s.lock.target) == key
       case Tick(w) =>
         && w in s.watchers && s.watchers[w].key == key
         && s.now - s.sessions[key].lastUsed > T.IDLE_TIMEOUT
       case Lifetime(w) => w in s.watchers && s.watchers[w].key == key
       case Callback(k) => k == key
       case Invalidate(k) => k == key
       case ForceRefresh(service, namespace) => Key(Target(service, namespace, 0)) == key
       case StopOne(k) => k == key
       case _ => false
  }

  /** No step from a on and before n drops the tunnel under `key`. */
  predicate Undropped(states: seq<T.State>, steps: seq<T.Step>, a: nat, n: nat, key: string)
    requires n <= |steps| < |states|
  {
    forall m :: a <= m < n ==> !Drops(states[m], steps[m], key)
  }

  lemma DropCancels(c: H.Config, s: T.State, step: T.Step, key: string, x: nat)
    requires T.Owned(s) && T.Enabled(c, s, step) && T.Holds(s, key, x) && Drops(s, step, key)
    ensures x !in T.Next(c, s, step).live
  {
  }

  lemma OtherRemovalsSpare(c: H.Config, s: T.State, step: T.Step, key: string, x: nat)
    requires T.Enabled(c, s, step) && T.Removal(step) && T.Holds(s, key, x) && !Drops(s, step, key)
    ensures T.Holds(T.Next(c, s, step), key, x)
  {
  }

  lemma OtherStepsSpare(c: H.Config, s: T.State, step: T.Step, key: string, x: nat)
    requires T.Owned(s) && T.Enabled(c, s, step) && T.Holds(s, key, x) && !Drops(s, step, key)
    ensures T.Holds(T.Next(c, s, step), key, x)
  {
    if T.Background(step) {
      T.BackgroundKeepsCache(c, s, step);
    } else if T.Removal(step) {
      OtherRemovalsSpare(c, s, step, key, x);
    }
  }

  lemma CancelledStaysCancelled(c: H.Config, s: T.State, step: T.Step, x: nat)
    requires T.Enabled(c, s, step) && x < s.nextCtx && x !in s.live
    ensures x < T.Next(c, s, step).nextCtx && x !in T.Next(c, s, step).live
  {
  }

  lemma ContextsAdvance(c: H.Config, s: T.State, step: T.Step)
    requires T.Enabled(c, s, step)
    ensures s.nextCtx <= T.Next(c, s, step).nextCtx
  {
    if T.Removal(step) {
      T.RemovalDrops(c, s, step);
    }
  }

  /** The tunnel x under `key` is cached, or it is gone for good. */
  predicate Fate(s: T.State, key: string, x: nat, kept: bool) {
    if kept then T.Holds(s, key, x) else x < s.nextCtx && x !in s.live
  }

  lemma FateStep(c: H.Config, s: T.State, step: T.Step, key: string, x: nat, kept: bool)
    requires T.Owned(s) && T.Enabled(c, s, step) && Fate(s, key, x, kept)
    ensures Fate(T.Next(c, s, step), key, x, kept && !Drops(s, step, key))
  {
    if !kept {
      CancelledStaysCancelled(c, s, step, x);
    } else if Drops(s, step, key) {
      DropCancels(c, s, step, key, x);
      ContextsAdvance(c, s, step);
    } else {
      OtherStepsSpare(c, s, step, key, x);
    }
  }

  lemma UndroppedSnoc(states: seq<T.State>, steps: seq<T.Step>, a: nat, n: nat, key: string)
    requires a < n <= |steps| < |states|
    ensures Undropped(states, steps, a, n, key)
            == (Undropped(states, steps, a, n - 1, key) && !Drops(states[n - 1], steps[n - 1], key))
  {
  }

  /** Over every run a tunnel lives on exactly as long as no step drops it. */
  lemma {:induction false} LivesUntilDropped(
    c: H.Config, states: seq<T.State>, steps: seq<T.Step>, a: nat, n: nat, key: string, x: nat)
    requires T.IsRun(c, states, steps) && a <= n < |states| && T.Holds(states[a], key, x)
    ensures Fate(states[n], key, x, Undropped(states, steps, a, n, key))
  {
    if n > a {
      LivesUntilDropped(c, states, steps, a, n - 1, key, x);
      T.OwnedRun(c, states, steps, n - 1);
      UndroppedSnoc(states, steps, a, n, key);
      FateStep(c, states[n - 1], steps[n - 1], key, x, Undropped(states, steps, a, n - 1, key));
    }
  }

  // Time.

  lemma {:induction false} TimeMovesOn(c: H.Config, states: seq<T.State>, steps: seq<T.Step>, a: nat, n: nat)
    requires T.IsRun(c, states, steps) && a <= n < |states|
    ensures states[a].now <= states[n].now
  {
    if n > a {
      TimeMovesOn(c, states, steps, a, n - 1);
      NowStep(c, states[n - 1], steps[n - 1]);
    }
  }

  lemma NowStep(c: H.Config, s: T.State, step: T.Step)
    requires T.Enabled(c, s, step)
    ensures s.now <= T.Next(c, s, step).now
  {
    if T.Removal(step) {
      T.RemovalDrops(c, s, step);
    }
  }

  /** The step uses the tunnel under `key`: an Ensure finds it cached, or caches it. */
  predicate Uses(s: T.State, step: T.Step, key: string) {
    || (step.Look? && Key(step.target) == key && key in s.sessions)
    || (step.Insert? && s.lock.Waiting? && Key(s.lock.target) == key)
  }

  lemma UseStep(c: H.Config, s: T.State, step: T.Step, key: string)
    requires T.Enabled(c, s, step) && key in T.Next(c, s, step).sessions
    ensures var s' := T.Next(c, s, step);
            if Uses(s, step, key) then s'.sessions[key].lastUsed == s.now
            else key in s.sessions && s'.sessions[key].lastUsed == s.sessions[key].lastUsed
  {
    if T.Removal(step) {
      T.RemovalDrops(c, s, step);
    }
  }

  /** Over every run a cached tunnel remembers the time of its latest use. */
  lemma {:induction false} LatestUse(c: H.Config, states: seq<T.State>, steps: seq<T.Step>, n: nat, key: string)
    returns (i: nat)
    requires T.IsRun(c, states, steps) && n < |states| && key in states[n].sessions
    ensures i < n && Uses(states[i], steps[i], key) && states[n].sessions[key].lastUsed == states[i].now
    ensures forall j :: i < j < n ==> !Uses(states[j], steps[j], key)
  {
    if n == 0 {
      assert false;
    }
    i := n - 1;
    UseStep(c, states[i], steps[i], key);
    if !Uses(states[i], steps[i], key) {
      i := LatestUse(c, states, steps, i, key);
    }
  }

  /** It never remembers an earlier one later on. */
  lemma LastUseGrows(c: H.Config, states: seq<T.State>, steps: seq<T.Step>, a: nat, n: nat, key: string)
    requires T.IsRun(c, states, steps) && a <= n < |states|
    requires key in states[a].sessions && key in states[n].sessions
    ensures states[a].sessions[key].lastUsed <= states[n].sessions[key].lastUsed <= states[n].now
  {
    var i := LatestUse(c, states, steps, a, key);
    var j := LatestUse(c, states, steps, n, key);
    assert !(j < i < n);
    TimeMovesOn(c, states, steps, i, j);
    TimeMovesOn(c, states, steps, j, n);
  }

  /** Over every run a tick drops its key's tunnel exactly when every use of it so
      far is more than five minutes old: asking for it keeps it for five more. */
  lemma TickDropsIff(c: H.Config, states: seq<T.State>, steps: seq<T.Step>, n: nat, key: string)
    requires T.IsRun(c, states, steps) && n < |steps|
    requires steps[n].Tick? && states[n].watchers[steps[n].watcher].key == key && key in states[n].sessions
    ensures key !in states[n + 1].sessions <==>
            forall i :: 0 <= i < n && Uses(states[i], steps[i], key) ==>
              states[n].now - states[i].now > 5 * T.MINUTE
  {
    var last := LatestUse(c, states, steps, n, key);
    forall i | 0 <= i < n && Uses(states[i], steps[i], key)
      ensures states[i].now <= states[last].now
    {
      TimeMovesOn(c, states, steps, i, last);
    }
  }

  // Whether the monitor watches the tunnel.

  /** The monitor has the address (ip, port) under `key`. */
  predicate Addressed(s: T.State, key: string, ip: string, port: int) {
    key in s.mon.entries && s.mon.entries[key].ip == ip && s.mon.entries[key].port == port
  }

  /** The tunnel x is cached under `key` with that address. */
  predicate HoldsAt(s: T.State, key: string, x: nat, ip: string, port: int) {
    T.Holds(s, key, x) && s.sessions[key].ip == ip && s.sessions[key].port == port
  }

  /** A registration leaves the tunnel watched at its own address exactly when its
      key had no entry, or one with that very address: a blank entry stays blank. */
  lemma RegisterMonitorsIff(c: H.Config, s: T.State)
    requires T.Enabled(c, s, T.Register) && c.enabled
    ensures var k := Key(s.lock.target);
            var x := s.sessions[k];
            Addressed(T.Next(c, s, T.Register), k, x.ip, x.port) <==>
            k !in s.mon.entries || Addressed(s, k, x.ip, x.port)
  {
  }

  /** The step ends the watch over the tunnel under `key`. */
  predicate Disturbs(s: T.State, step: T.Step, key: string) {
    Drops(s, step, key) || step == T.Expunge(key)
  }

  predicate Undisturbed(states: seq<T.State>, steps: seq<T.Step>, a: nat, n: nat, key: string)
    requires n <= |steps| < |states|
  {
    forall m :: a <= m < n ==> !Disturbs(states[m], steps[m], key)
  }

  /** No registration of `key` is about to run. */
  predicate Registered(s: T.State, key: string) {
    s.lock.Registering? ==> Key(s.lock.target) != key
  }

  /** Either the tunnel is watched at its own address, or it is gone for good, or it
      is cached and the monitor has nothing or another address for it. */
  predicate Watch(s: T.State, key: string, x: nat, ip: string, port: int, kept: bool) {
    if kept then HoldsAt(s, key, x, ip, port) && Registered(s, key) && Addressed(s, key, ip, port)
    else
      || (x < s.nextCtx && x !in s.live)
      || (HoldsAt(s, key, x, ip, port) && Registered(s, key) && !Addressed(s, key, ip, port))
  }

  lemma HoldsAtStep(c: H.Config, s: T.State, step: T.Step, key: string, x: nat, ip: string, port: int)
    requires T.Owned(s) && T.Enabled(c, s, step) && !Drops(s, step, key)
    requires HoldsAt(s, key, x, ip, port) && Registered(s, key)
    ensures HoldsAt(T.Next(c, s, step), key, x, ip, port) && Registered(T.Next(c, s, step), key)
  {
    OtherStepsSpare(c, s, step, key, x);
    T.SameTunnel(c, s, step, key);
  }

  lemma AddressedByMonitor(c: H.Config, s: T.State, step: T.Step, key: string, ip: string, port: int)
    requires T.Enabled(c, s, step) && (step.Look? || step.Finish? || step.Serve?) && (ip != "" || port != 0)
    ensures Addressed(T.Next(c, s, step), key, ip, port) == Addressed(s, key, ip, port)
  {
    match step
    case Look(t) => H.AskKeepsAddress(c, s.mon, Key(t), s.now, key);
    case Finish(chk, ok) => H.FinishKeepsAddress(c, s.mon, chk, ok, s.now, key);
    case Serve(k, success) => H.ServeKeepsAddress(c, s.mon, k, success, s.now, key);
  }

  lemma AddressedByCache(c: H.Config, s: T.State, step: T.Step, key: string, ip: string, port: int)
    requires T.Shaped(s) && T.Enabled(c, s, step) && key in s.sessions && Registered(s, key)
    requires step.Forget? || step.Register? || (step.StopOne? && step.key != key)
    ensures Addressed(T.Next(c, s, step), key, ip, port) == Addressed(s, key, ip, port)
  {
  }

  lemma OthersKeepEntries(c: H.Config, s: T.State, step: T.Step)
    requires T.Enabled(c, s, step)
    requires !step.Look? && !step.Finish? && !step.Serve? && !step.Expunge?
    requires !step.Forget? && !step.Register? && !step.StopOne?
    ensures T.Next(c, s, step).mon.entries == s.mon.entries
  {
    if T.Removal(step) {
      T.RemovalDrops(c, s, step);
    }
  }

  lemma AddressedByExpunge(c: H.Config, s: T.State, k: string, key: string, ip: string, port: int)
    requires T.Enabled(c, s, T.Expunge(k)) && c.enabled
    ensures Addressed(T.Next(c, s, T.Expunge(k)), key, ip, port) == (k != key && Addressed(s, key, ip, port))
  {
  }

  /** While a tunnel stays cached after its registration, only the delayed removal
      of its key changes whether the monitor has its address. */
  lemma AddressedStep(c: H.Config, s: T.State, step: T.Step, key: string, ip: string, port: int)
    requires T.Shaped(s) && T.Enabled(c, s, step) && !Drops(s, step, key) && c.enabled
    requires key in s.sessions && Registered(s, key) && (ip != "" || port != 0)
    ensures Addressed(T.Next(c, s, step), key, ip, port)
            == (step != T.Expunge(key) && Addressed(s, key, ip, port))
  {
    match step
    case Look(_) => AddressedByMonitor(c, s, step, key, ip, port);
    case Finish(_, _) => AddressedByMonitor(c, s, step, key, ip, port);
    case Serve(_, _) => AddressedByMonitor(c, s, step, key, ip, port);
    case Expunge(k) => AddressedByExpunge(c, s, k, key, ip, port);
    case Forget => AddressedByCache(c, s, step, key, ip, port);
    case Register => AddressedByCache(c, s, step, key, ip, port);
    case StopOne(k) => AddressedByCache(c, s, step, key, ip, port);
    case _ => OthersKeepEntries(c, s, step);
  }

  lemma WatchStep(c: H.Config, s: T.State, step: T.Step, key: string, x: nat, ip: string, port: int, kept: bool)
    requires T.Owned(s) && T.Enabled(c, s, step) && c.enabled && (ip != "" || port != 0)
    requires Watch(s, key, x, ip, port, kept)
    ensures Watch(T.Next(c, s, step), key, x, ip, port, kept && !Disturbs(s, step, key))
  {
    if !kept && x !in s.live {
      CancelledStaysCancelled(c, s, step, x);
    } else if Drops(s, step, key) {
      DropCancels(c, s, step, key, x);
      ContextsAdvance(c, s, step);
    } else {
      HoldsAtStep(c, s, step, key, x, ip, port);
      AddressedStep(c, s, step, key, ip, port);
    }
  }

  lemma UndisturbedSnoc(states: seq<T.State>, steps: seq<T.Step>, a: nat, n: nat, key: string)
    requires a < n <= |steps| < |states|
    ensures Undisturbed(states, steps, a, n, key)
            == (Undisturbed(states, steps, a, n - 1, key) && !Disturbs(states[n - 1], steps[n - 1], key))
  {
  }

  lemma {:induction false} WatchRun(c: H.Config, states: seq<T.State>, steps: seq<T.Step>, a: nat, n: nat,
                                    key: string, x: nat, ip: string, port: int, kept: bool)
    requires T.IsRun(c, states, steps) && a <= n < |states| && c.enabled && (ip != "" || port != 0)
    requires Watch(states[a], key, x, ip, port, kept)
    ensures Watch(states[n], key, x, ip, port, kept && Undisturbed(states, steps, a, n, key))
  {
    if n > a {
      WatchRun(c, states, steps, a, n - 1, key, x, ip, port, kept);
      T.OwnedRun(c, states, steps, n - 1);
      UndisturbedSnoc(states, steps, a, n, key);
      WatchStep(c, states[n - 1], steps[n - 1], key, x, ip, port, kept && Undisturbed(states, steps, a, n - 1, key));
    }
  }

  /** Over every run a tunnel that was registered at step m is at any later state
      cached and watched at its own address exactly when its key had no entry
      then, or one with that address, and since then neither was the tunnel
      dropped nor did a delayed removal of its key run. (An address that is not
      blank: the entry a late check brings back could otherwise pass for it.) */
  lemma WatchedIff(c: H.Config, states: seq<T.State>, steps: seq<T.Step>, m: nat, n: nat,
                   key: string, x: nat, ip: string, port: int)
    requires T.IsRun(c, states, steps) && m < n < |states| && steps[m] == T.Register && c.enabled
    requires states[m].lock.Registering? && key == Key(states[m].lock.target)
    requires HoldsAt(states[m], key, x, ip, port) && (ip != "" || port != 0)
    ensures HoldsAt(states[n], key, x, ip, port) && Addressed(states[n], key, ip, port) <==>
            && (key !in states[m].mon.entries || Addressed(states[m], key, ip, port))
            && Undisturbed(states, steps, m + 1, n, key)
  {
    var kept := Addressed(states[m + 1], key, ip, port);
    RegisterMonitorsIff(c, states[m]);
    WatchRun(c, states, steps, m + 1, n, key, x, ip, port, kept);
    T.OwnedRun(c, states, steps, n);
  }
}
