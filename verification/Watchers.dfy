// The clocks of the watchers: when they tick, when a tunnel reaches the end of its
// lifetime, and how long a watcher outlives its tunnel.
module Watchers {
  import opened Text
  import opened TunnelKeys
  import opened Tunnels
  import H = Health
  import opened TunnelLife

  /** Whether the lock holder has cached a tunnel under k and not started its watcher. */
  predicate Starting(s: State, k: string) {
    (s.lock.Registering? || s.lock.Settling?) && Key(s.lock.target) == k
  }

  predicate WatchedAt(s: State, k: string) {
    k in s.sessions && !Starting(s, k) ==>
      s.sessions[k].ctx in s.watchers && s.watchers[s.sessions[k].ctx].key == k
  }

  /** Watchers belong to contexts whose Ensure is over. */
  predicate WatcherOld(s: State, w: nat) {
    w in s.watchers ==>
      && w < s.nextCtx
      && (s.lock.Waiting? || s.lock.Registering? || s.lock.Settling? ==> w != s.lock.ctx)
  }

  /** A watcher goes on for its key, and exits only in a step after which its
      key is not cached. */
  lemma WatcherExits(c: H.Config, s: State, step: Step, w: nat)
    requires WatcherOld(s, w) && w in s.watchers && Enabled(c, s, step)
    ensures var s' := Next(c, s, step);
            if w in s'.watchers then s'.watchers[w] == s.watchers[w].(next := s'.watchers[w].next)
            else s.watchers[w].key !in s'.sessions
  {
  }

  lemma WatcherOldStep(c: H.Config, s: State, step: Step, w: nat)
    requires Shaped(s) && WatcherOld(s, w) && Enabled(c, s, step)
    ensures WatcherOld(Next(c, s, step), w)
  {
    if Background(step) {
      BackgroundKeepsCache(c, s, step);
    }
  }

  lemma WatchedStep(c: H.Config, s: State, step: Step, k: string)
    requires Shaped(s) && Enabled(c, s, step)
    requires WatchedAt(s, k) && (k in s.sessions ==> WatcherOld(s, s.sessions[k].ctx))
    ensures WatchedAt(Next(c, s, step), k)
  {
    if k in s.sessions && !Starting(s, k) {
      var w := s.sessions[k].ctx;
      WatcherExits(c, s, step, w);
    }
    if k in Next(c, s, step).sessions {
      SameTunnel(c, s, step, k);
    }
  }

  lemma {:induction false} WatchedRun(c: H.Config, states: seq<State>, steps: seq<Step>, i: nat)
    requires IsRun(c, states, steps) && i < |states|
    ensures forall w :: WatcherOld(states[i], w)
    ensures forall k :: WatchedAt(states[i], k)
  {
    if i > 0 {
      WatchedRun(c, states, steps, i - 1);
      OwnedRun(c, states, steps, i - 1);
      forall w
        ensures WatcherOld(states[i], w)
      {
        WatcherOldStep(c, states[i - 1], steps[i - 1], w);
      }
      forall k
        ensures WatchedAt(states[i], k)
      {
        var s := states[i - 1];
        assert WatchedAt(s, k);
        assert k in s.sessions ==> WatcherOld(s, s.sessions[k].ctx);
        WatchedStep(c, states[i - 1], steps[i - 1], k);
      }
    }
  }

  /** Between operations every cached tunnel has a watcher of its own that
      looks at its key. */
  lemma CachedIsWatched(c: H.Config, states: seq<State>, steps: seq<Step>, i: nat, key: string)
    requires IsRun(c, states, steps) && i < |states| && states[i].lock == Free
    requires key in states[i].sessions
    ensures var s := states[i];
            && s.sessions[key].ctx in s.watchers
            && s.watchers[s.sessions[key].ctx].key == key
  {
    WatchedRun(c, states, steps, i);
    assert WatchedAt(states[i], key);
  }

  // Idle time, when ticks are taken on time.

  /** Time does not pass a due tick or a due lifetime by more than `late`, and
      validatePortForward is over within its dials and sleeps. */
  predicate OnTime(s: State, step: Step, late: nat) {
    step.Advance? ==>
      var t := s.now + step.delta;
      && (forall w :: w in s.watchers ==>
            t <= s.watchers[w].next + late && t <= s.watchers[w].started + MAX_LIFETIME + late)
      && (forall k :: k in s.sessions && Starting(s, k) ==> t <= s.sessions[k].born + SETTLE_TIME + late)
  }

  predicate WatcherTimed(s: State, w: nat, late: nat) {
    w in s.watchers ==>
      s.now <= s.watchers[w].next + late && s.now <= s.watchers[w].started + MAX_LIFETIME + late
  }

  /** How long after its last Ensure a tunnel may be left alone by a tick: the
      idle timeout, unless the first tick of its watcher can be later than that. */
  function Patience(late: nat): nat {
    if SETTLE_TIME + late <= IDLE_TIMEOUT then IDLE_TIMEOUT else SETTLE_TIME + late
  }

  predicate TimedAt(s: State, k: string, late: nat) {
    k in s.sessions ==>
      var x := s.sessions[k];
      && x.born <= x.lastUsed <= s.now
      && (Starting(s, k) ==> s.now <= x.born + SETTLE_TIME + late)
      && (x.ctx in s.watchers ==>
            && s.watchers[x.ctx].next <= x.lastUsed + Patience(late) + MINUTE
            && s.watchers[x.ctx].started <= x.born + SETTLE_TIME + late)
  }

  lemma WatcherTimedStep(c: H.Config, s: State, step: Step, w: nat, late: nat)
    requires Enabled(c, s, step) && OnTime(s, step, late) && WatcherTimed(s, w, late)
    ensures WatcherTimed(Next(c, s, step), w, late)
  {
  }

  lemma TimedTick(c: H.Config, s: State, w: nat, k: string, late: nat)
    requires Enabled(c, s, Tick(w)) && TimedAt(s, k, late)
    requires k in s.sessions && s.sessions[k].ctx == w ==> WatchedAt(s, k)
    ensures TimedAt(Next(c, s, Tick(w)), k, late)
  {
  }

  lemma TimedSpawn(c: H.Config, s: State, k: string, late: nat)
    requires Shaped(s) && Enabled(c, s, Spawn) && TimedAt(s, k, late)
    ensures TimedAt(Next(c, s, Spawn), k, late)
  {
  }

  lemma TimedStep(c: H.Config, s: State, step: Step, k: string, late: nat)
    requires Shaped(s) && Enabled(c, s, step) && OnTime(s, step, late)
    requires TimedAt(s, k, late) && (forall w :: WatcherOld(s, w)) && WatchedAt(s, k)
    ensures TimedAt(Next(c, s, step), k, late)
  {
    match step
    case Tick(w) => TimedTick(c, s, w, k, late);
    case Spawn => TimedSpawn(c, s, k, late);
    case _ => TimedOther(c, s, step, k, late);
  }

  lemma TimedOther(c: H.Config, s: State, step: Step, k: string, late: nat)
    requires Enabled(c, s, step) && OnTime(s, step, late) && !step.Tick? && !step.Spawn?
    requires TimedAt(s, k, late) && (forall w :: WatcherOld(s, w))
    ensures TimedAt(Next(c, s, step), k, late)
  {
    var s' := Next(c, s, step);
    if k in s'.sessions {
      SameTunnel(c, s, step, k);
      if step == Insert && k == Key(s.lock.target) {
        assert WatcherOld(s, s.lock.ctx);
      } else {
        var w := s.sessions[k].ctx;
        assert WatcherOld(s, w);
        if w in s.watchers {
          WatcherExits(c, s, step, w);
        }
      }
    }
  }

  ghost predicate RunOnTime(states: seq<State>, steps: seq<Step>, late: nat)
    requires |states| == |steps| + 1
  {
    forall i :: 0 <= i < |steps| ==> OnTime(states[i], steps[i], late)
  }

  /** The steps can be taken from s, none of them late. */
  predicate Punctual(c: H.Config, s: State, steps: seq<Step>, late: nat)
    decreases |steps|
  {
    steps == []
    || (Enabled(c, s, steps[0]) && OnTime(s, steps[0], late) && Punctual(c, Next(c, s, steps[0]), steps[1..], late))
  }

  lemma {:induction false} PunctualConcat(
    c: H.Config, s: State, steps1: seq<Step>, s1: State, steps2: seq<Step>, late: nat)
    requires Path(c, s, steps1, s1) && Punctual(c, s, steps1, late) && Punctual(c, s1, steps2, late)
    ensures Punctual(c, s, steps1 + steps2, late)
    decreases |steps1|
  {
    if steps1 == [] {
      assert steps1 + steps2 == steps2;
    } else {
      PunctualConcat(c, Next(c, s, steps1[0]), steps1[1..], s1, steps2, late);
      assert (steps1 + steps2)[1..] == steps1[1..] + steps2;
    }
  }

  lemma PunctualStep(c: H.Config, s: State, step: Step, late: nat)
    requires Enabled(c, s, step) && OnTime(s, step, late)
    ensures Punctual(c, s, [step], late)
  {
    assert [step][1..] == [];
  }

  lemma PunctualTwo(c: H.Config, s: State, a: Step, b: Step, late: nat)
    requires Enabled(c, s, a) && OnTime(s, a, late)
    requires Enabled(c, Next(c, s, a), b) && OnTime(Next(c, s, a), b, late)
    ensures Punctual(c, s, [a, b], late)
  {
    PunctualStep(c, Next(c, s, a), b, late);
    assert [a, b][1..] == [b];
  }

  lemma {:induction false} PunctualRun(c: H.Config, states: seq<State>, steps: seq<Step>, a: nat, late: nat)
    requires IsRun(c, states, steps) && a <= |steps|
    requires Punctual(c, states[a], steps[a..], late)
    ensures forall i :: a <= i < |steps| ==> OnTime(states[i], steps[i], late)
    decreases |steps| - a
  {
    if a < |steps| {
      assert steps[a..][1..] == steps[a + 1..];
      PunctualRun(c, states, steps, a + 1, late);
    }
  }

  lemma {:induction false} TimedRun(c: H.Config, states: seq<State>, steps: seq<Step>, i: nat, late: nat)
    requires IsRun(c, states, steps) && i < |states|
    requires RunOnTime(states, steps, late)
    ensures forall w :: WatcherTimed(states[i], w, late)
    ensures forall k :: TimedAt(states[i], k, late)
  {
    if i > 0 {
      TimedRun(c, states, steps, i - 1, late);
      OwnedRun(c, states, steps, i - 1);
      WatchedRun(c, states, steps, i - 1);
      forall w
        ensures WatcherTimed(states[i], w, late)
      {
        assert WatcherTimed(states[i - 1], w, late);
        WatcherTimedStep(c, states[i - 1], steps[i - 1], w, late);
      }
      forall k
        ensures TimedAt(states[i], k, late)
      {
        assert TimedAt(states[i - 1], k, late) && WatchedAt(states[i - 1], k);
        TimedStep(c, states[i - 1], steps[i - 1], k, late);
      }
    }
  }

  /** With ticks taken at most `late` after they are due, no cached tunnel is
      idle for more than a minute beyond `Patience` plus `late`, which is six
      minutes plus `late` unless `late` itself nears the idle timeout, and none
      outlives its watcher's 24 hours by more than `late`. */
  lemma IdleTimeIsBounded(c: H.Config, states: seq<State>, steps: seq<Step>, i: nat, key: string, late: nat)
    requires IsRun(c, states, steps) && i < |states| && states[i].lock == Free
    requires RunOnTime(states, steps, late)
    requires key in states[i].sessions
    ensures var s := states[i];
            var x := s.sessions[key];
            && s.now - x.lastUsed <= Patience(late) + MINUTE + late
            && (late <= IDLE_TIMEOUT - SETTLE_TIME ==> s.now - x.lastUsed <= 6 * MINUTE + late)
            && x.ctx in s.watchers
            && s.now - s.watchers[x.ctx].started <= MAX_LIFETIME + late
            && s.now - x.born <= MAX_LIFETIME + SETTLE_TIME + 2 * late
  {
    TimedRun(c, states, steps, i, late);
    CachedIsWatched(c, states, steps, i, key);
    assert TimedAt(states[i], key, late);
    assert WatcherTimed(states[i], states[i].sessions[key].ctx, late);
  }

  /** A tick takes a tunnel out strictly more than five and at most six minutes
      (plus `late`) after its last Ensure, whichever watcher of the key ran; the
      upper bound is a minute beyond `Patience` for any lateness. */
  lemma IdleRemovalWindow(c: H.Config, states: seq<State>, steps: seq<Step>, i: nat, key: string, late: nat)
    requires IsRun(c, states, steps) && i < |steps|
    requires RunOnTime(states, steps, late)
    requires steps[i].Tick? && key in states[i].sessions && key !in states[i + 1].sessions
    ensures var idle := states[i].now - states[i].sessions[key].lastUsed;
            && 5 * MINUTE < idle <= Patience(late) + MINUTE + late
            && (late <= IDLE_TIMEOUT - SETTLE_TIME ==> idle <= 6 * MINUTE + late)
  {
    IdleTimeIsBounded(c, states, steps, i, key, late);
  }

  // Their clocks.

  /** How often the watcher ticked from step m on and before n. */
  function Ticks(steps: seq<Step>, m: nat, n: nat, w: nat): nat
    requires m <= n <= |steps|
  {
    if m == n then 0 else Ticks(steps, m, n - 1, w) + if steps[n - 1] == Tick(w) then 1 else 0
  }

  /** The step starts the watcher w, for `key`. */
  predicate Starts(s: State, step: Step, w: nat, key: string) {
    step.Spawn? && s.lock.Settling? && s.lock.ctx == w && Key(s.lock.target) == key
  }

  lemma ClockStep(c: H.Config, s: State, step: Step, w: nat)
    requires Enabled(c, s, step) && w in Next(c, s, step).watchers
    ensures var x := Next(c, s, step).watchers[w];
            if step.Spawn? && s.lock.ctx == w then
              Starts(s, step, w, x.key) && x == Watcher(x.key, s.now, s.now + MINUTE)
            else
              && w in s.watchers
              && x == s.watchers[w].(next := s.watchers[w].next + if step == Tick(w) then MINUTE else 0)
  {
  }

  /** Over every run a watcher knows its key, the time it was started at, and that
      its next tick comes a minute after each tick was due, the first a minute after
      the start. */
  lemma {:induction false} WatcherClock(c: H.Config, states: seq<State>, steps: seq<Step>, n: nat, w: nat)
    returns (m: nat)
    requires IsRun(c, states, steps) && n < |states| && w in states[n].watchers
    ensures m < n && Starts(states[m], steps[m], w, states[n].watchers[w].key)
    ensures var x := states[n].watchers[w];
            && x.started == states[m].now
            && x.next == states[m].now + (Ticks(steps, m + 1, n, w) + 1) * MINUTE
  {
    if n == 0 {
      assert false;
    }
    m := n - 1;
    ClockStep(c, states[m], steps[m], w);
    if !(steps[m].Spawn? && states[m].lock.ctx == w) {
      m := WatcherClock(c, states, steps, n - 1, w);
    }
  }

  /** So the k-th tick of a watcher comes no earlier than k minutes after its start,
      and the end of a lifetime no earlier than 24 hours after it. */
  lemma NothingIsEarly(c: H.Config, states: seq<State>, steps: seq<Step>, n: nat, w: nat) returns (m: nat)
    requires IsRun(c, states, steps) && n < |steps| && (steps[n] == Tick(w) || steps[n] == Lifetime(w))
    ensures m < n && Starts(states[m], steps[m], w, states[n].watchers[w].key)
    ensures steps[n].Tick? ==> states[n].now - states[m].now >= Ticks(steps, m + 1, n + 1, w) * 60_000
    ensures steps[n].Lifetime? ==> states[n].now - states[m].now >= 24 * 60 * 60_000
  {
    m := WatcherClock(c, states, steps, n, w);
  }

  lemma {:induction false} NextTickWithinMinute(
    c: H.Config, states: seq<State>, steps: seq<Step>, n: nat, w: nat)
    requires IsRun(c, states, steps) && n < |states| && w in states[n].watchers
    ensures states[n].watchers[w].next <= states[n].now + MINUTE
  {
    if n == 0 {
      assert false;
    }
    ClockStep(c, states[n - 1], steps[n - 1], w);
    NowStep(c, states[n - 1], steps[n - 1]);
    if w in states[n - 1].watchers {
      NextTickWithinMinute(c, states, steps, n - 1, w);
    }
  }

  /** From m to n no tunnel is cached under `key`. */
  predicate Uncached(states: seq<State>, m: nat, n: nat, key: string)
    requires n < |states|
  {
    forall j :: m <= j <= n ==> key !in states[j].sessions
  }

  lemma {:induction false} IdleWatcherWaits(
    c: H.Config, states: seq<State>, steps: seq<Step>, m: nat, n: nat, w: nat, key: string)
    requires IsRun(c, states, steps) && m <= n < |states| && Uncached(states, m, n, key)
    requires w in states[n].watchers && states[n].watchers[w].key == key
    ensures w in states[m].watchers && states[m].watchers[w] == states[n].watchers[w]
  {
    if m < n {
      ClockStep(c, states[n - 1], steps[n - 1], w);
      IdleWatcherWaits(c, states, steps, m, n - 1, w, key);
    }
  }

  lemma IdleWatcherIsYoung(
    c: H.Config, states: seq<State>, steps: seq<Step>, m: nat, n: nat, w: nat, key: string, late: nat)
    requires IsRun(c, states, steps) && m <= n < |states| && RunOnTime(states, steps, late)
    requires Uncached(states, m, n, key) && w in states[n].watchers && states[n].watchers[w].key == key
    ensures states[n].now <= states[m].now + MINUTE + late
  {
    IdleWatcherWaits(c, states, steps, m, n, w, key);
    NextTickWithinMinute(c, states, steps, m, w);
    TimedRun(c, states, steps, n, late);
    assert WatcherTimed(states[n], w, late);
  }

  /** With ticks taken at most `late` after they are due, a key that stays uncached
      for more than a minute and `late` has no watcher left. */
  lemma WatchersLeave(c: H.Config, states: seq<State>, steps: seq<Step>, m: nat, n: nat, key: string, late: nat)
    requires IsRun(c, states, steps) && m <= n < |states| && RunOnTime(states, steps, late)
    requires Uncached(states, m, n, key) && states[n].now > states[m].now + MINUTE + late
    ensures forall w :: w in states[n].watchers ==> states[n].watchers[w].key != key
  {
    if w :| w in states[n].watchers && states[n].watchers[w].key == key {
      IdleWatcherIsYoung(c, states, steps, m, n, w, key, late);
      assert false;
    }
  }
}
