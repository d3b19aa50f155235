// The health monitor over runs of the tunnels: its history is told by the steps
// alone, and every goroutine it launches is waiting or has run.
module MonitorRuns {
  import opened Text
  import opened TunnelKeys
  import T = Tunnels
  import opened Health

  // Verdicts.

  lemma SoundStep(c: Config, s: T.State, step: T.Step)
    requires Sound(c, s.mon) && c.maxFailures >= 1 && T.Enabled(c, s, step)
    ensures Sound(c, T.Next(c, s, step).mon)
  {
    match step
    case Look(t) => SoundAsk(c, s.mon, Key(t), s.now);
    case Forget => SoundUnregister(c, s.mon, s.lock.key, s.now);
    case Register =>
      var k := Key(s.lock.target);
      SoundRegister(c, s.mon, k, s.sessions[k].ip, s.sessions[k].port, s.now);
    case StopOne(k) => SoundUnregister(c, s.mon, k, s.now);
    case Callback(k) => SoundSame(c, s.mon, s.mon.(callbacks := s.mon.callbacks - multiset{k}));
    case Round => SoundSame(c, s.mon, StartRound(s.mon));
    case Finish(chk, ok) => SoundFinish(c, s.mon, chk, ok, s.now);
    case Expunge(k) =>
      var m := s.mon.(doomed := s.mon.doomed - multiset{k});
      SoundSame(c, s.mon, m);
      SoundUnregister(c, m, k, s.now);
    case Serve(k, success) => SoundServe(c, s.mon, k, success, s.now);
    case _ =>
  }

  lemma {:induction false} SoundRun(c: Config, states: seq<T.State>, steps: seq<T.Step>, i: nat)
    requires T.IsRun(c, states, steps) && i < |states| && c.maxFailures >= 1
    ensures Sound(c, states[i].mon)
  {
    if i == 0 {
      SoundInit(c);
    } else {
      SoundRun(c, states, steps, i - 1);
      SoundStep(c, states[i - 1], steps[i - 1]);
    }
  }

  /** Health verdicts match the history over every run: an entry's failure count
      is the failures since its last success or creation, at the limit it is
      unhealthy, and every launch of OnUnhealthy is a check that took a healthy
      key to exactly the limit. */
  lemma VerdictsMatchHistory(c: Config, states: seq<T.State>, steps: seq<T.Step>, i: nat)
    requires T.IsRun(c, states, steps) && i < |states| && c.maxFailures >= 1
    ensures var m := states[i].mon;
            && LaunchesExact(c, m.log)
            && forall k :: k in m.entries ==>
                 && m.entries[k].failures == FailuresSince(m.log, k)
                 && (m.entries[k].failures >= c.maxFailures ==> !m.entries[k].healthy)
  {
    SoundRun(c, states, steps, i);
    var m := states[i].mon;
    forall k | k in m.entries
      ensures m.entries[k].failures == FailuresSince(m.log, k)
      ensures m.entries[k].failures >= c.maxFailures ==> !m.entries[k].healthy
    {
      assert EntryIsHistory(c, m, k);
      WellBelowMax(m.log, k, c.maxFailures);
    }
  }

  // The history, told without the table.

  /** One use of the monitor that may be recorded. */
  datatype Use =
    | Registering(key: string)
    | Unregistering(key: string)
    | Asking(key: string)
    | Serving(key: string, success: bool)
    | Checked(key: string, ok: bool)

  /** What a finished check records of an entry that is there. */
  function Verdicts(c: Config, log: seq<Event>, key: string, ok: bool, now: int): seq<Event> {
    if ok then [Event(key, Success, now)]
    else if c.wired && Well(log, key, c.maxFailures) && FailuresSince(log, key) + 1 >= c.maxFailures then
      [Event(key, CheckFailed, now), Event(key, Launched, now)]
    else [Event(key, CheckFailed, now)]
  }

  /** What a use records, going by the history alone. */
  function Told(c: Config, log: seq<Event>, use: Use, now: int): seq<Event> {
    match use
    case Registering(k) => if c.enabled && !Present(log, k) then [Event(k, Created(true), now)] else []
    case Unregistering(k) => if c.enabled && Present(log, k) then [Event(k, Removed, now)] else []
    case Asking(k) =>
      if c.enabled && Present(log, k) && now - LastSeen(log, k) > 3 * c.checkInterval then [Event(k, Stale, now)] else []
    case Serving(k, success) =>
      [Event(k, if !Present(log, k) then Created(true) else if success then Success else RequestFailed, now)]
    case Checked(k, ok) =>
      if Present(log, k) then Verdicts(c, log, k, ok, now)
      else [Event(k, Created(false), now)] + Verdicts(c, log + [Event(k, Created(false), now)], k, ok, now)
  }

  lemma ToldRegistering(c: Config, m: Monitor, key: string, ip: string, port: int, now: int)
    requires Sound(c, m)
    ensures Register(c, m, key, ip, port, now).log == m.log + Told(c, m.log, Registering(key), now)
  {
    assert EntryIsHistory(c, m, key);
  }

  lemma ToldUnregistering(c: Config, m: Monitor, key: string, now: int)
    requires Sound(c, m)
    ensures Unregister(c, m, key, now).log == m.log + Told(c, m.log, Unregistering(key), now)
  {
    assert EntryIsHistory(c, m, key);
  }

  lemma ToldAsking(c: Config, m: Monitor, key: string, now: int)
    requires Sound(c, m)
    ensures Ask(c, m, key, now).log == m.log + Told(c, m.log, Asking(key), now)
  {
    assert EntryIsHistory(c, m, key);
  }

  lemma ToldServing(c: Config, m: Monitor, key: string, success: bool, now: int)
    requires Sound(c, m)
    ensures Serve(c, m, key, success, now).log == m.log + Told(c, m.log, Serving(key, success), now)
  {
    assert EntryIsHistory(c, m, key);
  }

  lemma ToldRecording(c: Config, m: Monitor, chk: Check, ok: bool, now: int)
    requires Sound(c, m) && chk.key in m.entries
    ensures Record(c, m, chk, ok, now).log == m.log + Verdicts(c, m.log, chk.key, ok, now)
  {
    assert EntryIsHistory(c, m, chk.key);
  }

  lemma ToldChecked(c: Config, m: Monitor, chk: Check, ok: bool, now: int)
    requires Sound(c, m)
    ensures Finish(c, m, chk, ok, now).log == m.log + Told(c, m.log, Checked(chk.key, ok), now)
  {
    assert EntryIsHistory(c, m, chk.key);
    var m1 := Revive(m, chk.key, now);
    SoundRevive(c, m, chk.key, now);
    ToldRecording(c, m1, chk, ok, now);
  }

  /** The use a step of the tunnels makes of the monitor, if it makes one. */
  function UseOf(s: T.State, step: T.Step): Option<Use> {
    match step
    case Look(t) => if Key(t) in s.sessions then Some(Asking(Key(t))) else None
    case Forget => if s.lock.Forgetting? then Some(Unregistering(s.lock.key)) else None
    case Register => if s.lock.Registering? then Some(Registering(Key(s.lock.target))) else None
    case StopOne(k) => Some(Unregistering(k))
    case Finish(chk, ok) => Some(Checked(chk.key, ok))
    case Expunge(k) => Some(Unregistering(k))
    case Serve(k, success) => Some(Serving(k, success))
    case _ => None
  }

  function ToldBy(c: Config, s: T.State, step: T.Step): seq<Event> {
    var use := UseOf(s, step);
    if use.None? then [] else Told(c, s.mon.log, use.value, s.now)
  }

  /** Over every run a step adds to the history exactly what it tells, which the
      earlier history decides, stamped with the present time. */
  lemma HistoryIsTold(c: Config, states: seq<T.State>, steps: seq<T.Step>, i: nat)
    requires T.IsRun(c, states, steps) && i < |steps| && c.maxFailures >= 1
    ensures states[i + 1].mon.log == states[i].mon.log + ToldBy(c, states[i], steps[i])
  {
    SoundRun(c, states, steps, i);
    ToldStep(c, states[i], steps[i]);
  }

  lemma ToldStep(c: Config, s: T.State, step: T.Step)
    requires Sound(c, s.mon) && T.Enabled(c, s, step)
    ensures T.Next(c, s, step).mon.log == s.mon.log + ToldBy(c, s, step)
  {
    match step
    case Look(t) => ToldAsking(c, s.mon, Key(t), s.now);
    case Forget => ToldUnregistering(c, s.mon, s.lock.key, s.now);
    case Register =>
      var k := Key(s.lock.target);
      ToldRegistering(c, s.mon, k, s.sessions[k].ip, s.sessions[k].port, s.now);
    case StopOne(k) => ToldUnregistering(c, s.mon, k, s.now);
    case Finish(chk, ok) => ToldChecked(c, s.mon, chk, ok, s.now);
    case Expunge(k) =>
      var m := s.mon.(doomed := s.mon.doomed - multiset{k});
      SoundSame(c, s.mon, m);
      ToldUnregistering(c, m, k, s.now);
    case Serve(k, success) => ToldServing(c, s.mon, k, success, s.now);
    case _ =>
  }

  // The goroutines.

  /** OnUnhealthy launches for `key`. */
  function CountLaunched(log: seq<Event>, key: string): nat {
    if log == [] then 0
    else
      CountLaunched(log[..|log| - 1], key)
      + if log[|log| - 1].key == key && log[|log| - 1].kind == Launched then 1 else 0
  }

  /** Failed checks of `key` that bring it to `limit` failures or more. */
  function CountOverdue(log: seq<Event>, key: string, limit: int): nat {
    if log == [] then 0
    else
      CountOverdue(log[..|log| - 1], key, limit)
      + if log[|log| - 1].key == key && log[|log| - 1].kind == CheckFailed && FailuresSince(log, key) >= limit
        then 1 else 0
  }

  lemma CountSnoc(log: seq<Event>, e: Event, key: string, limit: int)
    ensures CountLaunched(log + [e], key)
            == CountLaunched(log, key) + if e.key == key && e.kind == Launched then 1 else 0
    ensures CountOverdue(log + [e], key, limit)
            == CountOverdue(log, key, limit)
               + if e.key == key && e.kind == CheckFailed && FailuresSince(log + [e], key) >= limit then 1 else 0
  {
    LogSnoc(log, e);
  }

  lemma FailuresSnoc(log: seq<Event>, key: string, at: int)
    ensures FailuresSince(log + [Event(key, CheckFailed, at)], key) == FailuresSince(log, key) + 1
  {
    LogSnoc(log, Event(key, CheckFailed, at));
  }

  /** How many of the first n steps satisfy p, given the states they start from. */
  ghost function Times(states: seq<T.State>, steps: seq<T.Step>, n: nat, p: (T.State, T.Step) -> bool): nat
    requires n <= |steps| < |states|
  {
    if n == 0 then 0
    else Times(states, steps, n - 1, p) + if p(states[n - 1], steps[n - 1]) then 1 else 0
  }

  /** A step that launches a check of that address: a round that finds it in the
      table, or a registration that puts it there. */
  function LaunchesCheck(c: Config, chk: Check): (T.State, T.Step) -> bool {
    (s: T.State, step: T.Step) =>
      match step
      case Round =>
        chk.key in s.mon.entries && s.mon.entries[chk.key].ip == chk.ip && s.mon.entries[chk.key].port == chk.port
      case Register =>
        && s.lock.Registering? && chk.key == Key(s.lock.target) && c.enabled && chk.key !in s.mon.entries
        && chk.key in s.sessions && s.sessions[chk.key].ip == chk.ip && s.sessions[chk.key].port == chk.port
      case _ => false
  }

  function EndsCheck(chk: Check): (T.State, T.Step) -> bool {
    (s: T.State, step: T.Step) => step.Finish? && step.check == chk
  }

  lemma CheckRegister(c: Config, s: T.State, chk: Check)
    requires T.Enabled(c, s, T.Register)
    ensures T.Next(c, s, T.Register).mon.inflight[chk]
            == s.mon.inflight[chk] + if LaunchesCheck(c, chk)(s, T.Register) then 1 else 0
  {
  }

  lemma OthersLaunchNoCheck(c: Config, s: T.State, step: T.Step)
    requires T.Enabled(c, s, step) && !step.Round? && !step.Register? && !step.Finish?
    ensures T.Next(c, s, step).mon.inflight == s.mon.inflight
  {
  }

  lemma CheckFinish(c: Config, s: T.State, step: T.Step, chk: Check)
    requires T.Enabled(c, s, step) && step.Finish?
    ensures T.Next(c, s, step).mon.inflight[chk] + (if step.check == chk then 1 else 0) == s.mon.inflight[chk]
  {
  }

  lemma CheckStep(c: Config, s: T.State, step: T.Step, chk: Check)
    requires T.Enabled(c, s, step)
    ensures T.Next(c, s, step).mon.inflight[chk] + (if EndsCheck(chk)(s, step) then 1 else 0)
            == s.mon.inflight[chk] + if LaunchesCheck(c, chk)(s, step) then 1 else 0
  {
    match step
    case Round => RoundChecksEveryEntry(s.mon, chk);
    case Register => CheckRegister(c, s, chk);
    case Finish(_, _) => CheckFinish(c, s, step, chk);
    case _ => OthersLaunchNoCheck(c, s, step);
  }

  /** Over every run each check launched for an address has finished or is in
      flight: a round launches one for every entry, a registration one for a new
      entry, and nothing else does. */
  lemma {:induction false} ChecksConserved(c: Config, states: seq<T.State>, steps: seq<T.Step>, i: nat, chk: Check)
    requires T.IsRun(c, states, steps) && i <= |steps|
    ensures states[i].mon.inflight[chk] + Times(states, steps, i, EndsCheck(chk))
            == Times(states, steps, i, LaunchesCheck(c, chk))
  {
    if i > 0 {
      ChecksConserved(c, states, steps, i - 1, chk);
      CheckStep(c, states[i - 1], steps[i - 1], chk);
    }
  }

  /** The goroutines launched for `key` as the history has them: those waiting and
      those that have run. */
  predicate Waiting(c: Config, m: Monitor, key: string, callbacks: int, removals: int) {
    && m.callbacks[key] + callbacks == CountLaunched(m.log, key)
    && m.doomed[key] + removals == CountOverdue(m.log, key, 3 * c.maxFailures)
  }

  /** Recording an event that launches nothing. */
  lemma WaitingEvent(c: Config, m: Monitor, m': Monitor, e: Event, key: string, callbacks: int, removals: int)
    requires Waiting(c, m, key, callbacks, removals) && e.kind != Launched && e.kind != CheckFailed
    requires m'.log == m.log + [e] && m'.callbacks == m.callbacks && m'.doomed == m.doomed
    ensures Waiting(c, m', key, callbacks, removals)
  {
    CountSnoc(m.log, e, key, 3 * c.maxFailures);
  }

  lemma WaitingFailure(c: Config, m: Monitor, chk: Check, now: int, key: string, callbacks: int, removals: int)
    requires Sound(c, m) && chk.key in m.entries && Waiting(c, m, key, callbacks, removals)
    ensures Waiting(c, Record(c, m, chk, false, now), key, callbacks, removals)
  {
    var k, limit := chk.key, 3 * c.maxFailures;
    var failed, launched := Event(k, CheckFailed, now), Event(k, Launched, now);
    assert EntryIsHistory(c, m, k);
    FailuresSnoc(m.log, k, now);
    CountSnoc(m.log, failed, key, limit);
    CountSnoc(m.log + [failed], launched, key, limit);
  }

  lemma WaitingFinish(c: Config, m: Monitor, chk: Check, ok: bool, now: int, key: string, callbacks: int, removals: int)
    requires Sound(c, m) && Waiting(c, m, key, callbacks, removals)
    ensures Waiting(c, Finish(c, m, chk, ok, now), key, callbacks, removals)
  {
    var m1 := Revive(m, chk.key, now);
    SoundRevive(c, m, chk.key, now);
    if chk.key !in m.entries {
      WaitingEvent(c, m, m1, Event(chk.key, Created(false), now), key, callbacks, removals);
    }
    if ok {
      WaitingEvent(c, m1, Record(c, m1, chk, ok, now), Event(chk.key, Success, now), key, callbacks, removals);
    } else {
      WaitingFailure(c, m1, chk, now, key, callbacks, removals);
    }
  }

  /** Steps other than a finished check run a waiting goroutine or none, */
  lemma QuietQueues(c: Config, s: T.State, step: T.Step, key: string)
    requires T.Enabled(c, s, step) && !step.Finish?
    ensures var m, m' := s.mon, T.Next(c, s, step).mon;
            && m'.callbacks[key] + (if step == T.Callback(key) then 1 else 0) == m.callbacks[key]
            && m'.doomed[key] + (if step == T.Expunge(key) then 1 else 0) == m.doomed[key]
  {
  }

  /** and record at most one event, none that launches anything. */
  lemma QuietLog(c: Config, s: T.State, step: T.Step)
    requires T.Enabled(c, s, step) && !step.Finish?
    ensures var log, log' := s.mon.log, T.Next(c, s, step).mon.log;
            || log' == log
            || (&& |log'| == |log| + 1 && log' == log + [log'[|log|]]
                && log'[|log|].kind != Launched && log'[|log|].kind != CheckFailed)
  {
  }

  lemma WaitingQuiet(c: Config, m: Monitor, m': Monitor, key: string, callbacks: int, removals: int,
                     ran: bool, removed: bool)
    requires Waiting(c, m, key, callbacks, removals)
    requires || m'.log == m.log
             || (&& |m'.log| == |m.log| + 1 && m'.log == m.log + [m'.log[|m.log|]]
                 && m'.log[|m.log|].kind != Launched && m'.log[|m.log|].kind != CheckFailed)
    requires m'.callbacks[key] + (if ran then 1 else 0) == m.callbacks[key]
    requires m'.doomed[key] + (if removed then 1 else 0) == m.doomed[key]
    ensures Waiting(c, m', key, callbacks + (if ran then 1 else 0), removals + if removed then 1 else 0)
  {
    if m'.log != m.log {
      CountSnoc(m.log, m'.log[|m.log|], key, 3 * c.maxFailures);
    }
  }

  lemma WaitingStep(c: Config, s: T.State, step: T.Step, key: string, callbacks: int, removals: int)
    requires Sound(c, s.mon) && T.Enabled(c, s, step) && Waiting(c, s.mon, key, callbacks, removals)
    ensures Waiting(c, T.Next(c, s, step).mon, key,
                    callbacks + (if step == T.Callback(key) then 1 else 0),
                    removals + if step == T.Expunge(key) then 1 else 0)
  {
    if step.Finish? {
      WaitingFinish(c, s.mon, step.check, step.ok, s.now, key, callbacks, removals);
    } else {
      QuietQueues(c, s, step, key);
      QuietLog(c, s, step);
      WaitingQuiet(c, s.mon, T.Next(c, s, step).mon, key, callbacks, removals,
                   step == T.Callback(key), step == T.Expunge(key));
    }
  }

  /** How often the step occurs among the first n. */
  function Occurs(steps: seq<T.Step>, n: nat, step: T.Step): nat
    requires n <= |steps|
  {
    if n == 0 then 0 else Occurs(steps, n - 1, step) + if steps[n - 1] == step then 1 else 0
  }

  /** Over every run each OnUnhealthy launch in the history, and each delayed removal
      that a failed check at three times the limit calls for, has run or is waiting. */
  lemma {:induction false} LaunchesConserved(c: Config, states: seq<T.State>, steps: seq<T.Step>, i: nat, key: string)
    requires T.IsRun(c, states, steps) && i <= |steps| && c.maxFailures >= 1
    ensures Waiting(c, states[i].mon, key, Occurs(steps, i, T.Callback(key)), Occurs(steps, i, T.Expunge(key)))
  {
    if i > 0 {
      LaunchesConserved(c, states, steps, i - 1, key);
      SoundRun(c, states, steps, i - 1);
      WaitingStep(c, states[i - 1], steps[i - 1], key,
                  Occurs(steps, i - 1, T.Callback(key)), Occurs(steps, i - 1, T.Expunge(key)));
    }
  }
}
