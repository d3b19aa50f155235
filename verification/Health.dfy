// The health monitor's table as one value. Every function below is the effect
// of one section run under the monitor's lock (or, for the queues of launched
// goroutines, of launching one). `log` is a history of what happened to each
// key; it is written and never read.
module Health {

  datatype Config = Config(
    enabled: bool,
    maxFailures: int,
    checkInterval: nat,  // milliseconds
    timeout: nat,        // of one check's dial, milliseconds
    wired: bool)         // whether OnUnhealthy is set

  /** Raises each setting to its floor, as the configuration loader does. */
  function Clamped(c: Config): Config {
    c.(checkInterval := if c.checkInterval < 1000 then 1000 else c.checkInterval,
       timeout := if c.timeout < 100 then 100 else c.timeout,
       maxFailures := if c.maxFailures < 1 then 1 else c.maxFailures)
  }

  method ValidateHealthConfig(health: Config) returns (v: Config)
    ensures v == Clamped(health)
  {
    v := health;
    if v.checkInterval < 1000 {
      v := v.(checkInterval := 1000);
    }
    if v.timeout < 100 {
      v := v.(timeout := 100);
    }
    if v.maxFailures < 1 {
      v := v.(maxFailures := 1);
    }
  }

  datatype Status = Status(healthy: bool, lastChecked: int, failures: int, ip: string, port: int)

  datatype Check = Check(key: string, ip: string, port: int)

  datatype EventKind =
    | Created(healthy: bool)
    | Success
    | CheckFailed
    | RequestFailed
    | Stale
    | Removed
    | Launched

  datatype Event = Event(key: string, kind: EventKind, at: int)

  datatype Monitor = Monitor(
    entries: map<string, Status>,
    inflight: multiset<Check>,     // checks that have read an address and are dialling
    callbacks: multiset<string>,   // launched OnUnhealthy goroutines
    doomed: multiset<string>,      // launched delayed removals
    log: seq<Event>)

  function Empty(): Monitor {
    Monitor(map[], multiset{}, multiset{}, multiset{}, [])
  }

  function Put(m: Monitor, key: string, e: Status, events: seq<Event>): Monitor {
    m.(entries := m.entries[key := e], log := m.log + events)
  }

  /** RegisterService: an existing entry, even a blank one, is left alone. */
  function Register(c: Config, m: Monitor, key: string, ip: string, port: int, now: int): Monitor {
    if !c.enabled || key in m.entries then m
    else
      Put(m, key, Status(true, now, 0, ip, port), [Event(key, Created(true), now)])
      .(inflight := m.inflight + multiset{Check(key, ip, port)})
  }

  /** UnregisterService. */
  function Unregister(c: Config, m: Monitor, key: string, now: int): Monitor {
    if !c.enabled || key !in m.entries then m
    else m.(entries := m.entries - {key}, log := m.log + [Event(key, Removed, now)])
  }

  /** IsHealthy: the verdict is `Verdict`, and this is what asking changes. */
  function Ask(c: Config, m: Monitor, key: string, now: int): Monitor {
    if c.enabled && key in m.entries && now - m.entries[key].lastChecked > c.checkInterval * 3 then
      Put(m, key, m.entries[key].(healthy := false, lastChecked := now), [Event(key, Stale, now)])
    else m
  }

  predicate Verdict(c: Config, m: Monitor, key: string, now: int) {
    !c.enabled || (var a := Ask(c, m, key, now); key in a.entries && a.entries[key].healthy)
  }

  /** One check for each of the keys, on the address it holds now. */
  function Snapshot(entries: map<string, Status>, keys: set<string>): set<Check>
    requires keys <= entries.Keys
  {
    set k | k in keys :: Check(k, entries[k].ip, entries[k].port)
  }

  lemma SnapshotAdd(entries: map<string, Status>, keys: set<string>, key: string)
    requires keys <= entries.Keys && key in entries.Keys - keys
    ensures multiset(Snapshot(entries, keys + {key}))
         == multiset(Snapshot(entries, keys)) + multiset{Check(key, entries[key].ip, entries[key].port)}
  {
    var check := Check(key, entries[key].ip, entries[key].port);
    assert check !in Snapshot(entries, keys);
    assert Snapshot(entries, keys + {key}) == Snapshot(entries, keys) + {check};
  }

  /** performHealthChecks. */
  function StartRound(m: Monitor): Monitor {
    m.(inflight := m.inflight + multiset(Snapshot(m.entries, m.entries.Keys)))
  }

  /** A check on a key that was unregistered meanwhile first brings it back,
      blank and unhealthy. */
  function Revive(m: Monitor, key: string, now: int): Monitor {
    if key in m.entries then m
    else Put(m, key, Status(false, now, 0, "", 0), [Event(key, Created(false), now)])
  }

  /** Whether one more failed check launches OnUnhealthy for this entry. */
  predicate Launches(c: Config, e: Status) {
    e.healthy && e.failures + 1 >= c.maxFailures && c.wired
  }

  /** The entry after one more failure. */
  function Worse(c: Config, e: Status, now: int): Status {
    e.(healthy := e.healthy && e.failures + 1 < c.maxFailures,
       lastChecked := now,
       failures := e.failures + 1)
  }

  /** What a finished check does to an entry that is there. */
  function Record(c: Config, m: Monitor, chk: Check, ok: bool, now: int): Monitor
    requires chk.key in m.entries
  {
    var k, e := chk.key, m.entries[chk.key];
    var m1 := m.(inflight := m.inflight - multiset{chk});
    if ok then
      Put(m1, k, e.(healthy := true, lastChecked := now, failures := 0), [Event(k, Success, now)])
    else
      var m2 := Put(m1, k, Worse(c, e, now), [Event(k, CheckFailed, now)]);
      var m3 := if Launches(c, e)
                then m2.(callbacks := m2.callbacks + multiset{k}, log := m2.log + [Event(k, Launched, now)])
                else m2;
      if e.failures + 1 >= c.maxFailures * 3 then m3.(doomed := m3.doomed + multiset{k}) else m3
  }

  /** checkServiceHealth once the dial is over. */
  function Finish(c: Config, m: Monitor, chk: Check, ok: bool, now: int): Monitor {
    Record(c, Revive(m, chk.key, now), chk, ok, now)
  }

  /** UpdateServicePerformance: an unknown key starts healthy whatever happened. */
  function Serve(c: Config, m: Monitor, key: string, success: bool, now: int): Monitor {
    if key !in m.entries then
      Put(m, key, Status(true, now, 0, "", 0), [Event(key, Created(true), now)])
    else
      var prior := m.entries[key];
      if success then
        Put(m, key, prior.(healthy := true, lastChecked := now, failures := 0), [Event(key, Success, now)])
      else
        Put(m, key, Worse(c, prior, now), [Event(key, RequestFailed, now)])
  }

  /** The goroutine launched for a key that failed three times too often. */
  function Expunge(c: Config, m: Monitor, key: string, now: int): Monitor {
    Unregister(c, m.(doomed := m.doomed - multiset{key}), key, now)
  }

  predicate Blank(e: Status) {
    e.ip == "" && e.port == 0
  }

  /** From m to m', `k` got no new address: at most it went blank. */
  predicate AddressKept(m: Monitor, m': Monitor, k: string) {
    k in m'.entries ==>
      || Blank(m'.entries[k])
      || (k in m.entries && m'.entries[k].ip == m.entries[k].ip && m'.entries[k].port == m.entries[k].port)
  }

  /** From m to m', an entry of `k` kept its address, and a new one is blank. */
  predicate AddressFixed(m: Monitor, m': Monitor, k: string) {
    if k in m.entries then
      k in m'.entries && m'.entries[k].ip == m.entries[k].ip && m'.entries[k].port == m.entries[k].port
    else
      k in m'.entries ==> Blank(m'.entries[k])
  }

  /** At or above every floor. */
  predicate AtFloors(c: Config) {
    c.checkInterval >= 1000 && c.timeout >= 100 && c.maxFailures >= 1
  }

  predicate Below(c: Config, d: Config) {
    c.checkInterval <= d.checkInterval && c.timeout <= d.timeout && c.maxFailures <= d.maxFailures
  }

  /** Validation raises a configuration by as little as reaching the floors takes. */
  lemma ClampedIsLeast(c: Config, d: Config)
    ensures AtFloors(Clamped(c)) && Below(c, Clamped(c))
    ensures AtFloors(d) && Below(c, d) ==> Below(Clamped(c), d)
    ensures Clamped(c).enabled == c.enabled && Clamped(c).wired == c.wired
  {
  }

  /** A round launches one check for every entry, healthy or not, on the address the
      entry has then, and no other check. */
  lemma RoundChecksEveryEntry(m: Monitor, check: Check)
    ensures var due := check.key in m.entries
                       && check.ip == m.entries[check.key].ip && check.port == m.entries[check.key].port;
            StartRound(m).inflight[check] == m.inflight[check] + if due then 1 else 0
    ensures StartRound(m) == m.(inflight := StartRound(m).inflight)
  {
    var k := check.key;
    var due := k in m.entries && check.ip == m.entries[k].ip && check.port == m.entries[k].port;
    assert check in Snapshot(m.entries, m.entries.Keys) <==> due by {
      if due {
        assert check == Check(k, m.entries[k].ip, m.entries[k].port);
      }
    }
  }

  /** The limit has to be at least one for a fresh, healthy entry to be below
      it; the loader's floor sees to that. */
  lemma FreshEntryBelowLimitIff(c: Config, key: string, ip: string, port: int, now: int)
    requires c.enabled
    ensures var e := Register(c, Empty(), key, ip, port, now).entries[key];
            (e.failures >= c.maxFailures ==> !e.healthy) <==> c.maxFailures >= 1
    ensures Clamped(c).maxFailures >= 1
    ensures Clamped(c) == c <==> c.maxFailures >= 1 && c.checkInterval >= 1000 && c.timeout >= 100
  {
  }

  // Nothing but a registration gives a key an address.

  lemma RecordEntries(c: Config, m: Monitor, chk: Check, ok: bool, now: int)
    requires chk.key in m.entries
    ensures var e := m.entries[chk.key];
            Record(c, m, chk, ok, now).entries
            == m.entries[chk.key := if ok then e.(healthy := true, lastChecked := now, failures := 0) else Worse(c, e, now)]
  {
  }

  lemma ReviveKeepsAddress(m: Monitor, key: string, now: int, k: string)
    ensures AddressFixed(m, Revive(m, key, now), k)
  {
  }

  lemma RecordKeepsAddress(c: Config, m: Monitor, chk: Check, ok: bool, now: int, k: string)
    requires chk.key in m.entries
    ensures AddressFixed(m, Record(c, m, chk, ok, now), k)
  {
    RecordEntries(c, m, chk, ok, now);
  }

  lemma AddressFixedTwice(m: Monitor, m1: Monitor, m2: Monitor, k: string)
    requires AddressFixed(m, m1, k) && AddressFixed(m1, m2, k)
    ensures AddressFixed(m, m2, k) && AddressKept(m, m2, k)
  {
  }

  lemma FinishKeepsAddress(c: Config, m: Monitor, chk: Check, ok: bool, now: int, k: string)
    ensures AddressFixed(m, Finish(c, m, chk, ok, now), k) && AddressKept(m, Finish(c, m, chk, ok, now), k)
  {
    var m1 := Revive(m, chk.key, now);
    ReviveKeepsAddress(m, chk.key, now, k);
    RecordKeepsAddress(c, m1, chk, ok, now, k);
    AddressFixedTwice(m, m1, Record(c, m1, chk, ok, now), k);
  }

  lemma ServeKeepsAddress(c: Config, m: Monitor, key: string, success: bool, now: int, k: string)
    ensures AddressFixed(m, Serve(c, m, key, success, now), k) && AddressKept(m, Serve(c, m, key, success, now), k)
  {
  }

  lemma AskKeepsAddress(c: Config, m: Monitor, key: string, now: int, k: string)
    ensures AddressFixed(m, Ask(c, m, key, now), k) && AddressKept(m, Ask(c, m, key, now), k)
  {
  }

  // What a history says, read without the table.

  /** Failures of `key` since its last success or the creation of its entry. */
  function FailuresSince(log: seq<Event>, key: string): nat {
    if log == [] then 0
    else
      var e, rest := log[|log| - 1], log[..|log| - 1];
      if e.key != key then FailuresSince(rest, key)
      else match e.kind
        case CheckFailed => 1 + FailuresSince(rest, key)
        case RequestFailed => 1 + FailuresSince(rest, key)
        case Stale => FailuresSince(rest, key)
        case Launched => FailuresSince(rest, key)
        case _ => 0
  }

  /** Whether `key` has an entry. */
  predicate Present(log: seq<Event>, key: string) {
    if log == [] then false
    else
      var e, rest := log[|log| - 1], log[..|log| - 1];
      if e.key == key && e.kind.Created? then true
      else if e.key == key && e.kind.Removed? then false
      else Present(rest, key)
  }

  /** When `key` was last created, checked, served or found stale. */
  function LastSeen(log: seq<Event>, key: string): int {
    if log == [] then 0
    else
      var e := log[|log| - 1];
      if e.key == key && e.kind != Launched then e.at else LastSeen(log[..|log| - 1], key)
  }

  /** The verdict `key` should have: it takes a creation or a success to be
      healthy, and then no stale mark and fewer than `max` failures. */
  predicate Well(log: seq<Event>, key: string, max: int) {
    if log == [] then false
    else
      var e, rest := log[|log| - 1], log[..|log| - 1];
      if e.key != key then Well(rest, key, max)
      else match e.kind
        case Created(h) => h
        case Success => true
        case CheckFailed => Well(rest, key, max) && FailuresSince(log, key) < max
        case RequestFailed => Well(rest, key, max) && FailuresSince(log, key) < max
        case Launched => Well(rest, key, max)
        case _ => false
  }

  /** At position i a check took a healthy `key` to exactly `max` failures. */
  predicate Tipped(log: seq<Event>, i: nat, max: int) {
    && i < |log|
    && log[i].kind == CheckFailed
    && Well(log[..i], log[i].key, max)
    && FailuresSince(log[..i + 1], log[i].key) == max
  }

  /** Callbacks are launched right after such a check, and only then, and only if
      there is one to launch. */
  predicate LaunchesExact(c: Config, log: seq<Event>) {
    && (forall i :: 0 <= i < |log| && log[i].kind == Launched ==>
          c.wired && i > 0 && log[i].key == log[i - 1].key && Tipped(log, i - 1, c.maxFailures))
    && (forall i :: 0 <= i < |log| && c.wired && Tipped(log, i, c.maxFailures) ==>
          i + 1 < |log| && log[i + 1] == Event(log[i].key, Launched, log[i].at))
  }

  /** The table is a function of the history. */
  ghost predicate TableIsHistory(c: Config, m: Monitor) {
    forall k :: EntryIsHistory(c, m, k)
  }

  predicate EntryIsHistory(c: Config, m: Monitor, k: string) {
    && (k in m.entries <==> Present(m.log, k))
    && (k in m.entries ==>
          && m.entries[k].failures == FailuresSince(m.log, k)
          && m.entries[k].healthy == Well(m.log, k, c.maxFailures)
          && m.entries[k].lastChecked == LastSeen(m.log, k))
  }

  ghost predicate Sound(c: Config, m: Monitor) {
    TableIsHistory(c, m) && LaunchesExact(c, m.log)
  }

  lemma LogSnoc(log: seq<Event>, e: Event)
    ensures (log + [e])[..|log|] == log
    ensures forall i :: 0 <= i <= |log| ==> (log + [e])[..i] == log[..i]
  {
  }

  lemma TippedPrefix(log: seq<Event>, more: seq<Event>, max: int)
    ensures forall i :: 0 <= i < |log| ==> Tipped(log + more, i, max) == Tipped(log, i, max)
  {
    forall i | 0 <= i < |log|
      ensures Tipped(log + more, i, max) == Tipped(log, i, max)
    {
      assert (log + more)[..i] == log[..i] && (log + more)[..i + 1] == log[..i + 1];
    }
  }

  /** Recording an event that calls for no launch and is none. */
  lemma QuietEvent(c: Config, log: seq<Event>, e: Event)
    requires LaunchesExact(c, log)
    requires e.kind != Launched
    requires c.wired ==> !Tipped(log + [e], |log|, c.maxFailures)
    ensures LaunchesExact(c, log + [e])
  {
    TippedPrefix(log, [e], c.maxFailures);
  }

  /** Recording a check that tips its key over, and the launch after it. */
  lemma TippingEvent(c: Config, log: seq<Event>, key: string, at: int)
    requires LaunchesExact(c, log) && c.wired
    requires Tipped(log + [Event(key, CheckFailed, at)], |log|, c.maxFailures)
    ensures LaunchesExact(c, log + [Event(key, CheckFailed, at), Event(key, Launched, at)])
  {
    var log1 := log + [Event(key, CheckFailed, at)];
    var log2 := log + [Event(key, CheckFailed, at), Event(key, Launched, at)];
    assert log2 == log1 + [Event(key, Launched, at)];
    TippedPrefix(log, [Event(key, CheckFailed, at)], c.maxFailures);
    TippedPrefix(log1, [Event(key, Launched, at)], c.maxFailures);
    forall i | 0 <= i < |log2| && log2[i].kind == Launched
      ensures i > 0 && log2[i].key == log2[i - 1].key && Tipped(log2, i - 1, c.maxFailures)
    {
      if i < |log| {
        assert log[i] == log2[i] && Tipped(log, i - 1, c.maxFailures);
      }
    }
    forall i | 0 <= i < |log2| && c.wired && Tipped(log2, i, c.maxFailures)
      ensures i + 1 < |log2| && log2[i + 1] == Event(log2[i].key, Launched, log2[i].at)
    {
      if i < |log| {
        assert Tipped(log, i, c.maxFailures);
      }
    }
  }

  /** Healthy keys are short of the limit, which makes a launch exact. */
  lemma {:induction false} WellBelowMax(log: seq<Event>, key: string, max: int)
    requires max >= 1
    ensures Well(log, key, max) ==> FailuresSince(log, key) < max
  {
    if log != [] {
      WellBelowMax(log[..|log| - 1], key, max);
    }
  }

  lemma SoundInit(c: Config)
    ensures Sound(c, Empty())
  {
  }

  /** What event e does to its key's entry, and to no other. */
  predicate Effect(c: Config, m: Monitor, m': Monitor, e: Event) {
    var k := e.key;
    && m'.log == m.log + [e]
    && m'.entries - {k} == m.entries - {k}
    && match e.kind
       case Removed => k !in m'.entries
       case Launched => false
       case Created(h) =>
         && k in m'.entries && m'.entries[k].failures == 0 && m'.entries[k].healthy == h
         && m'.entries[k].lastChecked == e.at
       case kind =>
         && k in m.entries && k in m'.entries
         && m'.entries[k].lastChecked == e.at
         && (var x, x' := m.entries[k], m'.entries[k];
             if kind == Success then x'.failures == 0 && x'.healthy
             else if kind == Stale then x'.failures == x.failures && !x'.healthy
             else
               && x'.failures == x.failures + 1
               && x'.healthy == (x.healthy && x'.failures < c.maxFailures))
  }

  lemma EffectOnEntry(c: Config, m: Monitor, m': Monitor, e: Event, k: string)
    requires EntryIsHistory(c, m, k) && Effect(c, m, m', e)
    ensures EntryIsHistory(c, m', k)
  {
    LogSnoc(m.log, e);
    if k != e.key {
      assert k in m.entries <==> k in m.entries - {e.key};
      assert k in m'.entries <==> k in m'.entries - {e.key};
      assert k in m.entries ==> (m.entries - {e.key})[k] == m.entries[k];
      assert k in m'.entries ==> (m'.entries - {e.key})[k] == m'.entries[k];
    }
  }

  lemma SoundEvent(c: Config, m: Monitor, m': Monitor, e: Event)
    requires Sound(c, m) && Effect(c, m, m', e)
    requires c.wired ==> !Tipped(m'.log, |m.log|, c.maxFailures)
    ensures Sound(c, m')
  {
    QuietEvent(c, m.log, e);
    forall k {
      EffectOnEntry(c, m, m', e, k);
    }
  }

  lemma SoundSame(c: Config, m: Monitor, m': Monitor)
    requires Sound(c, m) && m'.entries == m.entries && m'.log == m.log
    ensures Sound(c, m')
  {
    forall k
      ensures EntryIsHistory(c, m', k)
    {
      assert EntryIsHistory(c, m, k);
    }
  }

  lemma SoundRegister(c: Config, m: Monitor, key: string, ip: string, port: int, now: int)
    requires Sound(c, m)
    ensures Sound(c, Register(c, m, key, ip, port, now))
  {
    if c.enabled && key !in m.entries {
      SoundEvent(c, m, Register(c, m, key, ip, port, now), Event(key, Created(true), now));
    }
  }

  lemma SoundUnregister(c: Config, m: Monitor, key: string, now: int)
    requires Sound(c, m)
    ensures Sound(c, Unregister(c, m, key, now))
  {
    if c.enabled && key in m.entries {
      SoundEvent(c, m, Unregister(c, m, key, now), Event(key, Removed, now));
    }
  }

  lemma SoundAsk(c: Config, m: Monitor, key: string, now: int)
    requires Sound(c, m)
    ensures Sound(c, Ask(c, m, key, now))
  {
    var m' := Ask(c, m, key, now);
    if m' != m {
      SoundEvent(c, m, m', Event(key, Stale, now));
    }
  }

  lemma SoundServe(c: Config, m: Monitor, key: string, success: bool, now: int)
    requires Sound(c, m)
    ensures Sound(c, Serve(c, m, key, success, now))
  {
    var kind := if key !in m.entries then Created(true) else if success then Success else RequestFailed;
    SoundEvent(c, m, Serve(c, m, key, success, now), Event(key, kind, now));
  }

  lemma SoundRevive(c: Config, m: Monitor, key: string, now: int)
    requires Sound(c, m)
    ensures Sound(c, Revive(m, key, now))
  {
    if key !in m.entries {
      SoundEvent(c, m, Revive(m, key, now), Event(key, Created(false), now));
    }
  }

  /** A failed check on a present entry tips it over, in the history's terms,
      exactly when the table says so. */
  lemma FailedCheckTips(c: Config, m: Monitor, key: string, at: int)
    requires Sound(c, m) && key in m.entries && c.maxFailures >= 1
    ensures Tipped(m.log + [Event(key, CheckFailed, at)], |m.log|, c.maxFailures) ==
            (m.entries[key].healthy && m.entries[key].failures + 1 >= c.maxFailures)
  {
    var e := Event(key, CheckFailed, at);
    assert EntryIsHistory(c, m, key);
    WellBelowMax(m.log, key, c.maxFailures);
    LogSnoc(m.log, e);
    assert (m.log + [e])[..|m.log| + 1] == m.log + [e];
  }

  lemma LaunchOnEntry(c: Config, m1: Monitor, m2: Monitor, key: string, at: int, k: string)
    requires EntryIsHistory(c, m1, k)
    requires m2.entries == m1.entries && m2.log == m1.log + [Event(key, Launched, at)]
    ensures EntryIsHistory(c, m2, k)
  {
    LogSnoc(m1.log, Event(key, Launched, at));
  }

  /** A launch after a tipping check changes no entry and balances the history. */
  lemma SoundLaunch(c: Config, m: Monitor, m1: Monitor, m2: Monitor, key: string, at: int)
    requires Sound(c, m) && Effect(c, m, m1, Event(key, CheckFailed, at)) && c.wired
    requires Tipped(m1.log, |m.log|, c.maxFailures)
    requires m2.entries == m1.entries && m2.log == m1.log + [Event(key, Launched, at)]
    ensures Sound(c, m2)
  {
    assert m2.log == m.log + [Event(key, CheckFailed, at), Event(key, Launched, at)];
    TippingEvent(c, m.log, key, at);
    forall k
      ensures EntryIsHistory(c, m2, k)
    {
      assert EntryIsHistory(c, m, k);
      EffectOnEntry(c, m, m1, Event(key, CheckFailed, at), k);
      LaunchOnEntry(c, m1, m2, key, at, k);
    }
  }

  lemma SoundFailure(c: Config, m: Monitor, chk: Check, now: int)
    requires Sound(c, m) && chk.key in m.entries && c.maxFailures >= 1
    ensures Sound(c, Record(c, m, chk, false, now))
  {
    var m', e := Record(c, m, chk, false, now), Event(chk.key, CheckFailed, now);
    FailedCheckTips(c, m, chk.key, now);
    if Launches(c, m.entries[chk.key]) {
      SoundLaunch(c, m, m'.(log := m.log + [e]), m', chk.key, now);
    } else {
      SoundEvent(c, m, m', e);
    }
  }

  lemma SoundRecord(c: Config, m: Monitor, chk: Check, ok: bool, now: int)
    requires Sound(c, m) && chk.key in m.entries && c.maxFailures >= 1
    ensures Sound(c, Record(c, m, chk, ok, now))
  {
    if ok {
      SoundEvent(c, m, Record(c, m, chk, true, now), Event(chk.key, Success, now));
    } else {
      SoundFailure(c, m, chk, now);
    }
  }

  lemma SoundFinish(c: Config, m: Monitor, chk: Check, ok: bool, now: int)
    requires Sound(c, m) && c.maxFailures >= 1
    ensures Sound(c, Finish(c, m, chk, ok, now))
  {
    SoundRevive(c, m, chk.key, now);
    SoundRecord(c, Revive(m, chk.key, now), chk, ok, now);
  }

  /** IsHealthy answers yes exactly for a key whose history makes it well and whose
      last event is at most three check intervals old; asking again at once gives
      the same answer. */
  lemma VerdictIsHistory(c: Config, m: Monitor, key: string, now: int)
    requires Sound(c, m) && c.enabled
    ensures Verdict(c, m, key, now) <==>
            && Present(m.log, key) && Well(m.log, key, c.maxFailures)
            && now - LastSeen(m.log, key) <= 3 * c.checkInterval
    ensures Verdict(c, Ask(c, m, key, now), key, now) == Verdict(c, m, key, now)
  {
    assert EntryIsHistory(c, m, key);
  }

  /** A finished check schedules a removal exactly when it failed and the
      history then counts at least three times the limit of failures. */
  lemma DoomedIff(c: Config, m: Monitor, chk: Check, ok: bool, now: int)
    requires Sound(c, m) && c.maxFailures >= 1
    ensures var m' := Finish(c, m, chk, ok, now);
            && (m'.doomed == m.doomed + multiset{chk.key} || m'.doomed == m.doomed)
            && (m'.doomed != m.doomed <==> !ok && FailuresSince(m'.log, chk.key) >= 3 * c.maxFailures)
  {
    var m' := Finish(c, m, chk, ok, now);
    SoundFinish(c, m, chk, ok, now);
    assert EntryIsHistory(c, m', chk.key);
    assert (m.doomed + multiset{chk.key})[chk.key] == m.doomed[chk.key] + 1;
  }

  /** A key that was not well and is well again was created or succeeded. */
  lemma {:induction false} RecoveryHasCause(log: seq<Event>, a: nat, b: nat, key: string, max: int)
    returns (i: nat)
    requires a <= b <= |log|
    requires !Well(log[..a], key, max) && Well(log[..b], key, max)
    ensures a <= i < b && log[i].key == key && log[i].kind in {Success, Created(true)}
    decreases b
  {
    var last := log[b - 1];
    assert log[..b][..b - 1] == log[..b - 1];
    if last.key == key && last.kind in {Success, Created(true)} {
      i := b - 1;
    } else {
      i := RecoveryHasCause(log, a, b - 1, key, max);
    }
  }

  /** Between two launches for a key it succeeded or was created afresh. */
  lemma LaunchesSeparated(c: Config, log: seq<Event>, i: nat, j: nat) returns (r: nat)
    requires LaunchesExact(c, log) && c.maxFailures >= 1
    requires i < j < |log| && log[i].kind == Launched && log[j].kind == Launched && log[j].key == log[i].key
    ensures i < r < j && log[r].key == log[i].key && log[r].kind in {Success, Created(true)}
  {
    var k := log[i].key;
    WellBelowMax(log[..i], k, c.maxFailures);
    assert log[..i + 1][..i] == log[..i];
    assert !Well(log[..i + 1], k, c.maxFailures);
    assert Tipped(log, j - 1, c.maxFailures);
    r := RecoveryHasCause(log, i + 1, j - 1, k, c.maxFailures);
  }
}
