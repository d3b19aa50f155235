// Which addresses the health monitor holds: those of cached tunnels, as long as no
// forced refresh does harm.
module MonitorAddresses {
  import opened Text
  import opened TunnelKeys
  import opened Tunnels
  import H = Health

  /** A state in which Forget or Stop still has to tell the monitor about `key`. */
  predicate Untold(s: State, key: string) {
    s.lock.Forgetting? && s.lock.key == key
  }

  predicate MatchesSession(s: State, key: string, e: H.Status) {
    key in s.sessions && e.ip == s.sessions[key].ip && e.port == s.sessions[key].port
  }

  /** An entry that holds the address of a tunnel holds the cached one's. */
  ghost predicate FaithfulAt(c: H.Config, s: State, k: string) {
    k in s.mon.entries ==>
      || H.Blank(s.mon.entries[k])
      || (c.enabled && (Untold(s, k) || (MatchesSession(s, k, s.mon.entries[k]) && Kept(s, k))))
  }

  ghost predicate Faithful(c: H.Config, s: State) {
    forall k :: FaithfulAt(c, s, k)
  }

  lemma FaithfulMonitorStep(c: H.Config, s: State, s': State, k: string)
    requires FaithfulAt(c, s, k)
    requires s' == s.(mon := s'.mon, now := s'.now) && H.AddressKept(s.mon, s'.mon, k)
    ensures FaithfulAt(c, s', k)
  {
  }

  lemma FaithfulStep(c: H.Config, s: State, step: Step, k: string)
    requires Shaped(s) && FaithfulAt(c, s, k) && Enabled(c, s, step)
    requires !step.ForceRefresh?
    ensures FaithfulAt(c, Next(c, s, step), k)
  {
    var s' := Next(c, s, step);
    match step
    case Advance(_) => FaithfulMonitorStep(c, s, s', k);
    case Round => FaithfulMonitorStep(c, s, s', k);
    case Finish(chk, ok) =>
      H.FinishKeepsAddress(c, s.mon, chk, ok, s.now, k);
      FaithfulMonitorStep(c, s, s', k);
    case Expunge(key) => FaithfulMonitorStep(c, s, s', k);
    case Serve(key, success) =>
      H.ServeKeepsAddress(c, s.mon, key, success, s.now, k);
      FaithfulMonitorStep(c, s, s', k);
    case Look(t) => FaithfulLook(c, s, t, k);
    case Tick(_) => FaithfulRemoval(c, s, step, k);
    case Lifetime(_) => FaithfulRemoval(c, s, step, k);
    case Callback(_) => FaithfulRemoval(c, s, step, k);
    case Invalidate(_) => FaithfulRemoval(c, s, step, k);
    case Forget => FaithfulTelling(c, s, step, k);
    case Register => FaithfulTelling(c, s, step, k);
    case StopBegin => FaithfulTelling(c, s, step, k);
    case StopOne(_) => FaithfulTelling(c, s, step, k);
    case StopEnd => FaithfulTelling(c, s, step, k);
    case _ => FaithfulEnsure(c, s, step, k);
  }

  lemma FaithfulRemoval(c: H.Config, s: State, step: Step, k: string)
    requires FaithfulAt(c, s, k) && Enabled(c, s, step) && Removal(step)
    ensures FaithfulAt(c, Next(c, s, step), k)
  {
    RemovalDrops(c, s, step);
  }

  lemma FaithfulLook(c: H.Config, s: State, t: Target, k: string)
    requires Shaped(s) && FaithfulAt(c, s, k) && Enabled(c, s, Look(t))
    ensures FaithfulAt(c, Next(c, s, Look(t)), k)
  {
    H.AskKeepsAddress(c, s.mon, Key(t), s.now, k);
  }

  /** The steps of Stop, and those of Ensure and removals that tell the monitor. */
  lemma FaithfulTelling(c: H.Config, s: State, step: Step, k: string)
    requires Shaped(s) && FaithfulAt(c, s, k) && Enabled(c, s, step)
    requires step.Forget? || step.Register? || step.StopBegin? || step.StopOne? || step.StopEnd?
    ensures FaithfulAt(c, Next(c, s, step), k)
  {
  }

  /** The rest of Ensure. */
  lemma FaithfulEnsure(c: H.Config, s: State, step: Step, k: string)
    requires Shaped(s) && FaithfulAt(c, s, k) && Enabled(c, s, step)
    requires step.Judge? || step.Dial? || step.SetupFails? || step.SetupStarts? || step.Insert? || step.Spawn?
    ensures FaithfulAt(c, Next(c, s, step), k)
  {
  }

  /** A forced refresh whose key was not cached, or for which the monitor had no
      address, and any other step. */
  predicate Harmless(s: State, step: Step) {
    step.ForceRefresh? ==>
      var k := Key(Target(step.service, step.namespace, 0));
      k !in s.sessions || k !in s.mon.entries || H.Blank(s.mon.entries[k])
  }

  lemma FaithfulStepIff(c: H.Config, s: State, step: Step)
    requires Owned(s) && Faithful(c, s) && Enabled(c, s, step)
    ensures Faithful(c, Next(c, s, step)) <==> Harmless(s, step)
  {
    if step.ForceRefresh? {
      ForceRefreshKeepsFaithIff(c, s, step.service, step.namespace);
    } else {
      forall k
        ensures FaithfulAt(c, Next(c, s, step), k)
      {
        assert FaithfulAt(c, s, k);
        FaithfulStep(c, s, step, k);
      }
    }
  }

  /** A forced refresh keeps the monitor faithful exactly when its key was not
      cached, or the monitor had no address for it. */
  lemma ForceRefreshKeepsFaithIff(c: H.Config, s: State, service: string, namespace: string)
    requires Owned(s) && Faithful(c, s) && s.lock == Free
    ensures var k := Key(Target(service, namespace, 0));
            Faithful(c, Next(c, s, ForceRefresh(service, namespace))) <==>
            k !in s.sessions || k !in s.mon.entries || H.Blank(s.mon.entries[k])
  {
    var k := Key(Target(service, namespace, 0));
    var s' := Next(c, s, ForceRefresh(service, namespace));
    if k in s.sessions && k in s.mon.entries && !H.Blank(s.mon.entries[k]) {
      assert !FaithfulAt(c, s', k);
    } else {
      forall j
        ensures FaithfulAt(c, s', j)
      {
        assert FaithfulAt(c, s, j);
      }
    }
  }

  lemma {:induction false} FaithfulRun(c: H.Config, states: seq<State>, steps: seq<Step>, i: nat)
    requires IsRun(c, states, steps) && i < |states|
    requires forall j :: 0 <= j < i ==> Harmless(states[j], steps[j])
    ensures Faithful(c, states[i])
  {
    if i > 0 {
      FaithfulRun(c, states, steps, i - 1);
      OwnedRun(c, states, steps, i - 1);
      FaithfulStepIff(c, states[i - 1], steps[i - 1]);
    }
  }

  /** Over every run the monitor is faithful throughout exactly when every forced
      refresh on the way was harmless. */
  lemma FaithfulRunIff(c: H.Config, states: seq<State>, steps: seq<Step>, i: nat)
    requires IsRun(c, states, steps) && i < |states|
    ensures (forall j :: 0 <= j <= i ==> Faithful(c, states[j])) <==>
            (forall j :: 0 <= j < i ==> Harmless(states[j], steps[j]))
  {
    if forall j :: 0 <= j < i ==> Harmless(states[j], steps[j]) {
      forall j | 0 <= j <= i
        ensures Faithful(c, states[j])
      {
        FaithfulRun(c, states, steps, j);
      }
    }
    if forall j :: 0 <= j <= i ==> Faithful(c, states[j]) {
      forall j | 0 <= j < i
        ensures Harmless(states[j], steps[j])
      {
        assert Faithful(c, states[j]) && Faithful(c, states[j + 1]);
        OwnedRun(c, states, steps, j);
        FaithfulStepIff(c, states[j], steps[j]);
      }
    }
  }

  /** The monitor never holds a dead tunnel's address: between operations of any
      run whose forced refreshes were harmless, checks in flight, delayed removals
      and entries that came back included, an entry is blank or has the address
      of the tunnel cached under its key. */
  lemma MonitorHoldsNoDeadAddress(c: H.Config, states: seq<State>, steps: seq<Step>, i: nat, key: string)
    requires IsRun(c, states, steps) && i < |states| && states[i].lock == Free
    requires forall j :: 0 <= j < i ==> Harmless(states[j], steps[j])
    requires key in states[i].mon.entries
    ensures var e := states[i].mon.entries[key];
            H.Blank(e) || MatchesSession(states[i], key, e)
  {
    FaithfulRun(c, states, steps, i);
    assert FaithfulAt(c, states[i], key);
  }

  /** After a forced refresh and one more Ensure the monitor checks an address
      that no tunnel has. */
  lemma ForceRefreshBreaksFaith(c: H.Config) returns (s: State, steps: seq<Step>, key: string)
    requires c.enabled
    ensures |steps| == 11 && steps[5] == ForceRefresh("db", "prod")
    ensures key in s.sessions && key in s.mon.entries && s.lock == Free
    ensures !H.Blank(s.mon.entries[key]) && !MatchesSession(s, key, s.mon.entries[key])
    ensures exists s0 :: Init(s0) && Path(c, s0, steps, s)
  {
    var t := Target("db", "prod", 0);
    key := Key(t);
    var s0 := State(map[], Free, {}, 0, map[], H.Empty(), 0);
    var a1 := [Look(t), SetupStarts("127.0.0.1", 4000), Insert, Register, Spawn];
    var a2 := [Look(t), SetupStarts("127.0.0.1", 5000), Insert, Register, Spawn];
    var s1 := EnsurePath(c, s0, t, "127.0.0.1", 4000);
    var s2 := Next(c, s1, ForceRefresh("db", "prod"));
    s := EnsurePath(c, s2, t, "127.0.0.1", 5000);
    assert Path(c, s1, [ForceRefresh("db", "prod")], s2);
    PathConcat(c, s1, [ForceRefresh("db", "prod")], s2, a2, s);
    PathConcat(c, s0, a1, s1, [ForceRefresh("db", "prod")] + a2, s);
    steps := a1 + ([ForceRefresh("db", "prod")] + a2);
  }
}
