// Who is served whose tunnel: the owner of the tunnel an answer comes from.
module TunnelOwners {
  import opened Text
  import opened TunnelKeys
  import opened Tunnels
  import H = Health

  /** Everything asked for so far satisfies p. */
  ghost predicate AllSuch(s: State, p: Target -> bool) {
    && (forall k :: k in s.sessions ==> p(s.sessions[k].owner))
    && (s.lock.Asking? || s.lock.Validating? || s.lock.SettingUp? || s.lock.Waiting?
        || s.lock.Registering? || s.lock.Settling? ==>
          p(s.lock.target))
    && (s.lock.Forgetting? && s.lock.next.Some? ==> p(s.lock.next.value))
  }

  lemma AllSuchStep(c: H.Config, s: State, step: Step, p: Target -> bool)
    requires AllSuch(s, p) && Enabled(c, s, step)
    requires step.Look? ==> p(step.target)
    ensures AllSuch(Next(c, s, step), p)
  {
    if Background(step) {
      BackgroundKeepsCache(c, s, step);
    } else if Removal(step) {
      RemovalDrops(c, s, step);
    }
  }

  lemma {:induction false} AllSuchRun(c: H.Config, states: seq<State>, steps: seq<Step>, i: nat, p: Target -> bool)
    requires IsRun(c, states, steps) && i < |states|
    requires forall j :: 0 <= j < i && steps[j].Look? ==> p(steps[j].target)
    ensures AllSuch(states[i], p)
  {
    if i > 0 {
      AllSuchRun(c, states, steps, i - 1, p);
      AllSuchStep(c, states[i - 1], steps[i - 1], p);
    }
  }

  /** At step i of the run target t is answered with the tunnel made for `owner`. */
  ghost predicate Serves(c: H.Config, states: seq<State>, steps: seq<Step>, i: nat, t: Target, owner: Target) {
    && IsRun(c, states, steps) && i < |steps|
    && Answer(c, states[i], steps[i]).Some?
    && Answer(c, states[i], steps[i]).value.0 == t
    && Key(t) in states[i + 1].sessions
    && states[i + 1].sessions[Key(t)].owner == owner
  }

  /** Some run answers t with the tunnel made for another target exactly when the
      two have the same key, whatever their texts are. */
  lemma ServedByIff(c: H.Config, t: Target, owner: Target)
    ensures (exists states, steps, i: nat :: Serves(c, states, steps, i, t, owner)) <==> Key(t) == Key(owner)
  {
    if Key(t) == Key(owner) {
      var states, steps := SharedKeyIsServed(c, t, owner, "127.0.0.1", 4000);
      assert Serves(c, states, steps, 6, t, owner);
    }
    forall states, steps, i: nat | Serves(c, states, steps, i, t, owner)
      ensures Key(t) == Key(owner)
    {
      OwnedRun(c, states, steps, i + 1);
    }
  }

  /** The run: a tunnel is made for `owner`, and then t is asked for. */
  lemma SharedKeyIsServed(c: H.Config, t: Target, owner: Target, ip: string, port: int)
    returns (states: seq<State>, steps: seq<Step>)
    requires Key(t) == Key(owner)
    ensures |steps| == 7 && Serves(c, states, steps, 6, t, owner)
    ensures Answer(c, states[6], steps[6]) == Some((t, ip, port))
  {
    var s0 := State(map[], Free, {}, 0, map[], H.Empty(), 0);
    var setup := [Look(owner), SetupStarts(ip, port), Insert, Register, Spawn];
    var s5 := EnsurePath(c, s0, owner, ip, port);
    var s6 := Next(c, s5, Look(t));
    PathSnoc(c, s0, setup, s5, Look(t));
    PathSnoc(c, s0, setup + [Look(t)], s6, Judge(true));
    steps := setup + [Look(t)] + [Judge(true)];
    states := PathIsRun(c, s0, steps, Next(c, s6, Judge(true)));
    assert steps[0..0 + |setup + [Look(t)]|] == setup + [Look(t)];
    RunFollowsPath(c, states, steps, 0, setup + [Look(t)], s6);
  }

  /** Over runs whose services have no dot, the address returned for a target is of
      a tunnel of the same service, made for that very target unless one of the
      two spells the other's port inside its namespace text. */
  lemma AnswerOwnerCases(c: H.Config, states: seq<State>, steps: seq<Step>, i: nat)
    requires IsRun(c, states, steps) && i < |steps|
    requires forall j :: 0 <= j <= i && steps[j].Look? ==> DotFree(steps[j].target)
    requires Answer(c, states[i], steps[i]).Some?
    ensures var (t, ip, port) := Answer(c, states[i], steps[i]).value;
            var s := states[i + 1];
            && Key(t) in s.sessions
            && (ip, port) == (s.sessions[Key(t)].ip, s.sessions[Key(t)].port)
            && var owner := s.sessions[Key(t)].owner;
               && owner.service == t.service
               && (Normal(owner) == Normal(t) || SpellsPortOf(t, owner) || SpellsPortOf(owner, t))
  {
    AnswersAreLive(c, states, steps, i);
    AllSuchRun(c, states, steps, i, DotFree);
    AllSuchRun(c, states, steps, i + 1, DotFree);
    OwnedRun(c, states, steps, i + 1);
    var (t, ip, port) := Answer(c, states[i], steps[i]).value;
    KeyCollisions(t, states[i + 1].sessions[Key(t)].owner);
  }

  /** In particular tunnels are never cross-served when every request of a run is
      plainly named. */
  lemma NeverCrossServed(c: H.Config, states: seq<State>, steps: seq<Step>, i: nat)
    requires IsRun(c, states, steps) && i < |steps|
    requires forall j :: 0 <= j <= i && steps[j].Look? ==> Plain(steps[j].target)
    requires Answer(c, states[i], steps[i]).Some?
    ensures var (t, ip, port) := Answer(c, states[i], steps[i]).value;
            var s := states[i + 1];
            && Key(t) in s.sessions
            && (ip, port) == (s.sessions[Key(t)].ip, s.sessions[Key(t)].port)
            && Normal(s.sessions[Key(t)].owner) == Normal(t)
  {
    AnswerOwnerCases(c, states, steps, i);
    AllSuchRun(c, states, steps, i, Plain);
    AllSuchRun(c, states, steps, i + 1, Plain);
    var (t, ip, port) := Answer(c, states[i], steps[i]).value;
    var owner := states[i + 1].sessions[Key(t)].owner;
    PlainSpellsNoPort(t, owner);
    PlainSpellsNoPort(owner, t);
  }
}
