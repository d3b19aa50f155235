// The universal port handler: two NAT rules for the whole virtual interface,
// and a journal of how to take them out again.
module UniversalPorts {
  import opened Text
  import opened NatTable

  datatype Config = Config(virtualIP: string, mainIP: string)

  datatype State = State(port: int, running: bool, journal: seq<Rule>, table: multiset<Rule>)

  datatype Op =
    | Start(env: Env)
    | Stop(env: Env)
    | UpdatePort(port: int)

  /** What Start installs when the main proxy listens on `port`. */
  function Wanted(c: Config, port: int): seq<Rule> {
    [Rule("OUTPUT", c.virtualIP, "1:65535", "DNAT", c.mainIP + ":" + Dec(port)),
     Rule("POSTROUTING", c.mainIP, Dec(port), "MASQUERADE", "")]
  }

  /** The first rule names the whole redirection, the second where it leads to: other
      addresses or another port give other rules. */
  lemma WantedTellsAll(c: Config, p: int, d: Config, q: int)
    ensures Wanted(c, p)[0] == Wanted(d, q)[0] <==> c == d && p == q
    ensures Wanted(c, p)[1] == Wanted(d, q)[1] <==> c.mainIP == d.mainIP && p == q
  {
    if Wanted(c, p)[0] == Wanted(d, q)[0] {
      assert c.mainIP + [':'] + Dec(p) == d.mainIP + [':'] + Dec(q);
      SplitLastUnique(c.mainIP, Dec(p), d.mainIP, Dec(q), ':');
      DecInjective(p, q);
    }
    if Dec(p) == Dec(q) {
      DecInjective(p, q);
    }
  }

  /** cleanupRules: one deletion command per journaled rule, in order. */
  function DeleteAll(env: Env, table: multiset<Rule>, rules: seq<Rule>): multiset<Rule> {
    if rules == [] then table else DeleteAll(env, Delete(env, table, rules[0]), rules[1..])
  }

  function Cleared(env: Env, s: State): State {
    s.(journal := [], table := DeleteAll(env, s.table, s.journal))
  }

  /** The loop of Start from rule i on. */
  function Install(env: Env, s: State, rules: seq<Rule>): State
    decreases |rules|
  {
    if rules == [] then s.(running := true)
    else if rules[0] in env.refused then Cleared(env, s)
    else
      Install(env, s.(journal := s.journal + [rules[0]], table := s.table + multiset{rules[0]}), rules[1..])
  }

  function Next(c: Config, s: State, op: Op): State {
    match op
    case Start(env) => if s.running then s else Install(env, s, Wanted(c, s.port))
    case Stop(env) => if !s.running then s else Cleared(env, s).(running := false)
    case UpdatePort(port) => s.(port := port)
  }

  function After(c: Config, s: State, ops: seq<Op>): State
    decreases |ops|
  {
    if ops == [] then s else Next(c, After(c, s, ops[..|ops| - 1]), ops[|ops| - 1])
  }

  predicate Deletes(op: Op) {
    op.UpdatePort? || op.env.stuck == {}
  }

  /** The journal is what Start installed at some port, or empty. */
  ghost predicate Journaled(c: Config, s: State) {
    if s.running then exists p :: s.journal == Wanted(c, p) else s.journal == []
  }

  lemma {:induction false} DeleteAllUndoes(env: Env, base: multiset<Rule>, rules: seq<Rule>)
    requires env.stuck == {}
    ensures DeleteAll(env, base + multiset(rules), rules) == base
  {
    if rules == [] {
      assert base + multiset(rules) == base;
    } else {
      assert rules == [rules[0]] + rules[1..];
      assert base + multiset(rules) - multiset{rules[0]} == base + multiset(rules[1..]);
      DeleteAllUndoes(env, base, rules[1..]);
    }
  }

  lemma {:induction false} DeleteAllKeepsRest(env: Env, base: multiset<Rule>, table: multiset<Rule>, rules: seq<Rule>)
    requires base + multiset(rules) <= table
    ensures base <= DeleteAll(env, table, rules)
  {
    if rules != [] {
      assert rules == [rules[0]] + rules[1..];
      assert base + multiset(rules[1..]) <= Delete(env, table, rules[0]);
      DeleteAllKeepsRest(env, base, Delete(env, table, rules[0]), rules[1..]);
    }
  }

  /** What Start comes to, rule by rule. */
  lemma InstallCases(c: Config, s: State, env: Env)
    requires s.journal == []
    ensures var w := Wanted(c, s.port);
            Install(env, s, w) ==
            if w[0] in env.refused then s
            else if w[1] in env.refused then s.(table := Delete(env, s.table + multiset{w[0]}, w[0]))
            else s.(running := true, journal := w, table := s.table + multiset{w[0]} + multiset{w[1]})
  {
    var w := Wanted(c, s.port);
    assert w[1..] == [w[1]] && w[1..][1..] == [];
    assert Cleared(env, s) == s;
    var s1 := s.(journal := s.journal + [w[0]], table := s.table + multiset{w[0]});
    assert s1.journal == [w[0]] && s1.journal[1..] == [];
    if w[0] !in env.refused {
      assert Install(env, s, w) == Install(env, s1, w[1..]);
      if w[1] in env.refused {
        assert Install(env, s1, w[1..]) == Cleared(env, s1);
        assert DeleteAll(env, s1.table, [w[0]]) == Delete(env, s1.table, w[0]);
      } else {
        var s2 := s1.(journal := s1.journal + [w[1]], table := s1.table + multiset{w[1]});
        assert s2.journal == w;
        assert Install(env, s1, w[1..]) == Install(env, s2, w[1..][1..]);
      }
    }
  }

  lemma JournalStart(c: Config, s: State, env: Env, base: multiset<Rule>)
    requires !s.running && s.journal == []
    ensures var s' := Next(c, s, Start(env));
            && Journaled(c, s')
            && (base <= s.table ==> base + multiset(s'.journal) <= s'.table)
            && (s.table == base && env.stuck == {} ==> s'.table == base + multiset(s'.journal))
  {
    InstallCases(c, s, env);
    var w := Wanted(c, s.port);
    assert w == [w[0]] + [w[1]];
    assert multiset(w) == multiset{w[0]} + multiset{w[1]};
    assert s.table + multiset{w[0]} - multiset{w[0]} == s.table;
  }

  lemma JournalStep(c: Config, s: State, op: Op, base: multiset<Rule>)
    requires Journaled(c, s)
    ensures Journaled(c, Next(c, s, op))
    ensures base + multiset(s.journal) <= s.table ==>
              base + multiset(Next(c, s, op).journal) <= Next(c, s, op).table
    ensures s.table == base + multiset(s.journal) && Deletes(op) ==>
              Next(c, s, op).table == base + multiset(Next(c, s, op).journal)
  {
    match op
    case Start(env) =>
      if !s.running {
        JournalStart(c, s, env, base);
      }
    case Stop(env) =>
      if s.running {
        if base + multiset(s.journal) <= s.table {
          DeleteAllKeepsRest(env, base, s.table, s.journal);
        }
        if s.table == base + multiset(s.journal) && Deletes(op) {
          DeleteAllUndoes(env, base, s.journal);
        }
      }
    case UpdatePort(port) =>
  }

  /** The journal is exact over every run: the handler runs if and only if both
      its rules are journaled, and nothing is journaled otherwise; journaled
      rules are in the kernel and no foreign rule is lost; and when deletions of
      present rules succeed the table is the initial one plus the journal. */
  lemma {:induction false} JournalIsExact(c: Config, port: int, base: multiset<Rule>, ops: seq<Op>)
    ensures var s := After(c, State(port, false, [], base), ops);
            && Journaled(c, s)
            && (s.running <==> |s.journal| == 2) && (!s.running <==> s.journal == [])
            && base + multiset(s.journal) <= s.table
            && ((forall op :: op in ops ==> Deletes(op)) ==> s.table == base + multiset(s.journal))
    decreases |ops|
  {
    if ops != [] {
      var s, op := After(c, State(port, false, [], base), ops[..|ops| - 1]), ops[|ops| - 1];
      JournalIsExact(c, port, base, ops[..|ops| - 1]);
      JournalStep(c, s, op, base);
      assert forall o :: o in ops[..|ops| - 1] ==> o in ops;
      assert op in ops;
    }
  }

  /** Stop takes out what was installed, though the port may have changed since. */
  lemma StopRestores(c: Config, port: int, base: multiset<Rule>, ops: seq<Op>, refused: set<Rule>)
    requires forall op :: op in ops ==> Deletes(op)
    ensures var s := Next(c, After(c, State(port, false, [], base), ops), Stop(Env(refused, {})));
            s.table == base && !s.running && s.journal == []
  {
    var last := Stop(Env(refused, {}));
    JournalIsExact(c, port, base, ops + [last]);
    assert (ops + [last])[..|ops|] == ops;
  }

  /** The port of the latest update, or the first. */
  function LatestPort(port: int, ops: seq<Op>): int
    decreases |ops|
  {
    if ops == [] then port
    else if ops[|ops| - 1].UpdatePort? then ops[|ops| - 1].port
    else LatestPort(port, ops[..|ops| - 1])
  }

  lemma {:induction false} PortIsLatest(c: Config, port: int, base: multiset<Rule>, ops: seq<Op>)
    ensures After(c, State(port, false, [], base), ops).port == LatestPort(port, ops)
    decreases |ops|
  {
    if ops != [] {
      var s, op := After(c, State(port, false, [], base), ops[..|ops| - 1]), ops[|ops| - 1];
      PortIsLatest(c, port, base, ops[..|ops| - 1]);
      JournalIsExact(c, port, base, ops[..|ops| - 1]);
      if op.Start? && !s.running {
        InstallCases(c, s, op.env);
      }
    }
  }

  /** A Start that goes through after any run installs the rules of the latest port. */
  lemma StartUsesLatestPort(c: Config, port: int, base: multiset<Rule>, ops: seq<Op>, env: Env)
    requires var s := After(c, State(port, false, [], base), ops); !s.running && Next(c, s, Start(env)).running
    ensures var s := After(c, State(port, false, [], base), ops);
            var w := Wanted(c, LatestPort(port, ops));
            && Next(c, s, Start(env)).journal == w
            && Next(c, s, Start(env)).table == s.table + multiset{w[0]} + multiset{w[1]}
  {
    PortIsLatest(c, port, base, ops);
    JournalIsExact(c, port, base, ops);
    InstallCases(c, After(c, State(port, false, [], base), ops), env);
  }

  /** A Start that fails leaves the handler stopped and, unless the rollback is
      stuck, the table as it was. */
  lemma FailedStartChangesNothing(c: Config, s: State, env: Env)
    requires !s.running && s.journal == [] && !Next(c, s, Start(env)).running
    ensures Next(c, s, Start(env)) == s <==>
            Wanted(c, s.port)[0] in env.refused || Wanted(c, s.port)[0] !in env.stuck
  {
    InstallCases(c, s, env);
    var w := Wanted(c, s.port);
    if w[0] !in env.refused {
      assert s.table + multiset{w[0]} - multiset{w[0]} == s.table;
      assert (s.table + multiset{w[0]})[w[0]] == s.table[w[0]] + 1;
    }
  }

  class Handler {
    const config: Config
    const kernel: Kernel
    var mainProxyPort: int
    var running: bool
    var setupRules: seq<Rule>

    constructor (config: Config, port: int, kernel: Kernel)
      ensures this.config == config && this.kernel == kernel
      ensures View() == State(port, false, [], kernel.table)
    {
      this.config, this.kernel := config, kernel;
      mainProxyPort, running, setupRules := port, false, [];
    }

    function View(): State
      reads this, kernel
    {
      State(mainProxyPort, running, setupRules, kernel.table)
    }

    method CleanupRules(env: Env)
      modifies this`setupRules, kernel
      ensures View() == Cleared(env, old(View()))
    {
      for i := 0 to |setupRules|
        invariant setupRules == old(setupRules)
        invariant DeleteAll(env, kernel.table, setupRules[i..]) == DeleteAll(env, old(kernel.table), setupRules)
      {
        assert setupRules[i..][1..] == setupRules[i + 1..];
        var ok := kernel.Remove(env, setupRules[i]);
      }
      setupRules := [];
    }

    method StartHandling(env: Env) returns (ok: bool)
      modifies this, kernel
      ensures View() == Next(config, old(View()), Start(env))
      ensures ok == (!old(running) && running)
    {
      if running {
        return false;
      }
      var rules := Wanted(config, mainProxyPort);
      ghost var s0 := View();
      for i := 0 to |rules|
        invariant !running && mainProxyPort == old(mainProxyPort)
        invariant Install(env, View(), rules[i..]) == Install(env, s0, rules)
      {
        assert rules[i..][1..] == rules[i + 1..];
        var added := kernel.Append(env, rules[i]);
        if !added {
          CleanupRules(env);
          return false;
        }
        setupRules := setupRules + [rules[i]];
      }
      running := true;
      return true;
    }

    method StopHandling(env: Env)
      modifies this, kernel
      ensures View() == Next(config, old(View()), Stop(env))
    {
      if !running {
        return;
      }
      CleanupRules(env);
      running := false;
    }

    method UpdateMainProxyPort(port: int)
      modifies this`mainProxyPort
      ensures View() == Next(config, old(View()), UpdatePort(port))
    {
      mainProxyPort := port;
    }
  }
}
