// The Linux redirection manager: a map of redirections by text key, mirrored by
// two NAT rules each, with rollback when the second append fails.
module LinuxRedirection {
  import opened Text
  import opened NatTable

  datatype Redirect = Redirect(fromIP: string, fromPort: int, toIP: string, toPort: int)

  function Destination(x: Redirect): string {
    x.toIP + ":" + Dec(x.toPort)
  }

  /** "fromIP:fromPort->toIP:toPort". */
  function Key(x: Redirect): string {
    x.fromIP + ":" + Dec(x.fromPort) + "->" + Destination(x)
  }

  function Output(x: Redirect): Rule {
    Rule("OUTPUT", x.fromIP, Dec(x.fromPort), "DNAT", Destination(x))
  }

  function PreRouting(x: Redirect): Rule {
    Rule("PREROUTING", x.fromIP, Dec(x.fromPort), "DNAT", Destination(x))
  }

  /** Address text, of either family: it has no '>'. */
  predicate AddressText(x: Redirect) {
    '>' !in x.fromIP
  }

  lemma KeyShape(x: Redirect)
    ensures Key(x) == (x.fromIP + [':'] + (Dec(x.fromPort) + "-")) + ['>'] + Destination(x)
  {
    assert Key(x) == (x.fromIP + ":" + (Dec(x.fromPort) + "-")) + ">" + Destination(x);
  }

  /** For address text the key determines the redirection, hence its rules. */
  lemma KeyInjective(x: Redirect, y: Redirect)
    requires AddressText(x) && AddressText(y) && Key(x) == Key(y)
    ensures x == y
  {
    KeyShape(x);
    KeyShape(y);
    var px, py := x.fromIP + [':'] + (Dec(x.fromPort) + "-"), y.fromIP + [':'] + (Dec(y.fromPort) + "-");
    SplitOnceUnique(px, Destination(x), py, Destination(y), '>');
    SplitLastUnique(x.fromIP, Dec(x.fromPort) + "-", y.fromIP, Dec(y.fromPort) + "-", ':');
    assert (Dec(x.fromPort) + "-")[..|Dec(x.fromPort)|] == Dec(x.fromPort);
    assert (Dec(y.fromPort) + "-")[..|Dec(y.fromPort)|] == Dec(y.fromPort);
    DecInjective(x.fromPort, y.fromPort);
    assert Destination(x) == x.toIP + [':'] + Dec(x.toPort);
    assert Destination(y) == y.toIP + [':'] + Dec(y.toPort);
    SplitLastUnique(x.toIP, Dec(x.toPort), y.toIP, Dec(y.toPort), ':');
    DecInjective(x.toPort, y.toPort);
  }

  /** Text that is no address can make two redirections share a key. No caller
      passes such text: the address redirected from is a generated 127.0.0.x. */
  lemma OddTextCollides() returns (x: Redirect, y: Redirect)
    ensures Key(x) == Key(y) && Output(x) != Output(y)
  {
    x, y := Redirect("a", 1, "b:2->c", 3), Redirect("a:1->b", 2, "c", 3);
    assert Dec(1) == "1" && Dec(2) == "2" && Dec(3) == "3";
    assert Key(x) == "a:1->b:2->c:3" && Key(y) == "a:1->b:2->c:3";
  }

  datatype State = State(rules: map<string, Redirect>, table: multiset<Rule>)

  datatype Op =
    | Add(x: Redirect, env: Env)
    | Remove(x: Redirect, env: Env)
    | Cleanup(env: Env)

  /** The redirection a rule belongs to, if it is tracked: rules name their key. */
  function RuleKey(r: Rule): string {
    r.dst + ":" + r.dport + "->" + r.to
  }

  predicate Tracks(rules: map<string, Redirect>, r: Rule) {
    RuleKey(r) in rules && r in {Output(rules[RuleKey(r)]), PreRouting(rules[RuleKey(r)])}
  }

  /** Whether the add reports success. */
  predicate AddSucceeds(s: State, x: Redirect, env: Env) {
    Key(x) in s.rules || (Output(x) !in env.refused && PreRouting(x) !in env.refused)
  }

  function Next(s: State, op: Op): State {
    match op
    case Add(x, env) =>
      if Key(x) in s.rules || Output(x) in env.refused then s
      else
        var table := s.table + multiset{Output(x)};
        if PreRouting(x) in env.refused then s.(table := Delete(env, table, Output(x)))
        else State(s.rules[Key(x) := x], table + multiset{PreRouting(x)})
    case Remove(x, env) =>
      if Key(x) !in s.rules then s
      else State(s.rules - {Key(x)}, Delete(env, Delete(env, s.table, Output(x)), PreRouting(x)))
    case Cleanup(env) => State(map[], Cleaned(env, s.table, s.rules))
  }

  /** The rules of the given keys whose deletion can succeed. */
  function Victims(env: Env, rules: map<string, Redirect>, keys: set<string>): set<Rule>
    requires keys <= rules.Keys
  {
    (set k | k in keys :: Output(rules[k])) + (set k | k in keys :: PreRouting(rules[k])) - env.stuck
  }

  /** The table once every tracked rule has had its deletion command. */
  function Cleaned(env: Env, table: multiset<Rule>, rules: map<string, Redirect>): multiset<Rule> {
    table - multiset(Victims(env, rules, rules.Keys))
  }

  predicate WellKeyed(rules: map<string, Redirect>) {
    forall k :: k in rules ==> Key(rules[k]) == k
  }

  lemma VictimsNameTheirKeys(env: Env, rules: map<string, Redirect>, keys: set<string>, r: Rule)
    requires WellKeyed(rules) && keys <= rules.Keys
    ensures r in Victims(env, rules, keys) <==> RuleKey(r) in keys && Tracks(rules, r) && r !in env.stuck
  {
    if RuleKey(r) in keys {
      var x := rules[RuleKey(r)];
      assert r == Output(x) ==> r in (set k | k in keys :: Output(rules[k]));
      assert r == PreRouting(x) ==> r in (set k | k in keys :: PreRouting(rules[k]));
    }
  }

  lemma DeleteCount(env: Env, table: multiset<Rule>, q: Rule, r: Rule)
    ensures Delete(env, table, q)[r] ==
            if r == q && r !in env.stuck && table[r] > 0 then table[r] - 1 else table[r]
  {
  }

  lemma VictimCount(env: Env, rules: map<string, Redirect>, keys: set<string>, r: Rule)
    requires WellKeyed(rules) && keys <= rules.Keys
    ensures multiset(Victims(env, rules, keys))[r]
            == if RuleKey(r) in keys && Tracks(rules, r) && r !in env.stuck then 1 else 0
  {
    VictimsNameTheirKeys(env, rules, keys, r);
  }

  lemma RulesOf(x: Redirect)
    ensures RuleKey(Output(x)) == Key(x) && RuleKey(PreRouting(x)) == Key(x)
    ensures Output(x) != PreRouting(x)
  {
    assert Output(x).chain[0] != PreRouting(x).chain[0];
  }

  lemma DeletePairCount(env: Env, table: multiset<Rule>, x: Redirect, r: Rule)
    ensures Delete(env, Delete(env, table, Output(x)), PreRouting(x))[r] ==
            if r in {Output(x), PreRouting(x)} && r !in env.stuck && table[r] > 0 then table[r] - 1 else table[r]
  {
    RulesOf(x);
    DeleteCount(env, table, Output(x), r);
    DeleteCount(env, Delete(env, table, Output(x)), PreRouting(x), r);
  }

  /** How many copies of a rule are left once the given keys have been visited. */
  function Copies(env: Env, table0: multiset<Rule>, rules: map<string, Redirect>, keys: set<string>, r: Rule): nat {
    if RuleKey(r) in keys && Tracks(rules, r) && r !in env.stuck && table0[r] > 0
    then table0[r] - 1 else table0[r]
  }

  ghost predicate CleanedUpTo(env: Env, table0: multiset<Rule>, rules: map<string, Redirect>, keys: set<string>,
                              table: multiset<Rule>) {
    forall r :: table[r] == Copies(env, table0, rules, keys, r)
  }

  /** The rules of one more key are new, so each is deleted once. */
  lemma CleanedFurther(env: Env, table0: multiset<Rule>, rules: map<string, Redirect>, keys: set<string>,
                       key: string, table: multiset<Rule>)
    requires WellKeyed(rules) && key in rules && key !in keys
    requires CleanedUpTo(env, table0, rules, keys, table)
    ensures var x := rules[key];
            CleanedUpTo(env, table0, rules, keys + {key}, Delete(env, Delete(env, table, Output(x)), PreRouting(x)))
  {
    var x := rules[key];
    var after := Delete(env, Delete(env, table, Output(x)), PreRouting(x));
    forall r
      ensures after[r] == Copies(env, table0, rules, keys + {key}, r)
    {
      RulesOf(x);
      DeletePairCount(env, table, x, r);
    }
  }

  /** In whatever order the keys were visited. */
  lemma AllCleaned(env: Env, table0: multiset<Rule>, rules: map<string, Redirect>, table: multiset<Rule>)
    requires WellKeyed(rules) && CleanedUpTo(env, table0, rules, rules.Keys, table)
    ensures table == Cleaned(env, table0, rules)
  {
    forall r
      ensures table[r] == Cleaned(env, table0, rules)[r]
    {
      VictimCount(env, rules, rules.Keys, r);
    }
  }

  predicate NoneStuck(env: Env, rules: map<string, Redirect>, keys: set<string>) {
    forall k :: k in keys && k in rules ==>
      Output(rules[k]) !in env.stuck && PreRouting(rules[k]) !in env.stuck
  }

  lemma NoneStuckAdd(env: Env, rules: map<string, Redirect>, keys: set<string>, key: string)
    requires key in rules
    ensures NoneStuck(env, rules, keys + {key}) <==>
            NoneStuck(env, rules, keys) && Output(rules[key]) !in env.stuck && PreRouting(rules[key]) !in env.stuck
  {
  }

  // Conservation over whole runs.

  function After(s: State, ops: seq<Op>): State
    decreases |ops|
  {
    if ops == [] then s else Next(After(s, ops[..|ops| - 1]), ops[|ops| - 1])
  }

  function Share(s: State, r: Rule): nat {
    if Tracks(s.rules, r) then 1 else 0
  }

  /** At least the foreign rules and, for each tracked key, its pair are there. */
  ghost predicate AtLeast(s: State, foreign: multiset<Rule>) {
    forall r :: s.table[r] >= foreign[r] + Share(s, r)
  }

  /** Nothing else is there. */
  ghost predicate Exact(s: State, foreign: multiset<Rule>) {
    forall r :: s.table[r] == foreign[r] + Share(s, r)
  }

  predicate Keyed(s: State) {
    WellKeyed(s.rules) && forall k :: k in s.rules ==> AddressText(s.rules[k])
  }

  predicate Addresses(op: Op) {
    op.Cleanup? || AddressText(op.x)
  }

  lemma KeyedStep(s: State, op: Op)
    requires Keyed(s) && Addresses(op)
    ensures Keyed(Next(s, op))
  {
  }

  /** How one operation moves the copies of one rule against its share: never
      below, and not at all when the deletions it issues succeed. */
  lemma ShareStep(s: State, op: Op, r: Rule, spare: nat)
    requires Keyed(s) && Addresses(op)
    requires s.table[r] == spare + Share(s, r)
    ensures Next(s, op).table[r] >= spare + Share(Next(s, op), r)
    ensures r !in op.env.stuck ==> Next(s, op).table[r] == spare + Share(Next(s, op), r)
  {
    match op
    case Add(x, env) => ShareAdd(s, x, env, r, spare);
    case Remove(x, env) => ShareRemove(s, x, env, r, spare);
    case Cleanup(env) => VictimsNameTheirKeys(env, s.rules, s.rules.Keys, r);
  }

  lemma ShareOfNewKey(s: State, x: Redirect, r: Rule)
    requires WellKeyed(s.rules) && Key(x) !in s.rules
    ensures Share(s.(rules := s.rules[Key(x) := x]), r)
            == Share(s, r) + if r == Output(x) || r == PreRouting(x) then 1 else 0
  {
    RulesOf(x);
  }

  lemma ShareAdd(s: State, x: Redirect, env: Env, r: Rule, spare: nat)
    requires WellKeyed(s.rules) && s.table[r] == spare + Share(s, r)
    ensures var s' := Next(s, Add(x, env));
            && s'.table[r] >= spare + Share(s', r)
            && (r !in env.stuck ==> s'.table[r] == spare + Share(s', r))
  {
    RulesOf(x);
    if Key(x) !in s.rules {
      ShareOfNewKey(s, x, r);
      DeleteCount(env, s.table + multiset{Output(x)}, Output(x), r);
    }
  }

  lemma ShareRemove(s: State, x: Redirect, env: Env, r: Rule, spare: nat)
    requires Keyed(s) && AddressText(x) && s.table[r] == spare + Share(s, r)
    ensures var s' := Next(s, Remove(x, env));
            && s'.table[r] >= spare + Share(s', r)
            && (r !in env.stuck ==> s'.table[r] == spare + Share(s', r))
  {
    assert RuleKey(Output(x)) == Key(x) && RuleKey(PreRouting(x)) == Key(x);
    assert Output(x) != PreRouting(x) by {
      assert Output(x).chain[0] != PreRouting(x).chain[0];
    }
    if Key(x) in s.rules {
      KeyInjective(x, s.rules[Key(x)]);
    }
  }

  lemma {:induction false} RunKeepsPairs(foreign: multiset<Rule>, ops: seq<Op>)
    requires forall op :: op in ops ==> Addresses(op)
    ensures var s := After(State(map[], foreign), ops);
            Keyed(s) && AtLeast(s, foreign)
    decreases |ops|
  {
    if ops != [] {
      var s, op := After(State(map[], foreign), ops[..|ops| - 1]), ops[|ops| - 1];
      RunKeepsPairs(foreign, ops[..|ops| - 1]);
      KeyedStep(s, op);
      forall r
        ensures Next(s, op).table[r] >= foreign[r] + Share(Next(s, op), r)
      {
        assert s.table[r] >= foreign[r] + Share(s, r);
        ShareStep(s, op, r, s.table[r] - Share(s, r));
      }
    }
  }

  /** Over every run, whatever commands fail, each tracked key has both its
      rules in the kernel, and no foreign rule is lost. */
  lemma TrackedMeansInstalled(foreign: multiset<Rule>, ops: seq<Op>, key: string)
    requires forall op :: op in ops ==> Addresses(op)
    requires key in After(State(map[], foreign), ops).rules
    ensures var s := After(State(map[], foreign), ops);
            && Output(s.rules[key]) in s.table && PreRouting(s.rules[key]) in s.table
            && foreign <= s.table
  {
    RunKeepsPairs(foreign, ops);
    var s := After(State(map[], foreign), ops);
    var x := s.rules[key];
    assert RuleKey(Output(x)) == key && RuleKey(PreRouting(x)) == key;
    assert Tracks(s.rules, Output(x)) && Tracks(s.rules, PreRouting(x));
    assert forall r :: s.table[r] >= foreign[r] + Share(s, r);
  }

  /** When deletions of present rules succeed, the table is at all times the
      foreign rules plus one pair per tracked key. */
  lemma {:induction false} RunConserves(foreign: multiset<Rule>, ops: seq<Op>)
    requires forall op :: op in ops ==> Addresses(op) && op.env.stuck == {}
    ensures Exact(After(State(map[], foreign), ops), foreign)
    decreases |ops|
  {
    if ops != [] {
      var s, op := After(State(map[], foreign), ops[..|ops| - 1]), ops[|ops| - 1];
      RunConserves(foreign, ops[..|ops| - 1]);
      RunKeepsPairs(foreign, ops[..|ops| - 1]);
      forall r
        ensures Next(s, op).table[r] == foreign[r] + Share(Next(s, op), r)
      {
        assert s.table[r] == foreign[r] + Share(s, r);
        ShareStep(s, op, r, foreign[r]);
      }
    }
  }

  /** So Cleanup at the end of any run restores the foreign rules. */
  lemma CleanupRestores(foreign: multiset<Rule>, ops: seq<Op>, refused: set<Rule>)
    requires forall op :: op in ops ==> Addresses(op) && op.env.stuck == {}
    ensures Next(After(State(map[], foreign), ops), Cleanup(Env(refused, {}))) == State(map[], foreign)
  {
    var last := Cleanup(Env(refused, {}));
    RunConserves(foreign, ops + [last]);
    assert (ops + [last])[..|ops|] == ops;
    var s' := Next(After(State(map[], foreign), ops), last);
    assert forall r :: s'.table[r] == foreign[r] + Share(s', r);
    assert s'.table == foreign;
  }

  /** An add that succeeds tracks its redirection and installs its pair, once; one that
      fails tracks nothing. */
  lemma AddTracksIff(s: State, x: Redirect, env: Env)
    ensures Key(x) in Next(s, Add(x, env)).rules <==> AddSucceeds(s, x, env)
    ensures AddSucceeds(s, x, env) ==>
              Next(s, Add(x, env)) ==
              if Key(x) in s.rules then s
              else State(s.rules[Key(x) := x], s.table + multiset{Output(x), PreRouting(x)})
  {
    assert multiset{Output(x), PreRouting(x)} == multiset{Output(x)} + multiset{PreRouting(x)};
  }

  /** An add for the key neither of whose commands is refused. */
  predicate Installs(op: Op, key: string) {
    op.Add? && Key(op.x) == key && Output(op.x) !in op.env.refused && PreRouting(op.x) !in op.env.refused
  }

  predicate Forgets(op: Op, key: string) {
    op.Cleanup? || (op.Remove? && Key(op.x) == key)
  }

  /** Operation i installed the key, and none after it has forgotten it. */
  predicate InstalledAt(ops: seq<Op>, i: nat, key: string) {
    i < |ops| && Installs(ops[i], key) && forall j :: i < j < |ops| ==> !Forgets(ops[j], key)
  }

  lemma InstalledMore(ops: seq<Op>, op: Op, i: nat, key: string)
    ensures i < |ops| ==> (InstalledAt(ops + [op], i, key) <==> InstalledAt(ops, i, key) && !Forgets(op, key))
    ensures InstalledAt(ops + [op], |ops|, key) <==> Installs(op, key)
  {
    var all := ops + [op];
    assert all[|ops|] == op;
    assert forall j :: 0 <= j < |ops| ==> all[j] == ops[j];
  }

  lemma TrackStep(s: State, op: Op, key: string)
    ensures key in Next(s, op).rules <==> Installs(op, key) || (key in s.rules && !Forgets(op, key))
  {
  }

  /** Over every run, whatever commands fail, a key is tracked exactly when some add
      for it went through and nothing has removed it or cleaned up since. */
  lemma {:induction false} TrackedIff(foreign: multiset<Rule>, ops: seq<Op>, key: string)
    ensures key in After(State(map[], foreign), ops).rules <==> exists i: nat :: InstalledAt(ops, i, key)
    decreases |ops|
  {
    if ops != [] {
      var rest, op := ops[..|ops| - 1], ops[|ops| - 1];
      assert rest + [op] == ops;
      TrackedIff(foreign, rest, key);
      TrackStep(After(State(map[], foreign), rest), op, key);
      InstalledBySnoc(rest, op, key);
    }
  }

  lemma InstalledBySnoc(ops: seq<Op>, op: Op, key: string)
    ensures (exists i: nat :: InstalledAt(ops + [op], i, key)) <==>
            Installs(op, key) || ((exists i: nat :: InstalledAt(ops, i, key)) && !Forgets(op, key))
  {
    InstalledMore(ops, op, 0, key);
    if i: nat :| InstalledAt(ops, i, key) {
      InstalledMore(ops, op, i, key);
    }
    if i: nat :| InstalledAt(ops + [op], i, key) {
      InstalledMore(ops, op, i, key);
    }
  }

  /** A failed add leaves nothing behind, unless its rollback fails too. */
  lemma FailedAddChangesNothing(s: State, x: Redirect, env: Env)
    requires !AddSucceeds(s, x, env)
    ensures Next(s, Add(x, env)) == s <==> Output(x) in env.refused || Output(x) !in env.stuck
    ensures Next(s, Add(x, env)).rules == s.rules
  {
    var s' := Next(s, Add(x, env));
    if Output(x) !in env.refused && Output(x) in env.stuck {
      assert s'.table[Output(x)] == s.table[Output(x)] + 1;
    } else {
      assert s'.table == s.table;
    }
  }

  /** Adding and removing again is as if nothing had happened. */
  lemma AddRemoveRoundTrip(s: State, x: Redirect, add: Env, remove: Env)
    requires AddSucceeds(s, x, add) && Key(x) !in s.rules && remove.stuck == {}
    ensures Next(Next(s, Add(x, add)), Remove(x, remove)) == s
  {
    var s1 := Next(s, Add(x, add));
    var s2 := Next(s1, Remove(x, remove));
    assert Output(x).chain[0] != PreRouting(x).chain[0];
    assert s2.table == s.table;
    assert s2.rules == s.rules;
  }

  lemma RemoveOwnAt(s: State, x: Redirect, refused: set<Rule>, r: Rule, spare: nat)
    requires WellKeyed(s.rules) && Key(x) in s.rules && s.rules[Key(x)] == x
    requires s.table[r] == spare + Share(s, r)
    ensures var s' := Next(s, Remove(x, Env(refused, {}))); s'.table[r] == spare + Share(s', r)
  {
    RulesOf(x);
    DeletePairCount(Env(refused, {}), s.table, x, r);
  }

  lemma RemoveOtherAt(s: State, x: Redirect, y: Redirect, refused: set<Rule>)
    requires WellKeyed(s.rules) && Key(x) in s.rules && s.rules[Key(x)] == y && y != x
    ensures var s', r := Next(s, Remove(x, Env(refused, {}))), Output(y);
            s'.table[r] == s.table[r] && Share(s, r) == 1 && Share(s', r) == 0
  {
    RulesDetermineRedirect(x, y);
    RulesOf(x);
    RulesOf(y);
    assert Output(y).chain[0] != PreRouting(x).chain[0];
    DeletePairCount(Env(refused, {}), s.table, x, Output(y));
  }

  /** Why keys must be injective: a removal keeps the account exact only when
      it names the very redirection that is tracked under its key. */
  lemma RemoveKeepsExactIff(s: State, foreign: multiset<Rule>, x: Redirect, refused: set<Rule>)
    requires WellKeyed(s.rules) && Exact(s, foreign) && Key(x) in s.rules
    ensures Exact(Next(s, Remove(x, Env(refused, {}))), foreign) <==> s.rules[Key(x)] == x
  {
    var y := s.rules[Key(x)];
    if y == x {
      forall r
        ensures var s' := Next(s, Remove(x, Env(refused, {}))); s'.table[r] == foreign[r] + Share(s', r)
      {
        assert s.table[r] == foreign[r] + Share(s, r);
        RemoveOwnAt(s, x, refused, r, foreign[r]);
      }
    } else {
      RemoveOtherAt(s, x, y, refused);
      assert s.table[Output(y)] == foreign[Output(y)] + Share(s, Output(y));
    }
  }

  lemma RulesDetermineRedirect(x: Redirect, y: Redirect)
    ensures Output(x) == Output(y) ==> x == y
  {
    if Output(x) != Output(y) {
      return;
    }
    DecInjective(x.fromPort, y.fromPort);
    assert Destination(x) == x.toIP + [':'] + Dec(x.toPort);
    assert Destination(y) == y.toIP + [':'] + Dec(y.toPort);
    SplitLastUnique(x.toIP, Dec(x.toPort), y.toIP, Dec(y.toPort), ':');
    DecInjective(x.toPort, y.toPort);
  }

  /** The manager, beside the kernel whose table it edits. */
  class Manager {
    const kernel: Kernel
    var rules: map<string, Redirect>

    constructor (kernel: Kernel)
      ensures this.kernel == kernel && rules == map[] && WellKeyed(rules)
    {
      this.kernel := kernel;
      rules := map[];
    }

    function View(): State
      reads this, kernel
    {
      State(rules, kernel.table)
    }

    method AddRedirectionRule(x: Redirect, env: Env) returns (ok: bool)
      modifies this, kernel
      ensures View() == Next(old(View()), Add(x, env))
      ensures ok == AddSucceeds(old(View()), x, env)
      ensures old(WellKeyed(rules)) ==> WellKeyed(rules)
    {
      var key := Key(x);
      if key in rules {
        return true;
      }
      var added := kernel.Append(env, Output(x));
      if !added {
        return false;
      }
      added := kernel.Append(env, PreRouting(x));
      if !added {
        var undone := kernel.Remove(env, Output(x));
        return false;
      }
      rules := rules[key := x];
      return true;
    }

    /** The two deletion commands of one redirection. */
    method RemovePair(x: Redirect, env: Env) returns (errors: nat)
      modifies kernel
      ensures kernel.table == Delete(env, Delete(env, old(kernel.table), Output(x)), PreRouting(x))
      ensures errors == 0 ==> Output(x) !in env.stuck && PreRouting(x) !in env.stuck
    {
      var out := kernel.Remove(env, Output(x));
      var pre := kernel.Remove(env, PreRouting(x));
      errors := (if out then 0 else 1) + (if pre then 0 else 1);
    }

    method RemoveRedirectionRule(x: Redirect, env: Env)
      modifies this, kernel
      ensures View() == Next(old(View()), Remove(x, env))
      ensures old(WellKeyed(rules)) ==> WellKeyed(rules)
    {
      var key := Key(x);
      if key !in rules {
        return;
      }
      var errors := RemovePair(x, env);
      rules := rules - {key};
    }

    /** Cleanup: the tracked rules are deleted and all keys forgotten. */
    method CleanupAll(env: Env) returns (errors: nat)
      requires WellKeyed(rules)
      modifies this, kernel
      ensures View() == Next(old(View()), Cleanup(env))
      ensures errors == 0 ==> NoneStuck(env, old(rules), old(rules.Keys))
    {
      errors := DeleteTracked(env);
      rules := map[];
    }

    /** Deletes the rules of every tracked key, in any order. */
    method DeleteTracked(env: Env) returns (errors: nat)
      requires WellKeyed(rules)
      modifies kernel
      ensures kernel.table == Cleaned(env, old(kernel.table), rules)
      ensures errors == 0 ==> NoneStuck(env, rules, rules.Keys)
    {
      errors := VisitAll(rules, env);
      AllCleaned(env, old(kernel.table), rules, kernel.table);
    }

    /** The cleanup loop. */
    method VisitAll(tracked: map<string, Redirect>, env: Env) returns (errors: nat)
      requires WellKeyed(tracked)
      modifies kernel
      ensures CleanedUpTo(env, old(kernel.table), tracked, tracked.Keys, kernel.table)
      ensures errors == 0 ==> NoneStuck(env, tracked, tracked.Keys)
    {
      errors := 0;
      var left := tracked.Keys;
      ghost var done: set<string> := {};
      while left != {}
        invariant done <= tracked.Keys && left == tracked.Keys - done
        invariant CleanedUpTo(env, old(kernel.table), tracked, done, kernel.table)
        invariant errors == 0 ==> NoneStuck(env, tracked, done)
        decreases left
      {
        var key :| key in left;
        errors := VisitOne(tracked, key, env, errors, old(kernel.table), done);
        left, done := left - {key}, done + {key};
      }
      assert done == tracked.Keys;
    }

    /** One round of it. */
    method VisitOne(tracked: map<string, Redirect>, key: string, env: Env, errors: nat,
                    ghost table0: multiset<Rule>, ghost done: set<string>)
      returns (total: nat)
      requires WellKeyed(tracked) && key in tracked && key !in done
      requires CleanedUpTo(env, table0, tracked, done, kernel.table)
      requires errors == 0 ==> NoneStuck(env, tracked, done)
      modifies kernel
      ensures CleanedUpTo(env, table0, tracked, done + {key}, kernel.table)
      ensures total == 0 ==> NoneStuck(env, tracked, done + {key})
    {
      CleanedFurther(env, table0, tracked, done, key, kernel.table);
      NoneStuckAdd(env, tracked, done, key);
      var failed := RemovePair(tracked[key], env);
      total := errors + failed;
    }
  }
}
