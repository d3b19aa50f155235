// The kernel's NAT table as a bag of rules, changed by `iptables -A` and `-D`.
module NatTable {

  /** One rule, in the words of the command that adds or deletes it. */
  datatype Rule = Rule(chain: string, dst: string, dport: string, jump: string, to: string)

  /** What the environment does to commands: an append of a refused rule fails,
      and so does the deletion of a stuck one. */
  datatype Env = Env(refused: set<Rule>, stuck: set<Rule>)

  /** `-D`: takes one copy out, unless there is none or the command fails. */
  function Delete(env: Env, table: multiset<Rule>, r: Rule): multiset<Rule> {
    if r in env.stuck then table else table - multiset{r}
  }

  class Kernel {
    var table: multiset<Rule>

    method Append(env: Env, r: Rule) returns (ok: bool)
      modifies this
      ensures ok == (r !in env.refused)
      ensures table == if ok then old(table) + multiset{r} else old(table)
    {
      ok := r !in env.refused;
      if ok {
        table := table + multiset{r};
      }
    }

    method Remove(env: Env, r: Rule) returns (ok: bool)
      modifies this
      ensures ok == (r in old(table) && r !in env.stuck)
      ensures table == Delete(env, old(table), r)
    {
      ok := r in table && r !in env.stuck;
      if ok {
        table := table - multiset{r};
      }
    }
  }
}
