// The pfctl manager: a list of rule lines with anchors in front, written to a
// file, loaded, and rolled back when that fails.
module Pfctl {
  import opened Text

  datatype PfRule = PfRule(from: string, to: string, protocol: string, action: string, interface_: string)

  /** An address with its port, if it names one. */
  function Place(text: string): string {
    var parts := Split(text, ':');
    parts[0] + if |parts| > 1 && parts[1] != "" then " port " + parts[1] else ""
  }

  function Opening(action: string, interface_: string, protocol: string): string {
    action + (" on " + interface_ + " inet proto " + protocol + " from any to ")
  }

  /** buildRuleString. */
  function BuildRule(r: PfRule): string {
    Opening(r.action, r.interface_, r.protocol) + (Place(r.from) + (" -> " + Place(r.to)))
  }

  const ANCHOR := "anchor \""

  function AnchorLine(name: string): string {
    ANCHOR + name + "\""
  }

  /** A rule line that could be taken for an anchor line. */
  predicate LooksLikeAnchor(line: string) {
    HasPrefix(line, ANCHOR)
  }

  /** It is the action that decides. */
  lemma RuleLooksLikeAnchorIff(r: PfRule)
    ensures LooksLikeAnchor(BuildRule(r)) <==> HasPrefix(r.action, ANCHOR)
  {
    var line := BuildRule(r);
    assert line[..|r.action|] == r.action && line[|r.action|..|r.action| + 4] == " on ";
    assert HasPrefix(r.action, ANCHOR) ==> HasPrefix(r.action + " on ", ANCHOR);
    if LooksLikeAnchor(line) {
      assert forall i :: 0 <= i < |ANCHOR| ==> line[i] == ANCHOR[i];
      assert forall i :: 0 <= i < |r.action| ==> line[i] == r.action[i];
      assert line[|r.action|] == ' ' && line[|r.action| + 1] == 'o';
      assert r.action[..|ANCHOR|] == ANCHOR;
    }
  }

  /** The rule AddPortRedirection adds. */
  function PortRule(fromIP: string, fromPort: int, toIP: string, toPort: int): PfRule {
    PfRule(fromIP + ":" + Dec(fromPort), toIP + ":" + Dec(toPort), "tcp", "rdr", "lo0")
  }

  /** All that a rule line shows of an end: its first two colon-separated parts. */
  function Shown(ip: string, port: int): (string, string) {
    var parts := Split(ip + ":" + Dec(port), ':');
    (parts[0], if |parts| > 1 then parts[1] else "")
  }

  lemma SamePrefix<T>(p: seq<T>, a: seq<T>, b: seq<T>)
    requires p + a == p + b
    ensures a == b
  {
    assert a == (p + a)[|p|..] && b == (p + b)[|p|..];
  }

  lemma SameSuffix(a: string, b: string, x: string)
    requires a + x == b + x
    ensures a == b
  {
    assert a == (a + x)[..|a + x| - |x|] && b == (b + x)[..|b + x| - |x|];
  }

  lemma {:induction false} PartsKeepOut(s: string, c: char, d: char)
    requires d !in s
    ensures forall p :: p in Split(s, c) ==> d !in p
  {
    if s != "" {
      PartsKeepOut(s[1..], c, d);
    }
  }

  lemma ShownWithoutColon(a: string, i: int)
    requires ':' !in a
    ensures Shown(a, i) == (a, Dec(i))
  {
    SplitAtFirst(a, ':', Dec(i));
    SplitNoSeparator(Dec(i), ':');
    assert Split(a + ":" + Dec(i), ':') == [a, Dec(i)];
  }

  lemma FirstPart(s: string, tail: string)
    ensures Split(s + ":" + tail, ':')[0] == s[..IndexOf(s, ':')]
  {
    var q := IndexOf(s, ':');
    if q == |s| {
      assert s[..q] == s;
      SplitAtFirst(s, ':', tail);
    } else {
      assert s + ":" + tail == s[..q] + [':'] + (s[q + 1..] + ":" + tail);
      SplitAtFirst(s[..q], ':', s[q + 1..] + ":" + tail);
    }
  }

  lemma Reassociate(head: string, rest: string, tail: string)
    ensures head + ":" + rest + ":" + tail == head + [':'] + (rest + ":" + tail)
  {
  }

  lemma ShownBehindColon(head: string, rest: string, i: int)
    requires ':' !in head
    ensures Shown(head + ":" + rest, i) == (head, rest[..IndexOf(rest, ':')])
  {
    Reassociate(head, rest, Dec(i));
    SplitAtFirst(head, ':', rest + ":" + Dec(i));
    FirstPart(rest, Dec(i));
  }

  lemma ColonSplits(a: string) returns (head: string, rest: string)
    requires ':' in a
    ensures a == head + ":" + rest && ':' !in head
  {
    var p := IndexOf(a, ':');
    assert a[..|a|] == a;
    head, rest := a[..p], a[p + 1..];
  }

  /** An end shows its port exactly when its address has no colon: otherwise the
      same line serves every port, whatever the addresses. */
  lemma PortShownIff(a: string, i: int, b: string, j: int, k: int)
    requires i != k
    ensures BuildRule(PortRule(a, i, b, j)) != BuildRule(PortRule(a, k, b, j)) <==> ':' !in a
    ensures BuildRule(PortRule(b, j, a, i)) != BuildRule(PortRule(b, j, a, k)) <==> ':' !in a
  {
    var at1, at2, other := Place(a + ":" + Dec(i)), Place(a + ":" + Dec(k)), Place(b + ":" + Dec(j));
    if ':' in a {
      var head, rest := ColonSplits(a);
      ShownBehindColon(head, rest, i);
      ShownBehindColon(head, rest, k);
      assert Shown(a, i) == Shown(a, k);
    } else {
      ShownWithoutColon(a, i);
      ShownWithoutColon(a, k);
      if at1 == at2 {
        SamePrefix(a, " port " + Dec(i), " port " + Dec(k));
        SamePrefix(" port ", Dec(i), Dec(k));
        DecInjective(i, k);
      }
      EndsDetermineLine(at1, at2, other);
    }
  }

  lemma EndsDetermineLine(x: string, y: string, other: string)
    requires x != y
    ensures var o := Opening("rdr", "lo0", "tcp");
            && o + (x + (" -> " + other)) != o + (y + (" -> " + other))
            && o + (other + (" -> " + x)) != o + (other + (" -> " + y))
  {
    var o := Opening("rdr", "lo0", "tcp");
    if o + (x + (" -> " + other)) == o + (y + (" -> " + other)) {
      SamePrefix(o, x + (" -> " + other), y + (" -> " + other));
      SameSuffix(x, y, " -> " + other);
    }
    if o + (other + (" -> " + x)) == o + (other + (" -> " + y)) {
      SamePrefix(o, other + (" -> " + x), other + (" -> " + y));
      SamePrefix(other, " -> " + x, " -> " + y);
      SamePrefix(" -> ", x, y);
    }
  }

  /** A family of failing inputs: addresses that begin with two colons lose all
      their text, so every redirection between such addresses has the same line. */
  lemma ColonAddressesCollide(a: string, i: int, b: string, j: int)
    ensures BuildRule(PortRule("::" + a, i, "::" + b, j)) == Opening("rdr", "lo0", "tcp") + " -> "
  {
    ColonsHidePlace(a, i);
    ColonsHidePlace(b, j);
    assert "" + (" -> " + "") == " -> ";
  }

  lemma ColonsHidePlace(a: string, i: int)
    ensures Place("::" + a + ":" + Dec(i)) == ""
  {
    var rest := a + ":" + Dec(i);
    SplitAtFirst("", ':', [':'] + rest);
    SplitAtFirst("", ':', rest);
    assert "::" + a + ":" + Dec(i) == "" + [':'] + ([':'] + rest);
    assert "" + [':'] + rest == [':'] + rest;
  }

  // Reading a rule line back.

  /** Words, each with a space behind it, and then `rest`. */
  function Spread(words: seq<string>, rest: string): string {
    if words == [] then rest else words[0] + [' '] + Spread(words[1..], rest)
  }

  predicate SpaceFree(words: seq<string>) {
    forall w :: w in words ==> ' ' !in w
  }

  lemma ConsConcat<T>(xs: seq<T>, ys: seq<T>)
    requires xs != []
    ensures [xs[0]] + (xs[1..] + ys) == xs + ys
  {
  }

  lemma {:induction false} SplitSpread(words: seq<string>, rest: string)
    requires SpaceFree(words)
    ensures Split(Spread(words, rest), ' ') == words + Split(rest, ' ')
  {
    var more := Split(rest, ' ');
    if words == [] {
      assert words + more == more;
    } else {
      var tail := Spread(words[1..], rest);
      SplitSpread(words[1..], rest);
      SplitAtFirst(words[0], ' ', tail);
      ConsConcat(words, more);
    }
  }

  lemma {:induction false} SpreadConcat(a: seq<string>, b: seq<string>, rest: string)
    ensures Spread(a + b, rest) == Spread(a, Spread(b, rest))
  {
    if a == [] {
      assert a + b == b;
    } else {
      assert (a + b)[1..] == a[1..] + b;
      SpreadConcat(a[1..], b, rest);
    }
  }

  lemma SpreadThree(a: string, b: string, c: string, rest: string)
    ensures Spread([a, b, c], rest) == a + " " + b + " " + c + " " + rest
  {
    assert [a, b, c][1..] == [b, c] && [b, c][1..] == [c] && [c][1..] == [];
    assert Spread([c], rest) == c + " " + rest;
    assert Spread([b, c], rest) == b + " " + (c + " " + rest);
  }

  /** The words of an end: the part before its first colon, and the next as its port. */
  function PlaceWords(text: string): seq<string> {
    var parts := Split(text, ':');
    [parts[0]] + if |parts| > 1 && parts[1] != "" then ["port", parts[1]] else []
  }

  lemma PlaceIsSpread(text: string, rest: string)
    ensures Place(text) + [' '] + rest == Spread(PlaceWords(text), rest)
  {
    var parts := Split(text, ':');
    if |parts| > 1 && parts[1] != "" {
      SpreadThree(parts[0], "port", parts[1], rest);
      assert PlaceWords(text) == [parts[0], "port", parts[1]];
      assert parts[0] + " port " == parts[0] + " " + "port" + " ";
    } else {
      assert [parts[0]][1..] == [];
    }
  }

  lemma PlaceWordsSpaceFree(text: string)
    requires ' ' !in text
    ensures SpaceFree(PlaceWords(text))
  {
    PartsKeepOut(text, ':', ' ');
  }

  lemma PlaceReadsBack(text: string)
    requires ' ' !in text
    ensures Split(Place(text), ' ') == PlaceWords(text)
  {
    var parts := Split(text, ':');
    PartsKeepOut(text, ':', ' ');
    if |parts| > 1 && parts[1] != "" {
      assert Place(text) == parts[0] + [' '] + ("port" + [' '] + parts[1]);
      SplitAtFirst(parts[0], ' ', "port" + [' '] + parts[1]);
      SplitAtFirst("port", ' ', parts[1]);
      SplitNoSeparator(parts[1], ' ');
    } else {
      assert Place(text) == parts[0];
      SplitNoSeparator(parts[0], ' ');
    }
  }

  lemma FromAnyTo(rest: string)
    ensures Spread(["from", "any", "to"], rest) == "from any to " + rest
  {
    SpreadThree("from", "any", "to", rest);
    assert "from" + " " + "any" + " " + "to" + " " == "from any to ";
  }

  lemma InetProto(protocol: string, rest: string)
    ensures Spread(["inet", "proto", protocol], rest) == "inet proto " + protocol + " " + rest
  {
    SpreadThree("inet", "proto", protocol, rest);
    assert "inet" + " " + "proto" + " " == "inet proto ";
  }

  lemma OnInterface(action: string, interface_: string, rest: string)
    ensures Spread([action, "on", interface_], rest) == action + " on " + interface_ + " " + rest
  {
    SpreadThree(action, "on", interface_, rest);
    assert action + " " + "on" + " " == action + " on ";
  }

  lemma OpeningText(action: string, interface_: string, protocol: string, rest: string)
    ensures Opening(action, interface_, protocol) + rest
            == action + " on " + interface_ + " " + ("inet proto " + protocol + " " + ("from any to " + rest))
  {
    assert " inet proto " == " " + "inet proto " && " from any to " == " " + "from any to ";
  }

  function OpeningWords(r: PfRule): seq<string> {
    [r.action, "on", r.interface_] + (["inet", "proto", r.protocol] + ["from", "any", "to"])
  }

  lemma OpeningIsSpread(r: PfRule, rest: string)
    ensures Opening(r.action, r.interface_, r.protocol) + rest == Spread(OpeningWords(r), rest)
  {
    var third := Spread(["from", "any", "to"], rest);
    SpreadConcat(["inet", "proto", r.protocol], ["from", "any", "to"], rest);
    SpreadConcat([r.action, "on", r.interface_], ["inet", "proto", r.protocol] + ["from", "any", "to"], rest);
    FromAnyTo(rest);
    InetProto(r.protocol, third);
    OnInterface(r.action, r.interface_, Spread(["inet", "proto", r.protocol], third));
    OpeningText(r.action, r.interface_, r.protocol, rest);
  }

  lemma OpeningWordsSpaceFree(r: PfRule)
    requires ' ' !in r.action && ' ' !in r.interface_ && ' ' !in r.protocol
    ensures SpaceFree(OpeningWords(r))
  {
  }

  lemma ArrowIsSpread(from: string, to: string)
    ensures from + (" -> " + to) == from + [' '] + Spread(["->"], to)
  {
    assert ["->"][1..] == [];
    assert " -> " == [' '] + "->" + [' '];
  }

  /** A line of space-free fields reads back word by word: action, interface, protocol,
      and what is redirected in front of the arrow, where to behind it. */
  lemma RuleReadsBack(r: PfRule)
    requires ' ' !in r.action && ' ' !in r.interface_ && ' ' !in r.protocol && ' ' !in r.from && ' ' !in r.to
    ensures Split(BuildRule(r), ' ')
            == [r.action, "on", r.interface_] + (["inet", "proto", r.protocol] + ["from", "any", "to"])
               + (PlaceWords(r.from) + (["->"] + PlaceWords(r.to)))
  {
    var last := Spread(["->"], Place(r.to));
    var tail := Spread(PlaceWords(r.from), last);
    ArrowIsSpread(Place(r.from), Place(r.to));
    PlaceIsSpread(r.from, last);
    OpeningIsSpread(r, tail);
    OpeningWordsSpaceFree(r);
    PlaceWordsSpaceFree(r.from);
    SplitSpread(OpeningWords(r), tail);
    SplitSpread(PlaceWords(r.from), last);
    SplitSpread(["->"], Place(r.to));
    PlaceReadsBack(r.to);
  }

  lemma EndWords(ip: string, port: int)
    ensures var (a, p) := Shown(ip, port);
            PlaceWords(ip + ":" + Dec(port)) == [a] + if p != "" then ["port", p] else []
  {
  }

  /** Two ends with an arrow between them: their words tell where the first one stops. */
  lemma EndsDetermined(a: string, p: string, x: seq<string>, b: string, q: string, y: seq<string>)
    requires [a] + (if p != "" then ["port", p] else []) + (["->"] + x)
          == [b] + (if q != "" then ["port", q] else []) + (["->"] + y)
    ensures a == b && p == q && x == y
  {
    var v := [a] + (if p != "" then ["port", p] else []) + (["->"] + x);
    var w := [b] + (if q != "" then ["port", q] else []) + (["->"] + y);
    assert v[0] == a && w[0] == b;
    assert v[1] == if p != "" then "port" else "->";
    assert w[1] == if q != "" then "port" else "->";
    assert |"port"| != |"->"|;
    if p != "" {
      assert v[2] == p && w[2] == q && v[4..] == x && w[4..] == y;
    } else {
      assert v[2..] == x && w[2..] == y;
    }
  }

  lemma WordsAreEnds(a: string, i: int, b: string, j: int)
    requires ' ' !in a && ' ' !in b
    ensures Split(BuildRule(PortRule(a, i, b, j)), ' ')
            == OpeningWords(PortRule("", 0, "", 0))
               + (PlaceWords(a + ":" + Dec(i)) + (["->"] + PlaceWords(b + ":" + Dec(j))))
  {
    RuleReadsBack(PortRule(a, i, b, j));
  }

  /** Two port redirections between addresses without spaces share a rule line
      exactly when the first two colon-separated parts agree at both ends. */
  lemma PortRulesShareLineIff(a: string, i: int, b: string, j: int, c: string, k: int, d: string, l: int)
    requires ' ' !in a && ' ' !in b && ' ' !in c && ' ' !in d
    ensures BuildRule(PortRule(a, i, b, j)) == BuildRule(PortRule(c, k, d, l)) <==>
            Shown(a, i) == Shown(c, k) && Shown(b, j) == Shown(d, l)
  {
    if BuildRule(PortRule(a, i, b, j)) == BuildRule(PortRule(c, k, d, l)) {
      var to1, to2 := PlaceWords(b + ":" + Dec(j)), PlaceWords(d + ":" + Dec(l));
      WordsAreEnds(a, i, b, j);
      WordsAreEnds(c, k, d, l);
      EndWords(a, i);
      EndWords(b, j);
      EndWords(c, k);
      EndWords(d, l);
      SamePrefix(OpeningWords(PortRule("", 0, "", 0)), PlaceWords(a + ":" + Dec(i)) + (["->"] + to1),
               PlaceWords(c + ":" + Dec(k)) + (["->"] + to2));
      EndsDetermined(Shown(a, i).0, Shown(a, i).1, to1, Shown(c, k).0, Shown(c, k).1, to2);
      EndsDetermined(Shown(b, j).0, Shown(b, j).1, [], Shown(d, l).0, Shown(d, l).1, []);
    }
  }

  /** For IPv4 text different redirections have different lines, so a removal
      takes out the line of the redirection it names. */
  lemma PortRuleInjective(a: string, i: int, b: string, j: int, c: string, k: int, d: string, l: int)
    requires ':' !in a && ':' !in b && ':' !in c && ':' !in d
    requires ' ' !in a && ' ' !in b && ' ' !in c && ' ' !in d
    requires BuildRule(PortRule(a, i, b, j)) == BuildRule(PortRule(c, k, d, l))
    ensures PortRule(a, i, b, j) == PortRule(c, k, d, l) && a == c && i == k && b == d && j == l
  {
    PortRulesShareLineIff(a, i, b, j, c, k, d, l);
    ShownWithoutColon(a, i);
    ShownWithoutColon(b, j);
    ShownWithoutColon(c, k);
    ShownWithoutColon(d, l);
    DecInjective(i, k);
    DecInjective(j, l);
  }

  const TITLE := "# kube-tunnel pfctl rules"

  /** The text of the rule file: a title and one line per rule. */
  function Content(rules: seq<string>): string {
    Join([TITLE] + rules + [""], '\n')
  }

  /** Rule files of one-line rules can be read back. */
  lemma ContentReadsBack(rules: seq<string>)
    requires forall r :: r in rules ==> '\n' !in r
    ensures Split(Content(rules), '\n') == [TITLE] + rules + [""]
  {
    SplitJoin([TITLE] + rules + [""], '\n');
  }

  /** Which commands succeed while an operation runs. */
  datatype Env = Env(write: bool, load: bool, enable: bool)

  datatype State = State(
    rules: seq<string>, anchors: seq<string>, enabled: bool,
    file: string,    // what the rule file holds
    loaded: string)  // the text pf was last loaded with

  datatype Op =
    | AddRule(rule: PfRule, env: Env)
    | RemoveRule(rule: PfRule, env: Env)
    | CreateAnchor(name: string, env: Env)
    | RemoveAnchor(name: string, env: Env)
    | Flush

  predicate Applies(s: State, env: Env) {
    env.write && env.load && (s.enabled || env.enable)
  }

  /** applyRules. */
  function Apply(s: State, env: Env): State {
    var s1 := if env.write then s.(file := Content(s.rules)) else s;
    var s2 := if env.write && env.load then s1.(loaded := s1.file) else s1;
    s2.(enabled := s.enabled || Applies(s, env))
  }

  function RemoveFirst<T(==)>(xs: seq<T>, x: T): seq<T> {
    if xs == [] then [] else if xs[0] == x then xs[1..] else [xs[0]] + RemoveFirst(xs[1..], x)
  }

  /** The lists an operation tries to apply. */
  function Attempt(s: State, op: Op): State {
    match op
    case AddRule(rule, _) => s.(rules := s.rules + [BuildRule(rule)])
    case RemoveRule(rule, _) => s.(rules := RemoveFirst(s.rules, BuildRule(rule)))
    case CreateAnchor(name, _) => s.(anchors := s.anchors + [name], rules := [AnchorLine(name)] + s.rules)
    case RemoveAnchor(name, _) =>
      s.(anchors := RemoveFirst(s.anchors, name), rules := RemoveFirst(s.rules, AnchorLine(name)))
    case Flush => s
  }

  /** pf is missing: adds are refused. */
  predicate Refused(supported: bool, op: Op) {
    op.AddRule? && !supported
  }

  predicate Succeeds(supported: bool, s: State, op: Op) {
    !Refused(supported, op) && (op.Flush? || Applies(s, op.env))
  }

  function Next(supported: bool, s: State, op: Op): State {
    if Refused(supported, op) then s
    else if op.Flush? then
      if s.enabled then s.(rules := [], enabled := false) else s
    else
      var tried := Apply(Attempt(s, op), op.env);
      if (op.AddRule? || op.CreateAnchor?) && !Applies(s, op.env)
      then tried.(rules := s.rules, anchors := s.anchors)
      else tried
  }

  function After(supported: bool, ops: seq<Op>): State
    decreases |ops|
  {
    if ops == [] then State([], [], false, "", "")
    else Next(supported, After(supported, ops[..|ops| - 1]), ops[|ops| - 1])
  }

  function Lines(anchors: seq<string>): seq<string> {
    seq(|anchors|, i requires 0 <= i < |anchors| => AnchorLine(anchors[i]))
  }

  /** Anchor lines first, those of `anchors` in some order, and then lines that
      no anchor line can be mistaken for. */
  predicate Sectioned(s: State) {
    var n := |s.anchors|;
    && n <= |s.rules|
    && multiset(s.rules[..n]) == multiset(Lines(s.anchors))
    && forall i :: n <= i < |s.rules| ==> !LooksLikeAnchor(s.rules[i])
  }

  /** Operations other than FlushRules, on redirects that are not anchors in disguise. */
  predicate Plain(op: Op) {
    op != Flush && (op.AddRule? || op.RemoveRule? ==> !HasPrefix(op.rule.action, ANCHOR))
  }

  lemma {:induction false} RemoveFirstIn<T>(xs: seq<T>, ys: seq<T>, x: T)
    requires x in xs
    ensures RemoveFirst(xs + ys, x) == RemoveFirst(xs, x) + ys
    ensures |RemoveFirst(xs, x)| == |xs| - 1
    ensures multiset(RemoveFirst(xs, x)) == multiset(xs) - multiset{x}
  {
    assert xs == [xs[0]] + xs[1..];
    assert (xs + ys)[1..] == xs[1..] + ys;
    if xs[0] != x {
      RemoveFirstIn(xs[1..], ys, x);
    }
  }

  lemma {:induction false} RemoveFirstNotIn<T>(xs: seq<T>, ys: seq<T>, x: T)
    requires x !in xs
    ensures RemoveFirst(xs + ys, x) == xs + RemoveFirst(ys, x)
  {
    if xs == [] {
      assert xs + ys == ys;
    } else {
      assert (xs + ys)[1..] == xs[1..] + ys;
      RemoveFirstNotIn(xs[1..], ys, x);
    }
  }

  lemma {:induction false} RemoveFirstSubset<T>(xs: seq<T>, x: T)
    ensures forall y :: y in RemoveFirst(xs, x) ==> y in xs
    ensures x !in xs ==> RemoveFirst(xs, x) == xs
  {
    if xs != [] {
      RemoveFirstSubset(xs[1..], x);
    }
  }

  lemma LinesOf(anchors: seq<string>)
    ensures forall l :: l in Lines(anchors) ==> LooksLikeAnchor(l)
    ensures forall name :: AnchorLine(name) in Lines(anchors) <==> name in anchors
  {
    forall name
      ensures AnchorLine(name) in Lines(anchors) <==> name in anchors
    {
      if name in anchors {
        var i :| 0 <= i < |anchors| && anchors[i] == name;
        assert Lines(anchors)[i] == AnchorLine(name);
      }
      if AnchorLine(name) in Lines(anchors) {
        var i :| 0 <= i < |anchors| && Lines(anchors)[i] == AnchorLine(name);
        AnchorLineInjective(anchors[i], name);
      }
    }
  }

  lemma AnchorLineInjective(a: string, b: string)
    requires AnchorLine(a) == AnchorLine(b)
    ensures a == b
  {
    assert AnchorLine(a)[|ANCHOR|..|AnchorLine(a)| - 1] == a;
    assert AnchorLine(b)[|ANCHOR|..|AnchorLine(b)| - 1] == b;
  }

  lemma {:induction false} LinesRemove(anchors: seq<string>, name: string)
    ensures Lines(RemoveFirst(anchors, name)) == RemoveFirst(Lines(anchors), AnchorLine(name))
  {
    if anchors != [] {
      assert Lines(anchors)[1..] == Lines(anchors[1..]);
      if anchors[0] == name {
      } else {
        if AnchorLine(anchors[0]) == AnchorLine(name) {
          AnchorLineInjective(anchors[0], name);
        }
        LinesRemove(anchors[1..], name);
        assert Lines([anchors[0]] + RemoveFirst(anchors[1..], name))
            == [AnchorLine(anchors[0])] + Lines(RemoveFirst(anchors[1..], name));
      }
    }
  }

  /** The anchor lines. */
  function Head(s: State): seq<string>
    requires Sectioned(s)
  {
    s.rules[..|s.anchors|]
  }

  lemma HeadMembers(s: State, line: string)
    requires Sectioned(s)
    ensures s.rules == Head(s) + s.rules[|s.anchors|..]
    ensures line in Head(s) <==> line in Lines(s.anchors)
    ensures line in s.rules[|s.anchors|..] ==> !LooksLikeAnchor(line)
  {
    assert line in Head(s) <==> line in multiset(Head(s));
  }

  lemma AttemptAdd(s: State, rule: PfRule, env: Env)
    requires Sectioned(s) && !HasPrefix(rule.action, ANCHOR)
    ensures Sectioned(Attempt(s, AddRule(rule, env)))
  {
    RuleLooksLikeAnchorIff(rule);
    assert Attempt(s, AddRule(rule, env)).rules[..|s.anchors|] == Head(s);
  }

  lemma AttemptRemove(s: State, rule: PfRule, env: Env)
    requires Sectioned(s) && !HasPrefix(rule.action, ANCHOR)
    ensures Sectioned(Attempt(s, RemoveRule(rule, env)))
  {
    var line, tail := BuildRule(rule), s.rules[|s.anchors|..];
    RuleLooksLikeAnchorIff(rule);
    HeadMembers(s, line);
    LinesOf(s.anchors);
    RemoveFirstNotIn(Head(s), tail, line);
    RemoveFirstSubset(tail, line);
    var s' := Attempt(s, RemoveRule(rule, env));
    assert s'.rules[..|s.anchors|] == Head(s);
    forall i | |s.anchors| <= i < |s'.rules|
      ensures !LooksLikeAnchor(s'.rules[i])
    {
      assert s'.rules[i] in RemoveFirst(tail, line);
      HeadMembers(s, s'.rules[i]);
    }
  }

  lemma AttemptCreateAnchor(s: State, name: string, env: Env)
    requires Sectioned(s)
    ensures Sectioned(Attempt(s, CreateAnchor(name, env)))
  {
    var s' := Attempt(s, CreateAnchor(name, env));
    assert s'.rules[..|s'.anchors|] == [AnchorLine(name)] + Head(s);
    assert Lines(s'.anchors) == Lines(s.anchors) + [AnchorLine(name)];
  }

  lemma AttemptRemoveAnchor(s: State, name: string, env: Env)
    requires Sectioned(s)
    ensures Sectioned(Attempt(s, RemoveAnchor(name, env)))
  {
    var s' := Attempt(s, RemoveAnchor(name, env));
    var line, tail := AnchorLine(name), s.rules[|s.anchors|..];
    HeadMembers(s, line);
    LinesOf(s.anchors);
    LinesRemove(s.anchors, name);
    if name in s.anchors {
      RemoveFirstIn(s.anchors, [], name);
      RemoveFirstIn(Head(s), tail, line);
      RemoveFirstIn(Lines(s.anchors), [], line);
      assert s'.rules[..|s'.anchors|] == RemoveFirst(Head(s), line);
      assert s'.rules[|s'.anchors|..] == tail;
      forall i | |s'.anchors| <= i < |s'.rules|
        ensures !LooksLikeAnchor(s'.rules[i])
      {
        assert s'.rules[i] == tail[i - |s'.anchors|];
        HeadMembers(s, s'.rules[i]);
      }
    } else {
      RemoveFirstSubset(s.anchors, name);
      RemoveFirstSubset(s.rules, line);
    }
  }

  lemma NextLists(supported: bool, s: State, op: Op)
    requires op != Flush
    ensures var s', t := Next(supported, s, op), Attempt(s, op);
            || (s'.rules == s.rules && s'.anchors == s.anchors)
            || (s'.rules == t.rules && s'.anchors == t.anchors)
  {
  }

  lemma SectionedAttempt(s: State, op: Op)
    requires Sectioned(s) && Plain(op)
    ensures Sectioned(Attempt(s, op))
  {
    match op
    case AddRule(rule, env) => AttemptAdd(s, rule, env);
    case RemoveRule(rule, env) => AttemptRemove(s, rule, env);
    case CreateAnchor(name, env) => AttemptCreateAnchor(s, name, env);
    case RemoveAnchor(name, env) => AttemptRemoveAnchor(s, name, env);
  }

  lemma SectionedStep(supported: bool, s: State, op: Op)
    requires Sectioned(s) && Plain(op)
    ensures Sectioned(Next(supported, s, op))
  {
    SectionedAttempt(s, op);
    NextLists(supported, s, op);
  }

  /** In any run of such operations, whatever commands fail, the list is anchor
      lines matching `anchors` as a multiset, then redirect lines. */
  lemma {:induction false} ListsStayConsistent(supported: bool, ops: seq<Op>)
    requires forall op :: op in ops ==> Plain(op)
    ensures Sectioned(After(supported, ops))
    decreases |ops|
  {
    if ops == [] {
      assert Lines([]) == [];
    } else {
      ListsStayConsistent(supported, ops[..|ops| - 1]);
      SectionedStep(supported, After(supported, ops[..|ops| - 1]), ops[|ops| - 1]);
    }
  }

  /** FlushRules empties the rules and keeps the anchors: the lists stay
      consistent exactly when pf was off or no anchor existed. */
  lemma FlushKeepsConsistentIff(supported: bool, s: State)
    requires Sectioned(s)
    ensures Sectioned(Next(supported, s, Flush)) <==> !s.enabled || s.anchors == []
    ensures var s' := Next(supported, s, Flush);
            !s'.enabled && s'.anchors == s.anchors && s'.rules == if s.enabled then [] else s.rules
  {
    if s.anchors == [] {
      assert s.rules[..0] == [];
    }
  }

  /** Every operation that applies leaves pf loaded with the text of the list. */
  lemma SuccessLoadsList(supported: bool, s: State, op: Op)
    requires Succeeds(supported, s, op) && !op.Flush?
    ensures var s' := Next(supported, s, op);
            && s'.loaded == Content(s'.rules) && s'.file == s'.loaded && s'.enabled
            && s'.rules == Attempt(s, op).rules && s'.anchors == Attempt(s, op).anchors
  {
  }

  /** How far the text of the attempted list gets, whether or not the operation
      succeeds: into the file if that can be written, and from there into pf. Only an
      added rule is refused where pf is missing, and changes nothing. */
  lemma WhatReachesPf(supported: bool, s: State, op: Op)
    requires !op.Flush?
    ensures op.AddRule? && !supported ==> Next(supported, s, op) == s && !Succeeds(supported, s, op)
    ensures var s', text := Next(supported, s, op), Content(Attempt(s, op).rules);
            !op.AddRule? || supported ==>
            && s'.file == (if op.env.write then text else s.file)
            && s'.loaded == (if op.env.write && op.env.load then text else s.loaded)
            && (s'.enabled <==> s.enabled || (op.env.write && op.env.load && op.env.enable))
  {
  }

  /** Adding a rule and removing it again leaves the lists as they were, up to the
      place of the line if it was there before. */
  lemma AddRemoveRoundTrip(supported: bool, s: State, rule: PfRule, add: Env, remove: Env)
    requires Succeeds(supported, s, AddRule(rule, add))
    ensures var s' := Next(supported, Next(supported, s, AddRule(rule, add)), RemoveRule(rule, remove));
            && s'.anchors == s.anchors && multiset(s'.rules) == multiset(s.rules)
            && (BuildRule(rule) !in s.rules ==> s'.rules == s.rules)
  {
    var line := BuildRule(rule);
    var s1 := Next(supported, s, AddRule(rule, add));
    assert s1.rules == s.rules + [line];
    RemoveFirstIn(s1.rules, [], line);
    assert s1.rules + [] == s1.rules;
    if line !in s.rules {
      RemoveFirstNotIn(s.rules, [line], line);
      assert [line][1..] == [];
    }
  }

  /** So does creating an anchor and removing it, and the lines keep their places. */
  lemma AnchorRoundTrip(supported: bool, s: State, name: string, create: Env, remove: Env)
    requires Succeeds(supported, s, CreateAnchor(name, create))
    ensures var s' := Next(supported, Next(supported, s, CreateAnchor(name, create)), RemoveAnchor(name, remove));
            && s'.rules == s.rules && multiset(s'.anchors) == multiset(s.anchors)
            && (name !in s.anchors ==> s'.anchors == s.anchors)
  {
    var s1 := Next(supported, s, CreateAnchor(name, create));
    assert s1.anchors == s.anchors + [name] && s1.rules == [AnchorLine(name)] + s.rules;
    assert s1.rules[1..] == s.rules;
    RemoveFirstIn(s1.anchors, [], name);
    assert s1.anchors + [] == s1.anchors;
    if name !in s.anchors {
      RemoveFirstNotIn(s.anchors, [name], name);
      assert [name][1..] == [];
    }
  }

  /** A failed add or anchor creation restores both lists; pf itself keeps its
      old text unless the load went through and only enabling failed. */
  lemma FailureRestoresLists(supported: bool, s: State, op: Op)
    requires op.AddRule? || op.CreateAnchor?
    requires !Succeeds(supported, s, op)
    ensures var s' := Next(supported, s, op);
            && s'.rules == s.rules && s'.anchors == s.anchors && s'.enabled == s.enabled
            && (Refused(supported, op) || !op.env.write || !op.env.load ==> s'.loaded == s.loaded)
            && (!Refused(supported, op) && op.env.write && op.env.load ==>
                  s'.loaded == Content(Attempt(s, op).rules) && !s.enabled && !op.env.enable)
  {
  }

  lemma {:induction false} JoinLength(parts: seq<string>, c: char)
    requires |parts| >= 1
    ensures |Join(parts, c)| == TotalLength(parts) - 1
  {
    if |parts| > 1 {
      JoinLength(parts[1..], c);
    }
  }

  function TotalLength(lines: seq<string>): nat {
    if lines == [] then 0 else |lines[0]| + 1 + TotalLength(lines[1..])
  }

  lemma {:induction false} TotalLengthConcat(a: seq<string>, b: seq<string>)
    ensures TotalLength(a + b) == TotalLength(a) + TotalLength(b)
  {
    if a == [] {
      assert a + b == b;
    } else {
      assert (a + b)[1..] == a[1..] + b;
      TotalLengthConcat(a[1..], b);
    }
  }

  lemma ContentLength(rules: seq<string>)
    ensures |Content(rules)| == |TITLE| + 1 + TotalLength(rules)
  {
    JoinLength([TITLE] + rules + [""], '\n');
    TotalLengthConcat([TITLE] + rules, [""]);
    TotalLengthConcat([TITLE], rules);
    assert TotalLength([""]) == 1 && TotalLength([TITLE]) == |TITLE| + 1 by {
      assert [""][1..] == [] && [TITLE][1..] == [];
    }
  }

  lemma {:induction false} RemoveFirstShrinks(xs: seq<string>, x: string)
    ensures TotalLength(RemoveFirst(xs, x)) == TotalLength(xs) - if x in xs then |x| + 1 else 0
  {
    if xs != [] && xs[0] != x {
      RemoveFirstShrinks(xs[1..], x);
      var rest := RemoveFirst(xs[1..], x);
      assert ([xs[0]] + rest)[1..] == rest;
    }
  }

  /** The line a removal takes out. */
  function RemovedLine(op: Op): string
    requires op.RemoveRule? || op.RemoveAnchor?
  {
    if op.RemoveRule? then BuildRule(op.rule) else AnchorLine(op.name)
  }

  /** A removal is not rolled back: what pf holds stays the text of the list exactly
      when write and load succeed, or there was no such line to take out. */
  lemma RemovalKeepsLoadedIff(supported: bool, s: State, op: Op)
    requires op.RemoveRule? || op.RemoveAnchor?
    requires s.loaded == Content(s.rules)
    ensures var s' := Next(supported, s, op);
            s'.loaded == Content(s'.rules) <==>
            (op.env.write && op.env.load) || RemovedLine(op) !in s.rules
  {
    var line := RemovedLine(op);
    var s' := Next(supported, s, op);
    assert s'.rules == RemoveFirst(s.rules, line);
    RemoveFirstSubset(s.rules, line);
    if !(op.env.write && op.env.load) {
      assert s'.loaded == s.loaded;
      ContentLength(s.rules);
      ContentLength(s'.rules);
      RemoveFirstShrinks(s.rules, line);
    }
  }

  class Manager {
    const supported: bool
    var rules: seq<string>
    var anchors: seq<string>
    var enabled: bool
    var file: string
    var loaded: string

    constructor (supported: bool)
      ensures this.supported == supported && View() == State([], [], false, "", "")
    {
      this.supported := supported;
      rules, anchors, enabled, file, loaded := [], [], false, "", "";
    }

    function View(): State
      reads this
    {
      State(rules, anchors, enabled, file, loaded)
    }

    /** The builder loop of applyRules. */
    method WriteContent() returns (content: string)
      ensures content == Content(rules)
    {
      content := TITLE + "\n";
      assert ([TITLE] + rules + [""])[1..] == rules[0..] + [""];
      for i := 0 to |rules|
        invariant content + Join(rules[i..] + [""], '\n') == Content(rules)
      {
        assert rules[i..] + [""] == [rules[i]] + (rules[i + 1..] + [""]);
        content := content + (rules[i] + "\n");
      }
      assert rules[|rules|..] + [""] == [""];
    }

    method ApplyRules(env: Env) returns (ok: bool)
      modifies this`enabled, this`file, this`loaded
      ensures View() == Apply(old(View()), env) && ok == Applies(old(View()), env)
    {
      var content := WriteContent();
      if !env.write {
        return false;
      }
      file := content;
      if !env.load {
        return false;
      }
      loaded := file;
      if !enabled {
        if !env.enable {
          return false;
        }
        enabled := true;
      }
      return true;
    }

    method AddRedirectionRule(rule: PfRule, env: Env) returns (ok: bool)
      modifies this
      ensures View() == Next(supported, old(View()), AddRule(rule, env))
      ensures ok == Succeeds(supported, old(View()), AddRule(rule, env))
    {
      if !supported {
        return false;
      }
      rules := rules + [BuildRule(rule)];
      ok := ApplyRules(env);
      if !ok {
        rules := rules[..|rules| - 1];
      }
    }

    method RemoveRedirectionRule(rule: PfRule, env: Env) returns (ok: bool)
      modifies this
      ensures View() == Next(supported, old(View()), RemoveRule(rule, env))
      ensures ok == Succeeds(supported, old(View()), RemoveRule(rule, env))
    {
      rules := SpliceOut(rules, BuildRule(rule));
      ok := ApplyRules(env);
    }

    method AddAnchor(name: string, env: Env) returns (ok: bool)
      modifies this
      ensures View() == Next(supported, old(View()), CreateAnchor(name, env))
      ensures ok == Succeeds(supported, old(View()), CreateAnchor(name, env))
    {
      anchors := anchors + [name];
      rules := [AnchorLine(name)] + rules;
      ok := ApplyRules(env);
      if !ok {
        anchors := anchors[..|anchors| - 1];
        rules := rules[1..];
      }
    }

    method DropAnchor(name: string, env: Env) returns (ok: bool)
      modifies this
      ensures View() == Next(supported, old(View()), RemoveAnchor(name, env))
      ensures ok == Succeeds(supported, old(View()), RemoveAnchor(name, env))
    {
      anchors := SpliceOut(anchors, name);
      rules := SpliceOut(rules, AnchorLine(name));
      ok := ApplyRules(env);
    }

    method FlushRules()
      modifies this`rules, this`enabled
      ensures View() == Next(supported, old(View()), Flush)
    {
      if !enabled {
        return;
      }
      rules := [];
      enabled := false;
    }
  }

  /** The search-and-splice loop of both removals. */
  method SpliceOut(xs: seq<string>, x: string) returns (r: seq<string>)
    ensures r == RemoveFirst(xs, x)
  {
    for i := 0 to |xs|
      invariant x !in xs[..i]
    {
      if xs[i] == x {
        assert xs == xs[..i] + xs[i..];
        RemoveFirstNotIn(xs[..i], xs[i..], x);
        return xs[..i] + xs[i + 1..];
      }
    }
    RemoveFirstSubset(xs, x);
    return xs;
  }
}
