// The string operations of Go's `strings` and `strconv` packages that the
// modelled code relies on, each with the law that pins it down.
module Text {

  datatype Option<+T> = None | Some(value: T)

  /** `strings.Split` for a one-character separator. */
  function Split(s: string, c: char): (parts: seq<string>)
    ensures |parts| >= 1
    ensures forall p :: p in parts ==> c !in p
  {
    if s == "" then [""]
    else
      var rest := Split(s[1..], c);
      if s[0] == c then [""] + rest else [[s[0]] + rest[0]] + rest[1..]
  }

  function Join(parts: seq<string>, c: char): string
    requires |parts| >= 1
  {
    if |parts| == 1 then parts[0] else parts[0] + [c] + Join(parts[1..], c)
  }

  lemma {:induction false} JoinSplit(s: string, c: char)
    ensures Join(Split(s, c), c) == s
  {
    if s != "" {
      var rest := Split(s[1..], c);
      JoinSplit(s[1..], c);
      if s[0] == c {
        assert ([""] + rest)[1..] == rest;
      } else {
        var parts := [[s[0]] + rest[0]] + rest[1..];
        assert parts[1..] == rest[1..];
      }
    }
  }

  lemma {:induction false} SplitNoSeparator(s: string, c: char)
    requires c !in s
    ensures Split(s, c) == [s]
  {
    if s != "" {
      SplitNoSeparator(s[1..], c);
      assert [s[0]] + s[1..] == s;
    }
  }

  lemma {:induction false} SplitAtFirst(p: string, c: char, rest: string)
    requires c !in p
    ensures Split(p + [c] + rest, c) == [p] + Split(rest, c)
  {
    var s := p + [c] + rest;
    if p == "" {
      assert s[1..] == rest;
    } else {
      assert s[1..] == p[1..] + [c] + rest;
      SplitAtFirst(p[1..], c, rest);
      assert [s[0]] + p[1..] == p;
      assert ([p[1..]] + Split(rest, c))[1..] == Split(rest, c);
    }
  }

  /** A separator in the middle splits both sides on their own. */
  lemma {:induction false} SplitConcat(p: string, c: char, rest: string)
    ensures Split(p + [c] + rest, c) == Split(p, c) + Split(rest, c)
  {
    var s := p + [c] + rest;
    if p == "" {
      assert s[1..] == rest;
    } else {
      assert s[1..] == p[1..] + [c] + rest;
      SplitConcat(p[1..], c, rest);
    }
  }

  lemma {:induction false} JoinConcat(a: seq<string>, b: seq<string>, c: char)
    requires |a| >= 1 && |b| >= 1
    ensures Join(a + b, c) == Join(a, c) + [c] + Join(b, c)
  {
    if |a| == 1 {
      assert (a + b)[1..] == b;
    } else {
      assert (a + b)[1..] == a[1..] + b;
      JoinConcat(a[1..], b, c);
    }
  }

  lemma {:induction false} JoinKeepsOut(parts: seq<string>, c: char, d: char)
    requires |parts| >= 1 && c != d && forall p :: p in parts ==> d !in p
    ensures d !in Join(parts, c)
  {
    if |parts| > 1 {
      JoinKeepsOut(parts[1..], c, d);
    }
  }

  /** Splitting undoes joining: the printed parts come back exactly. */
  lemma {:induction false} SplitJoin(parts: seq<string>, c: char)
    requires |parts| >= 1
    requires forall p :: p in parts ==> c !in p
    ensures Split(Join(parts, c), c) == parts
  {
    if |parts| == 1 {
      SplitNoSeparator(parts[0], c);
    } else {
      SplitJoin(parts[1..], c);
      SplitAtFirst(parts[0], c, Join(parts[1..], c));
      assert [parts[0]] + parts[1..] == parts;
    }
  }

  /** `strings.HasPrefix`. */
  predicate HasPrefix(s: string, prefix: string) {
    prefix <= s
  }

  /** `sub` occurs in s at position i. */
  predicate At(s: string, sub: string, i: int) {
    0 <= i <= |s| - |sub| && s[i..i + |sub|] == sub
  }

  /** `strings.Contains`. */
  predicate Contains(s: string, sub: string) {
    exists i | 0 <= i <= |s| :: At(s, sub, i)
  }

  /** Among labels joined by c, the text "c w c" occurs exactly where w is a label
      that is neither the first nor the last. */
  lemma InnerLabelIff(labels: seq<string>, c: char, w: string)
    requires |labels| >= 1 && c !in w && forall l :: l in labels ==> c !in l
    ensures Contains(Join(labels, c), [c] + w + [c]) <==> exists i :: 0 < i < |labels| - 1 && labels[i] == w
  {
    var s, sub := Join(labels, c), [c] + w + [c];
    if i :| 0 <= i <= |s| && At(s, sub, i) {
      InnerTextIsLabel(labels, c, w, i);
    }
    if i :| 0 < i < |labels| - 1 && labels[i] == w {
      InnerLabelIsText(labels, c, w, i);
    }
  }

  lemma CutAround(s: string, c: char, w: string, i: int)
    requires At(s, [c] + w + [c], i)
    ensures s == s[..i] + [c] + (w + [c] + s[i + |w| + 2..])
  {
    assert s == s[..i] + s[i..i + |w| + 2] + s[i + |w| + 2..];
  }

  lemma InnerTextIsLabel(labels: seq<string>, c: char, w: string, i: int)
    requires |labels| >= 1 && c !in w && forall l :: l in labels ==> c !in l
    requires At(Join(labels, c), [c] + w + [c], i)
    ensures exists j :: 0 < j < |labels| - 1 && labels[j] == w
  {
    var s := Join(labels, c);
    var p, q := s[..i], s[i + |w| + 2..];
    CutAround(s, c, w, i);
    SplitConcat(p, c, w + [c] + q);
    SplitAtFirst(w, c, q);
    SplitJoin(labels, c);
    assert labels[|Split(p, c)|] == w;
  }

  lemma InnerLabelIsText(labels: seq<string>, c: char, w: string, i: int)
    requires 0 < i < |labels| - 1 && labels[i] == w
    ensures Contains(Join(labels, c), [c] + w + [c])
  {
    var a, b := labels[..i], labels[i + 1..];
    assert labels == a + ([w] + b);
    JoinConcat(a, [w] + b, c);
    JoinConcat([w], b, c);
    var s, p := Join(labels, c), Join(a, c);
    assert s == p + [c] + (w + [c] + Join(b, c));
    assert s == p + ([c] + w + [c]) + Join(b, c);
    assert At(s, [c] + w + [c], |p|);
  }

  lemma PrefixEndsInside(s: string, w: string, c: char)
    requires HasPrefix(s, w + [c])
    ensures c in s
  {
    assert s[|w|] == (w + [c])[|w|];
  }

  /** The joined text begins with "w c" exactly when w is the first of several labels. */
  lemma FirstLabelIff(labels: seq<string>, c: char, w: string)
    requires |labels| >= 1 && c !in w && forall l :: l in labels ==> c !in l
    ensures HasPrefix(Join(labels, c), w + [c]) <==> |labels| >= 2 && labels[0] == w
  {
    var s := Join(labels, c);
    if |labels| == 1 {
      if HasPrefix(s, w + [c]) {
        PrefixEndsInside(s, w, c);
      }
    } else {
      var rest := Join(labels[1..], c);
      assert s == labels[0] + [c] + rest;
      if HasPrefix(s, w + [c]) {
        assert s == w + [c] + s[|w| + 1..];
        SplitOnceUnique(labels[0], rest, w, s[|w| + 1..], c);
      }
    }
  }

  lemma OneLabelIff(labels: seq<string>, c: char, w: string)
    requires |labels| >= 1 && c !in w && forall l :: l in labels ==> c !in l
    ensures Join(labels, c) == w <==> labels == [w]
  {
    SplitJoin(labels, c);
    SplitNoSeparator(w, c);
  }

  /** Text that contains a longer text contains what that begins with. */
  lemma ContainsLess(s: string, a: string, b: string)
    requires Contains(s, a + b)
    ensures Contains(s, a)
  {
    var i :| 0 <= i <= |s| && At(s, a + b, i);
    assert s[i..i + |a + b|][..|a|] == a;
    assert At(s, a, i);
  }

  lemma AtTail(s: string, sub: string, j: int)
    requires s != "" && j >= 1
    ensures At(s, sub, j) == At(s[1..], sub, j - 1)
  {
    if j <= |s| - |sub| {
      var here, there := s[j..j + |sub|], s[1..][j - 1..j - 1 + |sub|];
      assert forall i :: 0 <= i < |sub| ==> here[i] == s[j + i] == there[i];
      assert here == there;
    }
  }

  /** `strings.Index`: the first occurrence, or -1. */
  function Index(s: string, sub: string): (r: int)
    ensures r == -1 || At(s, sub, r)
    ensures r >= -1
  {
    if At(s, sub, 0) then 0
    else if s == "" then -1
    else
      var r := Index(s[1..], sub);
      if r == -1 then -1
      else
        AtTail(s, sub, r + 1);
        r + 1
  }

  /** No occurrence comes before it, and -1 means there is none. */
  lemma {:induction false} IndexIsFirst(s: string, sub: string, j: int)
    requires At(s, sub, j)
    ensures 0 <= Index(s, sub) <= j
  {
    if !At(s, sub, 0) {
      AtTail(s, sub, j);
      IndexIsFirst(s[1..], sub, j - 1);
    }
  }

  /** `strings.LastIndex` for a single character, or -1. */
  function LastIndexOf(s: string, c: char): (i: int)
    ensures -1 <= i < |s|
    ensures i >= 0 ==> s[i] == c
    ensures forall j :: i < j < |s| ==> s[j] != c
  {
    if s == "" then -1
    else if s[|s| - 1] == c then |s| - 1
    else LastIndexOf(s[..|s| - 1], c)
  }

  lemma {:induction false} LastIndexOfCut(p: string, c: char, r: string)
    requires c !in r
    ensures LastIndexOf(p + [c] + r, c) == |p|
  {
    var s := p + [c] + r;
    if r == "" {
      assert s[|s| - 1] == c;
    } else {
      assert s[|s| - 1] == r[|r| - 1];
      assert s[..|s| - 1] == p + [c] + r[..|r| - 1];
      LastIndexOfCut(p, c, r[..|r| - 1]);
    }
  }

  lemma {:induction false} IndexOfCut(p: string, c: char, r: string)
    requires c !in p
    ensures IndexOf(p + [c] + r, c) == |p|
  {
    var s := p + [c] + r;
    if p == "" {
      assert s[0] == c;
    } else {
      assert s[1..] == p[1..] + [c] + r;
      IndexOfCut(p[1..], c, r);
    }
  }

  /** The position of the first `c`, or the length. */
  function IndexOf(s: string, c: char): (i: nat)
    ensures i <= |s| && c !in s[..i]
    ensures i < |s| ==> s[i] == c
  {
    if s == "" || s[0] == c then 0
    else
      var i := IndexOf(s[1..], c);
      assert s[..i + 1] == [s[0]] + s[1..][..i];
      i + 1
  }

  /** `strings.SplitN`: like Split, but at most n parts. */
  function SplitN(s: string, c: char, n: nat): (parts: seq<string>)
    requires n >= 1
    ensures 1 <= |parts| <= n
    decreases n
  {
    var i := IndexOf(s, c);
    if n == 1 || i == |s| then [s] else [s[..i]] + SplitN(s[i + 1..], c, n - 1)
  }

  /** The code points `strings.TrimSpace` removes (Unicode White_Space). */
  predicate IsSpace(ch: char) {
    var u := ch as int;
    || 0x09 <= u <= 0x0D || u == 0x20 || u == 0x85 || u == 0xA0 || u == 0x1680
    || 0x2000 <= u <= 0x200A || u == 0x2028 || u == 0x2029 || u == 0x202F
    || u == 0x205F || u == 0x3000
  }

  function LeadingSpaces(s: string): (i: nat)
    ensures i <= |s|
    ensures forall k :: 0 <= k < i ==> IsSpace(s[k])
    ensures i < |s| ==> !IsSpace(s[i])
  {
    if s == "" || !IsSpace(s[0]) then 0 else 1 + LeadingSpaces(s[1..])
  }

  function TrailingStart(s: string): (j: nat)
    ensures j <= |s|
    ensures forall k :: j <= k < |s| ==> IsSpace(s[k])
    ensures j > 0 ==> !IsSpace(s[j - 1])
  {
    if s == "" || !IsSpace(s[|s| - 1]) then |s| else TrailingStart(s[..|s| - 1])
  }

  /** `strings.TrimSpace`: the part between the leading and trailing spaces. */
  function TrimSpace(s: string): (t: string)
    ensures t != "" ==> !IsSpace(t[0]) && !IsSpace(t[|t| - 1])
    ensures forall ch :: ch in t ==> ch in s
  {
    var left := s[LeadingSpaces(s)..];
    left[..TrailingStart(left)]
  }

  predicate AllSpaces(s: string) {
    forall k :: 0 <= k < |s| ==> IsSpace(s[k])
  }

  lemma TrimLeft(left: string, rest: string)
    requires AllSpaces(left) && (rest != "" ==> !IsSpace(rest[0]))
    ensures LeadingSpaces(left + rest) == |left|
  {
    var s := left + rest;
    assert forall k :: 0 <= k < |left| ==> s[k] == left[k];
    assert rest != "" ==> s[|left|] == rest[0];
  }

  lemma TrimRight(core: string, right: string)
    requires AllSpaces(right) && (core != "" ==> !IsSpace(core[|core| - 1]))
    ensures TrailingStart(core + right) == |core|
  {
    var s := core + right;
    assert forall k :: |core| <= k < |s| ==> s[k] == right[k - |core|];
    assert core != "" ==> s[|core| - 1] == core[|core| - 1];
  }

  /** Trimming takes off exactly the spaces around the text. */
  lemma TrimSpaceExact(left: string, core: string, right: string)
    requires AllSpaces(left) && AllSpaces(right)
    requires core != "" ==> !IsSpace(core[0]) && !IsSpace(core[|core| - 1])
    ensures TrimSpace(left + core + right) == core
  {
    var s := left + core + right;
    if core == "" {
      assert s == (left + right) + "";
      TrimLeft(left + right, "");
    } else {
      assert s == left + (core + right);
      TrimLeft(left, core + right);
      TrimRight(core, right);
    }
  }

  predicate IsDigit(ch: char) {
    '0' <= ch <= '9'
  }

  function Digit(d: nat): (ch: char)
    requires d < 10
    ensures IsDigit(ch)
  {
    ('0' as int + d) as char
  }

  /** `%d` for a non-negative number. */
  function DecNat(n: nat): (s: string)
    ensures |s| >= 1
    ensures forall ch :: ch in s ==> IsDigit(ch)
  {
    if n < 10 then [Digit(n)] else DecNat(n / 10) + [Digit(n % 10)]
  }

  /** `%d`. */
  function Dec(n: int): (s: string)
    ensures |s| >= 1
    ensures forall ch :: ch in s ==> IsDigit(ch) || ch == '-'
  {
    if n < 0 then "-" + DecNat(-n) else DecNat(n)
  }

  predicate AllDigits(s: string) {
    forall ch :: ch in s ==> IsDigit(ch)
  }

  function DigitsValue(s: string): (v: int)
    requires AllDigits(s)
    ensures v >= 0
  {
    if s == "" then 0
    else
      var last := s[|s| - 1];
      assert last in s;
      DigitsValue(s[..|s| - 1]) * 10 + (last as int - '0' as int)
  }

  const MAX_INT64 := 0x7FFF_FFFF_FFFF_FFFF

  /** `strconv.Atoi` on a 64-bit platform: an optional sign, then decimal
      digits only, in the range of int64. */
  function Atoi(s: string): (r: Option<int>)
  {
    var signed := s != "" && (s[0] == '-' || s[0] == '+');
    var body := if signed then s[1..] else s;
    if body == "" || !AllDigits(body) then None
    else
      var v := if signed && s[0] == '-' then -DigitsValue(body) else DigitsValue(body);
      if -MAX_INT64 - 1 <= v <= MAX_INT64 then Some(v) else None
  }

  lemma {:induction false} DigitsValueDecNat(n: nat)
    ensures DigitsValue(DecNat(n)) == n
  {
    if n >= 10 {
      DigitsValueDecNat(n / 10);
      var s := DecNat(n);
      assert s[..|s| - 1] == DecNat(n / 10);
    } else {
      var s := DecNat(n);
      assert s[..|s| - 1] == "";
    }
  }

  /** Printing then parsing gives the number back, exactly for every int64. */
  lemma AtoiDec(n: int)
    ensures Atoi(Dec(n)) == if -MAX_INT64 - 1 <= n <= MAX_INT64 then Some(n) else None
  {
    DigitsValueDecNat(if n < 0 then -n else n);
    if n < 0 {
      assert Dec(n)[1..] == DecNat(-n);
    } else {
      assert IsDigit(DecNat(n)[0]);
    }
  }

  lemma DecParts(n: int)
    ensures n < 0 <==> Dec(n)[0] == '-'
    ensures (if n < 0 then Dec(n)[1..] else Dec(n)) == DecNat(if n < 0 then -n else n)
  {
    if n >= 0 {
      assert DecNat(n)[0] in DecNat(n);
    }
  }

  lemma DecInjective(a: int, b: int)
    requires Dec(a) == Dec(b)
    ensures a == b
  {
    DecParts(a);
    DecParts(b);
    DigitsValueDecNat(if a < 0 then -a else a);
    DigitsValueDecNat(if b < 0 then -b else b);
  }

  /** A string determines how it splits around its first `c`. */
  lemma SplitOnceUnique(p1: string, r1: string, p2: string, r2: string, c: char)
    requires c !in p1 && c !in p2
    requires p1 + [c] + r1 == p2 + [c] + r2
    ensures p1 == p2 && r1 == r2
  {
    var s := p1 + [c] + r1;
    assert p1 == s[..|p1|] && p2 == s[..|p2|];
    assert s[|p1|] == c && s[|p2|] == c;
    assert forall i :: 0 <= i < |p1| ==> s[i] == p1[i];
    assert forall i :: 0 <= i < |p2| ==> s[i] == p2[i];
    assert r1 == s[|p1| + 1..] && r2 == s[|p2| + 1..];
  }

  /** A string determines how it splits around its last `c`. */
  lemma SplitLastUnique(p1: string, r1: string, p2: string, r2: string, c: char)
    requires c !in r1 && c !in r2
    requires p1 + [c] + r1 == p2 + [c] + r2
    ensures p1 == p2 && r1 == r2
  {
    var s := p1 + [c] + r1;
    assert s[|p1|] == c && s[|p2|] == c;
    assert forall i :: |p1| < i < |s| ==> s[i] == r1[i - |p1| - 1];
    assert forall i :: |p2| < i < |s| ==> s[i] == r2[i - |p2| - 1];
    assert p1 == s[..|p1|] && p2 == s[..|p2|];
    assert r1 == s[|p1| + 1..] && r2 == s[|p2| + 1..];
  }
}
