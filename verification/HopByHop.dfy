// Stripping hop-by-hop headers (section 6.1 of RFC 7230).
module HopByHop {
  import opened Text

  predicate IsLower(ch: char) { 'a' <= ch <= 'z' }

  predicate IsUpper(ch: char) { 'A' <= ch <= 'Z' }

  function ToUpper(ch: char): char {
    if IsLower(ch) then (ch as int - 32) as char else ch
  }

  function ToLower(ch: char): char {
    if IsUpper(ch) then (ch as int + 32) as char else ch
  }

  /** A byte that may occur in a header name (a token character). */
  predicate TokenChar(ch: char) {
    IsLower(ch) || IsUpper(ch) || IsDigit(ch) || ch in "!#$%&'*+-.^_`|~"
  }

  predicate Token(s: string) {
    forall ch :: ch in s ==> TokenChar(ch)
  }

  /** Which is a visible ASCII character that is no delimiter (section 3.2.6 of RFC 7230). */
  lemma TokenCharIff(ch: char)
    ensures TokenChar(ch) <==> '!' <= ch <= '~' && ch !in "\"(),/:;<=>?@[\\]{}"
  {
  }

  function Title(s: string, upper: bool): (t: string)
    ensures |t| == |s|
  {
    if s == "" then ""
    else [if upper then ToUpper(s[0]) else ToLower(s[0])] + Title(s[1..], s[0] == '-')
  }

  /** `http.CanonicalHeaderKey`. */
  function Canonical(name: string): string {
    if Token(name) then Title(name, true) else name
  }

  /** Equal but for the case of ASCII letters. */
  predicate SameName(a: string, b: string) {
    |a| == |b| && forall i :: 0 <= i < |a| ==> ToLower(a[i]) == ToLower(b[i])
  }

  lemma {:induction false} TitleSameName(s: string, upper: bool)
    ensures SameName(Title(s, upper), s)
  {
    if s != "" {
      TitleSameName(s[1..], s[0] == '-');
      assert forall i :: 0 < i < |s| ==> Title(s, upper)[i] == Title(s[1..], s[0] == '-')[i - 1];
    }
  }

  lemma {:induction false} TitleOfSameName(a: string, b: string, upper: bool)
    requires SameName(a, b)
    ensures Title(a, upper) == Title(b, upper)
  {
    if a != "" {
      assert ToLower(a[0]) == ToLower(b[0]);
      TitleOfSameName(a[1..], b[1..], a[0] == '-');
    }
  }

  lemma SameNameIsToken(a: string, b: string)
    requires SameName(a, b) && Token(b)
    ensures Token(a)
  {
    forall ch | ch in a
      ensures TokenChar(ch)
    {
      var i :| 0 <= i < |a| && a[i] == ch;
      assert b[i] in b && ToLower(a[i]) == ToLower(b[i]);
    }
  }

  /** Whatever text a Connection value holds, it names a canonical key exactly
      when the two differ in case only, which is how the standard compares
      header names. */
  lemma CanonicalIffSameName(token: string, key: string)
    requires Token(key) && Canonical(key) == key
    ensures Canonical(token) == key <==> SameName(token, key)
  {
    TitleSameName(token, true);
    if SameName(token, key) {
      SameNameIsToken(token, key);
      TitleOfSameName(token, key, true);
    }
  }

  /** A name with any other character is kept as it is. */
  lemma OtherNamesAreKept(name: string, ch: char)
    requires ch in name && (ch <= ' ' || ch > '~' || ch in "\"(),/:;<=>?@[\\]{}")
    ensures Canonical(name) == name
  {
    TokenCharIff(ch);
  }

  const HOP_BY_HOP: seq<string> := [
    "Connection", "Keep-Alive", "Proxy-Authenticate", "Proxy-Authorization",
    "Te", "Trailer", "Transfer-Encoding", "Upgrade"]

  type Header = map<string, seq<string>>

  function Values(h: Header, key: string): seq<string> {
    if key in h then h[key] else []
  }

  /** The comma-separated, trimmed, non-empty tokens of the Connection values. */
  function ConnectionTokens(values: seq<string>): set<string> {
    set v, t | v in values && t in Split(v, ',') && TrimSpace(t) != "" :: TrimSpace(t)
  }

  /** What is left of a header: every key that is neither in the fixed list nor
      named by a Connection token, with its values. */
  function Stripped(h: Header): Header {
    map k | k in h && k !in HOP_BY_HOP
            && (forall t :: t in ConnectionTokens(Values(h, "Connection")) ==> Canonical(t) != k) :: h[k]
  }

  /** A canonical key survives, with its values, exactly when it is not a fixed
      hop-by-hop name and no Connection token equals it up to case. */
  lemma SurvivesIff(h: Header, key: string)
    requires Token(key) && Canonical(key) == key
    ensures key in Stripped(h) <==>
            && key in h && key !in HOP_BY_HOP
            && forall t :: t in ConnectionTokens(Values(h, "Connection")) ==> !SameName(t, key)
    ensures key in Stripped(h) ==> Stripped(h)[key] == h[key]
  {
    forall t | t in ConnectionTokens(Values(h, "Connection"))
      ensures Canonical(t) == key <==> SameName(t, key)
    {
      CanonicalIffSameName(t, key);
    }
  }

  /** The header line names the key: one of its comma-separated parts, trimmed, is it
      up to case. */
  predicate LineNames(line: string, key: string) {
    exists part :: part in Split(line, ',') && TrimSpace(part) != "" && SameName(TrimSpace(part), key)
  }

  lemma NamingToken(lines: seq<string>, i: nat, key: string) returns (t: string)
    requires i < |lines| && LineNames(lines[i], key)
    ensures t in ConnectionTokens(lines) && SameName(t, key)
  {
    var part :| part in Split(lines[i], ',') && TrimSpace(part) != "" && SameName(TrimSpace(part), key);
    t := TrimSpace(part);
    assert lines[i] in lines;
  }

  lemma NamingLine(lines: seq<string>, t: string, key: string) returns (i: nat)
    requires t in ConnectionTokens(lines) && SameName(t, key)
    ensures i < |lines| && LineNames(lines[i], key)
  {
    var line, part :| line in lines && part in Split(line, ',') && TrimSpace(part) != "" && TrimSpace(part) == t;
    i :| i < |lines| && lines[i] == line;
  }

  /** A canonical key outside the fixed list is removed exactly when some line of the
      Connection header, whichever it is, names it. */
  lemma RemovedIffNamed(h: Header, key: string)
    requires Token(key) && Canonical(key) == key && key in h && key !in HOP_BY_HOP
    ensures key !in Stripped(h) <==>
            "Connection" in h && exists i :: 0 <= i < |h["Connection"]| && LineNames(h["Connection"][i], key)
  {
    var lines := Values(h, "Connection");
    SurvivesIff(h, key);
    if i :| 0 <= i < |lines| && LineNames(lines[i], key) {
      var t := NamingToken(lines, i, key);
    }
    if t :| t in ConnectionTokens(lines) && SameName(t, key) {
      var i := NamingLine(lines, t, key);
    }
  }

  lemma StrippedHasNoConnection(h: Header)
    ensures "Connection" !in Stripped(h)
  {
    assert HOP_BY_HOP[0] == "Connection";
  }

  /** Stripping twice is stripping once. */
  lemma StripIdempotent(h: Header)
    ensures Stripped(Stripped(h)) == Stripped(h)
  {
    StrippedHasNoConnection(h);
    assert ConnectionTokens(Values(Stripped(h), "Connection")) == {};
  }

  /** Whether letter i of s has the case the canonical form gives it. */
  predicate CasedAt(s: string, upper: bool, i: nat)
    requires i < |s|
  {
    if (if i == 0 then upper else s[i - 1] == '-') then !IsLower(s[i]) else !IsUpper(s[i])
  }

  lemma {:induction false} TitleFixed(s: string, upper: bool)
    requires forall i :: 0 <= i < |s| ==> CasedAt(s, upper, i)
    ensures Title(s, upper) == s
  {
    if s != "" {
      assert CasedAt(s, upper, 0);
      var rest, hyphen := s[1..], s[0] == '-';
      forall i | 0 <= i < |rest|
        ensures CasedAt(rest, hyphen, i)
      {
        assert CasedAt(s, upper, i + 1);
      }
      TitleFixed(rest, hyphen);
      assert s == [s[0]] + s[1..];
    }
  }

  lemma {:induction false} TitleHyphen(a: string, b: string, upper: bool)
    ensures Title(a + "-" + b, upper) == Title(a, upper) + "-" + Title(b, true)
  {
    var s := a + "-" + b;
    if a == "" {
      assert s[1..] == b;
    } else {
      assert s[1..] == a[1..] + "-" + b;
      TitleHyphen(a[1..], b, a[0] == '-');
    }
  }

  lemma Titled(w: string)
    requires forall i :: 0 <= i < |w| ==> CasedAt(w, true, i)
    ensures Title(w, true) == w
  {
    TitleFixed(w, true);
  }

  lemma TwoWordsAreTitled(name: string, a: string, b: string)
    requires forall i :: 0 <= i < |a| ==> CasedAt(a, true, i)
    requires forall i :: 0 <= i < |b| ==> CasedAt(b, true, i)
    requires name == a + "-" + b
    ensures Title(name, true) == name
  {
    Titled(a);
    Titled(b);
    TitleHyphen(a, b, true);
  }

  lemma KeepAliveIsTitled()
    ensures Title("Keep-Alive", true) == "Keep-Alive"
  {
    TwoWordsAreTitled("Keep-Alive", "Keep", "Alive");
  }

  lemma ProxyAuthenticateIsTitled()
    ensures Title("Proxy-Authenticate", true) == "Proxy-Authenticate"
  {
    TwoWordsAreTitled("Proxy-Authenticate", "Proxy", "Authenticate");
  }

  lemma ProxyAuthorizationIsTitled()
    ensures Title("Proxy-Authorization", true) == "Proxy-Authorization"
  {
    TwoWordsAreTitled("Proxy-Authorization", "Proxy", "Authorization");
  }

  lemma TransferEncodingIsTitled()
    ensures Title("Transfer-Encoding", true) == "Transfer-Encoding"
  {
    TwoWordsAreTitled("Transfer-Encoding", "Transfer", "Encoding");
  }

  lemma ConnectionIsTitled()
    ensures Title("Connection", true) == "Connection"
  {
    Titled("Connection");
  }

  lemma ShortNamesAreTitled()
    ensures Title("Te", true) == "Te"
    ensures Title("Trailer", true) == "Trailer"
    ensures Title("Upgrade", true) == "Upgrade"
  {
    Titled("Te");
    Titled("Trailer");
    Titled("Upgrade");
  }

  /** The fixed names are canonical, so deleting them by name deletes them. */
  lemma FixedNameIsCanonical(i: nat)
    requires i < |HOP_BY_HOP|
    ensures Canonical(HOP_BY_HOP[i]) == HOP_BY_HOP[i]
  {
    if i == 0 {
      ConnectionIsTitled();
    } else if i == 1 {
      KeepAliveIsTitled();
    } else if i == 2 {
      ProxyAuthenticateIsTitled();
    } else if i == 3 {
      ProxyAuthorizationIsTitled();
    } else if i == 6 {
      TransferEncodingIsTitled();
    } else {
      ShortNamesAreTitled();
    }
  }

  /** A header map, changed in place. */
  class HeaderMap {
    var entries: Header

    constructor (entries: Header)
      ensures this.entries == entries
    {
      this.entries := entries;
    }

    /** `http.Header.Del`. */
    method Del(name: string)
      modifies this
      ensures entries == old(entries) - {Canonical(name)}
    {
      entries := entries - {Canonical(name)};
    }
  }

  function CanonicalAll(names: set<string>): set<string> {
    set t | t in names :: Canonical(t)
  }

  /** The non-empty, trimmed tokens of one Connection value. */
  function Tokens(parts: seq<string>): set<string> {
    set t | t in parts && TrimSpace(t) != "" :: TrimSpace(t)
  }

  lemma TokensOfValues(values: seq<string>)
    ensures ConnectionTokens([]) == {}
    ensures forall i :: 0 <= i < |values| ==>
              ConnectionTokens(values[..i + 1]) == ConnectionTokens(values[..i]) + Tokens(Split(values[i], ','))
  {
    forall i | 0 <= i < |values|
      ensures ConnectionTokens(values[..i + 1]) == ConnectionTokens(values[..i]) + Tokens(Split(values[i], ','))
    {
      assert values[..i + 1] == values[..i] + [values[i]];
    }
  }

  /** The inner loop: the tokens of one value are deleted by name. */
  method DeleteTokens(h: HeaderMap, parts: seq<string>)
    modifies h
    ensures h.entries == old(h.entries) - CanonicalAll(Tokens(parts))
  {
    for i := 0 to |parts|
      invariant h.entries == old(h.entries) - CanonicalAll(Tokens(parts[..i]))
    {
      var name := TrimSpace(parts[i]);
      assert parts[..i + 1] == parts[..i] + [parts[i]];
      assert Tokens(parts[..i + 1]) == Tokens(parts[..i]) + (if name != "" then {name} else {});
      if name != "" {
        h.Del(name);
      }
    }
    assert parts[..|parts|] == parts;
  }

  /** The outer loop runs over the Connection values it started with, though a
      token may delete the Connection entry itself on the way. */
  method DeleteNamed(h: HeaderMap)
    modifies h
    ensures h.entries == old(h.entries)
                         - CanonicalAll(ConnectionTokens(Values(old(h.entries), "Connection")))
  {
    var values := Values(h.entries, "Connection");
    TokensOfValues(values);
    for i := 0 to |values|
      invariant h.entries == old(h.entries) - CanonicalAll(ConnectionTokens(values[..i]))
    {
      DeleteTokens(h, Split(values[i], ','));
    }
    assert values[..|values|] == values;
  }

  /** removeHopByHopHeaders. */
  method RemoveHopByHopHeaders(h: HeaderMap)
    modifies h
    ensures h.entries == Stripped(old(h.entries))
  {
    DeleteNamed(h);
    ghost var named := h.entries;
    for i := 0 to |HOP_BY_HOP|
      invariant h.entries == named - (set name | name in HOP_BY_HOP[..i])
    {
      assert HOP_BY_HOP[..i + 1] == HOP_BY_HOP[..i] + [HOP_BY_HOP[i]];
      FixedNameIsCanonical(i);
      h.Del(HOP_BY_HOP[i]);
    }
    assert HOP_BY_HOP[..|HOP_BY_HOP|] == HOP_BY_HOP;
  }
}
