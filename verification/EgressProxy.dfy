/** What the proxy tunnels, and where to (membrane/egress_proxy.py, deploy/images/egress-proxy/proxy.py). */
module EgressProxy {
  import opened Base
  import opened Text
  import opened Egress

  // ---- Latin-1 -------------------------------------------------------------

  /** The request head is decoded as Latin-1. */
  predicate Latin1(s: string) {
    forall i :: 0 <= i < |s| ==> s[i] <= '\U{FF}'
  }

  function LowerChar(c: char): char
    requires c <= '\U{FF}'
  {
    if 'A' <= c <= 'Z' || ('\U{C0}' <= c <= '\U{DE}' && c != '\U{D7}') then (c as int + 32) as char else c
  }

  function LatinLower(s: string): (r: string)
    requires Latin1(s)
    ensures |r| == |s| && forall i :: 0 <= i < |s| ==> r[i] == LowerChar(s[i])
  {
    seq(|s|, i requires 0 <= i < |s| => LowerChar(s[i]))
  }

  /** `str.lower` is one character for one on Latin-1 text. */
  ghost predicate LowersLatin1(lower: Lower) {
    forall s :: Latin1(s) ==> lower(s) == LatinLower(s)
  }

  // ---- the request line ----------------------------------------------------

  /** `str.split()`: the runs of non-whitespace. */
  function Words(s: string): seq<string> {
    if s == "" then []
    else if IsSpace(s[0]) then Words(s[1..])
    else
      var w := Word(s);
      [w] + Words(s[|w|..])
  }

  function ParseConnectHost(upper: string -> string, line: string): Option<string> {
    var parts := Words(line);
    if |parts| < 2 || upper(parts[0]) != "CONNECT" then None else Some(parts[1])
  }

  predicate IsAllowed(lower: Lower, upper: string -> string, allow: set<string>, line: string) {
    match ParseConnectHost(upper, line)
    case None => false
    case Some(host) => Decide(lower, allow, host) == Allow
  }

  // ---- the authority -------------------------------------------------------

  /** `int()` on text. */
  type ParseInt = string -> Option<int>

  ghost predicate RefusesColons(parse: ParseInt) {
    forall s :: ':' in s ==> parse(s) == None
  }

  /** The numeral is short enough for `int()`, as every port's is. */
  predicate Reads(parse: ParseInt, port: nat) {
    parse(Dec(port)) == Some(port)
  }

  function LStripColons(s: string): string {
    if s != "" && s[0] == ':' then LStripColons(s[1..]) else s
  }

  /** None is the ValueError of a port that is no number. */
  function SplitAuthority(parse: ParseInt, authority: string): Option<(string, int)> {
    if authority != "" && authority[0] == '[' then
      var inner := authority[1..];
      var end := Find(inner, ']');
      var rest := if end < |inner| then inner[end + 1..] else "";
      WithPort(parse, inner[..end], LStripColons(rest))
    else
      var end := Find(authority, ':');
      WithPort(parse, authority[..end], if end < |authority| then authority[end + 1..] else "")
  }

  function WithPort(parse: ParseInt, host: string, port: string): Option<(string, int)> {
    match if port == "" then Some(443) else parse(port)
    case Some(p) => Some((host, p))
    case None => None
  }

  /** The proxy's answer to one request: refused, failed, or a connection to a host and port. */
  datatype Answer = Forbidden | BadGateway | Connect(host: string, port: int)

  function Answered(lower: Lower, upper: string -> string, parse: ParseInt, allow: set<string>, line: string): Answer {
    if !IsAllowed(lower, upper, allow, line) then Forbidden
    else match SplitAuthority(parse, Words(line)[1])
      case None => BadGateway
      case Some((host, port)) => Connect(host, port)
  }

  // ---- allowed hosts -------------------------------------------------------

  lemma {:induction false} LowerKeepsColons(s: string)
    requires Latin1(s)
    ensures Colons(LatinLower(s)) == Colons(s)
    ensures Find(LatinLower(s), ']') == Find(s, ']') && Find(LatinLower(s), ':') == Find(s, ':')
  {
    if s != "" {
      LowerKeepsColons(s[1..]);
      assert LatinLower(s)[1..] == LatinLower(s[1..]);
    }
  }

  lemma LowerSlice(s: string, i: nat, j: nat)
    requires Latin1(s) && i <= j <= |s|
    ensures Latin1(s[i..j]) && LatinLower(s)[i..j] == LatinLower(s[i..j])
  {
  }

  lemma {:induction false} OneColon(s: string)
    requires Colons(s) == 1
    ensures FindLast(s, ':') == Find(s, ':') < |s|
  {
    var n := |s| - 1;
    ColonsSplit(s[..n], s[n..]);
    assert s == s[..n] + s[n..];
    if s[n] == ':' {
      NoColon(s[..n]);
      FirstIs(s, n);
    } else {
      OneColon(s[..n]);
      FirstIs(s, Find(s[..n], ':'));
    }
  }

  lemma {:induction false} FirstIs(s: string, i: nat)
    requires i < |s| && s[i] == ':' && ':' !in s[..i]
    ensures Find(s, ':') == i
  {
    if i > 0 {
      assert s[0] in s[..i];
      assert s[1..][..i - 1] == s[..i][1..];
      FirstIs(s[1..], i - 1);
    }
  }

  lemma {:induction false} ColonsSplit(a: string, b: string)
    ensures Colons(a + b) == Colons(a) + Colons(b)
  {
    if a == "" {
      assert a + b == b;
    } else {
      assert (a + b)[1..] == a[1..] + b;
      ColonsSplit(a[1..], b);
    }
  }

  lemma {:induction false} NoColon(s: string)
    ensures Colons(s) == 0 <==> ':' !in s
  {
    if s != "" {
      NoColon(s[1..]);
      assert s == [s[0]] + s[1..];
    }
  }

  /** An allowed host is its own lower case, and never has exactly one colon. */
  lemma AllowedShape(lower: Lower, host: string)
    requires LowersLatin1(lower) && Latin1(host) && Accepted(lower, host)
    ensures lower(host) == host && Colons(host) != 1 && Strip(host) == host
  {
    AcceptedIsFixed(lower, host);
    LowerKeepsColons(host);
    var low := LatinLower(host);
    assert host[0] != '[' by { assert host[0] in host; }
    assert low[0] == LowerChar(host[0]);
    if Colons(low) == 1 { OneColon(low); }
  }

  // ---- what is tunnelled is allowed ------------------------------------------

  lemma {:induction false} WordsAreFree(s: string, i: nat)
    requires i < |Words(s)|
    ensures NoSpace(Words(s)[i]) && Words(s)[i] != ""
    ensures Latin1(s) ==> Latin1(Words(s)[i])
    decreases |s|
  {
    if IsSpace(s[0]) {
      WordsAreFree(s[1..], i);
    } else if i > 0 {
      WordsAreFree(s[|Word(s)|..], i - 1);
    }
  }

  /** The host that is dialled is the host that was decided on, up to case. */
  lemma SplitAgrees(lower: Lower, parse: ParseInt, authority: string)
    requires LowersLatin1(lower) && RefusesColons(parse) && Latin1(authority) && NoSpace(authority) && authority != ""
    requires SplitAuthority(parse, authority).Some?
    requires authority[0] == '[' ==> ']' in authority
    ensures var host := SplitAuthority(parse, authority).value.0;
            Latin1(host) && NormalizeHost(lower, authority) == LatinLower(host)
  {
    NoSpaceStrips(authority);
    LowerKeepsColons(authority);
    var low := LatinLower(authority);
    assert low[0] == LowerChar(authority[0]);
    if authority[0] == '[' {
      BracketSplit(authority);
      LowerSlice(authority, 1, Find(authority, ']'));
    } else {
      var end := Find(authority, ':');
      if Colons(authority) == 1 {
        OneColon(low);
        LowerSlice(authority, 0, end);
      } else if Colons(authority) == 0 {
        NoColon(authority);
        assert end == |authority|;
        LowerSlice(authority, 0, end);
      } else {
        ManyColonsFail(parse, authority);
      }
    }
  }

  /** The bracketed part, seen from either function. */
  lemma BracketSplit(authority: string)
    requires authority != "" && authority[0] == '[' && ']' in authority
    ensures var end, inner := Find(authority, ']'), authority[1..];
            end < |authority| && Find(inner, ']') == end - 1 && inner[..Find(inner, ']')] == authority[1..end]
  {
    FindsMember(authority, ']');
  }

  lemma {:induction false} FindsMember(s: string, c: char)
    requires c in s
    ensures Find(s, c) < |s|
  {
    if s[0] != c {
      assert s == [s[0]] + s[1..];
      FindsMember(s[1..], c);
    }
  }

  /** After the first of several colons the port still holds one. */
  lemma ManyColons(s: string)
    requires Colons(s) >= 2
    ensures var end := Find(s, ':'); end < |s| && ':' in s[end + 1..] && s[end + 1..] != ""
  {
    hide Find, Colons;
    var end := Find(s, ':');
    NoColon(s);
    FindsMember(s, ':');
    ColonsAt(s, end);
    NoColon(s[..end]);
    NoColon(s[end + 1..]);
  }

  lemma {:induction false} ColonsAt(s: string, k: nat)
    requires k < |s| && s[k] == ':'
    ensures Colons(s) == Colons(s[..k]) + 1 + Colons(s[k + 1..])
  {
    if k > 0 {
      ColonsAt(s[1..], k - 1);
      assert s[1..][..k - 1] == s[..k][1..] && s[1..][k..] == s[k + 1..];
    }
  }

  lemma ManyColonsFail(parse: ParseInt, authority: string)
    requires RefusesColons(parse) && Colons(authority) >= 2 && authority != "" && authority[0] != '['
    ensures SplitAuthority(parse, authority) == None
  {
    ManyColons(authority);
    hide Find, Colons;
  }

  /** An unclosed bracket is never allowed: no allowed host holds a bracket. */
  lemma UnclosedIsRefused(lower: Lower, allow: set<string>, authority: string)
    requires LowersLatin1(lower) && Latin1(authority) && NoSpace(authority)
    requires forall h :: h in allow ==> Accepted(lower, h)
    requires authority != "" && authority[0] == '[' && ']' !in authority
    ensures Decide(lower, allow, authority) == Refuse
  {
    NoSpaceStrips(authority);
    LowerKeepsColons(authority);
    var low := LatinLower(authority);
    assert low[0] == '[' && '[' in low;
    FindAbsent(authority, ']');
  }

  lemma {:induction false} FindAbsent(s: string, c: char)
    requires c !in s
    ensures Find(s, c) == |s|
  {
    if s != "" {
      assert s == [s[0]] + s[1..];
      FindAbsent(s[1..], c);
    }
  }

  /**
   * Whatever the request line, when the proxy connects, the host it connects to is, lower-cased, in the run's
   * allowlist.
   */
  lemma TunnelsOnlyAllowed(lower: Lower, upper: string -> string, parse: ParseInt, allow: set<string>, line: string)
    requires LowersLatin1(lower) && RefusesColons(parse) && Latin1(line) && IsPolicy(lower, allow)
    ensures match Answered(lower, upper, parse, allow, line)
      case Connect(host, _) => Latin1(host) && LatinLower(host) in allow
      case _ => true
  {
    hide IsPolicy, Accepted, LowersLatin1, RefusesColons, Words, NormalizeHost;
    forall h | h in allow
      ensures Accepted(lower, h)
    {
      AllowedAreAccepted(lower, allow, h);
    }
    if Answered(lower, upper, parse, allow, line).Connect? {
      WordsAreFree(line, 1);
      var authority := Words(line)[1];
      if authority[0] == '[' && ']' !in authority {
        UnclosedIsRefused(lower, allow, authority);
      } else {
        SplitAgrees(lower, parse, authority);
      }
    }
  }

  // ---- what is allowed can be reached ----------------------------------------

  /** Authority-form: an address with colons is bracketed (RFC 9112, section 3.2.3). */
  function Authority(host: string, port: nat): string {
    (if ':' in host then "[" + host + "]" else host) + ":" + Dec(port)
  }

  /** A request line: `verb` is CONNECT in any case, `version` whatever protocol version follows. */
  function ConnectLine(verb: string, host: string, port: nat, version: string): string {
    verb + " " + Authority(host, port) + " " + version
  }

  lemma {:induction false} WordOfFree(w: string, rest: string)
    requires NoSpace(w) && (rest == "" || IsSpace(rest[0]))
    ensures Word(w + rest) == w
  {
    if w == "" {
      assert w + rest == rest;
    } else {
      assert (w + rest)[1..] == w[1..] + rest;
      WordOfFree(w[1..], rest);
    }
  }

  lemma WordsOfFree(w: string, rest: string)
    requires NoSpace(w) && w != ""
    ensures Words(w + " " + rest) == [w] + Words(rest)
  {
    var s := w + (" " + rest);
    assert w + " " + rest == s;
    WordOfFree(w, " " + rest);
    assert s[|w|..] == " " + rest;
    assert (" " + rest)[1..] == rest;
  }

  lemma DigitsAreFree(n: nat)
    ensures NoSpace(Dec(n)) && ':' !in Dec(n) && ']' !in Dec(n) && Latin1(Dec(n)) && LatinLower(Dec(n)) == Dec(n)
  {
    var d := Dec(n);
    forall i | 0 <= i < |d|
      ensures IsDigit(d[i])
    {
    }
  }

  lemma LineWords(verb: string, authority: string, version: string)
    requires NoSpace(verb) && verb != "" && NoSpace(authority) && authority != ""
    ensures Words(verb + " " + authority + " " + version) == [verb, authority] + Words(version)
  {
    hide Words, Word;
    var rest := authority + " " + version;
    assert verb + " " + authority + " " + version == verb + " " + rest;
    WordsOfFree(verb, rest);
    WordsOfFree(authority, version);
    assert [verb] + ([authority] + Words(version)) == [verb, authority] + Words(version);
  }

  lemma AuthorityIsFree(lower: Lower, host: string, port: nat)
    requires LowersLatin1(lower) && Latin1(host) && Accepted(lower, host)
    ensures var a := Authority(host, port); NoSpace(a) && a != "" && Latin1(a) && LatinLower(a) == a
  {
    DigitsAreFree(port);
    AllowedShape(lower, host);
    assert LatinLower(host) == host;
    var d := Dec(port);
    assert forall i :: 0 <= i < |d| ==> !IsSpace(d[i]) && LowerChar(d[i]) == d[i];
    assert forall i :: 0 <= i < |host| ==> !IsSpace(host[i]) && LowerChar(host[i]) == host[i];
  }

  lemma ColonsOfAuthority(host: string, port: nat)
    requires ':' !in host
    ensures var a := host + ":" + Dec(port);
            Colons(a) == 1 && Find(a, ':') == |host| && FindLast(a, ':') == |host|
            && a[..|host|] == host && a[|host| + 1..] == Dec(port)
  {
    var d := Dec(port);
    var a := host + ":" + d;
    DigitsAreFree(port);
    NoColon(host);
    NoColon(d);
    assert a == host + (":" + d);
    ColonsSplit(host, ":" + d);
    ColonsSplit(":", d);
    assert Colons(":") == 1;
    FirstIs(a, |host|);
    OneColon(a);
  }

  lemma BracketsOfAuthority(host: string, port: nat)
    requires ':' in host && ']' !in host
    ensures var a, k := Authority(host, port), |host| + 1;
            && a != "" && a[0] == '[' && k < |a| && Find(a, ']') == k && a[1..k] == host
            && a[1..][..k - 1] == host && Find(a[1..], ']') == k - 1 && a[1..][k..] == ":" + Dec(port)
  {
    var a, k := Authority(host, port), |host| + 1;
    assert a == "[" + host + "]" + ":" + Dec(port);
    assert a[k] == ']' && a[1..k] == host && a[1..][k - 1] == ']' && a[1..][..k - 1] == host;
    FirstBracket(a[1..], k - 1);
  }

  /** A bracketed authority, by where its bracket closes. */
  lemma DropBracket(a: string, k: nat, host: string)
    requires a != "" && a[0] == '[' && k < |a| && Find(a, ']') == k && 1 <= k && a[1..k] == host
    ensures DropPort(a) == host
  {
    hide Find, Colons, FindLast;
  }

  lemma SplitBracket(parse: ParseInt, a: string, k: nat, host: string, rest: string)
    requires a != "" && a[0] == '[' && k < |a| - 1 && Find(a[1..], ']') == k && a[1..][..k] == host && a[1..][k + 1..] == rest
    ensures SplitAuthority(parse, a) == WithPort(parse, host, LStripColons(rest))
  {
    hide Find, LStripColons;
  }

  lemma {:induction false} FirstBracket(s: string, i: nat)
    requires i < |s| && s[i] == ']' && ']' !in s[..i]
    ensures Find(s, ']') == i
  {
    if i > 0 {
      assert s[0] in s[..i];
      assert s[1..][..i - 1] == s[..i][1..];
      FirstBracket(s[1..], i - 1);
    }
  }

  lemma PortSurvives(port: nat)
    ensures LStripColons(":" + Dec(port)) == Dec(port) != ""
  {
    DigitsAreFree(port);
    assert (":" + Dec(port))[1..] == Dec(port);
    assert Dec(port)[0] in Dec(port);
  }

  /** What an authority that is already stripped and lower-case normalizes to. */
  lemma Normalizes(lower: Lower, a: string, host: string)
    requires LowersLatin1(lower) && Latin1(a) && LatinLower(a) == a && NoSpace(a) && DropPort(a) == host
    ensures NormalizeHost(lower, a) == host
  {
    NoSpaceStrips(a);
    hide Strip, DropPort, NoSpace, LatinLower;
  }

  lemma PlainReaches(lower: Lower, parse: ParseInt, host: string, port: nat)
    requires LowersLatin1(lower) && Reads(parse, port) && Latin1(host) && Accepted(lower, host) && ':' !in host
    ensures NormalizeHost(lower, Authority(host, port)) == host
    ensures SplitAuthority(parse, Authority(host, port)) == Some((host, port))
  {
    hide *;
    AuthorityIsFree(lower, host, port);
    PlainSplits(lower, parse, host, port);
    Normalizes(lower, Authority(host, port), host);
  }

  lemma PlainSplits(lower: Lower, parse: ParseInt, host: string, port: nat)
    requires Reads(parse, port) && Accepted(lower, host) && ':' !in host
    ensures DropPort(Authority(host, port)) == host
    ensures SplitAuthority(parse, Authority(host, port)) == Some((host, port))
  {
    var a := Authority(host, port);
    ColonsOfAuthority(host, port);
    PortReads(parse, host, port);
    assert a[0] == host[0] && host[0] in host;
    hide Find, FindLast, Colons, Dec, Reads, NormalizeHost;
  }

  lemma BracketedReaches(lower: Lower, parse: ParseInt, host: string, port: nat)
    requires LowersLatin1(lower) && Reads(parse, port) && Latin1(host) && Accepted(lower, host) && ':' in host && ']' !in host
    ensures NormalizeHost(lower, Authority(host, port)) == host
    ensures SplitAuthority(parse, Authority(host, port)) == Some((host, port))
  {
    hide *;
    var a := Authority(host, port);
    AuthorityIsFree(lower, host, port);
    BracketsOfAuthority(host, port);
    PortReads(parse, host, port);
    DropBracket(a, |host| + 1, host);
    SplitBracket(parse, a, |host|, host, ":" + Dec(port));
    Normalizes(lower, a, host);
  }

  lemma PortReads(parse: ParseInt, host: string, port: nat)
    requires Reads(parse, port)
    ensures WithPort(parse, host, Dec(port)) == Some((host, port))
    ensures LStripColons(":" + Dec(port)) == Dec(port)
  {
    PortSurvives(port);
  }

  lemma NoBrackets(lower: Lower, host: string)
    requires Accepted(lower, host)
    ensures ']' !in host
  {
  }

  /** Each allowed host, written in authority-form, is accepted and split back to itself. */
  lemma AllowedIsReachable(lower: Lower, upper: string -> string, parse: ParseInt, allow: set<string>, host: string, port: nat,
                           verb: string, version: string)
    requires LowersLatin1(lower) && Reads(parse, port)
    requires NoSpace(verb) && verb != "" && upper(verb) == "CONNECT"
    requires IsPolicy(lower, allow) && host in allow && Latin1(host)
    ensures Answered(lower, upper, parse, allow, ConnectLine(verb, host, port, version)) == Connect(host, port)
  {
    hide IsPolicy, LowersLatin1, Reads, Words, NormalizeHost, Accepted, SplitAuthority, Authority;
    AllowedAreAccepted(lower, allow, host);
    AuthorityIsFree(lower, host, port);
    LineWords(verb, Authority(host, port), version);
    if ':' in host {
      NoBrackets(lower, host);
      BracketedReaches(lower, parse, host, port);
    } else {
      PlainReaches(lower, parse, host, port);
    }
  }
}
