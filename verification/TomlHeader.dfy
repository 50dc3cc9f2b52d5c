/** What a header line means to TOML v1.0.0, next to what the header scanner makes of it. */
module TomlHeader {
  import opened Base
  import opened Text
  import opened TomlValue
  import opened TomlScan
  import opened TomlBlock

  /** The key path of a table header, and whether it is one of an array of tables. */
  datatype Reading = Reading(path: seq<string>, inArray: bool)

  /** Newlines are `\n` or `\r\n`; the return rides on the line. */
  function WithoutReturn(s: string): string {
    if s != "" && s[|s| - 1] == '\r' then s[..|s| - 1] else s
  }

  predicate Comment(s: string) {
    s != "" && s[0] == '#' && forall i :: 1 <= i < |s| ==> !Forbidden(s[i])
  }

  predicate EndsLine(s: string) {
    var e := WithoutReturn(SkipWs(s));
    e == "" || Comment(e)
  }

  /** The closing brackets, as many as the opening ones. */
  predicate Closes(rest: string, n: nat) {
    n <= |rest| && forall i :: 0 <= i < n ==> rest[i] == ']'
  }

  /** Where the key of a header starts. */
  function KeyStart(t: string): string
    requires OpenLen(t) <= |t|
  {
    SkipWs(t[OpenLen(t)..])
  }

  /** The line as a table header, by the Table, Array of Tables and Keys rules; None when it is none. */
  function ReadHeader(line: string): Option<Reading> {
    var t := SkipWs(line);
    if t == "" || t[0] != '[' then None
    else match ParseKey(KeyStart(t))
      case Bad => None
      case Got(path, rest) =>
        if Closes(rest, OpenLen(t)) && EndsLine(rest[OpenLen(t)..]) then Some(Reading(path, OpenLen(t) == 2)) else None
  }

  /** The text of the key, blanks after it included. */
  function KeyText(line: string): string {
    var t := SkipWs(line);
    if t == "" || t[0] != '[' then ""
    else
      var u := KeyStart(t);
      match ParseKey(u)
      case Bad => ""
      case Got(_, rest) => u[..|u| - |rest|]
  }

  // ---- a key, as the header scanner sees it ------------------------------------------------

  /** The scanner walks from `s` to its end part `rest` and is outside strings there. */
  ghost predicate Scans(s: string, quote: Option<char>, rest: string) {
    |rest| <= |s| && s[|s| - |rest|..] == rest && NameEnd(s, quote) == Later(|s| - |rest|, NameEnd(rest, None))
  }

  lemma ScansOn(s: string, quote: Option<char>, k: nat, quote': Option<char>, rest: string)
    requires k <= |s| && NameEnd(s, quote) == Later(k, NameEnd(s[k..], quote')) && Scans(s[k..], quote', rest)
    ensures Scans(s, quote, rest)
  {
    assert s[k..][|s[k..]| - |rest|..] == s[|s| - |rest|..];
    hide NameEnd;
  }

  lemma {:induction false} HexIsPlain(hex: string)
    requires HexNumber(hex).Some?
    ensures '\\' !in hex && '"' !in hex
  {
    if hex != "" {
      HexIsPlain(hex[..|hex| - 1]);
      assert hex == hex[..|hex| - 1] + [hex[|hex| - 1]];
    }
  }

  lemma ScansCode(s: string, k: nat)
    requires 2 <= k <= |s| && s[0] == '\\' && HexNumber(s[2..k]).Some?
    ensures NameEnd(s, Some('"')) == Later(k, NameEnd(s[k..], Some('"')))
  {
    HexIsPlain(s[2..k]);
    NameEndPlain(s[2..k], s[k..]);
    assert s[2..] == s[2..k] + s[k..];
  }

  /** How far one character of a basic string reaches. */
  function CharLen(s: string): nat {
    if s == "" then 0
    else if s[0] != '\\' then 1
    else if |s| >= 6 && s[1] == 'u' then 6
    else if |s| >= 10 && s[1] == 'U' then 10
    else 2
  }

  /** One character of a basic string and then the rest of it. */
  ghost predicate StepsBy(s: string, k: nat)
    requires ParseBasic(s).Got?
  {
    1 <= k <= |s| && ParseBasic(s[k..]).Got? && ParseBasic(s[k..]).rest == ParseBasic(s).rest
  }

  lemma CodeStep(s: string, k: nat)
    requires ParseBasic(s).Got? && 2 <= k <= |s|
    requires ParseBasic(s) == match CodeChar(s[2..k]) case None => Bad case Some(c) => Prepend(c, ParseBasic(s[k..]))
    ensures StepsBy(s, k) && HexNumber(s[2..k]).Some?
  {
    hide ParseBasic;
  }

  lemma PlainStep(s: string)
    requires ParseBasic(s).Got? && s[0] != '"' && s[0] != '\\'
    ensures StepsBy(s, 1)
  {
  }

  lemma ShortStep(s: string)
    requires ParseBasic(s).Got? && s[0] == '\\' && s[1] != 'u' && s[1] != 'U'
    ensures StepsBy(s, 2)
  {
    hide CodeChar, Forbidden, Prepend, ShortEscape;
  }

  lemma ShortCodeFound(s: string)
    requires ParseBasic(s).Got? && s[0] == '\\' && s[1] == 'u'
    ensures |s| >= 6
    ensures ParseBasic(s) == match CodeChar(s[2..6]) case None => Bad case Some(c) => Prepend(c, ParseBasic(s[6..]))
  {
    hide CodeChar, Forbidden, Prepend;
    assert ShortEscape(s[1]).None?;
    hide ShortEscape;
  }

  lemma LongCodeFound(s: string)
    requires ParseBasic(s).Got? && s[0] == '\\' && s[1] == 'U'
    ensures |s| >= 10
    ensures ParseBasic(s) == match CodeChar(s[2..10]) case None => Bad case Some(c) => Prepend(c, ParseBasic(s[10..]))
  {
    hide CodeChar, Forbidden, Prepend;
    assert ShortEscape(s[1]).None?;
    hide ShortEscape;
  }

  lemma BasicStep(s: string)
    requires ParseBasic(s).Got? && s[0] != '"'
    ensures StepsBy(s, CharLen(s))
    ensures s[0] == '\\' && CharLen(s) > 2 ==> HexNumber(s[2..CharLen(s)]).Some?
  {
    assert s[0] == '\\' ==> |s| >= 2;
    hide ParseBasic, StepsBy, HexNumber, CodeChar;
    if s[0] != '\\' {
      PlainStep(s);
    } else if s[1] == 'u' {
      ShortCodeFound(s);
      CodeStep(s, 6);
    } else if s[1] == 'U' {
      LongCodeFound(s);
      CodeStep(s, 10);
    } else {
      ShortStep(s);
    }
  }

  lemma BasicStepScans(s: string)
    requires ParseBasic(s).Got? && s[0] != '"'
    ensures CharLen(s) <= |s| && NameEnd(s, Some('"')) == Later(CharLen(s), NameEnd(s[CharLen(s)..], Some('"')))
  {
    BasicStep(s);
    hide ParseBasic;
    if s[0] == '\\' && CharLen(s) > 2 { ScansCode(s, CharLen(s)); }
  }

  lemma {:induction false} ScansBasic(s: string)
    requires ParseBasic(s).Got?
    ensures Scans(s, Some('"'), ParseBasic(s).rest)
    decreases |s|
  {
    if s[0] != '"' {
      BasicStep(s);
      BasicStepScans(s);
      hide ParseBasic, NameEnd, Scans;
      ScansBasic(s[CharLen(s)..]);
      ScansOn(s, Some('"'), CharLen(s), Some('"'), ParseBasic(s).rest);
    }
  }

  lemma {:induction false} ScansLiteral(s: string)
    requires ParseLiteral(s).Got?
    ensures Scans(s, Some('\''), ParseLiteral(s).rest)
  {
    if s[0] != '\'' {
      ScansLiteral(s[1..]);
      ScansOn(s, Some('\''), 1, Some('\''), ParseLiteral(s).rest);
    }
  }

  lemma {:induction false} BareRunIsBare(s: string)
    ensures forall i :: 0 <= i < BareRun(s) ==> BareChar(s[i])
  {
    if s != "" && BareChar(s[0]) { BareRunIsBare(s[1..]); }
  }

  lemma ScansPart(s: string)
    requires ParsePart(s).Got?
    ensures Scans(s, None, ParsePart(s).rest)
  {
    if s != "" && s[0] == '"' {
      ScansBasic(s[1..]);
      ScansOn(s, None, 1, Some('"'), ParsePart(s).rest);
    } else if s != "" && s[0] == '\'' {
      ScansLiteral(s[1..]);
      ScansOn(s, None, 1, Some('\''), ParsePart(s).rest);
    } else {
      var k := BareRun(s);
      BareRunIsBare(s);
      NameEndInert(s[..k], s[k..]);
      assert s == s[..k] + s[k..];
    }
  }

  lemma {:induction false} ScansBlanks(s: string)
    ensures Scans(s, None, SkipWs(s))
  {
    if s != "" && (s[0] == ' ' || s[0] == '\t') {
      ScansBlanks(s[1..]);
      assert SkipWs(s) == SkipWs(s[1..]);
      BlankIsInert(s);
      hide SkipWs, NameEnd, Scans;
      ScansOn(s, None, 1, None, SkipWs(s));
    } else {
      assert SkipWs(s) == s;
    }
  }

  lemma BlankIsInert(s: string)
    requires s != "" && (s[0] == ' ' || s[0] == '\t')
    ensures NameEnd(s, None) == Later(1, NameEnd(s[1..], None))
  {
  }

  lemma ScansThen(s: string, middle: string, rest: string)
    requires Scans(s, None, middle) && Scans(middle, None, rest)
    ensures Scans(s, None, rest)
  {
    ScansOn(s, None, |s| - |middle|, None, rest);
  }

  /** Whatever strings a key holds, the scanner is right behind it when the key ends. */
  lemma {:induction false} ScansKey(s: string)
    requires ParseKey(s).Got?
    ensures Scans(s, None, ParseKey(s).rest)
    decreases |s|
  {
    var rest := ParsePart(s).rest;
    var t := SkipWs(rest);
    ScansPart(s);
    ScansBlanks(rest);
    hide Scans, ParsePart, NameEnd;
    ScansThen(s, rest, t);
    if t != "" && t[0] == '.' {
      var u := t[1..];
      DotIsInert(t);
      ScansBlanks(u);
      ScansThen(s, t, u);
      ScansThen(s, u, SkipWs(u));
      ScansKey(SkipWs(u));
      ScansThen(s, SkipWs(u), ParseKey(s).rest);
    }
  }

  lemma DotIsInert(t: string)
    requires t != "" && t[0] == '.'
    ensures Scans(t, None, t[1..])
  {
    NameEndInert(".", t[1..]);
    assert t == "." + t[1..];
  }

  // ---- every table header is a header for the scanner --------------------------------------

  predicate Blank(s: string) {
    forall i :: 0 <= i < |s| ==> IsSpace(s[i])
  }

  lemma {:induction false} SkipWsBlank(s: string)
    ensures var t := SkipWs(s); s[|s| - |t|..] == t && Blank(s[..|s| - |t|])
  {
    if s != "" && (s[0] == ' ' || s[0] == '\t') {
      SkipWsBlank(s[1..]);
      var t := SkipWs(s);
      assert t == SkipWs(s[1..]);
      hide SkipWs;
      assert s[1..][|s[1..]| - |t|..] == s[|s| - |t|..];
      assert s[..|s| - |t|] == [s[0]] + s[1..][..|s[1..]| - |t|];
    }
  }

  lemma {:induction false} LStripBlank(a: string, b: string)
    requires Blank(a) && (b != "" ==> !IsSpace(b[0]))
    ensures LStrip(a + b) == b
  {
    if a == "" {
      assert a + b == b;
    } else {
      assert (a + b)[1..] == a[1..] + b;
      LStripBlank(a[1..], b);
    }
  }

  lemma {:induction false} RStripBlank(a: string, b: string)
    requires Blank(b) && (a != "" ==> !IsSpace(a[|a| - 1]))
    ensures RStrip(a + b) == a
  {
    if b == "" {
      assert a + b == a;
    } else {
      assert (a + b)[..|a + b| - 1] == a + b[..|b| - 1];
      RStripBlank(a, b[..|b| - 1]);
    }
  }

  lemma {:induction false} RStripSplits(s: string)
    ensures Blank(s[|RStrip(s)|..])
  {
    if s != "" && IsSpace(s[|s| - 1]) {
      RStripSplits(s[..|s| - 1]);
      assert s[|RStrip(s)|..] == s[..|s| - 1][|RStrip(s)|..] + [s[|s| - 1]];
    }
  }

  /** The stripped line starts where the header does, and nothing but blanks is cut off its end. */
  lemma StripFrom(line: string)
    requires SkipWs(line) != "" && !IsSpace(SkipWs(line)[0])
    ensures var t, s := SkipWs(line), Strip(line); |s| <= |t| && s == t[..|s|] && Blank(t[|s|..])
  {
    var t := SkipWs(line);
    SkipWsBlank(line);
    assert line == line[..|line| - |t|] + t;
    LStripBlank(line[..|line| - |t|], t);
    RStripSplits(t);
  }

  /** A name that ends inside `x` ends there whatever follows. */
  lemma {:induction false} NameEndInPrefix(x: string, y: string, quote: Option<char>)
    requires NameEnd(x + y, quote).Some? && NameEnd(x + y, quote).value < |x|
    ensures NameEnd(x, quote) == NameEnd(x + y, quote)
    decreases |x|
  {
    if x != "" {
      assert (x + y)[0] == x[0] && (x + y)[1..] == x[1..] + y;
      assert |x| >= 2 ==> (x + y)[2..] == x[2..] + y;
      if quote.Some? && x[0] == '\\' && quote.value == '"' {
        if |x| >= 2 { NameEndInPrefix(x[2..], y, quote); }
      } else if !(quote.None? && x[0] == ']') {
        NameEndInPrefix(x[1..], y,
          if quote.None? then (if x[0] == '"' || x[0] == '\'' then Some(x[0]) else None)
          else if x[0] == quote.value then None else quote);
      }
    }
  }

  /** A character that is no blank comes before a blank tail. */
  lemma BeforeBlank(s: string, m: nat, k: nat)
    requires m <= |s| && Blank(s[m..]) && k < |s| && !IsSpace(s[k])
    ensures k < m
  {
  }

  lemma CommentLeads(x: string, y: string, k: nat)
    requires k < |x| && Blank(x[..k]) && x[k] == '#'
    requires y <= x && Blank(x[|y|..])
    ensures Strip(y) != "" && Strip(y)[0] == '#'
  {
    BeforeBlank(x, |y|, k);
    assert y == y[..k] + y[k..] && y[..k] == x[..k] && y[k..][0] == '#';
    hide Blank, LStrip, RStrip;
    LStripBlank(y[..k], y[k..]);
    RStripKeepsFirst(y[k..]);
    StripIs(y);
  }

  lemma StripIs(s: string)
    ensures Strip(s) == RStrip(LStrip(s)) && RStrip(LStrip(s)) <= LStrip(s)
  {
  }

  lemma AllBlank(x: string, k: nat)
    requires k <= |x| && Blank(x[..k]) && (x[k..] == "" || x[k..] == "\r")
    ensures Blank(x)
  {
    assert x == x[..k] + x[k..];
  }

  /** After the brackets there is nothing for the scanner to object to. */
  lemma EndIsQuiet(x: string, y: string)
    requires EndsLine(x) && y <= x && Blank(x[|y|..]) && (y != "" ==> !IsSpace(y[|y| - 1]))
    ensures Strip(y) == "" || Strip(y)[0] == '#'
  {
    hide Strip;
    var e := SkipWs(x);
    var k := |x| - |e|;
    SkipWsBlank(x);
    assert e == "" || e == "\r" || e[0] == '#';
    hide SkipWs, EndsLine;
    if e != "" && e[0] == '#' {
      CommentLeads(x, y, k);
    } else {
      AllBlank(x, k);
      NothingLeft(y);
    }
  }

  lemma NothingLeft(y: string)
    requires Blank(y) && (y != "" ==> !IsSpace(y[|y| - 1]))
    ensures y == "" && Strip(y) == ""
  {
  }

  /** The parts of a header line: brackets, blanks, the key, what follows it. */
  ghost predicate HeaderParts(t: string, n: nat, path: seq<string>, key: string, rest: string) {
    && t != "" && t[0] == '[' && n == OpenLen(t) <= |t|
    && ParseKey(key + rest) == Got(path, rest) && KeyStart(t) == key + rest
    && Closes(rest, n) && EndsLine(rest[n..])
  }

  lemma PartsOf(line: string)
    requires ReadHeader(line).Some?
    ensures var t, key := SkipWs(line), KeyText(line);
            && t != "" && OpenLen(t) <= |t| && ParseKey(KeyStart(t)).Got?
            && ReadHeader(line) == Some(Reading(ParseKey(KeyStart(t)).value, OpenLen(t) == 2))
            && HeaderParts(t, OpenLen(t), ParseKey(KeyStart(t)).value, key, ParseKey(KeyStart(t)).rest)
  {
    var t := SkipWs(line);
    var u := KeyStart(t);
    ScansKey(u);
    assert u == u[..|u| - |ParseKey(u).rest|] + ParseKey(u).rest;
  }

  lemma KeyStartsPlain(u: string)
    requires ParseKey(u).Got?
    ensures u != "" && !IsSpace(u[0]) && |ParseKey(u).rest| < |u|
  {
  }

  lemma NameEndAtBracket(rest: string)
    requires rest != "" && rest[0] == ']'
    ensures NameEnd(rest, None) == Some(0)
  {
  }

  lemma ScansToBracket(x: string, rest: string)
    requires Scans(x, None, rest) && rest != "" && rest[0] == ']'
    ensures |rest| <= |x| && x[|x| - |rest|..] == rest && NameEnd(x, None) == Some(|x| - |rest|)
  {
    hide NameEnd;
    NameEndAtBracket(rest);
  }

  lemma NameFoundIn(t: string, n: nat, path: seq<string>, key: string, rest: string)
    requires HeaderParts(t, n, path, key, rest)
    ensures n + |rest| <= |t| && t[|t| - |rest|..] == rest && NameEnd(t[n..], None) == Some(|t| - |rest| - n)
  {
    hide ParseKey, NameEnd, EndsLine, SkipWs, Scans;
    var x, u := t[n..], key + rest;
    assert SkipWs(x) == u && ParseKey(u).rest == rest && rest != "" && rest[0] == ']';
    hide HeaderParts, KeyStart, Closes, OpenLen;
    ScansBlanks(x);
    ScansKey(u);
    ScansThen(x, u, rest);
    ScansToBracket(x, rest);
    assert x[|x| - |rest|..] == t[|t| - |rest|..];
  }

  /** Where the scanner finds the end of the name in a line that starts with the header. */
  lemma NameFound(t: string, n: nat, path: seq<string>, key: string, rest: string, s: string)
    requires HeaderParts(t, n, path, key, rest) && s <= t && Blank(t[|s|..])
    ensures var i := |t| - |rest|;
            n <= i && i + n <= |s| && t[i..] == rest && OpenLen(s) == n && NameEndFrom(s, n) == Some(i)
  {
    hide ParseKey, NameEnd, EndsLine, SkipWs, KeyStart;
    NameFoundIn(t, n, path, key, rest);
    var i := |t| - |rest|;
    assert t[i + n - 1] == rest[n - 1] == ']' && n >= 1;
    assert NameEnd(t[n..], None) == Some(i - n);
    hide HeaderParts, Closes, Blank;
    BeforeBlank(t, |s|, i + n - 1);
    PrefixDrop(s, t, n);
    NameEndInPrefix(s[n..], t[|s|..], None);
  }

  lemma PrefixDrop(s: string, t: string, n: nat)
    requires s <= t && n <= |s|
    ensures t[n..] == s[n..] + t[|s|..]
  {
    assert t == s + t[|s|..];
  }

  lemma KeyIsPlain(key: string, rest: string)
    requires ParseKey(key + rest).Got? && ParseKey(key + rest).rest == rest
    ensures key != "" && !IsSpace(key[0])
  {
    KeyStartsPlain(key + rest);
  }

  /** The name between the brackets is the key, without the blanks around it. */
  lemma InnerIs(t: string, n: nat, path: seq<string>, key: string, rest: string)
    requires HeaderParts(t, n, path, key, rest)
    ensures n + |rest| <= |t| && Strip(t[n..|t| - |rest|]) == RStrip(key) != ""
  {
    hide ParseKey, EndsLine, SkipWs, Closes;
    var x := t[n..];
    SkipWsBlank(x);
    var k := |x| - |key + rest|;
    assert x[k..] == key + rest && x == x[..k] + (key + rest);
    KeyIsPlain(key, rest);
    assert t[n..|t| - |rest|] == x[..k] + key;
    hide LStrip, RStrip, Blank;
    LStripBlank(x[..k], key);
    StripIs(x[..k] + key);
    RStripKeepsFirst(key);
  }

  lemma ClosedHeader(t: string, n: nat, path: seq<string>, key: string, rest: string, s: string)
    requires HeaderParts(t, n, path, key, rest) && s <= t && Blank(t[|s|..]) && s != "" && !IsSpace(s[|s| - 1])
    ensures HeaderOf(s) == Some(RStrip(key))
  {
    hide ParseKey, SkipWs, EndsLine, NameEndFrom, KeyStart, Strip, RStrip, LStrip;
    NameFound(t, n, path, key, rest, s);
    InnerIs(t, n, path, key, rest);
    var i := |t| - |rest|;
    var y := s[i..][n..];
    assert y <= rest[n..] && rest[n..][|y|..] == t[|s|..];
    assert y != "" ==> y[|y| - 1] == s[|s| - 1];
    EndIsQuiet(rest[n..], y);
    assert s[n..i] == t[n..i] && s[i] == rest[0] && (n == 2 ==> s[i + 1] == rest[1]);
    hide HeaderParts, Closes, Blank;
    CloseIs(s, n, i);
  }

  lemma CloseIs(s: string, n: nat, i: nat)
    requires 1 <= n <= 2 && n <= i && i + n <= |s| && s[i] == ']' && (n == 2 ==> s[i + 1] == ']')
    requires Strip(s[i..][n..]) == "" || Strip(s[i..][n..])[0] == '#'
    requires Strip(s[n..i]) != ""
    ensures CloseHeader(s, n, i) == Some(Strip(s[n..i]))
  {
    hide Strip;
  }

  /** Every line that TOML reads as a table header is a header for the scanner, under its key as it is spelled. */
  lemma ReadIsHeader(line: string)
    requires ReadHeader(line).Some?
    ensures HeaderPath(line) == Some(RStrip(KeyText(line)))
  {
    var t := SkipWs(line);
    PartsOf(line);
    assert t != "" && t[0] == '[';
    hide ReadHeader, KeyText, SkipWs, ParseKey;
    StripFrom(line);
    BeforeBlank(t, |Strip(line)|, 0);
    hide Strip, HeaderParts, Blank, OpenLen, HeaderOf, KeyStart;
    ClosedHeader(t, OpenLen(t), ParseKey(KeyStart(t)).value, KeyText(line), ParseKey(KeyStart(t)).rest, Strip(line));
  }

  // ---- the target's path -----------------------------------------------------------------------

  /** A last key part with blanks behind it: the key is over as long as no dot follows. */
  lemma LastPartBlank(s: string, part: string, rest: string)
    requires ParsePart(s) == Got(part, rest) && SkipWs(rest) != "" && SkipWs(rest)[0] != '.'
    ensures ParseKey(s) == Got([part], SkipWs(rest))
  {
  }

  lemma BlankThenBracket(trail: string, rest: string)
    requires Blank(trail) && rest != "" && rest[0] == ']'
    ensures var w := trail + rest;
            w != "" && !BareChar(w[0]) && SkipWs(w) != "" && SkipWs(w)[0] != '.'
  {
    var w := trail + rest;
    SkipWsBlank(w);
    assert w[|trail|] == ']';
    BlankHeadEnds(w, |w| - |SkipWs(w)|, |trail|);
    hide SkipWs;
  }

  lemma BlankHeadEnds(w: string, k: nat, i: nat)
    requires k <= |w| && Blank(w[..k]) && i < |w| && !IsSpace(w[i])
    ensures k <= i
  {
  }

  lemma ProvidersPart(later: string)
    ensures ParsePart("providers" + ("." + later)) == Got("providers", "." + later)
  {
    hide ParsePart, BareRun;
    assert Bare("providers");
    ParseBarePart("providers", "." + later);
  }

  lemma ProvidersDot(key: string, close: string)
    ensures "providers." + key + close == "providers" + ("." + (key + close))
  {
  }

  /** The key `providers` and a dot in front of a key. */
  lemma UnderProviders(key: string, close: string, name: string, rest: string)
    requires key != "" && key[0] !in " \t" && ParseKey(key + close) == Got([name], rest)
    ensures ParseKey("providers." + key + close) == Got(["providers", name], rest)
  {
    hide *;
    ProvidersDot(key, close);
    ProvidersPart(key + close);
    FirstPart("providers" + ("." + (key + close)), "providers", key + close, [name], rest);
    assert ["providers"] + [name] == ["providers", name];
  }

  lemma TargetIs(name: string)
    ensures TargetPath(name) == "providers." + HeaderKey(name)
    ensures HeaderKey(name) != "" && HeaderKey(name)[0] !in " \t"
  {
    HeaderKeyStart(name);
  }

  /** The name's own key as a last part. */
  lemma HeaderKeyPart(name: string, rest: string)
    requires Writable(name) && rest != "" && !BareChar(rest[0])
    ensures ParsePart(HeaderKey(name) + rest) == Got(name, rest)
  {
    hide ParsePart, Quoted;
    if BareMatch(name) { ParseBarePart(name, rest); } else { ParseQuotedPart(name, rest); }
  }

  lemma TargetThen(name: string, trail: string, rest: string)
    requires Writable(name) && Blank(trail) && rest != "" && rest[0] == ']'
    ensures var r := ParseKey(TargetPath(name) + (trail + rest)); r.Got? && r.value == ["providers", name]
  {
    hide *;
    var w := trail + rest;
    BlankThenBracket(trail, rest);
    HeaderKeyPart(name, w);
    LastPartBlank(HeaderKey(name) + w, name, w);
    TargetIs(name);
    UnderProviders(HeaderKey(name), w, name, SkipWs(w));
  }

  /**
   * What the editor takes for the section of a provider is that provider's table, or a table of an array under the
   * same name: any header of the file, found under the path searched for, reads as that key.
   */
  lemma TargetReads(line: string, name: string)
    requires Writable(name) && ReadHeader(line).Some? && HeaderPath(line) == Some(TargetPath(name))
    ensures ReadHeader(line) == Some(Reading(["providers", name], OpenLen(SkipWs(line)) == 2))
  {
    hide ReadHeader, HeaderPath, TargetPath, KeyText, ParseKey, SkipWs, EndsLine, KeyStart, RStrip, Blank, Writable;
    var t, key := SkipWs(line), KeyText(line);
    PartsOf(line);
    ReadIsHeader(line);
    var rest, trail := ParseKey(KeyStart(t)).rest, key[|RStrip(key)|..];
    RStripSplits(key);
    assert KeyStart(t) == key + rest && rest != "" && rest[0] == ']';
    hide HeaderParts, Closes, OpenLen;
    assert key == TargetPath(name) + trail;
    assert key + rest == TargetPath(name) + (trail + rest);
    TargetThen(name, trail, rest);
  }

  // ---- spellings ----------------------------------------------------------------------------------

  function Open(inArray: bool): string {
    if inArray then "[[" else "["
  }

  function Close(inArray: bool): string {
    if inArray then "]]" else "]"
  }

  lemma PlainStart(key: string, inArray: bool)
    requires key != "" && key[0] !in " \t["
    ensures var line := Open(inArray) + (key + Close(inArray));
            line[0] == '[' && SkipWs(line) == line && OpenLen(line) == |Open(inArray)| && KeyStart(line) == key + Close(inArray)
  {
    var line := Open(inArray) + (key + Close(inArray));
    assert line[|Open(inArray)|..] == key + Close(inArray);
    assert (key + Close(inArray))[0] == key[0] && line[|Open(inArray)|] == key[0];
  }

  lemma PlainClose(inArray: bool)
    ensures Closes(Close(inArray), |Open(inArray)|) && EndsLine(Close(inArray)[|Open(inArray)|..])
    ensures |Open(inArray)| == if inArray then 2 else 1
  {
    assert Close(inArray)[|Open(inArray)|..] == "";
  }

  /** A header with nothing but its key between the brackets. */
  lemma PlainHeader(key: string, path: seq<string>, inArray: bool)
    requires key != "" && key[0] !in " \t[" && !IsSpace(key[|key| - 1])
    requires ParseKey(key + Close(inArray)) == Got(path, Close(inArray))
    ensures var line := Open(inArray) + (key + Close(inArray));
            ReadHeader(line) == Some(Reading(path, inArray)) && HeaderPath(line) == Some(key)
  {
    hide ParseKey, SkipWs, OpenLen, KeyStart, EndsLine, Closes, HeaderPath, Open, Close;
    var line := Open(inArray) + (key + Close(inArray));
    PlainStart(key, inArray);
    PlainClose(inArray);
    assert KeyText(line) == (key + Close(inArray))[..|key|] == key;
    hide ReadHeader, KeyText;
    ReadIsHeader(line);
    assert key + "" == key;
    RStripBlank(key, "");
  }

  /** A header whose key is `providers`, a dot and one more part. */
  lemma ProviderHeader(key: string, name: string, inArray: bool)
    requires key != "" && key[0] !in " \t" && !IsSpace(key[|key| - 1])
    requires ParseKey(key + Close(inArray)) == Got([name], Close(inArray))
    ensures var line := Open(inArray) + ("providers." + key + Close(inArray));
            ReadHeader(line) == Some(Reading(["providers", name], inArray)) && HeaderPath(line) == Some("providers." + key)
  {
    hide *;
    var path := "providers." + key;
    UnderProviders(key, Close(inArray), name, Close(inArray));
    assert path[0] == 'p' && path[|path| - 1] == key[|key| - 1];
    PlainHeader(path, ["providers", name], inArray);
  }

  lemma ClosesKey(inArray: bool)
    ensures Close(inArray) != "" && !BareChar(Close(inArray)[0]) && Close(inArray)[0] !in " \t."
  {
  }

  /** The header as it is rendered, and the same in double brackets: both are found, and read as the provider's table. */
  lemma TargetSpelling(name: string, inArray: bool)
    requires Writable(name)
    ensures var line := Open(inArray) + (TargetPath(name) + Close(inArray));
            ReadHeader(line) == Some(Reading(["providers", name], inArray)) && HeaderPath(line) == Some(TargetPath(name))
  {
    hide *;
    ClosesKey(inArray);
    HeaderKeyPart(name, Close(inArray));
    LastPart(HeaderKey(name) + Close(inArray), name, Close(inArray));
    TargetIs(name);
    TargetPathEdges(name);
    var path := TargetPath(name);
    assert path[|path| - 1] == HeaderKey(name)[|HeaderKey(name)| - 1];
    ProviderHeader(HeaderKey(name), name, inArray);
  }

  /** A bare name as a hand may write it: in quotes, or with blanks around the dot. */
  function HandKey(name: string, quoted: bool): string {
    if quoted then "providers." + Quoted(name) else "providers . " + name
  }

  lemma SingleBrackets()
    ensures Open(false) == "[" && Close(false) == "]"
  {
  }

  /** Both are the same table, each under a path of the scanner that is not the one searched for. */
  lemma HandSpelling(name: string, quoted: bool)
    requires Bare(name)
    ensures var key := HandKey(name, quoted);
            && ReadHeader("[" + (key + "]")) == Some(Reading(["providers", name], false))
            && HeaderPath("[" + (key + "]")) == Some(key) && key != TargetPath(name) && '\n' !in key
  {
    HandKeyEnds(name, quoted);
    hide *;
    SingleBrackets();
    if quoted { QuotedKeyReads(name); } else { SpacedKeyReads(name); }
    PlainHeader(HandKey(name, quoted), ["providers", name], false);
  }

  lemma QuotedEnds(name: string)
    ensures var q := Quoted(name); |q| > 0 && q[0] == '"' == q[|q| - 1] && '\n' !in q
  {
    PassesFuse(name);
    EscapeOneLine(name);
  }

  lemma HandKeyEnds(name: string, quoted: bool)
    requires Bare(name)
    ensures var key := HandKey(name, quoted);
            key != "" && key[0] == 'p' && !IsSpace(key[|key| - 1]) && key != TargetPath(name) && '\n' !in key
  {
    QuotedEnds(name);
    var key, target := HandKey(name, quoted), TargetPath(name);
    assert target == "providers." + name;
    assert target[9] == '.' && target[10] == name[0] && BareChar(name[0]);
    hide Quoted, TargetPath;
    assert key[|key| - 1] == if quoted then '"' else name[|name| - 1];
    if quoted { assert key[10] == '"'; } else { assert key[9] == ' '; }
  }

  lemma QuotedKeyReads(name: string)
    ensures ParseKey(HandKey(name, true) + "]") == Got(["providers", name], "]")
  {
    QuotedEnds(name);
    hide ParseKey, ParsePart, Quoted;
    ParseQuotedPart(name, "]");
    LastPart(Quoted(name) + "]", name, "]");
    UnderProviders(Quoted(name), "]", name, "]");
  }

  lemma SpacedKeyReads(name: string)
    requires Bare(name)
    ensures ParseKey(HandKey(name, false) + "]") == Got(["providers", name], "]")
  {
    assert name[0] !in " \t";
    hide ParseKey, ParsePart, Bare;
    ParseBarePart(name, "]");
    LastPart(name + "]", name, "]");
    SpacedKey(name + "]", name, "]");
    SpacedJoin(name + "]");
    assert "providers . " + name + "]" == "providers . " + (name + "]");
  }

  lemma SpacedJoin(later: string)
    ensures "providers . " + later == "providers" + (" . " + later)
  {
  }

  lemma SpacedPart(later: string)
    requires later != "" && later[0] !in " \t"
    ensures var rest := " . " + later;
            ParsePart("providers" + rest) == Got("providers", rest)
              && SkipWs(rest) == "." + (" " + later) && SkipWs(" " + later) == later
  {
    hide ParsePart;
    assert Bare("providers");
    ParseBarePart("providers", " . " + later);
    SkipOne("." + (" " + later));
    SkipOne(later);
    assert " " + ("." + (" " + later)) == " . " + later;
  }

  lemma SkipOne(s: string)
    requires s != "" && s[0] !in " \t"
    ensures SkipWs(" " + s) == s
  {
    assert (" " + s)[1..] == s;
  }

  lemma SpacedKey(later: string, name: string, close: string)
    requires ParseKey(later) == Got([name], close) && later != "" && later[0] !in " \t"
    ensures ParseKey("providers" + (" . " + later)) == Got(["providers", name], close)
  {
    hide ParsePart, SkipWs;
    SpacedPart(later);
    var dotted := "." + (" " + later);
    assert dotted[1..] == " " + later;
    assert ["providers"] + [name] == ["providers", name];
  }
}
