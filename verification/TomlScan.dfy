/** The two quote-aware line scanners, and what they see in a rendered provider block. */
module TomlScan {
  import opened Base
  import opened Text
  import opened TomlValue

  // ---- the bracket scanner ---------------------------------------------------------

  /** The open string delimiter, if any, and the net number of open brackets. */
  datatype Scan = Scan(quote: Option<char>, depth: int)

  function ScanLine(s: string, quote: Option<char>, depth: int): Scan
    decreases |s|
  {
    if |s| == 0 then Scan(quote, depth)
    else match quote
      case None =>
        if s[0] == '#' then Scan(None, depth)
        else if s[0] == '"' || s[0] == '\'' then ScanLine(s[1..], Some(s[0]), depth)
        else if s[0] == '[' then ScanLine(s[1..], None, depth + 1)
        else if s[0] == ']' then ScanLine(s[1..], None, depth - 1)
        else ScanLine(s[1..], None, depth)
      case Some(q) =>
        if s[0] == '\\' && q == '"' then (if |s| < 2 then Scan(quote, depth) else ScanLine(s[2..], quote, depth))
        else if s[0] == q then ScanLine(s[1..], None, depth)
        else ScanLine(s[1..], quote, depth)
  }

  function BracketDelta(line: string): int {
    ScanLine(line, None, 0).depth
  }

  method ComputeBracketDelta(line: string) returns (depth: int)
    ensures depth == BracketDelta(line)
  {
    depth := 0;
    var quote: Option<char> := None;
    var i, n := 0, |line|;
    while i < n
      invariant 0 <= i
      invariant ScanLine(line, None, 0).depth == if i <= n then ScanLine(line[i..], quote, depth).depth else depth
    {
      var ch := line[i];
      assert line[i..][1..] == line[i + 1..];
      assert i + 2 <= n ==> line[i..][2..] == line[i + 2..];
      if quote.None? {
        if ch == '#' {
          break;
        } else if ch == '"' || ch == '\'' {
          quote := Some(ch);
        } else if ch == '[' {
          depth := depth + 1;
        } else if ch == ']' {
          depth := depth - 1;
        }
      } else if ch == '\\' && quote == Some('"') {
        i := i + 2;
        continue;
      } else if Some(ch) == quote {
        quote := None;
      }
      i := i + 1;
    }
  }

  // ---- the header scanner ------------------------------------------------------------

  /** Position of the first ']' outside strings, counted from the start of `s`. */
  function NameEnd(s: string, quote: Option<char>): Option<nat>
    decreases |s|
  {
    if |s| == 0 then None
    else match quote
      case None =>
        if s[0] == ']' then Some(0)
        else Later(1, NameEnd(s[1..], if s[0] == '"' || s[0] == '\'' then Some(s[0]) else None))
      case Some(q) =>
        if s[0] == '\\' && q == '"' then (if |s| < 2 then None else Later(2, NameEnd(s[2..], quote)))
        else Later(1, NameEnd(s[1..], if s[0] == q then None else quote))
  }

  function Later(k: nat, found: Option<nat>): Option<nat> {
    match found case None => None case Some(i) => Some(i + k)
  }

  lemma {:induction false} NameEndInRange(s: string, quote: Option<char>)
    ensures NameEnd(s, quote).Some? ==> NameEnd(s, quote).value < |s| && s[NameEnd(s, quote).value] == ']'
    decreases |s|
  {
    if |s| > 0 {
      match quote
      case None =>
        NameEndInRange(s[1..], if s[0] == '"' || s[0] == '\'' then Some(s[0]) else None);
      case Some(q) =>
        if s[0] == '\\' && q == '"' {
          if |s| >= 2 { NameEndInRange(s[2..], quote); }
        } else {
          NameEndInRange(s[1..], if s[0] == q then None else quote);
        }
    }
  }

  function OpenLen(s: string): nat {
    if |s| >= 2 && s[1] == '[' then 2 else 1
  }

  /** Where the header's name ends: the first ']' outside strings. */
  function NameEndFrom(s: string, openLen: nat): (end: Option<nat>)
    requires openLen <= |s|
    ensures end.Some? ==> openLen <= end.value < |s|
  {
    NameEndInRange(s[openLen..], None);
    Later(openLen, NameEnd(s[openLen..], None))
  }

  /** The dotted path of a table or array-of-tables header, or None. */
  function HeaderPath(line: string): Option<string> {
    HeaderOf(Strip(line))
  }

  function HeaderOf(s: string): Option<string> {
    if |s| == 0 || s[0] != '[' then None
    else match NameEndFrom(s, OpenLen(s))
      case None => None
      case Some(i) => CloseHeader(s, OpenLen(s), i)
  }

  function CloseHeader(s: string, openLen: nat, i: nat): Option<string>
    requires openLen <= i < |s|
  {
    var inner := Strip(s[openLen..i]);
    var rest, double := s[i..], openLen == 2;
    if double && !(|rest| >= 2 && rest[0] == ']' && rest[1] == ']') then None
    else
      var trailing := Strip(if double then rest[2..] else rest[1..]);
      if |trailing| > 0 && trailing[0] != '#' then None
      else if |inner| == 0 then None else Some(inner)
  }

  lemma NameEndStep(s: string, i: nat, quote: Option<char>)
    requires i < |s|
    ensures NameEnd(s[i..], quote) == match quote
      case None =>
        if s[i] == ']' then Some(0)
        else Later(1, NameEnd(s[i + 1..], if s[i] == '"' || s[i] == '\'' then Some(s[i]) else None))
      case Some(q) =>
        if s[i] == '\\' && q == '"' then (if i + 2 > |s| then None else Later(2, NameEnd(s[i + 2..], quote)))
        else Later(1, NameEnd(s[i + 1..], if s[i] == q then None else quote))
  {
    assert s[i..][1..] == s[i + 1..];
    assert i + 2 <= |s| ==> s[i..][2..] == s[i + 2..];
  }

  lemma NameEndPast(s: string, quote: Option<char>)
    ensures NameEnd(s[|s|..], quote) == None
  {
  }

  /** The name loop: the index of the closing bracket, or None when the line runs out first. */
  method ScanName(s: string, openLen: nat) returns (end: Option<nat>)
    requires openLen <= |s|
    ensures end == NameEndFrom(s, openLen)
  {
    hide NameEnd;
    var i := openLen;
    var quote: Option<char> := None;
    while i < |s|
      invariant openLen <= i
      invariant Later(openLen, NameEnd(s[openLen..], None)) ==
        if i <= |s| then Later(i, NameEnd(s[i..], quote)) else None
    {
      var ch := s[i];
      NameEndStep(s, i, quote);
      if quote.Some? {
        if ch == '\\' && quote == Some('"') {
          i := i + 2;
          continue;
        }
        if Some(ch) == quote { quote := None; }
      } else if ch == '"' || ch == '\'' {
        quote := Some(ch);
      } else if ch == ']' {
        return Some(i);
      }
      i := i + 1;
    }
    if i == |s| { NameEndPast(s, quote); }
    end := None;
  }

  method ComputeHeaderPath(line: string) returns (path: Option<string>)
    ensures path == HeaderPath(line)
  {
    var s := Strip(line);
    if |s| == 0 || s[0] != '[' { return None; }
    var end := ScanName(s, OpenLen(s));
    match end {
      case None => path := None;
      case Some(i) => path := CloseHeader(s, OpenLen(s), i);
    }
  }

  predicate IsHeader(line: string) {
    HeaderPath(line).Some?
  }

  // ---- scanning rendered values --------------------------------------------------------

  lemma ScanEscapedChar(c: char, rest: string, depth: int)
    ensures ScanLine(EscapeChar(c) + rest, Some('"'), depth) == ScanLine(rest, Some('"'), depth)
  {
    var s := EscapeChar(c) + rest;
    if IsControl(c) && !(c in "\n\r\t") {
      assert s[2..] == CodeEscape(c)[2..] + rest;
      ScanPlain(CodeEscape(c)[2..], rest, depth);
    } else if |EscapeChar(c)| == 2 {
      assert s[2..] == rest;
    } else {
      assert s[1..] == rest;
    }
  }

  /** Characters that neither escape nor close leave a string open. */
  lemma {:induction false} ScanPlain(plain: string, rest: string, depth: int)
    requires '\\' !in plain && '"' !in plain
    ensures ScanLine(plain + rest, Some('"'), depth) == ScanLine(rest, Some('"'), depth)
  {
    if plain == "" {
      assert plain + rest == rest;
    } else {
      assert plain[0] in plain && (plain + rest)[1..] == plain[1..] + rest;
      ScanPlain(plain[1..], rest, depth);
    }
  }

  lemma {:induction false} ScanEscaped(text: string, rest: string, depth: int)
    ensures ScanLine(Escape(text) + "\"" + rest, Some('"'), depth) == ScanLine(rest, None, depth)
  {
    if text == "" {
      assert ("" + "\"" + rest)[1..] == rest;
    } else {
      var later := Escape(text[1..]) + "\"" + rest;
      assert Escape(text) + "\"" + rest == EscapeChar(text[0]) + later;
      ScanEscapedChar(text[0], later, depth);
      ScanEscaped(text[1..], rest, depth);
    }
  }

  lemma ScanQuoted(text: string, rest: string, depth: int)
    ensures ScanLine(Quoted(text) + rest, None, depth) == ScanLine(rest, None, depth)
  {
    PassesFuse(text);
    ScanEscaped(text, rest, depth);
    assert (Quoted(text) + rest)[1..] == Escape(text) + "\"" + rest;
  }

  predicate Special(c: char) {
    c == '#' || c == '"' || c == '\'' || c == '[' || c == ']'
  }

  lemma {:induction false} ScanInert(inert: string, rest: string, depth: int)
    requires forall i :: 0 <= i < |inert| ==> !Special(inert[i])
    ensures ScanLine(inert + rest, None, depth) == ScanLine(rest, None, depth)
  {
    if inert == "" {
      assert inert + rest == rest;
    } else {
      assert (inert + rest)[1..] == inert[1..] + rest;
      ScanInert(inert[1..], rest, depth);
    }
  }

  lemma ScanBrackets(inner: string, rest: string, depth: int)
    requires ScanLine(inner + ("]" + rest), None, depth + 1) == ScanLine("]" + rest, None, depth + 1)
    ensures ScanLine(("[" + inner + "]") + rest, None, depth) == ScanLine(rest, None, depth)
  {
    var line := ("[" + inner + "]") + rest;
    assert line[0] == '[' && line[1..] == inner + ("]" + rest);
    assert ("]" + rest)[1..] == rest;
  }

  /** Any rendered value is balanced for the bracket scanner, whatever its strings contain. */
  lemma {:induction false} ScanRendered(v: Value, rest: string, depth: int)
    requires Accepted(v)
    ensures ScanLine(Render(v) + rest, None, depth) == ScanLine(rest, None, depth)
    decreases v, 1
  {
    hide ScanLine, Quoted;
    match v
    case Bool(flag) => ScanInert(Render(v), rest, depth);
    case Int(n) => ScanInert(Render(v), rest, depth);
    case Str(text) => ScanQuoted(text, rest, depth);
    case Arr(items, _) =>
      ScanRenderedItems(items, "]" + rest, depth + 1);
      ScanBrackets(RenderItems(items), rest, depth);
  }

  lemma {:induction false} ScanRenderedItems(items: seq<Value>, rest: string, depth: int)
    requires AllAccepted(items)
    ensures ScanLine(RenderItems(items) + rest, None, depth) == ScanLine(rest, None, depth)
    decreases items, 0
  {
    hide ScanLine;
    if |items| == 0 {
      assert "" + rest == rest;
    } else if |items| == 1 {
      ScanRendered(items[0], rest, depth);
    } else {
      var tail := RenderItems(items[1..]) + rest;
      assert RenderItems(items) + rest == Render(items[0]) + (", " + tail);
      ScanRendered(items[0], ", " + tail, depth);
      ScanInert(", ", tail, depth);
      ScanRenderedItems(items[1..], rest, depth);
    }
  }

  // ---- rendered lines ---------------------------------------------------------------------

  predicate BareChar(c: char) {
    'A' <= c <= 'Z' || 'a' <= c <= 'z' || '0' <= c <= '9' || c == '_' || c == '-'
  }

  predicate Bare(s: string) {
    s != "" && forall i :: 0 <= i < |s| ==> BareChar(s[i])
  }

  /** The regex `^[A-Za-z0-9_-]+$` with `match`: a final newline slips past the `$`. */
  predicate BareMatch(s: string) {
    Bare(s) || (s != "" && s[|s| - 1] == '\n' && Bare(s[..|s| - 1]))
  }

  /** A name whose header fits on its line: anything but a bare name followed by one newline. */
  predicate Writable(name: string) {
    BareMatch(name) ==> Bare(name)
  }

  function HeaderKey(name: string): string {
    if BareMatch(name) then name else Quoted(name)
  }

  function TargetPath(name: string): string {
    "providers." + HeaderKey(name)
  }

  function HeaderLine(name: string): string {
    "[" + TargetPath(name) + "]"
  }

  function FieldLine(key: string, v: Value): string
    requires Accepted(v)
  {
    key + " = " + Render(v)
  }

  /** A line of a section body that the editor reads as content: not blank, comment or header. */
  predicate IsContent(line: string) {
    |Strip(line)| > 0 && Strip(line)[0] != '#'
  }

  /** A rendered `key = value` line: balanced, its quotes closed, content, and never a header. */
  lemma FieldLineScans(key: string, v: Value)
    requires Bare(key) && Accepted(v)
    ensures ScanLine(FieldLine(key, v), None, 0) == Scan(None, 0)
    ensures BracketDelta(FieldLine(key, v)) == 0
    ensures IsContent(FieldLine(key, v)) && !IsHeader(FieldLine(key, v))
    ensures '\n' !in FieldLine(key, v) && |FieldLine(key, v)| > 0
  {
    var line := FieldLine(key, v);
    assert line == (key + " = ") + (Render(v) + "");
    ScanInert(key + " = ", Render(v) + "", 0);
    ScanRendered(v, "", 0);
    assert line[0] == key[0];
    StripStart(line);
    RenderOneLine(v);
    assert '\n' !in key;
  }

  lemma StripStart(line: string)
    requires |line| > 0 && !IsSpace(line[0])
    ensures |Strip(line)| > 0 && Strip(line)[0] == line[0]
  {
    assert LStrip(line) == line;
    RStripKeepsFirst(line);
  }

  lemma {:induction false} RStripKeepsFirst(s: string)
    requires |s| > 0 && !IsSpace(s[0])
    ensures |RStrip(s)| > 0
  {
    if IsSpace(s[|s| - 1]) {
      RStripKeepsFirst(s[..|s| - 1]);
    }
  }

  // ---- the header line ----------------------------------------------------------------------

  lemma NameEndEscapedChar(c: char, rest: string)
    ensures NameEnd(EscapeChar(c) + rest, Some('"')) == Later(|EscapeChar(c)|, NameEnd(rest, Some('"')))
  {
    var s := EscapeChar(c) + rest;
    if IsControl(c) && !(c in "\n\r\t") {
      assert s[2..] == CodeEscape(c)[2..] + rest;
      NameEndPlain(CodeEscape(c)[2..], rest);
    } else if |EscapeChar(c)| == 2 {
      assert s[2..] == rest;
    } else {
      assert s[1..] == rest;
    }
  }

  lemma {:induction false} NameEndPlain(plain: string, rest: string)
    requires '\\' !in plain && '"' !in plain
    ensures NameEnd(plain + rest, Some('"')) == Later(|plain|, NameEnd(rest, Some('"')))
  {
    if plain == "" {
      assert plain + rest == rest;
    } else {
      assert plain[0] in plain && (plain + rest)[1..] == plain[1..] + rest;
      NameEndPlain(plain[1..], rest);
    }
  }

  lemma {:induction false} NameEndEscaped(text: string)
    ensures NameEnd(Escape(text) + "\"]", Some('"')) == Some(|Escape(text)| + 1)
  {
    if text == "" {
      assert "" + "\"]" == "\"]" && "\"]"[1..] == "]";
    } else {
      var later := Escape(text[1..]) + "\"]";
      assert Escape(text) + "\"]" == EscapeChar(text[0]) + later;
      NameEndEscapedChar(text[0], later);
      NameEndEscaped(text[1..]);
    }
  }

  lemma {:induction false} NameEndInert(inert: string, rest: string)
    requires forall i :: 0 <= i < |inert| ==> !Special(inert[i])
    ensures NameEnd(inert + rest, None) == Later(|inert|, NameEnd(rest, None))
  {
    if inert == "" {
      assert inert + rest == rest;
    } else {
      assert (inert + rest)[1..] == inert[1..] + rest;
      NameEndInert(inert[1..], rest);
    }
  }

  lemma NameEndQuoted(name: string)
    ensures NameEnd(Quoted(name) + "]", None) == Some(|Quoted(name)|)
  {
    PassesFuse(name);
    NameEndEscaped(name);
    assert (Quoted(name) + "]")[1..] == Escape(name) + "\"]";
  }

  /** The scanner finds the end of the rendered name even when the name holds ']' or quotes. */
  lemma NameEndOfTarget(name: string)
    requires Writable(name)
    ensures NameEnd(TargetPath(name) + "]", None) == Some(|TargetPath(name)|)
  {
    if BareMatch(name) {
      NameEndInert(TargetPath(name), "]");
    } else {
      NameEndQuoted(name);
      NameEndInert("providers.", Quoted(name) + "]");
      assert TargetPath(name) + "]" == "providers." + (Quoted(name) + "]");
    }
  }

  /** The path has no blank at either end and no newline inside. */
  lemma TargetPathEdges(name: string)
    requires Writable(name)
    ensures var p := TargetPath(name); p[0] == 'p' && !IsSpace(p[|p| - 1]) && '\n' !in p
  {
    var p, key := TargetPath(name), HeaderKey(name);
    if !BareMatch(name) {
      PassesFuse(name);
      EscapeOneLine(name);
    }
    assert p[|p| - 1] == key[|key| - 1];
  }

  lemma ClosePath(line: string, path: string)
    requires |path| > 0 && !IsSpace(path[0]) && !IsSpace(path[|path| - 1])
    requires |line| == |path| + 2 && line[1..|path| + 1] == path && line[|path| + 1] == ']'
    ensures CloseHeader(line, 1, 1 + |path|) == Some(path)
  {
    StripFixed(path);
    assert |line[1 + |path|..][1..]| == 0;
  }

  lemma NameEndShifted(line: string, rest: string, k: nat)
    requires |line| > 0 && line[1..] == rest && NameEnd(rest, None) == Some(k)
    ensures NameEndFrom(line, 1) == Some(1 + k)
  {
  }

  lemma HeaderOfLine(line: string, path: string)
    requires |line| >= 2 && line[0] == '[' && line[1] != '['
    requires NameEndFrom(line, 1).Some? && CloseHeader(line, 1, NameEndFrom(line, 1).value) == Some(path)
    ensures HeaderOf(line) == Some(path)
  {
  }

  lemma HeaderOfPath(line: string, path: string, tail: string)
    requires |path| > 0 && path[0] == 'p' && !IsSpace(path[|path| - 1])
    requires |line| == |path| + 2 && line[0] == '[' && line[1..|path| + 1] == path && line[|path| + 1] == ']'
    requires tail == line[1..] && NameEnd(tail, None) == Some(|path|)
    ensures HeaderOf(line) == Some(path)
  {
    NameEndShifted(line, tail, |path|);
    ClosePath(line, path);
    HeaderOfLine(line, path);
  }

  /** The rendered header is one line, found under the very path the editor searches for, exactly for writable names. */
  lemma HeaderLineIsFound(name: string)
    ensures '\n' !in HeaderLine(name) <==> Writable(name)
    ensures Writable(name) ==> HeaderPath(HeaderLine(name)) == Some(TargetPath(name))
  {
    if Writable(name) {
      WritableIsFound(name);
    } else {
      assert name[|name| - 1] in HeaderLine(name);
    }
  }

  lemma WritableIsFound(name: string)
    requires Writable(name)
    ensures HeaderPath(HeaderLine(name)) == Some(TargetPath(name)) && '\n' !in HeaderLine(name)
  {
    TargetPathEdges(name);
    NameEndOfTarget(name);
    var line, tail := HeaderLine(name), TargetPath(name) + "]";
    assert line[1..] == tail;
    HeaderOfPath(line, TargetPath(name), tail);
    StripFixed(line);
  }
}
