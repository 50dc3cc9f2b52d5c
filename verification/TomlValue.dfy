/** Rendering values as TOML, and reading them back by the String, Integer, Boolean and Array rules of TOML v1.0.0. */
module TomlValue {
  import opened Base
  import opened Text

  /** An array is a list or a tuple of the caller's; `Other` is any type the renderer refuses. */
  datatype Value = Bool(flag: bool) | Int(num: int) | Str(text: string) | Arr(items: seq<Value>, isTuple: bool) | Other

  // ---- the escape function ---------------------------------------------------------

  function Replace(s: string, c: char, with: string): string {
    if s == "" then "" else (if s[0] == c then with else [s[0]]) + Replace(s[1..], c, with)
  }

  /** The control characters escaped by code; tab, newline and return are handled before. */
  predicate IsControl(c: char) {
    c <= '\U{08}' || c == '\U{0B}' || c == '\U{0C}' || '\U{0E}' <= c <= '\U{1F}' || c == '\U{7F}'
  }

  function HexChar(d: nat): (c: char)
    requires d < 16
  {
    "0123456789abcdef"[d]
  }

  function CodeEscape(c: char): string
    requires c as int < 256
  {
    "\\u00" + [HexChar(c as int / 16), HexChar(c as int % 16)]
  }

  function EscapeControls(s: string): string {
    if s == "" then "" else (if IsControl(s[0]) then CodeEscape(s[0]) else [s[0]]) + EscapeControls(s[1..])
  }

  function ReplacePasses(s: string): string {
    Replace(Replace(Replace(Replace(Replace(s, '\\', "\\\\"), '"', "\\\""), '\n', "\\n"), '\r', "\\r"), '\t', "\\t")
  }

  /** The passes of the source, one after another over the whole string. */
  function EscapePasses(s: string): string {
    EscapeControls(ReplacePasses(s))
  }

  function EscapeChar(c: char): string {
    if c == '\\' then "\\\\"
    else if c == '"' then "\\\""
    else if c == '\n' then "\\n"
    else if c == '\r' then "\\r"
    else if c == '\t' then "\\t"
    else if IsControl(c) then CodeEscape(c)
    else [c]
  }

  function Escape(s: string): string {
    if s == "" then "" else EscapeChar(s[0]) + Escape(s[1..])
  }

  lemma {:induction false} ReplaceConcat(a: string, b: string, c: char, with: string)
    ensures Replace(a + b, c, with) == Replace(a, c, with) + Replace(b, c, with)
  {
    if a == "" {
      assert a + b == b;
    } else {
      assert (a + b)[1..] == a[1..] + b;
      ReplaceConcat(a[1..], b, c, with);
    }
  }

  lemma {:induction false} EscapeControlsConcat(a: string, b: string)
    ensures EscapeControls(a + b) == EscapeControls(a) + EscapeControls(b)
  {
    if a == "" {
      assert a + b == b;
    } else {
      assert (a + b)[1..] == a[1..] + b;
      EscapeControlsConcat(a[1..], b);
    }
  }

  lemma ReplacePassesConcat(a: string, b: string)
    ensures ReplacePasses(a + b) == ReplacePasses(a) + ReplacePasses(b)
  {
    ReplaceConcat(a, b, '\\', "\\\\");
    var a1, b1 := Replace(a, '\\', "\\\\"), Replace(b, '\\', "\\\\");
    ReplaceConcat(a1, b1, '"', "\\\"");
    var a2, b2 := Replace(a1, '"', "\\\""), Replace(b1, '"', "\\\"");
    ReplaceConcat(a2, b2, '\n', "\\n");
    var a3, b3 := Replace(a2, '\n', "\\n"), Replace(b2, '\n', "\\n");
    ReplaceConcat(a3, b3, '\r', "\\r");
    ReplaceConcat(Replace(a3, '\r', "\\r"), Replace(b3, '\r', "\\r"), '\t', "\\t");
  }

  lemma {:induction false} ReplaceAbsent(s: string, c: char, with: string)
    requires c !in s
    ensures Replace(s, c, with) == s
  {
    if s != "" {
      assert s[0] in s;
      ReplaceAbsent(s[1..], c, with);
    }
  }

  lemma ReplaceOne(x: char, c: char, with: string)
    ensures Replace([x], c, with) == if x == c then with else [x]
  {
    assert [x][1..] == "";
  }

  /** One character at a time: what a pass introduces, no later pass touches. */
  lemma ReplacePassesOne(c: char)
    ensures ReplacePasses([c]) == if IsControl(c) then [c] else EscapeChar(c)
  {
    ReplaceOne(c, '\\', "\\\\");
    if c == '\\' {
      ReplaceAbsent("\\\\", '"', "\\\"");
      ReplaceAbsent("\\\\", '\n', "\\n");
      ReplaceAbsent("\\\\", '\r', "\\r");
      ReplaceAbsent("\\\\", '\t', "\\t");
    } else {
      ReplaceOne(c, '"', "\\\"");
      if c == '"' {
        ReplaceAbsent("\\\"", '\n', "\\n");
        ReplaceAbsent("\\\"", '\r', "\\r");
        ReplaceAbsent("\\\"", '\t', "\\t");
      } else {
        ReplaceOne(c, '\n', "\\n");
        if c == '\n' {
          ReplaceAbsent("\\n", '\r', "\\r");
          ReplaceAbsent("\\n", '\t', "\\t");
        } else {
          ReplaceOne(c, '\r', "\\r");
          if c == '\r' {
            ReplaceAbsent("\\r", '\t', "\\t");
          } else {
            ReplaceOne(c, '\t', "\\t");
          }
        }
      }
    }
  }

  lemma {:induction false} EscapeControlsAbsent(s: string)
    requires forall i :: 0 <= i < |s| ==> !IsControl(s[i])
    ensures EscapeControls(s) == s
  {
    if s != "" { EscapeControlsAbsent(s[1..]); }
  }

  lemma ControlsOfOne(c: char)
    ensures EscapeControls(if IsControl(c) then [c] else EscapeChar(c)) == EscapeChar(c)
  {
    if IsControl(c) {
      assert [c][1..] == "";
    } else {
      EscapeControlsAbsent(EscapeChar(c));
    }
  }

  /** Six passes over the string are one pass over its characters. */
  lemma {:induction false} PassesFuse(s: string)
    ensures EscapePasses(s) == Escape(s)
  {
    if s != "" {
      assert s == [s[0]] + s[1..];
      ReplacePassesConcat([s[0]], s[1..]);
      ReplacePassesOne(s[0]);
      EscapeControlsConcat(ReplacePasses([s[0]]), ReplacePasses(s[1..]));
      ControlsOfOne(s[0]);
      PassesFuse(s[1..]);
    }
  }

  // ---- rendering ---------------------------------------------------------------------

  function Quoted(s: string): string {
    "\"" + EscapePasses(s) + "\""
  }

  function IntText(n: int): string {
    if n < 0 then "-" + Dec(-n) else Dec(n)
  }

  /** The values the renderer accepts. */
  predicate Accepted(v: Value) {
    match v
    case Bool(_) => true
    case Int(n) => |Dec(if n < 0 then -n else n)| <= MAX_INT_DIGITS
    case Str(_) => true
    case Arr(items, _) => AllAccepted(items)
    case Other => false
  }

  predicate AllAccepted(items: seq<Value>) {
    |items| == 0 || (Accepted(items[0]) && AllAccepted(items[1..]))
  }

  function Render(v: Value): (s: string)
    requires Accepted(v)
    ensures |s| > 0
    decreases v, 1
  {
    match v
    case Bool(flag) => if flag then "true" else "false"
    case Int(n) => IntText(n)
    case Str(s) => Quoted(s)
    case Arr(items, _) => "[" + RenderItems(items) + "]"
  }

  /** The elements, separated by a comma and a space. */
  function RenderItems(items: seq<Value>): string
    requires AllAccepted(items)
    decreases items, 0
  {
    if |items| == 0 then ""
    else if |items| == 1 then Render(items[0])
    else Render(items[0]) + ", " + RenderItems(items[1..])
  }

  // ---- reading back --------------------------------------------------------------------

  datatype Parsed<+T> = Bad | Got(value: T, rest: string)

  function HexDigit(c: char): Option<nat> {
    if '0' <= c <= '9' then Some(c as int - '0' as int)
    else if 'a' <= c <= 'f' then Some(c as int - 'a' as int + 10)
    else if 'A' <= c <= 'F' then Some(c as int - 'A' as int + 10)
    else None
  }

  function HexNumber(s: string): Option<nat> {
    if s == "" then Some(0)
    else match (HexNumber(s[..|s| - 1]), HexDigit(s[|s| - 1]))
      case (Some(hi), Some(lo)) => Some(16 * hi + lo)
      case _ => None
  }

  /** A Unicode escape names a scalar value: surrogates and anything past U+10FFFF are errors. */
  function CodeChar(hex: string): Option<char> {
    match HexNumber(hex)
    case None => None
    case Some(n) => if n < 0xD800 || 0xE000 <= n < 0x110000 then Some(n as char) else None
  }

  /** The characters a basic string may not contain raw; tab is allowed. */
  predicate Forbidden(c: char) {
    c <= '\U{08}' || '\n' <= c <= '\U{1F}' || c == '\U{7F}'
  }

  function Prepend(c: char, p: Parsed<string>): (r: Parsed<string>)
    ensures r.Got? <==> p.Got?
    ensures r.Got? ==> r.rest == p.rest
  {
    match p case Bad => Bad case Got(s, rest) => Got([c] + s, rest)
  }

  /** The one-letter escapes. */
  function ShortEscape(c: char): Option<char> {
    if c == 'b' then Some('\U{08}')
    else if c == 't' then Some('\t')
    else if c == 'n' then Some('\n')
    else if c == 'f' then Some('\U{0C}')
    else if c == 'r' then Some('\r')
    else if c == '"' || c == '\\' then Some(c)
    else None
  }

  /** The rest of a basic string, after its opening quote. */
  function ParseBasic(s: string): (r: Parsed<string>)
    ensures r.Got? ==> |r.rest| < |s|
    decreases |s|
  {
    if s == "" then Bad
    else if s[0] == '"' then Got("", s[1..])
    else if s[0] == '\\' then
      if |s| < 2 then Bad
      else if ShortEscape(s[1]).Some? then Prepend(ShortEscape(s[1]).value, ParseBasic(s[2..]))
      else if s[1] == 'u' && |s| >= 6 then
        (match CodeChar(s[2..6]) case None => Bad case Some(c) => Prepend(c, ParseBasic(s[6..])))
      else if s[1] == 'U' && |s| >= 10 then
        (match CodeChar(s[2..10]) case None => Bad case Some(c) => Prepend(c, ParseBasic(s[10..])))
      else Bad
    else if Forbidden(s[0]) then Bad
    else Prepend(s[0], ParseBasic(s[1..]))
  }

  function DigitRun(s: string): (k: nat)
    ensures k <= |s| && AllDigits(s[..k])
    ensures k < |s| ==> !IsDigit(s[k])
  {
    if s == "" || !IsDigit(s[0]) then 0 else 1 + DigitRun(s[1..])
  }

  /** Decimal digits with no leading zero. */
  function ParseNat(s: string): (r: Parsed<nat>)
    ensures r.Got? ==> |r.rest| < |s|
  {
    var k := DigitRun(s);
    if k == 0 || (k > 1 && s[0] == '0') then Bad else Got(DecValue(s[..k]), s[k..])
  }

  function Negate(p: Parsed<nat>): (r: Parsed<Value>) {
    match p case Bad => Bad case Got(n, rest) => Got(Int(-(n as int)), rest)
  }

  function Plain(p: Parsed<nat>): (r: Parsed<Value>) {
    match p case Bad => Bad case Got(n, rest) => Got(Int(n), rest)
  }

  function SkipBlank(s: string): (r: string)
    ensures |r| <= |s|
  {
    if s != "" && (s[0] == ' ' || s[0] == '\t' || s[0] == '\n' || s[0] == '\r') then SkipBlank(s[1..]) else s
  }

  predicate StartsWith(s: string, p: string) {
    |p| <= |s| && s[..|p|] == p
  }

  function ParseValue(s: string): (r: Parsed<Value>)
    ensures r.Got? ==> |r.rest| < |s|
    decreases |s|, 0
  {
    if s == "" then Bad
    else if s[0] == 't' then (if StartsWith(s, "true") then Got(Bool(true), s[4..]) else Bad)
    else if s[0] == 'f' then (if StartsWith(s, "false") then Got(Bool(false), s[5..]) else Bad)
    else if s[0] == '"' then
      (match ParseBasic(s[1..]) case Bad => Bad case Got(text, rest) => Got(Str(text), rest))
    else if s[0] == '[' then
      (match ParseItems(s[1..]) case Bad => Bad case Got(items, rest) => Got(Arr(items, false), rest))
    else if s[0] == '-' then Negate(ParseNat(s[1..]))
    else if s[0] == '+' then Plain(ParseNat(s[1..]))
    else Plain(ParseNat(s))
  }

  /** Array elements up to the closing bracket; a trailing comma is allowed. */
  function ParseItems(s: string): (r: Parsed<seq<Value>>)
    ensures r.Got? ==> |r.rest| < |s|
    decreases |s|, 1
  {
    var t := SkipBlank(s);
    if t == "" then Bad
    else if t[0] == ']' then Got([], t[1..])
    else match ParseValue(t)
      case Bad => Bad
      case Got(v, after) =>
        var u := SkipBlank(after);
        if u == "" then Bad
        else if u[0] == ']' then Got([v], u[1..])
        else if u[0] != ',' then Bad
        else match ParseItems(u[1..])
          case Bad => Bad
          case Got(vs, rest) => Got([v] + vs, rest)
  }

  /** The value as an array of TOML holds it: every sequence is a list. */
  function AsRead(v: Value): Value
    decreases v, 1
  {
    match v case Arr(items, _) => Arr(AllAsRead(items), false) case _ => v
  }

  function AllAsRead(items: seq<Value>): (r: seq<Value>)
    ensures |r| == |items|
    decreases items, 0
  {
    if |items| == 0 then [] else [AsRead(items[0])] + AllAsRead(items[1..])
  }

  predicate TupleFree(v: Value)
    decreases v, 1
  {
    match v case Arr(items, isTuple) => !isTuple && AllTupleFree(items) case _ => true
  }

  predicate AllTupleFree(items: seq<Value>)
    decreases items, 0
  {
    |items| == 0 || (TupleFree(items[0]) && AllTupleFree(items[1..]))
  }

  lemma {:induction false} AsReadSame(v: Value)
    ensures AsRead(v) == v <==> TupleFree(v)
    decreases v, 1
  {
    if v.Arr? { AllAsReadSame(v.items); }
  }

  lemma {:induction false} AllAsReadSame(items: seq<Value>)
    ensures AllAsRead(items) == items <==> AllTupleFree(items)
    decreases items, 0
  {
    if |items| != 0 {
      AsReadSame(items[0]);
      AllAsReadSame(items[1..]);
      assert items == [items[0]] + items[1..];
      assert AllAsRead(items)[1..] == AllAsRead(items[1..]);
    }
  }

  // ---- round trip ------------------------------------------------------------------------

  lemma CodeRoundTrip(c: char)
    requires IsControl(c)
    ensures CodeChar(CodeEscape(c)[2..]) == Some(c)
  {
    var hi, lo := c as int / 16, c as int % 16;
    var hex := CodeEscape(c)[2..];
    assert hex == ['0', '0', HexChar(hi), HexChar(lo)];
    assert hex[..3] == ['0', '0', HexChar(hi)] && hex[..3][..2] == "00" && "00"[..1] == "0" && "0"[..0] == "";
    assert HexNumber("0") == Some(0);
    assert HexNumber("00") == Some(0);
    assert HexDigit(HexChar(hi)) == Some(hi) && HexDigit(HexChar(lo)) == Some(lo);
    assert HexNumber(hex[..3]) == Some(hi);
    assert HexNumber(hex) == Some(16 * hi + lo);
  }

  lemma ParseCodeEscape(c: char, rest: string)
    requires IsControl(c)
    ensures ParseBasic(CodeEscape(c) + rest) == Prepend(c, ParseBasic(rest))
  {
    var s := CodeEscape(c) + rest;
    CodeRoundTrip(c);
    assert s[0] == '\\' && s[1] == 'u' && s[2..6] == CodeEscape(c)[2..] && s[6..] == rest;
  }

  lemma ParseShortEscape(c: char, rest: string)
    requires c in "\\\"\n\r\t"
    ensures ParseBasic(EscapeChar(c) + rest) == Prepend(c, ParseBasic(rest))
  {
    assert (EscapeChar(c) + rest)[2..] == rest;
  }

  lemma ParseEscapedChar(c: char, rest: string)
    ensures ParseBasic(EscapeChar(c) + rest) == Prepend(c, ParseBasic(rest))
  {
    if c in "\\\"\n\r\t" {
      ParseShortEscape(c, rest);
    } else if IsControl(c) {
      ParseCodeEscape(c, rest);
    } else {
      assert ([c] + rest)[1..] == rest;
    }
  }

  lemma {:induction false} ParseEscaped(text: string, rest: string)
    ensures ParseBasic(Escape(text) + "\"" + rest) == Got(text, rest)
  {
    if text == "" {
      assert ("" + "\"" + rest)[1..] == rest;
    } else {
      var later := Escape(text[1..]) + "\"" + rest;
      assert Escape(text) + "\"" + rest == EscapeChar(text[0]) + later;
      ParseEscapedChar(text[0], later);
      ParseEscaped(text[1..], rest);
      assert [text[0]] + text[1..] == text;
    }
  }

  /** What may follow a value in a document: anything but another digit. */
  predicate Ends(rest: string) {
    rest == "" || !IsDigit(rest[0])
  }

  lemma {:induction false} DigitRunOf(d: string, rest: string)
    requires AllDigits(d) && Ends(rest)
    ensures DigitRun(d + rest) == |d|
  {
    if d == "" {
      assert d + rest == rest;
    } else {
      assert (d + rest)[1..] == d[1..] + rest;
      DigitRunOf(d[1..], rest);
    }
  }

  lemma ParseDec(n: nat, rest: string)
    requires Ends(rest)
    ensures ParseNat(Dec(n) + rest) == Got(n, rest)
  {
    var d := Dec(n);
    DigitRunOf(d, rest);
    DecValueOfDec(n);
    assert (d + rest)[..|d|] == d && (d + rest)[|d|..] == rest;
    if d[0] == '0' {
      assert n == 0;
    }
  }

  lemma ParseInt(n: int, rest: string)
    requires Ends(rest)
    ensures ParseValue(IntText(n) + rest) == Got(Int(n), rest)
  {
    hide ParseValue, ParseNat, Dec;
    if n < 0 {
      ParseNegative(-n, rest);
    } else {
      ParseDec(n, rest);
      DecStartsWithDigit(n, rest);
      ParseUnsigned(Dec(n) + rest);
    }
  }

  lemma DecStartsWithDigit(n: nat, rest: string)
    ensures IsDigit((Dec(n) + rest)[0])
  {
    assert (Dec(n) + rest)[0] == Dec(n)[0];
  }

  lemma ParseNegative(n: nat, rest: string)
    requires Ends(rest)
    ensures ParseValue("-" + Dec(n) + rest) == Got(Int(-(n as int)), rest)
  {
    ParseDec(n, rest);
    ParseSigned(Dec(n) + rest);
    assert "-" + Dec(n) + rest == "-" + (Dec(n) + rest);
  }

  lemma ParseUnsigned(s: string)
    requires s != "" && IsDigit(s[0])
    ensures ParseValue(s) == Plain(ParseNat(s))
  {
  }

  lemma ParseSigned(s: string)
    ensures ParseValue("-" + s) == Negate(ParseNat(s))
  {
    assert ("-" + s)[1..] == s;
  }

  lemma ParseArr(text: string, items: seq<Value>, rest: string)
    requires ParseItems(text + "]" + rest) == Got(items, rest)
    ensures ParseValue("[" + text + "]" + rest) == Got(Arr(items, false), rest)
  {
    assert ("[" + text + "]" + rest)[1..] == text + "]" + rest;
  }

  lemma ParseBool(flag: bool, rest: string)
    ensures ParseValue(Render(Bool(flag)) + rest) == Got(Bool(flag), rest)
  {
    var text := Render(Bool(flag));
    assert (text + rest)[..|text|] == text && (text + rest)[|text|..] == rest;
  }

  lemma ParseStr(text: string, rest: string)
    ensures ParseValue(Quoted(text) + rest) == Got(Str(text), rest)
  {
    hide ParseBasic, ParseItems, ParseNat, Escape, EscapePasses;
    PassesFuse(text);
    ParseEscaped(text, rest);
    var s := Quoted(text) + rest;
    assert s[0] == '"' && s[1..] == Escape(text) + "\"" + rest;
  }

  /** No rendered value starts with a blank or with a closing bracket. */
  lemma RenderStart(v: Value)
    requires Accepted(v)
    ensures Render(v)[0] !in " \t\n\r],"
  {
    match v
    case Int(n) => assert n >= 0 ==> IsDigit(Dec(n)[0]);
    case _ =>
  }

  lemma {:induction false} ParseRendered(v: Value, rest: string)
    requires Accepted(v) && Ends(rest)
    ensures ParseValue(Render(v) + rest) == Got(AsRead(v), rest)
    decreases v, 1
  {
    match v
    case Bool(flag) => ParseBool(flag, rest);
    case Int(n) => ParseInt(n, rest);
    case Str(text) => ParseStr(text, rest);
    case Arr(items, _) =>
      ParseRenderedItems(items, rest);
      ParseArr(RenderItems(items), AllAsRead(items), rest);
  }

  /** One element and what its separator leads to. */
  lemma ParseOneItem(v: Value, text: string, after: string)
    requires text != "" && text[0] !in " \t\n\r],"
    requires after != "" && (after[0] == ']' || after[0] == ',')
    requires ParseValue(text + after) == Got(v, after)
    ensures ParseItems(text + after) ==
      if after[0] == ']' then Got([v], after[1..])
      else match ParseItems(after[1..]) case Bad => Bad case Got(vs, rest) => Got([v] + vs, rest)
  {
    assert (text + after)[0] == text[0];
    assert SkipBlank(text + after) == text + after && SkipBlank(after) == after;
  }

  lemma {:induction false} ParseRenderedItems(items: seq<Value>, rest: string)
    requires AllAccepted(items)
    ensures ParseItems(RenderItems(items) + "]" + rest) == Got(AllAsRead(items), rest)
    decreases items, 0
  {
    if |items| == 0 {
      assert "" + "]" + rest == "]" + rest && ("]" + rest)[1..] == rest;
    } else {
      RenderItemsUnfold(items, rest);
      if |items| == 1 {
        ParseRendered(items[0], "]" + rest);
        ParseLastItem(items[0], AsRead(items[0]), rest);
        assert AllAsRead(items[1..]) == [];
        assert AllAsRead(items) == [AsRead(items[0])];
      } else {
        var more := RenderItems(items[1..]) + "]" + rest;
        ParseRenderedItems(items[1..], rest);
        ParseRendered(items[0], "," + (" " + more));
        ParseNextItem(items[0], AsRead(items[0]), AllAsRead(items[1..]), more, rest);
      }
    }
  }

  lemma RenderItemsUnfold(items: seq<Value>, rest: string)
    requires |items| > 0 && AllAccepted(items)
    ensures RenderItems(items) + "]" + rest == Render(items[0]) +
      if |items| == 1 then "]" + rest else "," + (" " + (RenderItems(items[1..]) + "]" + rest))
    ensures items == [items[0]] + items[1..] && (|items| == 1 ==> items == [items[0]])
  {
    if |items| > 1 {
      Regroup(Render(items[0]), RenderItems(items[1..]), rest);
    } else {
      assert RenderItems(items) == Render(items[0]);
    }
  }

  lemma Regroup(a: string, b: string, rest: string)
    ensures a + ", " + b + "]" + rest == a + ("," + (" " + (b + "]" + rest)))
  {
  }

  lemma ParseLastItem(v: Value, read: Value, rest: string)
    requires Accepted(v) && ParseValue(Render(v) + ("]" + rest)) == Got(read, "]" + rest)
    ensures ParseItems(Render(v) + ("]" + rest)) == Got([read], rest)
  {
    RenderStart(v);
    ParseOneItem(read, Render(v), "]" + rest);
    assert ("]" + rest)[1..] == rest;
  }

  lemma ParseNextItem(v: Value, read: Value, tail: seq<Value>, more: string, rest: string)
    requires Accepted(v) && ParseValue(Render(v) + ("," + (" " + more))) == Got(read, "," + (" " + more))
    requires ParseItems(more) == Got(tail, rest)
    ensures ParseItems(Render(v) + ("," + (" " + more))) == Got([read] + tail, rest)
  {
    RenderStart(v);
    ParseOneItem(read, Render(v), "," + (" " + more));
    SkipOneSpace(more);
    assert ("," + (" " + more))[1..] == " " + more;
  }

  lemma SkipOneSpace(s: string)
    ensures ParseItems(" " + s) == ParseItems(s)
  {
    assert (" " + s)[1..] == s;
  }

  /** For every accepted value, decoding the rendered text gives the value back; only a tuple comes back as a list. */
  lemma RenderRoundTrip(v: Value)
    requires Accepted(v)
    ensures ParseValue(Render(v)) == Got(AsRead(v), "")
    ensures AsRead(v) == v <==> TupleFree(v)
  {
    AsReadSame(v);
    ParseRendered(v, "");
    assert Render(v) + "" == Render(v);
  }

  // ---- one line ----------------------------------------------------------------------------

  lemma {:induction false} EscapeOneLine(s: string)
    ensures '\n' !in Escape(s)
  {
    if s != "" {
      EscapeOneLine(s[1..]);
      assert '\n' !in EscapeChar(s[0]);
    }
  }

  lemma {:induction false} RenderOneLine(v: Value)
    requires Accepted(v)
    ensures '\n' !in Render(v)
    decreases v, 1
  {
    match v
    case Str(text) => PassesFuse(text); EscapeOneLine(text);
    case Arr(items, _) => RenderItemsOneLine(items);
    case Int(n) =>
      var d := Dec(if n < 0 then -n else n);
      assert forall i :: 0 <= i < |d| ==> IsDigit(d[i]);
    case _ =>
  }

  lemma {:induction false} RenderItemsOneLine(items: seq<Value>)
    requires AllAccepted(items)
    ensures '\n' !in RenderItems(items)
    decreases items, 0
  {
    if |items| != 0 {
      RenderOneLine(items[0]);
      RenderItemsOneLine(items[1..]);
    }
  }
}
