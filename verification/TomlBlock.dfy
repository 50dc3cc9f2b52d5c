/** `render_provider_block`: the registry's names, the rendered lines, and the reparse that must give the table back. */
module TomlBlock {
  import opened Base
  import opened Text
  import opened TomlValue
  import opened TomlScan

  type Field = (string, Value)

  // ---- guard 1: names ----------------------------------------------------------------

  function SecretFields(name: string): set<string> {
    {name + "_env", name + "_file", name + "_keyring"}
  }

  /** The fields a kind may have besides `kind` itself; None is an unknown kind. */
  function FieldNames(kind: string): Option<set<string>> {
    if kind == "aws_sts" then Some({"role_arn", "region", "session_name"} + SecretFields("parent_token"))
    else if kind == "gcp_impersonation" then Some({"service_account", "token_lifetime", "delegates"} + SecretFields("parent_token"))
    else if kind == "github_app" then Some({"app_id", "installation_id"} + SecretFields("private_key"))
    else if kind == "cloudflare" then Some({"account_id", "zone_id"} + SecretFields("parent_token"))
    else if kind == "memory_cloud" then Some({"base_url", "context_id"} + SecretFields("parent_token"))
    else if kind == "static_env" then Some({"standing_secret", "value_env"})
    else None
  }

  predicate NameChar(c: char) {
    BareChar(c) || c == '.'
  }

  predicate NameChars(s: string) {
    s != "" && forall i :: 0 <= i < |s| ==> NameChar(s[i])
  }

  /** The regex `^[A-Za-z0-9._-]+$` with `match`: here too a final newline slips past the `$`. */
  predicate ProviderName(s: string) {
    NameChars(s) || (s != "" && s[|s| - 1] == '\n' && NameChars(s[..|s| - 1]))
  }

  /** The keys are those of a mapping, and the registry knows them. */
  predicate Registered(kind: string, fields: seq<Field>) {
    && FieldNames(kind).Some?
    && (forall i :: 0 <= i < |fields| ==> fields[i].0 in FieldNames(kind).value)
    && (forall i, j :: 0 <= i < j < |fields| ==> fields[i].0 != fields[j].0)
  }

  lemma RegisteredAreBare(kind: string, fields: seq<Field>)
    requires Registered(kind, fields)
    ensures BareKeys(fields)
  {
    forall i | 0 <= i < |fields|
      ensures Bare(fields[i].0)
    {
      FieldNameIsBare(kind, fields[i].0);
    }
  }

  lemma FieldNameIsBare(kind: string, key: string)
    requires FieldNames(kind).Some? && key in FieldNames(kind).value
    ensures Bare(key)
  {
    PlainFieldsAreBare();
    OtherFieldsAreBare();
    SecretFieldsAreBare("parent_token");
    SecretFieldsAreBare("private_key");
    hide Bare, SecretFields;
  }

  lemma PlainFieldsAreBare()
    ensures forall key :: key in {"role_arn", "region", "session_name", "service_account", "token_lifetime", "delegates"} ==> Bare(key)
  {
  }

  lemma OtherFieldsAreBare()
    ensures forall key :: key in {"app_id", "installation_id", "account_id", "zone_id", "base_url", "context_id"} ==> Bare(key)
    ensures Bare("standing_secret") && Bare("value_env") && Bare("parent_token") && Bare("private_key")
  {
  }

  lemma SecretFieldsAreBare(name: string)
    requires Bare(name)
    ensures forall key :: key in SecretFields(name) ==> Bare(key)
  {
    BareConcat(name, "_env");
    BareConcat(name, "_file");
    BareConcat(name, "_keyring");
  }

  lemma BareConcat(a: string, b: string)
    requires Bare(a) && Bare(b)
    ensures Bare(a + b)
  {
  }

  predicate BareKeys(fields: seq<Field>) {
    forall i :: 0 <= i < |fields| ==> Bare(fields[i].0)
  }

  predicate Renderable(fields: seq<Field>) {
    forall i :: 0 <= i < |fields| ==> Accepted(fields[i].1)
  }

  // ---- the lines ------------------------------------------------------------------------

  function FieldLines(fields: seq<Field>): (r: seq<string>)
    requires Renderable(fields)
    ensures |r| == |fields|
  {
    seq(|fields|, i requires 0 <= i < |fields| => FieldLine(fields[i].0, fields[i].1))
  }

  function Table(kind: string, fields: seq<Field>): seq<Field> {
    [("kind", Str(kind))] + fields
  }

  function RenderedLines(name: string, table: seq<Field>): seq<string>
    requires Renderable(table)
  {
    [HeaderLine(name)] + FieldLines(table)
  }

  function RenderedText(name: string, table: seq<Field>): string
    requires Renderable(table)
  {
    Join(RenderedLines(name, table), '\n') + "\n"
  }

  // ---- guard 3: the reparse, by the Keys, Key/Value Pair and Table rules of TOML v1.0.0 -------

  /** Tab and space: what may surround keys and values on a line. */
  function SkipWs(s: string): (r: string)
    ensures |r| <= |s|
  {
    if s != "" && (s[0] == ' ' || s[0] == '\t') then SkipWs(s[1..]) else s
  }

  function BareRun(s: string): (k: nat)
    ensures k <= |s|
  {
    if s == "" || !BareChar(s[0]) then 0 else 1 + BareRun(s[1..])
  }

  /** The rest of a literal string, after its opening quote. */
  function ParseLiteral(s: string): (r: Parsed<string>)
    ensures r.Got? ==> |r.rest| < |s|
  {
    if s == "" then Bad
    else if s[0] == '\'' then Got("", s[1..])
    else if Forbidden(s[0]) then Bad
    else Prepend(s[0], ParseLiteral(s[1..]))
  }

  /** A bare key, a basic string or a literal string. */
  function ParsePart(s: string): (r: Parsed<string>)
    ensures r.Got? ==> |r.rest| < |s|
  {
    if s != "" && s[0] == '"' then ParseBasic(s[1..])
    else if s != "" && s[0] == '\'' then ParseLiteral(s[1..])
    else
      var k := BareRun(s);
      if k == 0 then Bad else Got(s[..k], s[k..])
  }

  /** A dotted key, and the blanks after it. */
  function ParseKey(s: string): (r: Parsed<seq<string>>)
    ensures r.Got? ==> |r.rest| < |s|
    decreases |s|
  {
    match ParsePart(s)
    case Bad => Bad
    case Got(part, rest) =>
      var t := SkipWs(rest);
      if t == "" || t[0] != '.' then Got([part], t)
      else match ParseKey(SkipWs(t[1..]))
        case Bad => Bad
        case Got(more, after) => Got([part] + more, after)
  }

  /** Pairs, one on a line; a dotted key opens a subtable, which no provider table has. */
  function ParsePairs(s: string): Option<seq<Field>>
    decreases |s|
  {
    if s == "" then Some([])
    else match ParseKey(s)
      case Bad => None
      case Got(key, rest) =>
        if |key| != 1 || rest == "" || rest[0] != '=' then None
        else match ParseValue(SkipWs(rest[1..]))
          case Bad => None
          case Got(v, after) =>
            var end := SkipWs(after);
            if end != "" && end[0] != '\n' then None
            else match ParsePairs(if end == "" then "" else end[1..])
              case None => None
              case Some(more) => Some([(key[0], v)] + more)
  }

  /** A table header on a line of its own, and the pairs under it; None is a `TOMLDecodeError`. */
  function Reparse(text: string): Option<(seq<string>, seq<Field>)> {
    if text == "" || text[0] != '[' then None
    else match ParseKey(SkipWs(text[1..]))
      case Bad => None
      case Got(path, rest) =>
        if rest == "" || rest[0] != ']' then None
        else
          var end := SkipWs(rest[1..]);
          if end == "" || end[0] != '\n' then None
          else match ParsePairs(end[1..])
            case None => None
            case Some(pairs) => Some((path, pairs))
  }

  /** The rendered block, or None for the `ValueError` of a guard. */
  function RenderBlock(name: string, kind: string, fields: seq<Field>): Option<string> {
    if !ProviderName(name) || !Registered(kind, fields) || !Renderable(fields) then None
    else
      var text := RenderedText(name, Table(kind, fields));
      if Reparse(text) == Some((["providers", name], Table(kind, fields))) then Some(text) else None
  }

  // ---- what the reparse reads in a rendered block -----------------------------------------

  lemma {:induction false} BareRunOf(s: string, rest: string)
    requires (forall i :: 0 <= i < |s| ==> BareChar(s[i])) && (rest == "" || !BareChar(rest[0]))
    ensures BareRun(s + rest) == |s|
  {
    if s == "" {
      assert s + rest == rest;
    } else {
      assert (s + rest)[1..] == s[1..] + rest;
      BareRunOf(s[1..], rest);
    }
  }

  lemma ParseBarePart(s: string, rest: string)
    requires Bare(s) && (rest == "" || !BareChar(rest[0]))
    ensures ParsePart(s + rest) == Got(s, rest)
  {
    BareRunOf(s, rest);
    assert (s + rest)[0] == s[0] && (s + rest)[..|s|] == s && (s + rest)[|s|..] == rest;
  }

  lemma ParseQuotedPart(name: string, rest: string)
    ensures ParsePart(Quoted(name) + rest) == Got(name, rest)
  {
    hide ParseBasic, ParseLiteral, BareRun, Escape, EscapePasses;
    PassesFuse(name);
    ParseEscaped(name, rest);
    var s := Quoted(name) + rest;
    assert s[0] == '"' && s[1..] == Escape(name) + "\"" + rest;
  }

  /** After a key part that is not followed by a blank or a dot, the key is over. */
  lemma LastPart(s: string, part: string, rest: string)
    requires ParsePart(s) == Got(part, rest) && rest != "" && rest[0] !in " \t."
    ensures ParseKey(s) == Got([part], rest)
  {
  }

  lemma FirstPart(s: string, part: string, rest: string, more: seq<string>, after: string)
    requires ParsePart(s) == Got(part, "." + rest) && ParseKey(rest) == Got(more, after)
    requires rest != "" && rest[0] !in " \t"
    ensures ParseKey(s) == Got([part] + more, after)
  {
    assert ("." + rest)[1..] == rest;
  }

  /** What the reparse finds after `[providers.`: the name, and then the bracket or, for a name that is not writable, a newline. */
  lemma ParseHeaderKey(name: string, rest: string)
    ensures var tail := if Writable(name) then "]" + rest else "\n]" + rest;
            ParseKey(HeaderKey(name) + ("]" + rest)) == Got([if Writable(name) then name else name[..|name| - 1]], tail)
  {
    var s := HeaderKey(name) + ("]" + rest);
    if !BareMatch(name) {
      ParseQuotedPart(name, "]" + rest);
      LastPart(s, name, "]" + rest);
    } else if Bare(name) {
      ParseBarePart(name, "]" + rest);
      LastPart(s, name, "]" + rest);
    } else {
      var base := name[..|name| - 1];
      assert s == base + ("\n]" + rest);
      ParseBarePart(base, "\n]" + rest);
      LastPart(s, base, "\n]" + rest);
    }
  }

  lemma HeaderKeyStart(name: string)
    ensures HeaderKey(name) != "" && HeaderKey(name)[0] !in " \t"
  {
  }

  lemma ParseTarget(name: string, rest: string)
    ensures var tail := if Writable(name) then "]" + rest else "\n]" + rest;
            var last := if Writable(name) then name else name[..|name| - 1];
            ParseKey(TargetPath(name) + ("]" + rest)) == Got(["providers", last], tail)
  {
    hide ParseKey, ParsePart, HeaderKey;
    var later := HeaderKey(name) + ("]" + rest);
    HeaderKeyStart(name);
    ParseHeaderKey(name, rest);
    assert TargetPath(name) + ("]" + rest) == "providers" + ("." + later);
    ParseBarePart("providers", "." + later);
    FirstPart("providers" + ("." + later), "providers", later, ParseKey(later).value, ParseKey(later).rest);
    var last := if Writable(name) then name else name[..|name| - 1];
    assert ["providers"] + [last] == ["providers", last];
  }

  function PairsAsRead(fields: seq<Field>): (r: seq<Field>)
    ensures |r| == |fields|
  {
    if |fields| == 0 then [] else [(fields[0].0, AsRead(fields[0].1))] + PairsAsRead(fields[1..])
  }

  predicate TupleFreeFields(fields: seq<Field>) {
    forall i :: 0 <= i < |fields| ==> TupleFree(fields[i].1)
  }

  lemma {:induction false} PairsAsReadSame(fields: seq<Field>)
    ensures PairsAsRead(fields) == fields <==> TupleFreeFields(fields)
  {
    if |fields| != 0 {
      var first, rest := fields[0], fields[1..];
      PairsAsReadSame(rest);
      AsReadSame(first.1);
      hide TupleFree, AsRead;
      assert fields == [first] + rest;
      assert PairsAsRead(fields)[0] == (first.0, AsRead(first.1)) && PairsAsRead(fields)[1..] == PairsAsRead(rest);
      assert TupleFreeFields(fields) <==> TupleFree(first.1) && TupleFreeFields(rest);
    }
  }

  /** The text of the pairs, line by line. */
  function PairsText(fields: seq<Field>): string
    requires Renderable(fields)
  {
    if |fields| == 0 then "" else FieldLine(fields[0].0, fields[0].1) + "\n" + PairsText(fields[1..])
  }

  lemma ParseEqualsValue(v: Value, more: string)
    requires Accepted(v)
    ensures ParseValue(SkipWs((" " + (Render(v) + ("\n" + more))))) == Got(AsRead(v), "\n" + more)
  {
    var s := Render(v) + ("\n" + more);
    RenderStart(v);
    assert (" " + s)[1..] == s && s[0] == Render(v)[0];
    ParseRendered(v, "\n" + more);
  }

  lemma ParsePairKey(key: string, rest: string)
    requires Bare(key)
    ensures ParseKey(key + (" =" + rest)) == Got([key], "=" + rest)
  {
    ParseBarePart(key, " =" + rest);
    assert (" =" + rest)[1..] == "=" + rest;
    assert SkipWs("=" + rest) == "=" + rest;
  }

  lemma FieldLineSplit(key: string, v: Value, more: string)
    requires Accepted(v)
    ensures FieldLine(key, v) + "\n" + more == key + (" =" + (" " + (Render(v) + ("\n" + more))))
  {
  }

  lemma ParseOnePair(key: string, v: Value, more: string)
    requires Bare(key) && Accepted(v)
    ensures ParsePairs(FieldLine(key, v) + "\n" + more) == match ParsePairs(more)
      case None => None
      case Some(fields) => Some([(key, AsRead(v))] + fields)
  {
    hide ParseKey, ParseValue, Render, FieldLine;
    var value := " " + (Render(v) + ("\n" + more));
    FieldLineSplit(key, v, more);
    ParsePairKey(key, value);
    assert ("=" + value)[1..] == value;
    ParseEqualsValue(v, more);
    assert ("\n" + more)[1..] == more;
  }

  lemma {:induction false} ParsePairsOf(fields: seq<Field>)
    requires Renderable(fields) && BareKeys(fields)
    ensures ParsePairs(PairsText(fields)) == Some(PairsAsRead(fields))
  {
    if |fields| != 0 {
      ParsePairsOf(fields[1..]);
      assert Bare(fields[0].0) && Accepted(fields[0].1);
      hide ParsePairs, FieldLine, Bare, Accepted, BareKeys;
      ParseOnePair(fields[0].0, fields[0].1, PairsText(fields[1..]));
    }
  }

  lemma {:induction false} JoinPairs(first: string, fields: seq<Field>)
    requires Renderable(fields)
    ensures Join([first] + FieldLines(fields), '\n') + "\n" == first + "\n" + PairsText(fields)
    decreases |fields|
  {
    var lines := FieldLines(fields);
    assert ([first] + lines)[1..] == lines;
    if |fields| != 0 {
      assert lines == [FieldLine(fields[0].0, fields[0].1)] + FieldLines(fields[1..]);
      JoinPairs(FieldLine(fields[0].0, fields[0].1), fields[1..]);
    }
  }

  lemma AfterBracket(pairs: string)
    ensures var end := SkipWs(("]\n" + pairs)[1..]); end != "" && end[0] == '\n' && end[1..] == pairs
  {
    assert ("]\n" + pairs)[1..] == "\n" + pairs && ("\n" + pairs)[1..] == pairs;
  }

  lemma ReparseOfText(key: string, last: string, tail: string, table: seq<Field>, pairs: string)
    requires key != "" && key[0] == 'p' && ParsePairs(pairs) == Some(table)
    requires tail == "]\n" + pairs || (tail != "" && tail[0] == '\n')
    requires ParseKey(key) == Got(["providers", last], tail)
    ensures Reparse("[" + key) == if tail[0] == ']' then Some((["providers", last], table)) else None
  {
    assert ("[" + key)[1..] == key && SkipWs(key) == key;
    AfterBracket(pairs);
    hide ParseKey, ParsePairs, SkipWs;
  }

  lemma RenderedSplit(name: string, table: seq<Field>)
    requires Renderable(table)
    ensures var key := TargetPath(name) + ("]" + ("\n" + PairsText(table)));
            key[0] == 'p' && RenderedText(name, table) == "[" + key
  {
    hide HeaderKey, PairsText, FieldLines;
    JoinPairs(HeaderLine(name), table);
  }

  /**
   * The reparse gives name and table back, tuples as lists, exactly when the name's header fits on its line; otherwise it
   * raises.
   */
  lemma ReparseOfRendered(name: string, table: seq<Field>)
    requires Renderable(table) && BareKeys(table)
    ensures Reparse(RenderedText(name, table)) ==
      if Writable(name) then Some((["providers", name], PairsAsRead(table))) else None
    ensures PairsAsRead(table) == table <==> TupleFreeFields(table)
  {
    PairsAsReadSame(table);
    hide *;
    var pairs := PairsText(table);
    var key := TargetPath(name) + ("]" + ("\n" + pairs));
    RenderedSplit(name, table);
    ParseTarget(name, "\n" + pairs);
    ParsePairsOf(table);
    ReparseOfText(key, ParseKey(key).value[1], ParseKey(key).rest, PairsAsRead(table), pairs);
  }

  /**
   * What is written at all: provider names of the registry whose header fits on its line, known fields, and printable
   * values without tuples, which only the reparse refuses.
   */
  lemma RenderAccepts(name: string, kind: string, fields: seq<Field>)
    ensures RenderBlock(name, kind, fields).Some? <==>
      ProviderName(name) && Writable(name) && Registered(kind, fields) && Renderable(fields) && TupleFreeFields(fields)
  {
    if Registered(kind, fields) && Renderable(fields) {
      RegisteredAreBare(kind, fields);
      ReparseOfRendered(name, Table(kind, fields));
      TupleFreeTable(kind, fields);
    }
  }

  lemma TupleFreeTable(kind: string, fields: seq<Field>)
    ensures TupleFreeFields(Table(kind, fields)) <==> TupleFreeFields(fields)
  {
    var table := Table(kind, fields);
    assert forall i :: 0 <= i < |fields| ==> table[i + 1] == fields[i];
  }

  /** A tuple is printed, and then the comparison with the reparsed list refuses the block. */
  lemma TuplesAreRefused(name: string, kind: string, fields: seq<Field>, i: nat)
    requires i < |fields| && fields[i].1.Arr? && fields[i].1.isTuple
    ensures RenderBlock(name, kind, fields) == None
  {
    RenderAccepts(name, kind, fields);
    assert !TupleFree(fields[i].1);
  }

  /** Only the reparse stops a bare name with a final newline: the patterns before it let the name through. */
  lemma FinalNewline(base: string, kind: string, fields: seq<Field>)
    requires Bare(base) && Registered(kind, fields) && Renderable(fields)
    ensures ProviderName(base + "\n") && HeaderKey(base + "\n") == base + "\n"
    ensures RenderBlock(base + "\n", kind, fields) == None
  {
    assert (base + "\n")[..|base|] == base;
    RenderAccepts(base + "\n", kind, fields);
  }

  // ---- names and paths ---------------------------------------------------------------------

  /** The name can be read back from its key. */
  lemma HeaderKeyReads(name: string)
    ensures HeaderKey(name) != ""
    ensures if BareMatch(name) then HeaderKey(name) == name && HeaderKey(name)[0] != '"'
      else HeaderKey(name)[0] == '"' && ParsePart(HeaderKey(name)) == Got(name, "")
  {
    if !BareMatch(name) {
      ParseQuotedPart(name, "");
      assert Quoted(name) + "" == Quoted(name);
    }
  }

  /** Different providers have different paths, so they never share a section. */
  lemma TargetPathInjective(a: string, b: string)
    requires TargetPath(a) == TargetPath(b)
    ensures a == b
  {
    assert HeaderKey(a) == TargetPath(a)[10..] && HeaderKey(b) == TargetPath(b)[10..];
    hide *;
    HeaderKeyReads(a);
    HeaderKeyReads(b);
  }
}
