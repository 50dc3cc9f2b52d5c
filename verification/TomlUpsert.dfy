/** `upsert_provider` on text: last write wins, and every other section keeps its body. */
module TomlUpsert {
  import opened Base
  import opened Text
  import opened TomlValue
  import opened TomlScan
  import opened TomlBlock
  import E = SectionEditor

  function Classify(): string -> E.LineClass {
    (line: string) => E.LineClass(HeaderPath(line), |Strip(line)| == 0, IsContent(line), BracketDelta(line))
  }

  type LineReader = r: E.Reader<string> | r.empty == "" witness E.Reader(Classify(), "")

  /** How the editor reads the lines of a TOML file. */
  function Toml(): LineReader {
    E.Reader(Classify(), "")
  }

  /** Leading whitespace is invisible to the scanner. */
  lemma {:induction false} ScanToStrip(line: string, depth: int)
    ensures ScanLine(line, None, depth) == ScanLine(LStrip(line), None, depth)
  {
    hide ScanLine;
    if |line| > 0 && IsSpace(line[0]) {
      ScanSkips(line, depth);
      ScanToStrip(line[1..], depth);
    }
  }

  lemma ScanSkips(line: string, depth: int)
    requires |line| > 0 && !Special(line[0])
    ensures ScanLine(line, None, depth) == ScanLine(line[1..], None, depth)
  {
  }

  /** A blank or comment line opens no bracket. */
  lemma InertLineIsBalanced(line: string)
    requires !IsContent(line)
    ensures BracketDelta(line) == 0
  {
    ScanToStrip(line, 0);
    var t := LStrip(line);
    if |t| > 0 {
      RStripKeepsFirst(t);
      assert RStrip(t)[0] == t[0];
    }
  }

  lemma TomlIsSound()
    ensures E.Sound(Toml())
  {
    forall line: string
      ensures !IsContent(line) ==> BracketDelta(line) == 0
    {
      if !IsContent(line) { InertLineIsBalanced(line); }
    }
  }

  // ---- text as lines, for any reader ---------------------------------------------------

  function RStripNewlines(s: string): string {
    if |s| > 0 && s[|s| - 1] == '\n' then RStripNewlines(s[..|s| - 1]) else s
  }

  ghost predicate NoNewlines(lines: seq<string>) {
    forall i :: 0 <= i < |lines| ==> '\n' !in lines[i]
  }

  /** Stripping newlines off the joined text drops exactly the empty lines at the end. */
  lemma {:induction false} RStripJoin(r: LineReader, lines: seq<string>)
    requires NoNewlines(lines)
    ensures RStripNewlines(Join(lines, '\n')) == Join(E.TrimEmpty(r, lines), '\n')
  {
    if |lines| > 0 {
      var init, last := lines[..|lines| - 1], lines[|lines| - 1];
      assert lines == init + [last];
      if |last| == 0 {
        RStripJoin(r, init);
        if |init| > 0 {
          JoinConcat(init, [last], '\n');
          var joined := Join(init, '\n');
          assert Join(lines, '\n') == joined + "\n";
          assert (joined + "\n")[..|joined|] == joined;
        } else {
          assert Join(lines, '\n') == last;
        }
      } else {
        JoinEndsWith(init, last);
        assert last[|last| - 1] in last;
      }
    }
  }

  lemma JoinEndsWith(init: seq<string>, last: string)
    requires |last| > 0
    ensures |Join(init + [last], '\n')| > 0
    ensures Join(init + [last], '\n')[|Join(init + [last], '\n')| - 1] == last[|last| - 1]
  {
    if |init| > 0 {
      JoinConcat(init, [last], '\n');
    } else {
      assert init + [last] == [last];
    }
  }

  /** The text the editor writes for a list of lines: no empty line at the end, one final newline. */
  function Finish(r: LineReader, lines: seq<string>): string {
    Join(E.TrimEmpty(r, lines), '\n') + "\n"
  }

  lemma SplitFinish(r: LineReader, lines: seq<string>)
    requires NoNewlines(lines) && |E.TrimEmpty(r, lines)| > 0
    ensures Split(Finish(r, lines), '\n') == E.TrimEmpty(r, lines) + [""]
  {
    var t := E.TrimEmpty(r, lines);
    var joined := Join(t, '\n');
    SplitJoin(t, '\n');
    SplitConcat(joined, '\n', "");
    assert joined + ['\n'] + "" == Finish(r, lines);
  }

  // ---- the editor --------------------------------------------------------------------

  /** `block.rstrip("\n").split("\n")`. */
  function BlockLines(block: string): seq<string> {
    Split(RStripNewlines(block), '\n')
  }

  /** The result of the editor as a function of the text it is given. */
  function UpsertText(r: LineReader, text: string, target: string, block: string): string {
    var lines, blockLines := Split(text, '\n'), BlockLines(block);
    var start := E.FindHeader(r, lines, target);
    if start < |lines| then
      RStripNewlines(Join(E.Replaced(r, lines, start, blockLines), '\n')) + "\n"
    else
      var base := RStripNewlines(text);
      (if |base| > 0 then base + "\n\n" else "") + Join(blockLines, '\n') + "\n"
  }

  /** The editor on text is the editor on lines, finished. */
  lemma UpsertIsUpsertLines(r: LineReader, text: string, target: string, block: string)
    requires |BlockLines(block)[|BlockLines(block)| - 1]| > 0
    ensures UpsertText(r, text, target, block) == Finish(r, E.UpsertLines(r, Split(text, '\n'), target, BlockLines(block)))
  {
    hide Split, Join, RStripNewlines, E.FindHeader, E.Replaced, E.TrimEmpty, E.BodyEnd;
    var lines, b := Split(text, '\n'), BlockLines(block);
    var start := E.FindHeader(r, lines, target);
    SplitPiecesFree(text, '\n');
    SplitPiecesFree(RStripNewlines(block), '\n');
    if start < |lines| {
      UpsertLinesFree(r, lines, target, b);
      RStripJoin(r, E.Replaced(r, lines, start, b));
    } else {
      JoinSplit(text, '\n');
      RStripJoin(r, lines);
      AppendText(r, E.TrimEmpty(r, lines), b);
    }
  }

  lemma AppendText(r: LineReader, base: seq<string>, block: seq<string>)
    requires |block| > 0 && |block[|block| - 1]| > 0
    requires |base| > 0 ==> |base[|base| - 1]| > 0
    ensures var lines := if |base| == 0 then block else base + [""] + block;
            Finish(r, lines) == (if |Join(base, '\n')| > 0 then Join(base, '\n') + "\n\n" else "") + Join(block, '\n') + "\n"
  {
    hide *;
    if |base| > 0 {
      AppendAfterBlank(r, base, block);
      assert base == base[..|base| - 1] + [base[|base| - 1]];
      JoinEndsWith(base[..|base| - 1], base[|base| - 1]);
    } else {
      AppendToEmpty(r, block);
    }
  }

  lemma AppendToEmpty(r: LineReader, block: seq<string>)
    requires |block| > 0 && |block[|block| - 1]| > 0
    ensures Finish(r, block) == "" + Join(block, '\n') + "\n" && Join([], '\n') == ""
  {
    LastIsBlockEnd(r, [], block);
    assert [] + block == block;
  }

  lemma AppendAfterBlank(r: LineReader, base: seq<string>, block: seq<string>)
    requires |base| > 0 && |block| > 0 && |block[|block| - 1]| > 0
    ensures Finish(r, base + [""] + block) == Join(base, '\n') + "\n\n" + Join(block, '\n') + "\n"
  {
    JoinConcat(base + [""], block, '\n');
    JoinConcat(base, [""], '\n');
    LastIsBlockEnd(r, base + [""], block);
    BlankLineBetween(Join(base, '\n'), Join(block, '\n'));
  }

  lemma LastIsBlockEnd(r: LineReader, before: seq<string>, block: seq<string>)
    requires |block| > 0 && |block[|block| - 1]| > 0
    ensures E.TrimEmpty(r, before + block) == before + block
  {
    var lines := before + block;
    assert lines[|lines| - 1] == block[|block| - 1];
  }

  lemma BlankLineBetween(a: string, b: string)
    ensures a + ['\n'] + "" + ['\n'] + b + "\n" == a + "\n\n" + b + "\n"
  {
  }

  lemma UpsertLinesFree(r: LineReader, lines: seq<string>, target: string, block: seq<string>)
    requires NoNewlines(lines) && NoNewlines(block)
    ensures NoNewlines(E.UpsertLines(r, lines, target, block))
  {
  }

  /** The lines of the edited text. */
  lemma UpsertedLines(r: LineReader, text: string, target: string, block: string)
    requires E.Sound(r) && E.WellFormed(r, BlockLines(block), target)
    ensures var edited := E.UpsertLines(r, Split(text, '\n'), target, BlockLines(block));
            && UpsertText(r, text, target, block) == Finish(r, edited)
            && Split(UpsertText(r, text, target, block), '\n') == E.TrimEmpty(r, edited) + [""]
  {
    var lines, b := Split(text, '\n'), BlockLines(block);
    SplitPiecesFree(text, '\n');
    SplitPiecesFree(RStripNewlines(block), '\n');
    UpsertIsUpsertLines(r, text, target, block);
    UpsertLinesFree(r, lines, target, b);
    E.LastWriteWinsLines(r, lines, target, b, b);
    SplitFinish(r, E.UpsertLines(r, lines, target, b));
  }

  lemma TextLastWriteWins(r: LineReader, text: string, target: string, block1: string, block2: string)
    requires E.Sound(r) && E.WellFormed(r, BlockLines(block1), target) && E.WellFormed(r, BlockLines(block2), target)
    ensures UpsertText(r, UpsertText(r, text, target, block1), target, block2) == UpsertText(r, text, target, block2)
  {
    UpsertedLines(r, text, target, block1);
    UpsertedLines(r, text, target, block2);
    UpsertedLines(r, UpsertText(r, text, target, block1), target, block2);
    E.LastWriteWinsLines(r, Split(text, '\n'), target, BlockLines(block1), BlockLines(block2));
  }

  /** The sections of a text, without the empty lines at its end. */
  function TextSections(r: LineReader, text: string): (cs: seq<seq<string>>)
    ensures |cs| > 0
  {
    E.TrimLast(r, E.Sections(r, Split(text, '\n'), 0))
  }

  /**
   * What a write does. Its lines: everything before the target's section and from the next header on is kept, always. Its
   * sections: one is edited or one is new, and the others are as they were, exactly when no array is open where the block goes.
   */
  ghost predicate EditsOneSection(r: LineReader, text: string, target: string, block: string) {
    var lines, b := Split(text, '\n'), BlockLines(block);
    var p := E.PlaceOf(r, lines, target);
    && Split(UpsertText(r, text, target, block), '\n')
      == E.TrimEmpty(r, p.before + E.NewSection(r, p, b) + p.rest) + [""]
    && (E.Outside(r, lines, target) <==>
          TextSections(r, UpsertText(r, text, target, block)) == E.TrimLast(r, E.Written(r, p, b)))
    && (E.Outside(r, lines, target) ==> E.Written(r, p, b) == E.EditedSections(r, E.Sections(r, lines, 0), target, b))
  }

  lemma TextEditsOneSection(r: LineReader, text: string, target: string, block: string)
    requires E.Sound(r) && E.WellFormed(r, BlockLines(block), target)
    ensures EditsOneSection(r, text, target, block)
  {
    hide *;
    var lines, b := Split(text, '\n'), BlockLines(block);
    UpsertedLines(r, text, target, block);
    E.UpsertFrame(r, lines, target, b);
    E.UpsertSections(r, lines, target, b);
    FinalNewlineSections(r, E.UpsertLines(r, lines, target, b));
    TextSectionsAre(r, UpsertText(r, text, target, block));
    EditsOneSectionIs(r, text, target, block);
  }

  lemma TextSectionsAre(r: LineReader, text: string)
    ensures TextSections(r, text) == E.TrimLast(r, E.Sections(r, Split(text, '\n'), 0))
  {
  }

  lemma EditsOneSectionIs(r: LineReader, text: string, target: string, block: string)
    requires var lines, b := Split(text, '\n'), BlockLines(block);
      var p := E.PlaceOf(r, lines, target);
      && Split(UpsertText(r, text, target, block), '\n')
        == E.TrimEmpty(r, p.before + E.NewSection(r, p, b) + p.rest) + [""]
      && (E.Outside(r, lines, target) <==>
            TextSections(r, UpsertText(r, text, target, block)) == E.TrimLast(r, E.Written(r, p, b)))
      && (E.Outside(r, lines, target) ==> E.Written(r, p, b) == E.EditedSections(r, E.Sections(r, lines, 0), target, b))
    ensures EditsOneSection(r, text, target, block)
  {
    hide Split, BlockLines, UpsertText, TextSections, E.PlaceOf, E.NewSection, E.Outside, E.Written, E.EditedSections, E.Sections,
      E.TrimLast, E.TrimEmpty;
  }

  lemma FinalNewlineSections(r: LineReader, lines: seq<string>)
    requires E.Sound(r)
    ensures E.TrimLast(r, E.Sections(r, E.TrimEmpty(r, lines) + [""], 0)) == E.TrimLast(r, E.Sections(r, lines, 0))
  {
    E.SectionsOfTrimmed(r, lines);
    E.SectionsOfTrimmed(r, E.TrimEmpty(r, lines) + [""]);
    E.TrimTwice(r, lines);
  }

  // ---- the editor on TOML --------------------------------------------------------------

  function Upsert(text: string, name: string, block: string): string {
    UpsertText(Toml(), text, TargetPath(name), block)
  }

  method UpsertProvider(text: string, name: string, block: string) returns (out: string)
    ensures out == Upsert(text, name, block)
  {
    hide HeaderPath, IsContent, BracketDelta, Join, Split, RStripNewlines, E.FindHeader, E.BodyEnd, E.Separator, E.Replaced;
    var target := TargetPath(name);
    var lines := Split(text, '\n');
    var blockLines := BlockLines(block);
    var start := FindStart(lines, target);
    if start == |lines| {
      var base := RStripNewlines(text);
      return (if |base| > 0 then base + "\n\n" else "") + Join(blockLines, '\n') + "\n";
    }
    var bodyEnd := WalkBody(lines, start);
    var tail := lines[bodyEnd..];
    var sep := if |tail| > 0 && |Strip(tail[0])| > 0 then [""] else [];
    var newLines := lines[..start] + blockLines + sep + tail;
    assert newLines == E.Replaced(Toml(), lines, start, blockLines) by {
      SeparatorIs(tail, sep);
      ReplacedIs(Toml(), lines, start, blockLines, bodyEnd);
    }
    out := RStripNewlines(Join(newLines, '\n')) + "\n";
  }

  lemma ReplacedIs(r: LineReader, lines: seq<string>, start: nat, block: seq<string>, stop: nat)
    requires start < |lines| && stop == E.BodyEnd(r, lines, start + 1, 0, start + 1)
    ensures E.Replaced(r, lines, start, block) == lines[..start] + block + E.Separator(r, lines[stop..]) + lines[stop..]
  {
  }

  lemma SeparatorIs(tail: seq<string>, sep: seq<string>)
    requires sep == if |tail| > 0 && |Strip(tail[0])| > 0 then [""] else []
    ensures sep == E.Separator(Toml(), tail)
  {
  }

  /** The first line whose header path is the target's, or the number of lines. */
  method FindStart(lines: seq<string>, target: string) returns (start: nat)
    ensures start == E.FindHeader(Toml(), lines, target)
  {
    start := 0;
    while start < |lines|
      invariant start <= |lines| && E.FindHeader(Toml(), lines, target) == start + E.FindHeader(Toml(), lines[start..], target)
    {
      var path := ComputeHeaderPath(lines[start]);
      if path == Some(target) { return; }
      assert lines[start..][1..] == lines[start + 1..];
      start := start + 1;
    }
  }

  method WalkBody(lines: seq<string>, start: nat) returns (bodyEnd: nat)
    requires start < |lines|
    ensures bodyEnd == E.BodyEnd(Toml(), lines, start + 1, 0, start + 1)
  {
    hide HeaderPath, BracketDelta, Strip;
    var depth := 0;
    bodyEnd := start + 1;
    for j := start + 1 to |lines|
      invariant bodyEnd <= j
      invariant E.BodyEnd(Toml(), lines, j, depth, bodyEnd) == E.BodyEnd(Toml(), lines, start + 1, 0, start + 1)
    {
      var line := lines[j];
      var path := ComputeHeaderPath(line);
      if depth == 0 && path.Some? {
        return;
      }
      var stripped := Strip(line);
      if depth > 0 || (|stripped| > 0 && stripped[0] != '#') {
        bodyEnd := j + 1;
      }
      var delta := ComputeBracketDelta(line);
      depth := E.Max0(depth + delta);
    }
  }

  // ---- rendered blocks ----------------------------------------------------------------

  lemma RenderedLinesScan(name: string, table: seq<Field>)
    requires Writable(name) && Renderable(table) && BareKeys(table)
    ensures NoNewlines(RenderedLines(name, table))
    ensures var lines := RenderedLines(name, table); |lines[|lines| - 1]| > 0
    ensures E.WellFormed(Toml(), RenderedLines(name, table), TargetPath(name))
  {
    HeaderLineIsFound(name);
    RenderedBodyLines(name, table);
    BodyLinesWellFormed(RenderedLines(name, table), TargetPath(name));
  }

  lemma RenderedBodyLines(name: string, table: seq<Field>)
    requires Renderable(table) && BareKeys(table)
    ensures var lines := RenderedLines(name, table);
            lines[0] == HeaderLine(name) && forall i :: 1 <= i < |lines| ==> IsBodyLine(lines[i])
  {
    hide IsHeader, IsContent, BracketDelta, FieldLine, HeaderLine;
    var lines := RenderedLines(name, table);
    forall i | 1 <= i < |lines|
      ensures IsBodyLine(lines[i])
    {
      FieldLineScans(table[i - 1].0, table[i - 1].1);
      assert lines[i] == FieldLine(table[i - 1].0, table[i - 1].1);
    }
  }

  ghost predicate IsBodyLine(line: string) {
    !IsHeader(line) && IsContent(line) && BracketDelta(line) == 0 && '\n' !in line && |line| > 0
  }

  lemma BodyLinesWellFormed(lines: seq<string>, target: string)
    requires |lines| > 0 && HeaderPath(lines[0]) == Some(target) && |lines[0]| > 0
    requires '\n' !in lines[0] && forall i :: 1 <= i < |lines| ==> IsBodyLine(lines[i])
    ensures NoNewlines(lines) && |lines[|lines| - 1]| > 0
    ensures E.WellFormed(Toml(), lines, target)
  {
    hide HeaderPath, IsContent, BracketDelta;
  }

  lemma BlockLinesOf(r: LineReader, lines: seq<string>)
    requires |lines| > 0 && NoNewlines(lines) && |lines[|lines| - 1]| > 0
    ensures BlockLines(Join(lines, '\n') + "\n") == lines
  {
    var t := lines + [""];
    RStripJoin(r, t);
    JoinConcat(lines, [""], '\n');
    LastIsBlockEnd(r, [], lines);
    assert [] + lines == lines && t[..|lines|] == lines;
    assert Join(t, '\n') == Join(lines, '\n') + "\n";
    SplitJoin(lines, '\n');
  }

  lemma RenderedIsText(name: string, kind: string, fields: seq<Field>)
    requires RenderBlock(name, kind, fields).Some?
    ensures var table := Table(kind, fields);
            && Writable(name) && Renderable(table) && BareKeys(table)
            && RenderBlock(name, kind, fields).value == Join(RenderedLines(name, table), '\n') + "\n"
  {
    hide Reparse, ProviderName, Writable, Registered, RenderedLines, TupleFreeFields, BareKeys, Renderable, Join, Table;
    RenderAccepts(name, kind, fields);
    RegisteredAreBare(kind, fields);
    PlainTable(kind, fields);
  }

  lemma PlainTable(kind: string, fields: seq<Field>)
    requires Renderable(fields) && BareKeys(fields)
    ensures Renderable(Table(kind, fields)) && BareKeys(Table(kind, fields))
  {
  }

  /** Every block that is rendered at all is well formed under the searched path. */
  lemma RenderedIsWellFormed(name: string, kind: string, fields: seq<Field>)
    requires RenderBlock(name, kind, fields).Some?
    ensures E.WellFormed(Toml(), BlockLines(RenderBlock(name, kind, fields).value), TargetPath(name))
  {
    hide *;
    var table := Table(kind, fields);
    RenderedIsText(name, kind, fields);
    RenderedLinesScan(name, table);
    RenderedSome(name, table);
    BlockLinesOf(Toml(), RenderedLines(name, table));
  }

  lemma RenderedSome(name: string, table: seq<Field>)
    requires Renderable(table)
    ensures |RenderedLines(name, table)| > 0
  {
  }

  /**
   * Last write wins: for any file and any two blocks rendered for one provider, upserting the
   * first and then the second is upserting the second alone.
   */
  lemma LastWriteWins(text: string, name: string, kind1: string, fields1: seq<Field>, kind2: string, fields2: seq<Field>)
    requires RenderBlock(name, kind1, fields1).Some? && RenderBlock(name, kind2, fields2).Some?
    ensures var b1, b2 := RenderBlock(name, kind1, fields1).value, RenderBlock(name, kind2, fields2).value;
            Upsert(Upsert(text, name, b1), name, b2) == Upsert(text, name, b2)
  {
    hide *;
    TomlIsSound();
    RenderedIsWellFormed(name, kind1, fields1);
    RenderedIsWellFormed(name, kind2, fields2);
    BlockOverwrites(text, name, RenderBlock(name, kind1, fields1).value, RenderBlock(name, kind2, fields2).value);
  }

  lemma BlockOverwrites(text: string, name: string, b1: string, b2: string)
    requires E.Sound(Toml())
    requires E.WellFormed(Toml(), BlockLines(b1), TargetPath(name)) && E.WellFormed(Toml(), BlockLines(b2), TargetPath(name))
    ensures Upsert(Upsert(text, name, b1), name, b2) == Upsert(text, name, b2)
  {
    TextLastWriteWins(Toml(), text, TargetPath(name), b1, b2);
  }

  /** Re-running the same write changes nothing more. */
  lemma UpsertIdempotent(text: string, name: string, kind: string, fields: seq<Field>)
    requires RenderBlock(name, kind, fields).Some?
    ensures var b := RenderBlock(name, kind, fields).value;
            Upsert(Upsert(text, name, b), name, b) == Upsert(text, name, b)
  {
    LastWriteWins(text, name, kind, fields, kind, fields);
  }

  /**
   * For any file and any rendered block: the lines around the provider's section are kept, and the block is a section of its
   * own and the only one that changes, exactly when no array is open where it goes.
   */
  lemma UpsertKeepsOthers(text: string, name: string, kind: string, fields: seq<Field>)
    requires RenderBlock(name, kind, fields).Some?
    ensures EditsOneSection(Toml(), text, TargetPath(name), RenderBlock(name, kind, fields).value)
  {
    hide *;
    TomlIsSound();
    RenderedIsWellFormed(name, kind, fields);
    TextEditsOneSection(Toml(), text, TargetPath(name), RenderBlock(name, kind, fields).value);
  }

  // ---- an array with a row that looks like a header -------------------------------------------------

  lemma TomlReads(line: string, target: string)
    ensures E.IsTarget(Toml(), line, target) <==> HeaderPath(line) == Some(target)
    ensures E.IsHeader(Toml(), line) <==> HeaderPath(line).Some?
    ensures E.Delta(Toml(), line) == BracketDelta(line)
  {
    hide HeaderPath, IsContent, BracketDelta;
  }

  lemma StripPlain(s: string)
    requires s != "" && !IsSpace(s[0]) && !IsSpace(s[|s| - 1])
    ensures Strip(s) == s
  {
  }

  lemma NotBracketed(s: string)
    requires s != "" && !IsSpace(s[0]) && !IsSpace(s[|s| - 1]) && s[0] != '['
    ensures HeaderPath(s) == None
  {
    StripPlain(s);
    hide Strip, CloseHeader, NameEndFrom;
  }

  /** One character outside strings and comments. */
  lemma ScanOne(c: char, later: string, depth: int)
    requires c !in "#\"'"
    ensures ScanLine([c] + later, None, depth)
      == ScanLine(later, None, if c == '[' then depth + 1 else if c == ']' then depth - 1 else depth)
  {
    var s := [c] + later;
    assert s[0] == c && s[1..] == later;
    hide Strip;
  }

  lemma OpenLine(s: string)
    requires s == "x=["
    ensures HeaderPath(s) == None && BracketDelta(s) == 1
  {
    NotBracketed(s);
    hide HeaderPath;
    ScanOne('x', "=[", 0);
    ScanOne('=', "[", 0);
    ScanOne('[', "", 0);
    assert ['x'] + "=[" == s && ['='] + "[" == "=[" && ['['] + "" == "[";
  }

  lemma CloseLine(s: string)
    requires s == "]"
    ensures HeaderPath(s) == None && BracketDelta(s) == -1
  {
    NotBracketed(s);
    hide HeaderPath;
    ScanOne(']', "", 0);
    assert [']'] + "" == s;
  }

  lemma RowLine(s: string)
    requires s == "[3]"
    ensures HeaderPath(s).Some? && BracketDelta(s) == 0
  {
    hide *;
    RowIsHeader(s, "3", "");
    RowDelta(s);
  }

  lemma RowDelta(s: string)
    requires s == "[3]"
    ensures BracketDelta(s) == 0
  {
    ScanOne('[', "3]", 0);
    ScanOne('3', "]", 1);
    ScanOne(']', "", 1);
    assert ['['] + "3]" == s && ['3'] + "]" == "3]" && [']'] + "" == "]";
  }

  lemma RowIsHeader(s: string, inner: string, empty: string)
    requires s == "[3]" && inner == "3" && empty == ""
    ensures HeaderPath(s).Some?
  {
    RowEnds(s);
    StripPlain(s);
    StripPlain(inner);
    assert Strip(empty) == "";
    hide Strip, NameEndFrom, OpenLen;
    RowCloses(s);
    hide CloseHeader;
  }

  lemma RowCloses(s: string)
    requires s == "[3]" && Strip("3") == "3" && Strip("") == ""
    ensures CloseHeader(s, 1, 2) == Some("3")
  {
    hide Strip;
    assert s[1..2] == "3" && s[2..][1..] == "";
  }

  lemma RowEnds(s: string)
    requires s == "[3]"
    ensures OpenLen(s) == 1 && NameEndFrom(s, 1) == Some(2)
  {
    assert s[1..] == "3]" && "3]"[1..] == "]";
    assert NameEnd("]", None) == Some(0);
    assert NameEnd("3]", None) == Later(1, NameEnd("]", None));
  }

  /** A row `[3]` of an array that closes is no header: the section of any other provider after it is kept. */
  lemma ArrayRowsAreKept(name: string, other: string, block: seq<string>)
    requires Writable(name) && Writable(other)
    ensures var next := HeaderLine(other);
            E.UpsertLines(Toml(), [HeaderLine(name), "x=[", "[3]", "]", next], TargetPath(name), block)
              == block + [""] + [next]
  {
    hide *;
    TomlIsSound();
    OpenLine("x=[");
    RowLine("[3]");
    CloseLine("]");
    HeaderLineIsFound(name);
    HeaderLineIsFound(other);
    TomlReads(HeaderLine(name), TargetPath(name));
    TomlReads(HeaderLine(other), TargetPath(other));
    TomlReads("x=[", "");
    TomlReads("[3]", "");
    TomlReads("]", "");
    E.ArrayRowsLoseNothing(Toml(), HeaderLine(name), "x=[", "[3]", "]", HeaderLine(other), TargetPath(name), block);
  }
}
