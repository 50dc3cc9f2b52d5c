/** Which table headers a file has under a provider's name, before and after the editor writes it. */
module TomlTables {
  import opened Base
  import opened Text
  import opened TomlValue
  import opened TomlScan
  import opened TomlBlock
  import opened TomlHeader
  import opened TomlUpsert
  import E = SectionEditor

  /** The line is a header of the provider's table, or of a table in an array under its name. */
  predicate ReadsAs(line: string, name: string) {
    ReadHeader(line).Some? && ReadHeader(line).value.path == ["providers", name]
  }

  function Depth(lines: seq<string>, depth: int): int {
    E.DepthAfter(Toml(), lines, depth)
  }

  /** Line `i` is such a header, outside every array. */
  predicate HasHeader(lines: seq<string>, i: nat, name: string)
    requires i < |lines|
  {
    ReadsAs(lines[i], name) && Depth(lines[..i], 0) == 0
  }

  /** The places of the provider's headers. */
  function Headers(lines: seq<string>, name: string): set<nat> {
    set i: nat | i < |lines| && HasHeader(lines, i, name)
  }

  lemma ReadIsSectionHeader(line: string)
    requires ReadHeader(line).Some?
    ensures E.IsHeader(Toml(), line)
  {
    ReadIsHeader(line);
    TomlReads(line, "");
  }

  /** No header of the file escapes: a line that reads as one starts a section, or is reached inside an array of its section. */
  lemma HeadersStartSections(text: string, k: nat, i: nat)
    requires var cs := E.Sections(Toml(), Split(text, '\n'), 0); k < |cs| && i < |cs[k]| && ReadHeader(cs[k][i]).Some?
    ensures var section := E.Sections(Toml(), Split(text, '\n'), 0)[k];
            if k > 0 then i == 0 || Depth(section[1..i], 0) != 0 else Depth(section[..i], 0) != 0
  {
    var cs := E.Sections(Toml(), Split(text, '\n'), 0);
    ReadIsSectionHeader(cs[k][i]);
    E.SectionsPartition(Toml(), Split(text, '\n'), 0);
    hide *;
    PartIs(cs, k);
    if k == 0 {
      E.TopFreeMeans(Toml(), cs[0], 0, i);
      DepthIs(cs[0][..i]);
    } else if i > 0 {
      RowOfSection(cs[k], i);
    }
  }

  lemma PartIs(cs: seq<seq<string>>, k: nat)
    requires E.Closed(Toml(), cs, 0) && k < |cs|
    ensures if k == 0 then E.TopFree(Toml(), cs[0], 0) else E.IsSection(Toml(), cs[k])
  {
    hide Toml, E.IsSection, E.TopFree;
  }

  /** A header line in the body of a section is a row of an array. */
  lemma RowOfSection(section: seq<string>, i: nat)
    requires E.IsSection(Toml(), section) && 0 < i < |section| && E.IsHeader(Toml(), section[i])
    ensures Depth(section[1..i], 0) != 0 && Depth(section[..i], 0) != 0
  {
    hide Toml, E.TopFree, E.IsHeader;
    var body := section[1..];
    assert body[i - 1] == section[i] && body[..i - 1] == section[1..i];
    E.TopFreeMeans(Toml(), body, 0, i - 1);
    assert section[..i][0] == section[0] && section[..i][1..] == section[1..i];
  }

  lemma DepthIs(lines: seq<string>)
    ensures Depth(lines, 0) == E.DepthAfter(Toml(), lines, 0)
  {
  }

  lemma InHeaders(lines: seq<string>, i: nat, name: string)
    ensures i in Headers(lines, name) <==> i < |lines| && HasHeader(lines, i, name)
  {
    hide HasHeader;
  }

  // ---- the headers of parts of a file ----------------------------------------------------

  lemma HeaderBefore(a: seq<string>, b: seq<string>, i: nat, name: string)
    requires i < |a|
    ensures HasHeader(a + b, i, name) == HasHeader(a, i, name)
  {
    hide Depth, ReadsAs;
    assert (a + b)[..i] == a[..i];
  }

  lemma HeaderBehind(a: seq<string>, b: seq<string>, i: nat, name: string)
    requires i < |b| && Depth(a, 0) == 0
    ensures HasHeader(a + b, |a| + i, name) == HasHeader(b, i, name)
  {
    assert (a + b)[..|a| + i] == a + b[..i];
    hide ReadsAs, Toml, E.DepthAfter;
    E.DepthConcat(Toml(), a, b[..i], 0);
  }

  /** A section's only header is at its head. */
  lemma HeaderOfSection(section: seq<string>, i: nat, name: string)
    requires E.IsSection(Toml(), section) && i < |section|
    ensures HasHeader(section, i, name) <==> i == 0 && ReadsAs(section[0], name)
  {
    if ReadHeader(section[i]).Some? { ReadIsSectionHeader(section[i]); }
    hide Toml, E.IsSection, E.IsHeader, ReadHeader;
    if i > 0 && ReadHeader(section[i]).Some? { RowOfSection(section, i); }
    DepthIs([]);
    assert section[..0] == [];
  }

  lemma DepthOfSection(a: seq<string>, section: seq<string>)
    requires Depth(a, 0) == 0 && E.IsSection(Toml(), section)
    ensures Depth(a + section, 0) == Depth(section[1..], 0)
  {
    E.DepthConcat(Toml(), a, section, 0);
    hide Toml;
  }

  /** The headers of a file with a section in it. */
  lemma HeadersAround(a: seq<string>, section: seq<string>, c: seq<string>, i: nat, name: string)
    requires Depth(a, 0) == 0 && E.Ends(Toml(), section, c)
    ensures i in Headers(a + section + c, name) <==>
      if i <= |a| then i in Headers(a, name) || (i == |a| && ReadsAs(section[0], name))
      else i >= |a| + |section| && i - |a| - |section| in Headers(c, name)
  {
    hide *;
    var m := |a| + |section|;
    InHeaders(a + section + c, i, name);
    InHeaders(a, i, name);
    SectionIsNotEmpty(section, c);
    if i < m {
      AroundHead(a, section, c, i, name);
    } else {
      InHeaders(c, i - m, name);
      if i < m + |c| {
        DepthOfSection(a, section);
        ClosedBefore(section, c);
        HeaderBehind(a + section, c, i - m, name);
      }
    }
  }

  lemma AroundHead(a: seq<string>, section: seq<string>, c: seq<string>, i: nat, name: string)
    requires Depth(a, 0) == 0 && E.IsSection(Toml(), section) && |section| > 0 && i < |a| + |section|
    ensures HasHeader(a + section + c, i, name) <==>
      if i < |a| then HasHeader(a, i, name) else i == |a| && ReadsAs(section[0], name)
  {
    hide *;
    HeaderBefore(a + section, c, i, name);
    if i < |a| {
      HeaderBefore(a, section, i, name);
    } else {
      HeaderBehind(a, section, i - |a|, name);
      HeaderOfSection(section, i - |a|, name);
    }
  }

  lemma SectionIsNotEmpty(section: seq<string>, c: seq<string>)
    requires E.Ends(Toml(), section, c)
    ensures E.IsSection(Toml(), section) && |section| > 0
  {
    hide Toml;
  }

  lemma ClosedBefore(section: seq<string>, c: seq<string>)
    requires E.Ends(Toml(), section, c) && |c| > 0
    ensures |section| > 0 && Depth(section[1..], 0) == 0
  {
    hide Toml;
  }

  lemma EmptyReadsAsNothing(name: string)
    ensures !ReadsAs("", name)
  {
  }

  lemma EmptiesHaveNone(a: seq<string>, empties: seq<string>, name: string)
    requires forall i :: 0 <= i < |empties| ==> empties[i] == ""
    ensures Headers(a + empties, name) == Headers(a, name)
  {
    EmptyReadsAsNothing(name);
    hide ReadsAs, Depth;
    forall i: nat
      ensures i in Headers(a + empties, name) <==> i in Headers(a, name)
    {
      if i < |a| { HeaderBefore(a, empties, i, name); }
    }
  }

  lemma HeadersTrimmed(lines: seq<string>, name: string)
    ensures var base := E.TrimEmpty(Toml(), lines);
            Headers(base, name) == Headers(lines, name) == Headers(base + [""], name)
  {
    var base := E.TrimEmpty(Toml(), lines);
    E.TrimSplit(Toml(), lines);
    assert lines == base + lines[|base|..];
    hide Headers, Toml, E.TrimEmpty;
    EmptiesHaveNone(base, lines[|base|..], name);
    EmptiesHaveNone(base, [""], name);
  }

  // ---- the headers after a write -----------------------------------------------------------

  lemma RenderedDefines(name: string, kind: string, fields: seq<Field>)
    requires RenderBlock(name, kind, fields).Some?
    ensures var b := BlockLines(RenderBlock(name, kind, fields).value); |b| > 0 && ReadsAs(b[0], name)
  {
    hide *;
    var table := Table(kind, fields);
    RenderedIsText(name, kind, fields);
    RenderedLinesScan(name, table);
    RenderedSome(name, table);
    BlockLinesOf(Toml(), RenderedLines(name, table));
    FirstLineDefines(name, table);
  }

  lemma HeaderLineIs(name: string)
    ensures HeaderLine(name) == Open(false) + (TargetPath(name) + Close(false))
  {
    hide TargetPath;
  }

  lemma FirstLineDefines(name: string, table: seq<Field>)
    requires Writable(name) && Renderable(table)
    ensures |RenderedLines(name, table)| > 0 && ReadsAs(RenderedLines(name, table)[0], name)
  {
    hide ReadHeader, TargetPath, HeaderPath, HeaderLine, Writable, Open, Close, FieldLines, Renderable;
    TargetSpelling(name, false);
    HeaderLineIs(name);
  }

  /** How the headers of the file afterwards come from those before it, at one line. */
  ghost predicate MovedAt(lines: seq<string>, after: seq<string>, p: E.Place<string>, written: nat, start: nat, outside: bool,
                          name: string, i: nat)
  {
    var place, shift := |p.before|, |lines| - |p.rest|;
    && (i < place ==> (i in Headers(after, name) <==> i in Headers(lines, name)))
    && (i == place ==> (i in Headers(after, name) <==> outside))
    && (outside && i > place ==>
          (i in Headers(after, name) <==> i >= place + written && i - place - written + shift in Headers(lines, name)))
    && (outside && i in Headers(lines, name) ==> i < place || i == start || i >= shift)
  }

  ghost predicate Moves(lines: seq<string>, after: seq<string>, p: E.Place<string>, written: nat, start: nat, outside: bool,
                        name: string)
  {
    forall i: nat :: MovedAt(lines, after, p, written, start, outside, name, i)
  }

  /** Before the edited section the headers are the same, and behind it they move with their lines. */
  lemma MoveWhenFound(before: seq<string>, was: seq<string>, section: seq<string>, rest: seq<string>, i: nat, name: string)
    requires Depth(before, 0) == 0 && E.Ends(Toml(), was, rest) && E.Ends(Toml(), section, rest) && ReadsAs(section[0], name)
    ensures var lines, after := before + was + rest, before + section + rest;
            && (i in Headers(lines, name) ==> i <= |before| || i >= |before| + |was|)
            && |before| in Headers(after, name)
            && (i > |before| ==>
                  (i in Headers(after, name) <==>
                    i >= |before| + |section| && i - |before| - |section| + (|before| + |was|) in Headers(lines, name)))
  {
    hide *;
    SectionIsNotEmpty(was, rest);
    HeadersAround(before, was, rest, i, name);
    HeadersAround(before, section, rest, i, name);
    HeadersAround(before, section, rest, |before|, name);
    if i >= |before| + |section| { HeadersAround(before, was, rest, i - |section| + |was|, name); }
    HeadersInRange(before, i, name);
  }

  lemma SameBefore(before: seq<string>, x: seq<string>, y: seq<string>, rest: seq<string>, i: nat, name: string)
    requires i < |before|
    ensures i in Headers(before + x + rest, name) <==> i in Headers(before + y + rest, name)
  {
    hide *;
    assert before + x + rest == before + (x + rest) && before + y + rest == before + (y + rest);
    InHeaders(before + x + rest, i, name);
    InHeaders(before + y + rest, i, name);
    HeaderBefore(before, x + rest, i, name);
    HeaderBefore(before, y + rest, i, name);
  }

  lemma MovesWhenFound(before: seq<string>, was: seq<string>, section: seq<string>, rest: seq<string>, kept: seq<string>,
                       name: string)
    requires E.Ends(Toml(), was, rest) && E.Ends(Toml(), section, rest) && |section| > 0 && ReadsAs(section[0], name)
    ensures Moves(before + was + rest, before + section + rest, E.Place(before, kept, rest), |section|, |before|,
                  Depth(before, 0) == 0, name)
  {
    var lines, after, p := before + was + rest, before + section + rest, E.Place(before, kept, rest);
    var outside := Depth(before, 0) == 0;
    hide Headers, ReadsAs, Depth, Toml, E.Ends, MovedAt;
    forall i: nat
      ensures MovedAt(lines, after, p, |section|, |before|, outside, name, i)
    {
      MovedWhenFound(before, was, section, rest, kept, name, i);
    }
  }

  lemma MovedWhenFound(before: seq<string>, was: seq<string>, section: seq<string>, rest: seq<string>, kept: seq<string>,
                       name: string, i: nat)
    requires E.Ends(Toml(), was, rest) && E.Ends(Toml(), section, rest) && |section| > 0 && ReadsAs(section[0], name)
    ensures MovedAt(before + was + rest, before + section + rest, E.Place(before, kept, rest), |section|, |before|,
                    Depth(before, 0) == 0, name, i)
  {
    hide Headers, ReadsAs, Depth, Toml, E.Ends;
    assert |before + was + rest| - |rest| == |before| + |was|;
    if i < |before| { SameBefore(before, section, was, rest, i, name); }
    if Depth(before, 0) == 0 {
      MoveWhenFound(before, was, section, rest, i, name);
    } else if i == |before| {
      assert before + section + rest == before + (section + rest);
      NotInArray(before, section + rest, name);
    }
  }

  lemma HeadersInRange(lines: seq<string>, i: int, name: string)
    ensures i in Headers(lines, name) ==> 0 <= i < |lines|
  {
  }

  lemma NotInArray(a: seq<string>, b: seq<string>, name: string)
    requires Depth(a, 0) != 0
    ensures |a| !in Headers(a + b, name)
  {
    assert (a + b)[..|a|] == a;
    hide Depth, ReadsAs;
  }

  /** The same when the block is appended behind all lines. */
  lemma MovesWhenAppended(lines: seq<string>, before: seq<string>, section: seq<string>, name: string)
    requires Headers(before, name) == Headers(lines, name)
    requires E.Ends(Toml(), section, []) && ReadsAs(section[0], name)
    ensures Moves(lines, before + section, E.Place(before, [], []), |section|, |lines|, Depth(before, 0) == 0, name)
  {
    var after, p := before + section, E.Place(before, [], []);
    SectionIsNotEmpty(section, []);
    NoMore(after);
    var outside := Depth(before, 0) == 0;
    hide Headers, ReadsAs, Depth, Toml, E.Ends, E.IsSection;
    forall i: nat
      ensures MovedAt(lines, after, p, |section|, |lines|, outside, name, i)
    {
      if i < |before| { SameBefore(before, section, [], [], i, name); NoMore(before); }
      if Depth(before, 0) == 0 {
        HeadersAround(before, section, [], i, name);
      } else if i == |before| {
        NotInArray(before, section, name);
      }
      HeadersInRange(before, i, name);
      HeadersInRange(lines, i, name);
      HeadersInRange(lines, i - |before| - |section| + |lines|, name);
      HeadersInRange([], i - |before| - |section|, name);
    }
  }

  lemma MovesOfUpsert(lines: seq<string>, target: string, block: seq<string>, name: string)
    requires E.Sound(Toml()) && E.WellFormed(Toml(), block, target) && ReadsAs(block[0], name)
    ensures var p := E.PlaceOf(Toml(), lines, target);
            var section := E.NewSection(Toml(), p, block);
            Moves(lines, p.before + section + p.rest, p, |section|, E.FindHeader(Toml(), lines, target),
                  E.Outside(Toml(), lines, target), name)
  {
    var r := Toml();
    var p := E.PlaceOf(r, lines, target);
    var section := E.NewSection(r, p, block);
    HeadOfNew(r, p, block);
    hide *;
    E.PlaceIs(r, lines, target);
    E.NewIsSection(r, p, block, target);
    E.OutsideIs(r, lines, target);
    DepthIs(p.before);
    if E.FindHeader(r, lines, target) < |lines| {
      var start, h, stop := E.PlaceFound(r, lines, target);
      E.SpanSplits(r, lines, start, h);
      LengthOfPrefix(lines, start);
      MovesWhenFound(lines[..start], lines[start..h], section, lines[h..], lines[stop..h], name);
    } else {
      AppendedPlace(r, lines, target);
      NoMore(p.before + section);
      HeadersTrimmed(lines, name);
      AppendedBefore(lines, name);
      MovesWhenAppended(lines, p.before, section, name);
    }
  }

  lemma LengthOfPrefix(lines: seq<string>, start: nat)
    requires start <= |lines|
    ensures |lines[..start]| == start
  {
  }

  lemma NoMore(lines: seq<string>)
    ensures lines + [] == lines
  {
  }

  lemma HeadOfNew(r: LineReader, p: E.Place<string>, block: seq<string>)
    requires |block| > 0
    ensures var section := E.NewSection(r, p, block); |section| > 0 && section[0] == block[0]
  {
  }

  lemma AppendedPlace(r: LineReader, lines: seq<string>, target: string)
    requires E.FindHeader(r, lines, target) >= |lines|
    ensures E.FindHeader(r, lines, target) == |lines|
    ensures var base := E.TrimEmpty(r, lines);
            E.PlaceOf(r, lines, target) == E.Place(if |base| == 0 then [] else base + [""], [], [])
  {
  }

  lemma AppendedBefore(lines: seq<string>, name: string)
    ensures var base := E.TrimEmpty(Toml(), lines);
            Headers(if |base| == 0 then [] else base + [""], name) == Headers(lines, name)
  {
    HeadersTrimmed(lines, name);
    hide Toml, Headers;
  }

  /**
   * The headers of the file afterwards, for any text and any rendered block: those before the block's place are as they
   * were; the block is one exactly when no array is open there, and then those behind it have moved with their lines, and
   * of the headers before only the one in its place is gone.
   */
  lemma HeadersAfter(text: string, name: string, kind: string, fields: seq<Field>)
    requires RenderBlock(name, kind, fields).Some?
    ensures var block := RenderBlock(name, kind, fields).value;
            var lines, target := Split(text, '\n'), TargetPath(name);
            var p := E.PlaceOf(Toml(), lines, target);
            Moves(lines, Split(Upsert(text, name, block), '\n'), p, |E.NewSection(Toml(), p, BlockLines(block))|,
                  E.FindHeader(Toml(), lines, target), E.Outside(Toml(), lines, target), name)
  {
    var lines, target, r := Split(text, '\n'), TargetPath(name), Toml();
    var block := RenderBlock(name, kind, fields).value;
    var b := BlockLines(block);
    hide *;
    TomlIsSound();
    RenderedIsWellFormed(name, kind, fields);
    RenderedDefines(name, kind, fields);
    MovesOfUpsert(lines, target, b, name);
    UpsertIs(text, name, block);
    UpsertedLines(r, text, target, block);
    E.UpsertFrame(r, lines, target, b);
    var p := E.PlaceOf(r, lines, target);
    var edited := p.before + E.NewSection(r, p, b) + p.rest;
    HeadersTrimmed(edited, name);
    SameHeaders(lines, edited, E.TrimEmpty(r, edited) + [""], p, |E.NewSection(r, p, b)|,
                E.FindHeader(r, lines, target), E.Outside(r, lines, target), name);
  }

  lemma UpsertIs(text: string, name: string, block: string)
    ensures Upsert(text, name, block) == UpsertText(Toml(), text, TargetPath(name), block)
  {
    hide UpsertText;
  }

  lemma SameHeaders(lines: seq<string>, after: seq<string>, after': seq<string>, p: E.Place<string>, written: nat, start: nat,
                    outside: bool, name: string)
    requires Moves(lines, after, p, written, start, outside, name) && Headers(after, name) == Headers(after', name)
    ensures Moves(lines, after', p, written, start, outside, name)
  {
    hide Headers;
    forall i: nat
      ensures MovedAt(lines, after', p, written, start, outside, name, i)
    {
      assert MovedAt(lines, after, p, written, start, outside, name, i);
    }
  }

  /** The editor finds every header there is: none, or one that is the first line under the path it searches for. */
  predicate Found(lines: seq<string>, name: string) {
    Headers(lines, name) <= {E.FindHeader(Toml(), lines, TargetPath(name))}
  }

  lemma MovedBehind(lines: seq<string>, after: seq<string>, p: E.Place<string>, written: nat, start: nat, outside: bool,
                    name: string, i: nat)
    requires Moves(lines, after, p, written, start, outside, name) && outside && written > 0
    requires |p.rest| <= |lines| && i >= |lines| - |p.rest| && i in Headers(lines, name)
    ensures i - (|lines| - |p.rest|) + |p.before| + written in Headers(after, name)
  {
    hide Headers;
    var j := i - (|lines| - |p.rest|) + |p.before| + written;
    assert MovedAt(lines, after, p, written, start, outside, name, j);
  }

  lemma OneMoved(lines: seq<string>, after: seq<string>, p: E.Place<string>, written: nat, start: nat, outside: bool, name: string)
    requires Moves(lines, after, p, written, start, outside, name) && written > 0
    requires |p.rest| <= |lines| && start <= |lines|
    requires if start < |lines| then start == |p.before| < |lines| - |p.rest| else p.rest == []
    ensures Headers(after, name) == {|p.before|} <==> outside && Headers(lines, name) <= {start}
  {
    hide Headers;
    var place, shift := |p.before|, |lines| - |p.rest|;
    assert MovedAt(lines, after, p, written, start, outside, name, place);
    if Headers(after, name) == {place} {
      forall i | i in Headers(lines, name)
        ensures i == start
      {
        assert MovedAt(lines, after, p, written, start, outside, name, i);
        if i >= shift { MovedBehind(lines, after, p, written, start, outside, name, i); }
      }
    }
    if outside && Headers(lines, name) <= {start} {
      forall i | i in Headers(after, name)
        ensures i == place
      {
        assert MovedAt(lines, after, p, written, start, outside, name, i);
        HeadersInRange(lines, i - place - written + shift, name);
        HeadersInRange(lines, i, name);
      }
    }
  }

  /**
   * For any text and any rendered block, the block's header is afterwards the file's one header of the provider if and only
   * if no array was open where it goes and the editor could find what there was.
   */
  lemma OneHeaderAfter(text: string, name: string, kind: string, fields: seq<Field>)
    requires RenderBlock(name, kind, fields).Some?
    ensures var lines, block := Split(text, '\n'), RenderBlock(name, kind, fields).value;
            Headers(Split(Upsert(text, name, block), '\n'), name) == {|E.PlaceOf(Toml(), lines, TargetPath(name)).before|} <==>
            E.Outside(Toml(), lines, TargetPath(name)) && Found(lines, name)
  {
    var lines, target, r := Split(text, '\n'), TargetPath(name), Toml();
    var block := RenderBlock(name, kind, fields).value;
    var p := E.PlaceOf(r, lines, target);
    FoundIs(lines, name);
    hide *;
    HeadersAfter(text, name, kind, fields);
    RenderedDefines(name, kind, fields);
    HeadOfNew(r, p, BlockLines(block));
    PlaceShape(r, lines, target);
    OneMoved(lines, Split(Upsert(text, name, block), '\n'), p, |E.NewSection(r, p, BlockLines(block))|,
             E.FindHeader(r, lines, target), E.Outside(r, lines, target), name);
  }

  lemma FoundIs(lines: seq<string>, name: string)
    ensures Found(lines, name) <==> Headers(lines, name) <= {E.FindHeader(Toml(), lines, TargetPath(name))}
  {
  }

  lemma PlaceShape(r: LineReader, lines: seq<string>, target: string)
    ensures var start, p := E.FindHeader(r, lines, target), E.PlaceOf(r, lines, target);
            && start <= |lines| && |p.rest| <= |lines|
            && (if start < |lines| then start == |p.before| < |lines| - |p.rest| else p.rest == [])
  {
    if E.FindHeader(r, lines, target) < |lines| {
      hide *;
      var start, h, stop := E.PlaceFound(r, lines, target);
      E.SpanFacts(r, lines, start, h);
    } else {
      AppendedPlace(r, lines, target);
    }
  }

  // ---- when the editor finds what there is ---------------------------------------------------

  /** Every line that starts a section is one that TOML reads as a header. */
  predicate AllRead(lines: seq<string>) {
    forall i :: 0 <= i < |lines| && E.IsHeader(Toml(), lines[i]) && Depth(lines[..i], 0) == 0 ==> ReadHeader(lines[i]).Some?
  }

  /** The section that is found in such a file, outside every array, is one of the provider's. */
  lemma FirstIsHeader(lines: seq<string>, name: string)
    requires Writable(name) && AllRead(lines) && E.Outside(Toml(), lines, TargetPath(name))
    ensures var k := E.FindHeader(Toml(), lines, TargetPath(name)); k < |lines| ==> k in Headers(lines, name)
  {
    var k := E.FindHeader(Toml(), lines, TargetPath(name));
    if k < |lines| {
      TomlReads(lines[k], TargetPath(name));
      hide ReadHeader, HeaderPath, TargetPath, Writable, Toml, E.DepthAfter, E.FindHeader;
      TargetReads(lines[k], name);
    }
  }

  /** One member at most. */
  lemma AtMostOne(s: set<nat>, x: nat)
    requires x in s
    ensures |s| <= 1 <==> s <= {x}
  {
    assert |s - {x}| == |s| - 1;
    if |s| <= 1 { assert |s - {x}| == 0; }
    if s <= {x} { assert s == {x}; }
  }

  /**
   * In a file whose headers TOML reads that means: at most one of them is the provider's, and it is spelled as the editor
   * spells it.
   */
  lemma FoundMeans(lines: seq<string>, name: string)
    requires Writable(name) && AllRead(lines) && E.Outside(Toml(), lines, TargetPath(name))
    ensures Found(lines, name) <==>
      |Headers(lines, name)| <= 1 && forall k :: k in Headers(lines, name) ==> HeaderPath(lines[k]) == Some(TargetPath(name))
  {
    var target := TargetPath(name);
    var start := E.FindHeader(Toml(), lines, target);
    FirstIsHeader(lines, name);
    forall i | i in Headers(lines, name)
      ensures i < |lines| && (HeaderPath(lines[i]) == Some(target) <==> E.IsTarget(Toml(), lines[i], target))
      ensures |Headers(lines, name)| <= 1 <==> Headers(lines, name) <= {i}
    {
      TomlReads(lines[i], target);
      AtMostOne(Headers(lines, name), i);
    }
    hide Headers, HeaderPath, AllRead, Writable, TargetPath, Toml, E.IsTarget;
    if Headers(lines, name) == {} {
      assert |Headers(lines, name)| == 0;
    }
  }

  // ---- files on which it fails ---------------------------------------------------------------

  lemma OneLine(r: LineReader, line: string, target: string)
    requires '\n' !in line && line != "" && !E.IsTarget(r, line, target)
    ensures Split(line, '\n') == [line] && E.FindHeader(r, [line], target) == 1 && RStripNewlines(line) == line
  {
    SplitFree(line, '\n');
    assert line[|line| - 1] in line;
    assert [line][1..] == [];
  }

  lemma OneLineIsAppended(r: LineReader, line: string, target: string, block: string)
    requires '\n' !in line && line != "" && !E.IsTarget(r, line, target)
    ensures UpsertText(r, line, target, block) == line + "\n\n" + Join(BlockLines(block), '\n') + "\n"
  {
    hide BlockLines, Join, Split, E.FindHeader, E.IsTarget, RStripNewlines, E.Replaced;
    OneLine(r, line, target);
  }

  lemma OnlyHeader(line: string, name: string)
    requires '\n' !in line && ReadsAs(line, name)
    ensures Split(line, '\n') == [line] && Headers([line], name) == {0}
  {
    SplitFree(line, '\n');
    hide ReadsAs, Split, Toml;
    assert [line][..0] == [];
    assert Depth([], 0) == 0;
  }

  /** A file that is one header the editor does not find: the block comes after it, and the name has two tables. */
  lemma MissedIsAppended(line: string, name: string, block: string)
    requires '\n' !in line && ReadsAs(line, name) && HeaderPath(line) != Some(TargetPath(name))
    ensures Upsert(line, name, block) == line + "\n\n" + Join(BlockLines(block), '\n') + "\n"
    ensures Headers([line], name) == {0} && !Found(Split(line, '\n'), name)
  {
    EmptyReadsAsNothing(name);
    hide ReadsAs, HeaderPath, TargetPath, Toml, E.IsTarget, E.FindHeader, UpsertText, BlockLines, Join, Split, Headers;
    TomlReads(line, TargetPath(name));
    OnlyHeader(line, name);
    OneLine(Toml(), line, TargetPath(name));
    OneLineIsAppended(Toml(), line, TargetPath(name), block);
  }

  lemma FitsALine(key: string)
    requires '\n' !in key
    ensures '\n' !in "[" + (key + "]")
  {
  }

  lemma ReadsMeans(line: string, name: string)
    requires ReadHeader(line) == Some(Reading(["providers", name], false))
    ensures ReadsAs(line, name)
  {
  }

  /** Neither a bare name in quotes nor one with blanks around its dot is found. */
  lemma HandSpelledIsMissed(name: string, block: string, quoted: bool)
    requires Bare(name)
    ensures var line := "[" + (HandKey(name, quoted) + "]");
            && Upsert(line, name, block) == line + "\n\n" + Join(BlockLines(block), '\n') + "\n"
            && Headers([line], name) == {0} && !Found(Split(line, '\n'), name)
  {
    hide *;
    var line := "[" + (HandKey(name, quoted) + "]");
    HandSpelling(name, quoted);
    FitsALine(HandKey(name, quoted));
    ReadsMeans(line, name);
    MissedIsAppended(line, name, block);
  }

  /** A table of an array under the name is found, and a plain table takes its place. */
  lemma ArrayTableIsReplaced(name: string, block: seq<string>)
    requires Writable(name)
    ensures var line := "[[" + (TargetPath(name) + "]]");
            ReadHeader(line) == Some(Reading(["providers", name], true))
              && E.UpsertLines(Toml(), [line], TargetPath(name), block) == block
  {
    TargetSpelling(name, true);
    var line, target := "[[" + (TargetPath(name) + "]]"), TargetPath(name);
    TomlReads(line, target);
    hide ReadHeader, HeaderPath, TargetPath, Toml, E.IsTarget;
    OnlyHeaderReplaced(Toml(), line, target, block);
  }

  lemma OnlyHeaderReplaced(r: LineReader, line: string, target: string, block: seq<string>)
    requires E.IsTarget(r, line, target)
    ensures E.UpsertLines(r, [line], target, block) == block
  {
    var lines := [line];
    assert E.FindHeader(r, lines, target) == 0 && E.BodyEnd(r, lines, 1, 0, 1) == 1;
    assert lines[..0] + block + [] + lines[1..] == block;
  }
}
