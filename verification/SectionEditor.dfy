/** The section editor on lines, for any reader that says which lines are headers and which are content. */
module SectionEditor {
  import opened Base

  /** How the editor sees a line; `delta` is the net number of brackets it opens. */
  datatype LineClass = LineClass(path: Option<string>, blank: bool, content: bool, delta: int)

  datatype Reader<!T> = Reader(classify: T -> LineClass, empty: T)

  /** Blank lines are neither headers nor content, and what is not content opens no bracket. */
  ghost predicate Sound<T(!new)>(r: Reader<T>) {
    && r.classify(r.empty).blank
    && forall x :: (r.classify(x).blank ==> !r.classify(x).content && r.classify(x).path.None?)
                && (!r.classify(x).content ==> r.classify(x).delta == 0)
  }

  predicate IsHeader<T>(r: Reader<T>, x: T) {
    r.classify(x).path.Some?
  }

  predicate IsContent<T>(r: Reader<T>, x: T) {
    r.classify(x).content
  }

  predicate IsTarget<T>(r: Reader<T>, x: T, target: string) {
    r.classify(x).path == Some(target)
  }

  function Delta<T>(r: Reader<T>, x: T): int {
    r.classify(x).delta
  }

  function TrimEmpty<T(==)>(r: Reader<T>, lines: seq<T>): (t: seq<T>)
    ensures |t| <= |lines| && t == lines[..|t|]
    ensures |t| > 0 ==> t[|t| - 1] != r.empty
  {
    if |lines| > 0 && lines[|lines| - 1] == r.empty then TrimEmpty(r, lines[..|lines| - 1]) else lines
  }

  lemma {:induction false} TrimConcat<T>(r: Reader<T>, a: seq<T>, b: seq<T>)
    requires |a| > 0 && a[|a| - 1] != r.empty
    ensures TrimEmpty(r, a + b) == a + TrimEmpty(r, b)
  {
    if |b| == 0 {
      assert a + b == a;
    } else {
      assert (a + b)[|a + b| - 1] == b[|b| - 1];
      if b[|b| - 1] == r.empty {
        assert (a + b)[..|a + b| - 1] == a + b[..|b| - 1];
        TrimConcat(r, a, b[..|b| - 1]);
      }
    }
  }

  lemma TrimTwice<T>(r: Reader<T>, lines: seq<T>)
    ensures TrimEmpty(r, TrimEmpty(r, lines)) == TrimEmpty(r, lines)
    ensures TrimEmpty(r, TrimEmpty(r, lines) + [r.empty]) == TrimEmpty(r, lines)
  {
    var t := TrimEmpty(r, lines);
    assert (t + [r.empty])[..|t|] == t;
  }

  // ---- the editor ----------------------------------------------------------------------

  function FindHeader<T>(r: Reader<T>, lines: seq<T>, target: string): (k: nat)
    ensures k <= |lines|
    ensures k < |lines| ==> IsTarget(r, lines[k], target)
    ensures forall i :: 0 <= i < k ==> !IsTarget(r, lines[i], target)
  {
    if |lines| == 0 || IsTarget(r, lines[0], target) then 0 else 1 + FindHeader(r, lines[1..], target)
  }

  function Max0(n: int): int {
    if n < 0 then 0 else n
  }

  /** The body walk from line `j`: how many lines, counted from the start of `lines`, belong to the section. */
  function BodyEnd<T>(r: Reader<T>, lines: seq<T>, j: nat, depth: int, end: nat): (stop: nat)
    requires end <= j <= |lines|
    ensures end <= stop <= |lines|
    decreases |lines| - j
  {
    if j == |lines| then end
    else if depth == 0 && IsHeader(r, lines[j]) then end
    else
      BodyEnd(r, lines, j + 1, Max0(depth + Delta(r, lines[j])),
              if depth > 0 || IsContent(r, lines[j]) then j + 1 else end)
  }

  function Separator<T>(r: Reader<T>, tail: seq<T>): seq<T> {
    if |tail| > 0 && !r.classify(tail[0]).blank then [r.empty] else []
  }

  function Replaced<T>(r: Reader<T>, lines: seq<T>, start: nat, block: seq<T>): seq<T>
    requires start < |lines|
  {
    var tail := lines[BodyEnd(r, lines, start + 1, 0, start + 1)..];
    lines[..start] + block + Separator(r, tail) + tail
  }

  /** The blank line before an appended section, unless the file is empty. */
  function Appended<T(==)>(r: Reader<T>, lines: seq<T>, block: seq<T>): seq<T> {
    var base := TrimEmpty(r, lines);
    if |base| == 0 then block else base + [r.empty] + block
  }

  function UpsertLines<T(==)>(r: Reader<T>, lines: seq<T>, target: string, block: seq<T>): seq<T> {
    var start := FindHeader(r, lines, target);
    if start < |lines| then Replaced(r, lines, start, block) else Appended(r, lines, block)
  }

  // ---- well-formed blocks ----------------------------------------------------------------

  /** What the editor relies on in a rendered block: its own header, then balanced content lines. */
  ghost predicate WellFormed<T>(r: Reader<T>, block: seq<T>, target: string) {
    && |block| > 0
    && IsTarget(r, block[0], target) && block[|block| - 1] != r.empty
    && forall i :: 1 <= i < |block| ==> !IsHeader(r, block[i]) && IsContent(r, block[i]) && Delta(r, block[i]) == 0
  }

  // ---- the walk -------------------------------------------------------------------------------

  /** Lines that the walk, at depth zero, reads to the next header or the end without taking any. */
  ghost predicate Quiet<T>(r: Reader<T>, lines: seq<T>) {
    |lines| == 0 || IsHeader(r, lines[0]) || (!IsContent(r, lines[0]) && Quiet(r, lines[1..]))
  }

  lemma {:induction false} QuietWalk<T(!new)>(r: Reader<T>, lines: seq<T>, j: nat, end: nat)
    requires Sound(r)
    requires end <= j <= |lines| && Quiet(r, lines[j..])
    ensures BodyEnd(r, lines, j, 0, end) == end
    decreases |lines| - j
  {
    if j < |lines| && !IsHeader(r, lines[j]) {
      assert lines[j..][0] == lines[j] && lines[j..][1..] == lines[j + 1..];
      QuietWalk(r, lines, j + 1, end);
    }
  }

  ghost predicate Inert<T>(r: Reader<T>, lines: seq<T>) {
    forall i :: 0 <= i < |lines| ==> !IsHeader(r, lines[i]) && !IsContent(r, lines[i])
  }

  lemma {:induction false} InertThenQuiet<T>(r: Reader<T>, a: seq<T>, b: seq<T>)
    requires Inert(r, a) && Quiet(r, b)
    ensures Quiet(r, a + b)
  {
    if |a| == 0 {
      assert a + b == b;
    } else {
      assert (a + b)[0] == a[0] && (a + b)[1..] == a[1..] + b;
      InertThenQuiet(r, a[1..], b);
    }
  }

  /** What the walk leaves behind is quiet: trailing blanks and comments, then the next header. */
  lemma {:induction false} WalkLeavesQuiet<T(!new)>(r: Reader<T>, lines: seq<T>, j: nat, depth: int, end: nat)
    requires Sound(r)
    requires end <= j <= |lines| && depth >= 0
    requires Inert(r, lines[end..j]) && (depth > 0 ==> end == j)
    ensures Quiet(r, lines[BodyEnd(r, lines, j, depth, end)..])
    decreases |lines| - j
  {
    if j == |lines| || (depth == 0 && IsHeader(r, lines[j])) {
      assert lines[end..] == lines[end..j] + lines[j..];
      assert j < |lines| ==> lines[j..][0] == lines[j];
      InertThenQuiet(r, lines[end..j], lines[j..]);
    } else {
      var end' := if depth > 0 || IsContent(r, lines[j]) then j + 1 else end;
      if end' == end {
        assert lines[end..j + 1] == lines[end..j] + [lines[j]];
      }
      WalkLeavesQuiet(r, lines, j + 1, Max0(depth + Delta(r, lines[j])), end');
    }
  }

  /** The walk takes every content line of a well-formed block. */
  lemma {:induction false} BlockWalk<T>(r: Reader<T>, lines: seq<T>, j: nat, stop: nat)
    requires 0 < j <= stop <= |lines|
    requires forall i :: j <= i < stop ==> !IsHeader(r, lines[i]) && IsContent(r, lines[i]) && Delta(r, lines[i]) == 0
    ensures BodyEnd(r, lines, j, 0, j) == BodyEnd(r, lines, stop, 0, stop)
    decreases stop - j
  {
    if j < stop { BlockWalk(r, lines, j + 1, stop); }
  }

  lemma {:induction false} QuietTrim<T(!new)>(r: Reader<T>, z: seq<T>)
    requires Sound(r)
    requires Quiet(r, z)
    ensures Quiet(r, TrimEmpty(r, z) + [r.empty])
  {
    if |z| == 0 || TrimEmpty(r, z) == [] {
      assert Quiet(r, [r.empty][1..]);
      assert TrimEmpty(r, z) + [r.empty] == [r.empty];
    } else if IsHeader(r, z[0]) {
      assert (TrimEmpty(r, z) + [r.empty])[0] == z[0];
    } else {
      TrimTail(r, z);
      QuietTrim(r, z[1..]);
      assert (TrimEmpty(r, z) + [r.empty])[0] == z[0];
      assert (TrimEmpty(r, z) + [r.empty])[1..] == TrimEmpty(r, z[1..]) + [r.empty];
    }
  }

  lemma {:induction false} TrimTail<T>(r: Reader<T>, z: seq<T>)
    requires TrimEmpty(r, z) != []
    ensures TrimEmpty(r, z[1..]) == TrimEmpty(r, z)[1..]
  {
    if z[|z| - 1] == r.empty {
      TrimTail(r, z[..|z| - 1]);
      assert z[1..][..|z[1..]| - 1] == z[..|z| - 1][1..];
    }
  }

  // ---- last write wins --------------------------------------------------------------------------

  lemma {:induction false} FindAfter<T>(r: Reader<T>, before: seq<T>, rest: seq<T>, target: string)
    requires forall i :: 0 <= i < |before| ==> !IsTarget(r, before[i], target)
    requires |rest| > 0 && IsTarget(r, rest[0], target)
    ensures FindHeader(r, before + rest, target) == |before|
  {
    if |before| == 0 {
      assert before + rest == rest;
    } else {
      assert (before + rest)[0] == before[0] && (before + rest)[1..] == before[1..] + rest;
      FindAfter(r, before[1..], rest, target);
    }
  }

  /** In a file that already holds the block, the walk stops right after it. */
  lemma BlockIsFound<T(!new)>(r: Reader<T>, before: seq<T>, block: seq<T>, z: seq<T>, target: string)
    requires Sound(r) && WellFormed(r, block, target) && Quiet(r, z)
    requires forall i :: 0 <= i < |before| ==> !IsTarget(r, before[i], target)
    ensures FindHeader(r, before + block + z, target) == |before|
    ensures BodyEnd(r, before + block + z, |before| + 1, 0, |before| + 1) == |before| + |block|
  {
    assert before + block + z == before + (block + z);
    assert (block + z)[0] == block[0];
    FindAfter(r, before, block + z, target);
    BlockIsWalked(r, before, block, z, target);
  }

  lemma BlockIsWalked<T(!new)>(r: Reader<T>, before: seq<T>, block: seq<T>, z: seq<T>, target: string)
    requires Sound(r) && WellFormed(r, block, target) && Quiet(r, z)
    ensures BodyEnd(r, before + block + z, |before| + 1, 0, |before| + 1) == |before| + |block|
  {
    hide BodyEnd, Quiet;
    var lines, start, stop := before + block + z, |before|, |before| + |block|;
    forall i | start + 1 <= i < stop
      ensures !IsHeader(r, lines[i]) && IsContent(r, lines[i]) && Delta(r, lines[i]) == 0
    {
      assert lines[i] == block[i - start];
    }
    BlockWalk(r, lines, start + 1, stop);
    assert lines[stop..] == z;
    QuietWalk(r, lines, stop, stop);
  }

  lemma ReplaceKnown<T>(r: Reader<T>, before: seq<T>, b1: seq<T>, b2: seq<T>, z: seq<T>, target: string)
    requires |b1| > 0 && FindHeader(r, before + b1 + z, target) == |before|
    requires BodyEnd(r, before + b1 + z, |before| + 1, 0, |before| + 1) == |before| + |b1|
    requires Separator(r, z) == []
    ensures UpsertLines(r, before + b1 + z, target, b2) == before + b2 + z
  {
    var lines := before + b1 + z;
    assert lines[|before| + |b1|..] == z && lines[..|before|] == before;
    assert before + b2 + [] + z == before + b2 + z;
  }

  /** Editing a file already edited replaces exactly the block that was written. */
  lemma ReplaceAgain<T(!new)>(r: Reader<T>, before: seq<T>, b1: seq<T>, b2: seq<T>, after: seq<T>, target: string)
    requires Sound(r)
    requires WellFormed(r, b1, target) && WellFormed(r, b2, target)
    requires forall i :: 0 <= i < |before| ==> !IsTarget(r, before[i], target)
    requires Quiet(r, after) && Separator(r, after) == []
    ensures TrimEmpty(r, UpsertLines(r, before + b1 + (TrimEmpty(r, after) + [r.empty]), target, b2)) == TrimEmpty(r, before + b2 + after)
  {
    var z := TrimEmpty(r, after) + [r.empty];
    QuietTrim(r, after);
    BlockIsFound(r, before, b1, z, target);
    SeparatorOfTrimmed(r, after);
    ReplaceKnown(r, before, b1, b2, z, target);
    assert (before + b2)[|before + b2| - 1] == b2[|b2| - 1];
    TrimConcat(r, before + b2, z);
    TrimConcat(r, before + b2, after);
    TrimTwice(r, after);
  }

  lemma SeparatorOfTrimmed<T(!new)>(r: Reader<T>, after: seq<T>)
    requires Sound(r)
    requires Separator(r, after) == []
    ensures Separator(r, TrimEmpty(r, after) + [r.empty]) == []
  {
  }

  /** Where a block lands: some lines before it without the target header, quiet lines after it. */
  lemma UpsertShape<T(!new)>(r: Reader<T>, lines: seq<T>, target: string, block: seq<T>)
    returns (before: seq<T>, after: seq<T>)
    requires Sound(r)
    requires |block| > 0
    ensures UpsertLines(r, lines, target, block) == before + block + after
    ensures forall b: seq<T> {:trigger UpsertLines(r, lines, target, b)} ::
      UpsertLines(r, lines, target, b) == before + b + after
    ensures forall i :: 0 <= i < |before| ==> !IsTarget(r, before[i], target)
    ensures Quiet(r, after) && Separator(r, after) == []
  {
    var start := FindHeader(r, lines, target);
    if start < |lines| {
      var end := BodyEnd(r, lines, start + 1, 0, start + 1);
      var tail := lines[end..];
      before, after := lines[..start], Separator(r, tail) + tail;
      assert lines[start + 1..start + 1] == [];
      WalkLeavesQuiet(r, lines, start + 1, 0, start + 1);
      InertThenQuiet(r, Separator(r, tail), tail);
      forall b: seq<T>
        ensures UpsertLines(r, lines, target, b) == before + b + after
      {
        assert before + b + Separator(r, tail) + tail == before + b + (Separator(r, tail) + tail);
      }
    } else {
      var base := TrimEmpty(r, lines);
      before, after := if |base| == 0 then [] else base + [r.empty], [];
      forall b: seq<T>
        ensures UpsertLines(r, lines, target, b) == before + b + after
      {
        assert [] + b + [] == b && base + [r.empty] + b + [] == base + [r.empty] + b;
      }
      assert !IsTarget(r, r.empty, target);
    }
  }

  /** Writing one block and then another for the same provider leaves what writing the second alone leaves. */
  lemma LastWriteWinsLines<T(!new)>(r: Reader<T>, lines: seq<T>, target: string, b1: seq<T>, b2: seq<T>)
    requires Sound(r)
    requires WellFormed(r, b1, target) && WellFormed(r, b2, target)
    ensures UpsertTwice(r, lines, target, b1, b2) == TrimEmpty(r, UpsertLines(r, lines, target, b2))
    ensures |TrimEmpty(r, UpsertLines(r, lines, target, b1))| > 0
  {
    var before, after := UpsertShape(r, lines, target, b1);
    var first := before + b1;
    assert first[|first| - 1] == b1[|b1| - 1];
    TrimConcat(r, first, after);
    assert first + TrimEmpty(r, after) + [r.empty] == before + b1 + (TrimEmpty(r, after) + [r.empty]);
    ReplaceAgain(r, before, b1, b2, after, target);
    assert UpsertLines(r, lines, target, b1) == before + b1 + after;
    assert UpsertLines(r, lines, target, b2) == before + b2 + after;
  }

  ghost function UpsertTwice<T>(r: Reader<T>, lines: seq<T>, target: string, b1: seq<T>, b2: seq<T>): seq<T> {
    TrimEmpty(r, UpsertLines(r, TrimEmpty(r, UpsertLines(r, lines, target, b1)) + [r.empty], target, b2))
  }

  // ---- sections ------------------------------------------------------------------------------------

  /** The bracket depth after a line, never below zero; a header outside every array starts afresh. */
  function Step<T>(r: Reader<T>, x: T, depth: int): int {
    if depth == 0 && IsHeader(r, x) then 0 else Max0(depth + Delta(r, x))
  }

  function DepthAfter<T>(r: Reader<T>, lines: seq<T>, depth: int): int {
    if |lines| == 0 then depth else DepthAfter(r, lines[1..], Step(r, lines[0], depth))
  }

  /** A file as sections: the lines before the first header, then each header outside the arrays with its lines. */
  function Sections<T>(r: Reader<T>, lines: seq<T>, depth: int): (cs: seq<seq<T>>)
    ensures |cs| >= 1
  {
    if |lines| == 0 then [[]]
    else
      var rest := Sections(r, lines[1..], Step(r, lines[0], depth));
      var first := [lines[0]] + rest[0];
      if depth == 0 && IsHeader(r, lines[0]) then [[], first] + rest[1..] else [first] + rest[1..]
  }

  function Flat<T>(cs: seq<seq<T>>): seq<T> {
    if |cs| == 0 then [] else cs[0] + Flat(cs[1..])
  }

  /** None of these lines starts a section: a header among them is a row of an array. */
  ghost predicate TopFree<T>(r: Reader<T>, lines: seq<T>, depth: int) {
    |lines| == 0 || (!(depth == 0 && IsHeader(r, lines[0])) && TopFree(r, lines[1..], Step(r, lines[0], depth)))
  }

  ghost predicate IsSection<T>(r: Reader<T>, section: seq<T>) {
    |section| > 0 && IsHeader(r, section[0]) && TopFree(r, section[1..], 0)
  }

  lemma {:induction false} DepthConcat<T>(r: Reader<T>, a: seq<T>, b: seq<T>, depth: int)
    ensures DepthAfter(r, a + b, depth) == DepthAfter(r, b, DepthAfter(r, a, depth))
  {
    if |a| == 0 {
      assert a + b == b;
    } else {
      assert (a + b)[0] == a[0] && (a + b)[1..] == a[1..] + b;
      DepthConcat(r, a[1..], b, Step(r, a[0], depth));
    }
  }

  lemma {:induction false} TopFreeConcat<T>(r: Reader<T>, a: seq<T>, b: seq<T>, depth: int)
    ensures TopFree(r, a + b, depth) <==> TopFree(r, a, depth) && TopFree(r, b, DepthAfter(r, a, depth))
  {
    if |a| == 0 {
      assert a + b == b;
    } else {
      assert (a + b)[0] == a[0] && (a + b)[1..] == a[1..] + b;
      TopFreeConcat(r, a[1..], b, Step(r, a[0], depth));
    }
  }

  lemma {:induction false} TopFreeMeans<T>(r: Reader<T>, lines: seq<T>, depth: int, i: nat)
    requires TopFree(r, lines, depth) && i < |lines| && IsHeader(r, lines[i])
    ensures DepthAfter(r, lines[..i], depth) != 0
  {
    if i > 0 {
      assert lines[..i][0] == lines[0] && lines[..i][1..] == lines[1..][..i - 1];
      TopFreeMeans(r, lines[1..], Step(r, lines[0], depth), i - 1);
    }
  }

  /** Lines that are no headers and open no bracket. */
  ghost predicate Level<T>(r: Reader<T>, lines: seq<T>) {
    forall i :: 0 <= i < |lines| ==> !IsHeader(r, lines[i]) && Delta(r, lines[i]) == 0
  }

  lemma {:induction false} LevelKeepsDepth<T>(r: Reader<T>, lines: seq<T>, depth: int)
    requires Level(r, lines) && depth >= 0
    ensures DepthAfter(r, lines, depth) == depth && TopFree(r, lines, depth)
  {
    if |lines| != 0 { LevelKeepsDepth(r, lines[1..], depth); }
  }

  lemma {:induction false} DepthNonNegative<T>(r: Reader<T>, lines: seq<T>, depth: int)
    requires depth >= 0
    ensures DepthAfter(r, lines, depth) >= 0
  {
    if |lines| != 0 { DepthNonNegative(r, lines[1..], Step(r, lines[0], depth)); }
  }

  lemma FlatCons<T>(section: seq<T>, cs: seq<seq<T>>)
    ensures Flat([section] + cs) == section + Flat(cs)
  {
    assert ([section] + cs)[1..] == cs;
  }

  /** Each part but the first is a section, and each but the last closes its arrays. */
  ghost predicate Closed<T>(r: Reader<T>, cs: seq<seq<T>>, depth: int) {
    && |cs| > 0 && TopFree(r, cs[0], depth)
    && (|cs| > 1 ==> DepthAfter(r, cs[0], depth) == 0)
    && (forall i :: 1 <= i < |cs| ==> IsSection(r, cs[i]))
    && (forall i :: 1 <= i < |cs| - 1 ==> DepthAfter(r, cs[i][1..], 0) == 0)
  }

  /**
   * Nothing is lost: the sections are the file, each one but the first has one header outside the arrays, at its head, and
   * each one but the last closes its arrays.
   */
  lemma {:induction false} SectionsPartition<T>(r: Reader<T>, lines: seq<T>, depth: int)
    ensures Flat(Sections(r, lines, depth)) == lines && Closed(r, Sections(r, lines, depth), depth)
  {
    if |lines| != 0 {
      var depth' := Step(r, lines[0], depth);
      SectionsPartition(r, lines[1..], depth');
      var rest := Sections(r, lines[1..], depth');
      var first := [lines[0]] + rest[0];
      assert lines == [lines[0]] + (rest[0] + Flat(rest[1..])) == first + Flat(rest[1..]);
      FlatCons(first, rest[1..]);
      FlatCons([], [first] + rest[1..]);
      assert [[], first] + rest[1..] == [[]] + ([first] + rest[1..]);
      hide Flat, Sections;
      OneLineMore(r, lines[0], rest, depth);
    }
  }

  lemma OneLineMore<T>(r: Reader<T>, x: T, rest: seq<seq<T>>, depth: int)
    requires Closed(r, rest, Step(r, x, depth))
    ensures var first := [x] + rest[0];
            Closed(r, if depth == 0 && IsHeader(r, x) then [[], first] + rest[1..] else [first] + rest[1..], depth)
  {
    var first := [x] + rest[0];
    assert first[1..] == rest[0];
    if depth == 0 && IsHeader(r, x) {
      var cs := [[], first] + rest[1..];
      assert forall i :: 2 <= i < |cs| ==> cs[i] == rest[i - 1];
    } else {
      var cs := [first] + rest[1..];
      assert forall i :: 1 <= i < |cs| ==> cs[i] == rest[i];
    }
  }

  /** The sections of two parts put together: the second part's first lines join the last section. */
  function Glue<T>(x: seq<seq<T>>, y: seq<seq<T>>): seq<seq<T>>
    requires |x| > 0 && |y| > 0
  {
    x[..|x| - 1] + [x[|x| - 1] + y[0]] + y[1..]
  }

  lemma GlueFirst<T>(line: T, x: seq<seq<T>>, y: seq<seq<T>>)
    requires |x| > 0 && |y| > 0
    ensures Glue([[line] + x[0]] + x[1..], y) == [[line] + Glue(x, y)[0]] + Glue(x, y)[1..]
    ensures Glue([[], [line] + x[0]] + x[1..], y) == [[], [line] + Glue(x, y)[0]] + Glue(x, y)[1..]
  {
    assert |x| == 1 ==> [line] + (x[0] + y[0]) == [line] + x[0] + y[0];
  }

  lemma {:induction false} SectionsConcat<T>(r: Reader<T>, a: seq<T>, b: seq<T>, depth: int)
    ensures Sections(r, a + b, depth) == Glue(Sections(r, a, depth), Sections(r, b, DepthAfter(r, a, depth)))
  {
    if |a| == 0 {
      assert a + b == b && [] + Sections(r, b, depth)[0] == Sections(r, b, depth)[0];
    } else {
      var depth' := Step(r, a[0], depth);
      assert (a + b)[0] == a[0] && (a + b)[1..] == a[1..] + b;
      SectionsConcat(r, a[1..], b, depth');
      GlueFirst(a[0], Sections(r, a[1..], depth'), Sections(r, b, DepthAfter(r, a, depth)));
    }
  }

  lemma {:induction false} SectionsOfFree<T>(r: Reader<T>, lines: seq<T>, depth: int)
    requires TopFree(r, lines, depth)
    ensures Sections(r, lines, depth) == [lines]
  {
    if |lines| != 0 {
      SectionsOfFree(r, lines[1..], Step(r, lines[0], depth));
      assert lines == [lines[0]] + lines[1..];
    }
  }

  /** A section right before the next header, or at the end of the file. */
  ghost predicate Ends<T>(r: Reader<T>, section: seq<T>, rest: seq<T>) {
    IsSection(r, section) && (|rest| > 0 ==> IsHeader(r, rest[0]) && DepthAfter(r, section[1..], 0) == 0)
  }

  lemma OwnSections<T>(r: Reader<T>, section: seq<T>)
    requires IsSection(r, section)
    ensures Sections(r, section, 0) == [[], section] && DepthAfter(r, section, 0) == DepthAfter(r, section[1..], 0)
  {
    SectionsOfFree(r, section[1..], 0);
    assert section == [section[0]] + section[1..];
  }

  lemma FromHeader<T>(r: Reader<T>, section: seq<T>, rest: seq<T>)
    requires Ends(r, section, rest)
    ensures Sections(r, section + rest, 0) == [[], section] + Sections(r, rest, 0)[1..]
  {
    SectionsConcat(r, section, rest, 0);
    OwnSections(r, section);
    if |rest| > 0 {
      assert Sections(r, rest, 0)[0] == [];
    }
    assert section + [] == section;
  }

  /** A section of a file, where no array is open before it. */
  lemma WholeSection<T>(r: Reader<T>, before: seq<T>, section: seq<T>, rest: seq<T>)
    requires DepthAfter(r, before, 0) == 0 && Ends(r, section, rest)
    ensures Sections(r, before + section + rest, 0) == Sections(r, before, 0) + [section] + Sections(r, rest, 0)[1..]
  {
    assert before + section + rest == before + (section + rest);
    SectionsConcat(r, before, section + rest, 0);
    FromHeader(r, section, rest);
    hide Sections, DepthAfter, Ends;
    GlueWhole(Sections(r, before, 0), section, Sections(r, rest, 0)[1..]);
  }

  lemma GlueWhole<T>(cb: seq<seq<T>>, section: seq<T>, cr: seq<seq<T>>)
    requires |cb| > 0
    ensures Glue(cb, [[], section] + cr) == cb + [section] + cr
  {
    assert cb[|cb| - 1] + [] == cb[|cb| - 1];
    assert cb == cb[..|cb| - 1] + [cb[|cb| - 1]];
    assert ([[], section] + cr)[1..] == [section] + cr;
  }

  // ---- where the section's body ends -----------------------------------------------------------------

  /** Index of the first header at or after `j` that is outside every array, when the depth at `j` is `depth`. */
  function SectionEnd<T>(r: Reader<T>, lines: seq<T>, j: nat, depth: int): (h: nat)
    requires j <= |lines|
    ensures j <= h <= |lines|
    decreases |lines| - j
  {
    if j == |lines| || (depth == 0 && IsHeader(r, lines[j])) then j
    else SectionEnd(r, lines, j + 1, Step(r, lines[j], depth))
  }

  lemma {:induction false} SectionEndIs<T>(r: Reader<T>, lines: seq<T>, j: nat, depth: int)
    requires j <= |lines|
    ensures var h := SectionEnd(r, lines, j, depth);
            && TopFree(r, lines[j..h], depth)
            && (h < |lines| ==> IsHeader(r, lines[h]) && DepthAfter(r, lines[j..h], depth) == 0)
    decreases |lines| - j
  {
    if j < |lines| && !(depth == 0 && IsHeader(r, lines[j])) {
      var h := SectionEnd(r, lines, j + 1, Step(r, lines[j], depth));
      SectionEndIs(r, lines, j + 1, Step(r, lines[j], depth));
      assert lines[j..h][0] == lines[j] && lines[j..h][1..] == lines[j + 1..h];
    }
  }

  /** The blanks and comments at the end of a section, outside every array. */
  ghost function Trailer<T>(r: Reader<T>, lines: seq<T>, depth: int): (kept: seq<T>)
    ensures |kept| <= |lines| && kept == lines[|lines| - |kept|..] && Inert(r, kept)
  {
    if depth == 0 && Inert(r, lines) then lines
    else if |lines| == 0 then []
    else Trailer(r, lines[1..], Step(r, lines[0], depth))
  }

  lemma TrailerGoesOn<T>(r: Reader<T>, lines: seq<T>, depth: int)
    requires |lines| > 0 && (depth != 0 || !Inert(r, lines))
    ensures Trailer(r, lines, depth) == Trailer(r, lines[1..], Step(r, lines[0], depth))
  {
    hide Inert, Step;
  }

  lemma InertStep<T(!new)>(r: Reader<T>, x: T)
    requires Sound(r) && !IsHeader(r, x) && !IsContent(r, x)
    ensures Step(r, x, 0) == 0
  {
  }

  lemma {:induction false} TrailerSkips<T(!new)>(r: Reader<T>, a: seq<T>, x: T, rest: seq<T>)
    requires Sound(r) && Inert(r, a) && IsContent(r, x)
    ensures Trailer(r, a + ([x] + rest), 0) == Trailer(r, rest, Step(r, x, 0))
  {
    hide Trailer, Sound, Step, IsContent, IsHeader;
    var lines := a + ([x] + rest);
    assert lines[|a|] == x;
    TrailerGoesOn(r, lines, 0);
    if |a| == 0 {
      assert lines[1..] == rest;
    } else {
      assert lines[0] == a[0] && lines[1..] == a[1..] + ([x] + rest);
      InertStep(r, a[0]);
      TrailerSkips(r, a[1..], x, rest);
    }
  }

  /** The end of the body after line `j`. */
  function EndAfter<T>(r: Reader<T>, lines: seq<T>, j: nat, depth: int, end: nat): (e: nat)
    requires end <= j < |lines|
    ensures e <= j + 1
  {
    if depth > 0 || IsContent(r, lines[j]) then j + 1 else end
  }

  /** What the walk knows at line `j`, when `h` is where the section ends. */
  ghost predicate Walking<T>(r: Reader<T>, lines: seq<T>, j: nat, h: nat, depth: int, end: nat)
    requires end <= j <= h <= |lines|
  {
    && depth >= 0 && (depth > 0 ==> end == j) && Inert(r, lines[end..j])
    && TopFree(r, lines[j..h], depth)
    && (h < |lines| ==> IsHeader(r, lines[h]) && DepthAfter(r, lines[j..h], depth) == 0)
  }

  /** One step of the walk inside the section. */
  lemma WalkStep<T>(r: Reader<T>, lines: seq<T>, j: nat, h: nat, depth: int, end: nat)
    requires end <= j < h <= |lines| && Walking(r, lines, j, h, depth, end)
    ensures BodyEnd(r, lines, j, depth, end)
      == BodyEnd(r, lines, j + 1, Step(r, lines[j], depth), EndAfter(r, lines, j, depth, end))
  {
    assert lines[j..h][0] == lines[j];
  }

  lemma WalkingStep<T(!new)>(r: Reader<T>, lines: seq<T>, j: nat, h: nat, depth: int, end: nat)
    requires Sound(r) && end <= j < h <= |lines| && Walking(r, lines, j, h, depth, end)
    ensures Walking(r, lines, j + 1, h, Step(r, lines[j], depth), EndAfter(r, lines, j, depth, end))
  {
    assert lines[j..h][0] == lines[j] && lines[j..h][1..] == lines[j + 1..h];
    var end' := EndAfter(r, lines, j, depth, end);
    assert lines[end'..j + 1] == if end' == end then lines[end..j] + [lines[j]] else [];
  }

  /** What is still to be kept does not change when the walk passes a line. */
  lemma TrailerStep<T(!new)>(r: Reader<T>, lines: seq<T>, j: nat, h: nat, depth: int, end: nat)
    requires Sound(r) && end <= j < h <= |lines| && Walking(r, lines, j, h, depth, end)
    ensures Trailer(r, lines[end..h], depth)
      == Trailer(r, lines[EndAfter(r, lines, j, depth, end)..h], Step(r, lines[j], depth))
  {
    var rest := lines[j + 1..h];
    assert lines[j..h][0] == lines[j];
    if depth > 0 || IsContent(r, lines[j]) {
      assert EndAfter(r, lines, j, depth, end) == j + 1;
      assert lines[end..h] == lines[end..j] + ([lines[j]] + rest);
      assert Inert(r, lines[end..j]) && (depth > 0 ==> lines[end..j] == []) && depth >= 0;
      hide *;
      if depth > 0 {
        assert lines[end..h][0] == lines[j] && lines[end..h][1..] == rest;
        TrailerGoesOn(r, lines[end..h], depth);
      } else {
        TrailerSkips(r, lines[end..j], lines[j], rest);
      }
    } else {
      assert EndAfter(r, lines, j, depth, end) == end && Step(r, lines[j], depth) == depth;
    }
  }

  /** The walk takes everything up to the section's end but the trailer, whatever rows its arrays have. */
  lemma {:induction false} WalkToHeader<T(!new)>(r: Reader<T>, lines: seq<T>, j: nat, h: nat, depth: int, end: nat)
    requires Sound(r) && end <= j <= h <= |lines| && Walking(r, lines, j, h, depth, end)
    ensures BodyEnd(r, lines, j, depth, end) == h - |Trailer(r, lines[end..h], depth)|
    decreases h - j
  {
    hide *;
    if j < h {
      var depth', end' := Step(r, lines[j], depth), EndAfter(r, lines, j, depth, end);
      WalkingStep(r, lines, j, h, depth, end);
      WalkToHeader(r, lines, j + 1, h, depth', end');
      WalkStep(r, lines, j, h, depth, end);
      TrailerStep(r, lines, j, h, depth, end);
    } else {
      WalkEnds(r, lines, j, depth, end);
    }
  }

  lemma WalkEnds<T>(r: Reader<T>, lines: seq<T>, h: nat, depth: int, end: nat)
    requires end <= h <= |lines| && Walking(r, lines, h, h, depth, end)
    ensures BodyEnd(r, lines, h, depth, end) == h - |Trailer(r, lines[end..h], depth)|
  {
    assert lines[h..h] == [];
    assert end == h ==> lines[end..h] == [];
  }

  // ---- the edit and the lines around it --------------------------------------------------------------

  /**
   * Where a block goes: what stays before it, the blanks and comments that stay behind it, and the rest of the file from the
   * next header on.
   */
  datatype Place<T> = Place(before: seq<T>, kept: seq<T>, rest: seq<T>)

  ghost function PlaceOf<T>(r: Reader<T>, lines: seq<T>, target: string): Place<T> {
    var start := FindHeader(r, lines, target);
    if start < |lines| then
      var h := SectionEnd(r, lines, start + 1, 0);
      Place(lines[..start], Trailer(r, lines[start + 1..h], 0), lines[h..])
    else
      var base := TrimEmpty(r, lines);
      Place(if |base| == 0 then [] else base + [r.empty], [], [])
  }

  /** The empty line between a new block and what follows it in the file, unless that starts with a blank. */
  function Gap<T>(r: Reader<T>, kept: seq<T>, more: bool): seq<T> {
    if |kept| == 0 && more then [r.empty] else Separator(r, kept)
  }

  /** The block as a section, with its gap and the blanks and comments it inherits. */
  function NewSection<T>(r: Reader<T>, p: Place<T>, block: seq<T>): seq<T> {
    block + Gap(r, p.kept, |p.rest| > 0) + p.kept
  }

  /** The lines `start..h` are the section that is found. */
  ghost predicate Spans<T>(r: Reader<T>, lines: seq<T>, start: nat, h: nat) {
    start < h <= |lines| && Ends(r, lines[start..h], lines[h..])
  }

  lemma EndSpans<T>(r: Reader<T>, lines: seq<T>, start: nat)
    requires start < |lines| && IsHeader(r, lines[start])
    ensures Spans(r, lines, start, SectionEnd(r, lines, start + 1, 0))
  {
    var h := SectionEnd(r, lines, start + 1, 0);
    SectionEndIs(r, lines, start + 1, 0);
    hide SectionEnd, TopFree, DepthAfter;
    assert lines[start..h][1..] == lines[start + 1..h] && lines[start..h][0] == lines[start];
    assert h < |lines| ==> lines[h..][0] == lines[h];
  }

  /** The place of a section that is found, and what follows it. */
  lemma PlaceFound<T>(r: Reader<T>, lines: seq<T>, target: string) returns (start: nat, h: nat, stop: nat)
    requires FindHeader(r, lines, target) < |lines|
    ensures start == FindHeader(r, lines, target) && IsTarget(r, lines[start], target) && Spans(r, lines, start, h)
    ensures start < stop == h - |Trailer(r, lines[start..h][1..], 0)| && Inert(r, lines[stop..h])
    ensures PlaceOf(r, lines, target) == Place(lines[..start], lines[stop..h], lines[h..])
  {
    start := FindHeader(r, lines, target);
    h := SectionEnd(r, lines, start + 1, 0);
    PlaceIn(r, lines, target, start, h);
    EndSpans(r, lines, start);
    hide *;
    stop := TrailerAt(r, lines, start, h);
  }

  lemma PlaceIn<T>(r: Reader<T>, lines: seq<T>, target: string, start: nat, h: nat)
    requires start == FindHeader(r, lines, target) < |lines| && h == SectionEnd(r, lines, start + 1, 0)
    ensures PlaceOf(r, lines, target) == Place(lines[..start], Trailer(r, lines[start..h][1..], 0), lines[h..])
  {
    hide FindHeader, SectionEnd, Trailer;
    assert lines[start..h][1..] == lines[start + 1..h];
  }

  lemma TrailerAt<T>(r: Reader<T>, lines: seq<T>, start: nat, h: nat) returns (stop: nat)
    requires start < h <= |lines|
    ensures var kept := Trailer(r, lines[start..h][1..], 0);
            start < stop == h - |kept| && lines[stop..h] == kept && Inert(r, lines[stop..h])
  {
    var body := lines[start..h][1..];
    var kept := Trailer(r, body, 0);
    stop := h - |kept|;
    hide Trailer, Inert;
    assert kept == body[|body| - |kept|..] == lines[stop..h];
  }

  /** Whatever the place, what is kept is blanks and comments, and what follows starts with a header. */
  lemma PlaceIs<T>(r: Reader<T>, lines: seq<T>, target: string)
    ensures var p := PlaceOf(r, lines, target); Inert(r, p.kept) && (|p.rest| > 0 ==> IsHeader(r, p.rest[0]))
  {
    if FindHeader(r, lines, target) < |lines| {
      var start, h, stop := PlaceFound(r, lines, target);
      hide PlaceOf, Trailer, FindHeader;
    }
  }

  lemma SeparatorIsGap<T(!new)>(r: Reader<T>, kept: seq<T>, rest: seq<T>)
    requires Sound(r) && (|rest| > 0 ==> IsHeader(r, rest[0]))
    ensures Separator(r, kept + rest) == Gap(r, kept, |rest| > 0)
  {
  }

  /**
   * Every line before the section and every line from the next header on is kept, with the blanks and comments before that
   * header: for any file and any block.
   */
  lemma UpsertFrame<T(!new)>(r: Reader<T>, lines: seq<T>, target: string, block: seq<T>)
    requires Sound(r)
    ensures var p := PlaceOf(r, lines, target);
            UpsertLines(r, lines, target, block) == p.before + NewSection(r, p, block) + p.rest
  {
    if FindHeader(r, lines, target) < |lines| {
      ReplacedFrame(r, lines, target, block);
    } else {
      var p := PlaceOf(r, lines, target);
      assert UpsertLines(r, lines, target, block) == p.before + block == p.before + (block + [] + []) + [];
    }
  }

  lemma ReplacedFrame<T(!new)>(r: Reader<T>, lines: seq<T>, target: string, block: seq<T>)
    requires Sound(r) && FindHeader(r, lines, target) < |lines|
    ensures var p := PlaceOf(r, lines, target);
            UpsertLines(r, lines, target, block) == p.before + NewSection(r, p, block) + p.rest
  {
    var start, h, stop := PlaceFound(r, lines, target);
    WalkFromStart(r, lines, start, h);
    ReplacedAt(r, lines, target, block, start, stop);
    hide *;
    SpanFacts(r, lines, start, h);
    FrameOfSplit(r, lines, block, start, stop, h);
  }

  lemma ReplacedAt<T>(r: Reader<T>, lines: seq<T>, target: string, block: seq<T>, start: nat, stop: nat)
    requires start == FindHeader(r, lines, target) < |lines| && stop == BodyEnd(r, lines, start + 1, 0, start + 1)
    ensures UpsertLines(r, lines, target, block) == lines[..start] + block + Separator(r, lines[stop..]) + lines[stop..]
  {
    hide BodyEnd, FindHeader;
  }

  lemma FrameOfSplit<T(!new)>(r: Reader<T>, lines: seq<T>, block: seq<T>, start: nat, stop: nat, h: nat)
    requires Sound(r) && start < stop <= h <= |lines| && (|lines[h..]| > 0 ==> IsHeader(r, lines[h..][0]))
    ensures var p := Place(lines[..start], lines[stop..h], lines[h..]);
            && lines[..start] + block + Separator(r, lines[stop..]) + lines[stop..] == p.before + NewSection(r, p, block) + p.rest
            && Separator(r, lines[stop..]) == Gap(r, p.kept, |p.rest| > 0)
  {
    var kept, rest := lines[stop..h], lines[h..];
    SeparatorIsGap(r, kept, rest);
    assert lines[stop..] == kept + rest;
    Regroup(lines[..start], block, Gap(r, kept, |rest| > 0), kept, rest);
  }

  lemma Regroup<T>(a: seq<T>, b: seq<T>, c: seq<T>, d: seq<T>, e: seq<T>)
    ensures a + b + c + (d + e) == a + (b + c + d) + e
  {
  }

  lemma WalkFromStart<T(!new)>(r: Reader<T>, lines: seq<T>, start: nat, h: nat)
    requires Sound(r) && Spans(r, lines, start, h)
    ensures BodyEnd(r, lines, start + 1, 0, start + 1) == h - |Trailer(r, lines[start..h][1..], 0)|
  {
    assert lines[start..h][1..] == lines[start + 1..h];
    assert lines[start + 1..start + 1] == [];
    assert h < |lines| ==> lines[h..][0] == lines[h];
    assert Walking(r, lines, start + 1, h, 0, start + 1);
    hide BodyEnd, Trailer, DepthAfter, Walking;
    WalkToHeader(r, lines, start + 1, h, 0, start + 1);
  }

  /**
   * The exact loss: of the headers behind the section's own, the edit drops those that come before the first one outside
   * every array, counting from the section. Such a header is a row of an array, or an array was left open before it.
   */
  lemma HeaderIsLost<T(!new)>(r: Reader<T>, lines: seq<T>, target: string, block: seq<T>, j: nat)
    requires Sound(r) && FindHeader(r, lines, target) < j < |lines| && IsHeader(r, lines[j])
    ensures var start, p := FindHeader(r, lines, target), PlaceOf(r, lines, target);
            var stop := |lines| - |p.rest| - |p.kept|;
            && start < stop
            && UpsertLines(r, lines, target, block) == lines[..start] + block + Gap(r, p.kept, |p.rest| > 0) + lines[stop..]
            && (j < stop <==> forall i :: start < i <= j && IsHeader(r, lines[i]) ==> InArray(r, lines, start, i))
  {
    hide *;
    var start, h, stop := PlaceFound(r, lines, target);
    SpanFacts(r, lines, start, h);
    WalkFromStart(r, lines, start, h);
    ReplacedAt(r, lines, target, block, start, stop);
    FrameOfSplit(r, lines, block, start, stop, h);
    HeadersInside(r, lines, start, h, j);
    if stop <= j < h { NotInert(r, lines, stop, h, j); }
    assert |lines| - |lines[h..]| - |lines[stop..h]| == stop;
  }

  lemma SpanFacts<T>(r: Reader<T>, lines: seq<T>, start: nat, h: nat)
    requires Spans(r, lines, start, h)
    ensures start < h <= |lines| && (|lines[h..]| > 0 ==> IsHeader(r, lines[h..][0]))
  {
  }

  lemma NotInert<T>(r: Reader<T>, lines: seq<T>, stop: nat, h: nat, j: nat)
    requires stop <= j < h <= |lines| && Inert(r, lines[stop..h])
    ensures !IsHeader(r, lines[j])
  {
    assert lines[j] == lines[stop..h][j - stop];
  }

  /** The headers of the section are the rows of its arrays. */
  lemma HeadersInside<T>(r: Reader<T>, lines: seq<T>, start: nat, h: nat, j: nat)
    requires Spans(r, lines, start, h) && start < j < |lines| && IsHeader(r, lines[j])
    ensures j < h <==> forall i :: start < i <= j && IsHeader(r, lines[i]) ==> InArray(r, lines, start, i)
  {
    var body := lines[start..h][1..];
    assert body == lines[start + 1..h];
    if j < h {
      forall i | start < i <= j && IsHeader(r, lines[i])
        ensures InArray(r, lines, start, i)
      {
        assert body[i - start - 1] == lines[i] && body[..i - start - 1] == lines[start + 1..i];
        TopFreeMeans(r, body, 0, i - start - 1);
      }
    } else {
      assert lines[h..][0] == lines[h];
      assert !InArray(r, lines, start, h);
    }
  }

  /** An array that opens behind line `start` is open at line `i`. */
  predicate InArray<T>(r: Reader<T>, lines: seq<T>, start: nat, i: nat)
    requires start < i <= |lines|
  {
    DepthAfter(r, lines[start + 1..i], 0) != 0
  }

  // ---- the edit and the sections ----------------------------------------------------------------------

  /** No array is open where the block goes: at the line that is found, or else at the end of the file. */
  predicate Outside<T>(r: Reader<T>, lines: seq<T>, target: string) {
    DepthAfter(r, lines[..FindHeader(r, lines, target)], 0) == 0
  }

  predicate Heads<T>(r: Reader<T>, section: seq<T>, target: string) {
    |section| > 0 && IsTarget(r, section[0], target)
  }

  /** Index of the first section under the target's header, or the number of sections. */
  function FirstSection<T>(r: Reader<T>, cs: seq<seq<T>>, target: string): (k: nat)
    ensures k <= |cs| && (k < |cs| ==> Heads(r, cs[k], target))
    ensures forall i :: 0 <= i < k ==> !Heads(r, cs[i], target)
  {
    if |cs| == 0 || Heads(r, cs[0], target) then 0 else 1 + FirstSection(r, cs[1..], target)
  }

  /** The file's sections, ending in exactly one empty line unless the file is empty. */
  function Spaced<T(==)>(r: Reader<T>, cs: seq<seq<T>>): seq<seq<T>>
    requires |cs| > 0
  {
    var last := TrimEmpty(r, cs[|cs| - 1]);
    cs[|cs| - 1 := if |cs| == 1 && |last| == 0 then [] else last + [r.empty]]
  }

  /** One section replaced, its trailer kept; or one section more. */
  ghost function EditedSections<T>(r: Reader<T>, cs: seq<seq<T>>, target: string, block: seq<T>): seq<seq<T>>
    requires |cs| > 0
  {
    var k := FirstSection(r, cs, target);
    if k < |cs| then
      var kept := Trailer(r, cs[k][1..], 0);
      cs[k := block + Gap(r, kept, k + 1 < |cs|) + kept]
    else Spaced(r, cs) + [block]
  }

  /** What the sections are when the block is one, between those before it and those behind it. */
  ghost function Written<T>(r: Reader<T>, p: Place<T>, block: seq<T>): (cs: seq<seq<T>>)
    ensures |cs| > 1
  {
    Sections(r, p.before, 0) + [NewSection(r, p, block)] + Sections(r, p.rest, 0)[1..]
  }

  lemma NewIsSection<T(!new)>(r: Reader<T>, p: Place<T>, block: seq<T>, target: string)
    requires Sound(r) && WellFormed(r, block, target) && Inert(r, p.kept) && (|p.rest| > 0 ==> IsHeader(r, p.rest[0]))
    ensures Ends(r, NewSection(r, p, block), p.rest)
  {
    var gap := Gap(r, p.kept, |p.rest| > 0);
    var section := NewSection(r, p, block);
    assert section[0] == block[0] && section[1..] == block[1..] + gap + p.kept;
    assert Level(r, block[1..]) && Level(r, gap) && Level(r, p.kept);
    LevelKeepsDepth(r, section[1..], 0);
  }

  lemma {:induction false} SectionHeads<T>(r: Reader<T>, lines: seq<T>, depth: int, target: string)
    requires forall i :: 0 <= i < |lines| ==> !IsTarget(r, lines[i], target)
    ensures forall i :: 0 <= i < |Sections(r, lines, depth)| ==> !Heads(r, Sections(r, lines, depth)[i], target)
  {
    if |lines| > 0 {
      SectionHeads(r, lines[1..], Step(r, lines[0], depth), target);
    }
  }

  lemma FirstSectionIs<T>(r: Reader<T>, cs: seq<seq<T>>, k: nat, target: string)
    requires k <= |cs| && (k < |cs| ==> Heads(r, cs[k], target))
    requires forall i :: 0 <= i < k ==> !Heads(r, cs[i], target)
    ensures FirstSection(r, cs, target) == k
  {
  }

  /** The section replaced, in a file given as the sections around it. */
  lemma EditOfSection<T>(r: Reader<T>, cb: seq<seq<T>>, section: seq<T>, cr: seq<seq<T>>, target: string, block: seq<T>)
    requires |section| > 0 && FirstSection(r, cb + [section] + cr, target) == |cb|
    ensures var kept := Trailer(r, section[1..], 0);
            EditedSections(r, cb + [section] + cr, target, block) == cb + [block + Gap(r, kept, |cr| > 0) + kept] + cr
  {
    hide FirstSection, Trailer, Gap;
    assert (cb + [section] + cr)[|cb|] == section;
  }

  lemma RestCounts<T>(r: Reader<T>, rest: seq<T>)
    requires |rest| > 0 ==> IsHeader(r, rest[0])
    ensures |Sections(r, rest, 0)[1..]| > 0 <==> |rest| > 0
  {
  }

  /** When the section is found outside every array, one section is edited. */
  lemma ReplacedSections<T>(r: Reader<T>, lines: seq<T>, target: string, block: seq<T>)
    requires FindHeader(r, lines, target) < |lines| && Outside(r, lines, target)
    ensures Written(r, PlaceOf(r, lines, target), block) == EditedSections(r, Sections(r, lines, 0), target, block)
  {
    var start, h, stop := PlaceFound(r, lines, target);
    var before, section, rest := lines[..start], lines[start..h], lines[h..];
    assert section[0] == lines[start];
    assert Heads(r, section, target);
    hide *;
    SpanSplits(r, lines, start, h);
    OutsideAt(r, lines, target, start);
    SectionsAround(r, before, section, rest, target, block);
    KeptIs(lines, start, h, stop, Trailer(r, section[1..], 0));
  }

  lemma KeptIs<T>(lines: seq<T>, start: nat, h: nat, stop: nat, kept: seq<T>)
    requires start < stop <= h <= |lines| && |kept| == h - stop
    requires kept == lines[start..h][1..][|lines[start..h][1..]| - |kept|..]
    ensures kept == lines[stop..h]
  {
  }

  lemma SpanSplits<T>(r: Reader<T>, lines: seq<T>, start: nat, h: nat)
    requires Spans(r, lines, start, h)
    ensures lines == lines[..start] + lines[start..h] + lines[h..] && Ends(r, lines[start..h], lines[h..])
  {
  }

  lemma OutsideAt<T>(r: Reader<T>, lines: seq<T>, target: string, start: nat)
    requires start == FindHeader(r, lines, target)
    ensures Outside(r, lines, target) <==> DepthAfter(r, lines[..start], 0) == 0
    ensures forall i :: 0 <= i < start ==> !IsTarget(r, lines[..start][i], target)
  {
  }

  /** The sections around the target's, and the edit of it. */
  lemma SectionsAround<T>(r: Reader<T>, before: seq<T>, section: seq<T>, rest: seq<T>, target: string, block: seq<T>)
    requires DepthAfter(r, before, 0) == 0 && Ends(r, section, rest) && Heads(r, section, target)
    requires forall i :: 0 <= i < |before| ==> !IsTarget(r, before[i], target)
    ensures var p := Place(before, Trailer(r, section[1..], 0), rest);
            Written(r, p, block) == EditedSections(r, Sections(r, before + section + rest, 0), target, block)
  {
    var cb, cr := Sections(r, before, 0), Sections(r, rest, 0)[1..];
    WholeSection(r, before, section, rest);
    SectionHeads(r, before, 0, target);
    RestCounts(r, rest);
    hide Sections, DepthAfter, EditedSections, FirstSection, Trailer, Gap;
    HeadsAfter(r, cb, section, cr, target);
    EditOfSection(r, cb, section, cr, target, block);
  }

  lemma HeadsAfter<T>(r: Reader<T>, cb: seq<seq<T>>, section: seq<T>, cr: seq<seq<T>>, target: string)
    requires Heads(r, section, target) && forall i :: 0 <= i < |cb| ==> !Heads(r, cb[i], target)
    ensures FirstSection(r, cb + [section] + cr, target) == |cb|
  {
    var cs := cb + [section] + cr;
    assert forall i :: 0 <= i < |cb| ==> cs[i] == cb[i];
    FirstSectionIs(r, cs, |cb|, target);
  }

  // ---- empty lines at the end ------------------------------------------------------------------------------

  lemma {:induction false} TrimSplit<T>(r: Reader<T>, lines: seq<T>)
    ensures forall i :: |TrimEmpty(r, lines)| <= i < |lines| ==> lines[i] == r.empty
  {
    if |lines| > 0 && lines[|lines| - 1] == r.empty { TrimSplit(r, lines[..|lines| - 1]); }
  }

  lemma {:induction false} TrimEmpties<T>(r: Reader<T>, a: seq<T>, empties: seq<T>)
    requires forall i :: 0 <= i < |empties| ==> empties[i] == r.empty
    ensures TrimEmpty(r, a + empties) == TrimEmpty(r, a)
  {
    if |empties| == 0 {
      assert a + empties == a;
    } else {
      assert (a + empties)[..|a + empties| - 1] == a + empties[..|empties| - 1];
      TrimEmpties(r, a, empties[..|empties| - 1]);
    }
  }

  /** The sections without the empty lines at the very end of the file. */
  function TrimLast<T(==)>(r: Reader<T>, cs: seq<seq<T>>): (t: seq<seq<T>>)
    requires |cs| > 0
    ensures |t| == |cs|
  {
    cs[|cs| - 1 := TrimEmpty(r, cs[|cs| - 1])]
  }

  lemma LastSection<T>(r: Reader<T>, lines: seq<T>)
    requires |lines| > 0
    ensures var last := Sections(r, lines, 0)[|Sections(r, lines, 0)| - 1];
            |last| > 0 && last[|last| - 1] == lines[|lines| - 1]
  {
    var init, x := lines[..|lines| - 1], lines[|lines| - 1];
    SectionsConcat(r, init, [x], 0);
    assert lines == init + [x] && [x][1..] == [];
  }

  /** Empty lines at the end open no section and no array. */
  lemma AddEmpties<T(!new)>(r: Reader<T>, base: seq<T>, empties: seq<T>)
    requires Sound(r) && forall i :: 0 <= i < |empties| ==> empties[i] == r.empty
    ensures var cb := Sections(r, base, 0); Sections(r, base + empties, 0) == cb[|cb| - 1 := cb[|cb| - 1] + empties]
    ensures DepthAfter(r, base + empties, 0) == DepthAfter(r, base, 0)
  {
    SectionsConcat(r, base, empties, 0);
    DepthConcat(r, base, empties, 0);
    DepthNonNegative(r, base, 0);
    assert Level(r, empties);
    LevelKeepsDepth(r, empties, DepthAfter(r, base, 0));
    SectionsOfFree(r, empties, DepthAfter(r, base, 0));
  }

  lemma LastIsTrimmed<T>(r: Reader<T>, base: seq<T>)
    requires TrimEmpty(r, base) == base
    ensures var last := Sections(r, base, 0)[|Sections(r, base, 0)| - 1]; TrimEmpty(r, last) == last
  {
    if |base| > 0 { LastSection(r, base); }
  }

  lemma TrimLastOf<T>(r: Reader<T>, cs: seq<seq<T>>, longer: seq<T>, last: seq<T>)
    requires |cs| > 0 && TrimEmpty(r, longer) == last
    ensures TrimLast(r, cs[|cs| - 1 := longer]) == cs[|cs| - 1 := last]
  {
  }

  lemma SectionsOfTrimmed<T(!new)>(r: Reader<T>, lines: seq<T>)
    requires Sound(r)
    ensures Sections(r, TrimEmpty(r, lines), 0) == TrimLast(r, Sections(r, lines, 0))
    ensures DepthAfter(r, TrimEmpty(r, lines), 0) == DepthAfter(r, lines, 0)
  {
    var base := TrimEmpty(r, lines);
    var empties, cb := lines[|base|..], Sections(r, base, 0);
    TrimSplit(r, lines);
    assert lines == base + empties;
    LastIsTrimmed(r, base);
    hide *;
    AddEmpties(r, base, empties);
    var last := cb[|cb| - 1];
    TrimEmpties(r, last, empties);
    assert cb == cb[|cb| - 1 := last];
    TrimLastOf(r, cb, last + empties, last);
  }

  lemma SpacedSections<T(!new)>(r: Reader<T>, lines: seq<T>)
    requires Sound(r)
    ensures var base := TrimEmpty(r, lines);
            var before := if |base| == 0 then [] else base + [r.empty];
            Sections(r, before, 0) == Spaced(r, Sections(r, lines, 0)) && DepthAfter(r, before, 0) == DepthAfter(r, lines, 0)
  {
    var base, cs := TrimEmpty(r, lines), Sections(r, lines, 0);
    SectionsOfTrimmed(r, lines);
    if |base| > 0 {
      LastSection(r, base);
      hide Sections, TrimEmpty, DepthAfter;
      AddEmpties(r, base, [r.empty]);
    }
  }

  lemma AppendedSections<T(!new)>(r: Reader<T>, lines: seq<T>, target: string, block: seq<T>)
    requires Sound(r) && FindHeader(r, lines, target) == |lines|
    ensures Written(r, PlaceOf(r, lines, target), block) == EditedSections(r, Sections(r, lines, 0), target, block)
  {
    var cs, p := Sections(r, lines, 0), PlaceOf(r, lines, target);
    SectionHeads(r, lines, 0, target);
    FirstSectionIs(r, cs, |cs|, target);
    SpacedSections(r, lines);
    assert p.kept == [] && p.rest == [] && Sections(r, p.rest, 0)[1..] == [];
    assert block + [] + [] == block;
  }

  /** The depth where the block goes. */
  lemma OutsideIs<T(!new)>(r: Reader<T>, lines: seq<T>, target: string)
    requires Sound(r)
    ensures Outside(r, lines, target) <==> DepthAfter(r, PlaceOf(r, lines, target).before, 0) == 0
  {
    SpacedSections(r, lines);
    assert lines[..|lines|] == lines;
  }

  // ---- what the edit does to the sections -----------------------------------------------------------------

  /** Inside an array, the block is part of the section that the array is in. */
  lemma InArrayJoins<T(!new)>(r: Reader<T>, before: seq<T>, section: seq<T>, rest: seq<T>, cr: seq<seq<T>>)
    requires Sound(r) && DepthAfter(r, before, 0) != 0 && |section| > 0 && IsHeader(r, section[0])
    ensures TrimLast(r, Sections(r, before + section + rest, 0)) != TrimLast(r, Sections(r, before, 0) + [section] + cr)
  {
    var cb, y := Sections(r, before, 0), Sections(r, section + rest, DepthAfter(r, before, 0));
    assert before + section + rest == before + (section + rest);
    assert (section + rest)[0] == section[0];
    SectionsConcat(r, before, section + rest, 0);
    assert |y[0]| > 0 && y[0][0] == section[0] && section[0] != r.empty;
    hide Sections, DepthAfter;
    var k := |cb| - 1;
    var joined := cb[k] + y[0];
    assert Glue(cb, y)[k] == joined && joined[|cb[k]|] == section[0];
    TrimSplit(r, joined);
    assert TrimLast(r, cb + [section] + cr)[k] == cb[k];
    assert |TrimLast(r, Glue(cb, y))[k]| > |cb[k]|;
  }

  /**
   * The editor writes one section and leaves the others as they are, empty lines at the end aside, if and only if no array is
   * open where the block goes.
   */
  lemma UpsertSections<T(!new)>(r: Reader<T>, lines: seq<T>, target: string, block: seq<T>)
    requires Sound(r) && WellFormed(r, block, target)
    ensures var edited, p := UpsertLines(r, lines, target, block), PlaceOf(r, lines, target);
            && (Outside(r, lines, target) <==> TrimLast(r, Sections(r, edited, 0)) == TrimLast(r, Written(r, p, block)))
            && (Outside(r, lines, target) ==>
                  Sections(r, edited, 0) == Written(r, p, block) == EditedSections(r, Sections(r, lines, 0), target, block))
  {
    var p := PlaceOf(r, lines, target);
    PlaceIs(r, lines, target);
    NewIsSection(r, p, block, target);
    var section := NewSection(r, p, block);
    assert |section| > 0 && IsHeader(r, section[0]);
    hide *;
    UpsertFrame(r, lines, target, block);
    OutsideIs(r, lines, target);
    WrittenIs(r, p, block);
    if Outside(r, lines, target) {
      WholeSection(r, p.before, section, p.rest);
      EditedOrAppended(r, lines, target, block);
    } else {
      InArrayJoins(r, p.before, section, p.rest, Sections(r, p.rest, 0)[1..]);
    }
  }

  lemma WrittenIs<T>(r: Reader<T>, p: Place<T>, block: seq<T>)
    ensures Written(r, p, block) == Sections(r, p.before, 0) + [NewSection(r, p, block)] + Sections(r, p.rest, 0)[1..]
  {
  }

  lemma EditedOrAppended<T(!new)>(r: Reader<T>, lines: seq<T>, target: string, block: seq<T>)
    requires Sound(r) && Outside(r, lines, target)
    ensures Written(r, PlaceOf(r, lines, target), block) == EditedSections(r, Sections(r, lines, 0), target, block)
  {
    if FindHeader(r, lines, target) < |lines| {
      ReplacedSections(r, lines, target, block);
    } else {
      AppendedSections(r, lines, target, block);
    }
  }

  // ---- two files ---------------------------------------------------------------------------------------

  /** Rows of an array that look like headers are no headers: the section after them is kept. */
  lemma ArrayRowsLoseNothing<T(!new)>(r: Reader<T>, header: T, open: T, row: T, close: T, next: T, target: string, block: seq<T>)
    requires Sound(r) && IsTarget(r, header, target) && IsHeader(r, next)
    requires !IsHeader(r, open) && Delta(r, open) == 1
    requires IsHeader(r, row) && Delta(r, row) == 0
    requires !IsHeader(r, close) && Delta(r, close) == -1
    ensures UpsertLines(r, [header, open, row, close, next], target, block) == block + [r.empty] + [next]
  {
    var lines := [header, open, row, close, next];
    assert lines[1..] == [open, row, close, next] && lines[1..][1..] == [row, close, next];
    assert lines[1..][1..][1..] == [close, next] && lines[1..][1..][1..][1..] == [next] && [next][1..] == [];
    assert BodyEnd(r, lines, 4, 0, 4) == 4;
    assert BodyEnd(r, lines, 2, 1, 2) == BodyEnd(r, lines, 3, 1, 3) == 4;
    assert BodyEnd(r, lines, 1, 0, 1) == 4;
    assert lines[..0] + block + [r.empty] + lines[4..] == block + [r.empty] + [next];
  }

  lemma ArrayRowsAreOneSection<T>(r: Reader<T>, header: T, open: T, row: T, close: T, next: T)
    requires IsHeader(r, header) && IsHeader(r, next)
    requires !IsHeader(r, open) && Delta(r, open) == 1
    requires IsHeader(r, row) && Delta(r, row) == 0
    requires !IsHeader(r, close) && Delta(r, close) == -1
    ensures Sections(r, [header, open, row, close, next], 0) == [[], [header, open, row, close], [next]]
  {
    var section := [header, open, row, close];
    assert section[1..] == [open, row, close] && [open, row, close][1..] == [row, close] && [row, close][1..] == [close];
    assert [close][1..] == [];
    assert TopFree(r, [row, close], 1) && DepthAfter(r, [row, close], 1) == 0 by {
      assert TopFree(r, [close], 1) && DepthAfter(r, [close], 1) == 0;
    }
    WholeSection(r, [], section, [next]);
    assert [] + section + [next] == [header, open, row, close, next];
    assert [next][1..] == [] && [next] + [] == [next];
    assert Sections(r, [next], 0) == [[], [next]] && Sections(r, [], 0) == [[]];
  }

  /** A file on which the promise fails: the section's array never closes, and the section after it is gone. */
  lemma OpenArrayLosesTheNext<T(!new)>(r: Reader<T>, header: T, open: T, next: T, target: string, block: seq<T>)
    requires IsTarget(r, header, target) && IsHeader(r, next)
    requires !IsHeader(r, open) && IsContent(r, open) && Delta(r, open) > 0
    ensures UpsertLines(r, [header, open, next], target, block) == block
  {
    var lines := [header, open, next];
    assert BodyEnd(r, lines, 2, Delta(r, open), 2) == BodyEnd(r, lines, 3, Max0(Delta(r, open) + Delta(r, next)), 3) == 3;
    assert BodyEnd(r, lines, 1, 0, 1) == 3;
    assert lines[..0] + block + [] + lines[3..] == block;
  }

  /** A file whose array never closes, and without the section: the block is appended, and is no section of its own. */
  lemma OpenArrayTakesTheBlock<T(!new)>(r: Reader<T>, open: T, target: string, block: seq<T>)
    requires Sound(r) && WellFormed(r, block, target)
    requires !IsHeader(r, open) && Delta(r, open) > 0
    ensures UpsertLines(r, [open], target, block) == [open, r.empty] + block && !Outside(r, [open], target)
  {
    var lines := [open];
    assert lines[1..] == [] && lines[..1] == lines;
    assert FindHeader(r, lines, target) == 1 && DepthAfter(r, lines, 0) == DepthAfter(r, [], Delta(r, open));
    assert open != r.empty;
    assert [open] + [r.empty] == [open, r.empty];
  }
}
