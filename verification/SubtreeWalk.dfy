/** The bounded search for sockets and devices under a mount (membrane/launcher.py). */
module SubtreeWalk {
  import opened Base
  import opened Text

  const MAX_SUBTREE_ENTRIES: nat := 50000
  const MAX_SUBTREE_DEPTH: nat := 64

  /** What an entry is without following it. */
  datatype Kind = Symlink | Uninspectable | Socket | Device | Directory | Plain

  datatype Entry = Entry(path: string, kind: Kind)

  /** A directory's entries in scan order, and whether opening it or scanning on past them raised. */
  datatype Listing = Listing(entries: seq<Entry>, raises: bool)

  /** The file system may be infinite, and directories may contain each other. */
  type FileSystem = string -> Listing

  datatype Reason = TooDeep | TooMany | CannotInspect(path: string) | HasSocket(path: string) | HasDevice(path: string) | CannotList

  // ---- the tree, by recursion on the depth left ------------------------------

  /** No special, uninspectable or unlistable node, and no directory below the depth cap. */
  predicate TreeClean(fs: FileSystem, dir: string, depth: nat)
    decreases MAX_SUBTREE_DEPTH + 1 - depth, 1, 0
  {
    depth <= MAX_SUBTREE_DEPTH && !fs(dir).raises && EntriesClean(fs, fs(dir).entries, depth)
  }

  predicate EntriesClean(fs: FileSystem, es: seq<Entry>, depth: nat)
    requires depth <= MAX_SUBTREE_DEPTH
    decreases MAX_SUBTREE_DEPTH + 1 - depth, 0, |es|
  {
    |es| == 0 || (EntryClean(fs, es[0], depth) && EntriesClean(fs, es[1..], depth))
  }

  predicate EntryClean(fs: FileSystem, e: Entry, depth: nat)
    requires depth <= MAX_SUBTREE_DEPTH
    decreases MAX_SUBTREE_DEPTH + 1 - depth, 0, 0
  {
    match e.kind
    case Symlink => true
    case Plain => true
    case Directory => TreeClean(fs, e.path, depth + 1)
    case _ => false
  }

  /** Entries of the tree, not following symlinks and not looking below the depth cap. */
  function Count(fs: FileSystem, dir: string, depth: nat): nat
    decreases MAX_SUBTREE_DEPTH + 1 - depth, 1, 0
  {
    if depth <= MAX_SUBTREE_DEPTH then EntriesCount(fs, fs(dir).entries, depth) else 0
  }

  function EntriesCount(fs: FileSystem, es: seq<Entry>, depth: nat): nat
    requires depth <= MAX_SUBTREE_DEPTH
    decreases MAX_SUBTREE_DEPTH + 1 - depth, 0, |es|
  {
    if |es| == 0 then 0
    else 1 + (if es[0].kind.Directory? then Count(fs, es[0].path, depth + 1) else 0) + EntriesCount(fs, es[1..], depth)
  }

  // ---- the stack -----------------------------------------------------------

  type Stack = seq<(string, nat)>

  predicate StackClean(fs: FileSystem, stack: Stack) {
    |stack| == 0 || (TreeClean(fs, stack[|stack| - 1].0, stack[|stack| - 1].1) && StackClean(fs, stack[..|stack| - 1]))
  }

  function StackCount(fs: FileSystem, stack: Stack): nat {
    if |stack| == 0 then 0
    else Count(fs, stack[|stack| - 1].0, stack[|stack| - 1].1) + StackCount(fs, stack[..|stack| - 1])
  }

  lemma Pushed(fs: FileSystem, stack: Stack, dir: string, depth: nat)
    ensures StackClean(fs, stack + [(dir, depth)]) <==> TreeClean(fs, dir, depth) && StackClean(fs, stack)
    ensures StackCount(fs, stack + [(dir, depth)]) == Count(fs, dir, depth) + StackCount(fs, stack)
  {
    assert (stack + [(dir, depth)])[..|stack|] == stack;
  }

  /** `dir` is a directory `n` levels below `root`, reached without following a symlink. */
  ghost predicate Below(fs: FileSystem, root: string, dir: string, n: nat)
    decreases n
  {
    if n == 0 then dir == root
    else exists parent :: Below(fs, root, parent, n - 1) && Entry(dir, Directory) in fs(parent).entries
  }

  ghost predicate AllBelow(fs: FileSystem, root: string, stack: Stack) {
    forall i :: 0 <= i < |stack| ==> Below(fs, root, stack[i].0, stack[i].1)
  }

  ghost predicate Found(fs: FileSystem, root: string, e: Entry) {
    exists dir: string, n: nat :: n <= MAX_SUBTREE_DEPTH && Below(fs, root, dir, n) && e in fs(dir).entries
  }

  /** What a refusal says is so. */
  ghost predicate Truthful(fs: FileSystem, root: string, r: Reason) {
    match r
    case TooDeep => exists dir: string, n: nat :: n > MAX_SUBTREE_DEPTH && Below(fs, root, dir, n)
    case TooMany => Count(fs, root, 0) > MAX_SUBTREE_ENTRIES
    case CannotInspect(p) => Found(fs, root, Entry(p, Uninspectable))
    case HasSocket(p) => Found(fs, root, Entry(p, Socket))
    case HasDevice(p) => Found(fs, root, Entry(p, Device))
    case CannotList => exists dir: string, n: nat :: Below(fs, root, dir, n) && fs(dir).raises
  }

  /** What is still to be decided while one directory is scanned from entry `i` on. */
  ghost predicate Undecided(fs: FileSystem, es: seq<Entry>, raises: bool, depth: nat, stack: Stack, entries: nat)
    requires depth <= MAX_SUBTREE_DEPTH
  {
    && !raises && EntriesClean(fs, es, depth) && StackClean(fs, stack)
    && entries + EntriesCount(fs, es, depth) + StackCount(fs, stack) <= MAX_SUBTREE_ENTRIES
  }

  ghost predicate Acceptable(fs: FileSystem, stack: Stack, entries: nat) {
    StackClean(fs, stack) && entries + StackCount(fs, stack) <= MAX_SUBTREE_ENTRIES
  }

  /** One entry moves from the listing to the counter, and a directory to the stack. */
  lemma ScannedOne(fs: FileSystem, es: seq<Entry>, raises: bool, depth: nat, stack: Stack, entries: nat)
    requires depth <= MAX_SUBTREE_DEPTH && |es| > 0
    ensures es[0].kind.Directory? ==>
      (Undecided(fs, es, raises, depth, stack, entries)
       <==> Undecided(fs, es[1..], raises, depth, stack + [(es[0].path, depth + 1)], entries + 1))
    ensures es[0].kind.Symlink? || es[0].kind.Plain? ==>
      (Undecided(fs, es, raises, depth, stack, entries) <==> Undecided(fs, es[1..], raises, depth, stack, entries + 1))
    ensures es[0].kind.Uninspectable? || es[0].kind.Socket? || es[0].kind.Device? ==>
      !Undecided(fs, es, raises, depth, stack, entries)
    ensures entries + 1 > MAX_SUBTREE_ENTRIES ==> !Undecided(fs, es, raises, depth, stack, entries)
  {
    FirstEntry(fs, es, depth);
    hide EntriesClean, EntriesCount, TreeClean, Count;
    Pushed(fs, stack, es[0].path, depth + 1);
  }

  lemma FirstEntry(fs: FileSystem, es: seq<Entry>, depth: nat)
    requires depth <= MAX_SUBTREE_DEPTH && |es| > 0
    ensures EntriesClean(fs, es, depth) <==>
      && EntriesClean(fs, es[1..], depth)
      && !es[0].kind.Uninspectable? && !es[0].kind.Socket? && !es[0].kind.Device?
      && (es[0].kind.Directory? ==> TreeClean(fs, es[0].path, depth + 1))
    ensures EntriesCount(fs, es, depth)
      == 1 + (if es[0].kind.Directory? then Count(fs, es[0].path, depth + 1) else 0) + EntriesCount(fs, es[1..], depth)
  {
    assert EntriesClean(fs, es, depth) <==> EntryClean(fs, es[0], depth) && EntriesClean(fs, es[1..], depth);
  }

  /**
   * The search with an explicit stack. It answers None exactly when the whole tree is clean and within the caps, and it
   * terminates on any file system: each entry pays for the directory it may push.
   */
  method SubtreeSpecialFileReason(fs: FileSystem, root: string) returns (r: Option<Reason>)
    ensures r.None? <==> TreeClean(fs, root, 0) && Count(fs, root, 0) <= MAX_SUBTREE_ENTRIES
    ensures r.Some? ==> Truthful(fs, root, r.value)
  {
    hide TreeClean, Count, StackClean, StackCount, EntriesClean, EntriesCount, Below, Found;
    var entries := 0;
    var stack: Stack := [(root, 0)];
    StartsAt(fs, root);
    while |stack| > 0
      invariant entries <= MAX_SUBTREE_ENTRIES
      invariant TreeClean(fs, root, 0) && Count(fs, root, 0) <= MAX_SUBTREE_ENTRIES <==> Acceptable(fs, stack, entries)
      invariant entries + StackCount(fs, stack) == Count(fs, root, 0)
      invariant AllBelow(fs, root, stack)
      decreases 2 * (MAX_SUBTREE_ENTRIES - entries) + |stack|
    {
      var (current, depth) := stack[|stack| - 1];
      assert stack == stack[..|stack| - 1] + [(current, depth)];
      stack := stack[..|stack| - 1];
      Pushed(fs, stack, current, depth);
      if depth > MAX_SUBTREE_DEPTH {
        DepthRefuses(fs, current, depth);
        return Some(TooDeep);
      }
      OpenDirectory(fs, current, depth, stack, entries);
      var verdict;
      verdict, stack, entries := ScanDirectory(fs, root, current, depth, stack, entries);
      if verdict.Some? {
        return verdict;
      }
    }
    NothingLeft(fs);
    r := None;
  }

  lemma StartsAt(fs: FileSystem, root: string)
    ensures TreeClean(fs, root, 0) && Count(fs, root, 0) <= MAX_SUBTREE_ENTRIES <==> Acceptable(fs, [(root, 0)], 0)
    ensures AllBelow(fs, root, [(root, 0)]) && StackCount(fs, [(root, 0)]) == Count(fs, root, 0)
  {
    assert [] + [(root, 0)] == [(root, 0)];
    NothingLeft(fs);
    Pushed(fs, [], root, 0);
  }

  lemma NothingLeft(fs: FileSystem)
    ensures StackClean(fs, []) && StackCount(fs, []) == 0
  {
  }

  lemma DepthRefuses(fs: FileSystem, dir: string, depth: nat)
    requires depth > MAX_SUBTREE_DEPTH
    ensures !TreeClean(fs, dir, depth)
  {
  }

  lemma OpenDirectory(fs: FileSystem, dir: string, depth: nat, stack: Stack, entries: nat)
    requires depth <= MAX_SUBTREE_DEPTH
    ensures Acceptable(fs, stack + [(dir, depth)], entries)
      <==> Undecided(fs, fs(dir).entries, fs(dir).raises, depth, stack, entries)
    ensures Count(fs, dir, depth) == EntriesCount(fs, fs(dir).entries, depth)
  {
    hide EntriesClean, EntriesCount;
    Pushed(fs, stack, dir, depth);
  }

  /** The inner loop: a directory may raise after any number of entries, which is found out last. */
  method ScanDirectory(fs: FileSystem, root: string, dir: string, depth: nat, start: Stack, before: nat)
    returns (r: Option<Reason>, stack: Stack, entries: nat)
    requires depth <= MAX_SUBTREE_DEPTH && before <= MAX_SUBTREE_ENTRIES
    requires Below(fs, root, dir, depth) && AllBelow(fs, root, start)
    requires before + EntriesCount(fs, fs(dir).entries, depth) + StackCount(fs, start) == Count(fs, root, 0)
    ensures r.Some? ==> !Undecided(fs, fs(dir).entries, fs(dir).raises, depth, start, before) && Truthful(fs, root, r.value)
    ensures r.None? ==>
      && (Undecided(fs, fs(dir).entries, fs(dir).raises, depth, start, before) <==> Acceptable(fs, stack, entries))
      && AllBelow(fs, root, stack) && before <= entries <= MAX_SUBTREE_ENTRIES
      && |stack| - |start| <= entries - before
      && entries + StackCount(fs, stack) == Count(fs, root, 0)
  {
    hide Undecided, Acceptable, Below, EntriesCount, StackCount, Count, Found;
    var es, raises := fs(dir).entries, fs(dir).raises;
    stack, entries := start, before;
    for i := 0 to |es|
      invariant before <= entries <= MAX_SUBTREE_ENTRIES && |stack| - |start| <= entries - before
      invariant AllBelow(fs, root, stack)
      invariant entries + EntriesCount(fs, es[i..], depth) + StackCount(fs, stack) == Count(fs, root, 0)
      invariant Undecided(fs, es, raises, depth, start, before) <==> Undecided(fs, es[i..], raises, depth, stack, entries)
    {
      var e := es[i];
      assert es[i..][0] == e && es[i..][1..] == es[i + 1..];
      ScannedOne(fs, es[i..], raises, depth, stack, entries);
      FirstEntry(fs, es[i..], depth);
      Pushed(fs, stack, e.path, depth + 1);
      FoundHere(fs, root, dir, depth, e);
      entries := entries + 1;
      if entries > MAX_SUBTREE_ENTRIES {
        return Some(TooMany), stack, entries;
      }
      match e.kind {
        case Symlink =>
        case Uninspectable =>
          assert e == Entry(e.path, Uninspectable);
          return Some(CannotInspect(e.path)), stack, entries;
        case Socket =>
          assert e == Entry(e.path, Socket);
          return Some(HasSocket(e.path)), stack, entries;
        case Device =>
          assert e == Entry(e.path, Device);
          return Some(HasDevice(e.path)), stack, entries;
        case Directory =>
          ChildBelow(fs, root, dir, depth, e);
          stack := stack + [(e.path, depth + 1)];
        case Plain =>
      }
    }
    assert es[|es|..] == [];
    ScannedAll(fs, raises, depth, stack, entries);
    if raises {
      return Some(CannotList), stack, entries;
    }
    r := None;
  }

  lemma FoundHere(fs: FileSystem, root: string, dir: string, depth: nat, e: Entry)
    requires depth <= MAX_SUBTREE_DEPTH && Below(fs, root, dir, depth) && e in fs(dir).entries
    ensures Found(fs, root, e)
  {
  }

  lemma ChildBelow(fs: FileSystem, root: string, dir: string, depth: nat, e: Entry)
    requires Below(fs, root, dir, depth) && e in fs(dir).entries && e.kind == Directory
    ensures Below(fs, root, e.path, depth + 1)
  {
    assert e == Entry(e.path, Directory);
  }

  lemma ScannedAll(fs: FileSystem, raises: bool, depth: nat, stack: Stack, entries: nat)
    requires depth <= MAX_SUBTREE_DEPTH
    ensures Undecided(fs, [], raises, depth, stack, entries) <==> !raises && Acceptable(fs, stack, entries)
    ensures EntriesCount(fs, [], depth) == 0
  {
  }

  /** A directory that contains itself is refused: the depth cap ends the descent. */
  lemma {:induction false} CycleIsRefused(fs: FileSystem, dir: string, depth: nat)
    requires Entry(dir, Directory) in fs(dir).entries
    ensures !TreeClean(fs, dir, depth)
    decreases MAX_SUBTREE_DEPTH + 1 - depth
  {
    if depth <= MAX_SUBTREE_DEPTH {
      CycleIsRefused(fs, dir, depth + 1);
      MemberSpoils(fs, fs(dir).entries, depth, Entry(dir, Directory));
    }
  }

  lemma {:induction false} MemberSpoils(fs: FileSystem, es: seq<Entry>, depth: nat, e: Entry)
    requires depth <= MAX_SUBTREE_DEPTH && e in es && !EntryClean(fs, e, depth)
    ensures !EntriesClean(fs, es, depth)
    decreases |es|
  {
    if es[0] != e {
      assert es == [es[0]] + es[1..];
      MemberSpoils(fs, es[1..], depth, e);
    }
  }

  // ---- its use on mounts ---------------------------------------------------

  datatype Mount = Mount(source: string, target: string, readOnly: bool)

  /** The host's answers about paths; a resolution that raises is None. Resolved paths are lists of components. */
  datatype Host = Host(
    resolve: string -> Option<seq<string>>,
    dangerous: seq<string> -> bool,
    isDir: seq<string> -> bool,
    name: seq<string> -> string,
    fs: FileSystem)

  predicate PlainTarget(target: string) {
    ':' !in target && target != "" && target[0] == '/'
  }

  predicate IsWithin(child: seq<string>, parent: seq<string>) {
    parent <= child
  }

  /** A mount is accepted when its source resolves inside the root and its whole subtree is verified. */
  predicate MountOk(h: Host, root: string, m: Mount) {
    && PlainTarget(m.target)
    && h.resolve(m.source).Some? && h.resolve(root).Some?
    && var source := h.resolve(m.source).value;
       && !h.dangerous(source) && IsWithin(source, h.resolve(root).value)
       && (h.isDir(source) ==>
             TreeClean(h.fs, h.name(source), 0) && Count(h.fs, h.name(source), 0) <= MAX_SUBTREE_ENTRIES)
  }

  function Resolved(h: Host): Mount -> Mount {
    (m: Mount) => match h.resolve(m.source) case Some(path) => m.(source := h.name(path)) case None => m
  }

  /** All mounts or none; the path that was checked is the path that is mounted. */
  method ValidateMounts(h: Host, root: string, mounts: seq<Mount>) returns (r: Result<seq<Mount>, ()>)
    ensures r.Ok? <==> forall m :: m in mounts ==> MountOk(h, root, m)
    ensures r.Ok? ==> r.value == Map(mounts, Resolved(h))
  {
    hide TreeClean, Count, Map;
    MapNothing(Resolved(h));
    var resolved: seq<Mount> := [];
    for i := 0 to |mounts|
      invariant forall m :: m in mounts[..i] ==> MountOk(h, root, m)
      invariant resolved == Map(mounts[..i], Resolved(h))
    {
      var m := mounts[i];
      assert m in mounts && mounts[..i + 1] == mounts[..i] + [m];
      if !PlainTarget(m.target) { return Err(()); }
      var source, top := h.resolve(m.source), h.resolve(root);
      if source.None? || top.None? { return Err(()); }
      if h.dangerous(source.value) { return Err(()); }
      if !IsWithin(source.value, top.value) { return Err(()); }
      if h.isDir(source.value) {
        var reason := SubtreeSpecialFileReason(h.fs, h.name(source.value));
        if reason.Some? { return Err(()); }
      }
      MapSnoc(mounts[..i], m, Resolved(h));
      resolved := resolved + [m.(source := h.name(source.value))];
    }
    assert mounts[..|mounts|] == mounts;
    r := Ok(resolved);
  }
}
