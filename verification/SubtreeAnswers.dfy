/** What the mount check accepts, node by node (membrane/launcher.py). */
module SubtreeAnswers {
  import opened Base
  import opened SubtreeWalk

  /** A directory that can be listed, and holds only links, plain files and directories. */
  predicate Harmless(fs: FileSystem, dir: string) {
    && !fs(dir).raises
    && forall i :: 0 <= i < |fs(dir).entries| ==> fs(dir).entries[i].kind in {Symlink, Plain, Directory}
  }

  lemma {:induction false} EntriesMean(fs: FileSystem, es: seq<Entry>, depth: nat)
    requires depth <= MAX_SUBTREE_DEPTH
    ensures EntriesClean(fs, es, depth) <==> forall i :: 0 <= i < |es| ==> EntryClean(fs, es[i], depth)
    decreases |es|
  {
    hide EntryClean;
    if |es| != 0 {
      EntriesMean(fs, es[1..], depth);
      assert forall i :: 1 <= i < |es| ==> es[i] == es[1..][i - 1];
    }
  }

  /** In a clean tree every directory below is harmless, and none is below the cap. */
  lemma {:induction false} CleanBelow(fs: FileSystem, root: string, dir: string, n: nat)
    requires TreeClean(fs, root, 0) && Below(fs, root, dir, n)
    ensures n <= 64 && TreeClean(fs, dir, n)
    decreases n
  {
    if n > 0 {
      var parent :| Below(fs, root, parent, n - 1) && Entry(dir, Directory) in fs(parent).entries;
      CleanBelow(fs, root, parent, n - 1);
      EntriesMean(fs, fs(parent).entries, n - 1);
      var i :| 0 <= i < |fs(parent).entries| && fs(parent).entries[i] == Entry(dir, Directory);
      assert EntryClean(fs, fs(parent).entries[i], n - 1);
    }
  }

  lemma CleanIsHarmless(fs: FileSystem, dir: string, depth: nat)
    requires TreeClean(fs, dir, depth)
    ensures Harmless(fs, dir)
  {
    EntriesMean(fs, fs(dir).entries, depth);
    forall i | 0 <= i < |fs(dir).entries|
      ensures fs(dir).entries[i].kind in {Symlink, Plain, Directory}
    {
      assert EntryClean(fs, fs(dir).entries[i], depth);
    }
  }

  /** No directory that can be reached without following a link is deeper than 64, and each is harmless. */
  ghost predicate AllHarmless(fs: FileSystem, root: string) {
    forall dir: string, n: nat :: Below(fs, root, dir, n) ==> n <= 64 && Harmless(fs, dir)
  }

  /** A directory from which the tree is clean, when everything below the root is harmless and within the cap. */
  lemma {:induction false} HarmlessIsClean(fs: FileSystem, root: string, dir: string, n: nat)
    requires AllHarmless(fs, root) && Below(fs, root, dir, n)
    ensures n <= 64 && TreeClean(fs, dir, n)
    decreases 65 - n
  {
    assert n <= 64 && Harmless(fs, dir);
    var es := fs(dir).entries;
    forall i | 0 <= i < |es|
      ensures EntryClean(fs, es[i], n)
    {
      assert es[i].kind in {Symlink, Plain, Directory};
      if es[i].kind == Directory {
        assert es[i] == Entry(es[i].path, Directory) && es[i] in es;
        assert Below(fs, root, es[i].path, n + 1);
        HarmlessIsClean(fs, root, es[i].path, n + 1);
      }
    }
    EntriesMean(fs, es, n);
  }

  /**
   * The tree is clean exactly when no directory that can be reached without following a link is deeper than 64, none raises
   * when listed, and none holds a socket, a device or an entry that cannot be inspected.
   */
  lemma CleanMeans(fs: FileSystem, root: string)
    ensures TreeClean(fs, root, 0) <==> AllHarmless(fs, root)
  {
    if TreeClean(fs, root, 0) {
      forall dir: string, n: nat | Below(fs, root, dir, n)
        ensures n <= 64 && Harmless(fs, dir)
      {
        CleanBelow(fs, root, dir, n);
        CleanIsHarmless(fs, dir, n);
      }
    }
    if AllHarmless(fs, root) {
      assert Below(fs, root, root, 0);
      HarmlessIsClean(fs, root, root, 0);
    }
  }

  /** What is counted: each entry once, and what its directory holds. */
  lemma {:induction false} CountMeans(fs: FileSystem, a: seq<Entry>, b: seq<Entry>, e: Entry, depth: nat)
    requires depth <= MAX_SUBTREE_DEPTH
    ensures EntriesCount(fs, [], depth) == 0
    ensures EntriesCount(fs, [e], depth)
      == 1 + if e.kind == Directory && depth < 64 then EntriesCount(fs, fs(e.path).entries, depth + 1) else 0
    ensures EntriesCount(fs, a + b, depth) == EntriesCount(fs, a, depth) + EntriesCount(fs, b, depth)
    decreases |a|
  {
    assert [e][1..] == [];
    if |a| == 0 {
      assert a + b == b;
    } else {
      assert (a + b)[0] == a[0] && (a + b)[1..] == a[1..] + b;
      CountMeans(fs, a[1..], b, e, depth);
    }
  }

  /**
   * A mount is accepted exactly when its target is an absolute path without a colon, its source resolves, not to a dangerous
   * path, inside the resolved root, and, when it is a directory, its tree is clean and has at most 50000 entries.
   */
  lemma MountMeans(h: Host, root: string, m: Mount)
    ensures MountOk(h, root, m) <==>
              && "/" <= m.target && ':' !in m.target
              && h.resolve(m.source).Some? && h.resolve(root).Some?
              && !h.dangerous(h.resolve(m.source).value) && h.resolve(root).value <= h.resolve(m.source).value
              && (h.isDir(h.resolve(m.source).value) ==>
                    && AllHarmless(h.fs, h.name(h.resolve(m.source).value))
                    && EntriesCount(h.fs, h.fs(h.name(h.resolve(m.source).value)).entries, 0) <= 50000)
  {
    hide TreeClean, EntriesCount, AllHarmless;
    if h.resolve(m.source).Some? { CleanMeans(h.fs, h.name(h.resolve(m.source).value)); }
  }

  /** A refusal for depth, number or listing is true of the tree. */
  lemma ReasonsMean(fs: FileSystem, root: string, r: Reason)
    requires Truthful(fs, root, r)
    ensures r == TooDeep ==> exists dir: string, n: nat :: Below(fs, root, dir, n) && n >= 65
    ensures r == TooMany ==> EntriesCount(fs, fs(root).entries, 0) >= 50001
    ensures r == CannotList ==> exists dir: string, n: nat :: Below(fs, root, dir, n) && fs(dir).raises
    ensures r.CannotInspect? || r.HasSocket? || r.HasDevice? ==>
              exists dir: string, n: nat, i: nat :: Below(fs, root, dir, n) && n <= 64 && i < |fs(dir).entries|
                && fs(dir).entries[i] == Entry(r.path, if r.HasSocket? then Socket else if r.HasDevice? then Device else Uninspectable)
  {
    hide Below, EntriesCount;
    if r.CannotInspect? || r.HasSocket? || r.HasDevice? {
      var e := Entry(r.path, if r.HasSocket? then Socket else if r.HasDevice? then Device else Uninspectable);
      var dir: string, n: nat :| n <= MAX_SUBTREE_DEPTH && Below(fs, root, dir, n) && e in fs(dir).entries;
      var i :| 0 <= i < |fs(dir).entries| && fs(dir).entries[i] == e;
    }
  }
}
