/**
 * The directory cleanup both unlink engines end with (internal/unlink.go and
 * internal/unlink/unlink.go): the recorded target directories are sorted
 * deepest first by sortByDepth and each one that reads as empty at its turn
 * is removed; errors only skip a directory.
 */
module DirCleanup {
  import opened FilePaths
  import opened Posix
  import Os
  import opened Wrappers

  /** Separator counts never increase along the sequence. */
  predicate DeepestFirst(s: seq<string>) {
    forall i, j :: 0 <= i < j < |s| ==> Depth(s[i]) >= Depth(s[j])
  }

  /** Insert p into a deepest-first sequence, after every path at least as deep as p. */
  function InsertByDepth(s: seq<string>, p: string): seq<string>
    decreases |s|
  {
    if s == [] then [p]
    else if Depth(s[|s| - 1]) < Depth(p) then InsertByDepth(s[..|s| - 1], p) + [s[|s| - 1]]
    else s + [p]
  }

  /** The order sortByDepth produces: an insertion sort by descending separator count. */
  function SortedByDepth(s: seq<string>): seq<string>
    decreases |s|
  {
    if s == [] then [] else InsertByDepth(SortedByDepth(s[..|s| - 1]), s[|s| - 1])
  }

  lemma {:induction false} InsertByDepthPermutes(s: seq<string>, p: string)
    ensures multiset(InsertByDepth(s, p)) == multiset(s) + multiset{p}
    decreases |s|
  {
    if s != [] {
      assert s == s[..|s| - 1] + [s[|s| - 1]];
      InsertByDepthPermutes(s[..|s| - 1], p);
    }
  }

  /** Appending a path no deeper than any other keeps the order. */
  lemma AppendShallower(s: seq<string>, x: string)
    requires DeepestFirst(s) && forall y :: y in s ==> Depth(y) >= Depth(x)
    ensures DeepestFirst(s + [x])
  {
    forall i, j | 0 <= i < j < |s| + 1
      ensures Depth((s + [x])[i]) >= Depth((s + [x])[j])
    {
      if j == |s| {
        assert (s + [x])[i] == s[i] && s[i] in s;
      }
    }
  }

  lemma {:induction false} InsertByDepthOrdered(s: seq<string>, p: string)
    requires DeepestFirst(s)
    ensures DeepestFirst(InsertByDepth(s, p))
    decreases |s|
  {
    if s != [] {
      var last := s[|s| - 1];
      var init := s[..|s| - 1];
      forall y | y in s
        ensures Depth(y) >= Depth(last)
      {
        var i :| 0 <= i < |s| && s[i] == y;
      }
      if Depth(last) < Depth(p) {
        InsertByDepthOrdered(init, p);
        InsertByDepthPermutes(init, p);
        var front := InsertByDepth(init, p);
        forall y | y in front
          ensures Depth(y) >= Depth(last)
        {
          assert y in multiset(init) + multiset{p};
          if y != p {
            assert y in init;
            assert y in s;
          }
        }
        AppendShallower(front, last);
      } else {
        AppendShallower(s, p);
      }
    }
  }

  /** sortByDepth yields a permutation of its input. */
  lemma {:induction false} SortedByDepthPermutes(s: seq<string>)
    ensures multiset(SortedByDepth(s)) == multiset(s)
    decreases |s|
  {
    if s != [] {
      assert s == s[..|s| - 1] + [s[|s| - 1]];
      SortedByDepthPermutes(s[..|s| - 1]);
      InsertByDepthPermutes(SortedByDepth(s[..|s| - 1]), s[|s| - 1]);
    }
  }

  /** sortByDepth puts deeper paths first. */
  lemma {:induction false} SortedByDepthOrdered(s: seq<string>)
    ensures DeepestFirst(SortedByDepth(s))
    decreases |s|
  {
    if s != [] {
      SortedByDepthOrdered(s[..|s| - 1]);
      InsertByDepthOrdered(SortedByDepth(s[..|s| - 1]), s[|s| - 1]);
    }
  }

  /** One step of InsertByDepth, read from the left: p passes a shallower s[j - 1]. */
  lemma InsertStep(s: seq<string>, j: nat, p: string)
    requires 0 < j <= |s| && Depth(s[j - 1]) < Depth(p)
    ensures InsertByDepth(s[..j], p) + s[j..] == InsertByDepth(s[..j - 1], p) + s[j - 1..]
  {
    assert s[..j][..j - 1] == s[..j - 1];
    assert s[j - 1..] == [s[j - 1]] + s[j..];
  }

  /** The swap in InsertAt, on the array's contents: p moves one place left. */
  lemma SwapLeft(b: seq<string>, s: seq<string>, rest: seq<string>, j: nat, p: string)
    requires 0 < j <= |s| && b == s[..j] + [p] + s[j..] + rest
    ensures b[j - 1 := p][j := s[j - 1]] == s[..j - 1] + [p] + s[j - 1..] + rest
  {
    var c := b[j - 1 := p][j := s[j - 1]];
    var d := s[..j - 1] + [p] + s[j - 1..] + rest;
    assert |c| == |d|;
    forall k | 0 <= k < |c|
      ensures c[k] == d[k]
    {
      if k < j - 1 {
      } else if k == j - 1 || k == j {
      } else if k < |s| + 1 {
        assert c[k] == b[k] == s[k - 1];
      } else {
        assert c[k] == b[k] == rest[k - |s| - 1];
      }
    }
  }

  /** One round of the insertion sort: a[i] moves left past the shallower paths before it. */
  method InsertAt(a: array<string>, i: nat)
    requires i < a.Length
    modifies a
    ensures a[..] == InsertByDepth(old(a[..i]), old(a[i])) + old(a[i + 1..])
  {
    var p := a[i];
    ghost var sorted := a[..i];
    ghost var rest := a[i + 1..];
    assert a[..] == sorted + [p] + rest;
    assert sorted[..i] == sorted && sorted[i..] == [];
    var j := i;
    while j > 0 && Depth(a[j - 1]) < Depth(p)
      invariant 0 <= j <= i
      invariant a[..] == sorted[..j] + [p] + sorted[j..] + rest
      invariant InsertByDepth(sorted, p) == InsertByDepth(sorted[..j], p) + sorted[j..]
    {
      assert a[j - 1] == sorted[j - 1];
      InsertStep(sorted, j, p);
      ghost var before := a[..];
      a[j - 1], a[j] := a[j], a[j - 1];
      assert a[..] == before[j - 1 := p][j := sorted[j - 1]];
      SwapLeft(before, sorted, rest, j, p);
      j := j - 1;
    }
  }

  /** sortByDepth, in place on the slice. */
  method SortByDepth(a: array<string>)
    modifies a
    ensures a[..] == SortedByDepth(old(a[..]))
  {
    for i := 0 to a.Length
      invariant a[..i] == SortedByDepth(old(a[..])[..i])
      invariant a[i..] == old(a[..])[i..]
    {
      assert old(a[..])[..i + 1][..i] == old(a[..])[..i];
      InsertAt(a, i);
      assert a[..i + 1] == SortedByDepth(old(a[..])[..i + 1]);
    }
    assert a[..] == a[..a.Length];
    assert old(a[..])[..a.Length] == old(a[..]);
  }

  /** The cleanup loop: in order, remove each directory that reads as empty; errors skip it. */
  function RemoveEmptyDirs(t: Tree, faults: Faults, dirs: seq<string>): Tree
    decreases |dirs|
  {
    if dirs == [] then t
    else
      var next := match ReadDir(t, faults, dirs[0])
        case Some(entries) => if entries == {} then Remove(t, faults, dirs[0]).tree else t
        case None => t;
      RemoveEmptyDirs(next, faults, dirs[1..])
  }

  /** Collect the recorded directories, sort them deepest first and remove the empty ones. */
  method CleanUp(fs: Os.FileSystem, recorded: seq<string>)
    modifies fs
    ensures fs.tree == RemoveEmptyDirs(old(fs.tree), fs.faults, SortedByDepth(recorded))
  {
    var dirs := new string[|recorded|](i requires 0 <= i < |recorded| => recorded[i]);
    assert dirs[..] == recorded;
    SortByDepth(dirs);
    for i := 0 to dirs.Length
      invariant RemoveEmptyDirs(old(fs.tree), fs.faults, SortedByDepth(recorded)) ==
                RemoveEmptyDirs(fs.tree, fs.faults, dirs[i..])
    {
      assert dirs[i..][1..] == dirs[i + 1..];
      var entries := fs.ReadDir(dirs[i]);
      if entries.None? {
        continue;
      }
      if |entries.value| == 0 {
        var _ := fs.Remove(dirs[i]);
      }
    }
  }

  /**
   * Cleanup is safe: it removes only recorded paths, and everything it keeps
   * is unchanged.
   */
  lemma {:induction false} CleanupRemovesOnlyRecorded(t: Tree, faults: Faults, dirs: seq<string>)
    ensures var r := RemoveEmptyDirs(t, faults, dirs);
      && (forall q :: q in r ==> q in t && r[q] == t[q])
      && (forall q :: q in t && q !in r ==> q in dirs)
    decreases |dirs|
  {
    if dirs != [] {
      var next := match ReadDir(t, faults, dirs[0])
        case Some(entries) => if entries == {} then Remove(t, faults, dirs[0]).tree else t
        case None => t;
      CleanupRemovesOnlyRecorded(next, faults, dirs[1..]);
    }
  }

  /**
   * A directory that holds an entry nobody recorded is never removed: that
   * entry stays, so the directory never reads as empty.
   */
  lemma {:induction false} CleanupKeepsOccupiedDir(t: Tree, faults: Faults, dirs: seq<string>, d: string, k: string)
    requires d in t && t[d].Dir? && k in Children(t, d) && k !in dirs
    ensures d in RemoveEmptyDirs(t, faults, dirs)
    decreases |dirs|
  {
    if dirs != [] {
      var next := match ReadDir(t, faults, dirs[0])
        case Some(entries) => if entries == {} then Remove(t, faults, dirs[0]).tree else t
        case None => t;
      if dirs[0] == d {
        assert ReadDir(t, faults, d).Some? ==> k in ReadDir(t, faults, d).value;
      }
      assert d in next && next[d] == t[d] && k in Children(next, d);
      CleanupKeepsOccupiedDir(next, faults, dirs[1..], d, k);
    }
  }

  /**
   * Why deepest first: an empty child is removed before its parent is looked
   * at, so a parent holding only that child goes too; in the other order the
   * parent is still occupied at its turn and stays.
   */
  lemma NestedEmptyDirs(t: Tree, parent: string, child: string)
    requires parent != "" && child != "" && parent != child
    requires parent in t && t[parent].Dir? && child in t && t[child].Dir?
    requires Children(t, child) == {} && Children(t, parent) == {child}
    ensures RemoveEmptyDirs(t, {}, [child, parent]) == t - {child, parent}
    ensures parent in RemoveEmptyDirs(t, {}, [parent, child])
  {
    var t1 := t - {child};
    assert ReadDir(t, {}, child) == Some({});
    assert Remove(t, {}, child).tree == t1;
    assert Children(t1, parent) == {} by {
      assert forall k :: k in Children(t1, parent) ==> k in Children(t, parent) && k != child;
    }
    assert ReadDir(t1, {}, parent) == Some({});
    assert Remove(t1, {}, parent).tree == t - {child, parent};
    assert [child, parent][1..] == [parent] && [parent][1..] == [];
    assert RemoveEmptyDirs(t, {}, [child, parent]) == RemoveEmptyDirs(t1, {}, [parent]);
    assert RemoveEmptyDirs(t1, {}, [parent]) == RemoveEmptyDirs(t - {child, parent}, {}, []);
    assert ReadDir(t, {}, parent) == Some({child});
    assert [parent, child][1..] == [child] && [child][1..] == [];
    assert RemoveEmptyDirs(t, {}, [parent, child]) == RemoveEmptyDirs(t, {}, [child]);
    assert RemoveEmptyDirs(t, {}, [child]) == RemoveEmptyDirs(t1, {}, []);
  }
}
