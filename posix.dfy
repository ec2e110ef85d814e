/**
 * The meaning of the operating-system calls the engines make (Go's `os`
 * package), over a file system held as a map from path strings to nodes.
 * Every call can be made to fail by listing (operation, path) in a fault set:
 * that is how the model stands for I/O errors whose causes it does not describe.
 */
module Posix {
  import opened Wrappers
  import FilePaths
  import Text

  /** Unix permission bits (the 0o777 part of a mode). */
  type Perm = p: int | 0 <= p < 512

  datatype Node = File(data: seq<bv8>, perm: Perm) | Dir(perm: Perm) | Symlink(dest: string)

  type Tree = map<string, Node>

  datatype Op = LstatOp | StatOp | ReadlinkOp | MkdirOp | RemoveOp | SymlinkOp
              | ReadFileOp | WriteFileOp | ReadDirOp

  type Faults = set<(Op, string)>

  /** Linux gives up (ELOOP) after this many symbolic links on one lookup. */
  const MaxSymlinkHops: nat := 40

  /**
   * Where a link at p with destination dest leads: an absolute destination as
   * it is, a relative one taken from the directory that holds the link.
   */
  function LinkTarget(p: string, dest: string): string {
    if |dest| > 0 && dest[0] == FilePaths.Separator then dest else FilePaths.Join(FilePaths.Dir(p), dest)
  }

  /** Follows symbolic links at the last path component; None on ELOOP. */
  function Resolve(t: Tree, p: string, hops: nat): (r: Option<string>)
    ensures r.Some? ==> r.value !in t || !t[r.value].Symlink?
    ensures p !in t || !t[p].Symlink? ==> r == Some(p)
    decreases hops
  {
    if p in t && t[p].Symlink? then
      if hops == 0 then None else Resolve(t, LinkTarget(p, t[p].dest), hops - 1)
    else Some(p)
  }

  datatype StatResult = Found(node: Node) | NotExist | Failed

  /** os.Lstat: does not follow a symbolic link. */
  function Lstat(t: Tree, faults: Faults, p: string): (r: StatResult)
    ensures r.Found? ==> p in t && r.node == t[p]
  {
    if (LstatOp, p) in faults then Failed
    else if p != "" && p in t then Found(t[p])
    else NotExist
  }

  /** os.Stat: follows symbolic links. */
  function Stat(t: Tree, faults: Faults, p: string): (r: StatResult)
    ensures r.Found? ==> !r.node.Symlink?
  {
    if (StatOp, p) in faults then Failed
    else if p == "" then NotExist
    else match Resolve(t, p, MaxSymlinkHops)
      case None => Failed
      case Some(q) => if q in t then Found(t[q]) else NotExist
  }

  /** A relative destination is looked up next to the link: "/a/link" -> "f" reaches "/a/f". */
  lemma RelativeLinkFollowed(data: seq<bv8>, perm: Perm)
    ensures var t := map["/a" := Dir(perm), "/a/f" := File(data, perm), "/a/link" := Symlink("f")];
      Stat(t, {}, "/a/link") == Found(File(data, perm))
  {
    ExampleLinkDir();
    ExampleJoin();
  }

  /** The directory that holds "/a/link". */
  lemma ExampleLinkDir()
    ensures FilePaths.Dir("/a/link") == "/a"
  {
    var link := "/a/link";
    assert FilePaths.LastSeparator(link) == 2 by {
      assert link[..|link| - 1] == "/a/lin";
      assert "/a/lin"[..5] == "/a/li";
      assert "/a/li"[..4] == "/a/l";
      assert "/a/l"[..3] == "/a/";
    }
    assert link[..3] == "/a/";
    assert Text.Split("/a/", '/') == ["", "a", ""] by {
      assert Text.Split("", '/') == [""];
      assert Text.Split("/", '/') == ["", ""] by { assert "/"[1..] == ""; }
      assert Text.Split("a/", '/') == ["a", ""] by { assert "a/"[1..] == "/"; assert ['a'] + "" == "a"; }
      assert "/a/"[1..] == "a/";
    }
    var up: seq<string> := ["", "a", ""];
    assert FilePaths.CleanElements(up, true, []) == ["a"] by {
      assert up[1..] == ["a", ""];
      assert up[1..][1..] == [""];
      assert up[1..][1..][1..] == [];
    }
    assert Text.JoinWith(["a"], '/') == "a";
  }

  /** "f" taken from "/a". */
  lemma ExampleJoin()
    ensures FilePaths.Join("/a", "f") == "/a/f"
  {
    assert Text.Split("/a/f", '/') == ["", "a", "f"] by {
      assert Text.Split("f", '/') == ["f"] by { assert "f"[1..] == ""; assert ['f'] + "" == "f"; }
      assert Text.Split("/f", '/') == ["", "f"] by { assert "/f"[1..] == "f"; }
      assert Text.Split("a/f", '/') == ["a", "f"] by { assert "a/f"[1..] == "/f"; assert ['a'] + "" == "a"; }
      assert "/a/f"[1..] == "a/f";
    }
    var down: seq<string> := ["", "a", "f"];
    assert FilePaths.CleanElements(down, true, []) == ["a", "f"] by {
      assert down[1..] == ["a", "f"];
      assert down[1..][1..] == ["f"];
      assert down[1..][1..][1..] == [];
      assert [] + ["a"] == ["a"];
      assert ["a"] + ["f"] == ["a", "f"];
    }
    assert Text.JoinWith(["a", "f"], '/') == "a/f" by {
      assert ["a", "f"][1..] == ["f"];
    }
    assert "/a" + "/" + "f" == "/a/f";
  }

  /** os.Readlink: the destination of a symbolic link, None on any error. */
  function Readlink(t: Tree, faults: Faults, p: string): (r: Option<string>)
    ensures r.Some? ==> p in t && t[p] == Symlink(r.value)
  {
    if (ReadlinkOp, p) !in faults && p in t && t[p].Symlink? then Some(t[p].dest) else None
  }

  /** The new tree after a mutating call, and whether the call succeeded. */
  datatype Change = Change(tree: Tree, ok: bool)

  /** os.Mkdir: fails when anything already exists at p. */
  function Mkdir(t: Tree, faults: Faults, p: string, perm: Perm): (r: Change)
    ensures r.ok ==> p !in t && r.tree == t[p := Dir(perm)]
    ensures !r.ok ==> r.tree == t
  {
    if (MkdirOp, p) in faults || p == "" || p in t then Change(t, false)
    else Change(t[p := Dir(perm)], true)
  }

  /** Start of the last element of p once trailing separators are skipped. */
  function LastElementStart(p: string): (j: nat)
    ensures j <= |p|
  {
    var i := TrailingTrimmed(p, |p|);
    ElementStart(p, i)
  }

  function TrailingTrimmed(p: string, i: nat): (k: nat)
    requires i <= |p|
    ensures k <= i
  {
    if i > 0 && p[i - 1] == FilePaths.Separator then TrailingTrimmed(p, i - 1) else i
  }

  function ElementStart(p: string, j: nat): (k: nat)
    requires j <= |p|
    ensures k <= j
  {
    if j > 0 && p[j - 1] != FilePaths.Separator then ElementStart(p, j - 1) else j
  }

  /**
   * os.MkdirAll: succeed at once when p already is a directory (following
   * links), fail when it is something else, otherwise create the parent
   * first and then p itself; a Mkdir that fails is forgiven when p turns
   * out to be a directory after all.
   */
  function MkdirAll(t: Tree, faults: Faults, p: string, perm: Perm): (r: Change)
    decreases |p|
  {
    match Stat(t, faults, p)
    case Found(n) => Change(t, n.Dir?)
    case _ =>
      var j := LastElementStart(p);
      var parent := if j > 1 then MkdirAll(t, faults, p[..j - 1], perm) else Change(t, true);
      if !parent.ok then parent
      else
        var made := Mkdir(parent.tree, faults, p, perm);
        if made.ok then made
        else Change(parent.tree, Lstat(parent.tree, faults, p).Found? && Lstat(parent.tree, faults, p).node.Dir?)
  }

  /** The paths MkdirAll(p) may create: p and, recursively, its parents. */
  ghost function MkdirSpan(p: string): set<string>
    decreases |p|
  {
    var j := LastElementStart(p);
    {p} + (if j > 1 then MkdirSpan(p[..j - 1]) else {})
  }

  /** MkdirAll only adds directories, all within its span, and changes nothing that exists. */
  lemma {:induction false} MkdirAllOnlyAddsDirs(t: Tree, faults: Faults, p: string, perm: Perm)
    ensures var r := MkdirAll(t, faults, p, perm);
      && (forall q :: q in t ==> q in r.tree && r.tree[q] == t[q])
      && (forall q :: q in r.tree && q !in t ==> q in MkdirSpan(p) && r.tree[q] == Dir(perm))
    decreases |p|
  {
    var j := LastElementStart(p);
    if !Stat(t, faults, p).Found? && j > 1 {
      MkdirAllOnlyAddsDirs(t, faults, p[..j - 1], perm);
    }
  }

  /** Every path in the span is a prefix of p, so none is longer than p. */
  lemma {:induction false} MkdirSpanShorter(p: string, q: string)
    requires q in MkdirSpan(p)
    ensures |q| <= |p|
    decreases |p|
  {
    var j := LastElementStart(p);
    if q != p && j > 1 {
      MkdirSpanShorter(p[..j - 1], q);
    }
  }

  /** Each path MkdirAll(p) may create is absent or a directory already, and no call on it fails. */
  ghost predicate SpanCreatable(t: Tree, faults: Faults, p: string) {
    forall q :: q in MkdirSpan(p) ==>
      && (q !in t || t[q].Dir?)
      && (StatOp, q) !in faults && (LstatOp, q) !in faults && (MkdirOp, q) !in faults
  }

  /** Where nothing but directories stand in the way and no call fails, MkdirAll succeeds. */
  lemma {:induction false} MkdirAllSucceeds(t: Tree, faults: Faults, p: string, perm: Perm)
    requires p != "" && SpanCreatable(t, faults, p)
    ensures MkdirAll(t, faults, p, perm).ok
    decreases |p|
  {
    assert p in MkdirSpan(p);
    if !Stat(t, faults, p).Found? {
      var j := LastElementStart(p);
      var parent := if j > 1 then MkdirAll(t, faults, p[..j - 1], perm) else Change(t, true);
      if j > 1 {
        var up := p[..j - 1];
        assert MkdirSpan(up) <= MkdirSpan(p);
        MkdirAllSucceeds(t, faults, up, perm);
        MkdirAllOnlyAddsDirs(t, faults, up, perm);
        assert p !in MkdirSpan(up) by {
          if p in MkdirSpan(up) {
            MkdirSpanShorter(up, p);
          }
        }
      }
    }
  }

  /** After a successful MkdirAll, p is a directory (when stat on p does not fail). */
  lemma MkdirAllMakesDir(t: Tree, faults: Faults, p: string, perm: Perm)
    requires MkdirAll(t, faults, p, perm).ok && (StatOp, p) !in faults
    ensures var s := Stat(MkdirAll(t, faults, p, perm).tree, faults, p); s.Found? && s.node.Dir?
  {
  }

  /** MkdirAll of an existing directory changes nothing and succeeds. */
  lemma MkdirAllExisting(t: Tree, faults: Faults, p: string, perm: Perm)
    requires Stat(t, faults, p).Found? && Stat(t, faults, p).node.Dir?
    ensures MkdirAll(t, faults, p, perm) == Change(t, true)
  {
  }

  /** The entries os.ReadDir lists: paths whose parent is exactly q. */
  function Children(t: Tree, q: string): set<string> {
    set k | k in t && k != q && FilePaths.Dir(k) == q
  }

  /** os.Remove: removes a file, a symbolic link or an empty directory. */
  function Remove(t: Tree, faults: Faults, p: string): (r: Change)
    ensures r.ok ==> p in t && r.tree == t - {p}
    ensures !r.ok ==> r.tree == t
  {
    if (RemoveOp, p) in faults || p !in t || p == "" then Change(t, false)
    else if t[p].Dir? && Children(t, p) != {} then Change(t, false)
    else Change(t - {p}, true)
  }

  /** os.Symlink(dest, p): fails when anything already exists at p. */
  function NewSymlink(t: Tree, faults: Faults, dest: string, p: string): (r: Change)
    ensures r.ok ==> p !in t && r.tree == t[p := Symlink(dest)]
    ensures !r.ok ==> r.tree == t
  {
    if (SymlinkOp, p) in faults || p == "" || p in t then Change(t, false)
    else Change(t[p := Symlink(dest)], true)
  }

  /** os.ReadFile: the bytes of the regular file p resolves to. */
  function ReadFile(t: Tree, faults: Faults, p: string): (r: Option<seq<bv8>>)
  {
    if (ReadFileOp, p) in faults then None
    else match Stat(t, faults - {(StatOp, p)}, p)
      case Found(File(data, _)) => Some(data)
      case _ => None
  }

  /**
   * os.WriteFile: writes through symbolic links; an existing file keeps its
   * permission bits (the file is truncated, not re-created), a new file gets perm.
   */
  function WriteFile(t: Tree, faults: Faults, p: string, data: seq<bv8>, perm: Perm): (r: Change)
    ensures !r.ok ==> r.tree == t
  {
    if (WriteFileOp, p) in faults || p == "" then Change(t, false)
    else match Resolve(t, p, MaxSymlinkHops)
      case None => Change(t, false)
      case Some(q) =>
        if q !in t then Change(t[q := File(data, perm)], true)
        else if t[q].File? then Change(t[q := File(data, t[q].perm)], true)
        else Change(t, false)
  }

  /** Replacing the node a lookup ends at by a non-link node leaves the lookup as it is. */
  lemma {:induction false} ResolveAfterUpdate(t: Tree, p: string, hops: nat, n: Node)
    requires Resolve(t, p, hops).Some? && !n.Symlink?
    ensures Resolve(t[Resolve(t, p, hops).value := n], p, hops) == Resolve(t, p, hops)
    decreases hops
  {
    if p in t && t[p].Symlink? {
      ResolveAfterUpdate(t, LinkTarget(p, t[p].dest), hops - 1, n);
    }
  }

  /** Reading a file back after a successful write yields the bytes written. */
  lemma ReadAfterWrite(t: Tree, faults: Faults, p: string, data: seq<bv8>, perm: Perm)
    requires WriteFile(t, faults, p, data, perm).ok && (ReadFileOp, p) !in faults
    ensures ReadFile(WriteFile(t, faults, p, data, perm).tree, faults, p) == Some(data)
  {
    var q := Resolve(t, p, MaxSymlinkHops).value;
    var n := if q in t then File(data, t[q].perm) else File(data, perm);
    ResolveAfterUpdate(t, p, MaxSymlinkHops, n);
  }

  /** os.ReadDir: the entries of the directory p resolves to. */
  function ReadDir(t: Tree, faults: Faults, p: string): (r: Option<set<string>>)
  {
    if (ReadDirOp, p) in faults || p == "" then None
    else match Resolve(t, p, MaxSymlinkHops)
      case None => None
      case Some(q) => if q in t && t[q].Dir? then Some(Children(t, q)) else None
  }

  /** One answer fmt.Scanln produced: the word it stored and whether it returned an error. */
  datatype ScanResult = ScanResult(response: string, failed: bool)

  /** fmt.Scanln on standard input; at end of input it fails and stores nothing. */
  function Scan(pending: seq<ScanResult>): (ScanResult, seq<ScanResult>)
  {
    if pending == [] then (ScanResult("", true), []) else (pending[0], pending[1..])
  }
}
