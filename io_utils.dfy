/** Home-directory expansion and file copying (internal/io_utils.go). */
module IoUtils {
  import opened Wrappers
  import opened Text
  import opened Posix
  import Os
  import Environment

  /**
   * ExpandPath with the home directory already known: a leading "~" is
   * replaced by it, once, and the result is made absolute.
   */
  function ExpandPath(home: string, abs: string -> string, path: string): (r: string)
    ensures HasPrefix(path, "~") ==> r == abs(home + path[1..])
    ensures !HasPrefix(path, "~") ==> r == abs(path)
  {
    if HasPrefix(path, "~") then abs(home + path[1..]) else abs(path)
  }

  /** Expanding an expanded path changes nothing, since the first expansion is absolute. */
  lemma ExpandPathIdempotent(home: string, abs: string -> string, path: string)
    requires Environment.AbsWellBehaved(abs)
    ensures ExpandPath(home, abs, ExpandPath(home, abs, path)) == ExpandPath(home, abs, path)
  {
    var once := ExpandPath(home, abs, path);
    assert once[0] == '/';
    assert !HasPrefix(once, "~");
  }

  /** Only the leading "~" is replaced: a later one is kept as it is. */
  lemma OnlyLeadingTildeReplaced(home: string, abs: string -> string, rest: string)
    ensures ExpandPath(home, abs, "~" + rest) == abs(home + rest)
    ensures ExpandPath(home, abs, "a~" + rest) == abs("a~" + rest)
  {
    assert ("~" + rest)[1..] == rest;
    assert HasPrefix("~" + rest, "~");
    assert ("a~" + rest)[0] == 'a';
  }

  /** The package-level home directory that initHomeDir fills once (sync.Once). */
  class HomeDir {
    var value: Option<string>

    constructor ()
      ensures value == None
    {
      value := None;
    }

    /**
     * initHomeDir under once.Do: the first call stores the current user's home
     * directory, or $HOME when the lookup fails; later calls keep it.
     */
    method Init(userHome: Option<string>, envHome: string) returns (home: string)
      modifies this
      ensures old(value).Some? ==> home == old(value).value && value == old(value)
      ensures old(value).None? ==> home == userHome.GetOr(envHome) && value == Some(home)
    {
      if value.None? {
        value := Some(userHome.GetOr(envHome));
      }
      home := value.value;
    }

    /** ExpandPath itself: initialise once, then expand with the stored directory. */
    method Expand(userHome: Option<string>, envHome: string, abs: string -> string, path: string)
      returns (r: string)
      modifies this
      ensures value.Some? && value == (if old(value).Some? then old(value) else Some(userHome.GetOr(envHome)))
      ensures r == ExpandPath(value.value, abs, path)
    {
      var home := Init(userHome, envHome);
      r := ExpandPath(home, abs, path);
    }
  }

  /** The permission bits os.Stat reports for a file or directory. */
  function PermOf(n: Node): Perm {
    match n
    case File(_, perm) => perm
    case Dir(perm) => perm
    case Symlink(_) => 0
  }

  /**
   * copyFile: read src, stat it for its permission bits, and write the bytes
   * to dst with them; the first call that fails makes the copy fail.
   */
  function CopyFile(t: Tree, faults: Faults, src: string, dst: string): (r: Change)
    ensures !r.ok ==> r.tree == t
    ensures r.ok ==> ReadFile(t, faults, src).Some?
  {
    match ReadFile(t, faults, src)
    case None => Change(t, false)
    case Some(data) =>
      match Stat(t, faults, src)
      case Found(n) => WriteFile(t, faults, dst, data, PermOf(n))
      case _ => Change(t, false)
  }

  /** A copy to a new path creates a regular file with the source's bytes and permission bits. */
  lemma CopyToNewPath(t: Tree, faults: Faults, src: string, dst: string)
    requires dst != "" && dst !in t && (WriteFileOp, dst) !in faults
    requires ReadFile(t, faults, src).Some? && Stat(t, faults, src).Found?
    ensures CopyFile(t, faults, src, dst).ok
    ensures CopyFile(t, faults, src, dst).tree ==
      t[dst := File(ReadFile(t, faults, src).value, PermOf(Stat(t, faults, src).node))]
  {
  }

  /**
   * A copy over an existing regular file replaces its bytes but keeps the
   * destination's own permission bits: os.WriteFile does not change them.
   */
  lemma CopyOverExistingFile(t: Tree, faults: Faults, src: string, dst: string)
    requires dst != "" && dst in t && t[dst].File? && (WriteFileOp, dst) !in faults
    requires ReadFile(t, faults, src).Some? && Stat(t, faults, src).Found?
    ensures CopyFile(t, faults, src, dst).ok
    ensures CopyFile(t, faults, src, dst).tree == t[dst := File(ReadFile(t, faults, src).value, t[dst].perm)]
  {
  }

  /** After a successful copy, dst reads back as the bytes src held. */
  lemma CopyFileContents(t: Tree, faults: Faults, src: string, dst: string)
    requires CopyFile(t, faults, src, dst).ok && (ReadFileOp, dst) !in faults
    ensures ReadFile(CopyFile(t, faults, src, dst).tree, faults, dst) == ReadFile(t, faults, src)
  {
    var data := ReadFile(t, faults, src).value;
    ReadAfterWrite(t, faults, dst, data, PermOf(Stat(t, faults, src).node));
  }

  /** copyFile on the file system object, one system call after another. */
  method CopyFileOn(fs: Os.FileSystem, src: string, dst: string) returns (ok: bool)
    modifies fs
    ensures Change(fs.tree, ok) == CopyFile(old(fs.tree), fs.faults, src, dst)
  {
    var sourceData := fs.ReadFile(src);
    if sourceData.None? {
      return false;
    }
    var fileInfo := fs.Stat(src);
    if !fileInfo.Found? {
      return false;
    }
    ok := fs.WriteFile(dst, sourceData.value, PermOf(fileInfo.node));
  }
}
