/** The file system and the terminal as objects the engines change step by step. */
module Os {
  import opened Wrappers
  import opened Posix

  /** The file system the engines act on; each method is one system call. */
  class FileSystem {
    var tree: Tree
    const faults: Faults

    constructor (t: Tree, f: Faults)
      ensures tree == t && faults == f
    {
      tree := t;
      faults := f;
    }

    method MkdirAll(p: string, perm: Perm) returns (ok: bool)
      modifies this
      ensures Change(tree, ok) == Posix.MkdirAll(old(tree), faults, p, perm)
    {
      var r := Posix.MkdirAll(tree, faults, p, perm);
      tree, ok := r.tree, r.ok;
    }

    method Remove(p: string) returns (ok: bool)
      modifies this
      ensures Change(tree, ok) == Posix.Remove(old(tree), faults, p)
    {
      var r := Posix.Remove(tree, faults, p);
      tree, ok := r.tree, r.ok;
    }

    method Symlink(dest: string, p: string) returns (ok: bool)
      modifies this
      ensures Change(tree, ok) == Posix.NewSymlink(old(tree), faults, dest, p)
    {
      var r := Posix.NewSymlink(tree, faults, dest, p);
      tree, ok := r.tree, r.ok;
    }

    method WriteFile(p: string, data: seq<bv8>, perm: Perm) returns (ok: bool)
      modifies this
      ensures Change(tree, ok) == Posix.WriteFile(old(tree), faults, p, data, perm)
    {
      var r := Posix.WriteFile(tree, faults, p, data, perm);
      tree, ok := r.tree, r.ok;
    }

    method Lstat(p: string) returns (r: StatResult)
      ensures r == Posix.Lstat(tree, faults, p)
    {
      r := Posix.Lstat(tree, faults, p);
    }

    method Stat(p: string) returns (r: StatResult)
      ensures r == Posix.Stat(tree, faults, p)
    {
      r := Posix.Stat(tree, faults, p);
    }

    method Readlink(p: string) returns (r: Option<string>)
      ensures r == Posix.Readlink(tree, faults, p)
    {
      r := Posix.Readlink(tree, faults, p);
    }

    method ReadFile(p: string) returns (r: Option<seq<bv8>>)
      ensures r == Posix.ReadFile(tree, faults, p)
    {
      r := Posix.ReadFile(tree, faults, p);
    }

    method ReadDir(p: string) returns (r: Option<set<string>>)
      ensures r == Posix.ReadDir(tree, faults, p)
    {
      r := Posix.ReadDir(tree, faults, p);
    }
  }

  /** Standard input, as the queue of answers the user will type. */
  class Terminal {
    var pending: seq<ScanResult>

    constructor (answers: seq<ScanResult>)
      ensures pending == answers
    {
      pending := answers;
    }

    method Scanln() returns (r: ScanResult)
      modifies this
      ensures (r, pending) == Scan(old(pending))
    {
      r, pending := Scan(pending).0, Scan(pending).1;
    }
  }
}
