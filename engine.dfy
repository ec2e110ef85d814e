/**
 * What the link and unlink engines share: the entries filepath.Walk hands to
 * their callbacks, and the state an engine leaves behind (the file system,
 * the answers still waiting on standard input, and whether it returned nil).
 */
module Engine {
  import opened Posix

  /**
   * One call of the walk callback below the package root (the root itself is
   * skipped by both engines): an entry with its path relative to the root,
   * or the error filepath.Walk passes in, which the callback returns.
   */
  datatype WalkEntry = Visit(rel: string, isDir: bool) | WalkError

  /** What filepath.Walk visits under a root, in its order. */
  type Walker = string -> seq<WalkEntry>

  /** The state after an engine step, and whether the step returned nil. */
  datatype Outcome = Outcome(tree: Tree, pending: seq<ScanResult>, ok: bool)
}
