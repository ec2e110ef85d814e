/**
 * What the core asks of the machine it runs on, passed in as values and
 * oracles: the probes behind the condition predicates, regular-expression
 * matching, filepath.Abs and the cached home directory.
 */
module Environment {
  import opened Wrappers

  datatype Env = Env(
    goos: string,                 // runtime.GOOS
    osRelease: Option<string>,    // contents of /etc/os-release when os.ReadFile succeeds
    present: set<string>,         // the paths os.Stat finds
    onPath: set<string>,          // the names exec.LookPath resolves
    versions: map<string, string>,// the version getExecutableVersion reports; absent = it failed
    userName: string)             // the value getUserName computed once

  /** regexp.MatchString(pattern, s): a match, no match, or a pattern that does not compile. */
  datatype MatchOutcome = Matched | NotMatched | BadPattern

  type RegexOracle = (string, string) -> MatchOutcome

  datatype Host = Host(
    env: Env,
    regex: RegexOracle,
    abs: string -> string,        // filepath.Abs
    home: string)                 // the home directory ExpandPath computed once

  /**
   * What filepath.Abs guarantees: an absolute, cleaned path, so that applying
   * it again changes nothing.
   */
  ghost predicate AbsWellBehaved(abs: string -> string) {
    forall p :: |abs(p)| > 0 && abs(p)[0] == '/' && abs(abs(p)) == abs(p)
  }
}
