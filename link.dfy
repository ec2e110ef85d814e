/**
 * The link engine (internal/link.go): every entry of a package's source tree
 * gets a symbolic link at its target path. A missing target is linked, a
 * target that already is the right link is left alone, and any other target
 * is a conflict: the user is asked (unless forcing or in dry-run), the old
 * target is backed up, removed and replaced by the link.
 */
module Link {
  import opened Wrappers
  import opened Text
  import opened FilePaths
  import opened Posix
  import opened Environment
  import opened Config
  import opened Engine
  import IoUtils
  import Os

  /** The mode for every directory the engine creates (0750). */
  const Permissions: Perm := 0x1E8

  /** ExpandPath with the host's cached home directory and Abs. */
  function Expand(host: Host, p: string): string {
    IoUtils.ExpandPath(host.home, host.abs, p)
  }

  /** The last step of linkFile: the link from the expanded target to the expanded source. */
  function CreateLink(t: Tree, faults: Faults, dry: bool, host: Host, source: string, target: string): Change
  {
    if dry then Change(t, true)
    else NewSymlink(t, faults, Expand(host, source), Expand(host, target))
  }

  /**
   * The backup step of a conflict: when a backup path is configured, create
   * its directory and copy the target there; dry-run only reports it.
   */
  function BackUp(t: Tree, faults: Faults, dry: bool, backupPath: string, target: string): Change
  {
    if backupPath == "" || dry then Change(t, true)
    else
      var made := Posix.MkdirAll(t, faults, FilePaths.Dir(backupPath), Permissions);
      if !made.ok then made
      else IoUtils.CopyFile(made.tree, faults, target, backupPath)
  }

  /** A conflict the user (or Force) lets go ahead: backup, remove, then link. */
  function Replace(t: Tree, faults: Faults, cfg: Config, host: Host, pkg: string, rel: string,
                   source: string, target: string): Change
  {
    var dry := IsDryRun(cfg, host.regex, pkg, rel);
    var saved := BackUp(t, faults, dry, GetBackupPath(cfg, host, pkg, rel), target);
    if !saved.ok then saved
    else
      var removed := if dry then Change(saved.tree, true) else Remove(saved.tree, faults, target);
      if !removed.ok then removed
      else CreateLink(removed.tree, faults, dry, host, source, target)
  }

  /** linkFile once the parent directory is there: the three cases of the target. */
  function LinkTargetEffect(t: Tree, faults: Faults, pending: seq<ScanResult>, cfg: Config, host: Host,
                            pkg: string, rel: string, source: string, target: string): Outcome
  {
    var dry := IsDryRun(cfg, host.regex, pkg, rel);
    match Lstat(t, faults, target)
    case Failed => Outcome(t, pending, false)
    case NotExist =>
      var c := CreateLink(t, faults, dry, host, source, target);
      Outcome(c.tree, pending, c.ok)
    case Found(_) =>
      if Readlink(t, faults, target) == Some(source) then Outcome(t, pending, true)
      else if !ShouldForce(cfg, host.regex, pkg, rel) && !dry then
        var (answer, rest) := Scan(pending);
        if answer.failed then Outcome(t, rest, false)
        else if ToLower(answer.response) != "y" then Outcome(t, rest, true)
        else
          var c := Replace(t, faults, cfg, host, pkg, rel, source, target);
          Outcome(c.tree, rest, c.ok)
      else
        var c := Replace(t, faults, cfg, host, pkg, rel, source, target);
        Outcome(c.tree, pending, c.ok)
  }

  /** linkFile: make sure the target's directory exists (not in dry-run), then handle the target. */
  function LinkFileEffect(t: Tree, faults: Faults, pending: seq<ScanResult>, cfg: Config, host: Host,
                          pkg: string, rel: string, source: string, target: string): Outcome
  {
    var parent := if IsDryRun(cfg, host.regex, pkg, rel) then Change(t, true)
                  else Posix.MkdirAll(t, faults, FilePaths.Dir(target), Permissions);
    if !parent.ok then Outcome(parent.tree, pending, false)
    else LinkTargetEffect(parent.tree, faults, pending, cfg, host, pkg, rel, source, target)
  }

  /**
   * The walk callback of LinkPackage for one entry: skip it when its
   * conditions fail, mirror a directory, link a file.
   */
  function LinkEntryEffect(t: Tree, faults: Faults, pending: seq<ScanResult>, cfg: Config, host: Host,
                           pkg: string, root: string, entry: WalkEntry): Outcome
  {
    match entry
    case WalkError => Outcome(t, pending, false)
    case Visit(rel, isDir) =>
      if !ConditionsHold(EffectiveConfig(cfg, host.regex, pkg, rel).conditions, host.env) then
        Outcome(t, pending, true)
      else
        var target := GetTargetPath(cfg, host, pkg, rel);
        if isDir then
          if IsDryRun(cfg, host.regex, pkg, rel) then Outcome(t, pending, true)
          else
            var c := Posix.MkdirAll(t, faults, target, Permissions);
            Outcome(c.tree, pending, c.ok)
        else LinkFileEffect(t, faults, pending, cfg, host, pkg, rel, Join(root, rel), target)
  }

  /** filepath.Walk with the callback: entries in order, stopping at the first error. */
  function LinkWalkEffect(t: Tree, faults: Faults, pending: seq<ScanResult>, cfg: Config, host: Host,
                          pkg: string, root: string, entries: seq<WalkEntry>): Outcome
    decreases |entries|
  {
    if entries == [] then Outcome(t, pending, true)
    else
      var first := LinkEntryEffect(t, faults, pending, cfg, host, pkg, root, entries[0]);
      if !first.ok then first
      else LinkWalkEffect(first.tree, faults, first.pending, cfg, host, pkg, root, entries[1..])
  }

  /**
   * LinkPackage: a package whose conditions fail is skipped successfully; a
   * package directory that does not exist is an error; otherwise walk it.
   */
  function LinkPackageEffect(t: Tree, faults: Faults, pending: seq<ScanResult>, cfg: Config, host: Host,
                             walker: Walker, pkg: string): Outcome
  {
    if !ConditionsHold(EffectiveConfig(cfg, host.regex, pkg, "").conditions, host.env) then
      Outcome(t, pending, true)
    else
      var root := host.abs(GetSourcePath(cfg, host, pkg));
      if Stat(t, faults, root).NotExist? then Outcome(t, pending, false)
      else LinkWalkEffect(t, faults, pending, cfg, host, pkg, root, walker(root))
  }

  /** The packages in order, stopping at the first that fails; what earlier ones did stays. */
  function LinkEachEffect(t: Tree, faults: Faults, pending: seq<ScanResult>, cfg: Config, host: Host,
                          walker: Walker, packages: seq<string>): Outcome
    decreases |packages|
  {
    if packages == [] then Outcome(t, pending, true)
    else
      var first := LinkPackageEffect(t, faults, pending, cfg, host, walker, packages[0]);
      if !first.ok then first
      else LinkEachEffect(first.tree, faults, first.pending, cfg, host, walker, packages[1..])
  }

  /** LinkPackages: an empty package list is an error. */
  function LinkPackagesEffect(t: Tree, faults: Faults, pending: seq<ScanResult>, cfg: Config, host: Host,
                              walker: Walker, packages: seq<string>): (r: Outcome)
    ensures packages == [] ==> r == Outcome(t, pending, false)
  {
    if packages == [] then Outcome(t, pending, false)
    else LinkEachEffect(t, faults, pending, cfg, host, walker, packages)
  }

  /** The last steps of a conflict that goes ahead, one system call after another. */
  method ReplaceTarget(fs: Os.FileSystem, cfg: Config, host: Host, pkg: string, rel: string,
                       source: string, target: string) returns (ok: bool)
    modifies fs
    ensures Change(fs.tree, ok) == Replace(old(fs.tree), fs.faults, cfg, host, pkg, rel, source, target)
  {
    var dry := IsDryRun(cfg, host.regex, pkg, rel);
    var backupPath := GetBackupPath(cfg, host, pkg, rel);
    if backupPath != "" && !dry {
      var backupDir := FilePaths.Dir(backupPath);
      ok := fs.MkdirAll(backupDir, Permissions);
      if !ok {
        return;
      }
      ok := IoUtils.CopyFileOn(fs, target, backupPath);
      if !ok {
        return;
      }
    }
    if !dry {
      ok := fs.Remove(target);
      if !ok {
        return;
      }
    }
    ok := true;
    if !dry {
      ok := fs.Symlink(Expand(host, source), Expand(host, target));
    }
  }

  /** linkFile on the file system and the terminal. */
  method LinkFile(fs: Os.FileSystem, term: Os.Terminal, cfg: Config, host: Host, pkg: string, rel: string,
                  source: string, target: string) returns (ok: bool)
    modifies fs, term
    ensures Outcome(fs.tree, term.pending, ok) ==
            LinkFileEffect(old(fs.tree), fs.faults, old(term.pending), cfg, host, pkg, rel, source, target)
  {
    var dry := IsDryRun(cfg, host.regex, pkg, rel);
    if !dry {
      var targetDir := FilePaths.Dir(target);
      ok := fs.MkdirAll(targetDir, Permissions);
      if !ok {
        return;
      }
    }
    var info := fs.Lstat(target);
    if info.Failed? {
      return false;
    }
    if info.Found? {
      var linkDest := fs.Readlink(target);
      if linkDest == Some(source) {
        return true;
      }
      if !ShouldForce(cfg, host.regex, pkg, rel) && !dry {
        var answer := term.Scanln();
        if answer.failed {
          return false;
        }
        if ToLower(answer.response) != "y" {
          return true;
        }
      }
      ok := ReplaceTarget(fs, cfg, host, pkg, rel, source, target);
      return;
    }
    ok := true;
    if !dry {
      ok := fs.Symlink(Expand(host, source), Expand(host, target));
    }
  }

  /** The walk callback of LinkPackage for one entry. */
  method LinkEntry(fs: Os.FileSystem, term: Os.Terminal, cfg: Config, host: Host, pkg: string, root: string,
                   entry: WalkEntry) returns (ok: bool)
    modifies fs, term
    ensures Outcome(fs.tree, term.pending, ok) ==
            LinkEntryEffect(old(fs.tree), fs.faults, old(term.pending), cfg, host, pkg, root, entry)
  {
    if entry.WalkError? {
      return false;
    }
    var rel := entry.rel;
    var fileConfig := GetEffectiveConfig(cfg, host.regex, pkg, rel);
    var matches := MatchesConditions(fileConfig.conditions, host.env);
    if !matches {
      return true;
    }
    var target := GetTargetPath(cfg, host, pkg, rel);
    if entry.isDir {
      if IsDryRun(cfg, host.regex, pkg, rel) {
        return true;
      }
      ok := fs.MkdirAll(target, Permissions);
      return;
    }
    ok := LinkFile(fs, term, cfg, host, pkg, rel, Join(root, rel), target);
  }

  /** LinkPackage: the condition gate, the package directory check, then the walk. */
  method LinkPackage(fs: Os.FileSystem, term: Os.Terminal, cfg: Config, host: Host, walker: Walker, pkg: string)
    returns (ok: bool)
    modifies fs, term
    ensures Outcome(fs.tree, term.pending, ok) ==
            LinkPackageEffect(old(fs.tree), fs.faults, old(term.pending), cfg, host, walker, pkg)
  {
    var pkgConfig := GetEffectiveConfig(cfg, host.regex, pkg, "");
    var matches := MatchesConditions(pkgConfig.conditions, host.env);
    if !matches {
      return true;
    }
    var pkgDir := GetSourcePath(cfg, host, pkg);
    var pkgDirAbs := host.abs(pkgDir);
    var info := fs.Stat(pkgDirAbs);
    if info.NotExist? {
      return false;
    }
    var entries := walker(pkgDirAbs);
    for i := 0 to |entries|
      invariant LinkWalkEffect(old(fs.tree), fs.faults, old(term.pending), cfg, host, pkg, pkgDirAbs, entries) ==
                LinkWalkEffect(fs.tree, fs.faults, term.pending, cfg, host, pkg, pkgDirAbs, entries[i..])
    {
      assert entries[i..][1..] == entries[i + 1..];
      ok := LinkEntry(fs, term, cfg, host, pkg, pkgDirAbs, entries[i]);
      if !ok {
        return;
      }
    }
    return true;
  }

  /** LinkPackages: refuse an empty list, then link the packages in order until one fails. */
  method LinkPackages(fs: Os.FileSystem, term: Os.Terminal, cfg: Config, host: Host, walker: Walker,
                      packages: seq<string>) returns (ok: bool)
    modifies fs, term
    ensures Outcome(fs.tree, term.pending, ok) ==
            LinkPackagesEffect(old(fs.tree), fs.faults, old(term.pending), cfg, host, walker, packages)
  {
    if |packages| == 0 {
      return false;
    }
    for i := 0 to |packages|
      invariant LinkEachEffect(old(fs.tree), fs.faults, old(term.pending), cfg, host, walker, packages) ==
                LinkEachEffect(fs.tree, fs.faults, term.pending, cfg, host, walker, packages[i..])
    {
      assert packages[i..][1..] == packages[i + 1..];
      ok := LinkPackage(fs, term, cfg, host, walker, packages[i]);
      if !ok {
        return;
      }
    }
    return true;
  }
}
