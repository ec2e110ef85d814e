/**
 * The earlier link engine (internal/link/link.go). It has the same three target
 * cases as the current one, with these differences: directories get 0755; the
 * prompt is shown even in dry-run, and a failed read just leaves the answer
 * empty; the link points at the source path as the walk gave it; the backup
 * copy writes mode 0644.
 */
module LegacyLink {
  import opened Wrappers
  import opened Text
  import opened FilePaths
  import opened Posix
  import opened Environment
  import opened LegacyConfig
  import opened Engine
  import Os

  /** The mode for every directory the engine creates (0755). */
  const Permissions: Perm := 0x1ED

  /** The mode copyFile gives a file it creates (0644). */
  const CopyMode: Perm := 0x1A4

  /** copyFile: read src and write its bytes to dst with mode 0644; src's own mode is not looked at. */
  function CopyFile(t: Tree, faults: Faults, src: string, dst: string): (r: Change)
    ensures !r.ok ==> r.tree == t
  {
    match ReadFile(t, faults, src)
    case None => Change(t, false)
    case Some(data) => WriteFile(t, faults, dst, data, CopyMode)
  }

  /** The last step of linkFile: the link from the target to the source path, unexpanded. */
  function CreateLink(t: Tree, faults: Faults, dry: bool, source: string, target: string): Change
  {
    if dry then Change(t, true) else NewSymlink(t, faults, source, target)
  }

  /** The backup step of a conflict that goes ahead: create the backup's directory and copy the target there. */
  function BackUp(t: Tree, faults: Faults, dry: bool, backupPath: string, target: string): Change
  {
    if backupPath == "" || dry then Change(t, true)
    else
      var made := Posix.MkdirAll(t, faults, FilePaths.Dir(backupPath), Permissions);
      if !made.ok then made
      else CopyFile(made.tree, faults, target, backupPath)
  }

  /** A conflict that goes ahead: backup, remove, then link. */
  function Replace(t: Tree, faults: Faults, cfg: Config, pkg: string, rel: string, source: string, target: string)
    : Change
  {
    var saved := BackUp(t, faults, cfg.dryRun, GetBackupPath(cfg, pkg, rel), target);
    if !saved.ok then saved
    else
      var removed := if cfg.dryRun then Change(saved.tree, true) else Remove(saved.tree, faults, target);
      if !removed.ok then removed
      else CreateLink(removed.tree, faults, cfg.dryRun, source, target)
  }

  /**
   * linkFile once the parent directory is handled. Without force the user is
   * asked, dry-run or not; the answer is whatever fmt.Scanln stored, the
   * error it returned is not looked at.
   */
  function LinkTargetEffect(t: Tree, faults: Faults, pending: seq<ScanResult>, cfg: Config,
                            pkg: string, rel: string, source: string, target: string): Outcome
  {
    match Lstat(t, faults, target)
    case Failed => Outcome(t, pending, false)
    case NotExist =>
      var c := CreateLink(t, faults, cfg.dryRun, source, target);
      Outcome(c.tree, pending, c.ok)
    case Found(_) =>
      if Readlink(t, faults, target) == Some(source) then Outcome(t, pending, true)
      else
        var rest := if ShouldForce(cfg, pkg) then pending else Scan(pending).1;
        if !ShouldForce(cfg, pkg) && ToLower(Scan(pending).0.response) != "y" then Outcome(t, rest, true)
        else
          var c := Replace(t, faults, cfg, pkg, rel, source, target);
          Outcome(c.tree, rest, c.ok)
  }

  /** linkFile: the parent directory (not in dry-run), then the target. */
  function LinkFileEffect(t: Tree, faults: Faults, pending: seq<ScanResult>, cfg: Config,
                          pkg: string, rel: string, source: string, target: string): Outcome
  {
    var parent := if cfg.dryRun then Change(t, true)
                  else Posix.MkdirAll(t, faults, FilePaths.Dir(target), Permissions);
    if !parent.ok then Outcome(parent.tree, pending, false)
    else LinkTargetEffect(parent.tree, faults, pending, cfg, pkg, rel, source, target)
  }

  /** The walk callback of LinkPackage for one entry. */
  function LinkEntryEffect(t: Tree, faults: Faults, pending: seq<ScanResult>, cfg: Config, host: Host,
                           pkg: string, root: string, entry: WalkEntry): Outcome
  {
    match entry
    case WalkError => Outcome(t, pending, false)
    case Visit(rel, isDir) =>
      if !ConditionsHold(Conditions(cfg, pkg, rel), host.env) then Outcome(t, pending, true)
      else
        var target := TargetPath(cfg, host.regex, pkg, rel);
        if isDir then
          if cfg.dryRun then Outcome(t, pending, true)
          else
            var c := Posix.MkdirAll(t, faults, target, Permissions);
            Outcome(c.tree, pending, c.ok)
        else LinkFileEffect(t, faults, pending, cfg, pkg, rel, Join(root, rel), target)
  }

  /** filepath.Walk with the callback, stopping at the first error. */
  function LinkWalkEffect(t: Tree, faults: Faults, pending: seq<ScanResult>, cfg: Config, host: Host,
                          pkg: string, root: string, entries: seq<WalkEntry>): Outcome
    decreases |entries|
  {
    if entries == [] then Outcome(t, pending, true)
    else
      var first := LinkEntryEffect(t, faults, pending, cfg, host, pkg, root, entries[0]);
      if !first.ok then first
      else LinkWalkEffect(first.tree, faults, first.pending, cfg, host, pkg, root, entries[1..])
  }

  /** LinkPackage: the condition gate, the package directory check, the walk. */
  function LinkPackageEffect(t: Tree, faults: Faults, pending: seq<ScanResult>, cfg: Config, host: Host,
                             walker: Walker, pkg: string): Outcome
  {
    if !ConditionsHold(Conditions(cfg, pkg, ""), host.env) then Outcome(t, pending, true)
    else
      var root := host.abs(GetSourcePath(cfg, pkg));
      if Stat(t, faults, root).NotExist? then Outcome(t, pending, false)
      else LinkWalkEffect(t, faults, pending, cfg, host, pkg, root, walker(root))
  }

  function LinkEachEffect(t: Tree, faults: Faults, pending: seq<ScanResult>, cfg: Config, host: Host,
                          walker: Walker, packages: seq<string>): Outcome
    decreases |packages|
  {
    if packages == [] then Outcome(t, pending, true)
    else
      var first := LinkPackageEffect(t, faults, pending, cfg, host, walker, packages[0]);
      if !first.ok then first
      else LinkEachEffect(first.tree, faults, first.pending, cfg, host, walker, packages[1..])
  }

  /** LinkPackages: an empty package list is an error. */
  function LinkPackagesEffect(t: Tree, faults: Faults, pending: seq<ScanResult>, cfg: Config, host: Host,
                              walker: Walker, packages: seq<string>): (r: Outcome)
    ensures packages == [] ==> r == Outcome(t, pending, false)
  {
    if packages == [] then Outcome(t, pending, false)
    else LinkEachEffect(t, faults, pending, cfg, host, walker, packages)
  }

  /** copyFile on the file system. */
  method CopyFileOn(fs: Os.FileSystem, src: string, dst: string) returns (ok: bool)
    modifies fs
    ensures Change(fs.tree, ok) == CopyFile(old(fs.tree), fs.faults, src, dst)
  {
    var sourceData := fs.ReadFile(src);
    if sourceData.None? {
      return false;
    }
    ok := fs.WriteFile(dst, sourceData.value, CopyMode);
  }

  /** The backup, remove and link steps of a conflict that goes ahead. */
  method ReplaceTarget(fs: Os.FileSystem, cfg: Config, pkg: string, rel: string, source: string, target: string)
    returns (ok: bool)
    modifies fs
    ensures Change(fs.tree, ok) == Replace(old(fs.tree), fs.faults, cfg, pkg, rel, source, target)
  {
    var backupPath := GetBackupPath(cfg, pkg, rel);
    if backupPath != "" && !cfg.dryRun {
      var backupDir := FilePaths.Dir(backupPath);
      ok := fs.MkdirAll(backupDir, Permissions);
      if !ok {
        return;
      }
      ok := CopyFileOn(fs, target, backupPath);
      if !ok {
        return;
      }
    }
    if !cfg.dryRun {
      ok := fs.Remove(target);
      if !ok {
        return;
      }
    }
    ok := true;
    if !cfg.dryRun {
      ok := fs.Symlink(source, target);
    }
  }

  /** linkFile on the file system and the terminal. */
  method LinkFile(fs: Os.FileSystem, term: Os.Terminal, cfg: Config, pkg: string, rel: string,
                  source: string, target: string) returns (ok: bool)
    modifies fs, term
    ensures Outcome(fs.tree, term.pending, ok) ==
            LinkFileEffect(old(fs.tree), fs.faults, old(term.pending), cfg, pkg, rel, source, target)
  {
    if !cfg.dryRun {
      var targetDir := FilePaths.Dir(target);
      ok := fs.MkdirAll(targetDir, Permissions);
      if !ok {
        return;
      }
    }
    var info := fs.Lstat(target);
    if info.Failed? {
      return false;
    }
    if info.Found? {
      var linkDest := fs.Readlink(target);
      if linkDest == Some(source) {
        return true;
      }
      if !ShouldForce(cfg, pkg) {
        var answer := term.Scanln();
        if ToLower(answer.response) != "y" {
          return true;
        }
      }
      ok := ReplaceTarget(fs, cfg, pkg, rel, source, target);
      return;
    }
    ok := true;
    if !cfg.dryRun {
      ok := fs.Symlink(source, target);
    }
  }

  /** The walk callback of LinkPackage for one entry. */
  method LinkEntry(fs: Os.FileSystem, term: Os.Terminal, cfg: Config, host: Host, pkg: string, root: string,
                   entry: WalkEntry) returns (ok: bool)
    modifies fs, term
    ensures Outcome(fs.tree, term.pending, ok) ==
            LinkEntryEffect(old(fs.tree), fs.faults, old(term.pending), cfg, host, pkg, root, entry)
  {
    if entry.WalkError? {
      return false;
    }
    var rel := entry.rel;
    var matches := MatchesConditions(Conditions(cfg, pkg, rel), host.env);
    if !matches {
      return true;
    }
    var target := GetTargetPath(cfg, host.regex, pkg, rel);
    if entry.isDir {
      if cfg.dryRun {
        return true;
      }
      ok := fs.MkdirAll(target, Permissions);
      return;
    }
    ok := LinkFile(fs, term, cfg, pkg, rel, Join(root, rel), target);
  }

  /** LinkPackage: the gate, the package directory check, then the walk. */
  method LinkPackage(fs: Os.FileSystem, term: Os.Terminal, cfg: Config, host: Host, walker: Walker, pkg: string)
    returns (ok: bool)
    modifies fs, term
    ensures Outcome(fs.tree, term.pending, ok) ==
            LinkPackageEffect(old(fs.tree), fs.faults, old(term.pending), cfg, host, walker, pkg)
  {
    var matches := MatchesConditions(Conditions(cfg, pkg, ""), host.env);
    if !matches {
      return true;
    }
    var pkgDir := GetSourcePath(cfg, pkg);
    var pkgDirAbs := host.abs(pkgDir);
    var info := fs.Stat(pkgDirAbs);
    if info.NotExist? {
      return false;
    }
    var entries := walker(pkgDirAbs);
    for i := 0 to |entries|
      invariant LinkWalkEffect(old(fs.tree), fs.faults, old(term.pending), cfg, host, pkg, pkgDirAbs, entries) ==
                LinkWalkEffect(fs.tree, fs.faults, term.pending, cfg, host, pkg, pkgDirAbs, entries[i..])
    {
      assert entries[i..][1..] == entries[i + 1..];
      ok := LinkEntry(fs, term, cfg, host, pkg, pkgDirAbs, entries[i]);
      if !ok {
        return;
      }
    }
    return true;
  }

  /** LinkPackages: refuse an empty list, then link the packages in order until one fails. */
  method LinkPackages(fs: Os.FileSystem, term: Os.Terminal, cfg: Config, host: Host, walker: Walker,
                      packages: seq<string>) returns (ok: bool)
    modifies fs, term
    ensures Outcome(fs.tree, term.pending, ok) ==
            LinkPackagesEffect(old(fs.tree), fs.faults, old(term.pending), cfg, host, walker, packages)
  {
    if |packages| == 0 {
      return false;
    }
    for i := 0 to |packages|
      invariant LinkEachEffect(old(fs.tree), fs.faults, old(term.pending), cfg, host, walker, packages) ==
                LinkEachEffect(fs.tree, fs.faults, term.pending, cfg, host, walker, packages[i..])
    {
      assert packages[i..][1..] == packages[i + 1..];
      ok := LinkPackage(fs, term, cfg, host, walker, packages[i]);
      if !ok {
        return;
      }
    }
    return true;
  }
}
