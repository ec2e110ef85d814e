/**
 * The unlink engine (internal/unlink.go): for every file of a package the
 * symbolic link at its target is removed when it points at the package's
 * source, and a backup, when there is one, is copied back over the target
 * and deleted. The target directories met on the way are recorded and, at
 * the end, the empty ones are removed deepest first.
 */
module Unlink {
  import opened Wrappers
  import opened FilePaths
  import opened Posix
  import opened Environment
  import opened Config
  import opened Engine
  import IoUtils
  import DirCleanup
  import Os

  /**
   * The restore step of unlinkFile: a configured backup that os.Stat finds is
   * copied over the target (dry-run only reports it); a failed copy is an
   * error, a failed removal of the backup afterwards only a warning.
   */
  function Restore(t: Tree, faults: Faults, dry: bool, backupPath: string, target: string): Change
  {
    if backupPath == "" || !Stat(t, faults, backupPath).Found? || dry then Change(t, true)
    else
      var copied := IoUtils.CopyFile(t, faults, backupPath, target);
      if !copied.ok then copied
      else Change(Remove(copied.tree, faults, backupPath).tree, true)
  }

  /**
   * unlinkFile: a missing target or one that is not a symbolic link is left
   * alone; a link that points at the source is removed (not in dry-run);
   * any link, ours or not, then goes through the restore step.
   */
  function UnlinkFileEffect(t: Tree, faults: Faults, cfg: Config, host: Host, pkg: string, rel: string,
                            source: string, target: string): Change
  {
    var dry := IsDryRun(cfg, host.regex, pkg, rel);
    match Lstat(t, faults, target)
    case NotExist => Change(t, true)
    case Failed => Change(t, false)
    case Found(n) =>
      if !n.Symlink? then Change(t, true)
      else match Readlink(t, faults, target)
        case None => Change(t, false)
        case Some(dest) =>
          var removed := if dest == source && !dry then Remove(t, faults, target) else Change(t, true);
          if !removed.ok then removed
          else Restore(removed.tree, faults, dry, GetBackupPath(cfg, host, pkg, rel), target)
  }

  /** The state of the walk: the tree, whether every callback returned nil, the directories recorded. */
  datatype Progress = Progress(tree: Tree, ok: bool, dirs: seq<string>)

  /** emptyDirs[p] = true, with the keys kept in the order they were first set. */
  function Record(dirs: seq<string>, p: string): (r: seq<string>)
    ensures p in r && forall q :: q in r <==> q in dirs || q == p
  {
    if p in dirs then dirs else dirs + [p]
  }

  /**
   * The walk callback of UnlinkPackage for one entry: skip it when its
   * conditions fail, record a directory's target, unlink a file.
   */
  function UnlinkEntryEffect(t: Tree, faults: Faults, cfg: Config, host: Host, pkg: string, root: string,
                             dirs: seq<string>, entry: WalkEntry): Progress
  {
    match entry
    case WalkError => Progress(t, false, dirs)
    case Visit(rel, isDir) =>
      if !ConditionsHold(EffectiveConfig(cfg, host.regex, pkg, rel).conditions, host.env) then
        Progress(t, true, dirs)
      else
        var target := GetTargetPath(cfg, host, pkg, rel);
        if isDir then Progress(t, true, Record(dirs, target))
        else
          var c := UnlinkFileEffect(t, faults, cfg, host, pkg, rel, Join(root, rel), target);
          Progress(c.tree, c.ok, dirs)
  }

  /** filepath.Walk with the callback: entries in order, stopping at the first error. */
  function UnlinkWalkEffect(t: Tree, faults: Faults, cfg: Config, host: Host, pkg: string, root: string,
                            dirs: seq<string>, entries: seq<WalkEntry>): Progress
    decreases |entries|
  {
    if entries == [] then Progress(t, true, dirs)
    else
      var first := UnlinkEntryEffect(t, faults, cfg, host, pkg, root, dirs, entries[0]);
      if !first.ok then first
      else UnlinkWalkEffect(first.tree, faults, cfg, host, pkg, root, first.dirs, entries[1..])
  }

  /**
   * UnlinkPackage: the condition gate, the package directory check, the
   * walk, and then (not in dry-run) the cleanup of the recorded directories.
   */
  function UnlinkPackageEffect(t: Tree, faults: Faults, cfg: Config, host: Host, walker: Walker, pkg: string): Change
  {
    if !ConditionsHold(EffectiveConfig(cfg, host.regex, pkg, "").conditions, host.env) then Change(t, true)
    else
      var root := host.abs(GetSourcePath(cfg, host, pkg));
      if Stat(t, faults, root).NotExist? then Change(t, false)
      else
        var walked := UnlinkWalkEffect(t, faults, cfg, host, pkg, root, [], walker(root));
        if !walked.ok then Change(walked.tree, false)
        else if IsDryRun(cfg, host.regex, pkg, "") then Change(walked.tree, true)
        else Change(DirCleanup.RemoveEmptyDirs(walked.tree, faults, DirCleanup.SortedByDepth(walked.dirs)), true)
  }

  /** The packages in order, stopping at the first that fails. */
  function UnlinkEachEffect(t: Tree, faults: Faults, cfg: Config, host: Host, walker: Walker,
                            packages: seq<string>): Change
    decreases |packages|
  {
    if packages == [] then Change(t, true)
    else
      var first := UnlinkPackageEffect(t, faults, cfg, host, walker, packages[0]);
      if !first.ok then first
      else UnlinkEachEffect(first.tree, faults, cfg, host, walker, packages[1..])
  }

  /** UnlinkPackages: an empty package list is an error. */
  function UnlinkPackagesEffect(t: Tree, faults: Faults, cfg: Config, host: Host, walker: Walker,
                                packages: seq<string>): (r: Change)
    ensures packages == [] ==> r == Change(t, false)
  {
    if packages == [] then Change(t, false)
    else UnlinkEachEffect(t, faults, cfg, host, walker, packages)
  }

  /** The restore step on the file system. */
  method RestoreBackup(fs: Os.FileSystem, dry: bool, backupPath: string, target: string) returns (ok: bool)
    modifies fs
    ensures Change(fs.tree, ok) == Restore(old(fs.tree), fs.faults, dry, backupPath, target)
  {
    if backupPath != "" {
      var info := fs.Stat(backupPath);
      if info.Found? && !dry {
        ok := IoUtils.CopyFileOn(fs, backupPath, target);
        if !ok {
          return;
        }
        var _ := fs.Remove(backupPath);
      }
    }
    ok := true;
  }

  /** unlinkFile on the file system, one system call after another. */
  method UnlinkFile(fs: Os.FileSystem, cfg: Config, host: Host, pkg: string, rel: string,
                    source: string, target: string) returns (ok: bool)
    modifies fs
    ensures Change(fs.tree, ok) == UnlinkFileEffect(old(fs.tree), fs.faults, cfg, host, pkg, rel, source, target)
  {
    var dry := IsDryRun(cfg, host.regex, pkg, rel);
    var fi := fs.Lstat(target);
    if fi.NotExist? {
      return true;
    }
    if fi.Failed? {
      return false;
    }
    if !fi.node.Symlink? {
      return true;
    }
    var linkDest := fs.Readlink(target);
    if linkDest.None? {
      return false;
    }
    if linkDest.value == source && !dry {
      ok := fs.Remove(target);
      if !ok {
        return;
      }
    }
    ok := RestoreBackup(fs, dry, GetBackupPath(cfg, host, pkg, rel), target);
  }

  /** The walk callback of UnlinkPackage for one entry; dirs is the emptyDirs map so far. */
  method UnlinkEntry(fs: Os.FileSystem, cfg: Config, host: Host, pkg: string, root: string,
                     dirs: seq<string>, entry: WalkEntry) returns (ok: bool, dirs': seq<string>)
    modifies fs
    ensures Progress(fs.tree, ok, dirs') == UnlinkEntryEffect(old(fs.tree), fs.faults, cfg, host, pkg, root, dirs, entry)
  {
    dirs' := dirs;
    if entry.WalkError? {
      return false, dirs';
    }
    var rel := entry.rel;
    var fileConfig := GetEffectiveConfig(cfg, host.regex, pkg, rel);
    var matches := MatchesConditions(fileConfig.conditions, host.env);
    if !matches {
      return true, dirs';
    }
    var target := GetTargetPath(cfg, host, pkg, rel);
    if entry.isDir {
      if target !in dirs {
        dirs' := dirs + [target];
      }
      return true, dirs';
    }
    ok := UnlinkFile(fs, cfg, host, pkg, rel, Join(root, rel), target);
  }

  /** UnlinkPackage: the gate, the walk, then the cleanup. */
  method UnlinkPackage(fs: Os.FileSystem, cfg: Config, host: Host, walker: Walker, pkg: string) returns (ok: bool)
    modifies fs
    ensures Change(fs.tree, ok) == UnlinkPackageEffect(old(fs.tree), fs.faults, cfg, host, walker, pkg)
  {
    var pkgConfig := GetEffectiveConfig(cfg, host.regex, pkg, "");
    var matches := MatchesConditions(pkgConfig.conditions, host.env);
    if !matches {
      return true;
    }
    var pkgDir := GetSourcePath(cfg, host, pkg);
    var pkgDirAbs := host.abs(pkgDir);
    var info := fs.Stat(pkgDirAbs);
    if info.NotExist? {
      return false;
    }
    var entries := walker(pkgDirAbs);
    var emptyDirs: seq<string> := [];
    for i := 0 to |entries|
      invariant UnlinkWalkEffect(old(fs.tree), fs.faults, cfg, host, pkg, pkgDirAbs, [], entries) ==
                UnlinkWalkEffect(fs.tree, fs.faults, cfg, host, pkg, pkgDirAbs, emptyDirs, entries[i..])
    {
      assert entries[i..][1..] == entries[i + 1..];
      ok, emptyDirs := UnlinkEntry(fs, cfg, host, pkg, pkgDirAbs, emptyDirs, entries[i]);
      if !ok {
        return;
      }
    }
    if !IsDryRun(cfg, host.regex, pkg, "") {
      DirCleanup.CleanUp(fs, emptyDirs);
    }
    return true;
  }

  /** UnlinkPackages: refuse an empty list, then unlink the packages in order until one fails. */
  method UnlinkPackages(fs: Os.FileSystem, cfg: Config, host: Host, walker: Walker, packages: seq<string>)
    returns (ok: bool)
    modifies fs
    ensures Change(fs.tree, ok) == UnlinkPackagesEffect(old(fs.tree), fs.faults, cfg, host, walker, packages)
  {
    if |packages| == 0 {
      return false;
    }
    for i := 0 to |packages|
      invariant UnlinkEachEffect(old(fs.tree), fs.faults, cfg, host, walker, packages) ==
                UnlinkEachEffect(fs.tree, fs.faults, cfg, host, walker, packages[i..])
    {
      assert packages[i..][1..] == packages[i + 1..];
      ok := UnlinkPackage(fs, cfg, host, walker, packages[i]);
      if !ok {
        return;
      }
    }
    return true;
  }
}
