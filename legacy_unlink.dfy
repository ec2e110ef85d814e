/**
 * The earlier unlink engine (internal/unlink/unlink.go). It follows the same
 * steps as the current one, with these differences: there is no condition
 * gate; dry-run is the global flag alone; a restore is tried only when the
 * global backup directory is set; and it copies with the earlier copyFile.
 */
module LegacyUnlink {
  import opened Wrappers
  import opened FilePaths
  import opened Posix
  import opened Environment
  import opened LegacyConfig
  import opened Engine
  import Unlink
  import LegacyLink
  import DirCleanup
  import Os

  /** The restore step: a backup that os.Stat finds is copied over the target and deleted. */
  function Restore(t: Tree, faults: Faults, dry: bool, backupPath: string, target: string): Change
  {
    if !Stat(t, faults, backupPath).Found? || dry then Change(t, true)
    else
      var copied := LegacyLink.CopyFile(t, faults, backupPath, target);
      if !copied.ok then copied
      else Change(Remove(copied.tree, faults, backupPath).tree, true)
  }

  /**
   * unlinkFile: a missing target or a target that is not a link is left
   * alone; a link to the source is removed unless in dry-run; any link then
   * goes through the restore step when the global backup directory is set.
   */
  function UnlinkFileEffect(t: Tree, faults: Faults, cfg: Config, pkg: string, rel: string,
                            source: string, target: string): Change
  {
    match Lstat(t, faults, target)
    case NotExist => Change(t, true)
    case Failed => Change(t, false)
    case Found(n) =>
      if !n.Symlink? then Change(t, true)
      else match Readlink(t, faults, target)
        case None => Change(t, false)
        case Some(dest) =>
          var removed := if dest == source && !cfg.dryRun then Remove(t, faults, target) else Change(t, true);
          if !removed.ok then removed
          else if cfg.backupDir == "" then removed
          else Restore(removed.tree, faults, cfg.dryRun, GetBackupPath(cfg, pkg, rel), target)
  }

  /** The walk callback: record a directory's target, unlink a file. */
  function UnlinkEntryEffect(t: Tree, faults: Faults, cfg: Config, host: Host, pkg: string, root: string,
                             dirs: seq<string>, entry: WalkEntry): Unlink.Progress
  {
    match entry
    case WalkError => Unlink.Progress(t, false, dirs)
    case Visit(rel, isDir) =>
      var target := TargetPath(cfg, host.regex, pkg, rel);
      if isDir then Unlink.Progress(t, true, Unlink.Record(dirs, target))
      else
        var c := UnlinkFileEffect(t, faults, cfg, pkg, rel, Join(root, rel), target);
        Unlink.Progress(c.tree, c.ok, dirs)
  }

  function UnlinkWalkEffect(t: Tree, faults: Faults, cfg: Config, host: Host, pkg: string, root: string,
                            dirs: seq<string>, entries: seq<WalkEntry>): Unlink.Progress
    decreases |entries|
  {
    if entries == [] then Unlink.Progress(t, true, dirs)
    else
      var first := UnlinkEntryEffect(t, faults, cfg, host, pkg, root, dirs, entries[0]);
      if !first.ok then first
      else UnlinkWalkEffect(first.tree, faults, cfg, host, pkg, root, first.dirs, entries[1..])
  }

  /** UnlinkPackage: the package directory check, the walk, then (unless dry-run) the cleanup. */
  function UnlinkPackageEffect(t: Tree, faults: Faults, cfg: Config, host: Host, walker: Walker, pkg: string): Change
  {
    var root := host.abs(GetSourcePath(cfg, pkg));
    if Stat(t, faults, root).NotExist? then Change(t, false)
    else
      var walked := UnlinkWalkEffect(t, faults, cfg, host, pkg, root, [], walker(root));
      if !walked.ok then Change(walked.tree, false)
      else if cfg.dryRun then Change(walked.tree, true)
      else Change(DirCleanup.RemoveEmptyDirs(walked.tree, faults, DirCleanup.SortedByDepth(walked.dirs)), true)
  }

  function UnlinkEachEffect(t: Tree, faults: Faults, cfg: Config, host: Host, walker: Walker,
                            packages: seq<string>): Change
    decreases |packages|
  {
    if packages == [] then Change(t, true)
    else
      var first := UnlinkPackageEffect(t, faults, cfg, host, walker, packages[0]);
      if !first.ok then first
      else UnlinkEachEffect(first.tree, faults, cfg, host, walker, packages[1..])
  }

  /** UnlinkPackages: an empty package list is an error. */
  function UnlinkPackagesEffect(t: Tree, faults: Faults, cfg: Config, host: Host, walker: Walker,
                                packages: seq<string>): (r: Change)
    ensures packages == [] ==> r == Change(t, false)
  {
    if packages == [] then Change(t, false)
    else UnlinkEachEffect(t, faults, cfg, host, walker, packages)
  }

  /** The restore step on the file system. */
  method RestoreBackup(fs: Os.FileSystem, dry: bool, backupPath: string, target: string) returns (ok: bool)
    modifies fs
    ensures Change(fs.tree, ok) == Restore(old(fs.tree), fs.faults, dry, backupPath, target)
  {
    var info := fs.Stat(backupPath);
    if info.Found? && !dry {
      ok := LegacyLink.CopyFileOn(fs, backupPath, target);
      if !ok {
        return;
      }
      var _ := fs.Remove(backupPath);
    }
    ok := true;
  }

  /** unlinkFile on the file system. */
  method UnlinkFile(fs: Os.FileSystem, cfg: Config, pkg: string, rel: string, source: string, target: string)
    returns (ok: bool)
    modifies fs
    ensures Change(fs.tree, ok) == UnlinkFileEffect(old(fs.tree), fs.faults, cfg, pkg, rel, source, target)
  {
    var fi := fs.Lstat(target);
    if fi.NotExist? {
      return true;
    }
    if fi.Failed? {
      return false;
    }
    if !fi.node.Symlink? {
      return true;
    }
    var linkDest := fs.Readlink(target);
    if linkDest.None? {
      return false;
    }
    if linkDest.value == source && !cfg.dryRun {
      ok := fs.Remove(target);
      if !ok {
        return;
      }
    }
    ok := true;
    if cfg.backupDir != "" {
      var backupPath := GetBackupPath(cfg, pkg, rel);
      ok := RestoreBackup(fs, cfg.dryRun, backupPath, target);
    }
  }

  /** The walk callback for one entry; dirs is the emptyDirs map so far. */
  method UnlinkEntry(fs: Os.FileSystem, cfg: Config, host: Host, pkg: string, root: string,
                     dirs: seq<string>, entry: WalkEntry) returns (ok: bool, dirs': seq<string>)
    modifies fs
    ensures Unlink.Progress(fs.tree, ok, dirs') ==
            UnlinkEntryEffect(old(fs.tree), fs.faults, cfg, host, pkg, root, dirs, entry)
  {
    dirs' := dirs;
    if entry.WalkError? {
      return false, dirs';
    }
    var rel := entry.rel;
    var target := GetTargetPath(cfg, host.regex, pkg, rel);
    if entry.isDir {
      if target !in dirs {
        dirs' := dirs + [target];
      }
      return true, dirs';
    }
    ok := UnlinkFile(fs, cfg, pkg, rel, Join(root, rel), target);
  }

  /** UnlinkPackage: the package directory check, the walk, then the cleanup. */
  method UnlinkPackage(fs: Os.FileSystem, cfg: Config, host: Host, walker: Walker, pkg: string) returns (ok: bool)
    modifies fs
    ensures Change(fs.tree, ok) == UnlinkPackageEffect(old(fs.tree), fs.faults, cfg, host, walker, pkg)
  {
    var pkgDir := GetSourcePath(cfg, pkg);
    var pkgDirAbs := host.abs(pkgDir);
    var info := fs.Stat(pkgDirAbs);
    if info.NotExist? {
      return false;
    }
    var entries := walker(pkgDirAbs);
    var emptyDirs: seq<string> := [];
    for i := 0 to |entries|
      invariant UnlinkWalkEffect(old(fs.tree), fs.faults, cfg, host, pkg, pkgDirAbs, [], entries) ==
                UnlinkWalkEffect(fs.tree, fs.faults, cfg, host, pkg, pkgDirAbs, emptyDirs, entries[i..])
    {
      assert entries[i..][1..] == entries[i + 1..];
      ok, emptyDirs := UnlinkEntry(fs, cfg, host, pkg, pkgDirAbs, emptyDirs, entries[i]);
      if !ok {
        return;
      }
    }
    if !cfg.dryRun {
      DirCleanup.CleanUp(fs, emptyDirs);
    }
    return true;
  }

  /** UnlinkPackages: refuse an empty list, then unlink the packages in order until one fails. */
  method UnlinkPackages(fs: Os.FileSystem, cfg: Config, host: Host, walker: Walker, packages: seq<string>)
    returns (ok: bool)
    modifies fs
    ensures Change(fs.tree, ok) == UnlinkPackagesEffect(old(fs.tree), fs.faults, cfg, host, walker, packages)
  {
    if |packages| == 0 {
      return false;
    }
    for i := 0 to |packages|
      invariant UnlinkEachEffect(old(fs.tree), fs.faults, cfg, host, walker, packages) ==
                UnlinkEachEffect(fs.tree, fs.faults, cfg, host, walker, packages[i..])
    {
      assert packages[i..][1..] == packages[i + 1..];
      ok := UnlinkPackage(fs, cfg, host, walker, packages[i]);
      if !ok {
        return;
      }
    }
    return true;
  }
}
