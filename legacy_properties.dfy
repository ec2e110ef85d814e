/**
 * What the earlier link and unlink engines promise, and where they differ
 * from the current ones: dry-run still asks, a failed read only skips, copies
 * get mode 0644, and restores depend on the global backup directory.
 */
module LegacyProperties {
  import opened Wrappers
  import opened Text
  import FilePaths
  import opened Posix
  import opened Environment
  import opened LegacyConfig
  import opened Engine
  import LegacyLink
  import LegacyUnlink
  import LinkProperties

  /** In dry-run linkFile leaves the file system alone (though it may read an answer). */
  lemma LinkFileDryRun(t: Tree, faults: Faults, pending: seq<ScanResult>, cfg: Config,
                       pkg: string, rel: string, source: string, target: string)
    requires cfg.dryRun
    ensures LegacyLink.LinkFileEffect(t, faults, pending, cfg, pkg, rel, source, target).tree == t
  {
  }

  lemma LinkEntryDryRun(t: Tree, faults: Faults, pending: seq<ScanResult>, cfg: Config, host: Host,
                        pkg: string, root: string, entry: WalkEntry)
    requires cfg.dryRun
    ensures LegacyLink.LinkEntryEffect(t, faults, pending, cfg, host, pkg, root, entry).tree == t
  {
    if entry.Visit? && !entry.isDir {
      var rel := entry.rel;
      LinkFileDryRun(t, faults, pending, cfg, pkg, rel, FilePaths.Join(root, rel), TargetPath(cfg, host.regex, pkg, rel));
    }
  }

  lemma {:induction false} LinkWalkDryRun(t: Tree, faults: Faults, pending: seq<ScanResult>, cfg: Config,
                                          host: Host, pkg: string, root: string, entries: seq<WalkEntry>)
    requires cfg.dryRun
    ensures LegacyLink.LinkWalkEffect(t, faults, pending, cfg, host, pkg, root, entries).tree == t
    decreases |entries|
  {
    if entries != [] {
      var first := LegacyLink.LinkEntryEffect(t, faults, pending, cfg, host, pkg, root, entries[0]);
      LinkEntryDryRun(t, faults, pending, cfg, host, pkg, root, entries[0]);
      LinkWalkDryRun(first.tree, faults, first.pending, cfg, host, pkg, root, entries[1..]);
    }
  }

  lemma {:induction false} LinkEachDryRun(t: Tree, faults: Faults, pending: seq<ScanResult>, cfg: Config,
                                          host: Host, walker: Walker, packages: seq<string>)
    requires cfg.dryRun
    ensures LegacyLink.LinkEachEffect(t, faults, pending, cfg, host, walker, packages).tree == t
    decreases |packages|
  {
    if packages != [] {
      var pkg := packages[0];
      var first := LegacyLink.LinkPackageEffect(t, faults, pending, cfg, host, walker, pkg);
      var root := host.abs(GetSourcePath(cfg, pkg));
      LinkWalkDryRun(t, faults, pending, cfg, host, pkg, root, walker(root));
      LinkEachDryRun(first.tree, faults, first.pending, cfg, host, walker, packages[1..]);
    }
  }

  /** Dry-run links nothing, creates no directory and backs nothing up. */
  lemma LinkPackagesDryRun(t: Tree, faults: Faults, pending: seq<ScanResult>, cfg: Config, host: Host,
                           walker: Walker, packages: seq<string>)
    requires cfg.dryRun
    ensures LegacyLink.LinkPackagesEffect(t, faults, pending, cfg, host, walker, packages).tree == t
  {
    LinkEachDryRun(t, faults, pending, cfg, host, walker, packages);
  }

  /** A target in conflict with the link: it exists and is not already the link to the source. */
  predicate Conflict(t: Tree, faults: Faults, source: string, target: string) {
    target != "" && target in t && t[target] != Symlink(source) && (LstatOp, target) !in faults
  }

  /** Unlike the current engine, a dry run still asks about a conflict, and uses up one answer. */
  lemma DryRunStillAsks(t: Tree, faults: Faults, pending: seq<ScanResult>, cfg: Config,
                        pkg: string, rel: string, source: string, target: string)
    requires cfg.dryRun && !ShouldForce(cfg, pkg)
    requires Conflict(t, faults, source, target) && pending != []
    ensures LegacyLink.LinkFileEffect(t, faults, pending, cfg, pkg, rel, source, target) ==
            Outcome(t, pending[1..], true)
  {
  }

  /** A read that fails at end of input leaves the answer empty: the file is skipped, not an error. */
  lemma FailedReadSkips(t: Tree, faults: Faults, cfg: Config, pkg: string, rel: string, source: string,
                        target: string)
    requires !cfg.dryRun && !ShouldForce(cfg, pkg)
    requires LinkProperties.ParentIsDirectory(t, faults, target) && Conflict(t, faults, source, target)
    ensures LegacyLink.LinkFileEffect(t, faults, [], cfg, pkg, rel, source, target) == Outcome(t, [], true)
  {
    MkdirAllExisting(t, faults, FilePaths.Dir(target), LegacyLink.Permissions);
  }

  /** The read's error is not looked at: a "y" stored before the error still lets the conflict go ahead. */
  lemma ScanErrorIgnored(t: Tree, faults: Faults, rest: seq<ScanResult>, cfg: Config, pkg: string, rel: string,
                         source: string, target: string)
    requires !cfg.dryRun && !ShouldForce(cfg, pkg)
    requires LinkProperties.ParentIsDirectory(t, faults, target) && Conflict(t, faults, source, target)
    ensures var c := LegacyLink.Replace(t, faults, cfg, pkg, rel, source, target);
      LegacyLink.LinkFileEffect(t, faults, [ScanResult("y", true)] + rest, cfg, pkg, rel, source, target) ==
      Outcome(c.tree, rest, c.ok)
  {
    MkdirAllExisting(t, faults, FilePaths.Dir(target), LegacyLink.Permissions);
    assert ([ScanResult("y", true)] + rest)[1..] == rest;
    assert ToLower("y") == "y";
  }

  /**
   * A forced conflict over a regular file, with a backup path: the file's
   * bytes are copied to the backup path with mode 0644, the file is removed,
   * and the target becomes the link to the source path as given.
   */
  lemma ForcedConflictBackedUp(t: Tree, pending: seq<ScanResult>, cfg: Config, pkg: string, rel: string,
                               source: string, target: string, data: seq<bv8>, perm: Perm)
    requires !cfg.dryRun && ShouldForce(cfg, pkg)
    requires LinkProperties.ParentIsDirectory(t, {}, target) && target != "" && target in t && t[target] == File(data, perm)
    requires var b := GetBackupPath(cfg, pkg, rel);
      b != "" && b != target && b !in t && LinkProperties.ParentIsDirectory(t, {}, b)
    ensures LegacyLink.LinkFileEffect(t, {}, pending, cfg, pkg, rel, source, target) ==
            Outcome(t[GetBackupPath(cfg, pkg, rel) := File(data, LegacyLink.CopyMode)][target := Symlink(source)],
                    pending, true)
  {
    MkdirAllExisting(t, {}, FilePaths.Dir(target), LegacyLink.Permissions);
    var b := GetBackupPath(cfg, pkg, rel);
    MkdirAllExisting(t, {}, FilePaths.Dir(b), LegacyLink.Permissions);
    assert Stat(t, {}, target) == Found(File(data, perm));
    CopyToNewPathIs0644(t, {}, target, b);
    var saved := t[b := File(data, LegacyLink.CopyMode)];
    assert (saved - {target})[target := Symlink(source)] == saved[target := Symlink(source)];
  }

  /**
   * A forced conflict without a backup path: the target, a file, a link
   * elsewhere or an empty directory, is removed and becomes the link.
   */
  lemma ForcedReplace(t: Tree, pending: seq<ScanResult>, cfg: Config, pkg: string, rel: string,
                      source: string, target: string)
    requires !cfg.dryRun && ShouldForce(cfg, pkg) && GetBackupPath(cfg, pkg, rel) == ""
    requires LinkProperties.ParentIsDirectory(t, {}, target) && Conflict(t, {}, source, target)
    requires t[target].Dir? ==> Children(t, target) == {}
    ensures LegacyLink.LinkFileEffect(t, {}, pending, cfg, pkg, rel, source, target) ==
            Outcome(t[target := Symlink(source)], pending, true)
  {
    MkdirAllExisting(t, {}, FilePaths.Dir(target), LegacyLink.Permissions);
    assert (t - {target})[target := Symlink(source)] == t[target := Symlink(source)];
  }

  /** A missing target gets the link to the source path exactly as given, not expanded. */
  lemma MissingTargetLinked(t: Tree, faults: Faults, pending: seq<ScanResult>, cfg: Config,
                            pkg: string, rel: string, source: string, target: string)
    requires !cfg.dryRun
    requires LinkProperties.ParentIsDirectory(t, faults, target)
    requires target != "" && target !in t && (LstatOp, target) !in faults && (SymlinkOp, target) !in faults
    ensures LegacyLink.LinkFileEffect(t, faults, pending, cfg, pkg, rel, source, target) ==
            Outcome(t[target := Symlink(source)], pending, true)
  {
    MkdirAllExisting(t, faults, FilePaths.Dir(target), LegacyLink.Permissions);
  }

  /** A target that already is the link to the source is left alone, dry-run or not, and nothing is asked. */
  lemma AlreadyLinkedIsNoOp(t: Tree, faults: Faults, pending: seq<ScanResult>, cfg: Config,
                            pkg: string, rel: string, source: string, target: string)
    requires LinkProperties.ParentIsDirectory(t, faults, target)
    requires target != "" && target in t && t[target] == Symlink(source)
    requires (LstatOp, target) !in faults && (ReadlinkOp, target) !in faults
    ensures LegacyLink.LinkFileEffect(t, faults, pending, cfg, pkg, rel, source, target) == Outcome(t, pending, true)
  {
    MkdirAllExisting(t, faults, FilePaths.Dir(target), LegacyLink.Permissions);
  }

  /** Linking a missing target twice is linking it once: the second run finds the link and changes nothing. */
  lemma LinkFileIdempotent(t: Tree, faults: Faults, pending: seq<ScanResult>, cfg: Config,
                           pkg: string, rel: string, source: string, target: string)
    requires !cfg.dryRun
    requires LinkProperties.ParentIsDirectory(t, faults, target)
    requires target != "" && target !in t
    requires (LstatOp, target) !in faults && (ReadlinkOp, target) !in faults && (SymlinkOp, target) !in faults
    ensures var once := LegacyLink.LinkFileEffect(t, faults, pending, cfg, pkg, rel, source, target);
      once.ok && LegacyLink.LinkFileEffect(once.tree, faults, once.pending, cfg, pkg, rel, source, target) == once
  {
    MissingTargetLinked(t, faults, pending, cfg, pkg, rel, source, target);
    var linked := t[target := Symlink(source)];
    assert LinkProperties.ParentIsDirectory(linked, faults, target);
    AlreadyLinkedIsNoOp(linked, faults, pending, cfg, pkg, rel, source, target);
  }

  /** copyFile to a new path creates a file with mode 0644, whatever the source's mode was. */
  lemma CopyToNewPathIs0644(t: Tree, faults: Faults, src: string, dst: string)
    requires dst != "" && dst !in t && (WriteFileOp, dst) !in faults && ReadFile(t, faults, src).Some?
    ensures LegacyLink.CopyFile(t, faults, src, dst) == Change(t[dst := File(ReadFile(t, faults, src).value, 420)], true)
  {
  }

  /** In dry-run unlinkFile changes nothing. */
  lemma UnlinkFileDryRun(t: Tree, faults: Faults, cfg: Config, pkg: string, rel: string, source: string,
                         target: string)
    requires cfg.dryRun
    ensures LegacyUnlink.UnlinkFileEffect(t, faults, cfg, pkg, rel, source, target).tree == t
  {
  }

  lemma {:induction false} UnlinkWalkDryRun(t: Tree, faults: Faults, cfg: Config, host: Host, pkg: string,
                                            root: string, dirs: seq<string>, entries: seq<WalkEntry>)
    requires cfg.dryRun
    ensures LegacyUnlink.UnlinkWalkEffect(t, faults, cfg, host, pkg, root, dirs, entries).tree == t
    decreases |entries|
  {
    if entries != [] {
      var first := LegacyUnlink.UnlinkEntryEffect(t, faults, cfg, host, pkg, root, dirs, entries[0]);
      if entries[0].Visit? {
        var rel := entries[0].rel;
        UnlinkFileDryRun(t, faults, cfg, pkg, rel, FilePaths.Join(root, rel), TargetPath(cfg, host.regex, pkg, rel));
      }
      UnlinkWalkDryRun(first.tree, faults, cfg, host, pkg, root, first.dirs, entries[1..]);
    }
  }

  lemma {:induction false} UnlinkEachDryRun(t: Tree, faults: Faults, cfg: Config, host: Host, walker: Walker,
                                            packages: seq<string>)
    requires cfg.dryRun
    ensures LegacyUnlink.UnlinkEachEffect(t, faults, cfg, host, walker, packages).tree == t
    decreases |packages|
  {
    if packages != [] {
      var root := host.abs(GetSourcePath(cfg, packages[0]));
      UnlinkWalkDryRun(t, faults, cfg, host, packages[0], root, [], walker(root));
      UnlinkEachDryRun(t, faults, cfg, host, walker, packages[1..]);
    }
  }

  /** With the global dry-run flag, unlinking leaves the file system exactly as it was. */
  lemma UnlinkPackagesDryRun(t: Tree, faults: Faults, cfg: Config, host: Host, walker: Walker,
                             packages: seq<string>)
    requires cfg.dryRun
    ensures LegacyUnlink.UnlinkPackagesEffect(t, faults, cfg, host, walker, packages).tree == t
  {
    UnlinkEachDryRun(t, faults, cfg, host, walker, packages);
  }

  /** A missing target, or one that is not a link, is left alone. */
  lemma NonLinkTargetUntouched(t: Tree, faults: Faults, cfg: Config, pkg: string, rel: string,
                               source: string, target: string)
    requires (LstatOp, target) !in faults && (target !in t || !t[target].Symlink?)
    ensures LegacyUnlink.UnlinkFileEffect(t, faults, cfg, pkg, rel, source, target) == Change(t, true)
  {
  }

  /**
   * Without a global backup directory the link to the source is removed and
   * nothing is restored, even when the package has a backup directory of its own.
   */
  lemma OwnLinkRemovedWithoutGlobalBackup(t: Tree, faults: Faults, cfg: Config, pkg: string, rel: string,
                                          source: string, target: string)
    requires !cfg.dryRun && cfg.backupDir == ""
    requires target != "" && target in t && t[target] == Symlink(source)
    requires (LstatOp, target) !in faults && (ReadlinkOp, target) !in faults && (RemoveOp, target) !in faults
    ensures LegacyUnlink.UnlinkFileEffect(t, faults, cfg, pkg, rel, source, target) == Change(t - {target}, true)
  {
  }

  /**
   * With a backup, the link to the source gives way to the backup's bytes in
   * a new file of mode 0644 (the backup's own mode is lost), and the backup
   * is deleted.
   */
  lemma OwnLinkRestored(t: Tree, cfg: Config, pkg: string, rel: string, source: string, target: string,
                        data: seq<bv8>, perm: Perm)
    requires !cfg.dryRun && cfg.backupDir != ""
    requires target != "" && target in t && t[target] == Symlink(source)
    requires var b := GetBackupPath(cfg, pkg, rel); b != "" && b != target && b in t && t[b] == File(data, perm)
    ensures LegacyUnlink.UnlinkFileEffect(t, {}, cfg, pkg, rel, source, target) ==
            Change(t[target := File(data, LegacyLink.CopyMode)] - {GetBackupPath(cfg, pkg, rel)}, true)
  {
    var b := GetBackupPath(cfg, pkg, rel);
    var removed := t - {target};
    assert ReadFile(removed, {}, b) == Some(data);
    assert Resolve(removed, target, MaxSymlinkHops) == Some(target);
    var copied := removed[target := File(data, LegacyLink.CopyMode)];
    assert LegacyLink.CopyFile(removed, {}, b, target) == Change(copied, true);
    assert copied - {b} == t[target := File(data, LegacyLink.CopyMode)] - {b};
  }

  /** Link then unlink, without backups: the file system is back where it started. */
  lemma LinkThenUnlink(t: Tree, faults: Faults, pending: seq<ScanResult>, cfg: Config,
                       pkg: string, rel: string, source: string, target: string)
    requires !cfg.dryRun && cfg.backupDir == ""
    requires LinkProperties.ParentIsDirectory(t, faults, target)
    requires target != "" && target !in t
    requires (LstatOp, target) !in faults && (ReadlinkOp, target) !in faults
    requires (RemoveOp, target) !in faults && (SymlinkOp, target) !in faults
    ensures var linked := LegacyLink.LinkFileEffect(t, faults, pending, cfg, pkg, rel, source, target);
      linked.ok && LegacyUnlink.UnlinkFileEffect(linked.tree, faults, cfg, pkg, rel, source, target) == Change(t, true)
  {
    MissingTargetLinked(t, faults, pending, cfg, pkg, rel, source, target);
    var linked := t[target := Symlink(source)];
    OwnLinkRemovedWithoutGlobalBackup(linked, faults, cfg, pkg, rel, source, target);
    assert linked - {target} == t;
  }

  /** A package whose conditions fail is skipped successfully, with no change and no question asked. */
  lemma FailedPackageConditionsSkip(t: Tree, faults: Faults, pending: seq<ScanResult>, cfg: Config, host: Host,
                                    walker: Walker, pkg: string)
    requires !ConditionsHold(Conditions(cfg, pkg, ""), host.env)
    ensures LegacyLink.LinkPackageEffect(t, faults, pending, cfg, host, walker, pkg) == Outcome(t, pending, true)
  {
  }

  /** A package directory that does not exist is an error, once the conditions hold. */
  lemma MissingPackageDirFails(t: Tree, faults: Faults, pending: seq<ScanResult>, cfg: Config, host: Host,
                               walker: Walker, pkg: string)
    requires ConditionsHold(Conditions(cfg, pkg, ""), host.env)
    requires var root := host.abs(GetSourcePath(cfg, pkg)); root !in t && (StatOp, root) !in faults
    ensures LegacyLink.LinkPackageEffect(t, faults, pending, cfg, host, walker, pkg) == Outcome(t, pending, false)
  {
  }

  /** An entry whose own conditions fail is skipped and the walk goes on. */
  lemma FailedFileConditionsSkip(t: Tree, faults: Faults, pending: seq<ScanResult>, cfg: Config, host: Host,
                                 pkg: string, root: string, rel: string, isDir: bool)
    requires !ConditionsHold(Conditions(cfg, pkg, rel), host.env)
    ensures LegacyLink.LinkEntryEffect(t, faults, pending, cfg, host, pkg, root, Visit(rel, isDir)) ==
            Outcome(t, pending, true)
  {
  }
}
