/** What the unlink engine promises: dry-run, which targets it touches, the restore step and the round trip. */
module UnlinkProperties {
  import opened Wrappers
  import FilePaths
  import opened Posix
  import opened Environment
  import opened Config
  import opened Engine
  import opened Unlink
  import Link
  import LinkProperties
  import IoUtils

  /** In dry-run unlinkFile changes nothing. */
  lemma UnlinkFileDryRun(t: Tree, faults: Faults, cfg: Config, host: Host, pkg: string, rel: string,
                         source: string, target: string)
    requires IsDryRun(cfg, host.regex, pkg, rel)
    ensures UnlinkFileEffect(t, faults, cfg, host, pkg, rel, source, target).tree == t
  {
  }

  /** With every file of the package in dry-run, no walk entry changes anything. */
  lemma UnlinkEntryDryRun(t: Tree, faults: Faults, cfg: Config, host: Host, pkg: string, root: string,
                          dirs: seq<string>, entry: WalkEntry)
    requires forall rel :: IsDryRun(cfg, host.regex, pkg, rel)
    ensures UnlinkEntryEffect(t, faults, cfg, host, pkg, root, dirs, entry).tree == t
  {
    if entry.Visit? {
      var rel := entry.rel;
      var target := GetTargetPath(cfg, host, pkg, rel);
      UnlinkFileDryRun(t, faults, cfg, host, pkg, rel, FilePaths.Join(root, rel), target);
    }
  }

  lemma {:induction false} UnlinkWalkDryRun(t: Tree, faults: Faults, cfg: Config, host: Host, pkg: string,
                                            root: string, dirs: seq<string>, entries: seq<WalkEntry>)
    requires forall rel :: IsDryRun(cfg, host.regex, pkg, rel)
    ensures UnlinkWalkEffect(t, faults, cfg, host, pkg, root, dirs, entries).tree == t
    decreases |entries|
  {
    if entries != [] {
      var first := UnlinkEntryEffect(t, faults, cfg, host, pkg, root, dirs, entries[0]);
      UnlinkEntryDryRun(t, faults, cfg, host, pkg, root, dirs, entries[0]);
      UnlinkWalkDryRun(first.tree, faults, cfg, host, pkg, root, first.dirs, entries[1..]);
    }
  }

  /**
   * A package in dry-run, by its own flag or the global one, changes nothing,
   * cleanup included, whatever its file entries say.
   */
  lemma UnlinkPackageDryRun(t: Tree, faults: Faults, cfg: Config, host: Host, walker: Walker, pkg: string)
    requires cfg.dryRun || (pkg in cfg.packages && cfg.packages[pkg].dryRun)
    ensures UnlinkPackageEffect(t, faults, cfg, host, walker, pkg).tree == t
  {
    PackageDryRunCoversFiles(cfg, host.regex, pkg);
    var root := host.abs(GetSourcePath(cfg, host, pkg));
    UnlinkWalkDryRun(t, faults, cfg, host, pkg, root, [], walker(root));
  }

  lemma {:induction false} UnlinkEachDryRun(t: Tree, faults: Faults, cfg: Config, host: Host, walker: Walker,
                                            packages: seq<string>)
    requires cfg.dryRun
    ensures UnlinkEachEffect(t, faults, cfg, host, walker, packages).tree == t
    decreases |packages|
  {
    if packages != [] {
      UnlinkPackageDryRun(t, faults, cfg, host, walker, packages[0]);
      UnlinkEachDryRun(t, faults, cfg, host, walker, packages[1..]);
    }
  }

  /** A global dry-run leaves the file system exactly as it was, cleanup included. */
  lemma UnlinkPackagesDryRun(t: Tree, faults: Faults, cfg: Config, host: Host, walker: Walker,
                             packages: seq<string>)
    requires cfg.dryRun
    ensures UnlinkPackagesEffect(t, faults, cfg, host, walker, packages).tree == t
  {
    UnlinkEachDryRun(t, faults, cfg, host, walker, packages);
  }

  /** A missing target, or one that is not a symbolic link, is left alone without an error. */
  lemma NonLinkTargetUntouched(t: Tree, faults: Faults, cfg: Config, host: Host, pkg: string, rel: string,
                               source: string, target: string)
    requires (LstatOp, target) !in faults
    requires target !in t || !t[target].Symlink?
    ensures UnlinkFileEffect(t, faults, cfg, host, pkg, rel, source, target) == Change(t, true)
  {
  }

  /** The calls on the target cannot fail. */
  predicate TargetCallsSucceed(faults: Faults, target: string) {
    (LstatOp, target) !in faults && (ReadlinkOp, target) !in faults && (RemoveOp, target) !in faults
  }

  /** Without a backup, the link to the source is removed and nothing else changes. */
  lemma OwnLinkRemoved(t: Tree, faults: Faults, cfg: Config, host: Host, pkg: string, rel: string,
                       source: string, target: string)
    requires !IsDryRun(cfg, host.regex, pkg, rel) && GetBackupPath(cfg, host, pkg, rel) == ""
    requires target != "" && target in t && t[target] == Symlink(source) && TargetCallsSucceed(faults, target)
    ensures UnlinkFileEffect(t, faults, cfg, host, pkg, rel, source, target) == Change(t - {target}, true)
  {
  }

  /**
   * With a backup, the link to the source gives way to a regular file with
   * the backup's bytes and permission bits, and the backup is deleted.
   */
  lemma OwnLinkRestored(t: Tree, cfg: Config, host: Host, pkg: string, rel: string, source: string,
                        target: string, data: seq<bv8>, perm: Perm)
    requires !IsDryRun(cfg, host.regex, pkg, rel)
    requires target != "" && target in t && t[target] == Symlink(source)
    requires var b := GetBackupPath(cfg, host, pkg, rel); b != "" && b != target && b in t && t[b] == File(data, perm)
    ensures UnlinkFileEffect(t, {}, cfg, host, pkg, rel, source, target) ==
            Change(t[target := File(data, perm)] - {GetBackupPath(cfg, host, pkg, rel)}, true)
  {
    var b := GetBackupPath(cfg, host, pkg, rel);
    var removed := t - {target};
    assert Stat(removed, {}, b) == Found(File(data, perm));
    assert ReadFile(removed, {}, b) == Some(data);
    assert Resolve(removed, target, MaxSymlinkHops) == Some(target);
    var copied := removed[target := File(data, perm)];
    assert IoUtils.CopyFile(removed, {}, b, target) == Change(copied, true);
    assert copied - {b} == t[target := File(data, perm)] - {b};
  }

  /** WriteFile lands on a node that is not a link, so every symbolic link survives it unchanged. */
  lemma WriteFileKeepsLinks(t: Tree, faults: Faults, p: string, data: seq<bv8>, perm: Perm, k: string)
    requires k in t && t[k].Symlink?
    ensures var r := WriteFile(t, faults, p, data, perm).tree; k in r && r[k] == t[k]
  {
  }

  /**
   * A link that points elsewhere is never removed, whatever the restore step
   * does, as long as the backup path is not the target itself.
   */
  lemma ForeignLinkKept(t: Tree, faults: Faults, cfg: Config, host: Host, pkg: string, rel: string,
                        source: string, target: string)
    requires target in t && t[target].Symlink? && t[target].dest != source
    requires GetBackupPath(cfg, host, pkg, rel) != target
    ensures var r := UnlinkFileEffect(t, faults, cfg, host, pkg, rel, source, target).tree;
      target in r && r[target] == t[target]
  {
    var b := GetBackupPath(cfg, host, pkg, rel);
    if Lstat(t, faults, target).Found? && Readlink(t, faults, target).Some? && b != "" && Stat(t, faults, b).Found? {
      var data := ReadFile(t, faults, b);
      if data.Some? && Stat(t, faults, b).Found? {
        WriteFileKeepsLinks(t, faults, target, data.value, IoUtils.PermOf(Stat(t, faults, b).node), target);
      }
    }
  }

  /**
   * The restore step runs for a foreign link too, and os.WriteFile follows
   * it: the file the foreign link points at is overwritten with the backup,
   * and the link itself stays.
   */
  lemma ForeignLinkRestoreWritesThrough(t: Tree, cfg: Config, host: Host, pkg: string, rel: string,
                                        source: string, target: string, data: seq<bv8>, perm: Perm)
    requires !IsDryRun(cfg, host.regex, pkg, rel)
    requires target != "" && target in t && t[target].Symlink? && t[target].dest != source
    requires var d := LinkTarget(target, t[target].dest); d in t && t[d].File?
    requires var b := GetBackupPath(cfg, host, pkg, rel);
      b != "" && b != target && b != LinkTarget(target, t[target].dest)
    requires var b := GetBackupPath(cfg, host, pkg, rel); b in t && t[b] == File(data, perm)
    ensures var d := LinkTarget(target, t[target].dest);
      UnlinkFileEffect(t, {}, cfg, host, pkg, rel, source, target) ==
      Change(t[d := File(data, t[d].perm)] - {GetBackupPath(cfg, host, pkg, rel)}, true)
  {
    var b := GetBackupPath(cfg, host, pkg, rel);
    var d := LinkTarget(target, t[target].dest);
    assert Resolve(t, target, MaxSymlinkHops) == Some(d);
    assert ReadFile(t, {}, b) == Some(data);
    assert IoUtils.CopyFile(t, {}, b, target) == Change(t[d := File(data, t[d].perm)], true);
  }

  /**
   * Link then unlink: a missing target that linkFile links is removed again
   * by unlinkFile, which gives back the file system linkFile started from.
   */
  lemma LinkThenUnlink(t: Tree, faults: Faults, pending: seq<ScanResult>, cfg: Config, host: Host,
                       pkg: string, rel: string, source: string, target: string)
    requires !IsDryRun(cfg, host.regex, pkg, rel) && GetBackupPath(cfg, host, pkg, rel) == ""
    requires LinkProperties.ParentIsDirectory(t, faults, target)
    requires target != "" && target !in t && TargetCallsSucceed(faults, target) && (SymlinkOp, target) !in faults
    requires Link.Expand(host, target) == target && Link.Expand(host, source) == source
    ensures var linked := Link.LinkFileEffect(t, faults, pending, cfg, host, pkg, rel, source, target);
      linked.ok && UnlinkFileEffect(linked.tree, faults, cfg, host, pkg, rel, source, target) == Change(t, true)
  {
    LinkProperties.MissingTargetLinked(t, faults, pending, cfg, host, pkg, rel, source, target);
    var linked := t[target := Symlink(source)];
    OwnLinkRemoved(linked, faults, cfg, host, pkg, rel, source, target);
    assert linked - {target} == t;
  }

  /** A directory entry only records its target; the tree is not touched during the walk. */
  lemma DirectoryEntryRecorded(t: Tree, faults: Faults, cfg: Config, host: Host, pkg: string, root: string,
                               dirs: seq<string>, rel: string)
    requires ConditionsHold(EffectiveConfig(cfg, host.regex, pkg, rel).conditions, host.env)
    ensures var r := UnlinkEntryEffect(t, faults, cfg, host, pkg, root, dirs, Visit(rel, true));
      r.tree == t && r.ok && GetTargetPath(cfg, host, pkg, rel) in r.dirs && (forall q :: q in dirs ==> q in r.dirs)
  {
  }

  /** The directories recorded by a walk are those recorded before plus targets of directory entries. */
  lemma {:induction false} WalkRecordsOnlyDirectoryTargets(t: Tree, faults: Faults, cfg: Config, host: Host,
                                                           pkg: string, root: string, dirs: seq<string>,
                                                           entries: seq<WalkEntry>, q: string)
    requires q in UnlinkWalkEffect(t, faults, cfg, host, pkg, root, dirs, entries).dirs
    ensures q in dirs || exists i :: 0 <= i < |entries| && entries[i].Visit? && entries[i].isDir &&
                                     q == GetTargetPath(cfg, host, pkg, entries[i].rel)
    decreases |entries|
  {
    if entries != [] {
      var first := UnlinkEntryEffect(t, faults, cfg, host, pkg, root, dirs, entries[0]);
      if first.ok {
        WalkRecordsOnlyDirectoryTargets(first.tree, faults, cfg, host, pkg, root, first.dirs, entries[1..], q);
        if q !in dirs {
          if q in first.dirs {
            assert entries[0].Visit? && entries[0].isDir;
          } else {
            var i :| 0 <= i < |entries[1..]| && entries[1..][i].Visit? && entries[1..][i].isDir &&
                     q == GetTargetPath(cfg, host, pkg, entries[1..][i].rel);
            assert entries[i + 1] == entries[1..][i];
          }
        }
      }
    }
  }

  /** A package whose conditions fail is skipped successfully: nothing is unlinked or cleaned up. */
  lemma FailedPackageConditionsSkip(t: Tree, faults: Faults, cfg: Config, host: Host, walker: Walker, pkg: string)
    requires !ConditionsHold(EffectiveConfig(cfg, host.regex, pkg, "").conditions, host.env)
    ensures UnlinkPackageEffect(t, faults, cfg, host, walker, pkg) == Change(t, true)
  {
  }

  /** A package directory that does not exist is an error, with no change and no cleanup. */
  lemma MissingPackageDirFails(t: Tree, faults: Faults, cfg: Config, host: Host, walker: Walker, pkg: string)
    requires ConditionsHold(EffectiveConfig(cfg, host.regex, pkg, "").conditions, host.env)
    requires var root := host.abs(GetSourcePath(cfg, host, pkg)); root !in t && (StatOp, root) !in faults
    ensures UnlinkPackageEffect(t, faults, cfg, host, walker, pkg) == Change(t, false)
  {
  }

  /** An entry whose own conditions fail is skipped: not unlinked, and not recorded for cleanup. */
  lemma FailedFileConditionsSkip(t: Tree, faults: Faults, cfg: Config, host: Host, pkg: string, root: string,
                                 dirs: seq<string>, rel: string, isDir: bool)
    requires !ConditionsHold(EffectiveConfig(cfg, host.regex, pkg, rel).conditions, host.env)
    ensures UnlinkEntryEffect(t, faults, cfg, host, pkg, root, dirs, Visit(rel, isDir)) == Progress(t, true, dirs)
  {
  }

  /**
   * The round trip with a backup: a regular file that a forced link backs up
   * and replaces comes back, bytes and permission bits, when the file is
   * unlinked, and the backup is gone again.
   */
  lemma LinkThenUnlinkRestoresBackup(t: Tree, pending: seq<ScanResult>, cfg: Config, host: Host, pkg: string,
                                     rel: string, source: string, target: string, data: seq<bv8>, perm: Perm)
    requires !IsDryRun(cfg, host.regex, pkg, rel) && ShouldForce(cfg, host.regex, pkg, rel)
    requires LinkProperties.ParentIsDirectory(t, {}, target) && target != "" && target in t && t[target] == File(data, perm)
    requires var b := GetBackupPath(cfg, host, pkg, rel);
      b != "" && b != target && b !in t && LinkProperties.ParentIsDirectory(t, {}, b)
    requires Link.Expand(host, target) == target && Link.Expand(host, source) == source
    ensures var linked := Link.LinkFileEffect(t, {}, pending, cfg, host, pkg, rel, source, target);
      linked.ok && UnlinkFileEffect(linked.tree, {}, cfg, host, pkg, rel, source, target) == Change(t, true)
  {
    var b := GetBackupPath(cfg, host, pkg, rel);
    LinkProperties.ForcedConflictBackedUp(t, pending, cfg, host, pkg, rel, source, target, data, perm);
    var linked := t[b := File(data, perm)][target := Symlink(source)];
    OwnLinkRestored(linked, cfg, host, pkg, rel, source, target, data, perm);
    BackupUndone(t, b, target, Symlink(source));
  }

  /** Putting the saved node back over the target and dropping the backup undoes the backup and the link. */
  lemma BackupUndone(t: Tree, b: string, target: string, link: Node)
    requires target in t && b !in t
    ensures t[b := t[target]][target := link][target := t[target]] - {b} == t
  {
  }
}
