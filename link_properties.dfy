/** What the link engine promises: dry-run, the three target cases, idempotence, backups and frames. */
module LinkProperties {
  import opened Wrappers
  import opened Text
  import FilePaths
  import opened Posix
  import opened Environment
  import opened Config
  import opened Engine
  import opened Link
  import IoUtils
  import Prompt

  /** In dry-run linkFile changes nothing and reads no answer. */
  lemma LinkFileDryRun(t: Tree, faults: Faults, pending: seq<ScanResult>, cfg: Config, host: Host,
                       pkg: string, rel: string, source: string, target: string)
    requires IsDryRun(cfg, host.regex, pkg, rel)
    ensures var r := LinkFileEffect(t, faults, pending, cfg, host, pkg, rel, source, target);
      r.tree == t && r.pending == pending
  {
  }

  /** With every file of the package in dry-run, no walk entry changes anything. */
  lemma LinkEntryDryRun(t: Tree, faults: Faults, pending: seq<ScanResult>, cfg: Config, host: Host,
                        pkg: string, root: string, entry: WalkEntry)
    requires forall rel :: IsDryRun(cfg, host.regex, pkg, rel)
    ensures var r := LinkEntryEffect(t, faults, pending, cfg, host, pkg, root, entry);
      r.tree == t && r.pending == pending
  {
    if entry.Visit? {
      LinkFileDryRun(t, faults, pending, cfg, host, pkg, entry.rel, FilePaths.Join(root, entry.rel),
                     GetTargetPath(cfg, host, pkg, entry.rel));
    }
  }

  lemma {:induction false} LinkWalkDryRun(t: Tree, faults: Faults, pending: seq<ScanResult>, cfg: Config,
                                          host: Host, pkg: string, root: string, entries: seq<WalkEntry>)
    requires forall rel :: IsDryRun(cfg, host.regex, pkg, rel)
    ensures var r := LinkWalkEffect(t, faults, pending, cfg, host, pkg, root, entries);
      r.tree == t && r.pending == pending
    decreases |entries|
  {
    if entries != [] {
      LinkEntryDryRun(t, faults, pending, cfg, host, pkg, root, entries[0]);
      LinkWalkDryRun(t, faults, pending, cfg, host, pkg, root, entries[1..]);
    }
  }

  /**
   * A package in dry-run, by its own flag or the global one, changes nothing
   * and asks nothing, whatever its file entries say.
   */
  lemma LinkPackageDryRun(t: Tree, faults: Faults, pending: seq<ScanResult>, cfg: Config, host: Host,
                          walker: Walker, pkg: string)
    requires cfg.dryRun || (pkg in cfg.packages && cfg.packages[pkg].dryRun)
    ensures var r := LinkPackageEffect(t, faults, pending, cfg, host, walker, pkg);
      r.tree == t && r.pending == pending
  {
    PackageDryRunCoversFiles(cfg, host.regex, pkg);
    var root := host.abs(GetSourcePath(cfg, host, pkg));
    LinkWalkDryRun(t, faults, pending, cfg, host, pkg, root, walker(root));
  }

  lemma {:induction false} LinkEachDryRun(t: Tree, faults: Faults, pending: seq<ScanResult>, cfg: Config,
                                          host: Host, walker: Walker, packages: seq<string>)
    requires cfg.dryRun
    ensures var r := LinkEachEffect(t, faults, pending, cfg, host, walker, packages);
      r.tree == t && r.pending == pending
    decreases |packages|
  {
    if packages != [] {
      LinkPackageDryRun(t, faults, pending, cfg, host, walker, packages[0]);
      LinkEachDryRun(t, faults, pending, cfg, host, walker, packages[1..]);
    }
  }

  /** A dry run of LinkPackages leaves the file system as it was and never prompts. */
  lemma LinkPackagesDryRun(t: Tree, faults: Faults, pending: seq<ScanResult>, cfg: Config, host: Host,
                           walker: Walker, packages: seq<string>)
    requires cfg.dryRun
    ensures var r := LinkPackagesEffect(t, faults, pending, cfg, host, walker, packages);
      r.tree == t && r.pending == pending
  {
    LinkEachDryRun(t, faults, pending, cfg, host, walker, packages);
  }

  /** The parent of p is a real directory and the calls that look at it cannot fail. */
  predicate ParentIsDirectory(t: Tree, faults: Faults, p: string) {
    FilePaths.Dir(p) in t && t[FilePaths.Dir(p)].Dir? && (StatOp, FilePaths.Dir(p)) !in faults
  }

  /** A target that already is the link to the source is left alone, and nothing is asked. */
  lemma AlreadyLinkedIsNoOp(t: Tree, faults: Faults, pending: seq<ScanResult>, cfg: Config, host: Host,
                            pkg: string, rel: string, source: string, target: string)
    requires ParentIsDirectory(t, faults, target)
    requires target != "" && target in t && t[target] == Symlink(source)
    requires (LstatOp, target) !in faults && (ReadlinkOp, target) !in faults
    ensures LinkFileEffect(t, faults, pending, cfg, host, pkg, rel, source, target) == Outcome(t, pending, true)
  {
    MkdirAllExisting(t, faults, FilePaths.Dir(target), Permissions);
  }

  /** A missing target gets the link from its expanded path to the expanded source, and nothing else. */
  lemma MissingTargetLinked(t: Tree, faults: Faults, pending: seq<ScanResult>, cfg: Config, host: Host,
                            pkg: string, rel: string, source: string, target: string)
    requires !IsDryRun(cfg, host.regex, pkg, rel)
    requires ParentIsDirectory(t, faults, target)
    requires target !in t && (LstatOp, target) !in faults
    requires Expand(host, target) != "" && Expand(host, target) !in t && (SymlinkOp, Expand(host, target)) !in faults
    ensures LinkFileEffect(t, faults, pending, cfg, host, pkg, rel, source, target) ==
            Outcome(t[Expand(host, target) := Symlink(Expand(host, source))], pending, true)
  {
    MkdirAllExisting(t, faults, FilePaths.Dir(target), Permissions);
  }

  /**
   * A missing target whose parent directories are missing too: linkFile
   * creates them with mode 0750, then links the target. Nothing that existed
   * changes; the only new nodes are the link and directories on the parent's path.
   */
  lemma MissingTargetParentsCreated(t: Tree, faults: Faults, pending: seq<ScanResult>, cfg: Config, host: Host,
                                    pkg: string, rel: string, source: string, target: string)
    requires !IsDryRun(cfg, host.regex, pkg, rel)
    requires SpanCreatable(t, faults, FilePaths.Dir(target))
    requires target !in t && target !in MkdirSpan(FilePaths.Dir(target)) && (LstatOp, target) !in faults
    requires var e := Expand(host, target);
      e != "" && e !in t && e !in MkdirSpan(FilePaths.Dir(target)) && (SymlinkOp, e) !in faults
    ensures var r := LinkFileEffect(t, faults, pending, cfg, host, pkg, rel, source, target);
      var e := Expand(host, target);
      && r.ok && r.pending == pending
      && e in r.tree && r.tree[e] == Symlink(Expand(host, source))
      && Stat(r.tree, faults, FilePaths.Dir(target)).Found? && Stat(r.tree, faults, FilePaths.Dir(target)).node.Dir?
      && (forall q :: q in t ==> q in r.tree && r.tree[q] == t[q])
      && (forall q :: q in r.tree && q !in t && q != e ==>
            q in MkdirSpan(FilePaths.Dir(target)) && r.tree[q] == Dir(Permissions))
  {
    var parent := FilePaths.Dir(target);
    MkdirAllSucceeds(t, faults, parent, Permissions);
    MkdirAllOnlyAddsDirs(t, faults, parent, Permissions);
    assert parent in MkdirSpan(parent);
    MkdirAllMakesDir(t, faults, parent, Permissions);
    var made := MkdirAll(t, faults, parent, Permissions).tree;
    assert target !in made && Expand(host, target) !in made;
    var linked := made[Expand(host, target) := Symlink(Expand(host, source))];
    assert LinkFileEffect(t, faults, pending, cfg, host, pkg, rel, source, target) == Outcome(linked, pending, true);
    assert Resolve(linked, parent, MaxSymlinkHops) == Some(parent);
  }

  /**
   * Linking is idempotent: once a missing target is linked, linking it again
   * changes nothing and asks nothing (the paths being already expanded, as
   * the target path from GetTargetPath is).
   */
  lemma LinkFileIdempotent(t: Tree, faults: Faults, pending: seq<ScanResult>, cfg: Config, host: Host,
                           pkg: string, rel: string, source: string, target: string)
    requires !IsDryRun(cfg, host.regex, pkg, rel)
    requires ParentIsDirectory(t, faults, target)
    requires target != "" && target !in t
    requires (LstatOp, target) !in faults && (ReadlinkOp, target) !in faults && (SymlinkOp, target) !in faults
    requires Expand(host, target) == target && Expand(host, source) == source
    ensures var once := LinkFileEffect(t, faults, pending, cfg, host, pkg, rel, source, target);
      once.ok && LinkFileEffect(once.tree, faults, once.pending, cfg, host, pkg, rel, source, target) == once
  {
    MissingTargetLinked(t, faults, pending, cfg, host, pkg, rel, source, target);
    var linked := t[target := Symlink(source)];
    assert ParentIsDirectory(linked, faults, target);
    AlreadyLinkedIsNoOp(linked, faults, pending, cfg, host, pkg, rel, source, target);
  }

  /** The target path GetTargetPath hands to linkFile expands to itself. */
  lemma TargetPathExpanded(cfg: Config, host: Host, pkg: string, rel: string)
    requires AbsWellBehaved(host.abs)
    ensures Expand(host, GetTargetPath(cfg, host, pkg, rel)) == GetTargetPath(cfg, host, pkg, rel)
  {
    var e := EffectiveConfig(cfg, host.regex, pkg, rel);
    var p := GetTargetPath(cfg, host, pkg, rel);
    var j := FilePaths.Join(e.targetDir, e.targetName);
    assert p == host.abs(if HasPrefix(j, "~") then host.home + j[1..] else j);
    assert p[0] == '/';
    assert !HasPrefix(p, "~");
  }

  /** A conflict the user declines changes nothing beyond taking one answer. */
  lemma DeclinedConflictUnchanged(t: Tree, faults: Faults, pending: seq<ScanResult>, cfg: Config, host: Host,
                                  pkg: string, rel: string, source: string, target: string)
    requires !IsDryRun(cfg, host.regex, pkg, rel) && !ShouldForce(cfg, host.regex, pkg, rel)
    requires ParentIsDirectory(t, faults, target)
    requires target != "" && target in t && t[target] != Symlink(source) && (LstatOp, target) !in faults
    requires pending != [] && !pending[0].failed && ToLower(pending[0].response) != "y"
    ensures LinkFileEffect(t, faults, pending, cfg, host, pkg, rel, source, target) == Outcome(t, pending[1..], true)
  {
    MkdirAllExisting(t, faults, FilePaths.Dir(target), Permissions);
  }

  /** An answer that cannot be read is an error, and the conflict is left as it was. */
  lemma UnreadableAnswerFails(t: Tree, faults: Faults, pending: seq<ScanResult>, cfg: Config, host: Host,
                              pkg: string, rel: string, source: string, target: string)
    requires !IsDryRun(cfg, host.regex, pkg, rel) && !ShouldForce(cfg, host.regex, pkg, rel)
    requires ParentIsDirectory(t, faults, target)
    requires target != "" && target in t && t[target] != Symlink(source) && (LstatOp, target) !in faults
    requires pending == [] || pending[0].failed
    ensures var r := LinkFileEffect(t, faults, pending, cfg, host, pkg, rel, source, target);
      !r.ok && r.tree == t && r.pending == Scan(pending).1
  {
    MkdirAllExisting(t, faults, FilePaths.Dir(target), Permissions);
  }

  /** Only "y" replaces: "yes", which ConfirmPrompt accepts, makes linkFile skip the file. */
  lemma YesIsNotEnough(t: Tree, faults: Faults, rest: seq<ScanResult>, cfg: Config, host: Host,
                       pkg: string, rel: string, source: string, target: string)
    requires !IsDryRun(cfg, host.regex, pkg, rel) && !ShouldForce(cfg, host.regex, pkg, rel)
    requires ParentIsDirectory(t, faults, target)
    requires target != "" && target in t && t[target] != Symlink(source) && (LstatOp, target) !in faults
    ensures Prompt.ConfirmPrompt(Some("yes"))
    ensures LinkFileEffect(t, faults, [ScanResult("yes", false)] + rest, cfg, host, pkg, rel, source, target) ==
            Outcome(t, rest, true)
  {
    Prompt.YesAccepted();
    var pending := [ScanResult("yes", false)] + rest;
    assert pending[1..] == rest;
    assert |ToLower("yes")| == 3;
    DeclinedConflictUnchanged(t, faults, pending, cfg, host, pkg, rel, source, target);
  }

  /**
   * The backup comes first: when it succeeds the backup path reads back as
   * the bytes the target held, before the target is removed.
   */
  lemma BackupKeepsTargetBytes(t: Tree, backupPath: string, target: string, data: seq<bv8>, perm: Perm)
    requires backupPath != "" && target != "" && target in t && t[target] == File(data, perm)
    requires BackUp(t, {}, false, backupPath, target).ok
    ensures ReadFile(BackUp(t, {}, false, backupPath, target).tree, {}, backupPath) == Some(data)
  {
    var made := Posix.MkdirAll(t, {}, FilePaths.Dir(backupPath), Permissions);
    MkdirAllOnlyAddsDirs(t, {}, FilePaths.Dir(backupPath), Permissions);
    assert made.tree[target] == File(data, perm);
    IoUtils.CopyFileContents(made.tree, {}, target, backupPath);
  }

  /**
   * A forced conflict over a regular file, with a backup path: the file's
   * bytes and mode move to the backup path, and the target becomes the link.
   */
  lemma ForcedConflictBackedUp(t: Tree, pending: seq<ScanResult>, cfg: Config, host: Host, pkg: string, rel: string,
                               source: string, target: string, data: seq<bv8>, perm: Perm)
    requires !IsDryRun(cfg, host.regex, pkg, rel) && ShouldForce(cfg, host.regex, pkg, rel)
    requires ParentIsDirectory(t, {}, target) && target != "" && target in t && t[target] == File(data, perm)
    requires var b := GetBackupPath(cfg, host, pkg, rel); b != "" && b != target && b !in t && ParentIsDirectory(t, {}, b)
    requires Expand(host, target) == target
    ensures LinkFileEffect(t, {}, pending, cfg, host, pkg, rel, source, target) ==
            Outcome(t[GetBackupPath(cfg, host, pkg, rel) := File(data, perm)][target := Symlink(Expand(host, source))],
                    pending, true)
  {
    MkdirAllExisting(t, {}, FilePaths.Dir(target), Permissions);
    ForcedReplace(t, cfg, host, pkg, rel, source, target, data, perm);
  }

  /** The replacement step of that conflict: backup, remove, link. */
  lemma ForcedReplace(t: Tree, cfg: Config, host: Host, pkg: string, rel: string,
                      source: string, target: string, data: seq<bv8>, perm: Perm)
    requires !IsDryRun(cfg, host.regex, pkg, rel)
    requires target != "" && target in t && t[target] == File(data, perm)
    requires var b := GetBackupPath(cfg, host, pkg, rel); b != "" && b != target && b !in t && ParentIsDirectory(t, {}, b)
    requires Expand(host, target) == target
    ensures Replace(t, {}, cfg, host, pkg, rel, source, target) ==
            Change(t[GetBackupPath(cfg, host, pkg, rel) := File(data, perm)][target := Symlink(Expand(host, source))], true)
  {
    var b := GetBackupPath(cfg, host, pkg, rel);
    BackUpThenRemove(t, b, target, data, perm);
    var removed := t[b := File(data, perm)] - {target};
    assert removed[target := Symlink(Expand(host, source))] ==
           t[b := File(data, perm)][target := Symlink(Expand(host, source))];
  }

  /** On a fault-free tree, backing a regular file up to a new path and removing it. */
  lemma BackUpThenRemove(t: Tree, b: string, target: string, data: seq<bv8>, perm: Perm)
    requires target != "" && target in t && t[target] == File(data, perm)
    requires b != "" && b != target && b !in t && ParentIsDirectory(t, {}, b)
    ensures BackUp(t, {}, false, b, target) == Change(t[b := File(data, perm)], true)
    ensures Remove(t[b := File(data, perm)], {}, target) == Change(t[b := File(data, perm)] - {target}, true)
  {
    MkdirAllExisting(t, {}, FilePaths.Dir(b), Permissions);
    assert Stat(t, {}, target) == Found(File(data, perm));
    IoUtils.CopyToNewPath(t, {}, target, b);
  }

  /**
   * A directory entry only adds directories with mode 0750 on its target's
   * path, and asks nothing; when it is mirrored and succeeds, the target is a
   * directory afterwards.
   */
  lemma DirectoryEntryOnlyAddsDirectories(t: Tree, faults: Faults, pending: seq<ScanResult>, cfg: Config,
                                          host: Host, pkg: string, root: string, rel: string)
    ensures var r := LinkEntryEffect(t, faults, pending, cfg, host, pkg, root, Visit(rel, true));
      && r.pending == pending
      && (forall q :: q in t ==> q in r.tree && r.tree[q] == t[q])
      && (forall q :: q in r.tree && q !in t ==>
            r.tree[q] == Dir(Permissions) && q in MkdirSpan(GetTargetPath(cfg, host, pkg, rel)))
    ensures var r := LinkEntryEffect(t, faults, pending, cfg, host, pkg, root, Visit(rel, true));
      var target := GetTargetPath(cfg, host, pkg, rel);
      ConditionsHold(EffectiveConfig(cfg, host.regex, pkg, rel).conditions, host.env) &&
      !IsDryRun(cfg, host.regex, pkg, rel) && r.ok && (StatOp, target) !in faults ==>
        Stat(r.tree, faults, target).Found? && Stat(r.tree, faults, target).node.Dir?
  {
    var target := GetTargetPath(cfg, host, pkg, rel);
    MkdirAllOnlyAddsDirs(t, faults, target, Permissions);
    if MkdirAll(t, faults, target, Permissions).ok && (StatOp, target) !in faults {
      MkdirAllMakesDir(t, faults, target, Permissions);
    }
  }

  /**
   * Where only absent paths or directories lie on the target's path and no
   * call on them fails, a mirrored directory entry succeeds and leaves the
   * target a directory.
   */
  lemma DirectoryEntryCreatesDirectory(t: Tree, faults: Faults, pending: seq<ScanResult>, cfg: Config,
                                       host: Host, pkg: string, root: string, rel: string)
    requires ConditionsHold(EffectiveConfig(cfg, host.regex, pkg, rel).conditions, host.env)
    requires !IsDryRun(cfg, host.regex, pkg, rel)
    requires var target := GetTargetPath(cfg, host, pkg, rel); target != "" && SpanCreatable(t, faults, target)
    ensures var r := LinkEntryEffect(t, faults, pending, cfg, host, pkg, root, Visit(rel, true));
      var target := GetTargetPath(cfg, host, pkg, rel);
      r.ok && r.pending == pending && Stat(r.tree, faults, target).Found? && Stat(r.tree, faults, target).node.Dir?
  {
    var target := GetTargetPath(cfg, host, pkg, rel);
    MkdirAllSucceeds(t, faults, target, Permissions);
    assert target in MkdirSpan(target);
    MkdirAllMakesDir(t, faults, target, Permissions);
  }

  /** Only the paths in `allowed` may differ between the two trees. */
  ghost predicate ChangedOnly(t: Tree, u: Tree, allowed: set<string>) {
    && (forall q :: q in t && q !in allowed ==> q in u && u[q] == t[q])
    && (forall q :: q in u && q !in t ==> q in allowed)
  }

  lemma ChangedOnlyChain(t: Tree, u: Tree, v: Tree, a: set<string>, b: set<string>, allowed: set<string>)
    requires ChangedOnly(t, u, a) && ChangedOnly(u, v, b) && a <= allowed && b <= allowed
    ensures ChangedOnly(t, v, allowed)
  {
  }

  /** Without a backup, a conflict that goes ahead touches only the target and its expanded path. */
  lemma ReplaceFrame(t: Tree, faults: Faults, cfg: Config, host: Host, pkg: string, rel: string,
                     source: string, target: string)
    requires GetBackupPath(cfg, host, pkg, rel) == ""
    ensures ChangedOnly(t, Replace(t, faults, cfg, host, pkg, rel, source, target).tree, {target, Expand(host, target)})
  {
  }

  lemma LinkTargetFrame(t: Tree, faults: Faults, pending: seq<ScanResult>, cfg: Config, host: Host,
                        pkg: string, rel: string, source: string, target: string)
    requires GetBackupPath(cfg, host, pkg, rel) == ""
    ensures ChangedOnly(t, LinkTargetEffect(t, faults, pending, cfg, host, pkg, rel, source, target).tree,
                        {target, Expand(host, target)})
  {
    ReplaceFrame(t, faults, cfg, host, pkg, rel, source, target);
  }

  /**
   * Nothing else changes: without a backup, linkFile touches only the
   * directories above the target, the target itself and its expanded path.
   */
  lemma LinkFileFrame(t: Tree, faults: Faults, pending: seq<ScanResult>, cfg: Config, host: Host,
                      pkg: string, rel: string, source: string, target: string)
    requires GetBackupPath(cfg, host, pkg, rel) == ""
    ensures ChangedOnly(t, LinkFileEffect(t, faults, pending, cfg, host, pkg, rel, source, target).tree,
                        MkdirSpan(FilePaths.Dir(target)) + {target, Expand(host, target)})
  {
    var span := MkdirSpan(FilePaths.Dir(target));
    var allowed := span + {target, Expand(host, target)};
    var parent := if IsDryRun(cfg, host.regex, pkg, rel) then Change(t, true)
                  else Posix.MkdirAll(t, faults, FilePaths.Dir(target), Permissions);
    if !IsDryRun(cfg, host.regex, pkg, rel) {
      MkdirAllOnlyAddsDirs(t, faults, FilePaths.Dir(target), Permissions);
    }
    assert ChangedOnly(t, parent.tree, span);
    if parent.ok {
      LinkTargetFrame(parent.tree, faults, pending, cfg, host, pkg, rel, source, target);
      ChangedOnlyChain(t, parent.tree, LinkTargetEffect(parent.tree, faults, pending, cfg, host, pkg, rel, source, target).tree,
                       span, {target, Expand(host, target)}, allowed);
    }
  }

  /**
   * Packages run in order and stop at the first failure, keeping what the
   * earlier ones did: linking a + b is linking a, then b from where a left off.
   */
  lemma {:induction false} LinkEachAppend(t: Tree, faults: Faults, pending: seq<ScanResult>, cfg: Config,
                                          host: Host, walker: Walker, a: seq<string>, b: seq<string>)
    ensures var first := LinkEachEffect(t, faults, pending, cfg, host, walker, a);
      LinkEachEffect(t, faults, pending, cfg, host, walker, a + b) ==
        if first.ok then LinkEachEffect(first.tree, faults, first.pending, cfg, host, walker, b) else first
    decreases |a|
  {
    if a == [] {
      assert a + b == b;
    } else {
      assert (a + b)[0] == a[0] && (a + b)[1..] == a[1..] + b;
      var r := LinkPackageEffect(t, faults, pending, cfg, host, walker, a[0]);
      if r.ok {
        LinkEachAppend(r.tree, faults, r.pending, cfg, host, walker, a[1..], b);
      }
    }
  }

  /** A package whose conditions fail is skipped successfully, with no change. */
  lemma FailedPackageConditionsSkip(t: Tree, faults: Faults, pending: seq<ScanResult>, cfg: Config, host: Host,
                                    walker: Walker, pkg: string)
    requires !ConditionsHold(EffectiveConfig(cfg, host.regex, pkg, "").conditions, host.env)
    ensures LinkPackageEffect(t, faults, pending, cfg, host, walker, pkg) == Outcome(t, pending, true)
  {
  }

  /** A package directory that does not exist is an error, with no change and no question. */
  lemma MissingPackageDirFails(t: Tree, faults: Faults, pending: seq<ScanResult>, cfg: Config, host: Host,
                               walker: Walker, pkg: string)
    requires ConditionsHold(EffectiveConfig(cfg, host.regex, pkg, "").conditions, host.env)
    requires var root := host.abs(GetSourcePath(cfg, host, pkg)); root !in t && (StatOp, root) !in faults
    ensures LinkPackageEffect(t, faults, pending, cfg, host, walker, pkg) == Outcome(t, pending, false)
  {
  }

  /** An entry whose own conditions fail is skipped and the walk goes on. */
  lemma FailedFileConditionsSkip(t: Tree, faults: Faults, pending: seq<ScanResult>, cfg: Config, host: Host,
                                 pkg: string, root: string, rel: string, isDir: bool)
    requires !ConditionsHold(EffectiveConfig(cfg, host.regex, pkg, rel).conditions, host.env)
    ensures LinkEntryEffect(t, faults, pending, cfg, host, pkg, root, Visit(rel, isDir)) == Outcome(t, pending, true)
  {
  }
}
