/**
 * The layered configuration resolver (internal/config.go): global settings,
 * per-package overrides and per-file overrides merged into one effective
 * record, plus the path helpers and the condition gate built on it.
 */
module Config {
  import opened Wrappers
  import opened Text
  import opened FilePaths
  import opened Environment
  import IoUtils
  import OsCondition
  import DistroCondition
  import ExecutableCondition
  import VersionCondition
  import UserCondition

  datatype ConditionSet = ConditionSet(
    os: seq<string>,
    distro: seq<string>,
    executable: seq<string>,
    executableVersion: map<string, string>,
    user: seq<string>)

  /** A file override; None stands for a nil pointer, "" for an unset string. */
  datatype FileConfig = FileConfig(
    targetDir: string,
    targetName: string,
    backupDir: string,
    force: Option<bool>,
    verbose: Option<bool>,
    dryRun: bool,
    conditions: Option<ConditionSet>)

  /**
   * A package override. `files` maps each override key to its entry (None for a
   * key written without settings, which YAML decodes to a nil pointer);
   * `fileOrder` is the order in which ranging over `files` visits its keys.
   */
  datatype PackageSettings = PackageSettings(
    sourceDir: string,
    targetDir: string,
    backupDir: string,
    force: Option<bool>,
    verbose: Option<bool>,
    dryRun: bool,
    conditions: Option<ConditionSet>,
    files: map<string, Option<FileConfig>>,
    fileOrder: seq<string>)

  /** Ranging over a map visits each of its keys exactly once. */
  predicate VisitsEachKeyOnce<V>(files: map<string, V>, order: seq<string>) {
    (forall k :: k in files ==> k in order) &&
    (forall k :: k in order ==> k in files) &&
    (forall i, j :: 0 <= i < j < |order| ==> order[i] != order[j])
  }

  /** A package override as loaded: its iteration order lists the keys of `files`. */
  type PackageConfig = p: PackageSettings | VisitsEachKeyOnce(p.files, p.fileOrder)
    witness PackageSettings("", "", "", None, None, false, None, map[], [])

  datatype Config = Config(
    sourceDir: string,
    targetDir: string,
    backupDir: string,
    force: bool,
    verbose: bool,
    dryRun: bool,
    packages: map<string, PackageConfig>)

  /** The effective record; Force and Verbose are never nil in it, so they are plain booleans. */
  datatype Effective = Effective(
    targetDir: string,
    targetName: string,
    backupDir: string,
    force: bool,
    verbose: bool,
    dryRun: bool,
    conditions: Option<ConditionSet>)

  const RegexKeyPrefix := "regex:"

  /** A key that is tried as a regular expression, and matches the relative path. */
  predicate RegexKeySelects(files: map<string, Option<FileConfig>>, regex: RegexOracle, relativePath: string, key: string) {
    key in files && HasPrefix(key, RegexKeyPrefix) && regex(TrimPrefix(key, RegexKeyPrefix), relativePath) == Matched
  }

  /**
   * The regex stage of the lookup: the first key, in iteration order, that
   * carries the "regex:" prefix and whose pattern compiles and matches.
   */
  function RegexScan(files: map<string, Option<FileConfig>>, order: seq<string>, regex: RegexOracle, relativePath: string): (key: Option<string>)
    ensures key.Some? ==> key.value in order && RegexKeySelects(files, regex, relativePath, key.value)
    ensures key.Some? ==> exists i :: 0 <= i < |order| && order[i] == key.value &&
                            forall j :: 0 <= j < i ==> !RegexKeySelects(files, regex, relativePath, order[j])
    ensures key.None? ==> forall i :: 0 <= i < |order| ==> !RegexKeySelects(files, regex, relativePath, order[i])
  {
    if order == [] then None
    else if RegexKeySelects(files, regex, relativePath, order[0]) then Some(order[0])
    else
      var key := RegexScan(files, order[1..], regex, relativePath);
      assert forall i :: 1 <= i < |order| ==> order[i] == order[1..][i - 1];
      assert key.Some? ==> exists i :: 0 <= i < |order| && order[i] == key.value &&
                             forall j :: 0 <= j < i ==> !RegexKeySelects(files, regex, relativePath, order[j]) by {
        if key.Some? {
          var i :| 0 <= i < |order[1..]| && order[1..][i] == key.value &&
                   forall j :: 0 <= j < i ==> !RegexKeySelects(files, regex, relativePath, order[1..][j]);
          assert order[i + 1] == key.value;
        }
      }
      key
  }

  /** When the order visits every key of the map, the scan finds nothing iff no key of the map qualifies. */
  lemma RegexScanComplete(files: map<string, Option<FileConfig>>, order: seq<string>, regex: RegexOracle, relativePath: string)
    requires forall k :: k in files ==> k in order
    ensures RegexScan(files, order, regex, relativePath).None? <==>
            forall k :: k in files ==> !RegexKeySelects(files, regex, relativePath, k)
  {
  }

  /** The key whose settings apply to a file: the exact base name first, else the regex scan. */
  function SelectFileKey(pkg: PackageConfig, regex: RegexOracle, relativePath: string): (key: Option<string>)
    ensures Base(relativePath) in pkg.files ==> key == Some(Base(relativePath))
    ensures Base(relativePath) !in pkg.files ==> key == RegexScan(pkg.files, pkg.fileOrder, regex, relativePath)
    ensures key.Some? ==> key.value in pkg.files
    ensures key.None? <==>
              Base(relativePath) !in pkg.files && forall k :: k in pkg.files ==> !RegexKeySelects(pkg.files, regex, relativePath, k)
  {
    if Base(relativePath) in pkg.files then Some(Base(relativePath))
    else RegexScan(pkg.files, pkg.fileOrder, regex, relativePath)
  }

  /** The file override that applies, if any (a selected key with a nil entry applies nothing). */
  function FileOverride(pkg: PackageConfig, regex: RegexOracle, relativePath: string): Option<FileConfig> {
    match SelectFileKey(pkg, regex, relativePath)
    case None => None
    case Some(key) => pkg.files[key]
  }

  /** The string overrides: set means non-empty. */
  function Override(current: string, setting: string): string {
    if setting != "" then setting else current
  }

  function OverrideFlag(current: bool, setting: Option<bool>): bool {
    if setting.Some? then setting.value else current
  }

  /** The global settings, before any override. */
  function GlobalDefaults(cfg: Config, relativePath: string): Effective {
    Effective(cfg.targetDir, relativePath, cfg.backupDir, cfg.force, cfg.verbose, cfg.dryRun, None)
  }

  function ApplyPackage(e: Effective, pkg: PackageConfig): Effective {
    Effective(
      Override(e.targetDir, pkg.targetDir),
      e.targetName,
      Override(e.backupDir, pkg.backupDir),
      OverrideFlag(e.force, pkg.force),
      OverrideFlag(e.verbose, pkg.verbose),
      e.dryRun || pkg.dryRun,
      pkg.conditions)
  }

  /** A target name override renames the leaf only, keeping the file's directory. */
  function ApplyFile(e: Effective, fc: FileConfig, relativePath: string): Effective {
    Effective(
      Override(e.targetDir, fc.targetDir),
      if fc.targetName != "" then Join(Dir(relativePath), fc.targetName) else e.targetName,
      Override(e.backupDir, fc.backupDir),
      OverrideFlag(e.force, fc.force),
      OverrideFlag(e.verbose, fc.verbose),
      e.dryRun || fc.dryRun,
      if fc.conditions.Some? then fc.conditions else e.conditions)
  }

  /** What GetEffectiveConfig computes. */
  function EffectiveConfig(cfg: Config, regex: RegexOracle, packageName: string, relativePath: string): Effective {
    var global := GlobalDefaults(cfg, relativePath);
    if packageName !in cfg.packages then global
    else
      var pkg := cfg.packages[packageName];
      var withPackage := ApplyPackage(global, pkg);
      match FileOverride(pkg, regex, relativePath)
      case None => withPackage
      case Some(fc) => ApplyFile(withPackage, fc, relativePath)
  }

  /** The lookup inside GetEffectiveConfig: exact base-name key, else the first matching "regex:" key. */
  method LookUpFileConfig(pkg: PackageConfig, regex: RegexOracle, relativePath: string)
    returns (fileConfig: Option<FileConfig>)
    ensures fileConfig == FileOverride(pkg, regex, relativePath)
  {
    fileConfig := None;
    var relativePathTargetName := Base(relativePath);
    if relativePathTargetName in pkg.files {
      fileConfig := pkg.files[relativePathTargetName];
    } else {
      var i := 0;
      while i < |pkg.fileOrder|
        invariant 0 <= i <= |pkg.fileOrder|
        invariant fileConfig == None
        invariant RegexScan(pkg.files, pkg.fileOrder, regex, relativePath) ==
                  RegexScan(pkg.files, pkg.fileOrder[i..], regex, relativePath)
      {
        var pattern := pkg.fileOrder[i];
        assert pkg.fileOrder[i..][1..] == pkg.fileOrder[i + 1..];
        if pattern in pkg.files && HasPrefix(pattern, RegexKeyPrefix) {
          var regexPattern := TrimPrefix(pattern, RegexKeyPrefix);
          var matched := regex(regexPattern, relativePath);
          if matched == Matched {
            fileConfig := pkg.files[pattern];
            break;
          }
        }
        i := i + 1;
      }
    }
  }

  /**
   * GetEffectiveConfig: start from the global settings, overlay the package's
   * set fields, look the file up (exact base name, else the first matching
   * "regex:" key), and overlay the file's set fields.
   */
  method GetEffectiveConfig(cfg: Config, regex: RegexOracle, packageName: string, relativePath: string)
    returns (eff: Effective)
    ensures eff == EffectiveConfig(cfg, regex, packageName, relativePath)
  {
    eff := GlobalDefaults(cfg, relativePath);
    if packageName in cfg.packages {
      var pkg := cfg.packages[packageName];
      eff := OverlayPackage(eff, pkg);
      var fileConfig := LookUpFileConfig(pkg, regex, relativePath);
      if fileConfig.Some? {
        eff := OverlayFile(eff, fileConfig.value, relativePath);
      }
    }
  }

  /** The package part of GetEffectiveConfig: each set field replaces the global one; conditions are taken as they are. */
  method OverlayPackage(e: Effective, pkg: PackageConfig) returns (eff: Effective)
    ensures eff == ApplyPackage(e, pkg)
  {
    var targetDir, backupDir, force, verbose, dryRun := e.targetDir, e.backupDir, e.force, e.verbose, e.dryRun;
    if pkg.targetDir != "" {
      targetDir := pkg.targetDir;
    }
    if pkg.backupDir != "" {
      backupDir := pkg.backupDir;
    }
    if pkg.force.Some? {
      force := pkg.force.value;
    }
    if pkg.verbose.Some? {
      verbose := pkg.verbose.value;
    }
    if pkg.dryRun {
      dryRun := pkg.dryRun;
    }
    eff := Effective(targetDir, e.targetName, backupDir, force, verbose, dryRun, pkg.conditions);
  }

  /** The file part of GetEffectiveConfig: each set field replaces the current one. */
  method OverlayFile(e: Effective, fc: FileConfig, relativePath: string) returns (eff: Effective)
    ensures eff == ApplyFile(e, fc, relativePath)
  {
    var targetDir, targetName, backupDir, force, verbose, dryRun, conditions :=
      e.targetDir, e.targetName, e.backupDir, e.force, e.verbose, e.dryRun, e.conditions;
    if fc.targetDir != "" {
      targetDir := fc.targetDir;
    }
    if fc.targetName != "" {
      var relativePathDir := Dir(relativePath);
      targetName := Join(relativePathDir, fc.targetName);
    }
    if fc.backupDir != "" {
      backupDir := fc.backupDir;
    }
    if fc.force.Some? {
      force := fc.force.value;
    }
    if fc.verbose.Some? {
      verbose := fc.verbose.value;
    }
    if fc.dryRun {
      dryRun := fc.dryRun;
    }
    if fc.conditions.Some? {
      conditions := fc.conditions;
    }
    eff := Effective(targetDir, targetName, backupDir, force, verbose, dryRun, conditions);
  }

  /** Without an entry for the package, the effective record is the global settings, unchanged. */
  lemma NoPackageMeansGlobal(cfg: Config, regex: RegexOracle, packageName: string, relativePath: string)
    requires packageName !in cfg.packages
    ensures var e := EffectiveConfig(cfg, regex, packageName, relativePath);
      e.targetDir == cfg.targetDir && e.targetName == relativePath && e.backupDir == cfg.backupDir &&
      e.force == cfg.force && e.verbose == cfg.verbose && e.dryRun == cfg.dryRun && e.conditions.None?
  {
  }

  /**
   * Precedence: file over package over global, each level only where it is
   * set (a non-empty string, a non-nil flag).
   */
  lemma Precedence(cfg: Config, regex: RegexOracle, packageName: string, relativePath: string)
    requires packageName in cfg.packages
    ensures var pkg := cfg.packages[packageName];
      var fo := FileOverride(pkg, regex, relativePath);
      var e := EffectiveConfig(cfg, regex, packageName, relativePath);
      && e.targetDir == (if fo.Some? && fo.value.targetDir != "" then fo.value.targetDir
                         else if pkg.targetDir != "" then pkg.targetDir else cfg.targetDir)
      && e.backupDir == (if fo.Some? && fo.value.backupDir != "" then fo.value.backupDir
                         else if pkg.backupDir != "" then pkg.backupDir else cfg.backupDir)
      && e.force == (if fo.Some? && fo.value.force.Some? then fo.value.force.value
                     else if pkg.force.Some? then pkg.force.value else cfg.force)
      && e.verbose == (if fo.Some? && fo.value.verbose.Some? then fo.value.verbose.value
                       else if pkg.verbose.Some? then pkg.verbose.value else cfg.verbose)
  {
  }

  /** Dry run is the OR of the three levels: no level can switch it back off. */
  lemma DryRunIsDisjunction(cfg: Config, regex: RegexOracle, packageName: string, relativePath: string)
    ensures var e := EffectiveConfig(cfg, regex, packageName, relativePath);
      e.dryRun <==> (cfg.dryRun ||
        (packageName in cfg.packages &&
          (cfg.packages[packageName].dryRun ||
           (var fo := FileOverride(cfg.packages[packageName], regex, relativePath); fo.Some? && fo.value.dryRun))))
  {
  }

  /** Setting dry run anywhere above can only add dry-run files: the effective flag is monotone. */
  lemma DryRunMonotone(cfg: Config, regex: RegexOracle, packageName: string, relativePath: string)
    ensures cfg.dryRun ==> EffectiveConfig(cfg, regex, packageName, relativePath).dryRun
    ensures cfg.dryRun ==> EffectiveConfig(cfg.(dryRun := true), regex, packageName, relativePath).dryRun
    ensures EffectiveConfig(cfg, regex, packageName, relativePath).dryRun ==>
            EffectiveConfig(cfg.(dryRun := true), regex, packageName, relativePath).dryRun
  {
    DryRunIsDisjunction(cfg, regex, packageName, relativePath);
    DryRunIsDisjunction(cfg.(dryRun := true), regex, packageName, relativePath);
  }

  /** File conditions replace the package's entirely; without them the package's apply. */
  lemma ConditionsReplaced(cfg: Config, regex: RegexOracle, packageName: string, relativePath: string)
    requires packageName in cfg.packages
    ensures var pkg := cfg.packages[packageName];
      var fo := FileOverride(pkg, regex, relativePath);
      EffectiveConfig(cfg, regex, packageName, relativePath).conditions ==
        (if fo.Some? && fo.value.conditions.Some? then fo.value.conditions else pkg.conditions)
  {
  }

  /** A target name override renames the leaf in place; otherwise the relative path is kept. */
  lemma LeafRename(cfg: Config, regex: RegexOracle, packageName: string, relativePath: string)
    ensures var e := EffectiveConfig(cfg, regex, packageName, relativePath);
      if packageName in cfg.packages && FileOverride(cfg.packages[packageName], regex, relativePath).Some?
         && FileOverride(cfg.packages[packageName], regex, relativePath).value.targetName != ""
      then e.targetName == Join(Dir(relativePath), FileOverride(cfg.packages[packageName], regex, relativePath).value.targetName)
      else e.targetName == relativePath
  {
  }

  /** An exact base-name key wins over every regex key, whatever the iteration order. */
  lemma ExactKeyWins(pkg: PackageConfig, regex: RegexOracle, relativePath: string)
    requires Base(relativePath) in pkg.files
    ensures FileOverride(pkg, regex, relativePath) == pkg.files[Base(relativePath)]
  {
  }

  /**
   * Only "regex:" keys whose pattern compiles and matches the full relative
   * path are ever selected by the scan; a pattern that fails to compile is skipped.
   */
  lemma OnlyMatchingRegexKeys(pkg: PackageConfig, regex: RegexOracle, relativePath: string)
    requires Base(relativePath) !in pkg.files
    ensures var key := SelectFileKey(pkg, regex, relativePath);
      key.Some? ==> HasPrefix(key.value, RegexKeyPrefix) && regex(key.value[|RegexKeyPrefix|..], relativePath) == Matched
  {
  }

  /**
   * When at most one "regex:" key matches, the iteration order of the map does
   * not matter: every order that visits all keys selects the same key.
   */
  lemma RegexScanOrderIrrelevant(files: map<string, Option<FileConfig>>, order1: seq<string>, order2: seq<string>,
                                 regex: RegexOracle, relativePath: string)
    requires forall k :: k in files ==> k in order1 && k in order2
    requires forall a, b :: RegexKeySelects(files, regex, relativePath, a) && RegexKeySelects(files, regex, relativePath, b) ==> a == b
    ensures RegexScan(files, order1, regex, relativePath) == RegexScan(files, order2, regex, relativePath)
  {
    var k1 := RegexScan(files, order1, regex, relativePath);
    var k2 := RegexScan(files, order2, regex, relativePath);
    if k1.Some? {
      var i :| 0 <= i < |order2| && order2[i] == k1.value;
      assert RegexKeySelects(files, regex, relativePath, order2[i]);
    }
    if k2.Some? {
      var i :| 0 <= i < |order1| && order1[i] == k2.value;
      assert RegexKeySelects(files, regex, relativePath, order1[i]);
    }
  }

  /**
   * Should the file's actions be reported in detail? The file's own setting
   * when it has one, else the package's, else the global flag.
   */
  function ShouldBeVerbose(cfg: Config, regex: RegexOracle, packageName: string, relativePath: string): (r: bool)
    ensures packageName !in cfg.packages ==> r == cfg.verbose
    ensures packageName in cfg.packages ==>
      var pkg := cfg.packages[packageName];
      var fo := FileOverride(pkg, regex, relativePath);
      r == (if fo.Some? && fo.value.verbose.Some? then fo.value.verbose.value
            else if pkg.verbose.Some? then pkg.verbose.value else cfg.verbose)
  {
    EffectiveConfig(cfg, regex, packageName, relativePath).verbose
  }

  /** Is the file in dry-run mode? Yes when the global, the package or the file flag says so. */
  function IsDryRun(cfg: Config, regex: RegexOracle, packageName: string, relativePath: string): (r: bool)
    ensures r <==> (cfg.dryRun ||
      (packageName in cfg.packages &&
        (cfg.packages[packageName].dryRun ||
         (var fo := FileOverride(cfg.packages[packageName], regex, relativePath); fo.Some? && fo.value.dryRun))))
  {
    EffectiveConfig(cfg, regex, packageName, relativePath).dryRun
  }

  /** A package in dry-run, by its own flag or the global one, is in dry-run for every file it holds. */
  lemma PackageDryRunCoversFiles(cfg: Config, regex: RegexOracle, packageName: string)
    requires cfg.dryRun || (packageName in cfg.packages && cfg.packages[packageName].dryRun)
    ensures forall relativePath :: IsDryRun(cfg, regex, packageName, relativePath)
  {
    forall relativePath
      ensures IsDryRun(cfg, regex, packageName, relativePath)
    {
      DryRunIsDisjunction(cfg, regex, packageName, relativePath);
    }
  }

  /**
   * May an existing target be replaced without asking? The file's own setting
   * when it has one, else the package's, else the global flag.
   */
  function ShouldForce(cfg: Config, regex: RegexOracle, packageName: string, relativePath: string): (r: bool)
    ensures packageName !in cfg.packages ==> r == cfg.force
    ensures packageName in cfg.packages ==>
      var pkg := cfg.packages[packageName];
      var fo := FileOverride(pkg, regex, relativePath);
      r == (if fo.Some? && fo.value.force.Some? then fo.value.force.value
            else if pkg.force.Some? then pkg.force.value else cfg.force)
  {
    EffectiveConfig(cfg, regex, packageName, relativePath).force
  }

  /** GetSourcePath: a package source directory is used verbatim; otherwise the global one joined with the package name, expanded. */
  function GetSourcePath(cfg: Config, host: Host, packageName: string): (r: string)
    ensures packageName in cfg.packages && cfg.packages[packageName].sourceDir != "" ==>
      r == cfg.packages[packageName].sourceDir
    ensures !(packageName in cfg.packages && cfg.packages[packageName].sourceDir != "") ==>
      r == IoUtils.ExpandPath(host.home, host.abs, Join(cfg.sourceDir, packageName))
  {
    if packageName in cfg.packages && cfg.packages[packageName].sourceDir != "" then
      cfg.packages[packageName].sourceDir
    else
      IoUtils.ExpandPath(host.home, host.abs, Join(cfg.sourceDir, packageName))
  }

  /** GetTargetPath: the effective target directory joined with the effective target name, expanded. */
  function GetTargetPath(cfg: Config, host: Host, packageName: string, relativePath: string): (r: string)
    ensures var e := EffectiveConfig(cfg, host.regex, packageName, relativePath);
      r == IoUtils.ExpandPath(host.home, host.abs, Join(e.targetDir, e.targetName))
  {
    var e := EffectiveConfig(cfg, host.regex, packageName, relativePath);
    IoUtils.ExpandPath(host.home, host.abs, Join(e.targetDir, e.targetName))
  }

  /**
   * GetBackupPath: "" when backups are off for the file; otherwise the backup
   * directory joined with the original relative path (not the renamed one), expanded.
   */
  function GetBackupPath(cfg: Config, host: Host, packageName: string, relativePath: string): (r: string)
    ensures var e := EffectiveConfig(cfg, host.regex, packageName, relativePath);
      && (e.backupDir == "" ==> r == "")
      && (e.backupDir != "" ==> r == IoUtils.ExpandPath(host.home, host.abs, Join(e.backupDir, relativePath)))
  {
    var e := EffectiveConfig(cfg, host.regex, packageName, relativePath);
    if e.backupDir == "" then "" else IoUtils.ExpandPath(host.home, host.abs, Join(e.backupDir, relativePath))
  }

  /** With a well-behaved Abs, the backup path is empty exactly when backups are off. */
  lemma BackupPathEmptyIffDisabled(cfg: Config, host: Host, packageName: string, relativePath: string)
    requires AbsWellBehaved(host.abs)
    ensures GetBackupPath(cfg, host, packageName, relativePath) == "" <==>
            EffectiveConfig(cfg, host.regex, packageName, relativePath).backupDir == ""
  {
    var e := EffectiveConfig(cfg, host.regex, packageName, relativePath);
    if e.backupDir != "" {
      var p := Join(e.backupDir, relativePath);
      assert |IoUtils.ExpandPath(host.home, host.abs, p)| > 0;
    }
  }

  /** What MatchesConditions decides: nil passes; otherwise every non-empty category must hold. */
  predicate ConditionsHold(conditionSet: Option<ConditionSet>, env: Env) {
    match conditionSet
    case None => true
    case Some(c) =>
      && (|c.os| > 0 ==> OsCondition.OsSelected(c.os, env.goos))
      && (|c.distro| > 0 ==> DistroCondition.DistroSelected(c.distro, env))
      && (|c.executable| > 0 ==> ExecutableCondition.AllExecutablesFound(c.executable, env.onPath))
      && (|c.executableVersion| > 0 ==> VersionCondition.VersionsSatisfied(c.executableVersion, env))
      && (|c.user| > 0 ==> UserCondition.UserSelected(c.user, env.userName))
  }

  /** MatchesConditions: check the categories in order, stopping at the first that fails. */
  method MatchesConditions(conditionSet: Option<ConditionSet>, env: Env) returns (r: bool)
    ensures r == ConditionsHold(conditionSet, env)
    ensures conditionSet.None? ==> r
  {
    if conditionSet.None? {
      return true;
    }
    var c := conditionSet.value;
    if |c.os| > 0 {
      var ok := OsCondition.MatchesOSCondition(c.os, env.goos);
      if !ok {
        return false;
      }
    }
    if |c.distro| > 0 {
      var ok := DistroCondition.MatchesDistroCondition(c.distro, env);
      if !ok {
        return false;
      }
    }
    if |c.executable| > 0 {
      var ok := ExecutableCondition.MatchesExecutableCondition(c.executable, env.onPath);
      if !ok {
        return false;
      }
    }
    if |c.executableVersion| > 0 {
      var ok := VersionCondition.MatchesExecutableVersionCondition(c.executableVersion, env);
      if !ok {
        return false;
      }
    }
    if |c.user| > 0 {
      var ok := UserCondition.MatchesUserCondition(c.user, env.userName);
      if !ok {
        return false;
      }
    }
    return true;
  }

  /** An empty category never decides anything: a set with no entries passes everywhere. */
  lemma EmptyCategoriesIgnored(env: Env)
    ensures ConditionsHold(Some(ConditionSet([], [], [], map[], [])), env)
  {
  }

  /** The result is false exactly when some non-empty category fails. */
  lemma FalseIffSomeCategoryFails(c: ConditionSet, env: Env)
    ensures !ConditionsHold(Some(c), env) <==>
      (|c.os| > 0 && env.goos !in c.os) ||
      (|c.distro| > 0 && !DistroCondition.DistroSelected(c.distro, env)) ||
      (|c.executable| > 0 && exists i :: 0 <= i < |c.executable| && c.executable[i] !in env.onPath) ||
      (|c.executableVersion| > 0 && !VersionCondition.VersionsSatisfied(c.executableVersion, env)) ||
      (|c.user| > 0 && env.userName !in c.user)
  {
  }
}
