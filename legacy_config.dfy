/**
 * The earlier configuration package (internal/config/config.go): no merged
 * effective record, but separate helpers for the source, target and backup
 * paths, the force flag and the condition gate, which checks only the OS
 * and the Linux distribution.
 */
module LegacyConfig {
  import opened Wrappers
  import opened FilePaths
  import opened Environment
  import OsCondition
  import DistroCondition
  import Current = Config

  datatype ConditionSet = ConditionSet(
    os: seq<string>,
    distro: seq<string>,
    executable: seq<string>,
    executableVersion: map<string, string>)

  /** A file entry: an exact target path ("" when unset) and its conditions. */
  datatype FileConfig = FileConfig(targetPath: string, conditions: Option<ConditionSet>)

  /** A package entry; `fileOrder` is the order in which ranging over `files` visits its keys. */
  datatype PackageSettings = PackageSettings(
    sourceDir: string,
    targetDir: string,
    backupDir: string,
    force: Option<bool>,
    conditions: Option<ConditionSet>,
    files: map<string, FileConfig>,
    fileOrder: seq<string>)

  /** A package entry as loaded: ranging over `files` visits each of its keys exactly once. */
  type PackageConfig = p: PackageSettings | Current.VisitsEachKeyOnce(p.files, p.fileOrder)
    witness PackageSettings("", "", "", None, None, map[], [])

  datatype Config = Config(
    sourceDir: string,
    targetDir: string,
    backupDir: string,
    force: bool,
    verbose: bool,
    dryRun: bool,
    packages: map<string, PackageConfig>)

  /** GetSourcePath: the package's own source directory if set, else the global one joined with the name. */
  function GetSourcePath(cfg: Config, packageName: string): (r: string)
    ensures packageName in cfg.packages && cfg.packages[packageName].sourceDir != "" ==>
      r == cfg.packages[packageName].sourceDir
    ensures !(packageName in cfg.packages && cfg.packages[packageName].sourceDir != "") ==>
      r == Join(cfg.sourceDir, packageName)
  {
    if packageName in cfg.packages && cfg.packages[packageName].sourceDir != "" then cfg.packages[packageName].sourceDir
    else Join(cfg.sourceDir, packageName)
  }

  /** A key the regex stage of GetTargetPath takes: it has a target path, starts with '^' and matches. */
  predicate CaretKeySelects(files: map<string, FileConfig>, regex: RegexOracle, relativePath: string, key: string) {
    key in files && files[key].targetPath != "" && |key| > 0 && key[0] == '^' && regex(key, relativePath) == Matched
  }

  /** The regex stage: the first key, in iteration order, that CaretKeySelects. */
  function CaretScan(files: map<string, FileConfig>, order: seq<string>, regex: RegexOracle, relativePath: string)
    : (key: Option<string>)
    ensures key.Some? ==> CaretKeySelects(files, regex, relativePath, key.value)
    ensures key.Some? ==> exists i :: 0 <= i < |order| && order[i] == key.value &&
                            forall j :: 0 <= j < i ==> !CaretKeySelects(files, regex, relativePath, order[j])
    ensures key.None? ==> forall i :: 0 <= i < |order| ==> !CaretKeySelects(files, regex, relativePath, order[i])
  {
    if order == [] then None
    else if CaretKeySelects(files, regex, relativePath, order[0]) then Some(order[0])
    else
      var key := CaretScan(files, order[1..], regex, relativePath);
      assert forall i :: 1 <= i < |order| ==> order[i] == order[1..][i - 1];
      assert key.Some? ==> exists i :: 0 <= i < |order| && order[i] == key.value &&
                             forall j :: 0 <= j < i ==> !CaretKeySelects(files, regex, relativePath, order[j]) by {
        if key.Some? {
          var i :| 0 <= i < |order[1..]| && order[1..][i] == key.value &&
                   forall j :: 0 <= j < i ==> !CaretKeySelects(files, regex, relativePath, order[1..][j]);
          assert order[i + 1] == key.value;
        }
      }
      key
  }

  /** When the order visits every key of the map, the scan finds nothing iff no key of the map qualifies. */
  lemma CaretScanComplete(files: map<string, FileConfig>, order: seq<string>, regex: RegexOracle, relativePath: string)
    requires forall k :: k in files ==> k in order
    ensures CaretScan(files, order, regex, relativePath).None? <==>
            forall k :: k in files ==> !CaretKeySelects(files, regex, relativePath, k)
  {
  }

  /**
   * The target path GetTargetPath settles on: an exact entry with a target
   * path, else the first matching '^' key's target path, else the package's
   * target directory, else the global one, joined with the relative path.
   */
  function TargetPath(cfg: Config, regex: RegexOracle, packageName: string, relativePath: string): string {
    if packageName !in cfg.packages then Join(cfg.targetDir, relativePath)
    else
      var pkg := cfg.packages[packageName];
      if relativePath in pkg.files && pkg.files[relativePath].targetPath != "" then pkg.files[relativePath].targetPath
      else match CaretScan(pkg.files, pkg.fileOrder, regex, relativePath)
        case Some(key) => pkg.files[key].targetPath
        case None =>
          if pkg.targetDir != "" then Join(pkg.targetDir, relativePath) else Join(cfg.targetDir, relativePath)
  }

  /** GetTargetPath: the lookups in order, returning at the first that applies. */
  method GetTargetPath(cfg: Config, regex: RegexOracle, packageName: string, relativePath: string) returns (r: string)
    ensures r == TargetPath(cfg, regex, packageName, relativePath)
  {
    if packageName in cfg.packages {
      var pkg := cfg.packages[packageName];
      if relativePath in pkg.files && pkg.files[relativePath].targetPath != "" {
        return pkg.files[relativePath].targetPath;
      }
      for i := 0 to |pkg.fileOrder|
        invariant CaretScan(pkg.files, pkg.fileOrder, regex, relativePath) ==
                  CaretScan(pkg.files, pkg.fileOrder[i..], regex, relativePath)
      {
        assert pkg.fileOrder[i..][1..] == pkg.fileOrder[i + 1..];
        var pattern := pkg.fileOrder[i];
        if pattern in pkg.files && pkg.files[pattern].targetPath != "" {
          if |pattern| == 0 || pattern[0] != '^' {
            continue;
          }
          var matched := regex(pattern, relativePath);
          if matched == Matched {
            assert CaretKeySelects(pkg.files, regex, relativePath, pattern);
            return pkg.files[pattern].targetPath;
          }
        }
      }
      assert pkg.fileOrder[|pkg.fileOrder|..] == [];
      if pkg.targetDir != "" {
        return Join(pkg.targetDir, relativePath);
      }
    }
    return Join(cfg.targetDir, relativePath);
  }

  /** GetBackupPath: a package entry decides alone (an empty backup directory turns backups off); else the global. */
  function GetBackupPath(cfg: Config, packageName: string, relativePath: string): (r: string)
    ensures r == "" <==>
      if packageName in cfg.packages then cfg.packages[packageName].backupDir == "" else cfg.backupDir == ""
    ensures r != "" ==>
      r == Join(if packageName in cfg.packages then cfg.packages[packageName].backupDir else cfg.backupDir, relativePath)
  {
    if packageName in cfg.packages then
      var pkg := cfg.packages[packageName];
      if pkg.backupDir == "" then "" else Join(pkg.backupDir, relativePath)
    else if cfg.backupDir == "" then ""
    else Join(cfg.backupDir, relativePath)
  }

  /** ShouldForce: the package's flag when it is set, else the global one. */
  function ShouldForce(cfg: Config, packageName: string): (r: bool)
    ensures r <==> (packageName in cfg.packages && cfg.packages[packageName].force == Some(true)) ||
                   (cfg.force && !(packageName in cfg.packages && cfg.packages[packageName].force == Some(false)))
  {
    if packageName in cfg.packages && cfg.packages[packageName].force.Some? then
      cfg.packages[packageName].force.value
    else cfg.force
  }

  /** What MatchesConditions decides: nil passes; otherwise the OS and distribution lists, when non-empty, must hold. */
  predicate ConditionsHold(conditions: Option<ConditionSet>, env: Env) {
    match conditions
    case None => true
    case Some(c) =>
      && (|c.os| > 0 ==> OsCondition.OsSelected(c.os, env.goos))
      && (|c.distro| > 0 ==> DistroCondition.DistroSelected(c.distro, env))
  }

  /** MatchesConditions: the OS check, then the distribution check; the other categories are not looked at. */
  method MatchesConditions(conditions: Option<ConditionSet>, env: Env) returns (r: bool)
    ensures r == ConditionsHold(conditions, env)
  {
    if conditions.None? {
      return true;
    }
    var c := conditions.value;
    if |c.os| > 0 {
      var ok := OsCondition.MatchesOSCondition(c.os, env.goos);
      if !ok {
        return false;
      }
    }
    if |c.distro| > 0 {
      var ok := DistroCondition.MatchesDistroCondition(c.distro, env);
      if !ok {
        return false;
      }
    }
    return true;
  }

  /**
   * The conditions the earlier engines gate on: those of the entry keyed by
   * the exact relative path when it has some, else the package's.
   */
  function Conditions(cfg: Config, packageName: string, relativePath: string): Option<ConditionSet> {
    if packageName !in cfg.packages then None
    else
      var pkg := cfg.packages[packageName];
      if relativePath in pkg.files && pkg.files[relativePath].conditions.Some? then pkg.files[relativePath].conditions
      else pkg.conditions
  }

  /** An exact entry with a target path wins over every '^' key and every directory. */
  lemma ExactTargetWins(cfg: Config, regex: RegexOracle, packageName: string, relativePath: string)
    requires packageName in cfg.packages
    requires var pkg := cfg.packages[packageName];
      relativePath in pkg.files && pkg.files[relativePath].targetPath != ""
    ensures TargetPath(cfg, regex, packageName, relativePath) ==
            cfg.packages[packageName].files[relativePath].targetPath
  {
  }

  /**
   * Where a target path can come from: an exact entry, a '^' key whose
   * pattern matches the relative path, or a target directory (the package's
   * if set, else the global one) joined with the relative path.
   */
  lemma TargetPathSources(cfg: Config, regex: RegexOracle, packageName: string, relativePath: string)
    ensures var r := TargetPath(cfg, regex, packageName, relativePath);
      if packageName !in cfg.packages then r == Join(cfg.targetDir, relativePath)
      else
        var pkg := cfg.packages[packageName];
        || (relativePath in pkg.files && r == pkg.files[relativePath].targetPath && r != "")
        || (exists key :: CaretKeySelects(pkg.files, regex, relativePath, key) && r == pkg.files[key].targetPath)
        || (pkg.targetDir != "" && r == Join(pkg.targetDir, relativePath))
        || (pkg.targetDir == "" && r == Join(cfg.targetDir, relativePath))
  {
  }

  /**
   * Past an exact entry, the '^' stage decides whenever some key of the
   * package qualifies, whatever the iteration order; only when none does is
   * the target a directory joined with the relative path.
   */
  lemma CaretStageDecides(cfg: Config, regex: RegexOracle, packageName: string, relativePath: string)
    requires packageName in cfg.packages
    requires var pkg := cfg.packages[packageName];
      !(relativePath in pkg.files && pkg.files[relativePath].targetPath != "")
    ensures var pkg := cfg.packages[packageName];
      var key := CaretScan(pkg.files, pkg.fileOrder, regex, relativePath);
      (exists k :: CaretKeySelects(pkg.files, regex, relativePath, k)) ==>
        key.Some? && TargetPath(cfg, regex, packageName, relativePath) == pkg.files[key.value].targetPath
    ensures var pkg := cfg.packages[packageName];
      (forall k :: k in pkg.files ==> !CaretKeySelects(pkg.files, regex, relativePath, k)) ==>
        TargetPath(cfg, regex, packageName, relativePath) ==
          Join(if pkg.targetDir != "" then pkg.targetDir else cfg.targetDir, relativePath)
  {
  }

  /** A key without a leading '^', or without a target path, never takes part in the regex stage. */
  lemma PlainKeysNotPatterns(files: map<string, FileConfig>, order: seq<string>, regex: RegexOracle,
                             relativePath: string, key: string)
    requires key !in files || files[key].targetPath == "" || key == "" || key[0] != '^'
    ensures CaretScan(files, order, regex, relativePath) != Some(key)
  {
  }

  /**
   * When at most one '^' key matches, the iteration order of the map does not
   * matter: every order that visits all keys finds the same key.
   */
  lemma CaretScanOrderIrrelevant(files: map<string, FileConfig>, order1: seq<string>, order2: seq<string>,
                                 regex: RegexOracle, relativePath: string)
    requires forall k :: k in files ==> k in order1 && k in order2
    requires forall a, b ::
      CaretKeySelects(files, regex, relativePath, a) && CaretKeySelects(files, regex, relativePath, b) ==> a == b
    ensures CaretScan(files, order1, regex, relativePath) == CaretScan(files, order2, regex, relativePath)
  {
    var k1 := CaretScan(files, order1, regex, relativePath);
    var k2 := CaretScan(files, order2, regex, relativePath);
    if k1.Some? {
      var i :| 0 <= i < |order2| && order2[i] == k1.value;
      assert CaretKeySelects(files, regex, relativePath, order2[i]);
    }
    if k2.Some? {
      var i :| 0 <= i < |order1| && order1[i] == k2.value;
      assert CaretKeySelects(files, regex, relativePath, order1[i]);
    }
  }

  /**
   * Backups are off exactly when the package entry has no backup directory,
   * or, without an entry, when the global one is empty: a package entry with
   * an empty backup directory turns them off even when the global one is set.
   */
  lemma BackupPathEmptyIff(cfg: Config, packageName: string, relativePath: string)
    ensures GetBackupPath(cfg, packageName, relativePath) == "" <==>
      if packageName in cfg.packages then cfg.packages[packageName].backupDir == "" else cfg.backupDir == ""
  {
  }

  /** A package entry overrides the global backup directory entirely, whatever the global one is. */
  lemma PackageBackupDirDecides(cfg: Config, packageName: string, relativePath: string, globalDir: string)
    requires packageName in cfg.packages
    ensures GetBackupPath(cfg.(backupDir := globalDir), packageName, relativePath) ==
            GetBackupPath(cfg, packageName, relativePath)
  {
  }

  /** A package's force flag, when set, decides alone: the global flag no longer matters. */
  lemma PackageForceDecides(cfg: Config, packageName: string, globalForce: bool)
    requires packageName in cfg.packages && cfg.packages[packageName].force.Some?
    ensures ShouldForce(cfg.(force := globalForce), packageName) == ShouldForce(cfg, packageName)
    ensures ShouldForce(cfg, packageName) == cfg.packages[packageName].force.value
  {
  }

  /** Without a package flag the global flag decides. */
  lemma GlobalForceOtherwise(cfg: Config, packageName: string)
    requires packageName !in cfg.packages || cfg.packages[packageName].force.None?
    ensures ShouldForce(cfg, packageName) == cfg.force
  {
  }

  /**
   * Only the OS and distribution lists are looked at: the earlier gate agrees
   * with the current one on a set whose other categories are empty, and
   * executable and version lists never make it fail.
   */
  lemma ConditionsHoldAsCurrentGate(c: ConditionSet, env: Env)
    ensures ConditionsHold(Some(c), env) ==
            Current.ConditionsHold(Some(Current.ConditionSet(c.os, c.distro, [], map[], [])), env)
    ensures ConditionsHold(Some(c), env) ==
            ConditionsHold(Some(c.(executable := [], executableVersion := map[])), env)
  {
  }
}
