# dloom, modelled in Dafny

dloom is a dotfile manager. A *package* is a directory of files. `dloom link`
makes every file of a package appear in a target tree as a symbolic link back
to the package. It creates the directories along the way. Where a different
file is already present, it asks, backs that file up and replaces it.
`dloom unlink` removes the links dloom made, puts backed-up files back, and
prunes the directories that are left empty.

A YAML configuration sets what happens at three levels: global settings,
per-package settings, and per-file overrides. A per-file override is keyed by
a file's base name or by a `regex:` pattern. Settings can be gated on
conditions about the host: its OS, Linux distribution, executables found on
`PATH`, their versions, and the user name.

The repository holds two generations of this code. The current one is
`internal/config.go`, `internal/link.go`, `internal/unlink.go` and
`internal/conditions/*.go`. The earlier one is `internal/config/config.go`,
`internal/link/link.go` and `internal/unlink/unlink.go`. Each generation is
modelled against its own resolver.

## Structure

- `Wrappers`, `Text`, `FilePaths`: `Option`, and the parts of Go's `strings`,
  `strconv` and `path/filepath` (Unix) that the code calls. They follow Go's
  algorithms, for example `Clean`, `Join`, `Dir`, `Base`, `Split`, `Trim`,
  `TrimSpace` and `Atoi`.
- `Posix`: the file system as a `map<string, Node>` with
  `Node = File(bytes, perm) | Dir(perm) | Symlink(dest)`, plus a set of
  failing (operation, path) pairs. Each system call (`Lstat`, `Stat`,
  `Readlink`, `MkdirAll`, `Remove`, `Symlink`, `ReadFile`, `WriteFile`,
  `ReadDir`) is a function on that map. A symbolic link in the last path
  component is followed; a relative destination is taken from the directory
  that holds the link.
- `Os`: the class `FileSystem`, whose methods apply those functions to its
  `tree` field, and the class `Terminal`, whose `Scanln` consumes the queue of
  answers typed at the prompt.
- `Environment`: the host, given as data.
  - `Env` holds `runtime.GOOS`, the readable `/etc/os-release`, the `/etc`
    files present, the names `exec.LookPath` finds, the version each
    executable reports, and the user name.
  - `Host` adds a regular-expression oracle, an `Abs` oracle and the home
    directory.
- One module per condition file: `OsCondition`, `DistroCondition`,
  `ExecutableCondition`, `VersionCondition` and `UserCondition`. Then
  `Prompt` (`internal/utils/prompt.go`) and `IoUtils` (`internal/io_utils.go`).
- `Config` (`internal/config.go`) and `LegacyConfig`
  (`internal/config/config.go`).
- `Engine`: the walk entries and the `Outcome` of a link step.
- `Link` and `Unlink` are the current engines; `LegacyLink` and
  `LegacyUnlink` are the earlier ones.
  - Each step is a specification function (`...Effect`) from the old tree to
    the new tree and a success flag.
  - Each is also a method on `Os.FileSystem` that makes the same system calls
    in the same order as the Go code, and is proved to end in exactly that
    state.
- `DirCleanup`: `sortByDepth` as an in-place insertion sort on an array, and
  the empty-directory pruning loop. Both engines of both generations share it,
  because the code is the same.
- `LinkProperties`, `UnlinkProperties` and `LegacyProperties`: the promises of
  the engines, as lemmas about the specification functions.

The earlier resolver's `matchesOSCondition`, `matchesDistroCondition`,
`detectLinuxDistribution` and `parseOSRelease` (`internal/config/config.go:274-365`)
are the same code as in `internal/conditions`. `LegacyConfig` therefore reuses
`OsCondition` and `DistroCondition`. In the same way, the earlier unlink
engine's `copyFile` and `sortByDepth` (`internal/unlink/unlink.go:209-226`) are
the same code as `internal/link/link.go:207-214` and `internal/unlink.go:222-229`.
They are modelled once, as `LegacyLink.CopyFile` and `DirCleanup`.

Two behaviours worth noting:

- The current engine's conflict prompt reads the answer with `fmt.Scanln` and
  proceeds only on `y`, in either case (`internal/link.go:145-161`). It does
  not call `ConfirmPrompt`, which would also take `yes`
  (`internal/utils/prompt.go:21`).
- `unlinkFile` returns early for a missing target and for a target that is not
  a symbolic link. So the backup is restored only when the target is a link
  (`internal/unlink.go:149-168`).

Some engine calls do not match the signatures of the resolver they call.
`internal/unlink.go:42,50` calls `MatchesConditions` and `GetSourcePath`
with signatures that differ from `internal/config.go:129,298`. The earlier
engines call `IsDryRun`, `ShouldForce` and `GetEffectiveConfig` with
signatures the earlier resolver does not have. The model reconciles these
calls as follows:

- the current unlink engine uses the current resolver;
- in the earlier engines, dry-run is the global flag;
- force is `ShouldForce(package)`;
- the gating conditions are those of the file entry keyed by the exact
  relative path, else the package's;
- target and backup paths take the package name as their first argument.

## Model

| member | source | states |
|---|---|---|
| Config.RegexScan | internal/config.go:242-255 | The key found is the first in iteration order that has the `regex:` prefix and a pattern that compiles and matches the relative path. No earlier key qualifies; with no key found, no key of the order qualifies. |
| Config.RegexScanComplete | internal/config.go:242-255 | When the order visits every key of the map, the scan finds nothing iff no key of the map has the `regex:` prefix and a matching pattern. |
| Config.SelectFileKey | internal/config.go:237-255 | An exact base-name key is chosen whenever one exists. Only otherwise does the regex scan decide. The key chosen is a key of the package's map, and no key is chosen iff there is no base-name key and no key of the map qualifies as a regex key. |
| Config.LookUpFileConfig | internal/config.go:232-255 | The lookup loop yields the file override the selected key holds, or none. |
| Config.GetEffectiveConfig | internal/config.go:193-295 | The step-by-step overlay computes the effective record: global settings, then package, then file. |
| Config.OverlayPackage | internal/config.go:206-230 | The package overlay replaces only the set fields, ORs dry-run and takes the package conditions. |
| Config.OverlayFile | internal/config.go:257-291 | The file overlay replaces only the set fields, renames the leaf, ORs dry-run and replaces conditions when the file has some. |
| Config.NoPackageMeansGlobal | internal/config.go:195-207 | Without a package entry, the effective record is the global settings, with target name = relative path and no conditions. |
| Config.Precedence | internal/config.go:206-280 | For target directory, backup directory, force and verbose, the file level wins over the package level, which wins over the global level. A level counts only where it is set. |
| Config.DryRunIsDisjunction | internal/config.go:201-284 | Effective dry-run holds iff the global, the package or the selected file level sets it. |
| Config.ShouldBeVerbose | internal/config.go:163-170 | The file's verbose setting when it has one, else the package's, else the global flag; the global flag for an unknown package. Partner: `Precedence`, `NoPackageMeansGlobal`. |
| Config.IsDryRun | internal/config.go:173-179 | True iff the global, the package or the selected file level sets dry-run. Partners: `DryRunIsDisjunction`, `PackageDryRunCoversFiles`, `DryRunMonotone`. |
| Config.ShouldForce | internal/config.go:182-189 | The file's force setting when it has one, else the package's, else the global flag; the global flag for an unknown package. Partner: `Precedence`. |
| Config.DryRunMonotone | internal/config.go:201-284 | Turning the global dry-run on can only add dry-run files. No lower level turns it off. |
| Config.PackageDryRunCoversFiles | internal/config.go:201-284 | A package whose own flag or the global flag sets dry-run is in dry-run for every relative path, whatever its file entries say. |
| Config.ConditionsReplaced | internal/config.go:229-290 | File conditions, when present, replace the package conditions entirely; otherwise the package conditions apply. |
| Config.LeafRename | internal/config.go:263-268 | A target-name override gives `Join(Dir(relativePath), name)`, keeping the file's directory; otherwise the relative path is kept. |
| Config.ExactKeyWins | internal/config.go:237-239 | An exact base-name key decides the override whatever regex keys exist and in whatever order. |
| Config.OnlyMatchingRegexKeys | internal/config.go:242-253 | A key chosen by the scan carries `regex:`, and its pattern compiles and matches the full relative path. |
| Config.RegexScanOrderIrrelevant | internal/config.go:242-255 | When at most one regex key matches, every map iteration order selects the same key. |
| Config.GetSourcePath | internal/config.go:129-137 | A package's own source directory is returned verbatim. Otherwise the result is `ExpandPath(Join(global, package))`. |
| Config.GetTargetPath | internal/config.go:140-146 | The target is `ExpandPath(Join(effective target dir, effective target name))`. |
| Config.GetBackupPath | internal/config.go:149-160 | The result is "" when backups are off. Otherwise it is the backup directory joined with the original relative path, not the renamed one, then expanded. |
| Config.BackupPathEmptyIffDisabled | internal/config.go:149-160 | With an `Abs` that never returns "", the backup path is "" exactly when the effective backup directory is "". |
| Config.MatchesConditions | internal/config.go:298-334 | A nil set passes. Otherwise each non-empty category is checked, in order, against its condition predicate. |
| Config.EmptyCategoriesIgnored | internal/config.go:304-331 | A condition set with every category empty passes in every environment. |
| Config.FalseIffSomeCategoryFails | internal/config.go:298-334 | The answer is false exactly when some non-empty category fails: an AND over the categories present. |
| OsCondition.MatchesOSCondition | internal/conditions/os.go:6-20 | The result is true iff the list is empty or holds the current OS exactly. |
| OsCondition.OsConditionIsCaseSensitive | internal/conditions/os.go:14 | An example of the exact comparison: "Linux" does not select "linux", and "linux" does. It adds an illustration, not a property beyond `MatchesOSCondition`'s. |
| DistroCondition.FirstIdLine | internal/conditions/distro.go:76-82 | Finds the index of the first line starting with `ID=`, with no such line before it; -1 when there is none. |
| DistroCondition.ParseOSRelease | internal/conditions/distro.go:73-85 | The line loop returns the first `ID=` line's value with quotes trimmed, "" without one. |
| DistroCondition.ReleaseFileDistro | internal/conditions/distro.go:46-60 | The switch on each fallback file's base name yields ubuntu, debian, fedora, rhel for lsb-release, debian_version, fedora-release, redhat-release. |
| DistroCondition.FallbackRow | internal/conditions/distro.go:46-61 | Without os-release, the first fallback file present decides. |
| DistroCondition.DetectLinuxDistribution | internal/conditions/distro.go:39-70 | The probe loop computes the decision table: os-release, then the fallbacks in order, then arch, else "". |
| DistroCondition.MatchesDistroCondition | internal/conditions/distro.go:11-36 | The method computes the distro predicate: empty passes, non-Linux passes, undetected fails, else case-insensitive membership. |
| DistroCondition.UndetectedNeverMatches | internal/conditions/distro.go:22-26 | On Linux with no detected distribution, a non-empty list fails, even one holding "". |
| DistroCondition.QuotedIdAfterVersionId | internal/conditions/distro.go:76-81 | A `VERSION_ID=` line does not count as an `ID=` line, and the quotes around the ID go. |
| DistroCondition.OsReleaseDecides | internal/conditions/distro.go:41-43 | A readable os-release decides alone, even with an empty ID, whichever other files exist. |
| DistroCondition.NonLinuxAlwaysMatches | internal/conditions/distro.go:17-19 | Off Linux, every distribution list passes. |
| DistroCondition.DetectedNameMatches | internal/conditions/distro.go:29-35 | With a detected name, the list passes iff some entry equals it after case folding. |
| ExecutableCondition.MatchesExecutableCondition | internal/conditions/executable.go:5-21 | The result is true iff every listed name is found on `PATH`: an AND, not an OR. |
| ExecutableCondition.OrderIrrelevant | internal/conditions/executable.go:10-17 | Any reordering of the list gives the same answer. |
| VersionCondition.Atoi | internal/conditions/executable_version.go:190-191 | A successful parse is within int64 and the string is sign + digits. Every digit string within int64 parses to its value. |
| VersionCondition.AtoiItoa | internal/conditions/executable_version.go:190-191 | Atoi reads back the decimal spelling of every non-negative int64. |
| VersionCondition.CompareComponent | internal/conditions/executable_version.go:190-207 | One component pair compares to -1, 0 or 1, and to 0 when the components are equal. |
| VersionCondition.CompareParts | internal/conditions/executable_version.go:178-211 | The result is always -1, 0 or 1. |
| VersionCondition.CompareVersions | internal/conditions/executable_version.go:167-212 | The component loop computes the reference order on the split versions, with result -1, 0 or 1. |
| VersionCondition.ComparePartsReflexive | internal/conditions/executable_version.go:178-211 | Every version compares equal to itself. |
| VersionCondition.CompareComponentAntisymmetric | internal/conditions/executable_version.go:190-207 | Swapping two components negates their comparison. |
| VersionCondition.ComparePartsAntisymmetric | internal/conditions/executable_version.go:178-211 | Swapping two versions negates the result. |
| VersionCondition.ExtensionIsGreater | internal/conditions/executable_version.go:180-187 | A version that extends another with more components is greater, so "1.2" < "1.2.0". |
| VersionCondition.AtLeastMeaning | internal/conditions/executable_version.go:121-123 | ">=v" holds iff the trimmed version compares at least the trimmed v. |
| VersionCondition.AboveMeaning | internal/conditions/executable_version.go:124-126 | ">v" (not ">=") holds iff the trimmed version compares above v. |
| VersionCondition.AtMostMeaning | internal/conditions/executable_version.go:127-129 | "<=v" holds iff the trimmed version compares at most v. |
| VersionCondition.BelowMeaning | internal/conditions/executable_version.go:130-132 | "<v" (not "<=") holds iff the trimmed version compares below v. |
| VersionCondition.ExactlyMeaning | internal/conditions/executable_version.go:133-135 | "=v" holds iff the versions compare equal after trimming. |
| VersionCondition.BareVersionMeaning | internal/conditions/executable_version.go:136-158 | A constraint without an operator means equality. |
| VersionCondition.VersionMeetsConstraint | internal/conditions/executable_version.go:115-159 | For each operator prefix, read from the raw constraint in the source's order (`>=`, `>`, `<=`, `<`, `=`, none), the result is the matching test of the comparison of the two trimmed versions; no operator means equality. Partners: the `AtLeastMeaning` … `BareVersionMeaning` lemmas and the complement lemmas. |
| VersionCondition.AtLeastComplementsBelow | internal/conditions/executable_version.go:145-158 | ">=v" and "<v" split all versions between them. |
| VersionCondition.AboveComplementsAtMost | internal/conditions/executable_version.go:145-158 | ">v" and "<=v" split all versions between them. |
| VersionCondition.VersionMeetsItself | internal/conditions/executable_version.go:145-158 | Every version meets ">=" and "=" of itself. |
| VersionCondition.NumericComponents | internal/conditions/executable_version.go:190-202 | Components that both parse as integers compare as numbers: "10" is above "9". |
| VersionCondition.ExactlyMeaningUntrimmed | internal/conditions/executable_version.go:133-140 | For versions without surrounding blanks, "=v" is plain equality of the comparison. |
| VersionCondition.ExtraComponentNeverEqual | internal/conditions/executable_version.go:180-187 | "1.2" is below "1.2.x" and never meets "=1.2.x". |
| VersionCondition.MixedComponentsNotTransitive | internal/conditions/executable_version.go:190-207 | Mixing numeric and textual comparison makes the order non-transitive: "9" < "10" < "1a" < "9". |
| VersionCondition.MatchesExecutableVersionCondition | internal/conditions/executable_version.go:13-43 | The result is true iff every executable in the map is found, reports a version, and that version meets its constraint. |
| VersionCondition.MinorDecides | internal/conditions/executable_version.go:178-211 | "3.1" compares above "3.0": equal majors, then the minor decides. |
| VersionCondition.MajorDecides | internal/conditions/executable_version.go:178-211 | "2.9" compares below "3.0": the major decides. |
| VersionCondition.AtLeastMet | internal/conditions/executable_version.go:115-159 | "3.1" meets ">=3.0". |
| VersionCondition.AtLeastMissed | internal/conditions/executable_version.go:115-159 | "2.9" does not meet ">=3.0". |
| UserCondition.MatchesUserCondition | internal/conditions/user.go:14-28 | The result is true iff the list is empty or holds the user name exactly. |
| UserCondition.FailedLookupMatchesOnlyEmptyName | internal/conditions/user.go:33-36 | A consequence of `MatchesUserCondition`'s contract for a failed lookup: the name is "", so a non-empty list passes only when it holds "". |
| UserCondition.UserNameCache.constructor | internal/conditions/user.go:32 | No name is cached before the first call. |
| UserCondition.UserNameCache.GetUserName | internal/conditions/user.go:31-42 | The first call caches the looked-up name, or "" on failure. Every later call returns the cached name whatever the lookup says. |
| Prompt.ConfirmPrompt | internal/utils/prompt.go:11-22 | A read error gives no. Otherwise the answer is yes iff the trimmed, lower-cased line is "y" or "yes". |
| Prompt.LowersTo | internal/utils/prompt.go:20 | Only the letter itself and its upper case lower-case to a given lower-case letter. |
| Prompt.AcceptedSpellings | internal/utils/prompt.go:20-21 | Without surrounding blanks, the accepted answers are exactly y/Y and yes in any mix of cases. |
| Prompt.YesAccepted | internal/utils/prompt.go:21 | "yes" is accepted. |
| Prompt.SurroundingBlanksIgnored | internal/utils/prompt.go:20 | A trailing newline does not change the verdict. |
| Prompt.LeadingBlankIgnored | internal/utils/prompt.go:20 | A leading blank does not change the verdict. |
| Prompt.YepRejected | internal/utils/prompt.go:21 | "yep" is a no. |
| Prompt.NoAndEmptyRejected | internal/utils/prompt.go:21 | "n" and the empty line are a no. |
| IoUtils.ExpandPath | internal/io_utils.go:52-55 | A leading "~" becomes the home directory, then the path is made absolute. A path without one is only made absolute. |
| IoUtils.ExpandPathIdempotent | internal/io_utils.go:49-56 | Expanding an expanded path changes nothing, for an `Abs` that keeps absolute paths. |
| IoUtils.OnlyLeadingTildeReplaced | internal/io_utils.go:52-53 | Only a leading "~" is replaced, once; "~user/x" gets no special case; a later "~" stays. |
| IoUtils.HomeDir.constructor | internal/io_utils.go:50 | No home directory is known before the first call. |
| IoUtils.HomeDir.Init | internal/io_utils.go:17-25 | The first call stores the user's home, or `$HOME` when the lookup fails. Later calls keep the stored value. |
| IoUtils.HomeDir.Expand | internal/io_utils.go:49-56 | ExpandPath initialises the home directory once, then expands with the stored value. |
| IoUtils.CopyFile | internal/io_utils.go:28-46 | A failed copy changes nothing. A successful one needed a readable source. |
| IoUtils.CopyToNewPath | internal/io_utils.go:28-46 | A copy to a new path creates a file with the source's bytes and permission bits. |
| IoUtils.CopyOverExistingFile | internal/io_utils.go:42-45 | A copy over an existing file replaces its bytes and keeps the destination's mode, since WriteFile does not chmod. |
| IoUtils.CopyFileContents | internal/io_utils.go:28-46 | After a successful copy, the destination reads back as the bytes the source held. |
| IoUtils.CopyFileOn | internal/io_utils.go:28-46 | The read, stat and write calls on the file system end in the state `CopyFile` specifies. |
| Link.LinkPackagesEffect | internal/link.go:22-26 | An empty package list is an error with no change. |
| Link.ReplaceTarget | internal/link.go:164-224 | Backup, remove and symlink, in that order, end in the state `Replace` specifies. |
| Link.LinkFile | internal/link.go:121-227 | linkFile's calls and prompt end in the tree, answer queue and result `LinkFileEffect` specifies. |
| Link.LinkEntry | internal/link.go:68-117 | The walk callback ends in the state `LinkEntryEffect` specifies. |
| Link.LinkPackage | internal/link.go:41-118 | The gate, the directory check and the walk loop (walk invariant) end in the state `LinkPackageEffect` specifies. |
| Link.LinkPackages | internal/link.go:22-38 | The package loop ends in the state `LinkPackagesEffect` specifies. |
| LinkProperties.LinkFileDryRun | internal/link.go:125-204 | In dry-run, linkFile changes no file and consumes no answer. |
| LinkProperties.LinkEntryDryRun | internal/link.go:100-103 | With every file of the package in dry-run, no walk entry changes anything. |
| LinkProperties.LinkWalkDryRun | internal/link.go:68-117 | With every file of the package in dry-run, a whole walk changes nothing and asks nothing. |
| LinkProperties.LinkPackageDryRun | internal/link.go:41-118 | A package in dry-run, by its own flag or the global one, changes nothing and asks nothing, whatever its file entries say. |
| LinkProperties.LinkEachDryRun | internal/link.go:27-35 | With global dry-run, any sequence of packages changes nothing. |
| LinkProperties.LinkPackagesDryRun | internal/link.go:22-38 | With global dry-run, LinkPackages leaves the file system as it was and never prompts. |
| LinkProperties.AlreadyLinkedIsNoOp | internal/link.go:132-142 | A target that already links to the source is left alone and nothing is asked. |
| LinkProperties.MissingTargetLinked | internal/link.go:197-224 | A missing target gets exactly one new link, from its expanded path to the expanded source. |
| LinkProperties.MissingTargetParentsCreated | internal/link.go:123-224 | A missing target whose parent directories are missing is linked after they are created. The parent is a directory afterwards, every existing node is kept, and the only new nodes are the link and 0750 directories on the parent's path. |
| LinkProperties.LinkFileIdempotent | internal/link.go:132-142 | Linking a missing target twice is linking it once. |
| LinkProperties.TargetPathExpanded | internal/link.go:211-217 | The target path from GetTargetPath expands to itself, so the link lands on the path checked. |
| LinkProperties.DeclinedConflictUnchanged | internal/link.go:145-161 | A conflict answered with anything but "y" in some case leaves the tree unchanged and uses one answer. |
| LinkProperties.UnreadableAnswerFails | internal/link.go:151-155 | An answer that cannot be read is an error, with the tree unchanged. |
| LinkProperties.YesIsNotEnough | internal/link.go:157-160 | "yes", which ConfirmPrompt accepts, makes linkFile skip the conflict. |
| LinkProperties.BackupKeepsTargetBytes | internal/link.go:165-187 | After the backup step, the backup path holds the target's bytes, before anything is removed. |
| LinkProperties.ForcedConflictBackedUp | internal/link.go:164-224 | A forced conflict over a regular file moves its bytes and mode to the backup path and makes the target the link. |
| LinkProperties.ForcedReplace | internal/link.go:164-224 | Outside dry-run on a fault-free tree, replacing a regular file copies it to a new backup path, removes it and puts the link in its place. |
| LinkProperties.DirectoryEntryOnlyAddsDirectories | internal/link.go:100-113 | A directory entry keeps every existing node and adds only 0750 directories on its target's path. It asks nothing. When it is mirrored and succeeds, the target is a directory afterwards. |
| LinkProperties.DirectoryEntryCreatesDirectory | internal/link.go:100-113 | With only absent paths or directories on the target's path and no failing call, a mirrored directory entry succeeds and leaves the target a directory. |
| LinkProperties.ReplaceFrame | internal/link.go:189-224 | Without a backup, a replacement touches only the target and its expanded path. |
| LinkProperties.LinkTargetFrame | internal/link.go:132-224 | Without a backup, the steps after the parent check touch only the target and its expanded path. |
| LinkProperties.LinkFileFrame | internal/link.go:121-227 | Nothing else changes: only the target's parent directories, the target and its expanded path. |
| LinkProperties.LinkEachAppend | internal/link.go:27-35 | Packages run in order and stop at the first failure; linking a+b is a, then b from where a left off. |
| LinkProperties.FailedPackageConditionsSkip | internal/link.go:43-49 | A package whose conditions fail succeeds with no change and no question. |
| LinkProperties.MissingPackageDirFails | internal/link.go:57-65 | A package directory that does not exist is an error, with no change and no question. |
| LinkProperties.FailedFileConditionsSkip | internal/link.go:85-91 | An entry whose conditions fail is skipped with no change, and the walk goes on. |
| Unlink.Record | internal/unlink.go:95-98 | Recording a directory keeps the earlier keys and adds it, as setting a map key does. |
| Unlink.UnlinkPackagesEffect | internal/unlink.go:20-24 | An empty package list is an error with no change. |
| Unlink.RestoreBackup | internal/unlink.go:194-216 | Stat, copy and remove end in the state `Restore` specifies. |
| Unlink.UnlinkFile | internal/unlink.go:147-219 | unlinkFile's calls end in the state `UnlinkFileEffect` specifies. |
| Unlink.UnlinkEntry | internal/unlink.go:66-102 | The walk callback ends in the state and recorded directories `UnlinkEntryEffect` specifies. |
| Unlink.UnlinkPackage | internal/unlink.go:39-144 | The gate, the walk loop and the cleanup end in the state `UnlinkPackageEffect` specifies. |
| Unlink.UnlinkPackages | internal/unlink.go:20-36 | The package loop ends in the state `UnlinkPackagesEffect` specifies. |
| UnlinkProperties.UnlinkFileDryRun | internal/unlink.go:177-216 | In dry-run, unlinkFile changes nothing. |
| UnlinkProperties.UnlinkEntryDryRun | internal/unlink.go:66-102 | With every file of the package in dry-run, no walk entry changes anything. |
| UnlinkProperties.UnlinkWalkDryRun | internal/unlink.go:66-102 | With every file of the package in dry-run, a whole walk changes nothing. |
| UnlinkProperties.UnlinkPackageDryRun | internal/unlink.go:39-144 | A package in dry-run, by its own flag or the global one, changes nothing, cleanup included, whatever its file entries say. |
| UnlinkProperties.UnlinkEachDryRun | internal/unlink.go:25-33 | With global dry-run, any sequence of packages changes nothing. |
| UnlinkProperties.UnlinkPackagesDryRun | internal/unlink.go:109 | With global dry-run, unlinking leaves the file system as it was, cleanup included. |
| UnlinkProperties.NonLinkTargetUntouched | internal/unlink.go:149-168 | A missing target or one that is not a link is left alone, and nothing is restored. |
| UnlinkProperties.OwnLinkRemoved | internal/unlink.go:177-191 | Without a backup, the link to the source is removed and nothing else changes. |
| UnlinkProperties.OwnLinkRestored | internal/unlink.go:194-216 | With a backup, the link gives way to a file with the backup's bytes and mode, and the backup is deleted. |
| UnlinkProperties.WriteFileKeepsLinks | internal/unlink.go:201-204 | Writing a file never alters a symbolic link node. |
| UnlinkProperties.ForeignLinkKept | internal/unlink.go:177-191 | A link to anything but the source is never removed. |
| UnlinkProperties.ForeignLinkRestoreWritesThrough | internal/unlink.go:194-216 | For a foreign link, the restore writes the backup through the link into the file it points at. The link stays and the backup is deleted. |
| UnlinkProperties.LinkThenUnlink | internal/unlink.go:147-191 | Unlinking a target that linkFile just linked, with no backup, gives back the original tree. |
| UnlinkProperties.LinkThenUnlinkRestoresBackup | internal/unlink.go:194-216 | Unlinking after a forced link that backed up a regular file gives back the original tree, bytes and mode included. |
| UnlinkProperties.DirectoryEntryRecorded | internal/unlink.go:95-98 | A directory entry records its target, keeps earlier records and touches no file. |
| UnlinkProperties.WalkRecordsOnlyDirectoryTargets | internal/unlink.go:66-102 | Every recorded directory was recorded before or is the target of a directory entry of the walk. |
| UnlinkProperties.FailedPackageConditionsSkip | internal/unlink.go:41-47 | A package whose conditions fail succeeds with no change. |
| UnlinkProperties.MissingPackageDirFails | internal/unlink.go:52-60 | A package directory that does not exist is an error, with no change and no cleanup. |
| UnlinkProperties.FailedFileConditionsSkip | internal/unlink.go:83-89 | An entry whose conditions fail is neither unlinked nor recorded. |
| DirCleanup.InsertByDepthPermutes | internal/unlink.go:222-229 | One insertion step adds exactly the inserted path. |
| DirCleanup.AppendShallower | internal/unlink.go:222-229 | Appending a path no deeper than every other keeps the deepest-first order. |
| DirCleanup.InsertByDepthOrdered | internal/unlink.go:222-229 | Inserting into a deepest-first sequence keeps it deepest-first. |
| DirCleanup.SortedByDepthPermutes | internal/unlink.go:222-229 | sortByDepth returns a permutation of its input. |
| DirCleanup.SortedByDepthOrdered | internal/unlink.go:222-229 | sortByDepth returns paths with non-increasing separator counts. |
| DirCleanup.InsertStep | internal/unlink.go:222-229 | Moving the inserted path one place left is one step of the insertion. |
| DirCleanup.SwapLeft | internal/unlink.go:222-229 | The swap in the array moves the inserted path one place left. |
| DirCleanup.InsertAt | internal/unlink.go:222-229 | One round of the in-place sort inserts `a[i]` into the sorted prefix. |
| DirCleanup.SortByDepth | internal/unlink.go:222-229 | The array ends as the deepest-first insertion sort of its old contents. |
| DirCleanup.CleanUp | internal/unlink.go:109-139 | Collecting, sorting and pruning end in the state `RemoveEmptyDirs` specifies on the sorted list. |
| DirCleanup.CleanupRemovesOnlyRecorded | internal/unlink.go:118-139 | Cleanup removes only recorded paths and leaves every kept node unchanged. |
| DirCleanup.CleanupKeepsOccupiedDir | internal/unlink.go:118-139 | A directory holding an entry that nobody recorded is never removed. |
| DirCleanup.NestedEmptyDirs | internal/unlink.go:116-139 | Deepest first lets an empty child and then its parent go. In the other order the parent stays. |
| LegacyConfig.GetSourcePath | internal/config/config.go:179-184 | The package's own source directory is used if set. Otherwise the result is `Join(global, package)`, unexpanded. |
| LegacyConfig.CaretScan | internal/config/config.go:195-208 | The key found is the first in iteration order that starts with `^`, has a target path and whose pattern matches. No earlier key qualifies; with no key found, no key of the order qualifies. |
| LegacyConfig.CaretScanComplete | internal/config/config.go:195-208 | When the order visits every key of the map, the scan finds nothing iff no key of the map starts with `^`, has a target path and matches. |
| LegacyConfig.CaretStageDecides | internal/config/config.go:195-217 | Past an exact entry, a qualifying `^` key anywhere in the package's map decides the target. Only when none qualifies is the target a directory joined with the relative path. |
| LegacyConfig.GetTargetPath | internal/config/config.go:187-218 | The lookup loop returns the target the ordered rules give. |
| LegacyConfig.MatchesConditions | internal/config/config.go:251-316 | Only the OS and distribution categories are checked, with the same semantics as the current predicates. |
| LegacyConfig.ExactTargetWins | internal/config/config.go:190-193 | An exact relative-path entry with a target path wins over every `^` key and every directory. |
| LegacyConfig.TargetPathSources | internal/config/config.go:187-218 | The target comes from an exact entry, a matching `^` key, the package's target directory, or else the global one. |
| LegacyConfig.PlainKeysNotPatterns | internal/config/config.go:196-201 | A key without a leading `^`, or without a target path, never takes part in the regex stage. |
| LegacyConfig.CaretScanOrderIrrelevant | internal/config/config.go:196-208 | When at most one `^` key matches, every map iteration order finds the same key. |
| LegacyConfig.BackupPathEmptyIff | internal/config/config.go:221-240 | The result is "" iff the package entry has no backup directory, or, without an entry, the global one is empty. |
| LegacyConfig.PackageBackupDirDecides | internal/config/config.go:223-233 | A package entry overrides the global backup directory entirely, even with an empty one. |
| LegacyConfig.PackageForceDecides | internal/config/config.go:244-246 | A package's force flag, when set, decides alone. |
| LegacyConfig.GlobalForceOtherwise | internal/config/config.go:243-247 | Without a package flag, the global flag decides. |
| LegacyConfig.GetBackupPath | internal/config/config.go:221-240 | The result is "" iff the deciding directory is empty: the package entry's, or the global one without an entry. Otherwise it is that directory joined with the relative path. Partners: `BackupPathEmptyIff`, `PackageBackupDirDecides`. |
| LegacyConfig.ShouldForce | internal/config/config.go:243-247 | True iff the package sets force on, or the global flag is on and the package does not set force off. Partners: `PackageForceDecides`, `GlobalForceOtherwise`. |
| LegacyConfig.ConditionsHoldAsCurrentGate | internal/config/config.go:251-271 | The earlier gate equals the current one with the executable, version and user lists emptied; those categories never make it fail. |
| LegacyLink.CopyFile | internal/link/link.go:207-214 | A failed copy changes nothing. |
| LegacyLink.LinkPackagesEffect | internal/link/link.go:23-27 | An empty package list is an error with no change. |
| LegacyLink.CopyFileOn | internal/link/link.go:207-214 | The read and write calls end in the state `CopyFile` specifies. |
| LegacyLink.ReplaceTarget | internal/link/link.go:154-201 | Backup, remove and symlink end in the state `Replace` specifies. |
| LegacyLink.LinkFile | internal/link/link.go:117-204 | linkFile's calls and prompt end in the state `LinkFileEffect` specifies. |
| LegacyLink.LinkEntry | internal/link/link.go:66-113 | The walk callback ends in the state `LinkEntryEffect` specifies. |
| LegacyLink.LinkPackage | internal/link/link.go:42-114 | The gate, directory check and walk loop end in the state `LinkPackageEffect` specifies. |
| LegacyLink.LinkPackages | internal/link/link.go:23-39 | The package loop ends in the state `LinkPackagesEffect` specifies. |
| LegacyUnlink.UnlinkPackagesEffect | internal/unlink/unlink.go:24-27 | An empty package list is an error with no change. |
| LegacyUnlink.RestoreBackup | internal/unlink/unlink.go:180-203 | Stat, copy and remove end in the state `Restore` specifies. |
| LegacyUnlink.UnlinkFile | internal/unlink/unlink.go:133-206 | unlinkFile's calls end in the state `UnlinkFileEffect` specifies. |
| LegacyUnlink.UnlinkEntry | internal/unlink/unlink.go:61-88 | The walk callback ends in the state `UnlinkEntryEffect` specifies. |
| LegacyUnlink.UnlinkPackage | internal/unlink/unlink.go:43-130 | The directory check, walk loop and cleanup end in the state `UnlinkPackageEffect` specifies. |
| LegacyUnlink.UnlinkPackages | internal/unlink/unlink.go:24-40 | The package loop ends in the state `UnlinkPackagesEffect` specifies. |
| LegacyProperties.LinkFileDryRun | internal/link/link.go:121-192 | With dry-run, linkFile changes no file, though it may consume an answer. |
| LegacyProperties.LinkEntryDryRun | internal/link/link.go:95-99 | With dry-run, no walk entry changes the tree. |
| LegacyProperties.LinkWalkDryRun | internal/link/link.go:66-113 | With dry-run, a whole walk leaves the tree unchanged. |
| LegacyProperties.LinkEachDryRun | internal/link/link.go:28-36 | With dry-run, any sequence of packages leaves the tree unchanged. |
| LegacyProperties.LinkPackagesDryRun | internal/link/link.go:23-39 | With dry-run, nothing is linked, created or backed up. |
| LegacyProperties.DryRunStillAsks | internal/link/link.go:143-152 | Unlike the current engine, a dry-run still prompts on a conflict and consumes an answer. |
| LegacyProperties.FailedReadSkips | internal/link/link.go:143-152 | With no answer to read, the response stays "" and the file is skipped, not failed. |
| LegacyProperties.ScanErrorIgnored | internal/link/link.go:146-151 | The read error is ignored: a "y" stored before the error still lets the replacement go ahead. |
| LegacyProperties.ForcedConflictBackedUp | internal/link/link.go:153-199 | Outside dry-run on a fault-free tree, a forced conflict over a regular file copies its bytes to the new backup path with mode 0644, removes it, and puts the link to the unexpanded source in its place; no answer is read. |
| LegacyProperties.ForcedReplace | internal/link/link.go:153-199 | With backups off, a forced conflict removes the target (a file, a foreign link or an empty directory) and puts the link to the unexpanded source in its place; no answer is read. |
| LegacyProperties.MissingTargetLinked | internal/link/link.go:191-201 | A missing target gets a link to the source path exactly as given, unexpanded. |
| LegacyProperties.AlreadyLinkedIsNoOp | internal/link/link.go:130-140 | A target that already is the link to the source is left alone, dry-run or not, and nothing is asked. |
| LegacyProperties.LinkFileIdempotent | internal/link/link.go:130-140 | Linking a missing target twice is linking it once. The second run finds the link, changes nothing and asks nothing. |
| LegacyProperties.CopyToNewPathIs0644 | internal/link/link.go:207-214 | copyFile creates mode 0644 whatever the source's mode; permissions are not preserved. |
| LegacyProperties.UnlinkFileDryRun | internal/unlink/unlink.go:163-203 | With dry-run, unlinkFile changes nothing. |
| LegacyProperties.UnlinkWalkDryRun | internal/unlink/unlink.go:61-88 | With dry-run, a whole walk changes nothing. |
| LegacyProperties.UnlinkEachDryRun | internal/unlink/unlink.go:29-37 | With dry-run, any sequence of packages changes nothing. |
| LegacyProperties.UnlinkPackagesDryRun | internal/unlink/unlink.go:95-127 | With global dry-run, unlinking, cleanup included, changes nothing. |
| LegacyProperties.NonLinkTargetUntouched | internal/unlink/unlink.go:135-154 | A missing target or one that is not a link is left alone. |
| LegacyProperties.OwnLinkRemovedWithoutGlobalBackup | internal/unlink/unlink.go:163-180 | Without a global backup directory, the link is removed and nothing is restored, even when the package has a backup directory. |
| LegacyProperties.OwnLinkRestored | internal/unlink/unlink.go:180-203 | With a backup, the link gives way to the backup's bytes in a 0644 file, and the backup is deleted. |
| LegacyProperties.LinkThenUnlink | internal/unlink/unlink.go:133-177 | Link then unlink, without backups, gives back the original tree. |
| LegacyProperties.FailedPackageConditionsSkip | internal/link/link.go:44-50 | A package whose conditions fail is skipped with no change and no question. |
| LegacyProperties.MissingPackageDirFails | internal/link/link.go:61-63 | A missing package directory is an error, with no change. |
| LegacyProperties.FailedFileConditionsSkip | internal/link/link.go:82-89 | An entry whose conditions fail is skipped and the walk goes on. |

## Left out

- Loading, saving and defaulting the YAML configuration (`LoadConfig`, `SaveConfig`, `DefaultConfig`). The model starts from a loaded configuration record.
- The command-line front end, logging and colour output, the setup placeholders, and `internal/files.go`, which duplicates `copyFile`.
- `getExecutableVersion` and `extractVersionFromOutput` run a subprocess and scrape its output. The version an executable reports is an input (`Env.versions`).
- Regular-expression matching is an oracle. It answers matched, not matched, or pattern does not compile.
- `filepath.Abs` is an oracle that is assumed to succeed. Its error return is not modelled, and `ExpandPathIdempotent` and `BackupPathEmptyIffDisabled` assume it keeps absolute paths and never returns "".
- `strings.EqualFold` and `strings.ToLower` are modelled on ASCII letters only. Unicode case folding is not part of this model.
- Go map iteration order is random. Each map that the code ranges over with an early exit has a fixed visiting order in the model (`fileOrder`). The package types require that order to visit every key of `files` exactly once, as ranging over a Go map does. The order-independence lemmas say when the order cannot matter.
- `filepath.Walk` is an input sequence of entries, in walk order, below the package root. Its lexical ordering and the root entry itself are not modelled.
- `sort.Slice` does not promise a stable order. The model fixes the insertion-sort order. Every order `sort.Slice` may return is deepest-first, and `SortedByDepthOrdered` and `SortedByDepthPermutes` describe the model's order. That every deepest-first order gives the same cleanup is not proved.
- File system: a symbolic link is followed only as the last path component, up to 40 hops. A `..` in a relative destination is resolved by cleaning the path, not by walking the directories. The umask, ownership, timestamps and nil-pointer panics are not modelled. An I/O failure is an input, the (operation, path) pairs that fail, not a cause.
- `sync.Once` is a cached value (`HomeDir`, `UserNameCache`). Its guarantee under concurrency is not modelled.
- The cleanup's dry-run branch (`internal/unlink.go:127-128`, `internal/unlink/unlink.go:113-114`) cannot run, because the cleanup runs only outside dry-run. It is left out.
- Messages printed to the user, verbose output and warnings are not modelled. A failed removal of a backup after a restore is only a warning, so the model treats it as success.
- Prompt: the example `"  YES\n"` is not stated as one lemma. It follows from `LeadingBlankIgnored`, `SurroundingBlanksIgnored` and `AcceptedSpellings`.
- LinkProperties.LinkFileFrame: the "nothing else changes" frame is stated for files without a backup path. With a backup, `BackupKeepsTargetBytes` and `ForcedConflictBackedUp` describe the extra changes.
- LinkProperties.ForcedConflictBackedUp: stated for a fault-free file system whose backup path is new and whose parent directories exist.
- LegacyProperties.ForcedConflictBackedUp: stated for a fault-free file system whose backup path is new and whose parent directories exist, as for the current engine.
- UnlinkProperties.LinkThenUnlinkRestoresBackup: stated for a forced link over a regular file on a fault-free file system. A prompted "y" takes the same path.
- LegacyProperties.LinkFileIdempotent: stated for a missing target. A target that already is the link is covered by `AlreadyLinkedIsNoOp`. A conflict whose prompt is declined stays in place, so a second run asks again and is not idempotent in the answers it reads.
- Posix: `Mkdir`, `NewSymlink` and `WriteFile` succeed even when the parent directory is missing, where the real calls fail. The engines create the parent with `MkdirAll` before linking or copying a backup, and restore a backup to a path where a link was just found. That no engine call reaches a missing parent is not proved.
- LinkProperties.MissingTargetLinked: stated with the parent directory already present. `MissingTargetParentsCreated` states the case where linkFile creates the parents first.
