/** The Linux-distribution predicate and its detection (internal/conditions/distro.go). */
module DistroCondition {
  import opened Text
  import opened FilePaths
  import opened Environment

  const OsReleasePath := "/etc/os-release"
  /** The fallback files, probed in this order. */
  const ReleaseFiles: seq<string> := ["/etc/lsb-release", "/etc/debian_version", "/etc/fedora-release", "/etc/redhat-release"]
  const ArchReleasePath := "/etc/arch-release"

  predicate IsQuote(c: char) {
    c == '"' || c == '\''
  }

  predicate IsIdLine(line: string) {
    HasPrefix(line, "ID=")
  }

  /** The value of an ID= line with surrounding quotes removed. */
  function IdValue(line: string): string {
    Trim(TrimPrefix(line, "ID="), IsQuote)
  }

  /** The index of the first ID= line, -1 when there is none. */
  function FirstIdLine(lines: seq<string>): (k: int)
    ensures -1 <= k < |lines|
    ensures k >= 0 ==> IsIdLine(lines[k])
    ensures forall j :: 0 <= j < |lines| && (k < 0 || j < k) ==> !IsIdLine(lines[j])
  {
    if lines == [] then -1
    else if IsIdLine(lines[0]) then 0
    else
      var k := FirstIdLine(lines[1..]);
      assert forall j :: 1 <= j < |lines| ==> lines[j] == lines[1..][j - 1];
      if k < 0 then -1 else k + 1
  }

  /** The reference for parseOSRelease: the value of the first ID= line, "" when there is none. */
  function FirstIdValue(lines: seq<string>): string {
    var k := FirstIdLine(lines);
    if k < 0 then "" else IdValue(lines[k])
  }

  /** parseOSRelease: the scan over the lines of /etc/os-release. */
  method ParseOSRelease(content: string) returns (r: string)
    ensures r == FirstIdValue(Split(content, '\n'))
  {
    var lines := Split(content, '\n');
    for i := 0 to |lines|
      invariant forall j :: 0 <= j < i ==> !IsIdLine(lines[j])
    {
      ghost var k := FirstIdLine(lines);
      if HasPrefix(lines[i], "ID=") {
        assert k == i;
        return IdValue(lines[i]);
      }
    }
    assert FirstIdLine(lines) < 0;
    return "";
  }

  /** The switch on the fallback file's base name; None lets the scan go on. */
  function DistroFromFileName(base: string): (d: string) {
    if Contains(base, "debian") then "debian"
    else if Contains(base, "ubuntu") || Contains(base, "lsb") then "ubuntu"
    else if Contains(base, "fedora") then "fedora"
    else if Contains(base, "redhat") then "rhel"
    else ""
  }

  /**
   * What detection yields, as a flat decision table: os-release when it can be
   * read, then the first fallback file present, then Arch, else nothing.
   */
  function DetectedDistro(env: Env): (r: string) {
    if env.osRelease.Some? then FirstIdValue(Split(env.osRelease.value, '\n'))
    else if ReleaseFiles[0] in env.present then "ubuntu"
    else if ReleaseFiles[1] in env.present then "debian"
    else if ReleaseFiles[2] in env.present then "fedora"
    else if ReleaseFiles[3] in env.present then "rhel"
    else if ArchReleasePath in env.present then "arch"
    else ""
  }

  lemma BaseAfterLastSeparator(p: string, k: nat)
    requires k < |p| && p[k] == Separator && p[|p| - 1] != Separator
    requires forall j :: k < j < |p| ==> p[j] != Separator
    ensures Base(p) == p[k + 1..]
  {
    var q := TrimRight(p, c => c == Separator);
    assert q == p;
  }

  lemma MissingCharNotContained(s: string, sub: string, j: nat)
    requires j < |sub| && sub[j] !in s
    ensures !Contains(s, sub)
  {
  }

  /** Helper for the fallback-table facts: a string contains each of its prefixes. */
  lemma PrefixContained(s: string, sub: string)
    requires HasPrefix(s, sub)
    ensures Contains(s, sub)
  {
    assert s[0..] == s;
  }

  /** The distribution each fallback file names, in probing order. */
  const FallbackDistros: seq<string> := ["ubuntu", "debian", "fedora", "rhel"]

  lemma LsbReleaseBaseName()
    ensures Base(ReleaseFiles[0]) == "lsb-release"
  {
    BaseAfterLastSeparator(ReleaseFiles[0], 4);
  }

  lemma LsbReleaseDistro()
    ensures DistroFromFileName("lsb-release") == "ubuntu"
  {
    MissingCharNotContained("lsb-release", "debian", 0);
    PrefixContained("lsb-release", "lsb");
  }

  lemma DebianVersionBaseName()
    ensures Base(ReleaseFiles[1]) == "debian_version"
  {
    BaseAfterLastSeparator(ReleaseFiles[1], 4);
  }

  lemma DebianVersionDistro()
    ensures DistroFromFileName("debian_version") == "debian"
  {
    PrefixContained("debian_version", "debian");
  }

  lemma FedoraReleaseBaseName()
    ensures Base(ReleaseFiles[2]) == "fedora-release"
  {
    BaseAfterLastSeparator(ReleaseFiles[2], 4);
  }

  lemma FedoraReleaseDistro()
    ensures DistroFromFileName("fedora-release") == "fedora"
  {
    MissingCharNotContained("fedora-release", "debian", 2);
    MissingCharNotContained("fedora-release", "ubuntu", 0);
    MissingCharNotContained("fedora-release", "lsb", 2);
    PrefixContained("fedora-release", "fedora");
  }

  lemma RedhatReleaseBaseName()
    ensures Base(ReleaseFiles[3]) == "redhat-release"
  {
    BaseAfterLastSeparator(ReleaseFiles[3], 4);
  }

  lemma RedhatReleaseDistro()
    ensures DistroFromFileName("redhat-release") == "rhel"
  {
    MissingCharNotContained("redhat-release", "debian", 2);
    MissingCharNotContained("redhat-release", "ubuntu", 0);
    MissingCharNotContained("redhat-release", "lsb", 2);
    MissingCharNotContained("redhat-release", "fedora", 0);
    PrefixContained("redhat-release", "redhat");
  }

  /** The switch on each fallback file's base name yields the table's distribution. */
  lemma ReleaseFileDistro(i: nat)
    requires i < |ReleaseFiles|
    ensures DistroFromFileName(Base(ReleaseFiles[i])) == FallbackDistros[i]
    ensures FallbackDistros[i] != ""
  {
    if i == 0 {
      LsbReleaseBaseName();
      LsbReleaseDistro();
    } else if i == 1 {
      DebianVersionBaseName();
      DebianVersionDistro();
    } else if i == 2 {
      FedoraReleaseBaseName();
      FedoraReleaseDistro();
    } else {
      RedhatReleaseBaseName();
      RedhatReleaseDistro();
    }
  }

  /** The decision table picks the first fallback file present. */
  lemma FallbackRow(env: Env, i: nat)
    requires env.osRelease.None? && i < |ReleaseFiles| && ReleaseFiles[i] in env.present
    requires forall j :: 0 <= j < i ==> ReleaseFiles[j] !in env.present
    ensures DetectedDistro(env) == FallbackDistros[i]
  {
    if i > 0 { assert ReleaseFiles[0] !in env.present; }
    if i > 1 { assert ReleaseFiles[1] !in env.present; }
    if i > 2 { assert ReleaseFiles[2] !in env.present; }
  }

  /** detectLinuxDistribution: os-release first, then the fallback files in order, then Arch. */
  method DetectLinuxDistribution(env: Env) returns (r: string)
    ensures r == DetectedDistro(env)
  {
    if env.osRelease.Some? {
      r := ParseOSRelease(env.osRelease.value);
      return;
    }
    for i := 0 to |ReleaseFiles|
      invariant forall j :: 0 <= j < i ==> ReleaseFiles[j] !in env.present
    {
      if ReleaseFiles[i] in env.present {
        ReleaseFileDistro(i);
        var d := DistroFromFileName(Base(ReleaseFiles[i]));
        if d != "" {
          FallbackRow(env, i);
          return d;
        }
      }
    }
    assert forall j :: 0 <= j < |ReleaseFiles| ==> ReleaseFiles[j] !in env.present;
    if ArchReleasePath in env.present {
      return "arch";
    }
    return "";
  }

  /** What the predicate means: vacuous off Linux; on Linux the detected name must be listed, case-insensitively. */
  predicate DistroSelected(distroConditions: seq<string>, env: Env) {
    |distroConditions| == 0 || env.goos != "linux" ||
    (DetectedDistro(env) != "" &&
     exists i :: 0 <= i < |distroConditions| && EqualFold(distroConditions[i], DetectedDistro(env)))
  }

  /** MatchesDistroCondition */
  method MatchesDistroCondition(distroConditions: seq<string>, env: Env) returns (r: bool)
    ensures r == DistroSelected(distroConditions, env)
  {
    if |distroConditions| == 0 {
      return true;
    }
    if env.goos != "linux" {
      return true;
    }
    var currentDistro := DetectLinuxDistribution(env);
    if currentDistro == "" {
      return false;
    }
    for i := 0 to |distroConditions|
      invariant forall j :: 0 <= j < i ==> !EqualFold(distroConditions[j], currentDistro)
    {
      if EqualFold(distroConditions[i], currentDistro) {
        return true;
      }
    }
    return false;
  }

  /** An undetectable distribution never satisfies a non-empty list on Linux, not even one holding "". */
  lemma UndetectedNeverMatches(distroConditions: seq<string>, env: Env)
    requires |distroConditions| > 0 && env.goos == "linux" && DetectedDistro(env) == ""
    ensures !DistroSelected(distroConditions, env)
  {
  }

  /** A quoted ID after a VERSION_ID line: only the line starting with ID= counts, and its quotes go. */
  lemma {:induction false} QuotedIdAfterVersionId()
    ensures FirstIdValue(["VERSION_ID=\"22.04\"", "ID=\"ubuntu\""]) == "ubuntu"
  {
    var lines := ["VERSION_ID=\"22.04\"", "ID=\"ubuntu\""];
    assert !IsIdLine(lines[0]) by { assert lines[0][0] != 'I'; }
    assert IsIdLine(lines[1]);
    var v := TrimPrefix(lines[1], "ID=");
    assert v == "\"ubuntu\"";
    var l := TrimLeft(v, IsQuote);
    assert l == v[1..] by {
      assert IsQuote(v[0]) && !IsQuote(v[1]);
    }
    var t := TrimRight(l, IsQuote);
    assert t == l[..|l| - 1] by {
      assert IsQuote(l[|l| - 1]) && !IsQuote(l[|l| - 2]);
    }
    assert t == "ubuntu";
  }

  /**
   * A readable /etc/os-release decides alone: its ID is the answer, even an
   * empty one, whichever fallback files are present.
   */
  lemma OsReleaseDecides(env: Env, present: set<string>)
    requires env.osRelease.Some?
    ensures DetectedDistro(env) == FirstIdValue(Split(env.osRelease.value, '\n'))
    ensures DetectedDistro(env.(present := present)) == DetectedDistro(env)
  {
  }

  /** Off Linux the distribution list is not looked at: every list passes. */
  lemma NonLinuxAlwaysMatches(distroConditions: seq<string>, env: Env)
    requires env.goos != "linux"
    ensures DistroSelected(distroConditions, env)
  {
  }

  /** On Linux with a detected name, the list passes exactly when it holds that name in some case. */
  lemma DetectedNameMatches(distroConditions: seq<string>, env: Env)
    requires |distroConditions| > 0 && env.goos == "linux" && DetectedDistro(env) != ""
    ensures DistroSelected(distroConditions, env) <==>
      exists i :: 0 <= i < |distroConditions| && ToLower(distroConditions[i]) == ToLower(DetectedDistro(env))
  {
  }
}
