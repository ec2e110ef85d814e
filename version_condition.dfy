/** The executable-version predicate (internal/conditions/executable_version.go). */
module VersionCondition {
  import opened Wrappers
  import opened Text
  import opened Environment

  const MinInt64: int := -0x8000_0000_0000_0000
  const MaxInt64: int := 0x7fff_ffff_ffff_ffff

  predicate IsDigit(c: char) {
    '0' <= c <= '9'
  }

  predicate AllDigits(s: string) {
    |s| > 0 && forall i :: 0 <= i < |s| ==> IsDigit(s[i])
  }

  /** The decimal value of a digit string, most significant digit first. */
  function DigitsValue(s: string): nat
    requires forall i :: 0 <= i < |s| ==> IsDigit(s[i])
  {
    if s == [] then 0
    else
      assert IsDigit(s[|s| - 1]);
      DigitsValue(s[..|s| - 1]) * 10 + (s[|s| - 1] as int - '0' as int)
  }

  /**
   * strconv.Atoi on a 64-bit platform: an optional sign, then one or more
   * decimal digits, and a value that fits in int64; anything else is an error.
   */
  function Atoi(s: string): (r: Option<int>)
    ensures r.Some? ==> MinInt64 <= r.value <= MaxInt64
    ensures r.Some? ==> |s| > 0 && AllDigits(if s[0] == '+' || s[0] == '-' then s[1..] else s)
    ensures AllDigits(s) && DigitsValue(s) <= MaxInt64 ==> r == Some(DigitsValue(s))
  {
    var negative := |s| > 0 && s[0] == '-';
    var digits := if |s| > 0 && (s[0] == '+' || s[0] == '-') then s[1..] else s;
    if !AllDigits(digits) then None
    else
      var magnitude: int := DigitsValue(digits);
      var v := if negative then -magnitude else magnitude;
      if MinInt64 <= v <= MaxInt64 then Some(v) else None
  }

  /** The decimal spelling of a natural number (strconv.Itoa on non-negative values). */
  function Itoa(n: nat): (s: string)
    ensures AllDigits(s)
  {
    if n < 10 then ['0' + n as char]
    else Itoa(n / 10) + ['0' + (n % 10) as char]
  }

  lemma {:induction false} DigitsValueItoa(n: nat)
    ensures DigitsValue(Itoa(n)) == n
  {
    if n >= 10 {
      DigitsValueItoa(n / 10);
      var s := Itoa(n);
      assert s[..|s| - 1] == Itoa(n / 10);
    }
  }

  /** Atoi reads back what Itoa writes, for every non-negative int64. */
  lemma AtoiItoa(n: nat)
    requires n <= MaxInt64
    ensures Atoi(Itoa(n)) == Some(n)
  {
    DigitsValueItoa(n);
  }

  /** One component pair: numerically when both parse as integers, else as strings. */
  function CompareComponent(a: string, b: string): (r: int)
    ensures r == -1 || r == 0 || r == 1
    ensures a == b ==> r == 0
  {
    var n1 := Atoi(a);
    var n2 := Atoi(b);
    if n1.Some? && n2.Some? then
      (if n1.value < n2.value then -1 else if n1.value > n2.value then 1 else 0)
    else Compare(a, b)
  }

  /**
   * The reference order on component lists: the first differing component
   * decides; running out of components first makes a version smaller.
   */
  function CompareParts(p1: seq<string>, p2: seq<string>): (r: int)
    ensures r == -1 || r == 0 || r == 1
  {
    if p1 == [] && p2 == [] then 0
    else if p1 == [] then -1
    else if p2 == [] then 1
    else
      var c := CompareComponent(p1[0], p2[0]);
      if c != 0 then c else CompareParts(p1[1..], p2[1..])
  }

  /** compareVersions: the loop over the dot-separated components. */
  method CompareVersions(v1: string, v2: string) returns (r: int)
    ensures r == CompareParts(Split(v1, '.'), Split(v2, '.'))
    ensures r == -1 || r == 0 || r == 1
  {
    var parts1 := Split(v1, '.');
    var parts2 := Split(v2, '.');
    var maxLen := |parts1|;
    if |parts2| > maxLen {
      maxLen := |parts2|;
    }
    for i := 0 to maxLen
      invariant i <= |parts1| && i <= |parts2|
      invariant CompareParts(parts1, parts2) == CompareParts(parts1[i..], parts2[i..])
    {
      if i >= |parts1| {
        return -1;
      }
      if i >= |parts2| {
        return 1;
      }
      assert parts1[i..][1..] == parts1[i + 1..] && parts2[i..][1..] == parts2[i + 1..];
      var comp := CompareComponent(parts1[i], parts2[i]);
      if comp != 0 {
        return comp;
      }
    }
    assert parts1[maxLen..] == [] && parts2[maxLen..] == [];
    return 0;
  }

  /** The order compareVersions computes, on whole version strings. */
  function VersionCompare(v1: string, v2: string): int {
    CompareParts(Split(v1, '.'), Split(v2, '.'))
  }

  lemma {:induction false} ComparePartsReflexive(p: seq<string>)
    ensures CompareParts(p, p) == 0
  {
    if p != [] {
      ComparePartsReflexive(p[1..]);
    }
  }

  lemma CompareComponentAntisymmetric(a: string, b: string)
    ensures CompareComponent(a, b) == -CompareComponent(b, a)
  {
    CompareAntisymmetric(a, b);
  }

  /** Swapping the versions flips the answer. */
  lemma {:induction false} ComparePartsAntisymmetric(p1: seq<string>, p2: seq<string>)
    ensures CompareParts(p1, p2) == -CompareParts(p2, p1)
  {
    if p1 != [] && p2 != [] {
      CompareComponentAntisymmetric(p1[0], p2[0]);
      ComparePartsAntisymmetric(p1[1..], p2[1..]);
    }
  }

  /** A version that extends another by more components is the greater one ("1.2" < "1.2.0"). */
  lemma {:induction false} ExtensionIsGreater(p: seq<string>, q: seq<string>)
    requires q != []
    ensures CompareParts(p, p + q) == -1
  {
    if p != [] {
      assert (p + q)[1..] == p[1..] + q;
      ExtensionIsGreater(p[1..], q);
    }
  }

  /** The operators a constraint may start with, checked longest first. */
  datatype Operator = AtLeast | Above | AtMost | Below | Exactly | Unspecified

  function ParseConstraint(constraint: string): (Operator, string) {
    if HasPrefix(constraint, ">=") then (AtLeast, TrimPrefix(constraint, ">="))
    else if HasPrefix(constraint, ">") then (Above, TrimPrefix(constraint, ">"))
    else if HasPrefix(constraint, "<=") then (AtMost, TrimPrefix(constraint, "<="))
    else if HasPrefix(constraint, "<") then (Below, TrimPrefix(constraint, "<"))
    else if HasPrefix(constraint, "=") then (Exactly, TrimPrefix(constraint, "="))
    else (Unspecified, constraint)
  }

  /**
   * versionMeetsConstraint: split off the operator, trim both versions, and
   * compare; a bare version means equality.
   */
  function VersionMeetsConstraint(version: string, constraint: string): (r: bool)
    ensures HasPrefix(constraint, ">=") ==>
      (r <==> VersionCompare(TrimSpace(version), TrimSpace(TrimPrefix(constraint, ">="))) >= 0)
    ensures HasPrefix(constraint, ">") && !HasPrefix(constraint, ">=") ==>
      (r <==> VersionCompare(TrimSpace(version), TrimSpace(TrimPrefix(constraint, ">"))) > 0)
    ensures HasPrefix(constraint, "<=") ==>
      (r <==> VersionCompare(TrimSpace(version), TrimSpace(TrimPrefix(constraint, "<="))) <= 0)
    ensures HasPrefix(constraint, "<") && !HasPrefix(constraint, "<=") ==>
      (r <==> VersionCompare(TrimSpace(version), TrimSpace(TrimPrefix(constraint, "<"))) < 0)
    ensures HasPrefix(constraint, "=") ==>
      (r <==> VersionCompare(TrimSpace(version), TrimSpace(TrimPrefix(constraint, "="))) == 0)
    ensures !HasPrefix(constraint, ">") && !HasPrefix(constraint, "<") && !HasPrefix(constraint, "=") ==>
      (r <==> VersionCompare(TrimSpace(version), TrimSpace(constraint)) == 0)
  {
    assert HasPrefix(constraint, ">") ==> constraint[0] == '>';
    assert HasPrefix(constraint, "<") ==> constraint[0] == '<';
    var (operator, required) := ParseConstraint(constraint);
    var comparison := VersionCompare(TrimSpace(version), TrimSpace(required));
    match operator
    case AtLeast => comparison >= 0
    case Above => comparison > 0
    case AtMost => comparison <= 0
    case Below => comparison < 0
    case Exactly => comparison == 0
    case Unspecified => comparison == 0
  }

  /** ">=v": at least v, after trimming both sides. */
  lemma AtLeastMeaning(version: string, constraint: string)
    requires HasPrefix(constraint, ">=")
    ensures VersionMeetsConstraint(version, constraint) <==> VersionCompare(TrimSpace(version), TrimSpace(constraint[2..])) >= 0
  {
    var (operator, required) := ParseConstraint(constraint);
    assert operator == AtLeast && required == constraint[2..];
  }

  /** ">v": newer than v, after trimming both sides. */
  lemma AboveMeaning(version: string, constraint: string)
    requires HasPrefix(constraint, ">") && !HasPrefix(constraint, ">=")
    ensures VersionMeetsConstraint(version, constraint) <==> VersionCompare(TrimSpace(version), TrimSpace(constraint[1..])) > 0
  {
    var (operator, required) := ParseConstraint(constraint);
    assert constraint[0] == '>';
    assert operator == Above && required == constraint[1..];
  }

  /** "<=v": at most v, after trimming both sides. */
  lemma AtMostMeaning(version: string, constraint: string)
    requires HasPrefix(constraint, "<=")
    ensures VersionMeetsConstraint(version, constraint) <==> VersionCompare(TrimSpace(version), TrimSpace(constraint[2..])) <= 0
  {
    var (operator, required) := ParseConstraint(constraint);
    assert constraint[0] == '<';
    assert operator == AtMost && required == constraint[2..];
  }

  /** "<v": older than v, after trimming both sides. */
  lemma BelowMeaning(version: string, constraint: string)
    requires HasPrefix(constraint, "<") && !HasPrefix(constraint, "<=")
    ensures VersionMeetsConstraint(version, constraint) <==> VersionCompare(TrimSpace(version), TrimSpace(constraint[1..])) < 0
  {
    var (operator, required) := ParseConstraint(constraint);
    assert constraint[0] == '<';
    assert operator == Below && required == constraint[1..];
  }

  /** "=v": equal to v, after trimming both sides. */
  lemma ExactlyMeaning(version: string, constraint: string)
    requires HasPrefix(constraint, "=")
    ensures VersionMeetsConstraint(version, constraint) <==> VersionCompare(TrimSpace(version), TrimSpace(constraint[1..])) == 0
  {
    var (operator, required) := ParseConstraint(constraint);
    assert constraint[0] == '=';
    assert operator == Exactly && required == constraint[1..];
  }

  /** A constraint without an operator demands equality, like "=". */
  lemma BareVersionMeaning(version: string, constraint: string)
    requires !HasPrefix(constraint, ">") && !HasPrefix(constraint, "<") && !HasPrefix(constraint, "=")
    ensures VersionMeetsConstraint(version, constraint) <==> VersionCompare(TrimSpace(version), TrimSpace(constraint)) == 0
  {
    var (operator, required) := ParseConstraint(constraint);
    assert !HasPrefix(constraint, ">=") && !HasPrefix(constraint, "<=");
    assert operator == Unspecified && required == constraint;
  }

  /** ">=v" and "<v" split every version between them. */
  lemma AtLeastComplementsBelow(version: string, required: string)
    requires !HasPrefix(required, "=")
    ensures VersionMeetsConstraint(version, ">=" + required) <==> !VersionMeetsConstraint(version, "<" + required)
  {
    assert (">=" + required)[2..] == required;
    assert ("<" + required)[1..] == required;
    AtLeastMeaning(version, ">=" + required);
    BelowMeaning(version, "<" + required);
  }

  /** ">v" and "<=v" split every version between them. */
  lemma AboveComplementsAtMost(version: string, required: string)
    requires !HasPrefix(required, "=")
    ensures VersionMeetsConstraint(version, ">" + required) <==> !VersionMeetsConstraint(version, "<=" + required)
  {
    assert ("<=" + required)[2..] == required;
    assert (">" + required)[1..] == required;
    AtMostMeaning(version, "<=" + required);
    AboveMeaning(version, ">" + required);
  }

  /** Every version satisfies ">=" and "=" of itself. */
  lemma VersionMeetsItself(version: string)
    ensures VersionMeetsConstraint(version, ">=" + version)
    ensures VersionMeetsConstraint(version, "=" + version)
  {
    assert (">=" + version)[2..] == version;
    assert ("=" + version)[1..] == version;
    ComparePartsReflexive(Split(TrimSpace(version), '.'));
    AtLeastMeaning(version, ">=" + version);
    ExactlyMeaning(version, "=" + version);
  }

  lemma SingleComponent(v: string)
    requires '.' !in v
    ensures Split(v, '.') == [v]
  {
    SplitNoSeparator(v, '.');
  }

  lemma OneDigitAtoi(s: string)
    requires |s| == 1 && IsDigit(s[0])
    ensures Atoi(s) == Some(s[0] as int - '0' as int)
  {
    assert s[..0] == [];
    assert DigitsValue(s) == s[0] as int - '0' as int;
    assert AllDigits(s);
  }

  lemma TwoDigitAtoi(s: string)
    requires |s| == 2 && IsDigit(s[0]) && IsDigit(s[1])
    ensures Atoi(s) == Some((s[0] as int - '0' as int) * 10 + (s[1] as int - '0' as int))
  {
    var first := s[..1];
    assert first[..0] == [] && first[0] == s[0];
    assert DigitsValue(first) == s[0] as int - '0' as int;
    assert DigitsValue(s) == DigitsValue(first) * 10 + (s[1] as int - '0' as int);
    assert AllDigits(s);
  }

  /** Components compare as numbers: "10" is newer than "9". */
  lemma NumericComponents()
    ensures VersionCompare("10", "9") == 1
  {
    SingleComponent("10");
    SingleComponent("9");
    TwoDigitAtoi("10");
    OneDigitAtoi("9");
  }

  lemma ExactlyMeaningUntrimmed(version: string, required: string)
    requires TrimSpace(version) == version && TrimSpace(required) == required
    ensures VersionMeetsConstraint(version, "=" + required) <==> VersionCompare(version, required) == 0
  {
    ExactlyMeaning(version, "=" + required);
    assert ("=" + required)[1..] == required;
  }

  /** Adding components never yields an equal version: "1.2" does not satisfy "=1.2.0". */
  lemma ExtraComponentNeverEqual(version: string, suffix: string)
    requires TrimSpace(version) == version
    requires TrimSpace(version + "." + suffix) == version + "." + suffix
    ensures VersionCompare(version, version + "." + suffix) == -1
    ensures !VersionMeetsConstraint(version, "=" + (version + "." + suffix))
  {
    SplitAround(version, '.', suffix);
    ExtensionIsGreater(Split(version, '.'), Split(suffix, '.'));
    ExactlyMeaningUntrimmed(version, version + "." + suffix);
  }

  /**
   * Mixing numeric and textual components makes the order non-transitive:
   * "9" < "10" and "10" < "1a" (as text), yet "9" > "1a".
   */
  lemma MixedComponentsNotTransitive()
    ensures VersionCompare("9", "10") == -1
    ensures VersionCompare("10", "1a") == -1
    ensures VersionCompare("9", "1a") == 1
  {
    SingleComponent("9");
    SingleComponent("10");
    SingleComponent("1a");
    TwoDigitAtoi("10");
    OneDigitAtoi("9");
    assert !IsDigit("1a"[1]);
    assert Atoi("1a") == None;
  }

  /** One entry of the map is satisfied: the executable is found, reports a version, and meets the constraint. */
  predicate EntryMet(versionConditions: map<string, string>, env: Env, name: string)
    requires name in versionConditions
  {
    name in env.onPath && name in env.versions &&
    VersionMeetsConstraint(env.versions[name], versionConditions[name])
  }

  /** What the predicate means: every listed executable is found, reports a version, and meets its constraint. */
  predicate VersionsSatisfied(versionConditions: map<string, string>, env: Env) {
    forall name :: name in versionConditions ==> EntryMet(versionConditions, env, name)
  }

  /**
   * MatchesExecutableVersionCondition: the loop over the map, in whatever order
   * it is visited, returning false at the first executable that is missing,
   * has no version, or fails its constraint.
   */
  method MatchesExecutableVersionCondition(versionConditions: map<string, string>, env: Env) returns (r: bool)
    ensures r <==> forall name :: name in versionConditions ==>
      name in env.onPath && name in env.versions &&
      VersionMeetsConstraint(env.versions[name], versionConditions[name])
    ensures r == VersionsSatisfied(versionConditions, env)
  {
    if |versionConditions| == 0 {
      return true;
    }
    var remaining := versionConditions.Keys;
    while remaining != {}
      invariant remaining <= versionConditions.Keys
      invariant forall name :: name in versionConditions.Keys - remaining ==> EntryMet(versionConditions, env, name)
      decreases remaining
    {
      var execName :| execName in remaining;
      if execName !in env.onPath {
        return false;
      }
      if execName !in env.versions {
        return false;
      }
      if !VersionMeetsConstraint(env.versions[execName], versionConditions[execName]) {
        return false;
      }
      remaining := remaining - {execName};
    }
    assert versionConditions.Keys - remaining == versionConditions.Keys;
    return true;
  }

  /** A two-component version "a.b" splits into its two one-character components. */
  lemma TwoComponents(a: char, b: char)
    requires a != '.' && b != '.'
    ensures Split([a, '.', b], '.') == [[a], [b]]
  {
    var v := [a, '.', b];
    assert v[..1] == [a] && v[2..] == [b];
    SplitFirstSeparator(v, '.', 1);
    SplitNoSeparator([b], '.');
  }

  /** "3.1" compares above "3.0": the first components tie and the second decides. */
  lemma MinorDecides()
    ensures VersionCompare("3.1", "3.0") == 1
  {
    TwoComponents('3', '1');
    TwoComponents('3', '0');
    OneDigitAtoi("1");
    OneDigitAtoi("0");
    assert CompareParts(["1"], ["0"]) == 1;
  }

  /** "2.9" compares below "3.0": the first components decide. */
  lemma MajorDecides()
    ensures VersionCompare("2.9", "3.0") == -1
  {
    TwoComponents('2', '9');
    TwoComponents('3', '0');
    OneDigitAtoi("2");
    OneDigitAtoi("3");
  }

  /** Worked example of ">=": "3.1" meets ">=3.0". */
  lemma AtLeastMet()
    ensures VersionMeetsConstraint("3.1", ">=3.0")
  {
    assert ">=3.0"[2..] == "3.0";
    TrimUntouched("3.0", IsSpace);
    TrimUntouched("3.1", IsSpace);
    AtLeastMeaning("3.1", ">=3.0");
    MinorDecides();
  }

  /** Worked example of ">=": "2.9" does not meet ">=3.0". */
  lemma AtLeastMissed()
    ensures !VersionMeetsConstraint("2.9", ">=3.0")
  {
    assert ">=3.0"[2..] == "3.0";
    TrimUntouched("3.0", IsSpace);
    TrimUntouched("2.9", IsSpace);
    AtLeastMeaning("2.9", ">=3.0");
    MajorDecides();
  }
}
