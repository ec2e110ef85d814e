/** The OS predicate (internal/conditions/os.go). */
module OsCondition {

  /** What the predicate means: no conditions, or the OS is listed (exact comparison). */
  predicate OsSelected(osConditions: seq<string>, currentOS: string) {
    |osConditions| == 0 || currentOS in osConditions
  }

  /** MatchesOSCondition: the source's early-return scan over the list. */
  method MatchesOSCondition(osConditions: seq<string>, currentOS: string) returns (r: bool)
    ensures r <==> |osConditions| == 0 || exists i :: 0 <= i < |osConditions| && osConditions[i] == currentOS
    ensures r == OsSelected(osConditions, currentOS)
  {
    if |osConditions| == 0 {
      return true;
    }
    for i := 0 to |osConditions|
      invariant forall j :: 0 <= j < i ==> osConditions[j] != currentOS
    {
      if osConditions[i] == currentOS {
        return true;
      }
    }
    return false;
  }

  /** An example of the exact comparison: "Linux" does not select "linux", while "linux" does. */
  lemma OsConditionIsCaseSensitive()
    ensures !OsSelected(["Linux", "Darwin"], "linux")
    ensures OsSelected(["darwin", "linux"], "linux")
  {
    assert "Linux" != "linux" by { assert "Linux"[0] != "linux"[0]; }
    assert "Darwin" != "linux" by { assert "Darwin"[0] != "linux"[0]; }
    assert ["darwin", "linux"][1] == "linux";
  }
}
