/** The executable predicate (internal/conditions/executable.go). */
module ExecutableCondition {

  /** What the predicate means: every listed name resolves on PATH (AND, not OR). */
  predicate AllExecutablesFound(executableConditions: seq<string>, onPath: set<string>) {
    forall i :: 0 <= i < |executableConditions| ==> executableConditions[i] in onPath
  }

  /** MatchesExecutableCondition: the early-return loop over exec.LookPath results. */
  method MatchesExecutableCondition(executableConditions: seq<string>, onPath: set<string>) returns (r: bool)
    ensures r <==> forall i :: 0 <= i < |executableConditions| ==> executableConditions[i] in onPath
    ensures r == AllExecutablesFound(executableConditions, onPath)
  {
    if |executableConditions| == 0 {
      return true;
    }
    for i := 0 to |executableConditions|
      invariant forall j :: 0 <= j < i ==> executableConditions[j] in onPath
    {
      if executableConditions[i] !in onPath {
        return false;
      }
    }
    return true;
  }

  /** The early return only short-circuits: the order of the list does not matter. */
  lemma {:induction false} OrderIrrelevant(a: seq<string>, b: seq<string>, onPath: set<string>)
    requires multiset(a) == multiset(b)
    ensures AllExecutablesFound(a, onPath) == AllExecutablesFound(b, onPath)
  {
    forall i | 0 <= i < |a| ensures a[i] in multiset(b) {
      assert a[i] in multiset(a);
    }
    forall i | 0 <= i < |b| ensures b[i] in multiset(a) {
      assert b[i] in multiset(b);
    }
  }
}
