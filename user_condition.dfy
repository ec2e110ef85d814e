/** The user predicate and the once-computed user name (internal/conditions/user.go). */
module UserCondition {
  import opened Wrappers

  /** What the predicate means: no conditions, or the user name is listed (exact comparison). */
  predicate UserSelected(userConditions: seq<string>, currentUser: string) {
    |userConditions| == 0 || currentUser in userConditions
  }

  /** MatchesUserCondition: the source's early-return scan over the list. */
  method MatchesUserCondition(userConditions: seq<string>, currentUser: string) returns (r: bool)
    ensures r <==> |userConditions| == 0 || exists i :: 0 <= i < |userConditions| && userConditions[i] == currentUser
    ensures r == UserSelected(userConditions, currentUser)
  {
    if |userConditions| == 0 {
      return true;
    }
    for i := 0 to |userConditions|
      invariant forall j :: 0 <= j < i ==> userConditions[j] != currentUser
    {
      if userConditions[i] == currentUser {
        return true;
      }
    }
    return false;
  }

  /**
   * A consequence of UserSelected for the failed lookup: the name is then
   * empty, so a non-empty list passes only when it holds "".
   */
  lemma FailedLookupMatchesOnlyEmptyName(userConditions: seq<string>)
    requires |userConditions| > 0
    ensures UserSelected(userConditions, "") <==> "" in userConditions
  {
  }

  /** The package-level variable getUserName fills once (sync.Once). */
  class UserNameCache {
    var cached: Option<string>

    constructor ()
      ensures cached == None
    {
      cached := None;
    }

    /**
     * getUserName: the first call stores the looked-up name ("" when user.Current
     * fails); every later call returns that value, whatever the lookup says then.
     */
    method GetUserName(lookup: Option<string>) returns (name: string)
      modifies this
      ensures old(cached).Some? ==> name == old(cached).value && cached == old(cached)
      ensures old(cached).None? ==> name == lookup.GetOr("") && cached == Some(name)
    {
      if cached.None? {
        cached := Some(lookup.GetOr(""));
      }
      name := cached.value;
    }
  }
}
