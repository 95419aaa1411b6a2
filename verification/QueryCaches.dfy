/** The archetype list each query keeps, and the version counter that tells when it is stale. */
module QueryCaches {
  import opened Prelude
  import opened Scopes

  /** A counter that stops at its maximum. */
  datatype SafeCounter = SafeCounter(val: nat, min: nat, max: nat) {
    function Increased(): SafeCounter {
      SafeCounter(Max(min, Min(val + 1, max)), min, max)
    }
  }

  /** The version a counter from 1 shows after so many archetypes were registered. */
  function VersionAfter(archetypes: nat): SafeCounter {
    SafeCounter(Min(1 + archetypes, USIZE_MAX - 1), 1, USIZE_MAX - 1)
  }

  /** The counter counts its calls until the maximum, where it stays. */
  lemma CountsUntilMaximum(archetypes: nat)
    ensures VersionAfter(archetypes).Increased() == VersionAfter(archetypes + 1)
    ensures VersionAfter(archetypes).val == VersionAfter(archetypes + 1).val <==> 1 + archetypes >= USIZE_MAX - 1
  {
  }

  /** The counter shows the same value for two archetype counts exactly when they are equal, or both at its end. */
  lemma VersionsAgreeIff(n: nat, k: nat)
    ensures VersionAfter(n).val == VersionAfter(k).val <==> n == k || !(Distinguishes(n) || Distinguishes(k))
  {
  }

  /** The counter still tells this many archetypes from more. */
  predicate Distinguishes(archetypes: nat) {
    1 + archetypes < USIZE_MAX - 1
  }

  /** The registry indices of the archetypes a scope selects, ascending. */
  function MatchIndices(archetypes: seq<set<nat>>, scope: Scope): seq<nat> {
    if archetypes == [] then []
    else
      var n := |archetypes| - 1;
      MatchIndices(archetypes[..n], scope) + if Matches(scope, archetypes[n]) then [n] else []
  }

  lemma {:induction false} MatchIndicesAreExact(archetypes: seq<set<nat>>, scope: Scope)
    ensures forall i :: i in MatchIndices(archetypes, scope) <==> 0 <= i < |archetypes| && Matches(scope, archetypes[i])
    ensures forall j, k :: 0 <= j < k < |MatchIndices(archetypes, scope)| ==> MatchIndices(archetypes, scope)[j] < MatchIndices(archetypes, scope)[k]
  {
    hide Matches;
    if archetypes != [] {
      var n := |archetypes| - 1;
      var front := MatchIndices(archetypes[..n], scope);
      MatchIndicesAreExact(archetypes[..n], scope);
      assert forall k :: 0 <= k < |front| ==> front[k] in front;
    }
  }

  /** A list built for the first `n` archetypes is still exact if and only if none added since is selected. */
  lemma {:induction false} StaleIff(archetypes: seq<set<nat>>, n: nat, scope: Scope)
    requires n <= |archetypes|
    ensures MatchIndices(archetypes[..n], scope) == MatchIndices(archetypes, scope)
       <==> forall a :: n <= a < |archetypes| ==> !Matches(scope, archetypes[a])
  {
    hide Matches, MatchIndices;
    MatchIndicesAreExact(archetypes, scope);
    MatchIndicesAreExact(archetypes[..n], scope);
    if forall a :: n <= a < |archetypes| ==> !Matches(scope, archetypes[a]) {
      NoneAdded(archetypes, n, scope);
    }
    forall a | n <= a < |archetypes| && Matches(scope, archetypes[a])
      ensures a in MatchIndices(archetypes, scope) && a !in MatchIndices(archetypes[..n], scope)
    {
    }
  }

  lemma {:induction false} NoneAdded(archetypes: seq<set<nat>>, n: nat, scope: Scope)
    requires n <= |archetypes| && forall a :: n <= a < |archetypes| ==> !Matches(scope, archetypes[a])
    ensures MatchIndices(archetypes[..n], scope) == MatchIndices(archetypes, scope)
  {
    hide Matches;
    if n == |archetypes| {
      assert archetypes[..n] == archetypes;
    } else {
      var last := |archetypes| - 1;
      NoneAdded(archetypes[..last], n, scope);
      assert archetypes[..last][..n] == archetypes[..n];
    }
  }

  method BuildArchetypeWhichContains(archetypes: seq<set<nat>>, scope: Scope) returns (dst: seq<nat>)
    ensures dst == MatchIndices(archetypes, scope)
  {
    hide Matches;
    dst := [];
    for i := 0 to |archetypes|
      invariant dst == MatchIndices(archetypes[..i], scope)
    {
      assert archetypes[..i + 1][..i] == archetypes[..i];
      if Matches(scope, archetypes[i]) {
        dst := dst + [i];
      }
    }
    assert archetypes[..|archetypes|] == archetypes;
  }

  datatype QuerySpec = QuerySpec(archetypes: seq<nat>, scope: Scope, version: nat)

  /**
    Each list is exact for the archetypes there were when it was built, `builtAt` many, and carries
    the version of that moment.
   */
  ghost predicate QueriesOk(archetypes: seq<set<nat>>, queries: map<nat, QuerySpec>, builtAt: map<nat, nat>) {
    && builtAt.Keys == queries.Keys
    && forall q :: q in queries ==>
         && builtAt[q] <= |archetypes|
         && queries[q].archetypes == MatchIndices(archetypes[..builtAt[q]], queries[q].scope)
         && queries[q].version == VersionAfter(builtAt[q]).val
  }

  /** One more archetype leaves every list what it was. */
  lemma QueriesSurvive(archetypes: seq<set<nat>>, more: seq<set<nat>>, queries: map<nat, QuerySpec>, builtAt: map<nat, nat>)
    requires QueriesOk(archetypes, queries, builtAt) && archetypes <= more
    ensures QueriesOk(more, queries, builtAt)
  {
    hide MatchIndices;
    forall q | q in queries
      ensures more[..builtAt[q]] == archetypes[..builtAt[q]]
    {
    }
  }

  /** A list built now is exact now. */
  lemma QueryBuilt(archetypes: seq<set<nat>>, queries: map<nat, QuerySpec>, builtAt: map<nat, nat>, q: nat, scope: Scope)
    requires QueriesOk(archetypes, queries, builtAt)
    ensures QueriesOk(archetypes, queries[q := QuerySpec(MatchIndices(archetypes, scope), scope, VersionAfter(|archetypes|).val)], builtAt[q := |archetypes|])
  {
    hide MatchIndices;
    assert archetypes[..|archetypes|] == archetypes;
  }

  /**
    A list that carries the current version, while the counter can tell: it was built for the
    archetypes there are. At the counter's end it is exact if and only if nothing it selects came since.
   */
  lemma CurrentIsExact(archetypes: seq<set<nat>>, queries: map<nat, QuerySpec>, builtAt: map<nat, nat>, q: nat)
    requires QueriesOk(archetypes, queries, builtAt) && q in queries
    ensures Distinguishes(|archetypes|) ==> (queries[q].version == VersionAfter(|archetypes|).val <==> builtAt[q] == |archetypes|)
    ensures queries[q].archetypes == MatchIndices(archetypes, queries[q].scope)
       <==> forall a :: builtAt[q] <= a < |archetypes| ==> !Matches(queries[q].scope, archetypes[a])
  {
    hide Matches, MatchIndices;
    VersionsAgreeIff(builtAt[q], |archetypes|);
    StaleIff(archetypes, builtAt[q], queries[q].scope);
  }

  /** Once the counter stands still a stale list passes for current: the condition on the archetypes added since is needed. */
  lemma SaturatedCounterServesStaleList(before: seq<set<nat>>, added: set<nat>, scope: Scope)
    requires !Distinguishes(|before|) && Matches(scope, added)
    ensures VersionAfter(|before|).val == VersionAfter(|before + [added]|).val
    ensures MatchIndices(before, scope) != MatchIndices(before + [added], scope)
  {
    hide Matches;
    assert (before + [added])[..|before|] == before;
  }
}
