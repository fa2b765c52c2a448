/**
 * What the career and specialization recommendation services share: the
 * per-user cache of generated recommendations, valid for one hour, and
 * `getTestResults`, which picks the result of the user's latest evaluation of
 * a given test type. Timestamps are seconds (larger is later).
 */
module Recommendations {
  import opened Common
  import opened Entities
  import Ranking
  import Evaluations

  /** `LocalDateTime.now().plusHours(1)`: an entry lives for 3600 seconds. */
  const CacheTtlSeconds := 3600

  /** `CachedRecommendations`: the list served and the time it stops being served. */
  datatype CachedRecommendations<T> = CachedRecommendations(recommendations: seq<T>, expiresAt: int)

  /** `isExpired`: strictly after the expiry instant. */
  predicate IsExpired<T>(c: CachedRecommendations<T>, now: int) {
    now > c.expiresAt
  }

  /** `new CachedRecommendations(recommendations)` at time `now`: served up to and including one hour later. */
  function NewCacheEntry<T>(recommendations: seq<T>, now: int): (c: CachedRecommendations<T>)
    ensures c.recommendations == recommendations
    ensures forall t :: !IsExpired(c, t) <==> t <= now + CacheTtlSeconds
  {
    CachedRecommendations(recommendations, now + CacheTtlSeconds)
  }

  /** `cache.get(userId)` followed by the expiry test: the cached list, when there is a live one. */
  function CacheLookup<T>(cache: map<int, CachedRecommendations<T>>, userId: int, now: int): (r: Option<seq<T>>)
    ensures r.Some? <==> userId in cache && !IsExpired(cache[userId], now)
    ensures r.Some? ==> r.value == cache[userId].recommendations
  {
    if userId in cache && !IsExpired(cache[userId], now) then Some(cache[userId].recommendations) else None
  }

  /** A list just cached is served back for the next hour. */
  lemma StoredIsServed<T>(cache: map<int, CachedRecommendations<T>>, userId: int, recommendations: seq<T>,
                          now: int, later: int)
    requires now <= later <= now + CacheTtlSeconds
    ensures CacheLookup(cache[userId := NewCacheEntry(recommendations, now)], userId, later) == Some(recommendations)
  {
  }

  // ---------------------------------------------------------------- latest results

  /** The type name of the test an evaluation was made on. */
  function KindOf(e: CompletedEvaluation): string {
    e.test.testType.name
  }

  /** `filter(…).findFirst()`: the position of the first evaluation of type `kind`. */
  function FirstOfKind(es: seq<CompletedEvaluation>, kind: string): (r: Option<nat>)
    ensures r.None? <==> forall i :: 0 <= i < |es| ==> KindOf(es[i]) != kind
    ensures r.Some? ==> r.value < |es| && KindOf(es[r.value]) == kind
    ensures r.Some? ==> forall i :: 0 <= i < r.value ==> KindOf(es[i]) != kind
  {
    if es == [] then None
    else if KindOf(es[0]) == kind then Some(0)
    else
      match FirstOfKind(es[1..], kind)
      case None => None
      case Some(i) => Some(i + 1)
  }

  /** `findByUserIdOrderByCompletionDateDesc`: the user's evaluations, latest first. */
  function LatestFirst(evaluations: seq<CompletedEvaluation>, userId: int): seq<CompletedEvaluation> {
    Ranking.SortDesc(Evaluations.OwnedBy(evaluations, userId), Evaluations.CompletionDateOf)
  }

  /**
   * `getTestResults`: the stored result of the first evaluation of type `kind`
   * in a latest-first list; nothing (an empty map) when there is no such
   * evaluation, when it has no result, or when its result does not parse.
   */
  function TestResults(latestFirst: seq<CompletedEvaluation>, kind: string): (r: Option<ResultArtifact>)
    ensures r.Some? ==> exists i :: (0 <= i < |latestFirst| && KindOf(latestFirst[i]) == kind &&
                                     latestFirst[i].evaluationResult == Some(Stored(r.value)))
  {
    match FirstOfKind(latestFirst, kind)
    case None => None
    case Some(i) => Evaluations.AnalysisResult(latestFirst[i])
  }

  /**
   * The evaluation `getTestResults` reads is one of the user's evaluations of
   * that type, and none of the user's evaluations of that type is later; there
   * is none exactly when the user has no evaluation of that type.
   */
  lemma LatestOfKind(evaluations: seq<CompletedEvaluation>, userId: int, kind: string)
    ensures var es := LatestFirst(evaluations, userId);
      FirstOfKind(es, kind).None? <==>
        forall e :: e in evaluations && e.userId == userId ==> KindOf(e) != kind
    ensures var es := LatestFirst(evaluations, userId);
      FirstOfKind(es, kind).Some? ==>
        var chosen := es[FirstOfKind(es, kind).value];
        chosen in evaluations && chosen.userId == userId && KindOf(chosen) == kind &&
        forall e :: e in evaluations && e.userId == userId && KindOf(e) == kind ==>
          e.completionDate <= chosen.completionDate
  {
    var es := LatestFirst(evaluations, userId);
    LatestFirstMembers(evaluations, userId);
    match FirstOfKind(es, kind) {
      case None =>
      case Some(k) =>
        LatestOfKindIsLatest(es, kind, k);
    }
  }

  /** The latest-first list holds exactly the user's evaluations. */
  lemma LatestFirstMembers(evaluations: seq<CompletedEvaluation>, userId: int)
    ensures forall e :: e in LatestFirst(evaluations, userId) <==> e in evaluations && e.userId == userId
  {
    forall e {
      Ranking.SortDescMembers(Evaluations.OwnedBy(evaluations, userId), Evaluations.CompletionDateOf, e);
    }
  }

  /** In a latest-first list, the first evaluation of a type is a latest one of that type. */
  lemma LatestOfKindIsLatest(es: seq<CompletedEvaluation>, kind: string, k: nat)
    requires Ranking.SortedDesc(es, Evaluations.CompletionDateOf)
    requires FirstOfKind(es, kind) == Some(k)
    ensures forall e :: e in es && KindOf(e) == kind ==> e.completionDate <= es[k].completionDate
  {
    forall e | e in es && KindOf(e) == kind
      ensures e.completionDate <= es[k].completionDate
    {
      var j :| 0 <= j < |es| && es[j] == e;
      assert k <= j;
      if k < j {
        assert Evaluations.CompletionDateOf(es[k]) >= Evaluations.CompletionDateOf(es[j]);
      }
    }
  }

  /** The three results a recommendation is generated from; `None` is the empty map. */
  datatype ProfileResults = ProfileResults(
    personality: Option<ResultArtifact>,
    vocational: Option<ResultArtifact>,
    cognitive: Option<ResultArtifact>)

  /** The three `getTestResults` calls of a recommendation service. */
  function Profile(evaluations: seq<CompletedEvaluation>, userId: int): (r: ProfileResults)
    ensures r.personality == TestResults(LatestFirst(evaluations, userId), Evaluations.PersonalityKind)
    ensures r.vocational == TestResults(LatestFirst(evaluations, userId), Evaluations.VocationalKind)
    ensures r.cognitive == TestResults(LatestFirst(evaluations, userId), Evaluations.CognitiveKind)
  {
    var es := LatestFirst(evaluations, userId);
    ProfileResults(
      TestResults(es, Evaluations.PersonalityKind),
      TestResults(es, Evaluations.VocationalKind),
      TestResults(es, Evaluations.CognitiveKind))
  }

  /** All three results empty: "at least one evaluation" is missing. */
  predicate NoResults(p: ProfileResults) {
    p.personality.None? && p.vocational.None? && p.cognitive.None?
  }

  /**
   * A user without a single readable result of the three types gets no
   * recommendation; in particular a user who completed no evaluation.
   */
  lemma NoEvaluationsNoResults(evaluations: seq<CompletedEvaluation>, userId: int)
    requires forall e :: e in evaluations ==> e.userId != userId
    ensures NoResults(Profile(evaluations, userId))
  {
    assert Evaluations.OwnedBy(evaluations, userId) == [];
  }

  // ---------------------------------------------------------------- saving the oracle's picks

  /**
   * One entry of the ranking oracle's answer: the id of a catalog entry and its
   * compatibility percentage, in hundredths.
   */
  datatype Pick = Pick(targetId: int, compatibilityPercentage: int)

  /** `findById` over a catalog: the first entry with that id. */
  function FindById<C>(catalog: seq<C>, idOf: C -> int, id: int): (r: Option<C>)
    ensures r.None? <==> forall i :: 0 <= i < |catalog| ==> idOf(catalog[i]) != id
    ensures r.Some? ==> r.value in catalog && idOf(r.value) == id
  {
    if catalog == [] then None
    else if idOf(catalog[0]) == id then Some(catalog[0])
    else FindById(catalog[1..], idOf, id)
  }

  predicate Known<C>(catalog: seq<C>, idOf: C -> int, p: Pick) {
    FindById(catalog, idOf, p.targetId).Some?
  }

  /**
   * The save loop of the recommendation services: each pick, in the oracle's
   * order, with the catalog entry it names; the first pick naming no entry
   * aborts with `EntityNotFoundException(notFound + id)`.
   */
  function Matched<C>(picks: seq<Pick>, catalog: seq<C>, idOf: C -> int, notFound: string)
    : (r: Result<seq<(C, int)>>)
    ensures r.Ok? <==> forall i :: 0 <= i < |picks| ==> Known(catalog, idOf, picks[i])
    ensures r.Ok? ==> |r.value| == |picks|
    ensures r.Ok? ==> forall i :: 0 <= i < |picks| ==>
      r.value[i] == (FindById(catalog, idOf, picks[i].targetId).value, picks[i].compatibilityPercentage)
    ensures r.Err? ==> exists i :: (0 <= i < |picks| && FirstUnknown(picks, i, catalog, idOf) &&
                                    r.error == EntityNotFound(notFound + IntToString(picks[i].targetId)))
  {
    if picks == [] then Ok([])
    else
      var rest := picks[1..];
      assert forall i :: 0 <= i < |rest| ==> rest[i] == picks[i + 1];
      match FindById(catalog, idOf, picks[0].targetId)
      case None =>
        assert FirstUnknown(picks, 0, catalog, idOf);
        Err(EntityNotFound(notFound + IntToString(picks[0].targetId)))
      case Some(c) =>
        match Matched(rest, catalog, idOf, notFound)
        case Err(e) =>
          var i :| 0 <= i < |rest| && FirstUnknown(rest, i, catalog, idOf) &&
            e == EntityNotFound(notFound + IntToString(rest[i].targetId));
          assert FirstUnknown(picks, i + 1, catalog, idOf);
          Err(e)
        case Ok(found) => Ok([(c, picks[0].compatibilityPercentage)] + found)
  }

  /** Pick `i` is the first that names no catalog entry. */
  predicate FirstUnknown<C>(picks: seq<Pick>, i: int, catalog: seq<C>, idOf: C -> int)
    requires 0 <= i < |picks|
  {
    !Known(catalog, idOf, picks[i]) && forall j :: 0 <= j < i ==> Known(catalog, idOf, picks[j])
  }

  /** `found` followed by the outcome for the remaining picks. */
  function After<C>(found: seq<(C, int)>, rest: Result<seq<(C, int)>>): Result<seq<(C, int)>> {
    match rest
    case Err(e) => Err(e)
    case Ok(more) => Ok(found + more)
  }

  lemma AfterNothing<C>(rest: Result<seq<(C, int)>>)
    ensures After([], rest) == rest
  {
    if rest.Ok? {
      assert [] + rest.value == rest.value;
    }
  }

  lemma AfterAfter<C>(a: seq<(C, int)>, b: seq<(C, int)>, rest: Result<seq<(C, int)>>)
    ensures After(a, After(b, rest)) == After(a + b, rest)
  {
    if rest.Ok? {
      assert a + (b + rest.value) == (a + b) + rest.value;
    }
  }

  /** The loop itself: look each pick up, stop at the first unknown one. */
  method Match<C>(picks: seq<Pick>, catalog: seq<C>, idOf: C -> int, notFound: string)
    returns (r: Result<seq<(C, int)>>)
    ensures r == Matched(picks, catalog, idOf, notFound)
  {
    var found: seq<(C, int)> := [];
    assert picks[0..] == picks;
    AfterNothing(Matched(picks, catalog, idOf, notFound));
    for i := 0 to |picks|
      invariant Matched(picks, catalog, idOf, notFound) == After(found, Matched(picks[i..], catalog, idOf, notFound))
    {
      assert picks[i..][1..] == picks[i + 1..];
      var entry := FindById(catalog, idOf, picks[i].targetId);
      if entry.None? {
        return Err(EntityNotFound(notFound + IntToString(picks[i].targetId)));
      }
      AfterAfter(found, [(entry.value, picks[i].compatibilityPercentage)],
        Matched(picks[i + 1..], catalog, idOf, notFound));
      found := found + [(entry.value, picks[i].compatibilityPercentage)];
    }
    assert picks[|picks|..] == [];
    assert found + [] == found;
    return Ok(found);
  }
}
