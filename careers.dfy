/**
 * `CareerServiceImpl`: career recommendations and the career catalog.
 *
 * `getRecommendedCareers` answers, in order of preference: the user's cached
 * list if it is less than an hour old; the user's saved recommendation rows,
 * best first (saved rows never expire); or a new list from the ranking oracle,
 * whose picks are saved as rows in the oracle's order. Whatever it answers
 * from the store or the oracle is cached for the next hour.
 */
module Careers {
  import opened Common
  import opened Entities
  import Ranking
  import Recommendations
  import CareerMapper
  import AdminMapper

  /** `GroqService.CareerInfo`: what the ranking oracle is told about each career. */
  datatype CareerInfo = CareerInfo(
    id: int,
    name: string,
    description: Option<string>,
    durationSemesters: Option<int>,
    averageSalary: Option<int>)

  function InfoOf(c: Career): (r: CareerInfo)
    ensures r.id == c.id && r.name == c.name && r.description == c.description
    ensures r.durationSemesters == c.durationSemesters && r.averageSalary == c.averageSalary
  {
    CareerInfo(c.id, c.name, c.description, c.durationSemesters, c.averageSalary)
  }

  function Infos(careers: seq<Career>): (r: seq<CareerInfo>)
    ensures |r| == |careers| && forall i :: 0 <= i < |careers| ==> r[i] == InfoOf(careers[i])
  {
    seq(|careers|, i requires 0 <= i < |careers| => InfoOf(careers[i]))
  }

  /**
   * The ranking oracle (`GroqService.generateCareerRecommendations`): given
   * the three latest results and the catalog, its picks, or `None` when the
   * call throws.
   */
  type Ranker = (Recommendations.ProfileResults, seq<CareerInfo>) -> Option<seq<Recommendations.Pick>>

  type Response = CareerMapper.CareerRecommendationResponse

  const UserNotFound := "User not found"
  const NoEvaluations := "User must complete at least one evaluation to get recommendations"
  const NoCareers := "No careers available in the system"
  const GenerationFailed := "Failed to generate career recommendations"
  const CareerNotFoundPrefix := "Career not found: "
  const PageArguments := "Page must be >= 0 and pageSize must be > 0"
  const NoCareersListed := "No hay carreras disponibles en el sistema"

  function CareerId(c: Career): int {
    c.id
  }

  function Compatibility(row: CareerRecommendation): int {
    row.compatibilityPercentage
  }

  // ---------------------------------------------------------------- saved rows

  /** The user's recommendation rows, in table order. */
  function RowsOf(rows: seq<CareerRecommendation>, userId: int): (r: seq<CareerRecommendation>)
    ensures |r| <= |rows|
  {
    if rows == [] then []
    else
      var n := |rows| - 1;
      var rest := RowsOf(rows[..n], userId);
      if rows[n].userId == userId then rest + [rows[n]] else rest
  }

  /** The filter keeps exactly the user's rows. */
  lemma {:induction false} RowsOfMembers(rows: seq<CareerRecommendation>, userId: int)
    ensures forall x :: x in RowsOf(rows, userId) <==> x in rows && x.userId == userId
  {
    if rows != [] {
      var n := |rows| - 1;
      RowsOfMembers(rows[..n], userId);
      assert rows == rows[..n] + [rows[n]];
    }
  }

  lemma {:induction false} RowsOfAppend(a: seq<CareerRecommendation>, b: seq<CareerRecommendation>, userId: int)
    ensures RowsOf(a + b, userId) == RowsOf(a, userId) + RowsOf(b, userId)
    decreases |b|
  {
    if b == [] {
      assert a + b == a;
    } else {
      var n := |b| - 1;
      var ab := a + b;
      RowsOfAppend(a, b[..n], userId);
      assert ab[..|ab| - 1] == a + b[..n];
      assert ab[|ab| - 1] == b[n];
      if b[n].userId == userId {
        calc {
          RowsOf(ab, userId);
          RowsOf(a + b[..n], userId) + [b[n]];
          (RowsOf(a, userId) + RowsOf(b[..n], userId)) + [b[n]];
          RowsOf(a, userId) + (RowsOf(b[..n], userId) + [b[n]]);
        }
      }
    }
  }

  /** `findByUserIdOrderByCompatibilityPercentageDesc`: the user's rows, best first. */
  function Persisted(rows: seq<CareerRecommendation>, userId: int): (r: seq<CareerRecommendation>)
    ensures multiset(r) == multiset(RowsOf(rows, userId))
    ensures Ranking.SortedDesc(r, Compatibility)
  {
    Ranking.SortDesc(RowsOf(rows, userId), Compatibility)
  }

  /** The rows the save loop creates for the matched picks, numbered from `firstId`. */
  function NewRows(found: seq<(Career, int)>, userId: int, firstId: int): (r: seq<CareerRecommendation>)
    ensures |r| == |found|
    ensures forall i :: 0 <= i < |found| ==>
      r[i] == CareerRecommendation(firstId + i, userId, found[i].0, found[i].1)
  {
    seq(|found|, i requires 0 <= i < |found| => CareerRecommendation(firstId + i, userId, found[i].0, found[i].1))
  }

  /**
   * The generation branch of `getRecommendedCareers`, as the rows it saves:
   * it needs at least one result, a non-empty catalog, an oracle answer, and
   * a catalog entry for every pick.
   */
  function Generated(rows: seq<CareerRecommendation>, careers: seq<Career>, rank: Ranker,
                     evaluations: seq<CompletedEvaluation>, userId: int): (r: Result<seq<CareerRecommendation>>)
    ensures r.Ok? ==> forall i :: 0 <= i < |r.value| ==> r.value[i].id == |rows| + 1 + i && r.value[i].userId == userId
  {
    var profile := Recommendations.Profile(evaluations, userId);
    if Recommendations.NoResults(profile) then Err(IllegalState(NoEvaluations))
    else if careers == [] then Err(IllegalState(NoCareers))
    else match rank(profile, Infos(careers))
      case None => Err(Runtime(GenerationFailed))
      case Some(picks) =>
        match Recommendations.Matched(picks, careers, CareerId, CareerNotFoundPrefix)
        case Err(e) => Err(e)
        case Ok(found) => Ok(NewRows(found, userId, |rows| + 1))
  }

  /** The generation steps of `getRecommendedCareers`: the checks, the oracle, the catalog loop. */
  method Generate(rows: seq<CareerRecommendation>, careers: seq<Career>, rank: Ranker,
                  evaluations: seq<CompletedEvaluation>, userId: int)
    returns (r: Result<seq<CareerRecommendation>>)
    ensures r == Generated(rows, careers, rank, evaluations, userId)
  {
    var profile := Recommendations.Profile(evaluations, userId);
    if Recommendations.NoResults(profile) {
      return Err(IllegalState(NoEvaluations));
    }
    if careers == [] {
      return Err(IllegalState(NoCareers));
    }
    var picks := rank(profile, Infos(careers));
    if picks.None? {
      return Err(Runtime(GenerationFailed));
    }
    var found := Recommendations.Match(picks.value, careers, CareerId, CareerNotFoundPrefix);
    if found.Err? {
      return Err(found.error);
    }
    return Ok(NewRows(found.value, userId, |rows| + 1));
  }

  /**
   * Generation fails exactly on the documented conditions; when it succeeds
   * the saved rows are the oracle's picks one-to-one and in order, each for
   * this user and the career the pick names, numbered after the existing rows.
   */
  lemma GeneratedSpec(rows: seq<CareerRecommendation>, careers: seq<Career>, rank: Ranker,
                      evaluations: seq<CompletedEvaluation>, userId: int)
    ensures var profile := Recommendations.Profile(evaluations, userId);
      Generated(rows, careers, rank, evaluations, userId).Ok? <==>
        !Recommendations.NoResults(profile) && careers != [] && rank(profile, Infos(careers)).Some? &&
        forall i :: 0 <= i < |rank(profile, Infos(careers)).value| ==>
          Recommendations.Known(careers, CareerId, rank(profile, Infos(careers)).value[i])
    ensures var profile := Recommendations.Profile(evaluations, userId);
      var g := Generated(rows, careers, rank, evaluations, userId);
      g.Ok? ==>
        var picks := rank(profile, Infos(careers)).value;
        |g.value| == |picks| &&
        forall i :: 0 <= i < |picks| ==>
          g.value[i].id == |rows| + 1 + i && g.value[i].userId == userId &&
          g.value[i].career in careers && g.value[i].career.id == picks[i].targetId &&
          g.value[i].compatibilityPercentage == picks[i].compatibilityPercentage
  {
  }

  /**
   * After a generation that saved rows, the user's saved rows are exactly the
   * new ones, best first: the next uncached call serves them without calling
   * the oracle again.
   */
  lemma GeneratedThenPersisted(rows: seq<CareerRecommendation>, userId: int, generated: seq<CareerRecommendation>)
    requires Persisted(rows, userId) == []
    requires forall x :: x in generated ==> x.userId == userId
    ensures multiset(Persisted(rows + generated, userId)) == multiset(generated)
    ensures Ranking.SortedDesc(Persisted(rows + generated, userId), Compatibility)
  {
    RowsOfAppend(rows, generated, userId);
    assert RowsOf(rows, userId) == [] by {
      assert |RowsOf(rows, userId)| == |Persisted(rows, userId)| by {
        assert |multiset(RowsOf(rows, userId))| == |multiset(Persisted(rows, userId))|;
      }
    }
    assert RowsOf(generated, userId) == generated by {
      RowsOfAll(generated, userId);
    }
  }

  /** Filtering rows that all belong to the user keeps them all. */
  lemma {:induction false} RowsOfAll(rows: seq<CareerRecommendation>, userId: int)
    requires forall x :: x in rows ==> x.userId == userId
    ensures RowsOf(rows, userId) == rows
  {
    if rows != [] {
      var n := |rows| - 1;
      assert rows[n] in rows;
      RowsOfAll(rows[..n], userId);
      assert rows == rows[..n] + [rows[n]];
    }
  }

  // ---------------------------------------------------------------- catalog order

  /** `Sort.by("name").ascending()`, as code-point lexicographic order. */
  predicate NameLeq(a: string, b: string)
    decreases |a|
  {
    a == [] || (b != [] && (a[0] < b[0] || (a[0] == b[0] && NameLeq(a[1..], b[1..]))))
  }

  lemma {:induction false} NameLeqTotal(a: string, b: string)
    ensures NameLeq(a, b) || NameLeq(b, a)
    decreases |a|
  {
    if a != [] && b != [] && a[0] == b[0] {
      NameLeqTotal(a[1..], b[1..]);
    }
  }

  /** Names never decrease from one career to the next. */
  predicate SortedByName(s: seq<Career>) {
    forall i :: 0 <= i < |s| - 1 ==> NameLeq(s[i].name, s[i + 1].name)
  }

  /** Insert `c` before the first career whose name it does not exceed. */
  function InsertByName(c: Career, s: seq<Career>): (r: seq<Career>)
    ensures |r| == |s| + 1 && multiset(r) == multiset(s) + multiset{c}
    ensures r[0] == c || (s != [] && r[0] == s[0])
  {
    if s == [] then [c]
    else if NameLeq(c.name, s[0].name) then [c] + s
    else
      assert s == [s[0]] + s[1..];
      [s[0]] + InsertByName(c, s[1..])
  }

  lemma {:induction false} InsertByNameSorted(c: Career, s: seq<Career>)
    requires SortedByName(s)
    ensures SortedByName(InsertByName(c, s))
  {
    if s != [] && !NameLeq(c.name, s[0].name) {
      var rest := s[1..];
      assert SortedByName(rest) by {
        forall i | 0 <= i < |rest| - 1 ensures NameLeq(rest[i].name, rest[i + 1].name) {
          assert rest[i] == s[i + 1] && rest[i + 1] == s[i + 2];
        }
      }
      InsertByNameSorted(c, rest);
      NameLeqTotal(c.name, s[0].name);
      var r := InsertByName(c, s);
      var tail := InsertByName(c, rest);
      assert r == [s[0]] + tail;
      forall i | 0 <= i < |r| - 1 ensures NameLeq(r[i].name, r[i + 1].name) {
        if i > 0 {
          assert r[i] == tail[i - 1] && r[i + 1] == tail[i];
        } else if tail[0] != c {
          assert tail[0] == s[1];
        }
      }
    }
  }

  /** The catalog in name order: a permutation of it whose names never decrease. */
  function SortByName(s: seq<Career>): (r: seq<Career>)
    ensures |r| == |s| && multiset(r) == multiset(s)
    ensures SortedByName(r)
  {
    if s == [] then []
    else
      var rest := SortByName(s[1..]);
      InsertByNameSorted(s[0], rest);
      assert s == [s[0]] + s[1..];
      InsertByName(s[0], rest)
  }

  // ---------------------------------------------------------------- the service

  class CareerService {
    /** The career catalog, in `findAll` order. */
    var careers: seq<Career>
    /** The `career_recommendations` table. */
    var recommendations: seq<CareerRecommendation>
    /** The per-user cache of served lists. */
    var cache: map<int, Recommendations.CachedRecommendations<Response>>
    const rank: Ranker

    /** Saved rows are numbered by position. */
    ghost predicate Valid()
      reads this
    {
      forall i :: 0 <= i < |recommendations| ==> recommendations[i].id == i + 1
    }

    constructor(careers: seq<Career>, rank: Ranker)
      ensures Valid()
      ensures this.careers == careers && this.rank == rank && recommendations == [] && cache == map[]
    {
      this.careers := careers;
      this.rank := rank;
      recommendations := [];
      cache := map[];
    }

    /**
     * `getRecommendedCareers` at time `now`, for a user whom the user
     * directory does or does not know, over the completed evaluations.
     */
    method GetRecommendedCareers(userId: int, userExists: bool, evaluations: seq<CompletedEvaluation>, now: int)
      returns (r: Result<seq<Response>>)
      requires Valid()
      modifies this
      ensures Valid() && careers == old(careers)
      ensures !userExists ==>
        r == Err(IllegalArgument(UserNotFound)) && recommendations == old(recommendations) && cache == old(cache)
      ensures userExists && Recommendations.CacheLookup(old(cache), userId, now).Some? ==>
        r == Ok(Recommendations.CacheLookup(old(cache), userId, now).value) &&
        recommendations == old(recommendations) && cache == old(cache)
      ensures userExists && Recommendations.CacheLookup(old(cache), userId, now).None? &&
              Persisted(old(recommendations), userId) != [] ==>
        r == Ok(CareerMapper.RecommendationResponses(Persisted(old(recommendations), userId))) &&
        recommendations == old(recommendations)
      ensures userExists && Recommendations.CacheLookup(old(cache), userId, now).None? &&
              Persisted(old(recommendations), userId) == [] ==>
        var g := Generated(old(recommendations), careers, rank, evaluations, userId);
        (g.Err? ==> r == Err(g.error) && recommendations == old(recommendations) && cache == old(cache)) &&
        (g.Ok? ==> r == Ok(CareerMapper.RecommendationResponses(g.value)) &&
                   recommendations == old(recommendations) + g.value)
      ensures r.Ok? && Recommendations.CacheLookup(old(cache), userId, now).None? ==>
        cache == old(cache)[userId := Recommendations.NewCacheEntry(r.value, now)]
      ensures r.Ok? ==> Recommendations.CacheLookup(cache, userId, now) == Some(r.value)
    {
      if !userExists {
        return Err(IllegalArgument(UserNotFound));
      }
      var cached := Recommendations.CacheLookup(cache, userId, now);
      if cached.Some? {
        return Ok(cached.value);
      }
      var existing := Persisted(recommendations, userId);
      if existing != [] {
        var responses := CareerMapper.RecommendationResponses(existing);
        cache := cache[userId := Recommendations.NewCacheEntry(responses, now)];
        return Ok(responses);
      }
      var generated := Generate(recommendations, careers, rank, evaluations, userId);
      if generated.Err? {
        return Err(generated.error);
      }
      var saved := generated.value;
      recommendations := recommendations + saved;
      var responses := CareerMapper.RecommendationResponses(saved);
      cache := cache[userId := Recommendations.NewCacheEntry(responses, now)];
      return Ok(responses);
    }

    /**
     * `getAllCareers`: page `page` of the catalog in name order, as responses.
     * Bad paging arguments are refused; an empty first page (an empty catalog)
     * is an error, while an empty later page is an empty list.
     */
    function GetAllCareers(page: int, pageSize: int): (r: Result<seq<AdminMapper.CareerResponse>>)
      reads this
      ensures page < 0 || pageSize <= 0 ==> r == Err(IllegalArgument(PageArguments))
      ensures page == 0 && pageSize > 0 && careers == [] ==> r == Err(IllegalArgument(NoCareersListed))
      ensures r.Err? <==> page < 0 || pageSize <= 0 || (page == 0 && careers == [])
      ensures r.Ok? ==>
        var content := Page(SortByName(careers), page, pageSize);
        |r.value| == |content| &&
        forall i :: 0 <= i < |content| ==> r.value[i] == AdminMapper.CareerResponseOf(content[i])
    {
      if page < 0 || pageSize <= 0 then Err(IllegalArgument(PageArguments))
      else
        var content := Page(SortByName(careers), page, pageSize);
        if content == [] && page == 0 then Err(IllegalArgument(NoCareersListed))
        else Ok(seq(|content|, i requires 0 <= i < |content| => AdminMapper.CareerResponseOf(content[i])))
    }

    /** `getCareerDetails`: the career's columns with what the social-media lookup says about its name. */
    function GetCareerDetails<D>(careerId: int, socialMediaData: string -> D)
      : (r: Result<CareerMapper.CareerDetailResponse<D>>)
      reads this
      ensures r.Err? <==> forall i :: 0 <= i < |careers| ==> careers[i].id != careerId
      ensures r.Err? ==> r.error == EntityNotFound("Career not found")
      ensures r.Ok? ==> exists c :: (c in careers && c.id == careerId && r.value.name == c.name &&
                                     r.value.id == careerId && r.value.socialMediaData == socialMediaData(c.name))
    {
      match Recommendations.FindById(careers, CareerId, careerId)
      case None => Err(EntityNotFound("Career not found"))
      case Some(c) => Ok(CareerMapper.ToDetailResponse(Some(c), socialMediaData(c.name)).value)
    }
  }

  /**
   * Every career of the catalog is listed once paging goes far enough: the
   * `j`-th career in name order is entry `j % size` of page `j / size`.
   */
  lemma CatalogPaged(careers: seq<Career>, size: nat, c: Career)
    requires size > 0 && c in careers
    ensures exists p: nat, k: nat :: (k < |Page(SortByName(careers), p, size)| &&
                                      Page(SortByName(careers), p, size)[k] == c)
  {
    var sorted := SortByName(careers);
    assert c in multiset(careers);
    assert c in sorted by {
      assert c in multiset(sorted);
    }
    var j :| 0 <= j < |sorted| && sorted[j] == c;
    OnSomePage(sorted, size, j);
  }
}
