/**
 * `SpecializationServiceImpl`: specialization recommendations, which follow
 * the same cache / saved rows / oracle order as career recommendations, and
 * the specialization-area catalog (list, lookup, create, update).
 *
 * Here the oracle answers with a JSON text, which the service reads itself:
 * `{"recommendations": [{"specializationId": …, "compatibilityPercentage": …,
 * "reason": …}, …]}`. Any failure while asking or reading ends the generation
 * with one `RuntimeException`.
 */
module Specializations {
  import opened Common
  import opened Entities
  import Ranking
  import Decimal
  import Recommendations
  import SpecializationMapper
  import AdminMapper

  /** `SpecializationInfo`: what the oracle is told about each area. */
  datatype SpecializationInfo = SpecializationInfo(
    id: int,
    name: string,
    description: Option<string>,
    applicationFields: Option<string>,
    jobProjection: Option<string>,
    careerName: string)

  /**
   * The info of an area; the `"General"` career name of the source is for an
   * area without a career, which `career_id NOT NULL` rules out.
   */
  function InfoOf(a: SpecializationArea): (r: SpecializationInfo)
    ensures r.id == a.id && r.name == a.name && r.description == a.description
    ensures r.applicationFields == a.applicationFields && r.jobProjection == a.jobProjection
    ensures r.careerName == a.career.name
  {
    SpecializationInfo(a.id, a.name, a.description, a.applicationFields, a.jobProjection, a.career.name)
  }

  function Infos(areas: seq<SpecializationArea>): (r: seq<SpecializationInfo>)
    ensures |r| == |areas| && forall i :: 0 <= i < |areas| ==> r[i] == InfoOf(areas[i])
  {
    seq(|areas|, i requires 0 <= i < |areas| => InfoOf(areas[i]))
  }

  /** `SkillsDTO`, as the user directory answers it; its map may itself be `null`. */
  datatype SkillsDto = SkillsDto(skills: Option<map<string, int>>)

  /**
   * What `getUserSkills` does with the directory's answer: a body, `null`
   * included, is returned; a 4xx is a client error; a 5xx and a directory
   * that cannot be reached are thrown on unchanged.
   */
  datatype SkillsCall =
    | SkillsAnswered(body: Option<SkillsDto>)
    | SkillsClientError(statusCode: int)
    | SkillsServerError(statusCode: int, responseBody: string)
    | SkillsUnreachable(reason: string, causeName: string, timedOut: bool)

  /**
   * `getUserSkills`: the body it returns, or what it throws. A 404 becomes
   * "User not found", any other client error "Error communicating with
   * UsersAPI", and the other failures pass through as they are.
   */
  function GetUserSkills(call: SkillsCall): (r: Result<Option<SkillsDto>>)
    ensures r.Ok? <==> call.SkillsAnswered?
    ensures r.Ok? ==> r.value == call.body
    ensures call.SkillsClientError? ==>
      r == Err(if call.statusCode == 404 then IllegalArgument(UserNotFound) else Runtime(UsersApiFailed))
    ensures call.SkillsServerError? ==> r == Err(UpstreamServerError(call.statusCode, call.responseBody))
    ensures call.SkillsUnreachable? ==> r == Err(UpstreamUnreachable(call.reason, call.causeName, call.timedOut))
  {
    match call
    case SkillsAnswered(body) => Ok(body)
    case SkillsClientError(code) => Err(if code == 404 then IllegalArgument(UserNotFound) else Runtime(UsersApiFailed))
    case SkillsServerError(code, body) => Err(UpstreamServerError(code, body))
    case SkillsUnreachable(m, name, timedOut) => Err(UpstreamUnreachable(m, name, timedOut))
  }

  /** `userSkillsDTO != null ? userSkillsDTO.getSkills() : new HashMap<>()`. */
  function UserSkills(dto: Option<SkillsDto>): (r: Option<map<string, int>>)
    ensures dto.None? ==> r == Some(map[])
    ensures dto.Some? ==> r == dto.value.skills
  {
    if dto.None? then Some(map[]) else dto.value.skills
  }

  // ---------------------------------------------------------------- the oracle's answer

  /** `SpecializationRecommendationResult`: one parsed entry of the answer. */
  datatype Parsed = Parsed(specializationId: int, compatibilityPercentage: int, reason: Option<string>)

  /**
   * One element of `recommendations`, read as the loop reads it:
   * `((Number) v).intValue()` truncates toward zero, `doubleValue()` keeps the
   * number, `(String)` accepts a string or `null`. A `null` element, a missing
   * number or a value of another JSON type throws (`None`).
   */
  function ParseItem(v: Json): (r: Option<Parsed>)
    ensures r.Some? <==>
      v.JObject? && Member(v.members, "specializationId").JNumber? &&
      Member(v.members, "compatibilityPercentage").JNumber? &&
      (Member(v.members, "reason").JNull? || Member(v.members, "reason").JString?)
    ensures r.Some? ==>
      r.value.specializationId == Decimal.JavaDiv(Member(v.members, "specializationId").hundredths, 100) &&
      r.value.compatibilityPercentage == Member(v.members, "compatibilityPercentage").hundredths &&
      (r.value.reason.Some? <==> Member(v.members, "reason").JString?) &&
      (r.value.reason.Some? ==> r.value.reason.value == Member(v.members, "reason").text)
  {
    if !v.JObject? then None
    else
      var id := Member(v.members, "specializationId");
      var percentage := Member(v.members, "compatibilityPercentage");
      var reason := Member(v.members, "reason");
      if !id.JNumber? || !percentage.JNumber? then None
      else if reason.JNull? then Some(Parsed(Decimal.JavaDiv(id.hundredths, 100), percentage.hundredths, None))
      else if reason.JString? then
        Some(Parsed(Decimal.JavaDiv(id.hundredths, 100), percentage.hundredths, Some(reason.text)))
      else None
  }

  /** Every element parsed, in order; nothing when any element fails. */
  function ParseAll(items: seq<Json>): (r: Option<seq<Parsed>>)
    ensures r.Some? <==> forall i :: 0 <= i < |items| ==> ParseItem(items[i]).Some?
    ensures r.Some? ==> |r.value| == |items|
    ensures r.Some? ==> forall i :: 0 <= i < |items| ==> r.value[i] == ParseItem(items[i]).value
  {
    if forall i :: 0 <= i < |items| ==> ParseItem(items[i]).Some? then
      Some(seq(|items|, i requires 0 <= i < |items| => ParseItem(items[i]).value))
    else None
  }

  /** The parse loop of `generateSpecializationRecommendations`, one entry appended per element. */
  method ParseRecommendations(items: seq<Json>) returns (r: Option<seq<Parsed>>)
    ensures r == ParseAll(items)
  {
    var result: seq<Parsed> := [];
    for i := 0 to |items|
      invariant |result| == i
      invariant forall j :: 0 <= j < i ==> ParseItem(items[j]).Some? && result[j] == ParseItem(items[j]).value
    {
      var entry := ParseItem(items[i]);
      if entry.None? {
        assert !ParseItem(items[i]).Some?;
        return None;
      }
      result := result + [entry.value];
    }
    assert ParseAll(items).Some?;
    assert result == ParseAll(items).value;
    return Some(result);
  }

  /**
   * What `generateSpecializationRecommendations` makes of the oracle's answer
   * (`None`: the call failed or the text is not JSON): the `recommendations`
   * list of a JSON object, parsed; anything else fails.
   */
  function ReadAnswer(answer: Option<Json>): (r: Option<seq<Parsed>>)
    ensures r.Some? ==> answer.Some? && answer.value.JObject? && Member(answer.value.members, "recommendations").JList?
    ensures r.Some? ==> r == ParseAll(Member(answer.value.members, "recommendations").items)
  {
    if answer.None? || !answer.value.JObject? then None
    else match Member(answer.value.members, "recommendations")
      case JList(items) => ParseAll(items)
      case _ => None
  }

  /** The reading steps of `generateSpecializationRecommendations`, with the parse loop. */
  method ReadRecommendations(answer: Option<Json>) returns (r: Option<seq<Parsed>>)
    ensures r == ReadAnswer(answer)
  {
    if answer.None? || !answer.value.JObject? || !Member(answer.value.members, "recommendations").JList? {
      return None;
    }
    r := ParseRecommendations(Member(answer.value.members, "recommendations").items);
  }

  function ToPick(p: Parsed): Recommendations.Pick {
    Recommendations.Pick(p.specializationId, p.compatibilityPercentage)
  }

  function ToPicks(ps: seq<Parsed>): (r: seq<Recommendations.Pick>)
    ensures |r| == |ps| && forall i :: 0 <= i < |ps| ==> r[i] == ToPick(ps[i])
  {
    seq(|ps|, i requires 0 <= i < |ps| => ToPick(ps[i]))
  }

  /**
   * The specialization oracle (`GroqService.callGroqAPI` on the prompt built
   * from these arguments): its answer read as JSON, or `None` when the call
   * throws or the text does not parse.
   */
  type Asker = (Recommendations.ProfileResults, map<string, int>, seq<SpecializationInfo>) -> Option<Json>

  type Response = SpecializationMapper.SpecializationRecommendationResponse

  const UserNotFound := "User not found"
  const NoEvaluations := "User must complete at least one evaluation to get recommendations"
  const NoAreas := "No specialization areas available in the system"
  const UsersApiFailed := "Error communicating with UsersAPI"
  const GenerationFailed := "Failed to generate specialization recommendations"
  const AreaNotFoundPrefix := "Specialization not found: "
  const NoAreasListed := "No hay especializaciones disponibles en el sistema"
  const DetailsNotFound := "Specialization area not found"
  const ByIdNotFound := "The requested specialization area has not been found"
  const CareerNotFound := "The entered career has not been found"
  const UpdateNotFound := "The specialization area to update has not been found"

  function AreaId(a: SpecializationArea): int {
    a.id
  }

  function CareerId(c: Career): int {
    c.id
  }

  function Compatibility(row: SpecializationRecommendation): int {
    row.compatibilityPercentage
  }

  // ---------------------------------------------------------------- saved rows

  /** The user's recommendation rows, in table order. */
  function RowsOf(rows: seq<SpecializationRecommendation>, userId: int): (r: seq<SpecializationRecommendation>)
    ensures |r| <= |rows|
  {
    if rows == [] then []
    else
      var n := |rows| - 1;
      var rest := RowsOf(rows[..n], userId);
      if rows[n].userId == userId then rest + [rows[n]] else rest
  }

  /** The filter keeps exactly the user's rows. */
  lemma {:induction false} RowsOfMembers(rows: seq<SpecializationRecommendation>, userId: int)
    ensures forall x :: x in RowsOf(rows, userId) <==> x in rows && x.userId == userId
  {
    if rows != [] {
      var n := |rows| - 1;
      RowsOfMembers(rows[..n], userId);
      assert rows == rows[..n] + [rows[n]];
    }
  }

  /** Filtering distributes over appending rows. */
  lemma {:induction false} RowsOfAppend(a: seq<SpecializationRecommendation>, b: seq<SpecializationRecommendation>,
                                        userId: int)
    ensures RowsOf(a + b, userId) == RowsOf(a, userId) + RowsOf(b, userId)
    decreases |b|
  {
    if b == [] {
      assert a + b == a;
    } else {
      var n := |b| - 1;
      var ab := a + b;
      RowsOfAppend(a, b[..n], userId);
      assert ab[..|ab| - 1] == a + b[..n];
      assert ab[|ab| - 1] == b[n];
      if b[n].userId == userId {
        calc {
          RowsOf(ab, userId);
          RowsOf(a + b[..n], userId) + [b[n]];
          (RowsOf(a, userId) + RowsOf(b[..n], userId)) + [b[n]];
          RowsOf(a, userId) + (RowsOf(b[..n], userId) + [b[n]]);
        }
      }
    }
  }

  /** Filtering rows that all belong to the user keeps them all. */
  lemma {:induction false} RowsOfAll(rows: seq<SpecializationRecommendation>, userId: int)
    requires forall x :: x in rows ==> x.userId == userId
    ensures RowsOf(rows, userId) == rows
  {
    if rows != [] {
      var n := |rows| - 1;
      assert rows[n] in rows;
      RowsOfAll(rows[..n], userId);
      assert rows == rows[..n] + [rows[n]];
    }
  }

  /** `findByUserIdOrderByCompatibilityPercentageDesc`: the user's rows, best first. */
  function Persisted(rows: seq<SpecializationRecommendation>, userId: int): (r: seq<SpecializationRecommendation>)
    ensures multiset(r) == multiset(RowsOf(rows, userId))
    ensures Ranking.SortedDesc(r, Compatibility)
  {
    Ranking.SortDesc(RowsOf(rows, userId), Compatibility)
  }

  function NewRows(found: seq<(SpecializationArea, int)>, userId: int, firstId: int)
    : (r: seq<SpecializationRecommendation>)
    ensures |r| == |found|
    ensures forall i :: 0 <= i < |found| ==>
      r[i] == SpecializationRecommendation(firstId + i, userId, found[i].0, found[i].1)
  {
    seq(|found|, i requires 0 <= i < |found| =>
      SpecializationRecommendation(firstId + i, userId, found[i].0, found[i].1))
  }

  /**
   * The generation branch of `getRecommendedSpecializations`, as the rows it
   * saves. The checks come in the source's order: results, then the skills
   * call, then the catalog, then the oracle (a `null` skill map fails while
   * the prompt is built, so it fails like the oracle), then one catalog entry
   * per pick.
   */
  function Generated(rows: seq<SpecializationRecommendation>, areas: seq<SpecializationArea>, ask: Asker,
                     evaluations: seq<CompletedEvaluation>, userId: int, skillsCall: SkillsCall)
    : (r: Result<seq<SpecializationRecommendation>>)
    ensures r.Ok? ==> forall i :: 0 <= i < |r.value| ==> r.value[i].id == |rows| + 1 + i && r.value[i].userId == userId
  {
    var profile := Recommendations.Profile(evaluations, userId);
    if Recommendations.NoResults(profile) then Err(IllegalState(NoEvaluations))
    else match GetUserSkills(skillsCall)
      case Err(e) => Err(e)
      case Ok(dto) =>
        if areas == [] then Err(IllegalState(NoAreas))
        else if UserSkills(dto).None? then Err(Runtime(GenerationFailed))
        else match ReadAnswer(ask(profile, UserSkills(dto).value, Infos(areas)))
          case None => Err(Runtime(GenerationFailed))
          case Some(parsed) =>
            match Recommendations.Matched(ToPicks(parsed), areas, AreaId, AreaNotFoundPrefix)
            case Err(e) => Err(e)
            case Ok(found) => Ok(NewRows(found, userId, |rows| + 1))
  }

  /** The generation steps of `getRecommendedSpecializations`: the checks, the oracle, the catalog loop. */
  method Generate(rows: seq<SpecializationRecommendation>, areas: seq<SpecializationArea>, ask: Asker,
                  evaluations: seq<CompletedEvaluation>, userId: int, skillsCall: SkillsCall)
    returns (r: Result<seq<SpecializationRecommendation>>)
    ensures r == Generated(rows, areas, ask, evaluations, userId, skillsCall)
  {
    var profile := Recommendations.Profile(evaluations, userId);
    if Recommendations.NoResults(profile) {
      return Err(IllegalState(NoEvaluations));
    }
    var dto := GetUserSkills(skillsCall);
    if dto.Err? {
      return Err(dto.error);
    }
    var skills := UserSkills(dto.value);
    if areas == [] {
      return Err(IllegalState(NoAreas));
    }
    if skills.None? {
      return Err(Runtime(GenerationFailed));
    }
    var parsed := ReadRecommendations(ask(profile, skills.value, Infos(areas)));
    if parsed.None? {
      return Err(Runtime(GenerationFailed));
    }
    var found := Recommendations.Match(ToPicks(parsed.value), areas, AreaId, AreaNotFoundPrefix);
    if found.Err? {
      return Err(found.error);
    }
    return Ok(NewRows(found.value, userId, |rows| + 1));
  }

  /**
   * The failures of generation, in the order the source meets them: no
   * results, then a failed skills call (a user unknown to the directory is
   * "User not found"), then an empty catalog.
   */
  lemma GeneratedErrors(rows: seq<SpecializationRecommendation>, areas: seq<SpecializationArea>, ask: Asker,
                        evaluations: seq<CompletedEvaluation>, userId: int, skillsCall: SkillsCall)
    ensures var profile := Recommendations.Profile(evaluations, userId);
      var g := Generated(rows, areas, ask, evaluations, userId, skillsCall);
      (Recommendations.NoResults(profile) ==> g == Err(IllegalState(NoEvaluations))) &&
      (!Recommendations.NoResults(profile) && skillsCall.SkillsClientError? && skillsCall.statusCode == 404 ==>
         g == Err(IllegalArgument(UserNotFound))) &&
      (!Recommendations.NoResults(profile) && !skillsCall.SkillsAnswered? ==> g == Err(GetUserSkills(skillsCall).error)) &&
      (!Recommendations.NoResults(profile) && skillsCall.SkillsAnswered? && areas == [] ==>
         g == Err(IllegalState(NoAreas)))
  {
  }

  /**
   * Generation succeeds exactly when there are results, the skills call
   * answers with a skill map, the catalog is not empty, the oracle's answer
   * parses and every entry names an area; the saved rows then follow the
   * parsed answer one entry per element and in order, each for this user and
   * the area its `specializationId` names.
   */
  lemma GeneratedSpec(rows: seq<SpecializationRecommendation>, areas: seq<SpecializationArea>, ask: Asker,
                      evaluations: seq<CompletedEvaluation>, userId: int, skillsCall: SkillsCall)
    ensures var profile := Recommendations.Profile(evaluations, userId);
      Generated(rows, areas, ask, evaluations, userId, skillsCall).Ok? <==>
        !Recommendations.NoResults(profile) && skillsCall.SkillsAnswered? && areas != [] &&
        UserSkills(skillsCall.body).Some? &&
        var answer := ask(profile, UserSkills(skillsCall.body).value, Infos(areas));
        ReadAnswer(answer).Some? &&
        forall i :: 0 <= i < |ReadAnswer(answer).value| ==>
          Recommendations.Known(areas, AreaId, ToPicks(ReadAnswer(answer).value)[i])
    ensures var profile := Recommendations.Profile(evaluations, userId);
      var g := Generated(rows, areas, ask, evaluations, userId, skillsCall);
      g.Ok? ==>
        var answer := ask(profile, UserSkills(skillsCall.body).value, Infos(areas));
        |g.value| == |ReadAnswer(answer).value| &&
        forall i :: 0 <= i < |g.value| ==>
          g.value[i].id == |rows| + 1 + i && g.value[i].userId == userId && g.value[i].specializationArea in areas &&
          g.value[i].specializationArea.id == ReadAnswer(answer).value[i].specializationId &&
          g.value[i].compatibilityPercentage == ReadAnswer(answer).value[i].compatibilityPercentage
  {
    var profile := Recommendations.Profile(evaluations, userId);
    var g := Generated(rows, areas, ask, evaluations, userId, skillsCall);
    if g.Ok? {
      var parsed := ReadAnswer(ask(profile, UserSkills(skillsCall.body).value, Infos(areas))).value;
      var picks := ToPicks(parsed);
      var found := Recommendations.Matched(picks, areas, AreaId, AreaNotFoundPrefix).value;
      assert g.value == NewRows(found, userId, |rows| + 1);
      forall i | 0 <= i < |g.value|
        ensures g.value[i].specializationArea in areas && g.value[i].specializationArea.id == parsed[i].specializationId
      {
        assert picks[i].targetId == parsed[i].specializationId;
      }
    }
  }

  /**
   * Saving generated rows for a user who had none makes them exactly the
   * user's saved recommendations, best first: the next uncached call serves
   * them without asking the oracle again.
   */
  lemma GeneratedThenPersisted(rows: seq<SpecializationRecommendation>, userId: int,
                               generated: seq<SpecializationRecommendation>)
    requires Persisted(rows, userId) == []
    requires forall x :: x in generated ==> x.userId == userId
    ensures multiset(Persisted(rows + generated, userId)) == multiset(generated)
    ensures Ranking.SortedDesc(Persisted(rows + generated, userId), Compatibility)
  {
    RowsOfAppend(rows, generated, userId);
    assert RowsOf(rows, userId) == [] by {
      assert |multiset(RowsOf(rows, userId))| == |multiset(Persisted(rows, userId))|;
    }
    RowsOfAll(generated, userId);
  }

  // ---------------------------------------------------------------- the service

  class SpecializationService {
    /** The `specialization_areas` table; ids are positions + 1. */
    var areas: seq<SpecializationArea>
    /** The career catalog the areas refer to. */
    var careers: seq<Career>
    /** The `specialization_recommendations` table. */
    var recommendations: seq<SpecializationRecommendation>
    var cache: map<int, Recommendations.CachedRecommendations<Response>>
    const ask: Asker

    ghost predicate Valid()
      reads this
    {
      (forall i :: 0 <= i < |areas| ==> areas[i].id == i + 1) &&
      (forall i :: 0 <= i < |recommendations| ==> recommendations[i].id == i + 1)
    }

    constructor(careers: seq<Career>, ask: Asker)
      ensures Valid()
      ensures this.careers == careers && this.ask == ask
      ensures areas == [] && recommendations == [] && cache == map[]
    {
      this.careers := careers;
      this.ask := ask;
      areas := [];
      recommendations := [];
      cache := map[];
    }

    /** `getRecommendedSpecializations` at time `now`. */
    method GetRecommendedSpecializations(userId: int, userExists: bool, evaluations: seq<CompletedEvaluation>,
                                         skillsCall: SkillsCall, now: int)
      returns (r: Result<seq<Response>>)
      requires Valid()
      modifies this
      ensures Valid() && areas == old(areas) && careers == old(careers)
      ensures !userExists ==>
        r == Err(IllegalArgument(UserNotFound)) && recommendations == old(recommendations) && cache == old(cache)
      ensures userExists && Recommendations.CacheLookup(old(cache), userId, now).Some? ==>
        r == Ok(Recommendations.CacheLookup(old(cache), userId, now).value) &&
        recommendations == old(recommendations) && cache == old(cache)
      ensures userExists && Recommendations.CacheLookup(old(cache), userId, now).None? &&
              Persisted(old(recommendations), userId) != [] ==>
        r == Ok(SpecializationMapper.RecommendationResponses(Persisted(old(recommendations), userId))) &&
        recommendations == old(recommendations)
      ensures userExists && Recommendations.CacheLookup(old(cache), userId, now).None? &&
              Persisted(old(recommendations), userId) == [] ==>
        var g := Generated(old(recommendations), areas, ask, evaluations, userId, skillsCall);
        (g.Err? ==> r == Err(g.error) && recommendations == old(recommendations) && cache == old(cache)) &&
        (g.Ok? ==> r == Ok(SpecializationMapper.RecommendationResponses(g.value)) &&
                   recommendations == old(recommendations) + g.value)
      ensures r.Ok? && Recommendations.CacheLookup(old(cache), userId, now).None? ==>
        cache == old(cache)[userId := Recommendations.NewCacheEntry(r.value, now)]
      ensures r.Ok? ==> Recommendations.CacheLookup(cache, userId, now) == Some(r.value)
    {
      if !userExists {
        return Err(IllegalArgument(UserNotFound));
      }
      var cached := Recommendations.CacheLookup(cache, userId, now);
      if cached.Some? {
        return Ok(cached.value);
      }
      var existing := Persisted(recommendations, userId);
      if existing != [] {
        var responses := SpecializationMapper.RecommendationResponses(existing);
        cache := cache[userId := Recommendations.NewCacheEntry(responses, now)];
        return Ok(responses);
      }
      var generated := Generate(recommendations, areas, ask, evaluations, userId, skillsCall);
      if generated.Err? {
        return Err(generated.error);
      }
      var saved := generated.value;
      recommendations := recommendations + saved;
      var responses := SpecializationMapper.RecommendationResponses(saved);
      cache := cache[userId := Recommendations.NewCacheEntry(responses, now)];
      return Ok(responses);
    }

    /** `getSpecializationDetails`: the area with what the social-media lookup says about its name. */
    function GetSpecializationDetails<D>(specializationId: int, socialMediaData: string -> D)
      : (r: Result<SpecializationMapper.SpecializationDetailResponse<D>>)
      reads this
      ensures r.Err? <==> forall i :: 0 <= i < |areas| ==> areas[i].id != specializationId
      ensures r.Err? ==> r.error == EntityNotFound(DetailsNotFound)
      ensures r.Ok? ==> exists a :: (a in areas && a.id == specializationId && r.value.id == a.id &&
                                     r.value.name == a.name && r.value.socialMediaData == socialMediaData(a.name))
    {
      match Recommendations.FindById(areas, AreaId, specializationId)
      case None => Err(EntityNotFound(DetailsNotFound))
      case Some(a) => Ok(SpecializationMapper.ToDetailResponse(Some(a), socialMediaData(a.name)).value)
    }

    /** `getAllSpecializations`: every area, in table order; an empty catalog is an error. */
    function GetAllSpecializations(): (r: Result<seq<AdminMapper.SpecializationAreaResponse>>)
      reads this
      ensures r.Err? <==> areas == []
      ensures r.Err? ==> r.error == IllegalArgument(NoAreasListed)
      ensures r.Ok? ==> |r.value| == |areas|
      ensures r.Ok? ==> forall i :: 0 <= i < |areas| ==> r.value[i] == AdminMapper.SpecializationResponseOf(areas[i])
    {
      if areas == [] then Err(IllegalArgument(NoAreasListed))
      else
        var all := areas;
        Ok(seq(|all|, i requires 0 <= i < |all| => AdminMapper.SpecializationResponseOf(all[i])))
    }

    /** `getSpecializationById`. */
    function GetSpecializationById(specializationId: int): (r: Result<AdminMapper.SpecializationAreaResponse>)
      reads this
      ensures r.Err? <==> forall i :: 0 <= i < |areas| ==> areas[i].id != specializationId
      ensures r.Err? ==> r.error == EntityNotFound(ByIdNotFound)
      ensures r.Ok? ==> exists i :: (0 <= i < |areas| && areas[i].id == specializationId &&
                                     r.value == AdminMapper.SpecializationResponseOf(areas[i]))
    {
      match Recommendations.FindById(areas, AreaId, specializationId)
      case None => Err(EntityNotFound(ByIdNotFound))
      case Some(a) => Ok(AdminMapper.SpecializationResponseOf(a))
    }

    /** `createSpecialization`: a new area of an existing career, saved with the next id. */
    method CreateSpecialization(request: SpecializationAreaRequest) returns (r: Result<AdminMapper.SpecializationAreaResponse>)
      requires Valid()
      modifies this
      ensures Valid() && careers == old(careers) && recommendations == old(recommendations) && cache == old(cache)
      ensures r.Err? <==> forall i :: 0 <= i < |careers| ==> careers[i].id != request.careerId
      ensures r.Err? ==> r.error == EntityNotFound(CareerNotFound) && areas == old(areas)
      ensures r.Ok? ==>
        var career := Recommendations.FindById(careers, CareerId, request.careerId).value;
        var saved := AdminMapper.ToSpecializationEntity(Some(request), Some(career)).value.(id := |old(areas)| + 1);
        areas == old(areas) + [saved] && r.value == AdminMapper.SpecializationResponseOf(saved)
    {
      var career := Recommendations.FindById(careers, CareerId, request.careerId);
      if career.None? {
        return Err(EntityNotFound(CareerNotFound));
      }
      var saved := AdminMapper.ToSpecializationEntity(Some(request), career).value.(id := |areas| + 1);
      areas := areas + [saved];
      return Ok(AdminMapper.SpecializationResponseOf(saved));
    }

    /**
     * `updateSpecialization`: the area must exist, then the career; the area
     * keeps its id and takes the request's columns and career.
     */
    method UpdateSpecialization(specializationId: int, request: SpecializationAreaRequest)
      returns (r: Result<AdminMapper.SpecializationAreaResponse>)
      requires Valid()
      modifies this
      ensures Valid() && careers == old(careers) && recommendations == old(recommendations) && cache == old(cache)
      ensures r.Err? <==> (forall i :: 0 <= i < |old(areas)| ==> old(areas)[i].id != specializationId) ||
                          (forall i :: 0 <= i < |careers| ==> careers[i].id != request.careerId)
      ensures (forall i :: 0 <= i < |old(areas)| ==> old(areas)[i].id != specializationId) ==>
        r == Err(EntityNotFound(UpdateNotFound)) && areas == old(areas)
      ensures (exists i :: 0 <= i < |old(areas)| && old(areas)[i].id == specializationId) &&
              (forall i :: 0 <= i < |careers| ==> careers[i].id != request.careerId) ==>
        r == Err(EntityNotFound(CareerNotFound)) && areas == old(areas)
      ensures r.Ok? ==>
        var k := specializationId - 1;
        0 <= k < |areas| && |areas| == |old(areas)| &&
        (forall i :: 0 <= i < |areas| && i != k ==> areas[i] == old(areas)[i]) &&
        areas[k] == AdminMapper.CopyToSpecializationEntity(Some(request), old(areas)[k],
          Recommendations.FindById(careers, CareerId, request.careerId)) &&
        r.value == AdminMapper.SpecializationResponseOf(areas[k])
    {
      if !(1 <= specializationId <= |areas|) {
        return Err(EntityNotFound(UpdateNotFound));
      }
      var k := specializationId - 1;
      assert areas[k].id == specializationId;
      var career := Recommendations.FindById(careers, CareerId, request.careerId);
      if career.None? {
        return Err(EntityNotFound(CareerNotFound));
      }
      var updated := AdminMapper.CopyToSpecializationEntity(Some(request), areas[k], career);
      areas := areas[k := updated];
      return Ok(AdminMapper.SpecializationResponseOf(updated));
    }
  }
}
