/**
 * `CareerMapper`: builds the career responses and the favourite-career entity.
 * Every mapper answers `null` (here `None`) for a `null` argument.
 */
module CareerMapper {
  import opened Common
  import opened Entities

  /** A recommended career as the client sees it (`CareerRecommendationResponse`). */
  datatype CareerRecommendationResponse = CareerRecommendationResponse(
    id: int,
    name: string,
    description: Option<string>,
    compatibilityPercentage: int,
    durationSemesters: Option<int>,
    averageSalary: Option<int>)

  /** `CareerDetailResponse`; `D` is whatever the social-media lookup returned. */
  datatype CareerDetailResponse<D> = CareerDetailResponse(
    id: int,
    name: string,
    description: Option<string>,
    durationSemesters: Option<int>,
    graduateProfile: Option<string>,
    jobField: Option<string>,
    averageSalary: Option<int>,
    socialMediaData: D)

  datatype FavoriteCareerResponse = FavoriteCareerResponse(
    id: int,
    careerId: int,
    careerName: string,
    notes: Option<string>,
    active: bool)

  /** The response for one (non-null) recommendation row. */
  function RecommendationResponse(row: CareerRecommendation): (r: CareerRecommendationResponse)
    ensures r.id == row.career.id && r.name == row.career.name
    ensures r.description == row.career.description
    ensures r.durationSemesters == row.career.durationSemesters
    ensures r.averageSalary == row.career.averageSalary
    ensures r.compatibilityPercentage == row.compatibilityPercentage
  {
    CareerRecommendationResponse(row.career.id, row.career.name, row.career.description,
      row.compatibilityPercentage, row.career.durationSemesters, row.career.averageSalary)
  }

  /** `toRecommendationResponse`. */
  function ToRecommendationResponse(entity: Option<CareerRecommendation>): (r: Option<CareerRecommendationResponse>)
    ensures r.None? <==> entity.None?
    ensures r.Some? ==> r.value == RecommendationResponse(entity.value)
  {
    if entity.None? then None else Some(RecommendationResponse(entity.value))
  }

  /** The responses of a list of rows, in list order. */
  function RecommendationResponses(rows: seq<CareerRecommendation>): (r: seq<CareerRecommendationResponse>)
    ensures |r| == |rows|
    ensures forall i :: 0 <= i < |rows| ==> r[i] == RecommendationResponse(rows[i])
  {
    seq(|rows|, i requires 0 <= i < |rows| => RecommendationResponse(rows[i]))
  }

  /** `toDetailResponse`: the career's own columns and the social-media data as given. */
  function ToDetailResponse<D>(entity: Option<Career>, socialMediaData: D): (r: Option<CareerDetailResponse<D>>)
    ensures r.None? <==> entity.None?
    ensures r.Some? ==>
      var c := entity.value;
      r.value.id == c.id && r.value.name == c.name && r.value.description == c.description &&
      r.value.durationSemesters == c.durationSemesters && r.value.graduateProfile == c.graduateProfile &&
      r.value.jobField == c.jobField && r.value.averageSalary == c.averageSalary &&
      r.value.socialMediaData == socialMediaData
  {
    match entity
    case None => None
    case Some(c) =>
      Some(CareerDetailResponse(c.id, c.name, c.description, c.durationSemesters,
        c.graduateProfile, c.jobField, c.averageSalary, socialMediaData))
  }

  /** The response for one (non-null) favourite row. */
  function FavoriteResponse(f: Favorite<Career>): (r: FavoriteCareerResponse)
    ensures r.id == f.id && r.careerId == f.target.id && r.careerName == f.target.name
    ensures r.notes == f.notes && r.active == f.active
  {
    FavoriteCareerResponse(f.id, f.target.id, f.target.name, f.notes, f.active)
  }

  /** `toFavoriteResponse`. */
  function ToFavoriteResponse(entity: Option<Favorite<Career>>): (r: Option<FavoriteCareerResponse>)
    ensures r.None? <==> entity.None?
    ensures r.Some? ==> r.value == FavoriteResponse(entity.value)
  {
    if entity.None? then None else Some(FavoriteResponse(entity.value))
  }

  /** The favourite row `toFavoriteEntity` builds from present arguments (not saved yet: id 0). */
  function NewFavorite(dto: FavoriteCareerRequest, userId: int, career: Career): (f: Favorite<Career>)
    ensures f.active && f.id == 0
    ensures f.userId == userId && f.target == career && f.notes == dto.notes
  {
    Favorite(0, userId, career, dto.notes, true)
  }

  /** `toFavoriteEntity`: `null` when any argument is `null`. */
  function ToFavoriteEntity(dto: Option<FavoriteCareerRequest>, userId: Option<int>, career: Option<Career>)
    : (r: Option<Favorite<Career>>)
    ensures r.None? <==> dto.None? || userId.None? || career.None?
    ensures r.Some? ==> r.value == NewFavorite(dto.value, userId.value, career.value)
  {
    if dto.None? || userId.None? || career.None? then None
    else Some(NewFavorite(dto.value, userId.value, career.value))
  }

  /**
   * Building a favourite and reporting it gives back the career's id and name
   * and the request's notes, marked active.
   */
  lemma FavoriteRoundTrip(dto: FavoriteCareerRequest, userId: int, career: Career)
    ensures ToFavoriteResponse(ToFavoriteEntity(Some(dto), Some(userId), Some(career))) ==
      Some(FavoriteCareerResponse(0, career.id, career.name, dto.notes, true))
  {
  }
}
